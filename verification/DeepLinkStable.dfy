/** Resolving a link twice, and what becomes of its query. */
module DeepLinkStable {
  import opened Wrappers
  import opened Paths
  import opened Text
  import opened DeepLink
  import opened ServiceWorker
  import opened DeepLinkProofs
  import opened PruneOrder

  predicate SpaceFree(s: string) {
    forall c :: c in s ==> !IsSpace(c)
  }

  predicate NoEmptySegment(path: string) {
    forall i :: 0 <= i < |path| - 1 ==> !(path[i] == '/' && path[i + 1] == '/')
  }

  /** A relative link without space and without an empty path segment but for a trailing slash. */
  predicate Clean(raw: string) {
    Relative(raw) && SpaceFree(raw) && NoEmptySegment(Before(raw, '?'))
  }

  ghost predicate EncodesWithoutSpace(pl: Platform) {
    forall s :: SpaceFree(pl.encode(s))
  }

  lemma TwoSlashes(s: string)
    requires s != "" && s[0] == '/'
    ensures "//" <= s <==> |s| > 1 && s[1] == '/'
  {}

  // ---- resolving twice ----

  lemma TargetIsItself(y: string, pl: Platform)
    requires Relative(y)
    ensures PathAndQuery(y, pl) == Some(y)
  {
    assert !IsSpace('/');
    TrimmedIsItself(y);
  }

  lemma WithQuerySplits(path: string, query: string)
    requires path != "" && path[0] == '/' && !("//" <= path) && '?' !in path && SpaceFree(path) && SpaceFree(query)
    ensures var y := WithQuery(path, query);
            Relative(y) && Before(y, '?') == path && After(y, '?') == query
  {
    var y := WithQuery(path, query);
    assert y == path || (y == path + ['?'] + query && y[|path|] == '?');
    TwoSlashes(path);
    TwoSlashes(y);
    SplitsAt(path, '?', query);
    assert y[|y| - 1] == if query != "" then query[|query| - 1] else path[|path| - 1];
  }

  /** What a resolved link looks like when read again: its path, its query, nothing to trim. */
  lemma ReadsBack(path: string, query: string, pruned: seq<string>, segments: seq<string>, pl: Platform)
    requires path != "" && path[0] == '/' && !("//" <= path) && '?' !in path && NoTrailingSlash(path)
    requires SpaceFree(path) && SpaceFree(query)
    ensures ResolveDeepLink(WithQuery(path, query), pruned, segments, pl)
         == if ServedHere(path, pruned, segments) then Some(Rewrite(path, query, pl)) else Some("/")
  {
    WithQuerySplits(path, query);
    TargetIsItself(WithQuery(path, query), pl);
  }

  lemma CleanParts(raw: string)
    requires Clean(raw)
    ensures SpaceFree(PathOf(raw)) && SpaceFree(After(raw, '?'))
  {
    PartsOf(raw, '?');
    var whole := Before(raw, '?');
    assert forall c :: c in PathOf(raw) ==> c in whole;
  }

  /** The path of a clean link, once its trailing slash is gone. */
  lemma CleanPath(raw: string)
    requires Clean(raw)
    ensures var path := PathOf(raw);
            && path != "" && path[0] == '/' && !("//" <= path) && '?' !in path && NoTrailingSlash(path)
            && SpaceFree(path) && SpaceFree(After(raw, '?'))
  {
    CleanParts(raw);
    NoQueryInPath(raw);
    SplitIsWhole(raw, '?');
    var path := PathOf(raw);
    assert Before(raw, '?')[0] == '/' && path <= raw;
    TwoSlashes(raw);
    TwoSlashes(path);
  }

  lemma DetailIsClean(parent: string, child: string)
    requires |parent| > 1 && parent[0] == '/' && parent[1] != '/'
    requires SpaceFree(parent) && '?' !in parent && SpaceFree(child) && '?' !in child
    requires child != "" ==> child[|child| - 1] != '/'
    ensures var route := DetailPath(parent, child);
            && route != "" && route[0] == '/' && !("//" <= route) && '?' !in route && NoTrailingSlash(route)
            && SpaceFree(route)
  {
    var route := DetailPath(parent, child);
    assert SpaceFree("/detail") && SpaceFree("/") && '?' !in "/detail" && '?' !in "/";
    assert route[0] == parent[0] && route[1] == parent[1];
    TwoSlashes(route);
    assert route[|route| - 1] == if child != "" then child[|child| - 1] else 'l';
  }

  lemma ChildIsClean(path: string, parent: string, rest: string)
    requires path == parent + "/" + rest && rest != ""
    requires '?' !in path && SpaceFree(path) && NoTrailingSlash(path)
    ensures var child := After(rest, '/');
            && SpaceFree(parent) && '?' !in parent && SpaceFree(child) && '?' !in child
            && (child != "" ==> child[|child| - 1] != '/')
  {
    SplitIsWhole(rest, '/');
    var child := After(rest, '/');
    assert forall c :: c in rest ==> c in path;
    assert forall c :: c in child ==> c in rest;
    assert forall c :: c in parent ==> c in path;
    if child != "" {
      assert path[|path| - 1] == rest[|rest| - 1] == child[|child| - 1];
    }
  }

  lemma DetailQueryIsClean(id: string, query: string, pl: Platform)
    requires EncodesWithoutSpace(pl) && SpaceFree(query)
    ensures SpaceFree(DetailQuery(id, query, pl))
  {
    assert SpaceFree("id=") && SpaceFree("&") && SpaceFree("");
  }

  lemma RouteIsClean(path: string)
    requires IsLegacy(path) && '?' !in path && SpaceFree(path) && NoTrailingSlash(path)
    ensures var route := RouteOf(path);
            && route != "" && route[0] == '/' && !("//" <= route) && '?' !in route && NoTrailingSlash(route)
            && SpaceFree(route)
  {
    TakenApart(path);
    var parent := ParentOf(path, SW_DYNAMIC_PARENTS).value;
    var rest := path[|parent| + 1..];
    ParentShape(parent);
    ChildIsClean(path, parent, rest);
    DetailIsClean(parent, After(rest, '/'));
  }

  /** A rewritten route is not rewritten again. */
  lemma RouteIsNotLegacy(path: string)
    requires IsLegacy(path)
    ensures !IsLegacy(RouteOf(path))
  {
    RouteLiesBelowParent(path);
    RouteSegment(path);
    SameLists();
    ParentIs(RouteOf(path), ParentOf(path, SW_DYNAMIC_PARENTS).value);
  }

  /** A path as `PathOf` leaves it: absolute, no query, nothing to trim or to strip. */
  predicate CleanTarget(path: string) {
    path != "" && path[0] == '/' && !("//" <= path) && '?' !in path && NoTrailingSlash(path) && SpaceFree(path)
  }

  lemma RouteResolvesToItself(
    path: string, query: string, pruned: seq<string>, segments: seq<string>, pl: Platform)
    requires CleanTarget(path) && SpaceFree(query) && IsLegacy(path) && ServedHere(path, pruned, segments)
    requires OrderSafe(pruned) && EncodesWithoutSpace(pl)
    ensures ResolveDeepLink(Rewrite(path, query, pl), pruned, segments, pl) == Some(Rewrite(path, query, pl))
  {
    var parent := ParentOf(path, SW_DYNAMIC_PARENTS).value;
    var id := Before(path[|parent| + 1..], '/');
    RewriteOfLegacy(path, query, pl);
    RouteIsClean(path);
    DetailQueryIsClean(id, query, pl);
    CheckCommutes(path, pruned, segments);
    RouteIsNotLegacy(path);
    RouteStays(RouteOf(path), DetailQuery(id, query, pl), pruned, segments, pl);
  }

  /** A clean link that is not legacy and is served here stays as it is. */
  lemma RouteStays(path: string, query: string, pruned: seq<string>, segments: seq<string>, pl: Platform)
    requires CleanTarget(path) && SpaceFree(query) && !IsLegacy(path) && ServedHere(path, pruned, segments)
    ensures ResolveDeepLink(WithQuery(path, query), pruned, segments, pl) == Some(WithQuery(path, query))
  {
    RewriteOfOther(path, query, pl);
    ReadsBack(path, query, pruned, segments, pl);
  }

  /**
   * Resolving a resolved link changes nothing, whatever segments the build lists: relative
   * links without space or empty segment, and a prune list whose check may come after the rewrite.
   */
  lemma ResolvingIsIdempotent(raw: string, pruned: seq<string>, segments: seq<string>, pl: Platform)
    requires Clean(raw) && OrderSafe(pruned) && EncodesWithoutSpace(pl)
    ensures ResolveDeepLink(raw, pruned, segments, pl).Some?
    ensures var y := ResolveDeepLink(raw, pruned, segments, pl).value;
            ResolveDeepLink(y, pruned, segments, pl) == Some(y)
  {
    CleanPath(raw);
    TargetIsItself(raw, pl);
    var path, query := PathOf(raw), After(raw, '?');
    if !ServedHere(path, pruned, segments) {
      HomeIsHome(pruned, segments, pl);
    } else if IsLegacy(path) {
      RouteResolvesToItself(path, query, pruned, segments, pl);
    } else {
      RewriteOfOther(path, query, pl);
      RouteStays(path, query, pruned, segments, pl);
    }
  }

  lemma HomeIsHome(pruned: seq<string>, segments: seq<string>, pl: Platform)
    ensures ResolveDeepLink("/", pruned, segments, pl) == Some("/")
  {
    HomeIsNotLegacy("/");
    RewriteOfOther("/", "", pl);
    ReadsBack("/", "", pruned, segments, pl);
  }

  lemma HomeIsNotLegacy(path: string)
    requires |path| <= 1
    ensures !IsLegacy(path)
  {
    SameLists();
    ParentIsPrefix(path, SW_DYNAMIC_PARENTS);
  }

  /** The query of the link survives: alone, or after the id of the record when the link is rewritten. */
  lemma QuerySurvives(raw: string, pruned: seq<string>, segments: seq<string>, pl: Platform)
    requires Clean(raw) && ServedHere(PathOf(raw), pruned, segments)
    ensures var path, query := PathOf(raw), After(raw, '?');
            ResolveDeepLink(raw, pruned, segments, pl) ==
            Some(if !IsLegacy(path) then WithQuery(path, query)
                 else RouteOf(path) + "?id="
                      + pl.encode(match pl.decode(RecordOf(path)) case Some(text) => text case None => RecordOf(path))
                      + (if query != "" then "&" + query else ""))
  {
    TargetIsItself(raw, pl);
    var path, query := PathOf(raw), After(raw, '?');
    if IsLegacy(path) {
      RewriteOfLegacy(path, query, pl);
      var encoded, extra := pl.encode(SafeDecode(pl, RecordOf(path))), if query != "" then "&" + query else "";
      JoinsQuery(RouteOf(path), encoded, extra);
    } else {
      RewriteOfOther(path, query, pl);
    }
  }
}
