/** What the two link rewriters promise. */
module DeepLinkProofs {
  import opened Wrappers
  import opened Paths
  import opened Text
  import opened DeepLink
  import opened ServiceWorker

  // ---- at most one parent matches ----

  lemma ParentsAreApart(i: nat, j: nat)
    requires i < |DYNAMIC_PARENTS| && j < |DYNAMIC_PARENTS| && i != j
    ensures !(DYNAMIC_PARENTS[i] + "/" <= DYNAMIC_PARENTS[j] + "/")
  {
    var p, q := DYNAMIC_PARENTS[i] + "/", DYNAMIC_PARENTS[j] + "/";
    assert p[1] != q[1] || p[2] != q[2] || p[4] != q[4] || p[5] != q[5]
        || (|p| > 11 && |q| > 11 && p[11] != q[11]);
  }

  /** No path lies below two parents, so the order of the list decides nothing. */
  lemma OneParent(path: string, p: string, q: string)
    requires p in DYNAMIC_PARENTS && q in DYNAMIC_PARENTS && p + "/" <= path && q + "/" <= path
    ensures p == q
  {
    var i :| 0 <= i < |DYNAMIC_PARENTS| && DYNAMIC_PARENTS[i] == p;
    var j :| 0 <= j < |DYNAMIC_PARENTS| && DYNAMIC_PARENTS[j] == q;
    Comparable(p + "/", q + "/", path);
    if i != j {
      ParentsAreApart(i, j);
      ParentsAreApart(j, i);
    }
  }

  lemma {:induction false} SomeParent(path: string, p: string, parents: seq<string>)
    requires p in parents && p + "/" <= path
    ensures ParentOf(path, parents).Some?
    decreases |parents|
  {
    if !(parents[0] + "/" <= path) {
      SomeParent(path, p, parents[1..]);
    }
  }

  /** The parent of a path is the one it lies below, in whatever order the list stands. */
  lemma ParentIs(path: string, p: string)
    requires p in DYNAMIC_PARENTS && p + "/" <= path
    ensures ParentOf(path, DYNAMIC_PARENTS) == Some(p)
  {
    SomeParent(path, p, DYNAMIC_PARENTS);
    ParentIsPrefix(path, DYNAMIC_PARENTS);
    OneParent(path, ParentOf(path, DYNAMIC_PARENTS).value, p);
  }

  // ---- the two rewriters ----

  lemma SameLists()
    ensures SW_DYNAMIC_PARENTS == DYNAMIC_PARENTS
    ensures forall s :: s in SW_NOT_AN_ID <==> s in NOT_AN_ID
  {}

  lemma TrimmedIsItself(s: string)
    requires s != [] ==> !IsSpace(s[0]) && !IsSpace(s[|s| - 1])
    ensures Trim(s) == s
  {}

  /** A relative link as the application meets it: one leading slash, no surrounding space. */
  predicate Relative(raw: string) {
    raw != "" && raw[0] == '/' && !("//" <= raw) && !IsSpace(raw[|raw| - 1])
  }

  /** A path `/` or without a trailing slash. */
  predicate NoTrailingSlash(path: string) {
    path == "/" || path == "" || path[|path| - 1] != '/'
  }

  /**
   * When the worker and the application agree. A rewritten link may end in a slash only right
   * after its id; any other link may have no trailing slash and no empty query.
   */
  predicate Agreeable(raw: string) {
    var path, query := Before(raw, '?'), After(raw, '?');
    if IsLegacy(path) then
      NoTrailingSlash(path) || After(path[|ParentOf(path, SW_DYNAMIC_PARENTS).value| + 1..], '/') == ""
    else NoTrailingSlash(path) && ('?' in raw ==> query != "")
  }

  lemma ResolvesRelative(raw: string, pl: Platform)
    requires Relative(raw)
    ensures ResolveDeepLink(raw, [], [], pl) == Some(Rewrite(PathOf(raw), After(raw, '?'), pl))
  {
    assert !IsSpace('/');
    TrimmedIsItself(raw);
  }

  lemma RewriteOfLegacy(path: string, query: string, pl: Platform)
    requires IsLegacy(path)
    ensures var parent := ParentOf(path, SW_DYNAMIC_PARENTS).value;
            var rest := path[|parent| + 1..];
            Rewrite(path, query, pl) ==
              DetailPath(parent, After(rest, '/')) + "?" + DetailQuery(Before(rest, '/'), query, pl)
  {
    SameLists();
  }

  lemma JoinsQuery(head: string, id: string, extra: string)
    ensures head + "?" + ("id=" + id + extra) == head + "?id=" + id + extra
  {
    assert "?" + "id=" == "?id=";
  }

  lemma LegacyPathIs(raw: string, pl: Platform)
    requires IsLegacy(Before(raw, '?'))
    ensures LegacyPath(raw, pl) == Rewrite(Before(raw, '?'), After(raw, '?'), pl)
  {
    var path, query := Before(raw, '?'), After(raw, '?');
    RewriteOfLegacy(path, query, pl);
    var parent := ParentOf(path, SW_DYNAMIC_PARENTS).value;
    var rest := path[|parent| + 1..];
    var head, id := DetailPath(parent, After(rest, '/')), pl.encode(SafeDecode(pl, Before(rest, '/')));
    var extra := if query != "" then "&" + query else "";
    JoinsQuery(head, id, extra);
  }

  lemma RewriteOfOther(path: string, query: string, pl: Platform)
    requires !IsLegacy(path)
    ensures Rewrite(path, query, pl) == WithQuery(path, query)
  {
    SameLists();
    ParentIsPrefix(path, DYNAMIC_PARENTS);
  }

  lemma {:induction false} SlashAfterwards(s: string)
    ensures Before(s + "/", '/') == Before(s, '/')
    ensures '/' in s ==> After(s + "/", '/') == After(s, '/') + "/"
    decreases |s|
  {
    if s != [] {
      assert (s + "/")[1..] == s[1..] + "/";
      if s[0] != '/' {
        SlashAfterwards(s[1..]);
      }
    }
  }

  lemma BelowParent(path: string, parent: string)
    requires parent + "/" <= path
    ensures path == parent + "/" + path[|parent| + 1..]
  {}

  /** A path below `parent`, taken apart. */
  lemma TakenApart(path: string)
    requires IsLegacy(path)
    ensures var parent := ParentOf(path, SW_DYNAMIC_PARENTS).value;
            var rest := path[|parent| + 1..];
            && parent in DYNAMIC_PARENTS && parent + "/" <= path && path == parent + "/" + rest
            && rest != "" && '/' !in Before(rest, '/')
  {
    ParentIsPrefix(path, SW_DYNAMIC_PARENTS);
    var parent := ParentOf(path, SW_DYNAMIC_PARENTS).value;
    assert parent in DYNAMIC_PARENTS by { SameLists(); }
    BelowParent(path, parent);
    SplitIsWhole(path[|parent| + 1..], '/');
  }

  /** Removing the trailing slash of a path below a parent, with an id, stays below it. */
  lemma CutBelowParent(path: string, cut: string, parent: string)
    requires parent in DYNAMIC_PARENTS && parent + "/" <= path && path == cut + "/"
    requires Before(path[|parent| + 1..], '/') != ""
    ensures parent + "/" <= cut && path[|parent| + 1..] == cut[|parent| + 1..] + "/"
  {
    var rest := path[|parent| + 1..];
    assert rest[0] != '/' && rest[|rest| - 1] == '/';
    assert cut[..|parent| + 1] == path[..|parent| + 1];
  }

  /** Removing a trailing slash keeps a legacy link one, with its parent and its id. */
  lemma StillLegacy(path: string, cut: string)
    requires IsLegacy(path) && path == cut + "/"
    ensures var parent := ParentOf(path, SW_DYNAMIC_PARENTS).value;
            && IsLegacy(cut) && ParentOf(cut, SW_DYNAMIC_PARENTS) == Some(parent)
            && path[|parent| + 1..] == cut[|parent| + 1..] + "/"
            && Before(cut[|parent| + 1..], '/') == Before(path[|parent| + 1..], '/')
  {
    TakenApart(path);
    var parent := ParentOf(path, SW_DYNAMIC_PARENTS).value;
    CutBelowParent(path, cut, parent);
    SlashAfterwards(cut[|parent| + 1..]);
    ParentIs(cut, parent);
    SameLists();
  }

  lemma LegacyWithSlash(path: string, cut: string)
    requires IsLegacy(cut) && path == cut + "/"
    ensures IsLegacy(path)
  {
    TakenApart(cut);
    SameLists();
    var parent := ParentOf(cut, SW_DYNAMIC_PARENTS).value;
    var rest := cut[|parent| + 1..];
    assert path[..|parent| + 1] == cut[..|parent| + 1];
    ParentIs(path, parent);
    SlashAfterwards(rest);
    assert path[|parent| + 1..] == rest + "/";
  }

  lemma ChildWithSlash(rest: string)
    ensures if '/' in rest then After(rest + "/", '/') == After(rest, '/') + "/"
            else After(rest + "/", '/') == "" && After(rest, '/') == ""
  {
    SlashAfterwards(rest);
    if '/' !in rest {
      SplitsAt(rest, '/', "");
      assert rest + ['/'] + "" == rest + "/";
    }
  }

  lemma DetailWithSlash(parent: string, child: string, q: string)
    ensures DetailPath(parent, child + "/") + "?" + q != DetailPath(parent, child) + "?" + q
  {
    assert |DetailPath(parent, child + "/") + "?" + q| > |DetailPath(parent, child) + "?" + q|;
  }

  /** What the trailing slash of a legacy link does to the rewritten route. */
  lemma SlashOfLegacy(path: string, cut: string, query: string, pl: Platform)
    requires IsLegacy(path) && path == cut + "/"
    ensures Rewrite(cut, query, pl) == Rewrite(path, query, pl)
            <==> After(path[|ParentOf(path, SW_DYNAMIC_PARENTS).value| + 1..], '/') == ""
  {
    StillLegacy(path, cut);
    var parent := ParentOf(path, SW_DYNAMIC_PARENTS).value;
    var rest := cut[|parent| + 1..];
    RewriteOfLegacy(path, query, pl);
    RewriteOfLegacy(cut, query, pl);
    ChildWithSlash(rest);
    if '/' in rest {
      DetailWithSlash(parent, After(rest, '/'), DetailQuery(Before(rest, '/'), query, pl));
    }
  }

  lemma CutOrNot(path: string)
    requires path != ""
    ensures var cut := StripTrailingSlash(path);
            if NoTrailingSlash(path) then cut == path else path == cut + "/"
  {}

  lemma SlashDecides(path: string, query: string, pl: Platform)
    requires IsLegacy(path)
    ensures Rewrite(StripTrailingSlash(path), query, pl) == Rewrite(path, query, pl)
            <==> NoTrailingSlash(path) || After(path[|ParentOf(path, SW_DYNAMIC_PARENTS).value| + 1..], '/') == ""
  {
    assert path != "" by { TakenApart(path); }
    CutOrNot(path);
    if !NoTrailingSlash(path) {
      SlashOfLegacy(path, StripTrailingSlash(path), query, pl);
    }
  }

  lemma LegacyAgrees(raw: string, pl: Platform)
    requires Relative(raw) && IsLegacy(Before(raw, '?'))
    ensures ResolveDeepLink(raw, [], [], pl) == Some(LegacyPath(raw, pl)) <==> Agreeable(raw)
  {
    ResolvesRelative(raw, pl);
    LegacyPathIs(raw, pl);
    SlashDecides(Before(raw, '?'), After(raw, '?'), pl);
  }

  lemma CutIsNoLegacy(raw: string)
    requires !IsLegacy(Before(raw, '?'))
    ensures !IsLegacy(PathOf(raw))
  {
    var path, cut := Before(raw, '?'), PathOf(raw);
    if cut != path && IsLegacy(cut) {
      LegacyWithSlash(path, cut);
    }
  }

  /** A link that is put together again as its path and query, exactly when nothing was dropped. */
  lemma PutTogether(raw: string)
    requires raw != ""
    ensures WithQuery(PathOf(raw), After(raw, '?')) == raw
            <==> NoTrailingSlash(Before(raw, '?')) && ('?' in raw ==> After(raw, '?') != "")
  {
    SplitIsWhole(raw, '?');
    var path, query, cut := Before(raw, '?'), After(raw, '?'), PathOf(raw);
    assert |raw| == if '?' in raw then |path| + 1 + |query| else |path|;
    if cut == path && query != "" {
      assert path + "?" + query == path + ['?'] + query;
    }
    assert |WithQuery(cut, query)| == |cut| + if query != "" then 1 + |query| else 0;
  }

  lemma OtherAgrees(raw: string, pl: Platform)
    requires Relative(raw) && !IsLegacy(Before(raw, '?'))
    ensures ResolveDeepLink(raw, [], [], pl) == Some(LegacyPath(raw, pl)) <==> Agreeable(raw)
  {
    ResolvesRelative(raw, pl);
    CutIsNoLegacy(raw);
    RewriteOfOther(PathOf(raw), After(raw, '?'), pl);
    PutTogether(raw);
  }

  /**
   * For a relative link the worker and the application send the user to the same place
   * exactly when the link is agreeable.
   */
  lemma RewritersAgreeIff(raw: string, pl: Platform)
    requires Relative(raw)
    ensures ResolveDeepLink(raw, [], [], pl) == Some(LegacyPath(raw, pl)) <==> Agreeable(raw)
  {
    if IsLegacy(Before(raw, '?')) {
      LegacyAgrees(raw, pl);
    } else {
      OtherAgrees(raw, pl);
    }
  }
}
