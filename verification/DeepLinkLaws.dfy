/** What the link resolver opens at all, where it may lead, and what a build serves. */
module DeepLinkLaws {
  import opened Wrappers
  import opened Paths
  import opened Text
  import opened DeepLink
  import opened ServiceWorker
  import opened DeepLinkProofs
  import opened PruneOrder

  /**
   * There is nothing to open exactly for white space, for a link that starts with two slashes,
   * and for any other text that is neither a path nor an absolute URL.
   */
  lemma NothingToOpenIff(raw: string, pruned: seq<string>, segments: seq<string>, pl: Platform)
    ensures ResolveDeepLink(raw, pruned, segments, pl) == None
            <==> Trim(raw) == "" || "//" <= Trim(raw) || (Trim(raw)[0] != '/' && pl.urlOf(Trim(raw)) == None)
  {}

  /** A path of this site: one slash, then anything but another. */
  predicate StaysHere(path: string) {
    path != "" && path[0] == '/' && !("//" <= path)
  }

  lemma StaysThroughQuery(target: string)
    requires StaysHere(target)
    ensures StaysHere(PathOf(target)) && PathOf(target) <= target
  {
    SplitIsWhole(target, '?');
    assert Before(target, '?')[0] == '/';
    SecondCharacter(target);
    SecondCharacter(PathOf(target));
  }

  lemma SecondCharacter(s: string)
    requires s != "" && s[0] == '/'
    ensures StaysHere(s) <==> |s| == 1 || s[1] != '/'
  {}

  lemma RewriteStaysHere(path: string, query: string, pl: Platform)
    requires StaysHere(path)
    ensures StaysHere(Rewrite(path, query, pl))
  {
    SecondCharacter(path);
    if IsLegacy(path) {
      RewriteOfLegacy(path, query, pl);
      RouteLiesBelowParent(path);
      ParentShape(ParentOf(path, SW_DYNAMIC_PARENTS).value);
    } else {
      RewriteOfOther(path, query, pl);
    }
    SecondCharacter(Rewrite(path, query, pl));
  }

  /** Every answer is a path of this site, when the paths read off absolute URLs are. */
  lemma AnswersStayHere(raw: string, pruned: seq<string>, segments: seq<string>, pl: Platform)
    requires forall s :: pl.urlOf(s).Some? ==> StaysHere(pl.urlOf(s).value)
    ensures var answer := ResolveDeepLink(raw, pruned, segments, pl); answer.Some? ==> StaysHere(answer.value)
  {
    var target := PathAndQuery(raw, pl);
    if target.Some? {
      StaysThroughQuery(target.value);
      RewriteStaysHere(PathOf(target.value), After(target.value, '?'), pl);
    }
  }

  /** A relative link whose page the build does not serve opens the home page. */
  lemma UnservedOpensHome(raw: string, pruned: seq<string>, segments: seq<string>, pl: Platform)
    requires Relative(raw)
    requires PrunedBy(pruned, PathOf(raw))
             || (segments != [] && FirstSegment(PathOf(raw)) != "" && FirstSegment(PathOf(raw)) !in segments)
    ensures ResolveDeepLink(raw, pruned, segments, pl) == Some("/")
  {
    assert !IsSpace('/');
    TrimmedIsItself(raw);
  }

  /** A starred entry drops its folder and what lies in it; any other entry drops its own page alone. */
  lemma PrunesFolderOrPage(folder: string, page: string, path: string)
    requires |page| < 2 || page[|page| - 2..] != "/*"
    ensures Prunes(folder + "/*", path) <==> path == folder || folder + "/" <= path
    ensures Prunes(page, path) <==> path == page
  {
    var e := folder + "/*";
    assert e[|e| - 2..] == "/*" && e[..|e| - 2] == folder;
  }

  lemma SegmentThenRest(segment: string, rest: string)
    requires '/' !in segment && (rest == "" || rest[0] == '/')
    ensures Before(segment + rest, '/') == segment
  {
    if rest == "" {
      SplitsAt(segment, '/', "");
      assert segment + rest == segment;
    } else {
      SplitsAt(segment, '/', rest[1..]);
      assert segment + rest == segment + ['/'] + rest[1..];
    }
  }

  /** Of what is not pruned, a build serves everything, or its home page and the segments it lists. */
  lemma ServesListedSegments(segment: string, rest: string, segments: seq<string>)
    requires '/' !in segment && (rest == "" || rest[0] == '/')
    ensures ServedHere("/" + segment + rest, [], segments) <==> segments == [] || segment == "" || segment in segments
  {
    var path := "/" + segment + rest;
    assert path[1..] == segment + rest && path[0] == '/';
    SegmentThenRest(segment, rest);
  }

  lemma LiesBelow(parent: string, tail: string)
    ensures var path := parent + "/" + tail; parent + "/" <= path && path[|parent| + 1..] == tail
  {}

  lemma LegacyByTail(parent: string, tail: string)
    requires parent in DYNAMIC_PARENTS
    ensures IsLegacy(parent + "/" + tail) <==> Before(tail, '/') !in {"", "detail", "new", "import", "settings"}
  {
    LiesBelow(parent, tail);
    SameLists();
    ParentIs(parent + "/" + tail, parent);
  }

  /** Below a dynamic parent every segment is an id, but for the four pages that are named there. */
  lemma EverySegmentIsAnIdBut(parent: string, segment: string, rest: string)
    requires parent in DYNAMIC_PARENTS && '/' !in segment && (rest == "" || rest[0] == '/')
    ensures IsLegacy(parent + "/" + (segment + rest)) <==> segment !in {"", "detail", "new", "import", "settings"}
  {
    SegmentThenRest(segment, rest);
    LegacyByTail(parent, segment + rest);
  }
}
