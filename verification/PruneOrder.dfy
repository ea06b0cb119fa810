/**
 * The check of what a build serves, made before the rewrite of an old link or after it: for
 * which prune lists the two always agree.
 */
module PruneOrder {
  import opened Wrappers
  import opened Paths
  import opened Text
  import opened DeepLink
  import opened ServiceWorker
  import opened DeepLinkProofs

  /** The route path a legacy path is rewritten to. */
  function RouteOf(path: string): string
    requires IsLegacy(path)
  {
    var parent := ParentOf(path, SW_DYNAMIC_PARENTS).value;
    DetailPath(parent, After(path[|parent| + 1..], '/'))
  }

  /** The id a legacy path names. */
  function RecordOf(path: string): string
    requires IsLegacy(path)
  {
    Before(path[|ParentOf(path, SW_DYNAMIC_PARENTS).value| + 1..], '/')
  }

  ghost predicate PrunedBy(pruned: seq<string>, path: string) {
    exists e :: e in pruned && Prunes(e, path)
  }

  /** Entry `e` drops everything below `parent`. */
  predicate Covers(e: string, parent: string) {
    IsSubtree(e) && EntryBase(e) + "/" <= parent + "/"
  }

  /** What `base` names below `parent`. */
  function Named(base: string, parent: string): string
    requires parent + "/" <= base
  {
    Before(base[|parent| + 1..], '/')
  }

  /** Entry `e` names nothing below `parent` that is an id or the detail page. */
  predicate Harmless(e: string, parent: string) {
    var base := EntryBase(e);
    || !(parent + "/" <= base) || '?' in base || e == parent + "/detail/"
    || Named(base, parent) == "" || (Named(base, parent) in NOT_AN_ID && Named(base, parent) != "detail")
  }

  /** Below every dynamic parent the list drops everything, or names no id and not the detail page. */
  ghost predicate OrderSafe(pruned: seq<string>) {
    forall p :: p in DYNAMIC_PARENTS ==>
      (exists e :: e in pruned && Covers(e, p)) || forall e :: e in pruned ==> Harmless(e, p)
  }

  /** An entry that names no page below a dynamic parent prunes both of two paths below it, or neither. */
  lemma PrunesAlike(e: string, parent: string, p1: string, p2: string)
    requires !(parent + "/" <= EntryBase(e)) && parent + "/" <= p1 && parent + "/" <= p2
    ensures Prunes(e, p1) == Prunes(e, p2)
  {
    var base := EntryBase(e);
    if base + "/" <= p1 {
      Comparable(base + "/", parent + "/", p1);
    }
    if base + "/" <= p2 {
      Comparable(base + "/", parent + "/", p2);
    }
    PrefixShrinks(parent, base);
  }

  lemma PrefixShrinks(p: string, b: string)
    ensures |b| > |p| && p + "/" <= b + "/" ==> p + "/" <= b
  {
    if |b| > |p| {
      assert (b + "/")[..|p| + 1] == b[..|p| + 1];
    }
  }

  lemma RouteLiesBelowParent(path: string)
    requires IsLegacy(path)
    ensures var parent := ParentOf(path, SW_DYNAMIC_PARENTS).value;
            && parent in DYNAMIC_PARENTS && parent + "/" <= path && parent + "/" <= RouteOf(path)
  {
    TakenApart(path);
  }

  /** The first segment of a path below `parent` is the parent's. */
  lemma SegmentOfParent(parent: string, path: string)
    requires parent in DYNAMIC_PARENTS && parent + "/" <= path
    ensures FirstSegment(path) == Before(parent[1..] + "/", '/')
  {
    ParentShape(parent);
    var rest := path[|parent| + 1..];
    BelowParent(path, parent);
    assert path[1..] == parent[1..] + "/" + rest;
    SameFirstSegment(parent[1..], rest, "");
    assert parent[1..] + "/" + "" == parent[1..] + "/";
  }

  lemma SegmentsAlike(parent: string, p1: string, p2: string)
    requires parent in DYNAMIC_PARENTS && parent + "/" <= p1 && parent + "/" <= p2
    ensures FirstSegment(p1) == FirstSegment(p2)
  {
    SegmentOfParent(parent, p1);
    SegmentOfParent(parent, p2);
  }

  // ---- a safe list answers alike ----

  lemma {:induction false} BeforeDetail(tail: string)
    requires tail == "" || tail[0] == '/'
    ensures Before("detail" + tail, '/') == "detail"
  {
    if tail == "" {
      SplitsAt("detail", '/', "");
      assert "detail" + tail == "detail";
    } else {
      SplitsAt("detail", '/', tail[1..]);
      assert "detail" + ['/'] + tail[1..] == "detail" + tail;
    }
  }

  /** What an entry prunes starts with the segment it names. */
  lemma PrunedSegment(e: string, parent: string, path: string)
    requires parent + "/" <= EntryBase(e) && parent + "/" <= path && Prunes(e, path)
    ensures Named(EntryBase(e), parent) == Before(path[|parent| + 1..], '/')
  {
    var base := EntryBase(e);
    if path != base {
      var t, rest := base[|parent| + 1..], path[|base| + 1..];
      BelowParent(base, parent);
      assert path == base + "/" + rest;
      assert path[|parent| + 1..] == t + "/" + rest;
      assert t + "/" == t + "/" + "";
      SameFirstSegment(t, rest, "");
      SlashAfterwards(t);
    }
  }

  lemma RouteSegment(path: string)
    requires IsLegacy(path)
    ensures var parent := ParentOf(path, SW_DYNAMIC_PARENTS).value;
            parent + "/" <= RouteOf(path) && Before(RouteOf(path)[|parent| + 1..], '/') == "detail"
  {
    RouteLiesBelowParent(path);
    var parent := ParentOf(path, SW_DYNAMIC_PARENTS).value;
    var tail := RouteOf(path)[|parent| + 7..];
    assert RouteOf(path)[|parent| + 1..] == "detail" + tail;
    BeforeDetail(tail);
  }

  lemma NoQueryInDetail(parent: string, child: string)
    requires '?' !in parent && '?' !in child
    ensures '?' !in DetailPath(parent, child)
  {}

  lemma NoQueryInRoute(path: string)
    requires IsLegacy(path) && '?' !in path
    ensures '?' !in RouteOf(path)
  {
    TakenApart(path);
    var parent := ParentOf(path, SW_DYNAMIC_PARENTS).value;
    var rest := path[|parent| + 1..];
    PartsOf(rest, '/');
    assert forall c :: c in rest || c in parent ==> c in path;
    NoQueryInDetail(parent, After(rest, '/'));
  }

  /** What an entry prunes holds every character the entry names. */
  lemma PrunedHoldsBase(e: string, path: string)
    requires Prunes(e, path)
    ensures forall c :: c in EntryBase(e) ==> c in path
  {
    var base := EntryBase(e);
    assert base <= path;
    forall c | c in base ensures c in path {
      var i :| 0 <= i < |base| && base[i] == c;
      assert path[i] == c;
    }
  }

  lemma SlashEntry(e: string)
    requires e != "" && e[|e| - 1] == '/'
    ensures !IsSubtree(e) && EntryBase(e) == e
  {}

  lemma DetailFolderPrunesNothing(parent: string, child: string)
    ensures !Prunes(parent + "/detail/", DetailPath(parent, child))
  {
    SlashEntry(parent + "/detail/");
    assert |DetailPath(parent, child)| != |parent + "/detail/"|;
  }

  lemma HarmlessAnswersAlike(e: string, path: string)
    requires IsLegacy(path) && '?' !in path && Harmless(e, ParentOf(path, SW_DYNAMIC_PARENTS).value)
    ensures Prunes(e, path) == Prunes(e, RouteOf(path))
  {
    RouteLiesBelowParent(path);
    RouteSegment(path);
    SameLists();
    var parent, base := ParentOf(path, SW_DYNAMIC_PARENTS).value, EntryBase(e);
    if !(parent + "/" <= base) {
      PrunesAlike(e, parent, path, RouteOf(path));
    } else if '?' in base {
      NoQueryInRoute(path);
      if Prunes(e, path) {
        PrunedHoldsBase(e, path);
      }
      if Prunes(e, RouteOf(path)) {
        PrunedHoldsBase(e, RouteOf(path));
      }
    } else {
      HarmlessPrunesNeither(e, path, parent);
    }
  }

  lemma HarmlessPrunesNeither(e: string, path: string, parent: string)
    requires IsLegacy(path) && ParentOf(path, SW_DYNAMIC_PARENTS) == Some(parent)
    requires parent + "/" <= EntryBase(e) && '?' !in EntryBase(e) && Harmless(e, parent)
    ensures !Prunes(e, path) && !Prunes(e, RouteOf(path))
  {
    RouteLiesBelowParent(path);
    RouteSegment(path);
    SameLists();
    if e == parent + "/detail/" {
      DetailFolderPrunesNothing(parent, After(path[|parent| + 1..], '/'));
      NamedDetail(e, parent);
    } else if Prunes(e, RouteOf(path)) {
      PrunedSegment(e, parent, RouteOf(path));
    }
    if Prunes(e, path) {
      PrunedSegment(e, parent, path);
    }
  }

  lemma NamedDetail(e: string, parent: string)
    requires e == parent + "/detail/"
    ensures EntryBase(e) == e && parent + "/" <= e && Named(e, parent) == "detail"
  {
    SlashEntry(e);
    assert e[|parent| + 1..] == "detail" + "/";
    BeforeDetail("/");
  }

  lemma CoverPrunes(e: string, parent: string, path: string)
    requires Covers(e, parent) && parent + "/" <= path
    ensures Prunes(e, path)
  {
    assert EntryBase(e) + "/" <= path;
  }

  lemma SafeListAnswersAlike(pruned: seq<string>, path: string)
    requires OrderSafe(pruned) && IsLegacy(path) && '?' !in path
    ensures PrunedBy(pruned, path) == PrunedBy(pruned, RouteOf(path))
  {
    RouteLiesBelowParent(path);
    var parent := ParentOf(path, SW_DYNAMIC_PARENTS).value;
    if e :| e in pruned && Covers(e, parent) {
      CoverPrunes(e, parent, path);
      CoverPrunes(e, parent, RouteOf(path));
    } else {
      forall e | e in pruned ensures Prunes(e, path) == Prunes(e, RouteOf(path)) {
        HarmlessAnswersAlike(e, path);
      }
    }
  }

  // ---- a list that always answers alike is safe ----

  ghost predicate AnswersAlike(pruned: seq<string>) {
    forall path :: IsLegacy(path) && '?' !in path ==> (PrunedBy(pruned, path) <==> PrunedBy(pruned, RouteOf(path)))
  }

  function Below(parent: string, id: string, child: string): string {
    parent + "/" + id + (if child != "" then "/" + child else "")
  }

  lemma BelowRest(parent: string, id: string, child: string)
    requires '/' !in id
    ensures var path := Below(parent, id, child);
            && parent + "/" <= path && Before(path[|parent| + 1..], '/') == id
            && After(path[|parent| + 1..], '/') == child
  {
    var path := Below(parent, id, child);
    SplitsAt(id, '/', child);
    if child == "" {
      assert path[|parent| + 1..] == id;
    } else {
      assert path[|parent| + 1..] == id + ['/'] + child;
    }
  }

  lemma RecordIsLegacy(parent: string, id: string, child: string)
    requires parent in DYNAMIC_PARENTS && id != "" && '/' !in id && id !in NOT_AN_ID
    ensures var path := Below(parent, id, child); IsLegacy(path) && RouteOf(path) == DetailPath(parent, child)
  {
    BelowRest(parent, id, child);
    SameLists();
    ParentIs(Below(parent, id, child), parent);
  }

  function Longest(strings: seq<string>): (n: nat)
    ensures forall s :: s in strings ==> |s| <= n
  {
    if strings == [] then 0
    else
      var n := Longest(strings[1..]);
      assert forall s :: s in strings <==> s == strings[0] || s in strings[1..];
      if |strings[0]| > n then |strings[0]| else n
  }

  /** An id longer than every entry: no entry can name it. */
  lemma FreshId(pruned: seq<string>) returns (id: string)
    ensures id != "" && '/' !in id && '?' !in id && id !in NOT_AN_ID
    ensures forall e :: e in pruned ==> |e| < |id|
  {
    id := seq(Longest(pruned) + 9, i => 'x');
    assert |id| > 8;
  }

  lemma SlashInside(folder: string, parent: string, id: string, child: string)
    requires folder <= Below(parent, id, child) && folder != "" && folder[|folder| - 1] == '/'
    requires |parent| + 1 < |folder| <= |parent| + 1 + |id|
    ensures '/' in id
  {
    var i := |folder| - 1 - (|parent| + 1);
    assert Below(parent, id, child)[|folder| - 1] == id[i];
  }

  /** What prunes a record whose id no entry can name prunes everything below its parent. */
  lemma FreshPruneCovers(e: string, parent: string, id: string, child: string)
    requires Prunes(e, Below(parent, id, child)) && |e| < |id| && '/' !in id
    ensures Covers(e, parent)
  {
    var path, folder := Below(parent, id, child), EntryBase(e) + "/";
    assert |folder| < |path| && folder <= path;
    assert parent + "/" <= path;
    Comparable(folder, parent + "/", path);
    if |folder| > |parent| + 1 {
      SlashInside(folder, parent, id, child);
    }
  }

  /** An entry that is not harmless makes some route of the parent pruned, in a list that answers alike. */
  lemma HarmPrunesRoute(pruned: seq<string>, e: string, parent: string) returns (child: string)
    requires AnswersAlike(pruned) && e in pruned && parent in DYNAMIC_PARENTS && !Harmless(e, parent)
    ensures '?' !in child && PrunedBy(pruned, DetailPath(parent, child))
  {
    var base := EntryBase(e);
    var t := base[|parent| + 1..];
    BelowParent(base, parent);
    SplitIsWhole(t, '/');
    assert forall c :: c in t ==> c in base;
    child := After(t, '/');
    assert forall c :: c in child ==> c in t;
    if Named(base, parent) != "detail" {
      SameLists();
      ParentIs(base, parent);
      assert IsLegacy(base) && RouteOf(base) == DetailPath(parent, child);
      assert Prunes(e, base) && PrunedBy(pruned, base);
    } else {
      child := HarmAtDetail(e, parent);
    }
  }

  lemma DetailTail(t: string)
    requires Before(t, '/') == "detail"
    ensures (t == "detail" && After(t, '/') == "") || t == "detail/" + After(t, '/')
  {
    SplitIsWhole(t, '/');
    assert "detail" + ['/'] == "detail/";
  }

  lemma HarmAtDetail(e: string, parent: string) returns (child: string)
    requires parent + "/" <= EntryBase(e) && '?' !in EntryBase(e)
    requires Named(EntryBase(e), parent) == "detail" && e != parent + "/detail/"
    ensures '?' !in child && Prunes(e, DetailPath(parent, child))
  {
    var base := EntryBase(e);
    var t := base[|parent| + 1..];
    BelowParent(base, parent);
    DetailTail(t);
    PartsOf(t, '/');
    assert forall c :: c in t ==> c in base;
    child := After(t, '/');
    if t == "detail" || child != "" {
      DetailJoins(parent, t, child);
    } else {
      DetailFolderEntry(e, parent);
      child := "/";
    }
  }

  lemma DetailJoins(parent: string, t: string, child: string)
    requires (t == "detail" && child == "") || (child != "" && t == "detail/" + child)
    ensures parent + "/" + t == DetailPath(parent, child)
  {
    if child == "" {
      assert DetailPath(parent, child) == parent + "/detail" + "";
    } else {
      assert "/" + ("detail/" + child) == "/detail" + "/" + child;
      assert parent + "/" + t == parent + ("/" + t);
    }
  }

  /** A subtree whose folder is the detail page with a slash prunes what follows a double slash. */
  lemma DetailFolderEntry(e: string, parent: string)
    requires EntryBase(e) == parent + "/" + "detail/" && e != parent + "/detail/"
    ensures Prunes(e, DetailPath(parent, "/"))
  {
    assert parent + "/" + "detail/" == parent + "/detail/";
    assert EntryBase(e) + "/" == DetailPath(parent, "/");
  }

  lemma AlikeListIsSafe(pruned: seq<string>)
    requires AnswersAlike(pruned)
    ensures OrderSafe(pruned)
  {
    forall p | p in DYNAMIC_PARENTS
      ensures (exists e :: e in pruned && Covers(e, p)) || forall e :: e in pruned ==> Harmless(e, p)
    {
      if e :| e in pruned && !Harmless(e, p) {
        var child := HarmPrunesRoute(pruned, e, p);
        var id := FreshId(pruned);
        RecordIsLegacy(p, id, child);
        NoQueryBelow(p, id, child);
        assert PrunedBy(pruned, Below(p, id, child));
        var cover :| cover in pruned && Prunes(cover, Below(p, id, child));
        FreshPruneCovers(cover, p, id, child);
      }
    }
  }

  lemma ParentHasNoQuery(parent: string)
    requires parent in DYNAMIC_PARENTS
    ensures '?' !in parent
  {
    assert forall i :: 0 <= i < |DYNAMIC_PARENTS| ==> '?' !in DYNAMIC_PARENTS[i];
  }

  lemma NoQueryBelow(parent: string, id: string, child: string)
    requires parent in DYNAMIC_PARENTS && '?' !in id && '?' !in child
    ensures '?' !in Below(parent, id, child)
  {
    ParentHasNoQuery(parent);
  }

  lemma AlikeIffSafe(pruned: seq<string>)
    ensures AnswersAlike(pruned) <==> OrderSafe(pruned)
  {
    if OrderSafe(pruned) {
      forall path | IsLegacy(path) && '?' !in path
        ensures PrunedBy(pruned, path) <==> PrunedBy(pruned, RouteOf(path))
      {
        SafeListAnswersAlike(pruned, path);
      }
    }
    if AnswersAlike(pruned) {
      AlikeListIsSafe(pruned);
    }
  }

  // ---- the two orders of the resolver ----

  /** The path a link resolves to, before its query. */
  function Rewritten(path: string): string {
    if IsLegacy(path) then RouteOf(path) else path
  }

  /** `ResolveDeepLink` with the check made on the rewritten path. */
  function ResolveCheckingAfter(raw: string, pruned: seq<string>, segments: seq<string>, pl: Platform): Option<string> {
    match PathAndQuery(raw, pl)
    case None => None
    case Some(target) =>
      if !ServedHere(Rewritten(PathOf(target)), pruned, segments) then Some("/")
      else Some(Rewrite(PathOf(target), After(target, '?'), pl))
  }

  /** The check answers alike for a path and its route. */
  lemma CheckCommutes(path: string, pruned: seq<string>, segments: seq<string>)
    requires IsLegacy(path) && '?' !in path && OrderSafe(pruned)
    ensures ServedHere(path, pruned, segments) == ServedHere(RouteOf(path), pruned, segments)
  {
    RouteLiesBelowParent(path);
    SafeListAnswersAlike(pruned, path);
    SegmentsAlike(ParentOf(path, SW_DYNAMIC_PARENTS).value, path, RouteOf(path));
    assert PrunedBy(pruned, path) == !forall e :: e in pruned ==> !Prunes(e, path);
    assert PrunedBy(pruned, RouteOf(path)) == !forall e :: e in pruned ==> !Prunes(e, RouteOf(path));
  }

  lemma NoQueryInPath(target: string)
    ensures '?' !in PathOf(target)
  {
    SplitIsWhole(target, '?');
    var whole := Before(target, '?');
    assert forall c :: c in PathOf(target) ==> c in whole;
  }

  ghost predicate OrdersAgree(pruned: seq<string>, pl: Platform) {
    forall raw, segments ::
      ResolveDeepLink(raw, pruned, segments, pl) == ResolveCheckingAfter(raw, pruned, segments, pl)
  }

  lemma ParentShape(p: string)
    requires p in DYNAMIC_PARENTS
    ensures |p| > 1 && p[0] == '/' && p[1] != '/'
  {
    var i :| 0 <= i < |DYNAMIC_PARENTS| && DYNAMIC_PARENTS[i] == p;
  }

  /** Every legacy path without a query is the path of some link: its own, with a slash and a query. */
  lemma LinkTo(path: string, pl: Platform)
    requires IsLegacy(path) && '?' !in path
    ensures var raw := path + "/?x"; PathAndQuery(raw, pl) == Some(raw) && PathOf(raw) == path
  {
    TakenApart(path);
    var parent, raw := ParentOf(path, SW_DYNAMIC_PARENTS).value, path + "/?x";
    ParentShape(parent);
    assert raw[0] == parent[0] == '/' && raw[1] == parent[1] != '/';
    assert !IsSpace('/') && !IsSpace('x') && raw[|raw| - 1] == 'x';
    TrimmedIsItself(raw);
    assert raw == (path + "/") + ['?'] + "x";
    SplitsAt(path + "/", '?', "x");
  }

  lemma RewriteIsNotHome(path: string, query: string, pl: Platform)
    requires IsLegacy(path)
    ensures Rewrite(path, query, pl) != "/"
  {
    RewriteOfLegacy(path, query, pl);
    assert |Rewrite(path, query, pl)| > 1;
  }

  lemma AgreeingOrdersAnswerAlike(pruned: seq<string>, pl: Platform, path: string)
    requires OrdersAgree(pruned, pl) && IsLegacy(path) && '?' !in path
    ensures PrunedBy(pruned, path) <==> PrunedBy(pruned, RouteOf(path))
  {
    var raw := path + "/?x";
    LinkTo(path, pl);
    RewriteIsNotHome(path, After(raw, '?'), pl);
    assert ResolveDeepLink(raw, pruned, [], pl) == ResolveCheckingAfter(raw, pruned, [], pl);
    assert PrunedBy(pruned, path) == !ServedHere(path, pruned, []);
    assert PrunedBy(pruned, RouteOf(path)) == !ServedHere(RouteOf(path), pruned, []);
  }

  /**
   * Checking before the rewrite or after it resolves every link alike exactly when the list,
   * below every dynamic parent, either drops everything or names no id and not the detail page.
   */
  lemma OrdersAgreeIffSafe(pruned: seq<string>, pl: Platform)
    ensures OrdersAgree(pruned, pl) <==> OrderSafe(pruned)
  {
    if OrderSafe(pruned) {
      forall raw, segments
        ensures ResolveDeepLink(raw, pruned, segments, pl) == ResolveCheckingAfter(raw, pruned, segments, pl)
      {
        var target := PathAndQuery(raw, pl);
        if target.Some? && IsLegacy(PathOf(target.value)) {
          NoQueryInPath(target.value);
          CheckCommutes(PathOf(target.value), pruned, segments);
        }
      }
    }
    if OrdersAgree(pruned, pl) {
      forall path | IsLegacy(path) && '?' !in path
        ensures PrunedBy(pruned, path) <==> PrunedBy(pruned, RouteOf(path))
      {
        AgreeingOrdersAnswerAlike(pruned, pl, path);
      }
      AlikeIffSafe(pruned);
    }
  }

  lemma DetailFolder(parent: string)
    ensures var e := parent + "/detail/*"; IsSubtree(e) && EntryBase(e) == DetailPath(parent, "")
  {
    var e := parent + "/detail/*";
    assert e[|e| - 2..] == "/*" && e[..|e| - 2] == parent + "/detail" + "";
  }

  lemma ServedUnless(e: string, path: string)
    ensures ServedHere(path, [e], []) <==> !Prunes(e, path)
  {
    assert e in [e];
  }

  lemma DetailFolderKeepsRecord(parent: string, id: string)
    requires '/' !in id && id != "detail"
    ensures !Prunes(parent + "/detail/*", parent + "/" + id)
  {
    var path, e := parent + "/" + id, parent + "/detail/*";
    DetailFolder(parent);
    assert EntryBase(e)[|parent| + 1..] == "detail" && path[|parent| + 1..] == id;
    SplitsAt(id, '/', "");
    SplitsAt("detail", '/', "");
    if Prunes(e, path) {
      PrunedSegment(e, parent, path);
    }
  }

  /** A build that drops a detail folder serves every record's old path and not its route. */
  lemma DroppedDetailFolder(parent: string, id: string)
    requires parent in DYNAMIC_PARENTS && id != "" && '/' !in id && id !in NOT_AN_ID
    ensures var path, pruned := parent + "/" + id, [parent + "/detail/*"];
            IsLegacy(path) && ServedHere(path, pruned, []) && !ServedHere(RouteOf(path), pruned, [])
  {
    var path, e := parent + "/" + id, parent + "/detail/*";
    assert Below(parent, id, "") == path;
    RecordIsLegacy(parent, id, "");
    DetailFolder(parent);
    DetailFolderKeepsRecord(parent, id);
    ServedUnless(e, path);
    ServedUnless(e, RouteOf(path));
  }
}
