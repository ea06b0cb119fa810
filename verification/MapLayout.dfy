/**
 * The places of the depots on the map card: one scale for both axes, fitted to the card, and
 * depots that come too close merged into one bubble. Lengths are in percent of the card's
 * width; `cos` of a latitude in degrees is a parameter, and arithmetic is exact.
 */
module MapLayout {

  const MAP_ASPECT := 16.0 / 9.0
  const CARD_H := 100.0 / MAP_ASPECT
  const PAD := 8.0
  const MIN_SPAN_DEG := 0.01
  const MERGE_DIST := 12.0

  datatype Depot = Depot(id: string, lat: real, lng: real)

  datatype Point = Point(x: real, y: real)

  datatype Group = Group(at: Point, first: Depot, members: seq<Depot>)

  /** A group as the map draws it: `y` is now in percent of the card's height. */
  datatype Bubble = Bubble(key: string, x: real, y: real, first: Depot, members: seq<Depot>)

  /** How degrees become positions: the shrink of longitude, the scale and the centre. */
  datatype Frame = Frame(kx: real, scale: real, cx: real, cy: real)

  function Max(a: real, b: real): real {
    if a >= b then a else b
  }

  function Min(a: real, b: real): real {
    if a <= b then a else b
  }

  function Least(xs: seq<real>): (m: real)
    requires xs != []
    ensures m in xs && forall x :: x in xs ==> m <= x
  {
    assert xs == [xs[0]] + xs[1..];
    if |xs| == 1 then xs[0] else Min(xs[0], Least(xs[1..]))
  }

  function Greatest(xs: seq<real>): (m: real)
    requires xs != []
    ensures m in xs && forall x :: x in xs ==> x <= m
  {
    assert xs == [xs[0]] + xs[1..];
    if |xs| == 1 then xs[0] else Max(xs[0], Greatest(xs[1..]))
  }

  function Sum(xs: seq<real>): real {
    if xs == [] then 0.0 else Sum(xs[..|xs| - 1]) + xs[|xs| - 1]
  }

  function Mean(xs: seq<real>): real
    requires xs != []
  {
    Sum(xs) / (|xs| as real)
  }

  function Lats(items: seq<Depot>): seq<real> {
    seq(|items|, i requires 0 <= i < |items| => items[i].lat)
  }

  /** Degrees of latitude both ways: east-west shrunk, north-south as is. */
  function Raw(d: Depot, kx: real): Point {
    Point(d.lng * kx, d.lat)
  }

  function RawXs(items: seq<Depot>, kx: real): seq<real> {
    seq(|items|, i requires 0 <= i < |items| => Raw(items[i], kx).x)
  }

  function Scale(spanX: real, spanY: real): real {
    Min((100.0 - 2.0 * PAD) / Max(spanX, MIN_SPAN_DEG), (CARD_H - 2.0 * PAD) / Max(spanY, MIN_SPAN_DEG))
  }

  function Low(items: seq<Depot>, kx: real): Point
    requires items != []
  {
    Point(Least(RawXs(items, kx)), Least(Lats(items)))
  }

  function High(items: seq<Depot>, kx: real): Point
    requires items != []
  {
    Point(Greatest(RawXs(items, kx)), Greatest(Lats(items)))
  }

  function FrameOfBox(kx: real, low: Point, high: Point): Frame {
    Frame(kx, Scale(high.x - low.x, high.y - low.y), (low.x + high.x) / 2.0, (low.y + high.y) / 2.0)
  }

  function FrameOf(items: seq<Depot>, cos: real -> real): Frame
    requires items != []
  {
    var kx := cos(Mean(Lats(items)));
    FrameOfBox(kx, Low(items, kx), High(items, kx))
  }

  function PlaceRaw(p: Point, f: Frame): Point {
    Point(50.0 + (p.x - f.cx) * f.scale, CARD_H / 2.0 - (p.y - f.cy) * f.scale)
  }

  function Place(d: Depot, f: Frame): Point {
    PlaceRaw(Raw(d, f.kx), f)
  }

  function SquaredDistance(p: Point, q: Point): real {
    (p.x - q.x) * (p.x - q.x) + (p.y - q.y) * (p.y - q.y)
  }

  /** `Math.hypot(...) < MERGE_DIST`, squared. */
  predicate Near(p: Point, q: Point) {
    SquaredDistance(p, q) < MERGE_DIST * MERGE_DIST
  }

  function PlacedXs(members: seq<Depot>, f: Frame): seq<real> {
    seq(|members|, i requires 0 <= i < |members| => Place(members[i], f).x)
  }

  function PlacedYs(members: seq<Depot>, f: Frame): seq<real> {
    seq(|members|, i requires 0 <= i < |members| => Place(members[i], f).y)
  }

  function Centroid(members: seq<Depot>, f: Frame): Point
    requires members != []
  {
    Point(Mean(PlacedXs(members, f)), Mean(PlacedYs(members, f)))
  }

  /** The first group near `p`, or the number of groups. */
  function FirstNear(groups: seq<Group>, p: Point): (k: nat)
    ensures k <= |groups|
    ensures forall i :: 0 <= i < k ==> !Near(groups[i].at, p)
    ensures k < |groups| ==> Near(groups[k].at, p)
  {
    if groups == [] || Near(groups[0].at, p) then 0 else 1 + FirstNear(groups[1..], p)
  }

  /** One turn of the grouping loop. */
  function Merge(groups: seq<Group>, d: Depot, f: Frame): seq<Group> {
    var k := FirstNear(groups, Place(d, f));
    if k == |groups| then groups + [Group(Place(d, f), d, [d])]
    else
      var members := groups[k].members + [d];
      groups[k := Group(Centroid(members, f), groups[k].first, members)]
  }

  function GroupAll(items: seq<Depot>, f: Frame): seq<Group> {
    if items == [] then [] else Merge(GroupAll(items[..|items| - 1], f), items[|items| - 1], f)
  }

  /** No two groups are near each other. */
  ghost predicate Spread(groups: seq<Group>) {
    forall i, j :: 0 <= i < j < |groups| ==> !Near(groups[i].at, groups[j].at)
  }

  /** The turn that takes `d` joins it to no group, or moves that group's centre near no other. */
  ghost predicate MovesClear(groups: seq<Group>, d: Depot, f: Frame) {
    var k := FirstNear(groups, Place(d, f));
    k == |groups|
    || forall i :: 0 <= i < |groups| && i != k ==> !Near(groups[i].at, Centroid(groups[k].members + [d], f))
  }

  ghost predicate TurnsClear(items: seq<Depot>, f: Frame) {
    forall n :: 0 <= n < |items| ==> MovesClear(GroupAll(items[..n], f), items[n], f)
  }

  function Key(members: seq<Depot>): string {
    if members == [] then ""
    else if |members| == 1 then members[0].id
    else members[0].id + "|" + Key(members[1..])
  }

  // ---- what the groups are ----

  /** Never empty, led by its first member, placed at the mean of its members. */
  ghost predicate GoodGroup(g: Group, f: Frame) {
    g.members != [] && g.first == g.members[0] && g.at == Centroid(g.members, f)
  }

  ghost function Members(groups: seq<Group>): multiset<Depot> {
    if groups == [] then multiset{} else Members(groups[..|groups| - 1]) + multiset(groups[|groups| - 1].members)
  }

  lemma {:induction false} MembersOfUpdate(groups: seq<Group>, k: nat, g: Group, d: Depot)
    requires k < |groups| && multiset(g.members) == multiset(groups[k].members) + multiset{d}
    ensures Members(groups[k := g]) == Members(groups) + multiset{d}
    decreases |groups|
  {
    var n := |groups| - 1;
    if k < n {
      assert groups[k := g][..n] == groups[..n][k := g];
      MembersOfUpdate(groups[..n], k, g, d);
    } else {
      assert groups[k := g][..n] == groups[..n];
    }
  }

  lemma MeanOfOne(x: real)
    ensures Mean([x]) == x
  {
    assert [x][..0] == [];
    assert Sum([x]) == Sum([]) + x;
  }

  lemma CentroidOfOne(d: Depot, f: Frame)
    ensures Centroid([d], f) == Place(d, f)
  {
    var p := Place(d, f);
    assert PlacedXs([d], f) == [p.x] && PlacedYs([d], f) == [p.y];
    MeanOfOne(p.x);
    MeanOfOne(p.y);
  }

  ghost predicate AllGood(groups: seq<Group>, f: Frame) {
    forall g :: g in groups ==> GoodGroup(g, f)
  }

  /** The groups partition the depots, each placed at the mean of its members. */
  ghost predicate Partition(groups: seq<Group>, items: seq<Depot>, f: Frame) {
    AllGood(groups, f) && Members(groups) == multiset(items)
  }

  lemma MembersSnoc(groups: seq<Group>, g: Group)
    ensures Members(groups + [g]) == Members(groups) + multiset(g.members)
  {
    assert (groups + [g])[..|groups|] == groups;
  }

  lemma GoodSnoc(groups: seq<Group>, g: Group, f: Frame)
    requires AllGood(groups, f) && GoodGroup(g, f)
    ensures AllGood(groups + [g], f)
  {}

  lemma GoodUpdate(groups: seq<Group>, k: nat, g: Group, f: Frame)
    requires AllGood(groups, f) && k < |groups| && GoodGroup(g, f)
    ensures AllGood(groups[k := g], f)
  {}

  lemma SingleIsGood(d: Depot, f: Frame)
    ensures GoodGroup(Group(Place(d, f), d, [d]), f)
  {
    CentroidOfOne(d, f);
  }

  lemma FoundKeepsPartition(groups: seq<Group>, items: seq<Depot>, d: Depot, f: Frame)
    requires Partition(groups, items, f)
    ensures Partition(groups + [Group(Place(d, f), d, [d])], items + [d], f)
  {
    var g := Group(Place(d, f), d, [d]);
    SingleIsGood(d, f);
    GoodSnoc(groups, g, f);
    MembersSnoc(groups, g);
  }

  lemma JoinKeepsPartition(groups: seq<Group>, items: seq<Depot>, d: Depot, f: Frame, k: nat)
    requires Partition(groups, items, f) && k < |groups|
    ensures var members := groups[k].members + [d];
            Partition(groups[k := Group(Centroid(members, f), groups[k].first, members)], items + [d], f)
  {
    var members := groups[k].members + [d];
    var joined := Group(Centroid(members, f), groups[k].first, members);
    assert groups[k] in groups;
    assert GoodGroup(joined, f);
    GoodUpdate(groups, k, joined, f);
    MembersOfUpdate(groups, k, joined, d);
  }

  lemma MergeKeepsPartition(groups: seq<Group>, items: seq<Depot>, d: Depot, f: Frame)
    requires Partition(groups, items, f)
    ensures Partition(Merge(groups, d, f), items + [d], f)
  {
    var k := FirstNear(groups, Place(d, f));
    if k == |groups| {
      FoundKeepsPartition(groups, items, d, f);
    } else {
      JoinKeepsPartition(groups, items, d, f, k);
    }
  }

  lemma {:induction false} GroupsPartition(items: seq<Depot>, f: Frame)
    ensures Partition(GroupAll(items, f), items, f)
    decreases |items|
  {
    if items != [] {
      var n := |items| - 1;
      GroupsPartition(items[..n], f);
      MergeKeepsPartition(GroupAll(items[..n], f), items[..n], items[n], f);
      assert items[..n] + [items[n]] == items;
    }
  }

  lemma {:induction false} MembersAreItems(groups: seq<Group>, g: Group, d: Depot)
    requires g in groups && d in g.members
    ensures d in Members(groups)
    decreases |groups|
  {
    var n := |groups| - 1;
    if g != groups[n] {
      assert g in groups[..n];
      MembersAreItems(groups[..n], g, d);
    }
  }

  // ---- the fit ----

  predicate InCard(p: Point) {
    PAD <= p.x <= 100.0 - PAD && PAD <= p.y <= CARD_H - PAD
  }

  lemma Bounded(offset: real, scale: real, span: real, half: real)
    requires scale > 0.0 && scale * span <= 2.0 * half && -span <= 2.0 * offset <= span
    ensures -half <= offset * scale <= half
  {
    assert 2.0 * offset * scale <= span * scale && -(span * scale) <= 2.0 * offset * scale;
  }

  lemma Product(s: real, a: real, b: real)
    requires b > 0.0 && s <= a / b
    ensures s * b <= a
  {
    assert s * b <= (a / b) * b;
  }

  lemma ScaleFits(spanX: real, spanY: real)
    ensures var s := Scale(spanX, spanY);
            0.0 < s && s * Max(spanX, MIN_SPAN_DEG) <= 84.0 && s * Max(spanY, MIN_SPAN_DEG) <= 40.25
  {
    assert CARD_H == 56.25;
    var s, mx, my := Scale(spanX, spanY), Max(spanX, MIN_SPAN_DEG), Max(spanY, MIN_SPAN_DEG);
    assert s <= 84.0 / mx && s <= 40.25 / my;
    Product(s, 84.0, mx);
    Product(s, 40.25, my);
  }

  /** A frame whose one scale bounds both extents of the box from `low` to `high`. */
  predicate Bounds(f: Frame, low: Point, high: Point) {
    && f.cx == (low.x + high.x) / 2.0 && f.cy == (low.y + high.y) / 2.0 && 0.0 < f.scale
    && f.scale * Max(high.x - low.x, MIN_SPAN_DEG) <= 84.0 && f.scale * Max(high.y - low.y, MIN_SPAN_DEG) <= 40.25
  }

  lemma DotFits(p: Point, f: Frame, low: Point, high: Point)
    requires low.x <= p.x <= high.x && low.y <= p.y <= high.y && Bounds(f, low, high)
    ensures InCard(PlaceRaw(p, f))
  {
    assert CARD_H == 56.25;
    var dx, dy := p.x - f.cx, p.y - f.cy;
    assert PlaceRaw(p, f) == Point(50.0 + dx * f.scale, CARD_H / 2.0 - dy * f.scale);
    Bounded(dx, f.scale, Max(high.x - low.x, MIN_SPAN_DEG), 42.0);
    Bounded(dy, f.scale, Max(high.y - low.y, MIN_SPAN_DEG), 20.125);
  }

  lemma RawIsInBox(items: seq<Depot>, kx: real, d: Depot)
    requires d in items
    ensures Low(items, kx).x <= Raw(d, kx).x <= High(items, kx).x
    ensures Low(items, kx).y <= Raw(d, kx).y <= High(items, kx).y
  {
    var i :| 0 <= i < |items| && items[i] == d;
    assert RawXs(items, kx)[i] in RawXs(items, kx) && Lats(items)[i] in Lats(items);
  }

  lemma BoxBounds(kx: real, low: Point, high: Point)
    ensures Bounds(FrameOfBox(kx, low, high), low, high)
  {
    ScaleFits(high.x - low.x, high.y - low.y);
  }

  /** Every depot is drawn at least PAD away from all four edges. */
  lemma DotsFit(items: seq<Depot>, cos: real -> real, d: Depot)
    requires d in items
    ensures InCard(Place(d, FrameOf(items, cos)))
  {
    var f := FrameOf(items, cos);
    BoxBounds(f.kx, Low(items, f.kx), High(items, f.kx));
    RawIsInBox(items, f.kx, d);
    DotFits(Raw(d, f.kx), f, Low(items, f.kx), High(items, f.kx));
  }

  lemma {:induction false} SumBetween(xs: seq<real>, lo: real, hi: real)
    requires forall x :: x in xs ==> lo <= x <= hi
    ensures lo * (|xs| as real) <= Sum(xs) <= hi * (|xs| as real)
    decreases |xs|
  {
    if xs != [] {
      var n := |xs| - 1;
      assert forall x :: x in xs[..n] ==> x in xs;
      SumBetween(xs[..n], lo, hi);
      assert xs[n] in xs;
      assert lo * (|xs| as real) == lo * (n as real) + lo && hi * (|xs| as real) == hi * (n as real) + hi;
    }
  }

  lemma MeanBetween(xs: seq<real>, lo: real, hi: real)
    requires xs != [] && forall x :: x in xs ==> lo <= x <= hi
    ensures lo <= Mean(xs) <= hi
  {
    SumBetween(xs, lo, hi);
    Quotient(Sum(xs), |xs| as real, lo, hi);
  }

  lemma Quotient(s: real, n: real, lo: real, hi: real)
    requires n > 0.0 && lo * n <= s <= hi * n
    ensures lo <= s / n <= hi
  {}

  lemma CentroidFits(members: seq<Depot>, f: Frame)
    requires members != [] && forall d :: d in members ==> InCard(Place(d, f))
    ensures InCard(Centroid(members, f))
  {
    assert forall x :: x in PlacedXs(members, f) ==> PAD <= x <= 100.0 - PAD;
    assert forall y :: y in PlacedYs(members, f) ==> PAD <= y <= CARD_H - PAD;
    MeanBetween(PlacedXs(members, f), PAD, 100.0 - PAD);
    MeanBetween(PlacedYs(members, f), PAD, CARD_H - PAD);
  }

  /** Every group is drawn inside the padded card too. */
  lemma GroupsFit(items: seq<Depot>, cos: real -> real)
    requires items != []
    ensures forall g :: g in GroupAll(items, FrameOf(items, cos)) ==> InCard(g.at)
  {
    var f := FrameOf(items, cos);
    GroupsPartition(items, f);
    forall g | g in GroupAll(items, f) ensures InCard(g.at) {
      forall d | d in g.members ensures InCard(Place(d, f)) {
        MembersAreItems(GroupAll(items, f), g, d);
        assert d in multiset(items);
        DotsFit(items, cos, d);
      }
      CentroidFits(g.members, f);
    }
  }

  /** Distances on the card are distances on the ground times one scale, the same both ways. */
  lemma DistancesScale(d: Depot, e: Depot, f: Frame)
    ensures SquaredDistance(Place(d, f), Place(e, f))
         == f.scale * f.scale * SquaredDistance(Raw(d, f.kx), Raw(e, f.kx))
  {
    RawDistancesScale(Raw(d, f.kx), Raw(e, f.kx), f);
  }

  lemma RawDistancesScale(p: Point, q: Point, f: Frame)
    ensures SquaredDistance(PlaceRaw(p, f), PlaceRaw(q, f)) == f.scale * f.scale * SquaredDistance(p, q)
  {
    var dx, dy := p.x - q.x, p.y - q.y;
    assert PlaceRaw(p, f).x - PlaceRaw(q, f).x == dx * f.scale;
    assert PlaceRaw(p, f).y - PlaceRaw(q, f).y == -(dy * f.scale);
    assert (dx * f.scale) * (dx * f.scale) == f.scale * f.scale * (dx * dx);
    assert (dy * f.scale) * (dy * f.scale) == f.scale * f.scale * (dy * dy);
  }

  // ---- the whole layout ----

  /** Where a bubble is drawn, back in percent of the card's width. */
  function At(b: Bubble): Point {
    Point(b.x, b.y * CARD_H / 100.0)
  }

  /** Bubble `b` shows group `g`: led by its first member, at their mean, inside the padded card. */
  ghost predicate Draws(b: Bubble, g: Group, f: Frame) {
    && b.members == g.members != [] && b.first == b.members[0] && b.key == Key(b.members)
    && b.x == Mean(PlacedXs(b.members, f)) && b.y == Mean(PlacedYs(b.members, f)) / CARD_H * 100.0
    && At(b) == g.at && InCard(At(b))
  }

  /** The grouping loop: the list of groups, and the group a depot joins, are updated in place. */
  method GroupDepots(items: seq<Depot>, f: Frame) returns (groups: seq<Group>)
    ensures groups == GroupAll(items, f)
  {
    groups := [];
    for n := 0 to |items|
      invariant groups == GroupAll(items[..n], f)
    {
      var d := items[n];
      assert items[..n + 1][..n] == items[..n];
      var p := Place(d, f);
      var k := FirstNear(groups, p);
      if k == |groups| {
        groups := groups + [Group(p, d, [d])];
      } else {
        var near := groups[k];
        near := near.(members := near.members + [d]);
        near := near.(at := Centroid(near.members, f));
        groups := groups[k := near];
      }
    }
    assert items[..|items|] == items;
  }

  method DrawGroups(groups: seq<Group>, f: Frame) returns (bubbles: seq<Bubble>)
    requires AllGood(groups, f) && forall g :: g in groups ==> InCard(g.at)
    ensures |bubbles| == |groups| && forall i :: 0 <= i < |groups| ==> Draws(bubbles[i], groups[i], f)
  {
    bubbles := [];
    for i := 0 to |groups|
      invariant |bubbles| == i && forall j :: 0 <= j < i ==> Draws(bubbles[j], groups[j], f)
    {
      var g := groups[i];
      assert g in groups;
      HeightAndBack(g.at.y);
      bubbles := bubbles + [Bubble(Key(g.members), g.at.x, g.at.y / CARD_H * 100.0, g.first, g.members)];
    }
  }

  /**
   * The bubbles' member lists are the depots, each exactly once; every bubble is led by its
   * first member, sits at the mean of its members' places and lies inside the padded card. No
   * two touch when no turn of the grouping moved a centre near another group.
   */
  method LayoutDepots(items: seq<Depot>, cos: real -> real) returns (bubbles: seq<Bubble>)
    ensures items == [] ==> bubbles == []
    ensures items != [] ==>
              var f := FrameOf(items, cos);
              var groups := GroupAll(items, f);
              && |bubbles| == |groups| && Members(groups) == multiset(items)
              && (forall i :: 0 <= i < |groups| ==> Draws(bubbles[i], groups[i], f))
              && (TurnsClear(items, f) ==>
                    forall i, j :: 0 <= i < j < |bubbles| ==> !Near(At(bubbles[i]), At(bubbles[j])))
  {
    if items == [] {
      return [];
    }
    var f := FrameOf(items, cos);
    var groups := GroupDepots(items, f);
    GroupsPartition(items, f);
    GroupsFit(items, cos);
    bubbles := DrawGroups(groups, f);
    SpreadIffTurnsClear(items, f);
    assert items[..|items|] == items;
  }

  lemma HeightAndBack(y: real)
    ensures y / CARD_H * 100.0 * CARD_H / 100.0 == y
  {
    assert CARD_H == 56.25;
  }

  // ---- how far apart the bubbles are ----

  lemma NearIsSymmetric(p: Point, q: Point)
    ensures Near(p, q) == Near(q, p)
  {
    assert (p.x - q.x) * (p.x - q.x) == (q.x - p.x) * (q.x - p.x);
    assert (p.y - q.y) * (p.y - q.y) == (q.y - p.y) * (q.y - p.y);
  }

  /** A turn that starts spread ends spread exactly when it moves no centre near another group. */
  lemma TurnStaysSpreadIff(groups: seq<Group>, d: Depot, f: Frame)
    requires Spread(groups)
    ensures Spread(Merge(groups, d, f)) <==> MovesClear(groups, d, f)
  {
    var after, k := Merge(groups, d, f), FirstNear(groups, Place(d, f));
    if k < |groups| {
      forall i | 0 <= i < |groups| && i != k
        ensures Near(groups[i].at, after[k].at) == Near(after[k].at, groups[i].at)
      {
        NearIsSymmetric(groups[i].at, after[k].at);
      }
      if Spread(after) {
        forall i | 0 <= i < |groups| && i != k ensures !Near(groups[i].at, after[k].at) {
          assert after[i] == groups[i];
        }
      }
    }
  }

  lemma GroupSnoc(items: seq<Depot>, d: Depot, f: Frame)
    ensures GroupAll(items + [d], f) == Merge(GroupAll(items, f), d, f)
  {
    assert (items + [d])[..|items|] == items;
  }

  ghost predicate AlwaysSpread(items: seq<Depot>, f: Frame) {
    forall n :: 0 <= n <= |items| ==> Spread(GroupAll(items[..n], f))
  }

  lemma AlwaysSpreadSnoc(items: seq<Depot>, d: Depot, f: Frame)
    ensures AlwaysSpread(items + [d], f) <==> AlwaysSpread(items, f) && Spread(GroupAll(items + [d], f))
  {
    var all := items + [d];
    assert all[..|all|] == all;
    assert forall n :: 0 <= n <= |items| ==> all[..n] == items[..n];
  }

  lemma TurnsClearSnoc(items: seq<Depot>, d: Depot, f: Frame)
    ensures TurnsClear(items + [d], f) <==> TurnsClear(items, f) && MovesClear(GroupAll(items, f), d, f)
  {
    var all := items + [d];
    assert all[..|items|] == items && all[|items|] == d;
    assert forall n :: 0 <= n < |items| ==> all[..n] == items[..n] && all[n] == items[n];
  }

  lemma AlwaysSpreadEnds(items: seq<Depot>, f: Frame)
    requires AlwaysSpread(items, f)
    ensures Spread(GroupAll(items, f))
  {
    assert items[..|items|] == items;
  }

  lemma LastTurnIff(items: seq<Depot>, d: Depot, f: Frame)
    requires Spread(GroupAll(items, f))
    ensures Spread(GroupAll(items + [d], f)) <==> MovesClear(GroupAll(items, f), d, f)
  {
    GroupSnoc(items, d, f);
    TurnStaysSpreadIff(GroupAll(items, f), d, f);
  }

  lemma SpreadStep(items: seq<Depot>, d: Depot, f: Frame)
    requires AlwaysSpread(items, f) <==> TurnsClear(items, f)
    ensures AlwaysSpread(items + [d], f) <==> TurnsClear(items + [d], f)
  {
    AlwaysSpreadSnoc(items, d, f);
    TurnsClearSnoc(items, d, f);
    if AlwaysSpread(items, f) {
      AlwaysSpreadEnds(items, f);
      LastTurnIff(items, d, f);
    }
  }

  lemma NothingIsSpread(f: Frame)
    ensures AlwaysSpread([], f) && TurnsClear([], f)
  {}

  /** The groups are spread at every turn exactly when every turn moves clear. */
  lemma {:induction false} SpreadIffTurnsClear(items: seq<Depot>, f: Frame)
    ensures AlwaysSpread(items, f) <==> TurnsClear(items, f)
    decreases |items|
  {
    if items != [] {
      var before, d := items[..|items| - 1], items[|items| - 1];
      assert items == before + [d];
      SpreadIffTurnsClear(before, f);
      SpreadStep(before, d, f);
    } else {
      NothingIsSpread(f);
    }
  }

  /** Group `i` is depot `i` alone, where it was placed. */
  ghost predicate Alone(groups: seq<Group>, items: seq<Depot>, f: Frame) {
    |groups| == |items| && forall i :: 0 <= i < |items| ==> groups[i].at == Place(items[i], f)
  }

  ghost predicate PlacedApart(items: seq<Depot>, f: Frame) {
    forall i, j :: 0 <= i < j < |items| ==> !Near(Place(items[i], f), Place(items[j], f))
  }

  lemma {:induction false} NeverMoreGroups(items: seq<Depot>, f: Frame)
    ensures |GroupAll(items, f)| <= |items|
    decreases |items|
  {
    if items != [] {
      NeverMoreGroups(items[..|items| - 1], f);
    }
  }

  lemma PlacedApartSnoc(items: seq<Depot>, d: Depot, f: Frame)
    ensures PlacedApart(items + [d], f)
            <==> PlacedApart(items, f) && forall i :: 0 <= i < |items| ==> !Near(Place(items[i], f), Place(d, f))
  {
    var all := items + [d];
    assert all[|items|] == d && forall i :: 0 <= i < |items| ==> all[i] == items[i];
  }

  lemma {:induction false} AloneIffPlacedApart(items: seq<Depot>, f: Frame)
    ensures |GroupAll(items, f)| == |items| <==> PlacedApart(items, f)
    ensures PlacedApart(items, f) ==> Alone(GroupAll(items, f), items, f)
    decreases |items|
  {
    if items != [] {
      var before, d := items[..|items| - 1], items[|items| - 1];
      assert items == before + [d];
      AloneIffPlacedApart(before, f);
      NeverMoreGroups(before, f);
      PlacedApartSnoc(before, d, f);
      GroupSnoc(before, d, f);
    }
  }

  /** The same depots are drawn one to a bubble exactly when no two of them are placed near each other. */
  lemma OneBubbleEachIffPlacedApart(items: seq<Depot>, cos: real -> real)
    requires items != []
    ensures var f := FrameOf(items, cos);
            |GroupAll(items, f)| == |items| <==> PlacedApart(items, f)
  {
    AloneIffPlacedApart(items, FrameOf(items, cos));
  }

  // ---- which depots share a bubble ----

  /** Depots placed near each other are never in different groups. */
  ghost predicate NearTogether(groups: seq<Group>, f: Frame) {
    forall i, j, a, b :: 0 <= i < j < |groups| && a in groups[i].members && b in groups[j].members ==>
      !Near(Place(a, f), Place(b, f))
  }

  /** Every earlier depot placed near `d` is in the group that `d` joins. */
  ghost predicate JoinsAllNear(groups: seq<Group>, d: Depot, f: Frame) {
    var k := FirstNear(groups, Place(d, f));
    forall i, m :: 0 <= i < |groups| && i != k && m in groups[i].members ==> !Near(Place(m, f), Place(d, f))
  }

  ghost predicate TurnsJoinAllNear(items: seq<Depot>, f: Frame) {
    forall n :: 0 <= n < |items| ==> JoinsAllNear(GroupAll(items[..n], f), items[n], f)
  }

  /** Group `i` after a turn holds what it held, and `d` if it is the group that `d` joins. */
  lemma MergedMembers(groups: seq<Group>, d: Depot, f: Frame, i: nat, m: Depot)
    requires i < |Merge(groups, d, f)|
    ensures m in Merge(groups, d, f)[i].members
            <==> (i < |groups| && m in groups[i].members) || (i == FirstNear(groups, Place(d, f)) && m == d)
  {}

  lemma TurnKeepsApart(groups: seq<Group>, d: Depot, f: Frame)
    requires NearTogether(groups, f) && JoinsAllNear(groups, d, f)
    ensures NearTogether(Merge(groups, d, f), f)
  {
    var after := Merge(groups, d, f);
    forall i, j, a, b | 0 <= i < j < |after| && a in after[i].members && b in after[j].members
      ensures !Near(Place(a, f), Place(b, f))
    {
      MergedMembers(groups, d, f, i, a);
      MergedMembers(groups, d, f, j, b);
      NearIsSymmetric(Place(a, f), Place(b, f));
    }
  }

  /** Membership never changes, so what a turn leaves apart was apart before it. */
  lemma TurnKeptApart(groups: seq<Group>, d: Depot, f: Frame)
    requires NearTogether(Merge(groups, d, f), f)
    ensures NearTogether(groups, f) && JoinsAllNear(groups, d, f)
  {
    var after, k := Merge(groups, d, f), FirstNear(groups, Place(d, f));
    forall i, j, a, b | 0 <= i < j < |groups| && a in groups[i].members && b in groups[j].members
      ensures !Near(Place(a, f), Place(b, f))
    {
      MergedMembers(groups, d, f, i, a);
      MergedMembers(groups, d, f, j, b);
    }
    forall i, m | 0 <= i < |groups| && i != k && m in groups[i].members
      ensures !Near(Place(m, f), Place(d, f))
    {
      MergedMembers(groups, d, f, i, m);
      MergedMembers(groups, d, f, k, d);
      NearIsSymmetric(Place(m, f), Place(d, f));
    }
  }

  lemma TurnsJoinAllNearSnoc(items: seq<Depot>, d: Depot, f: Frame)
    ensures TurnsJoinAllNear(items + [d], f)
            <==> TurnsJoinAllNear(items, f) && JoinsAllNear(GroupAll(items, f), d, f)
  {
    var all := items + [d];
    assert all[..|items|] == items && all[|items|] == d;
    assert forall n :: 0 <= n < |items| ==> all[..n] == items[..n] && all[n] == items[n];
  }

  /**
   * In the finished grouping depots placed near each other always share a group exactly when, at
   * every turn, each earlier depot near the new one is in the group it joins.
   */
  lemma {:induction false} NearTogetherIff(items: seq<Depot>, f: Frame)
    ensures NearTogether(GroupAll(items, f), f) <==> TurnsJoinAllNear(items, f)
    decreases |items|
  {
    if items != [] {
      var before, d := items[..|items| - 1], items[|items| - 1];
      assert items == before + [d];
      NearTogetherIff(before, f);
      TurnsJoinAllNearSnoc(before, d, f);
      GroupSnoc(before, d, f);
      var groups := GroupAll(before, f);
      if NearTogether(groups, f) && JoinsAllNear(groups, d, f) {
        TurnKeepsApart(groups, d, f);
      } else if NearTogether(Merge(groups, d, f), f) {
        TurnKeptApart(groups, d, f);
      }
    }
  }

  const CROWD: seq<Depot> :=
    [Depot("a", 0.0, 0.0), Depot("b", 0.0, 13.0), Depot("c", 0.0, 11.0), Depot("d", 0.0, 84.0)]

  const CROWD_FRAME := Frame(1.0, 1.0, 42.0, 0.0)

  lemma PairMean(x: real, y: real)
    ensures Mean([x, y]) == (x + y) / 2.0
  {
    assert [x, y][..1] == [x] && [x][..0] == [];
    assert Sum([x]) == x;
  }

  lemma MeanOfZeros()
    ensures Mean(Lats(CROWD)) == 0.0
  {
    var z := [0.0, 0.0, 0.0, 0.0];
    assert Lats(CROWD) == z;
    assert z[..3] == [0.0, 0.0, 0.0] && z[..3][..2] == [0.0, 0.0] && z[..3][..2][..1] == [0.0] && [0.0][..0] == [];
    assert Sum([0.0]) == 0.0;
    assert Sum([0.0, 0.0]) == 0.0;
    assert Sum(z[..3]) == 0.0;
  }

  lemma CrowdBox()
    ensures Low(CROWD, 1.0) == Point(0.0, 0.0) && High(CROWD, 1.0) == Point(84.0, 0.0)
  {
    var xs, ys := RawXs(CROWD, 1.0), Lats(CROWD);
    assert xs == [0.0, 13.0, 11.0, 84.0] && ys == [0.0, 0.0, 0.0, 0.0];
    assert xs[0] in xs && xs[3] in xs && ys[0] in ys;
  }

  lemma CrowdFit()
    ensures FrameOfBox(1.0, Point(0.0, 0.0), Point(84.0, 0.0)) == CROWD_FRAME
  {
    assert CARD_H == 56.25;
    assert Scale(84.0, 0.0) == 1.0;
  }

  /** Four depots on the equator, 84 degrees apart at most: the scale the card fits them with is 1. */
  lemma CrowdFrame(cos: real -> real)
    requires cos(0.0) == 1.0
    ensures FrameOf(CROWD, cos) == CROWD_FRAME
  {
    MeanOfZeros();
    CrowdBox();
    CrowdFit();
  }

  lemma CrowdPlaces()
    ensures Place(CROWD[0], CROWD_FRAME) == Point(8.0, CARD_H / 2.0)
    ensures Place(CROWD[1], CROWD_FRAME) == Point(21.0, CARD_H / 2.0)
    ensures Place(CROWD[2], CROWD_FRAME) == Point(19.0, CARD_H / 2.0)
    ensures Place(CROWD[3], CROWD_FRAME) == Point(92.0, CARD_H / 2.0)
  {}

  lemma FoundsGroup(groups: seq<Group>, d: Depot, f: Frame)
    requires forall i :: 0 <= i < |groups| ==> !Near(groups[i].at, Place(d, f))
    ensures Merge(groups, d, f) == groups + [Group(Place(d, f), d, [d])]
  {}

  lemma JoinsFirst(groups: seq<Group>, d: Depot, f: Frame)
    requires groups != [] && Near(groups[0].at, Place(d, f))
    ensures var members := groups[0].members + [d];
            Merge(groups, d, f) == groups[0 := Group(Centroid(members, f), groups[0].first, members)]
  {}

  lemma CentroidOfTwo(d: Depot, e: Depot, f: Frame)
    ensures Centroid([d, e], f) == Point((Place(d, f).x + Place(e, f).x) / 2.0, (Place(d, f).y + Place(e, f).y) / 2.0)
  {
    var p, q := Place(d, f), Place(e, f);
    assert PlacedXs([d, e], f) == [p.x, q.x] && PlacedYs([d, e], f) == [p.y, q.y];
    PairMean(p.x, q.x);
    PairMean(p.y, q.y);
  }

  /** On one height, only the distance across counts. */
  lemma NearOnALine(x: real, z: real, y: real)
    ensures Near(Point(x, y), Point(z, y)) <==> -MERGE_DIST < x - z < MERGE_DIST
  {
    var w := x - z;
    assert w * w < 144.0 <==> -12.0 < w < 12.0;
  }

  lemma FirstOne(a: Depot, f: Frame)
    ensures GroupAll([a], f) == [Group(Place(a, f), a, [a])]
  {
    GroupSnoc([], a, f);
    FoundsGroup([], a, f);
    assert [] + [a] == [a];
  }

  lemma FirstTwo(a: Depot, b: Depot, f: Frame)
    requires !Near(Place(a, f), Place(b, f))
    ensures GroupAll([a, b], f) == [Group(Place(a, f), a, [a]), Group(Place(b, f), b, [b])]
  {
    FirstOne(a, f);
    var one := GroupAll([a], f);
    assert GroupAll([a, b], f) == Merge(one, b, f) by {
      GroupSnoc([a], b, f);
      assert [a] + [b] == [a, b];
    }
    assert one[0].at == Place(a, f);
    FoundsGroup(one, b, f);
  }

  /** The first two start bubbles of their own, and the third joins the first, moving it towards the second. */
  lemma CrowdGroups()
    ensures var y := CARD_H / 2.0;
            GroupAll(CROWD[..3], CROWD_FRAME) ==
            [Group(Point(13.5, y), CROWD[0], [CROWD[0], CROWD[2]]), Group(Point(21.0, y), CROWD[1], [CROWD[1]])]
  {
    var f, y, a, b, c := CROWD_FRAME, CARD_H / 2.0, CROWD[0], CROWD[1], CROWD[2];
    CrowdPlaces();
    NearOnALine(8.0, 21.0, y);
    FirstTwo(a, b, f);
    NearOnALine(8.0, 19.0, y);
    JoinsFirst(GroupAll([a, b], f), c, f);
    CentroidOfTwo(a, c, f);
    assert [a] + [c] == [a, c] && [a, b] + [c] == CROWD[..3];
    GroupSnoc([a, b], c, f);
  }

  lemma CrowdTouches()
    ensures var groups := GroupAll(CROWD, CROWD_FRAME);
            |groups| == 3 && Near(groups[0].at, groups[1].at)
  {
    CrowdLayout();
    NearOnALine(13.5, 21.0, CARD_H / 2.0);
  }

  /** The finished grouping: the fourth depot is far from both groups and stays alone. */
  lemma CrowdLayout()
    ensures var y := CARD_H / 2.0;
            GroupAll(CROWD, CROWD_FRAME) ==
            [Group(Point(13.5, y), CROWD[0], [CROWD[0], CROWD[2]]), Group(Point(21.0, y), CROWD[1], [CROWD[1]]),
             Group(Point(92.0, y), CROWD[3], [CROWD[3]])]
  {
    var y := CARD_H / 2.0;
    CrowdGroups();
    CrowdPlaces();
    NearOnALine(13.5, 92.0, y);
    NearOnALine(21.0, 92.0, y);
    FoundsGroup(GroupAll(CROWD[..3], CROWD_FRAME), CROWD[3], CROWD_FRAME);
    GroupSnoc(CROWD[..3], CROWD[3], CROWD_FRAME);
    assert CROWD[..3] + [CROWD[3]] == CROWD;
  }

  lemma NearPairParts(groups: seq<Group>, f: Frame, a: Depot, b: Depot)
    requires |groups| >= 2 && a in groups[0].members && b in groups[1].members && Near(Place(a, f), Place(b, f))
    ensures !NearTogether(groups, f)
  {}

  lemma CrowdParts()
    ensures var f, groups := CROWD_FRAME, GroupAll(CROWD, CROWD_FRAME);
            && |groups| == 3 && CROWD[2] in groups[0].members && CROWD[1] in groups[1].members
            && Near(Place(CROWD[1], f), Place(CROWD[2], f)) && !NearTogether(groups, f)
  {
    CrowdLayout();
    CrowdPlaces();
    NearOnALine(21.0, 19.0, CARD_H / 2.0);
    NearOnALine(19.0, 21.0, CARD_H / 2.0);
    NearPairParts(GroupAll(CROWD, CROWD_FRAME), CROWD_FRAME, CROWD[2], CROWD[1]);
  }

  /** In the layout of CROWD the second and third depots are placed 2 apart and drawn in different bubbles. */
  lemma NearDepotsCanPart(cos: real -> real)
    requires cos(0.0) == 1.0
    ensures var f := FrameOf(CROWD, cos);
            var groups := GroupAll(CROWD, f);
            && |groups| == 3 && CROWD[2] in groups[0].members && CROWD[1] in groups[1].members
            && Near(Place(CROWD[1], f), Place(CROWD[2], f)) && !NearTogether(groups, f)
  {
    CrowdFrame(cos);
    CrowdParts();
  }

  /**
   * Merging does not keep bubbles apart: a group's centre moves when it grows, so two bubbles of
   * a layout can end closer than MERGE_DIST.
   */
  lemma BubblesCanTouch(cos: real -> real)
    requires cos(0.0) == 1.0
    ensures var groups := GroupAll(CROWD, FrameOf(CROWD, cos));
            |groups| == 3 && Near(groups[0].at, groups[1].at)
  {
    CrowdFrame(cos);
    CrowdTouches();
  }
}
