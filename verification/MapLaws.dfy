/** Which way up the map is, how far it is zoomed and how bubbles are named. */
module MapLaws {
  import opened MapLayout

  // ---- directions ----

  lemma FittedScale(items: seq<Depot>, cos: real -> real)
    requires items != []
    ensures FrameOf(items, cos).scale > 0.0 && FrameOf(items, cos).kx == cos(Mean(Lats(items)))
  {
    var kx := cos(Mean(Lats(items)));
    BoxBounds(kx, Low(items, kx), High(items, kx));
  }

  lemma Difference(a: real, b: real, c: real, s: real)
    ensures (a - c) * s - (b - c) * s == s * (a - b)
  {}

  /**
   * Places differ by the scale times the difference in degrees: to the right by longitude shrunk
   * with `kx`, down by latitude southwards.
   */
  lemma PlacesDiffer(d: Depot, e: Depot, f: Frame)
    ensures Place(d, f).x - Place(e, f).x == f.scale * (d.lng * f.kx - e.lng * f.kx)
    ensures Place(d, f).y - Place(e, f).y == f.scale * (e.lat - d.lat)
  {
    Difference(d.lng * f.kx, e.lng * f.kx, f.cx, f.scale);
    Difference(e.lat, d.lat, f.cy, f.scale);
  }

  lemma SameSign(s: real, x: real)
    requires s > 0.0
    ensures s * x > 0.0 <==> x > 0.0
  {}

  lemma Shrinks(a: real, b: real, k: real)
    requires k > 0.0
    ensures a * k - b * k > 0.0 <==> a > b
  {
    assert a * k - b * k == k * (a - b);
    SameSign(k, a - b);
  }

  lemma Directions(d: Depot, e: Depot, f: Frame)
    requires f.scale > 0.0
    ensures d.lat > e.lat <==> Place(d, f).y < Place(e, f).y
    ensures f.kx > 0.0 ==> (d.lng > e.lng <==> Place(d, f).x > Place(e, f).x)
  {
    PlacesDiffer(d, e, f);
    PlacesDiffer(e, d, f);
    SameSign(f.scale, d.lat - e.lat);
    SameSign(f.scale, d.lng * f.kx - e.lng * f.kx);
    if f.kx > 0.0 {
      Shrinks(d.lng, e.lng, f.kx);
    }
  }

  /**
   * On every fitted map north is up, and east is to the right where the cosine of the mean
   * latitude is positive.
   */
  lemma NorthIsUp(items: seq<Depot>, cos: real -> real, d: Depot, e: Depot)
    requires items != []
    ensures var f := FrameOf(items, cos); d.lat > e.lat <==> Place(d, f).y < Place(e, f).y
    ensures cos(Mean(Lats(items))) > 0.0 ==>
              var f := FrameOf(items, cos); d.lng > e.lng <==> Place(d, f).x > Place(e, f).x
  {
    FittedScale(items, cos);
    Directions(d, e, FrameOf(items, cos));
  }

  // ---- the zoom ----

  lemma Divides(s: real, a: real, b: real)
    requires b > 0.0 && s * b <= a
    ensures s <= a / b
  {
    assert (s - a / b) * b == s * b - a;
  }

  /**
   * The zoom is as far in as the card allows: any scale that keeps both extents, taken as at
   * least 0.01 degrees, inside the card less its margins is no larger.
   */
  lemma ScaleIsLargest(kx: real, low: Point, high: Point, s: real)
    requires s * Max(high.x - low.x, 0.01) <= 84.0 && s * Max(high.y - low.y, 0.01) <= 40.25
    ensures s <= FrameOfBox(kx, low, high).scale
  {
    assert CARD_H == 56.25;
    Divides(s, 84.0, Max(high.x - low.x, 0.01));
    Divides(s, 40.25, Max(high.y - low.y, 0.01));
  }

  /** The frame of a layout is that of the box around all its depots. */
  lemma FittedToExtents(items: seq<Depot>, cos: real -> real)
    requires items != []
    ensures var kx := cos(Mean(Lats(items)));
            FrameOf(items, cos) ==
            FrameOfBox(kx, Point(Least(RawXs(items, kx)), Least(Lats(items))),
                       Point(Greatest(RawXs(items, kx)), Greatest(Lats(items))))
  {}

  lemma MirrorsCancel(a: real, b: real, c: real, s: real)
    requires a + b == 2.0 * c
    ensures (a - c) * s + (b - c) * s == 0.0
  {
    assert a - c == -(b - c);
  }

  /** The extremes of a fitted box lie as far from one edge of the card as from the other. */
  lemma ExtremesAreCentred(kx: real, low: Point, high: Point)
    ensures var f := FrameOfBox(kx, low, high);
            && PlaceRaw(low, f).x + PlaceRaw(high, f).x == 100.0
            && PlaceRaw(low, f).y + PlaceRaw(high, f).y == CARD_H
  {
    var f := FrameOfBox(kx, low, high);
    MirrorsCancel(low.x, high.x, f.cx, f.scale);
    MirrorsCancel(low.y, high.y, f.cy, f.scale);
  }

  // ---- names ----

  /** A bubble is named by its members' ids with bars between. */
  lemma {:induction false} KeysAreJoined(a: seq<Depot>, b: seq<Depot>)
    requires a != [] && b != []
    ensures Key(a + b) == Key(a) + "|" + Key(b)
    ensures |a| == 1 ==> Key(a) == a[0].id
    decreases |a|
  {
    assert (a + b)[1..] == a[1..] + b;
    if |a| > 1 {
      KeysAreJoined(a[1..], b);
    } else {
      assert a[1..] + b == b;
    }
  }
}
