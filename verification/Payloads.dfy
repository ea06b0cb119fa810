/** The nested payload of an import row: writing at a dotted path, and what that leaves alone. */
module Payloads {
  import opened Wrappers

  type Path = p: seq<string> | p != [] witness ["key"]

  /** A payload value; a leaf stands for anything that is not a plain object. */
  datatype Json = Leaf(value: string) | Object(fields: map<string, Json>)

  /** The object under `key`, or an empty one where there is none. */
  function Below(target: map<string, Json>, key: string): map<string, Json> {
    if key in target && target[key].Object? then target[key].fields else map[]
  }

  /** Write `value` at `path`, replacing what is not an object on the way. */
  function SetPath(target: map<string, Json>, path: Path, value: Json): map<string, Json>
    decreases |path|
  {
    if |path| == 1 then target[path[0] := value]
    else target[path[0] := Object(SetPath(Below(target, path[0]), path[1..], value))]
  }

  function GetPath(target: map<string, Json>, path: Path): Option<Json>
    decreases |path|
  {
    if path[0] !in target then None
    else if |path| == 1 then Some(target[path[0]])
    else if target[path[0]].Object? then GetPath(target[path[0]].fields, path[1..])
    else None
  }

  // ---- lens laws ----

  predicate Apart(p: Path, q: Path) {
    !(p <= q) && !(q <= p)
  }

  lemma {:induction false} SetThenGet(t: map<string, Json>, p: Path, v: Json)
    ensures GetPath(SetPath(t, p, v), p) == Some(v)
    decreases |p|
  {
    if |p| > 1 {
      var next := Below(t, p[0]);
      SetThenGet(next, p[1..], v);
    }
  }

  lemma TailsApart(p: Path, q: Path)
    requires Apart(p, q) && p[0] == q[0]
    ensures |p| > 1 && |q| > 1 && Apart(p[1..], q[1..])
  {
    assert p == [p[0]] + p[1..] && q == [q[0]] + q[1..];
  }

  lemma {:induction false} EmptyHasNothing(p: Path)
    ensures GetPath(map[], p) == None
  {}

  /** Writing at one path leaves another alone when neither is a prefix of the other. */
  lemma {:induction false} SetLeavesOthers(t: map<string, Json>, p: Path, q: Path, v: Json)
    requires Apart(p, q)
    ensures GetPath(SetPath(t, p, v), q) == GetPath(t, q)
    decreases |p|
  {
    if p[0] == q[0] {
      TailsApart(p, q);
      var next := Below(t, p[0]);
      SetLeavesOthers(next, p[1..], q[1..], v);
      EmptyHasNothing(q[1..]);
    }
  }

  lemma DifferentHeadsCommute(t: map<string, Json>, p: Path, q: Path, v: Json, w: Json)
    requires p[0] != q[0]
    ensures SetPath(SetPath(t, p, v), q, w) == SetPath(SetPath(t, q, w), p, v)
  {
    var a := SetPath(t, p, v)[p[0]];
    var b := SetPath(t, q, w)[q[0]];
    assert SetPath(t, p, v) == t[p[0] := a] && SetPath(t, q, w) == t[q[0] := b];
    assert Below(t[p[0] := a], q[0]) == Below(t, q[0]) && Below(t[q[0] := b], p[0]) == Below(t, p[0]);
    assert t[p[0] := a][q[0] := b] == t[q[0] := b][p[0] := a];
  }

  lemma SameHead(t: map<string, Json>, p: Path, q: Path, v: Json, w: Json)
    requires p[0] == q[0] && |p| > 1 && |q| > 1
    ensures SetPath(SetPath(t, p, v), q, w)
         == t[p[0] := Object(SetPath(SetPath(Below(t, p[0]), p[1..], v), q[1..], w))]
  {
    var inner := SetPath(Below(t, p[0]), p[1..], v);
    var t1 := SetPath(t, p, v);
    assert t1 == t[p[0] := Object(inner)] && Below(t1, q[0]) == inner;
    assert t1[q[0] := Object(SetPath(inner, q[1..], w))] == t[p[0] := Object(SetPath(inner, q[1..], w))];
  }

  /** Writes at paths that are apart commute, so the order of the columns decides nothing. */
  lemma {:induction false} SetsCommute(t: map<string, Json>, p: Path, q: Path, v: Json, w: Json)
    requires Apart(p, q)
    ensures SetPath(SetPath(t, p, v), q, w) == SetPath(SetPath(t, q, w), p, v)
    decreases |p|
  {
    if p[0] == q[0] {
      TailsApart(p, q);
      SetsCommute(Below(t, p[0]), p[1..], q[1..], v, w);
      SameHead(t, p, q, v, w);
      SameHead(t, q, p, w, v);
    } else {
      DifferentHeadsCommute(t, p, q, v, w);
    }
  }

  /** Above a written path lies an object. */
  lemma {:induction false} AboveLiesAnObject(t: map<string, Json>, p: Path, q: Path, v: Json)
    requires p < q
    ensures GetPath(SetPath(t, q, v), p).Some? && GetPath(SetPath(t, q, v), p).value.Object?
    decreases |p|
  {
    if |p| > 1 {
      var next := Below(t, q[0]);
      assert p[1..] < q[1..];
      AboveLiesAnObject(next, p[1..], q[1..], v);
    }
  }

  lemma {:induction false} BelowALeaf(t: map<string, Json>, p: Path, q: Path, x: string)
    requires q < p
    ensures GetPath(SetPath(t, q, Leaf(x)), p) == None
    decreases |p|
  {
    if |q| > 1 {
      var next := Below(t, q[0]);
      assert q[1..] < p[1..];
      BelowALeaf(next, p[1..], q[1..], x);
    }
  }

  /** A value found after a value was written is that one, or was there before. */
  lemma LeafIsSetOrWasThere(t: map<string, Json>, p: Path, q: Path, x: string, v: string)
    requires GetPath(SetPath(t, p, Leaf(x)), q) == Some(Leaf(v))
    ensures p == q || GetPath(t, q) == Some(Leaf(v))
  {
    if Apart(p, q) {
      SetLeavesOthers(t, p, q, Leaf(x));
    } else if q < p {
      AboveLiesAnObject(t, q, p, Leaf(x));
    } else if p < q {
      BelowALeaf(t, q, p, x);
    }
  }

  /** Two fields never disturb each other exactly when neither is a prefix of the other. */
  lemma UndisturbedIffApart(p: Path, q: Path)
    ensures (forall t, v :: GetPath(SetPath(t, q, v), p) == GetPath(t, p)) <==> Apart(p, q)
  {
    if Apart(p, q) {
      forall t, v ensures GetPath(SetPath(t, q, v), p) == GetPath(t, p) {
        SetLeavesOthers(t, q, p, v);
      }
    } else if p == q {
      SetThenGet(map[], q, Leaf(""));
      EmptyHasNothing(p);
      assert GetPath(SetPath(map[], q, Leaf("")), p) != GetPath(map[], p);
    } else if p <= q {
      AboveLiesAnObject(map[], p, q, Leaf(""));
      EmptyHasNothing(p);
      assert GetPath(SetPath(map[], q, Leaf("")), p) != GetPath(map[], p);
    } else {
      var t := SetPath(map[], p, Leaf(""));
      SetThenGet(map[], p, Leaf(""));
      BelowALeaf(t, p, q, "");
      assert GetPath(SetPath(t, q, Leaf("")), p) != GetPath(t, p);
    }
  }
}
