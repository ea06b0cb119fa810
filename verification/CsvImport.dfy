/** The import as it runs: payload objects built in memory and changed in place. */
module CsvImport {
  import opened ImportRows
  import opened Payloads

  /** What lies under a key of an object in memory. */
  datatype Slot = Plain(value: string) | Nested(node: JsonObject)

  lemma Overwrite<K, V>(m: map<K, V>, k: K, v: V, w: V)
    ensures m[k := v][k := w] == m[k := w]
  {}

  /** A plain object of the payload, changed in place. */
  class JsonObject {
    var slots: map<string, Slot>
    ghost var Repr: set<object>

    /** A tree: the objects below two keys share nothing. */
    ghost predicate Valid()
      reads this, Repr
      decreases Repr
    {
      && this in Repr
      && (forall k :: k in slots && slots[k].Nested? ==>
            slots[k].node in Repr && slots[k].node.Repr <= Repr && this !in slots[k].node.Repr && slots[k].node.Valid())
      && (forall j, k :: j in slots && k in slots && j != k && slots[j].Nested? && slots[k].Nested? ==>
            slots[j].node.Repr !! slots[k].node.Repr)
    }

    /** The value this object holds. */
    ghost function Fields(): map<string, Json>
      requires Valid()
      reads this, Repr
      decreases Repr
    {
      map k | k in slots :: match slots[k] case Plain(v) => Leaf(v) case Nested(n) => Object(n.Fields())
    }

    constructor ()
      ensures Valid() && fresh(Repr) && Fields() == map[]
    {
      slots := map[];
      Repr := {this};
    }

    /** What lies under `key` is all in which the object differs from `before`. */
    lemma Differs(before: map<string, Json>, key: string)
      requires Valid() && key in slots && slots[key].Nested? && before.Keys + {key} == slots.Keys
      requires forall k :: k in slots && k != key ==>
                 before[k] == match slots[k] case Plain(v) => Leaf(v) case Nested(n) => Object(n.Fields())
      ensures Fields() == before[key := Object(slots[key].node.Fields())]
    {}

    /** The object under `key`, put there if there is none. */
    method Enter(key: string) returns (next: JsonObject)
      requires Valid()
      modifies this
      ensures Valid() && fresh(Repr - old(Repr))
      ensures key in slots && slots[key] == Nested(next)
      ensures next.Fields() == Below(old(Fields()), key)
      ensures Fields() == old(Fields())[key := Object(next.Fields())]
    {
      if key in slots && slots[key].Nested? {
        next := slots[key].node;
      } else {
        next := Add(key);
      }
    }

    /** A new empty object under `key`. */
    method Add(key: string) returns (next: JsonObject)
      requires Valid()
      modifies this
      ensures Valid() && fresh(Repr - old(Repr))
      ensures key in slots && slots[key] == Nested(next)
      ensures next.Fields() == map[]
      ensures Fields() == old(Fields())[key := Object(map[])]
    {
      ghost var before := Fields();
      next := new JsonObject();
      slots := slots[key := Nested(next)];
      Repr := Repr + next.Repr;
      Differs(before, key);
    }

    method Store(key: string, value: string)
      requires Valid()
      modifies this
      ensures Valid() && Repr == old(Repr)
      ensures Fields() == old(Fields())[key := Leaf(value)]
    {
      slots := slots[key := Plain(value)];
    }

    /** Walk down the path, making the objects that are missing, and write at its end. */
    method Set(path: Path, value: string)
      requires Valid()
      modifies Repr
      ensures Valid() && fresh(Repr - old(Repr))
      ensures Fields() == SetPath(old(Fields()), path, Leaf(value))
      decreases |path|, 1
    {
      if |path| == 1 {
        Store(path[0], value);
      } else {
        ghost var before := Fields();
        var next := Enter(path[0]);
        SetBelow(path[0], next, path[1..], value);
        ghost var below := Below(before, path[0]);
        Overwrite(before, path[0], Object(below), Object(SetPath(below, path[1..], Leaf(value))));
      }
    }

    /** The object under `key` has grown: it stays part of this one. */
    ghost method Absorb(before: map<string, Json>, key: string)
      requires this in Repr && key in slots && slots[key].Nested? && before.Keys + {key} == slots.Keys
      requires forall k :: k in slots && slots[k].Nested? ==>
                 && this !in slots[k].node.Repr && slots[k].node.Valid()
                 && (k != key ==> slots[k].node in Repr && slots[k].node.Repr <= Repr)
      requires forall j, k :: j in slots && k in slots && j != k && slots[j].Nested? && slots[k].Nested? ==>
                 slots[j].node.Repr !! slots[k].node.Repr
      requires forall k :: k in slots && k != key ==>
                 before[k] == match slots[k] case Plain(v) => Leaf(v) case Nested(n) => Object(n.Fields())
      modifies `Repr
      ensures Valid() && Repr == old(Repr) + slots[key].node.Repr
      ensures Fields() == before[key := Object(old(slots[key].node.Fields()))]
      ensures slots[key].node.Valid() && slots[key].node.Fields() == old(slots[key].node.Fields())
    {
      Repr := Repr + slots[key].node.Repr;
      Differs(before, key);
    }

    /** `Set` on the object under `key`: the other keys keep what they hold. */
    method SetBelow(key: string, next: JsonObject, path: Path, value: string)
      requires Valid() && key in slots && slots[key] == Nested(next)
      modifies Repr
      ensures Valid() && fresh(Repr - old(Repr))
      ensures next.Valid() && next.Fields() == SetPath(old(next.Fields()), path, Leaf(value))
      ensures Fields() == old(Fields())[key := Object(next.Fields())]
      decreases |path|, 2
    {
      ghost var before := Fields();
      assert before.Keys + {key} == slots.Keys;
      next.Set(path, value);
      forall k | k in slots && slots[k].Nested? && k != key
        ensures slots[k].node.Valid() && slots[k].node.Repr == old(slots[k].node.Repr)
        ensures slots[k].node.Repr !! next.Repr
        ensures before[k] == Object(slots[k].node.Fields())
      {
        assert slots[k].node.Repr !! old(next.Repr);
      }
      Absorb(before, key);
    }
  }

  /** A row as the import holds it: its payload object, or why it was rejected. */
  datatype Shaped = Built(payload: JsonObject) | Unusable(row: Row)

  /** What `shaped` says is `row`. */
  ghost predicate Shows(shaped: Shaped, row: Row)
    reads if shaped.Built? then {shaped.payload} else {}
    reads if shaped.Built? then shaped.payload.Repr else {}
  {
    match shaped
    case Built(o) => o.Valid() && row == Accepted(o.Fields())
    case Unusable(r) => row == r && !r.Accepted?
  }

  method PrepareRow(record: map<string, string>, columns: seq<Column>) returns (shaped: Shaped)
    ensures Shows(shaped, Prepared(record, columns, map[]))
    ensures shaped.Built? ==> fresh(shaped.payload.Repr)
  {
    var payload := new JsonObject();
    for i := 0 to |columns|
      invariant payload.Valid() && fresh(payload.Repr)
      invariant Prepared(record, columns, map[]) == Prepared(record, columns[i..], payload.Fields())
    {
      var col := columns[i];
      assert columns[i..][1..] == columns[i + 1..];
      var cell := if col.key in record then record[col.key] else "";
      if cell == "" {
        if col.required {
          return Unusable(Missing(col.key));
        }
        continue;
      }
      match col.parse(cell) {
        case Value(value) => payload.Set(col.path, value);
        case Invalid(message) => return Unusable(Rejected(col.key, message));
      }
    }
    return Built(payload);
  }

  /** Every record in turn; no two rows share a payload object. */
  method PrepareRows(records: seq<map<string, string>>, columns: seq<Column>) returns (rows: seq<Shaped>)
    ensures |rows| == |records|
    ensures forall i :: 0 <= i < |rows| ==> Shows(rows[i], Prepared(records[i], columns, map[]))
    ensures forall i, k :: 0 <= i < k < |rows| && rows[i].Built? && rows[k].Built? ==>
              rows[i].payload.Repr !! rows[k].payload.Repr
  {
    rows := [];
    for n := 0 to |records|
      invariant |rows| == n
      invariant forall i :: 0 <= i < n ==> Shows(rows[i], Prepared(records[i], columns, map[]))
      invariant forall i :: 0 <= i < n && rows[i].Built? ==> fresh(rows[i].payload.Repr)
      invariant forall i, k :: 0 <= i < k < n && rows[i].Built? && rows[k].Built? ==>
                  rows[i].payload.Repr !! rows[k].payload.Repr
    {
      var shaped := PrepareRow(records[n], columns);
      rows := rows + [shaped];
    }
  }
}
