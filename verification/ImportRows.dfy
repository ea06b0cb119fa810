/**
 * Turning one spreadsheet record into a nested payload: a dotted field writes into nested
 * objects, and the first column that fails rejects the row.
 */
module ImportRows {
  import opened Payloads
  import opened Wrappers

  datatype Parsed = Value(value: string) | Invalid(message: string)

  /** `path` is the dotted field split at its dots; `parse` is the parser the column chose. */
  datatype Column = Column(key: string, path: Path, required: bool, parse: string -> Parsed)

  datatype Row = Accepted(payload: map<string, Json>) | Missing(key: string) | Rejected(key: string, message: string)

  function CellOf(record: map<string, string>, col: Column): string {
    if col.key in record then record[col.key] else ""
  }

  /** A column that rejects the row: required and blank, or filled with something unreadable. */
  predicate Fails(record: map<string, string>, col: Column) {
    if col.key !in record || record[col.key] == "" then col.required else col.parse(record[col.key]).Invalid?
  }

  predicate Fills(record: map<string, string>, col: Column) {
    col.key in record && record[col.key] != "" && col.parse(record[col.key]).Value?
  }

  function Prepared(record: map<string, string>, columns: seq<Column>, payload: map<string, Json>): Row {
    if columns == [] then Accepted(payload)
    else
      var col, cell := columns[0], CellOf(record, columns[0]);
      if cell == "" then
        if col.required then Missing(col.key) else Prepared(record, columns[1..], payload)
      else
        match col.parse(cell)
        case Value(value) => Prepared(record, columns[1..], SetPath(payload, col.path, Leaf(value)))
        case Invalid(message) => Rejected(col.key, message)
  }

  // ---- whole rows ----

  /** Column `k` is the first that rejects the row. */
  ghost predicate FirstFailing(record: map<string, string>, columns: seq<Column>, k: int) {
    0 <= k < |columns| && Fails(record, columns[k]) && forall i :: 0 <= i < k ==> !Fails(record, columns[i])
  }

  function Reason(record: map<string, string>, col: Column): Row
    requires Fails(record, col)
  {
    if col.key !in record || record[col.key] == "" then Missing(col.key)
    else Rejected(col.key, col.parse(record[col.key]).message)
  }

  /** A row is accepted exactly when no column fails, and else gives the reason of the first that does. */
  lemma {:induction false} FirstFailureDecides(
    record: map<string, string>, columns: seq<Column>, payload: map<string, Json>)
    ensures Prepared(record, columns, payload).Accepted? <==> forall c :: c in columns ==> !Fails(record, c)
    ensures forall k :: FirstFailing(record, columns, k) ==>
              Prepared(record, columns, payload) == Reason(record, columns[k])
    decreases |columns|
  {
    if columns != [] {
      var col, rest := columns[0], columns[1..];
      assert forall c :: c in columns <==> c == col || c in rest;
      if !Fails(record, col) {
        var after := if CellOf(record, col) == "" then payload
                     else SetPath(payload, col.path, Leaf(col.parse(CellOf(record, col)).value));
        FirstFailureDecides(record, rest, after);
        forall k | FirstFailing(record, columns, k)
          ensures Prepared(record, columns, payload) == Reason(record, columns[k])
        {
          assert k > 0 && columns[k] == rest[k - 1];
          assert forall i :: 0 <= i < k - 1 ==> rest[i] == columns[i + 1];
          assert FirstFailing(record, rest, k - 1);
        }
      }
    }
  }

  ghost predicate AllApart(columns: seq<Column>) {
    forall i, k :: 0 <= i < k < |columns| ==> Apart(columns[i].path, columns[k].path)
  }

  /** What columns apart from `path` do to it: nothing. */
  lemma {:induction false} OtherColumnsLeave(
    record: map<string, string>, columns: seq<Column>, payload: map<string, Json>, path: Path)
    requires Prepared(record, columns, payload).Accepted?
    requires forall i :: 0 <= i < |columns| ==> Apart(columns[i].path, path)
    ensures GetPath(Prepared(record, columns, payload).payload, path) == GetPath(payload, path)
    decreases |columns|
  {
    if columns != [] {
      var col, cell := columns[0], CellOf(record, columns[0]);
      if cell == "" {
        OtherColumnsLeave(record, columns[1..], payload, path);
      } else {
        OtherColumnsLeave(record, columns[1..], SetPath(payload, col.path, Leaf(col.parse(cell).value)), path);
        SetLeavesOthers(payload, col.path, path, Leaf(col.parse(cell).value));
      }
    }
  }

  /**
   * When the fields are pairwise apart, an accepted row holds at each filled column's path
   * exactly that column's parsed cell, and at a blank column's path what was there before.
   */
  lemma {:induction false} PayloadHoldsCells(
    record: map<string, string>, columns: seq<Column>, payload: map<string, Json>, k: nat)
    requires AllApart(columns) && k < |columns| && Prepared(record, columns, payload).Accepted?
    ensures var col, cell := columns[k], CellOf(record, columns[k]);
            var found := GetPath(Prepared(record, columns, payload).payload, col.path);
            if cell == "" then found == GetPath(payload, col.path)
            else col.parse(cell).Value? && found == Some(Leaf(col.parse(cell).value))
    decreases |columns|
  {
    var col, cell, rest := columns[0], CellOf(record, columns[0]), columns[1..];
    var after := if cell == "" then payload else SetPath(payload, col.path, Leaf(col.parse(cell).value));
    if k == 0 {
      OtherColumnsLeave(record, rest, after, col.path);
      if cell != "" {
        SetThenGet(payload, col.path, Leaf(col.parse(cell).value));
      }
    } else {
      PayloadHoldsCells(record, rest, after, k - 1);
      if cell != "" {
        SetLeavesOthers(payload, col.path, columns[k].path, Leaf(col.parse(cell).value));
      }
    }
  }

  lemma {:induction false} LeavesComeFromColumns(
    record: map<string, string>, columns: seq<Column>, payload: map<string, Json>, q: Path, v: string)
    requires Prepared(record, columns, payload).Accepted?
    requires GetPath(Prepared(record, columns, payload).payload, q) == Some(Leaf(v))
    ensures GetPath(payload, q) == Some(Leaf(v))
            || exists i :: 0 <= i < |columns| && Fills(record, columns[i]) && columns[i].path == q
    decreases |columns|
  {
    if columns != [] {
      var col, cell, rest := columns[0], CellOf(record, columns[0]), columns[1..];
      var after := if cell == "" then payload else SetPath(payload, col.path, Leaf(col.parse(cell).value));
      LeavesComeFromColumns(record, rest, after, q, v);
      if i :| 0 <= i < |rest| && Fills(record, rest[i]) && rest[i].path == q {
        assert columns[i + 1] == rest[i];
      } else if cell != "" {
        LeafIsSetOrWasThere(payload, col.path, q, col.parse(cell).value, v);
        assert columns[0].path == q ==> Fills(record, columns[0]);
      }
    }
  }

  /** An accepted row holds no value but those of its filled columns. */
  lemma NothingElseIsHeld(record: map<string, string>, columns: seq<Column>, q: Path, v: string)
    requires Prepared(record, columns, map[]).Accepted?
    requires GetPath(Prepared(record, columns, map[]).payload, q) == Some(Leaf(v))
    ensures exists i :: 0 <= i < |columns| && Fills(record, columns[i]) && columns[i].path == q
  {
    LeavesComeFromColumns(record, columns, map[], q, v);
    EmptyHasNothing(q);
  }

  /** From the empty payload nothing lies at a blank column's path. */
  lemma BlankColumnsStayAbsent(record: map<string, string>, columns: seq<Column>, k: nat)
    requires AllApart(columns) && k < |columns| && Prepared(record, columns, map[]).Accepted?
    ensures GetPath(Prepared(record, columns, map[]).payload, columns[k].path).Some? <==> Fills(record, columns[k])
  {
    PayloadHoldsCells(record, columns, map[], k);
    EmptyHasNothing(columns[k].path);
  }

  /** Swapping two neighbouring columns gives the same payload. */
  lemma NeighboursSwap(
    record: map<string, string>, c: Column, d: Column, rest: seq<Column>, payload: map<string, Json>)
    requires Apart(c.path, d.path) && Prepared(record, [c, d] + rest, payload).Accepted?
    ensures Prepared(record, [d, c] + rest, payload) == Prepared(record, [c, d] + rest, payload)
  {
    assert ([c, d] + rest)[1..] == [d] + rest && ([d] + rest)[1..] == rest;
    assert ([d, c] + rest)[1..] == [c] + rest && ([c] + rest)[1..] == rest;
    if Fills(record, c) && Fills(record, d) {
      var v, w := c.parse(CellOf(record, c)).value, d.parse(CellOf(record, d)).value;
      SetsCommute(payload, c.path, d.path, Leaf(v), Leaf(w));
    }
  }

  /** The payload once the first column, which does not fail, has been handled. */
  function After(record: map<string, string>, col: Column, payload: map<string, Json>): map<string, Json>
    requires !Fails(record, col)
  {
    if Fills(record, col) then SetPath(payload, col.path, Leaf(col.parse(CellOf(record, col)).value)) else payload
  }

  lemma FirstColumn(record: map<string, string>, c: Column, rest: seq<Column>, payload: map<string, Json>)
    requires !Fails(record, c)
    ensures Prepared(record, [c] + rest, payload) == Prepared(record, rest, After(record, c, payload))
  {
    assert ([c] + rest)[1..] == rest;
  }

  ghost predicate NoneFails(record: map<string, string>, columns: seq<Column>) {
    forall c :: c in columns ==> !Fails(record, c)
  }

  /** Column `c` steps over the column before it. */
  lemma StepsOver(record: map<string, string>, b: Column, c: Column, rest: seq<Column>, payload: map<string, Json>)
    requires Apart(b.path, c.path) && !Fails(record, b) && !Fails(record, c) && NoneFails(record, rest)
    ensures Prepared(record, [c] + ([b] + rest), payload) == Prepared(record, [b] + ([c] + rest), payload)
  {
    assert [b] + ([c] + rest) == [b, c] + rest && [c] + ([b] + rest) == [c, b] + rest;
    assert NoneFails(record, [b, c] + rest);
    FirstFailureDecides(record, [b, c] + rest, payload);
    NeighboursSwap(record, b, c, rest, payload);
  }

  lemma HeadApart<T>(items: seq<T>, tail: seq<T>)
    requires items != []
    ensures items + tail == [items[0]] + (items[1..] + tail)
  {}

  lemma AtItem<T>(items: seq<T>, k: nat)
    requires k < |items|
    ensures items == items[..k] + ([items[k]] + items[k + 1..])
  {}

  lemma NoneFailsTogether(record: map<string, string>, a: seq<Column>, b: seq<Column>)
    ensures NoneFails(record, a + b) <==> NoneFails(record, a) && NoneFails(record, b)
  {
    assert forall c :: c in a + b <==> c in a || c in b;
  }

  /** A column apart from those before it may as well come first. */
  lemma {:induction false} MovesToFront(
    record: map<string, string>, before: seq<Column>, c: Column, rest: seq<Column>, payload: map<string, Json>)
    requires (forall b :: b in before ==> Apart(b.path, c.path)) && NoneFails(record, before)
    requires !Fails(record, c) && NoneFails(record, rest)
    ensures Prepared(record, before + ([c] + rest), payload) == Prepared(record, [c] + (before + rest), payload)
    decreases |before|
  {
    if before == [] {
      assert before + ([c] + rest) == [c] + rest && before + rest == rest;
    } else {
      var b, between := before[0], before[1..];
      HeadApart(before, [c] + rest);
      HeadApart(before, rest);
      assert forall x :: x in between ==> x in before;
      MovesToFront(record, between, c, rest, After(record, b, payload));
      FirstColumn(record, b, between + ([c] + rest), payload);
      FirstColumn(record, b, [c] + (between + rest), payload);
      NoneFailsTogether(record, between, rest);
      StepsOver(record, b, c, between + rest, payload);
    }
  }

  /** Item `k` taken out. */
  function Others<T>(items: seq<T>, k: nat): seq<T>
    requires k < |items|
  {
    items[..k] + items[k + 1..]
  }

  lemma OthersAndOne<T>(items: seq<T>, k: nat)
    requires k < |items|
    ensures multiset(items) == multiset(Others(items, k)) + multiset{items[k]}
  {
    assert items == items[..k] + [items[k]] + items[k + 1..];
  }

  /** Where the first item of a reordering stands, and that the rest is a reordering of the others. */
  lemma FindsFirst<T>(items: seq<T>, reordered: seq<T>) returns (k: nat)
    requires multiset(items) == multiset(reordered) && reordered != []
    ensures k < |items| && items[k] == reordered[0]
    ensures multiset(Others(items, k)) == multiset(reordered[1..])
  {
    assert reordered == [reordered[0]] + reordered[1..];
    assert reordered[0] in multiset(reordered);
    assert reordered[0] in items;
    k :| 0 <= k < |items| && items[k] == reordered[0];
    OthersAndOne(items, k);
    assert multiset(Others(items, k)) == multiset(items) - multiset{items[k]};
  }

  lemma OthersStayApart(columns: seq<Column>, k: nat)
    requires k < |columns| && AllApart(columns)
    ensures AllApart(Others(columns, k))
    ensures forall i :: 0 <= i < k ==> Apart(columns[i].path, columns[k].path)
  {
    var rest := Others(columns, k);
    forall i, j | 0 <= i < j < |rest| ensures Apart(rest[i].path, rest[j].path) {
      assert rest[i] == columns[if i < k then i else i + 1] && rest[j] == columns[if j < k then j else j + 1];
    }
  }

  /** An accepted row may take any of its columns first. */
  lemma TakesFirst(record: map<string, string>, columns: seq<Column>, k: nat, payload: map<string, Json>)
    requires AllApart(columns) && k < |columns| && Prepared(record, columns, payload).Accepted?
    ensures !Fails(record, columns[k])
    ensures Prepared(record, columns, payload)
         == Prepared(record, Others(columns, k), After(record, columns[k], payload))
  {
    var c, before, rest := columns[k], columns[..k], columns[k + 1..];
    FirstFailureDecides(record, columns, payload);
    OthersStayApart(columns, k);
    AtItem(columns, k);
    assert forall x :: x in before || x in rest ==> x in columns;
    MovesToFront(record, before, c, rest, payload);
    FirstColumn(record, c, Others(columns, k), payload);
  }

  /**
   * Any order of the columns gives the same payload for an accepted row, when their fields are
   * pairwise apart.
   */
  lemma {:induction false} ColumnOrderDoesNotMatter(
    record: map<string, string>, columns: seq<Column>, reordered: seq<Column>, payload: map<string, Json>)
    requires AllApart(columns) && multiset(columns) == multiset(reordered)
    requires Prepared(record, columns, payload).Accepted?
    ensures Prepared(record, reordered, payload) == Prepared(record, columns, payload)
    decreases |columns|
  {
    if reordered == [] {
      assert |multiset(columns)| == 0;
    } else {
      var c, rest := reordered[0], reordered[1..];
      var k := FindsFirst(columns, reordered);
      OthersStayApart(columns, k);
      TakesFirst(record, columns, k, payload);
      ColumnOrderDoesNotMatter(record, Others(columns, k), rest, After(record, c, payload));
      FirstColumn(record, c, rest, payload);
      assert reordered == [c] + rest;
    }
  }
}
