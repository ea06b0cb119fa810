/**
 * What the CSV printer writes and the parser reads, said without the scanner: neutralised cells,
 * quoting, separators, line ends, byte order marks, blank rows and the vote.
 */
module CsvLaws {
  import opened Text
  import opened Csv

  // ---- white space ----

  /** What `Trim` leaves: a stretch with nothing but white space around it and none at its ends. */
  lemma {:induction false} TrimStartLeaves(s: string) returns (i: nat)
    ensures i <= |s| && TrimStart(s) == s[i..] && (forall k :: 0 <= k < i ==> IsSpace(s[k]))
    ensures i < |s| ==> !IsSpace(s[i])
    decreases |s|
  {
    if s != [] && IsSpace(s[0]) {
      var k := TrimStartLeaves(s[1..]);
      i := k + 1;
      assert forall n :: 0 < n < i ==> s[n] == s[1..][n - 1];
    } else {
      i := 0;
    }
  }

  lemma {:induction false} TrimEndLeaves(s: string) returns (j: nat)
    ensures j <= |s| && TrimEnd(s) == s[..j] && (forall k :: j <= k < |s| ==> IsSpace(s[k]))
    ensures j > 0 ==> !IsSpace(s[j - 1])
    decreases |s|
  {
    if s != [] && IsSpace(s[|s| - 1]) {
      j := TrimEndLeaves(s[..|s| - 1]);
    } else {
      j := |s|;
    }
  }

  lemma TrimLeaves(s: string) returns (i: nat, j: nat)
    ensures i <= j <= |s| && Trim(s) == s[i..j]
    ensures forall k :: 0 <= k < i || j <= k < |s| ==> IsSpace(s[k])
    ensures i < j ==> !IsSpace(s[i]) && !IsSpace(s[j - 1])
  {
    i := TrimStartLeaves(s);
    var rest := s[i..];
    var n := TrimEndLeaves(rest);
    j := i + n;
    assert forall k :: n <= k < |rest| ==> rest[k] == s[i + k];
    forall k | j <= k < |s| ensures IsSpace(s[k]) {
      assert rest[k - i] == s[k];
    }
  }

  /** A cell is blank exactly when nothing is left of it after trimming. */
  lemma BlankIffTrimmedAway(cell: string)
    ensures BlankCell(cell) <==> Trim(cell) == ""
  {
    var i, j := TrimLeaves(cell);
    if i < j {
      assert cell[i] in cell;
    } else {
      forall c | c in cell ensures IsSpace(c) {
        var k :| 0 <= k < |cell| && cell[k] == c;
      }
    }
  }

  /** Exactly the rows with a cell that is not white space are kept. */
  lemma {:induction false} KeepsWhatShows(rows: seq<seq<string>>)
    ensures forall r :: r in Keep(rows) <==> r in rows && exists cell :: cell in r && Trim(cell) != ""
  {
    if rows != [] {
      KeepsWhatShows(rows[1..]);
      assert forall r :: r in rows <==> r == rows[0] || r in rows[1..];
      assert BlankRow(rows[0]) <==> forall cell :: cell in rows[0] ==> Trim(cell) == "" by {
        forall cell | cell in rows[0] ensures BlankCell(cell) <==> Trim(cell) == "" {
          BlankIffTrimmedAway(cell);
        }
      }
    }
  }

  // ---- the printer ----

  /** What a spreadsheet takes for the start of a formula, or trims to one. */
  predicate StartsFormula(text: string) {
    text != ""
    && (text[0] == '=' || text[0] == '+' || text[0] == '-' || text[0] == '@' || text[0] == '\t' || text[0] == '\r')
  }

  /** No shown cell starts a formula; an apostrophe is put in front of exactly those that would. */
  lemma ShownIsNeutral(cell: Cell)
    ensures !StartsFormula(Shown(cell))
    ensures cell.Absent? ==> Shown(cell) == ""
    ensures cell.Filled? ==> Shown(cell) == if StartsFormula(cell.text) then "'" + cell.text else cell.text
  {}

  /** A cell is quoted exactly when it holds a comma, a quote, a CR or a LF. */
  lemma QuotedIff(text: string)
    ensures Field(text) == text <==> ',' !in text && '"' !in text && '\r' !in text && '\n' !in text
    ensures Field(text) != text ==> Field(text) == "\"" + Doubled(text) + "\""
  {
    if NeedsQuotes(text) {
      DoubledIsLonger(text);
      assert |Field(text)| > |text|;
    }
  }

  lemma {:induction false} DoubledIsLonger(text: string)
    ensures |Doubled(text)| >= |text|
  {
    if text != [] {
      DoubledIsLonger(text[1..]);
    }
  }

  lemma {:induction false} DoubledKeeps(text: string)
    requires '"' !in text
    ensures Doubled(text) == text
    decreases |text|
  {
    if text != [] {
      assert text[0] in text && forall c :: c in text[1..] ==> c in text;
      DoubledKeeps(text[1..]);
    }
  }

  lemma {:induction false} DoubledConcat(a: string, b: string)
    ensures Doubled(a + b) == Doubled(a) + Doubled(b)
    decreases |a|
  {
    if a == [] {
      assert a + b == b;
    } else {
      assert (a + b)[0] == a[0] && (a + b)[1..] == a[1..] + b;
      DoubledConcat(a[1..], b);
      Regroup(if a[0] == '"' then "\"\"" else [a[0]], Doubled(a[1..]), Doubled(b), "");
    }
  }

  /** Doubling writes every quote twice and changes nothing else. */
  lemma DoubledMeans(before: string, after: string)
    requires '"' !in before
    ensures Doubled(before) == before
    ensures Doubled(before + "\"" + after) == before + "\"\"" + Doubled(after)
  {
    DoubledKeeps(before);
    DoubledConcat(before + "\"", after);
    DoubledConcat(before, "\"");
    assert "\""[1..] == "" && "\"\"" + "" == "\"\"";
  }

  /** Cells are joined by commas. */
  lemma {:induction false} RowsAreJoinedByCommas(a: seq<Cell>, b: seq<Cell>)
    requires a != [] && b != []
    ensures PrintRow(a + b) == PrintRow(a) + "," + PrintRow(b)
    decreases |a|
  {
    assert (a + b)[1..] == a[1..] + b;
    if |a| > 1 {
      RowsAreJoinedByCommas(a[1..], b);
      Regroup(EscapeCell(a[0]) + ",", PrintRow(a[1..]), ",", PrintRow(b));
      Regroup(PrintRow(a[1..]), ",", PrintRow(b), "");
    } else {
      assert a[1..] + b == b;
    }
  }

  /** Rows are joined by CR and LF. */
  lemma {:induction false} RowsAreJoinedByLineEnds(a: seq<seq<Cell>>, b: seq<seq<Cell>>)
    requires a != [] && b != []
    ensures PrintRows(a + b) == PrintRows(a) + "\r\n" + PrintRows(b)
    decreases |a|
  {
    assert (a + b)[1..] == a[1..] + b;
    if |a| > 1 {
      RowsAreJoinedByLineEnds(a[1..], b);
      Regroup(PrintRow(a[0]) + "\r\n", PrintRows(a[1..]), "\r\n", PrintRows(b));
      Regroup(PrintRows(a[1..]), "\r\n", PrintRows(b), "");
    } else {
      assert a[1..] + b == b;
    }
  }

  /** Every cell that comes back from a printed table is neutral. */
  lemma {:induction false} KeptCellsWere(rows: seq<seq<string>>, r: seq<string>)
    requires r in Keep(rows)
    ensures r in rows
    decreases |rows|
  {
    KeepsWhatShows(rows);
  }

  lemma ReadBackIsNeutral(headers: seq<string>, rows: seq<seq<Cell>>, r: seq<string>, cell: string)
    requires headers != [] && headers[0] != [] ==> headers[0][0] != BOM
    requires r in Parsed(ToCsv(headers, rows), ',') && cell in r
    ensures !StartsFormula(cell)
  {
    var all := [TextCells(headers)] + rows;
    PrintThenParseWithComma(headers, rows);
    KeptCellsWere(ShownRows(all), r);
    var i :| 0 <= i < |ShownRows(all)| && ShownRows(all)[i] == r;
    var k :| 0 <= k < |r| && r[k] == cell;
    assert r == ShownRow(all[i]) && cell == Shown(all[i][k]);
    ShownIsNeutral(all[i][k]);
  }

  // ---- the parser ----

  /** A leading byte order mark is dropped, and only one. */
  lemma BomIsDropped(text: string, d: char)
    ensures Parsed([BOM] + text, d) == Keep(Finish(Run(START, text, d)).rows)
    ensures text != [] && text[0] != BOM ==> Parsed([BOM] + text, d) == Parsed(text, d)
    ensures text == [] || text[0] != BOM ==> Delimiter([BOM] + text) == Delimiter(text)
  {
    assert ([BOM] + text)[1..] == text;
  }

  /** A lone CR after text that ends outside quotes ends its last row. */
  lemma {:induction false} ScansAcrossCr(s: Scan, a: string, b: string, d: char)
    requires d != '"' && d != '\r' && d != '\n' && !Run(s, a, d).quoted && (b != [] ==> b[0] != '\n')
    ensures Run(s, a + "\r" + b, d) == Run(EndRow(Run(s, a, d)), b, d)
    decreases |a|
  {
    var text := a + "\r" + b;
    if a == [] {
      assert text == "\r" + b && text[1..] == b;
    } else {
      var (s', n) := Feed(s, a, d);
      assert |a| > 1 ==> text[1] == a[1];
      assert |a| == 1 ==> text[1] == '\r';
      assert text[0] == a[0] && text[n..] == a[n..] + "\r" + b;
      assert Feed(s, text, d) == (s', n);
      ScansAcrossCr(s', a[n..], b, d);
    }
  }

  /** Parsing two texts joined by a lone CR is parsing each. */
  lemma LoneCrEndsRow(a: string, b: string, d: char)
    requires d == ',' || d == ';' || d == '\t'
    requires !Run(START, StripBom(a), d).quoted && (b != [] ==> b[0] != BOM && b[0] != '\n')
    ensures Parsed(a + "\r" + b, d) == Parsed(a, d) + Parsed(b, d)
  {
    var a' := StripBom(a);
    assert StripBom(a + "\r" + b) == a' + "\r" + b;
    ScansAcrossCr(START, a', b, d);
    var e := Run(START, a', d);
    BrokenKeeps(e, EndRow(e));
    ParsesAfterRows(EndRow(e), b, d);
  }

  /** Text that goes on a cell: no separator, no line end; quotes are literal once the cell has begun. */
  predicate Literal(text: string, d: char) {
    d !in text && '\r' !in text && '\n' !in text
  }

  lemma {:induction false} ScansLiteral(s: Scan, text: string, tail: string, d: char)
    requires !s.quoted && Literal(text, d) && (s.cell == "" && text != "" ==> text[0] != '"')
    ensures Run(s, text + tail, d) == Run(s.(cell := s.cell + text), tail, d)
    decreases |text|
  {
    if text == [] {
      assert text + tail == tail && s.cell + text == s.cell;
    } else {
      var more := text[1..];
      assert (text + tail)[1..] == more + tail;
      assert text[0] in text && forall c :: c in more ==> c in text;
      ScansLiteral(s.(cell := s.cell + [text[0]]), more, tail, d);
      assert s.cell + [text[0]] + more == s.cell + text;
    }
  }

  /** Fields as a person types them, with separator `d` between. */
  function Typed(fields: seq<string>, d: char): string {
    if fields == [] then "" else if |fields| == 1 then fields[0] else fields[0] + [d] + Typed(fields[1..], d)
  }

  predicate IsTyped(field: string, d: char) {
    Literal(field, d) && (field != "" ==> field[0] != '"')
  }

  /** A typed field and the separator after it are read as that field. */
  lemma ScansTypedField(s: Scan, field: string, rest: string, d: char)
    requires d != '"' && d != '\r' && d != '\n' && !s.quoted && s.cell == "" && IsTyped(field, d)
    ensures Run(s, field + [d] + rest, d) == Run(s.(row := s.row + [field]), rest, d)
  {
    Regroup(field, [d], rest, "");
    ScansLiteral(s, field, [d] + rest, d);
    assert "" + field == field;
    assert ([d] + rest)[1..] == rest;
  }

  lemma FieldsStep(before: seq<string>, fields: seq<string>)
    requires |fields| > 1
    ensures var n := |fields| - 1;
            before + [fields[0]] + fields[1..][..n - 1] == before + fields[..n] && fields[1..][n - 1] == fields[n]
  {}

  lemma {:induction false} ScansTyped(s: Scan, fields: seq<string>, d: char)
    requires d != '"' && d != '\r' && d != '\n' && !s.quoted && s.cell == "" && fields != []
    requires forall f :: f in fields ==> IsTyped(f, d)
    ensures var n := |fields| - 1;
            Run(s, Typed(fields, d), d) == s.(row := s.row + fields[..n], cell := fields[n])
    decreases |fields|
  {
    assert fields[0] in fields;
    if |fields| == 1 {
      ScansLiteral(s, fields[0], "", d);
      assert fields[0] + "" == fields[0] && "" + fields[0] == fields[0] && s.row + fields[..0] == s.row;
    } else {
      assert forall f :: f in fields[1..] ==> f in fields;
      ScansTypedField(s, fields[0], Typed(fields[1..], d), d);
      ScansTyped(s.(row := s.row + [fields[0]]), fields[1..], d);
      FieldsStep(s.row, fields);
    }
  }

  lemma OneRowEnds(fields: seq<string>)
    requires fields != []
    ensures var n := |fields| - 1;
            Keep(Finish(START.(row := fields[..n], cell := fields[n])).rows) == Keep([fields])
  {
    var n := |fields| - 1;
    assert fields[..n] + [fields[n]] == fields;
    if fields[n] == "" && n == 0 {
      assert fields == [""];
    }
  }

  /**
   * A typed line reads as its fields: quotes after the first character of a field are literal,
   * and any separator but the given one is text.
   */
  lemma TypedLineReads(fields: seq<string>, d: char)
    requires d == ',' || d == ';' || d == '\t'
    requires fields != [] && (fields[0] != "" ==> fields[0][0] != BOM)
    requires forall f :: f in fields ==> Literal(f, d) && (f != "" ==> f[0] != '"')
    ensures Parsed(Typed(fields, d), d) == Keep([fields])
  {
    ScansTyped(START, fields, d);
    TypedStart(fields, d);
    assert [] + fields[..|fields| - 1] == fields[..|fields| - 1];
    OneRowEnds(fields);
  }

  lemma TypedStart(fields: seq<string>, d: char)
    requires fields != [] && (fields[0] != "" ==> fields[0][0] != BOM) && d != BOM
    ensures StripBom(Typed(fields, d)) == Typed(fields, d)
  {}

  // ---- the vote ----

  /** The voting line: what stands before the first LF, with the CR of a CRLF left out. */
  lemma {:induction false} FirstLineIs(text: string)
    ensures var line := FirstLine(text);
            && line <= text && '\n' !in line
            && (line == text || "\n" <= text[|line|..] || "\r\n" <= text[|line|..])
            && !(line != "" && line[|line| - 1] == '\r' && "\n" <= text[|line|..])
    decreases |text|
  {
    if text != [] && text[0] != '\n' && !("\r\n" <= text) {
      var rest := text[1..];
      FirstLineIs(rest);
      var line := FirstLine(rest);
      assert FirstLine(text) == [text[0]] + line;
      assert text[|line| + 1..] == rest[|line|..];
      assert text == [text[0]] + rest;
    }
  }

  function Quotes(text: string): nat {
    if text == [] then 0 else (if text[0] == '"' then 1 else 0) + Quotes(text[1..])
  }

  /** Reading on by one character: `d` is a vote when an even number of quotes stands before it. */
  lemma {:induction false} VotesGrow(line: string, c: char, quoted: bool, d: char)
    requires d != '"'
    ensures Votes(line + [c], quoted, d)
         == Votes(line, quoted, d) + if c == d && (Quotes(line) % 2 == 1) == quoted then 1 else 0
    decreases |line|
  {
    if line == [] {
      assert line + [c] == [c] && [c][1..] == [];
    } else {
      assert (line + [c])[0] == line[0] && (line + [c])[1..] == line[1..] + [c];
      VotesGrow(line[1..], c, if line[0] == '"' then !quoted else quoted, d);
    }
  }
}
