/**
 * The CSV printer and parser of the bulk import (section 2 of RFC 4180, with leniencies):
 * a lone CR ends a row, a quote in mid-cell is literal, blank rows are dropped, a leading
 * byte order mark is stripped, and the separator is voted on by the first line.
 */
module Csv {
  import opened Text

  const BOM: char := '\U{FEFF}'

  predicate BlankCell(cell: string) {
    forall c :: c in cell ==> IsSpace(c)
  }

  predicate BlankRow(row: seq<string>) {
    forall cell :: cell in row ==> BlankCell(cell)
  }

  /** The rows that hold something. */
  function Keep(rows: seq<seq<string>>): seq<seq<string>> {
    if rows == [] then []
    else (if BlankRow(rows[0]) then [] else [rows[0]]) + Keep(rows[1..])
  }

  function StripBom(text: string): string {
    if |text| > 0 && text[0] == BOM then text[1..] else text
  }

  // ---- the scanner ----

  datatype Scan = Scan(rows: seq<seq<string>>, row: seq<string>, cell: string, quoted: bool)

  const START := Scan([], [], "", false)

  function EndCell(s: Scan): Scan {
    s.(row := s.row + [s.cell], cell := "")
  }

  function EndRow(s: Scan): Scan {
    var t := EndCell(s);
    t.(rows := t.rows + [t.row], row := [])
  }

  /** One turn of the scanning loop: the new state, and how many characters it used. */
  function Feed(s: Scan, rest: string, d: char): (r: (Scan, nat))
    requires rest != []
    ensures 1 <= r.1 <= |rest|
  {
    var ch := rest[0];
    var next := if |rest| > 1 then [rest[1]] else [];
    if s.quoted then
      if ch == '"' then
        if next == ['"'] then (s.(cell := s.cell + ['"']), 2) else (s.(quoted := false), 1)
      else (s.(cell := s.cell + [ch]), 1)
    else if ch == '"' && s.cell == "" then (s.(quoted := true), 1)
    else if ch == d then (EndCell(s), 1)
    else if ch == '\r' then (if next != ['\n'] then EndRow(s) else s, 1)
    else if ch == '\n' then (EndRow(s), 1)
    else (s.(cell := s.cell + [ch]), 1)
  }

  function Run(s: Scan, rest: string, d: char): Scan
    decreases |rest|
  {
    if rest == [] then s
    else
      var (s', n) := Feed(s, rest, d);
      Run(s', rest[n..], d)
  }

  /** What is still open when the text ends becomes the last row. */
  function Finish(s: Scan): Scan {
    if s.cell != "" || |s.row| > 0 then EndRow(s) else s
  }

  function Parsed(text: string, d: char): seq<seq<string>> {
    Keep(Finish(Run(START, StripBom(text), d)).rows)
  }

  // ---- the vote on the separator ----

  /** The text before the first `\r\n` or `\n`. */
  function FirstLine(text: string): string {
    if text == [] || text[0] == '\n' then []
    else if |text| > 1 && text[0] == '\r' && text[1] == '\n' then []
    else [text[0]] + FirstLine(text[1..])
  }

  /** How often `d` occurs outside quotes. */
  function Votes(line: string, quoted: bool, d: char): nat {
    if line == [] then 0
    else if line[0] == '"' then Votes(line[1..], !quoted, d)
    else (if !quoted && line[0] == d then 1 else 0) + Votes(line[1..], quoted, d)
  }

  /** The separator with most votes; a tie goes to the comma, then to the semicolon. */
  function Delimiter(text: string): char {
    var line := FirstLine(StripBom(text));
    var comma, semi, tab := Votes(line, false, ','), Votes(line, false, ';'), Votes(line, false, '\t');
    if semi <= comma && tab <= comma then ',' else if tab <= semi then ';' else '\t'
  }

  method DetectDelimiter(text: string) returns (best: char)
    ensures best == Delimiter(text)
    ensures best in {',', ';', '\t'}
    ensures best == ';' ==> Votes(FirstLine(StripBom(text)), false, ',') < Votes(FirstLine(StripBom(text)), false, ';')
    ensures best == '\t' ==>
              Votes(FirstLine(StripBom(text)), false, ',') < Votes(FirstLine(StripBom(text)), false, '\t')
    ensures best == '\t' ==>
              Votes(FirstLine(StripBom(text)), false, ';') < Votes(FirstLine(StripBom(text)), false, '\t')
    ensures var line := FirstLine(StripBom(text));
            forall d :: d in {',', ';', '\t'} ==> Votes(line, false, d) <= Votes(line, false, best)
  {
    var line := FirstLine(StripBom(text));
    var counts := map[',' := 0, ';' := 0, '\t' := 0];
    var quoted := false;
    for i := 0 to |line|
      invariant counts.Keys == {',', ';', '\t'}
      invariant forall d :: d in counts ==> counts[d] + Votes(line[i..], quoted, d) == Votes(line, false, d)
    {
      assert line[i..][1..] == line[i + 1..];
      if line[i] == '"' {
        quoted := !quoted;
      } else if !quoted && line[i] in counts {
        counts := counts[line[i] := counts[line[i]] + 1];
      }
    }
    best := ',';
    var candidates := [',', ';', '\t'];
    for k := 0 to 3
      invariant best in counts
      invariant k == 1 ==> best == ','
      invariant k == 2 ==> best == if counts[';'] > counts[','] then ';' else ','
      invariant k == 0 ==> best == ','
      invariant k == 3 ==> best == Delimiter(text)
    {
      if counts[candidates[k]] > counts[best] {
        best := candidates[k];
      }
    }
  }

  /** One turn at position `i` of the text. */
  lemma FeedAt(s: Scan, src: string, i: nat, d: char)
    requires i < |src|
    ensures src[i..] != [] && src[i..][0] == src[i] && (i + 1 < |src| <==> |src[i..]| > 1)
    ensures i + 1 < |src| ==> src[i..][1] == src[i + 1]
    ensures var (s', n) := Feed(s, src[i..], d); i + n <= |src| && Run(s, src[i..], d) == Run(s', src[i + n..], d)
  {
    var (s', n) := Feed(s, src[i..], d);
    assert src[i..][n..] == src[i + n..];
  }

  method ParseCsv(text: string, delimiter: char) returns (kept: seq<seq<string>>)
    ensures kept == Parsed(text, delimiter)
  {
    var rows: seq<seq<string>>, row: seq<string>, cell, quoted := [], [], "", false;
    var src := StripBom(text);
    var i := 0;
    while i < |src|
      invariant i <= |src|
      invariant Run(Scan(rows, row, cell, quoted), src[i..], delimiter) == Run(START, src, delimiter)
    {
      var ch := src[i];
      FeedAt(Scan(rows, row, cell, quoted), src, i, delimiter);
      if quoted {
        if ch == '"' {
          if i + 1 < |src| && src[i + 1] == '"' {
            cell := cell + ['"'];
            i := i + 1;
          } else {
            quoted := false;
          }
        } else {
          cell := cell + [ch];
        }
      } else if ch == '"' && cell == "" {
        quoted := true;
      } else if ch == delimiter {
        row, cell := row + [cell], "";
      } else if ch == '\r' {
        if i + 1 >= |src| || src[i + 1] != '\n' {
          rows, row, cell := rows + [row + [cell]], [], "";
        }
      } else if ch == '\n' {
        rows, row, cell := rows + [row + [cell]], [], "";
      } else {
        cell := cell + [ch];
      }
      i := i + 1;
    }
    if cell != "" || |row| > 0 {
      rows := rows + [row + [cell]];
    }
    kept := Filtered(rows);
  }

  lemma KeepStep(kept: seq<seq<string>>, rows: seq<seq<string>>, i: nat)
    requires i < |rows|
    ensures kept + Keep(rows[i..]) == (if BlankRow(rows[i]) then kept else kept + [rows[i]]) + Keep(rows[i + 1..])
  {
    assert rows[i..][0] == rows[i] && rows[i..][1..] == rows[i + 1..];
    Regroup(kept, [rows[i]], Keep(rows[i + 1..]), []);
  }

  method Filtered(rows: seq<seq<string>>) returns (kept: seq<seq<string>>)
    ensures kept == Keep(rows)
  {
    kept := [];
    for i := 0 to |rows|
      invariant kept + Keep(rows[i..]) == Keep(rows)
    {
      KeepStep(kept, rows, i);
      if !BlankRow(rows[i]) {
        kept := kept + [rows[i]];
      }
    }
  }

  // ---- the printer ----

  /** A cell to print: a number enters as its decimal text. */
  datatype Cell = Absent | Filled(text: string)

  /** What a spreadsheet shows: a leading formula character is neutralised by an apostrophe. */
  function Shown(cell: Cell): string {
    if cell.Absent? then ""
    else if |cell.text| > 0 && cell.text[0] in {'=', '+', '-', '@', '\t', '\r'} then "'" + cell.text
    else cell.text
  }

  predicate Special(c: char) {
    c == '"' || c == ',' || c == '\r' || c == '\n'
  }

  predicate NeedsQuotes(s: string) {
    exists c :: c in s && Special(c)
  }

  function Doubled(s: string): string {
    if s == [] then []
    else (if s[0] == '"' then "\"\"" else [s[0]]) + Doubled(s[1..])
  }

  function Field(s: string): string {
    if NeedsQuotes(s) then "\"" + Doubled(s) + "\"" else s
  }

  function EscapeCell(cell: Cell): string {
    Field(Shown(cell))
  }

  function PrintRow(row: seq<Cell>): string {
    if row == [] then ""
    else if |row| == 1 then EscapeCell(row[0])
    else EscapeCell(row[0]) + "," + PrintRow(row[1..])
  }

  function PrintRows(rows: seq<seq<Cell>>): string {
    if rows == [] then ""
    else if |rows| == 1 then PrintRow(rows[0])
    else PrintRow(rows[0]) + "\r\n" + PrintRows(rows[1..])
  }

  function TextCells(texts: seq<string>): seq<Cell> {
    seq(|texts|, i requires 0 <= i < |texts| => Filled(texts[i]))
  }

  function ToCsv(headers: seq<string>, rows: seq<seq<Cell>>): string {
    PrintRows([TextCells(headers)] + rows)
  }

  function ShownRow(row: seq<Cell>): seq<string> {
    seq(|row|, i requires 0 <= i < |row| => Shown(row[i]))
  }

  function ShownRows(rows: seq<seq<Cell>>): seq<seq<string>> {
    seq(|rows|, i requires 0 <= i < |rows| => ShownRow(rows[i]))
  }

  // ---- print, then parse ----

  lemma {:induction false} KeepAppends(a: seq<seq<string>>, b: seq<seq<string>>)
    ensures Keep(a + b) == Keep(a) + Keep(b)
  {
    if a == [] {
      assert a + b == b;
    } else {
      assert (a + b)[1..] == a[1..] + b;
      KeepAppends(a[1..], b);
    }
  }

  lemma {:induction false} ScansPlain(s: Scan, text: string, tail: string, d: char)
    requires !s.quoted && !NeedsQuotes(text) && d !in text
    decreases |text|
    ensures Run(s, text + tail, d) == Run(s.(cell := s.cell + text), tail, d)
  {
    if text == [] {
      assert text + tail == tail && s.cell + text == s.cell;
    } else {
      assert (text + tail)[1..] == text[1..] + tail;
      assert text[0] in text;
      ScansPlain(s.(cell := s.cell + [text[0]]), text[1..], tail, d);
      assert s.cell + [text[0]] + text[1..] == s.cell + text;
    }
  }

  lemma DropsPrefix<T>(a: seq<T>, b: seq<T>)
    ensures (a + b)[|a|..] == b
  {}

  lemma DoubledStep(text: string, tail: string)
    requires text != []
    ensures var all, n := Doubled(text) + "\"" + tail, if text[0] == '"' then 2 else 1;
            && |all| >= n && all[n..] == Doubled(text[1..]) + "\"" + tail
            && all[0] == text[0] && (n == 2 ==> all[1] == '"')
  {
    var rest, first := Doubled(text[1..]), if text[0] == '"' then "\"\"" else [text[0]];
    assert Doubled(text) == first + rest;
    Regroup(first, rest, "\"", tail);
    Regroup(rest, "\"", tail, "");
    DropsPrefix(first, rest + ("\"" + tail));
  }

  lemma {:induction false} ScansQuoted(s: Scan, text: string, tail: string, d: char)
    requires s.quoted && (tail != [] ==> tail[0] != '"')
    decreases |text|
    ensures Run(s, Doubled(text) + "\"" + tail, d) == Run(s.(cell := s.cell + text, quoted := false), tail, d)
  {
    var all := Doubled(text) + "\"" + tail;
    if text == [] {
      assert all == "\"" + tail && all[1..] == tail;
      assert s.cell + text == s.cell;
    } else {
      DoubledStep(text, tail);
      ScansQuoted(s.(cell := s.cell + [text[0]]), text[1..], tail, d);
      assert s.cell + [text[0]] + text[1..] == s.cell + text;
    }
  }

  lemma ScansQuotedField(s: Scan, text: string, tail: string, d: char)
    requires !s.quoted && s.cell == "" && (tail != [] ==> tail[0] != '"')
    ensures Run(s, "\"" + Doubled(text) + "\"" + tail, d) == Run(s.(cell := text), tail, d)
  {
    var rest := Doubled(text) + "\"" + tail;
    Regroup("\"", Doubled(text), "\"", tail);
    Regroup(Doubled(text), "\"", tail, "");
    ScansOpening(s, rest, d);
    ScansQuoted(s.(quoted := true), text, tail, d);
    assert "" + text == text;
  }

  /** A printed field is read back as the text it was printed from. */
  lemma ScansField(s: Scan, text: string, tail: string)
    requires !s.quoted && s.cell == "" && (tail != [] ==> tail[0] != '"')
    ensures Run(s, Field(text) + tail, ',') == Run(s.(cell := text), tail, ',')
  {
    if NeedsQuotes(text) {
      ScansQuotedField(s, text, tail, ',');
    } else {
      assert forall c :: c in text ==> !Special(c);
      ScansPlain(s, text, tail, ',');
      assert "" + text == text;
    }
  }

  lemma ScansOpening(s: Scan, rest: string, d: char)
    requires !s.quoted && s.cell == ""
    ensures Run(s, ['"'] + rest, d) == Run(s.(quoted := true), rest, d)
  {
    assert (['"'] + rest)[1..] == rest;
  }

  lemma ScansComma(s: Scan, rest: string)
    requires !s.quoted
    ensures Run(s, "," + rest, ',') == Run(EndCell(s), rest, ',')
  {
    assert ("," + rest)[1..] == rest;
  }

  lemma ScansLineEnd(s: Scan, rest: string)
    requires !s.quoted
    ensures Run(s, "\r\n" + rest, ',') == Run(EndRow(s), rest, ',')
  {
    assert ("\r\n" + rest)[1..] == "\n" + rest && ("\n" + rest)[1..] == rest;
  }

  /** The scanner after a printed row, before the row ends. */
  function AfterRow(s: Scan, row: seq<Cell>): Scan {
    if row == [] then s
    else s.(row := s.row + ShownRow(row[..|row| - 1]), cell := Shown(row[|row| - 1]))
  }

  lemma AfterRowSteps(s: Scan, row: seq<Cell>)
    requires |row| > 1
    ensures AfterRow(EndCell(s.(cell := Shown(row[0]))), row[1..]) == AfterRow(s, row)
  {
    var n := |row| - 1;
    assert [Shown(row[0])] + ShownRow(row[1..][..n - 1]) == ShownRow(row[..n]);
    assert s.row + [Shown(row[0])] + ShownRow(row[1..][..n - 1]) == s.row + ShownRow(row[..n]);
  }

  lemma ScansOneCell(s: Scan, cell: Cell, tail: string)
    requires !s.quoted && s.cell == "" && (tail != [] ==> tail[0] == '\r')
    ensures Run(s, PrintRow([cell]) + tail, ',') == Run(AfterRow(s, [cell]), tail, ',')
  {
    ScansField(s, Shown(cell), tail);
    assert s.row + ShownRow([cell][..0]) == s.row;
  }

  lemma Regroup<T>(a: seq<T>, b: seq<T>, c: seq<T>, d: seq<T>)
    ensures a + b + c + d == a + (b + (c + d))
    ensures a + b + c == a + (b + c)
  {}

  lemma PrintRowSteps(row: seq<Cell>, tail: string)
    requires |row| > 1
    ensures PrintRow(row) + tail == Field(Shown(row[0])) + ("," + (PrintRow(row[1..]) + tail))
  {
    Regroup(EscapeCell(row[0]), ",", PrintRow(row[1..]), tail);
  }

  lemma PrintRowsSteps(rows: seq<seq<Cell>>)
    requires |rows| > 1
    ensures PrintRows(rows) == PrintRow(rows[0]) + ("\r\n" + PrintRows(rows[1..]))
  {
    Regroup(PrintRow(rows[0]), "\r\n", PrintRows(rows[1..]), "");
    assert PrintRows(rows) + "" == PrintRows(rows) && PrintRows(rows[1..]) + "" == PrintRows(rows[1..]);
  }

  lemma {:induction false} ScansRow(s: Scan, row: seq<Cell>, tail: string)
    requires !s.quoted && s.cell == "" && (tail != [] ==> tail[0] == '\r')
    ensures Run(s, PrintRow(row) + tail, ',') == Run(AfterRow(s, row), tail, ',')
    decreases |row|
  {
    if row == [] {
      assert PrintRow(row) + tail == tail;
    } else if |row| == 1 {
      assert row == [row[0]];
      ScansOneCell(s, row[0], tail);
    } else {
      var rest := PrintRow(row[1..]) + tail;
      PrintRowSteps(row, tail);
      ScansField(s, Shown(row[0]), "," + rest);
      ScansComma(s.(cell := Shown(row[0])), rest);
      ScansRow(EndCell(s.(cell := Shown(row[0]))), row[1..], tail);
      AfterRowSteps(s, row);
    }
  }

  lemma EndsRow(s: Scan, row: seq<Cell>)
    requires s.row == [] && s.cell == "" && !s.quoted
    ensures var t := EndRow(AfterRow(s, row));
            t == s.(rows := s.rows + [if row == [] then [""] else ShownRow(row)])
  {
    if row != [] {
      assert [] + ShownRow(row[..|row| - 1]) + [Shown(row[|row| - 1])] == ShownRow(row);
    } else {
      assert [] + [""] == [""];
    }
  }

  /** A row read from an empty line is blank, like the row it was printed from. */
  lemma KeepEndedRow(row: seq<Cell>)
    ensures Keep([if row == [] then [""] else ShownRow(row)]) == Keep([ShownRow(row)])
  {}

  lemma KeepEnded(before: seq<seq<string>>, row: seq<Cell>, rows: seq<seq<Cell>>)
    ensures Keep(before + [if row == [] then [""] else ShownRow(row)]) + Keep(ShownRows(rows))
         == Keep(before) + Keep(ShownRows([row] + rows))
  {
    KeepAppends(before, [if row == [] then [""] else ShownRow(row)]);
    KeepEndedRow(row);
    ShownRowsStep(row, rows);
    KeepAppends([ShownRow(row)], ShownRows(rows));
    Regroup(Keep(before), Keep([ShownRow(row)]), Keep(ShownRows(rows)), []);
  }

  lemma ShownRowsStep(row: seq<Cell>, rows: seq<seq<Cell>>)
    ensures ShownRows([row] + rows) == [ShownRow(row)] + ShownRows(rows)
  {}

  lemma ScansLastRow(s: Scan, row: seq<Cell>)
    requires s.row == [] && s.cell == "" && !s.quoted
    ensures Keep(Finish(Run(s, PrintRows([row]), ',')).rows) == Keep(s.rows) + Keep([ShownRow(row)])
  {
    assert PrintRows([row]) == PrintRow(row) + "";
    ScansRow(s, row, "");
    FinishOrBlank(s, row);
  }

  /** A printed row that is followed by another is read as one row. */
  lemma ScansEndedRow(s: Scan, row: seq<Cell>, rest: string)
    requires s.row == [] && s.cell == "" && !s.quoted
    ensures Run(s, PrintRow(row) + ("\r\n" + rest), ',')
         == Run(s.(rows := s.rows + [if row == [] then [""] else ShownRow(row)]), rest, ',')
  {
    ScansRow(s, row, "\r\n" + rest);
    ScansLineEnd(AfterRow(s, row), rest);
    EndsRow(s, row);
  }

  lemma {:induction false} ScansRows(s: Scan, rows: seq<seq<Cell>>)
    requires s.row == [] && s.cell == "" && !s.quoted
    ensures Keep(Finish(Run(s, PrintRows(rows), ',')).rows) == Keep(s.rows) + Keep(ShownRows(rows))
    decreases |rows|
  {
    if |rows| == 1 {
      ScansLastRow(s, rows[0]);
      assert rows == [rows[0]] && ShownRows(rows) == [ShownRow(rows[0])];
    } else if |rows| > 1 {
      var row, rest := rows[0], rows[1..];
      var ended := s.rows + [if row == [] then [""] else ShownRow(row)];
      PrintRowsSteps(rows);
      ScansEndedRow(s, row, PrintRows(rest));
      ScansRows(s.(rows := ended), rest);
      KeepEnded(s.rows, row, rest);
      assert [row] + rest == rows;
    }
  }

  /** At the end of the text a pending row ends; a row that shows nothing may not be pending. */
  lemma FinishOrBlank(s: Scan, row: seq<Cell>)
    requires s.row == [] && s.cell == "" && !s.quoted
    ensures Keep(Finish(AfterRow(s, row)).rows) == Keep(s.rows) + Keep([ShownRow(row)])
  {
    var t := AfterRow(s, row);
    EndsRow(s, row);
    if t.cell != "" || |t.row| > 0 {
      KeepAppends(s.rows, [if row == [] then [""] else ShownRow(row)]);
    } else {
      assert forall cell :: cell in ShownRow(row) ==> cell == "";
    }
  }

  lemma PrintedStart(headers: seq<string>, rows: seq<seq<Cell>>)
    requires headers != [] && headers[0] != [] ==> headers[0][0] != BOM
    ensures StripBom(ToCsv(headers, rows)) == ToCsv(headers, rows)
  {
    var all := [TextCells(headers)] + rows;
    assert all[0] == TextCells(headers);
    if headers != [] {
      assert TextCells(headers)[0] == Filled(headers[0]);
    }
  }

  /** With a comma given, printing and parsing give back every row that shows something. */
  lemma PrintThenParseWithComma(headers: seq<string>, rows: seq<seq<Cell>>)
    requires headers != [] && headers[0] != [] ==> headers[0][0] != BOM
    ensures Parsed(ToCsv(headers, rows), ',') == Keep(ShownRows([TextCells(headers)] + rows))
  {
    PrintedStart(headers, rows);
    ScansRows(START, [TextCells(headers)] + rows);
  }

  // ---- the separator of a printed document ----

  /** Everything before the first line break of a printed document is printed header. */
  lemma {:induction false} FirstLineIsHeader(head: string, tail: string)
    requires tail == [] || "\r\n" <= tail
    ensures forall c :: c in FirstLine(head + tail) ==> c in head
    decreases |head|
  {
    if head == [] {
      assert head + tail == tail;
    } else {
      assert (head + tail)[1..] == head[1..] + tail;
      FirstLineIsHeader(head[1..], tail);
    }
  }

  lemma {:induction false} NoVotes(line: string, quoted: bool, d: char)
    requires d !in line
    ensures Votes(line, quoted, d) == 0
    decreases |line|
  {
    if line != [] {
      assert forall c :: c in line[1..] ==> c in line;
      NoVotes(line[1..], if line[0] == '"' then !quoted else quoted, d);
    }
  }

  lemma {:induction false} DoubledAddsNothing(s: string)
    ensures forall c :: c in Doubled(s) ==> c in s
  {
    if s != [] {
      DoubledAddsNothing(s[1..]);
    }
  }

  lemma {:induction false} PrintedCharacters(row: seq<Cell>, d: char)
    requires d == ';' || d == '\t'
    requires forall i :: 0 <= i < |row| ==> d !in Shown(row[i])
    ensures d !in PrintRow(row)
    decreases |row|
  {
    if row != [] {
      DoubledAddsNothing(Shown(row[0]));
      assert d !in EscapeCell(row[0]);
      PrintedCharacters(row[1..], d);
    }
  }

  lemma PrintedDelimiter(headers: seq<string>, rows: seq<seq<Cell>>)
    requires headers != [] && headers[0] != [] ==> headers[0][0] != BOM
    requires forall i :: 0 <= i < |headers| ==> ';' !in headers[i] && '\t' !in headers[i]
    ensures Delimiter(ToCsv(headers, rows)) == ','
  {
    PrintedStart(headers, rows);
    var all, head := [TextCells(headers)] + rows, PrintRow(TextCells(headers));
    var tail := if rows == [] then "" else "\r\n" + PrintRows(rows);
    assert all[0] == TextCells(headers) && all[1..] == rows;
    assert ToCsv(headers, rows) == head + tail;
    FirstLineIsHeader(head, tail);
    PrintedCharacters(TextCells(headers), ';');
    PrintedCharacters(TextCells(headers), '\t');
    NoVotes(FirstLine(head + tail), false, ';');
    NoVotes(FirstLine(head + tail), false, '\t');
  }

  /**
   * Print, then parse with the separator the document votes for: every row that shows
   * something comes back, cell by cell, as what it shows. Cells may hold commas, quotes, CR
   * and LF; header cells hold no other separator and the document does not start with a BOM.
   */
  lemma PrintThenParse(headers: seq<string>, rows: seq<seq<Cell>>)
    requires headers != [] && headers[0] != [] ==> headers[0][0] != BOM
    requires forall i :: 0 <= i < |headers| ==> ';' !in headers[i] && '\t' !in headers[i]
    ensures var text := ToCsv(headers, rows);
            Parsed(text, Delimiter(text)) == Keep(ShownRows([TextCells(headers)] + rows))
  {
    PrintedDelimiter(headers, rows);
    PrintThenParseWithComma(headers, rows);
  }

  lemma SemicolonWins()
    ensures Delimiter("a;b") == ';'
  {
    assert "a;b"[1..] == ";b" && ";b"[1..] == "b" && "b"[1..] == "";
    assert FirstLine("b") == "b" && FirstLine(";b") == ";b" && FirstLine("a;b") == "a;b";
    assert Votes("b", false, ';') == 0 && Votes(";b", false, ';') == 1 && Votes("a;b", false, ';') == 1;
    assert Votes("b", false, ',') == 0 && Votes(";b", false, ',') == 0;
    assert Votes("b", false, '\t') == 0 && Votes(";b", false, '\t') == 0;
  }

  lemma SemicolonScan()
    ensures Run(START, "a;b", ';') == Scan([], ["a"], "b", false)
  {
    assert "a;b"[1..] == ";b" && ";b"[1..] == "b" && "b"[1..] == "";
    var s1, s2, s3 := Scan([], [], "a", false), Scan([], ["a"], "", false), Scan([], ["a"], "b", false);
    assert "" + ['a'] == "a" && "" + ['b'] == "b" && [] + ["a"] == ["a"];
    assert Run(s2, "b", ';') == Run(s3, "", ';');
    assert Run(s1, ";b", ';') == Run(s2, "b", ';');
  }

  lemma KeepsOne(row: seq<string>, i: nat, k: nat)
    requires i < |row| && k < |row[i]| && !IsSpace(row[i][k])
    ensures Keep([row]) == [row]
  {
    assert row[i] in row && row[i][k] in row[i];
    assert [row][1..] == [];
  }

  lemma SemicolonPrints()
    ensures TextCells(["a;b"]) == [Filled("a;b")] && ToCsv(["a;b"], []) == "a;b"
  {
    var cells := TextCells(["a;b"]);
    assert cells == [Filled("a;b")] && [cells] + [] == [cells];
    assert !NeedsQuotes("a;b");
  }

  lemma SemicolonFinishes()
    ensures Finish(Scan([], ["a"], "b", false)).rows == [["a", "b"]]
  {
    assert ["a"] + ["b"] == ["a", "b"];
  }

  lemma SemicolonParses()
    ensures Parsed("a;b", ';') == [["a", "b"]]
  {
    SemicolonScan();
    SemicolonFinishes();
    KeepsOne(["a", "b"], 0, 0);
    assert StripBom("a;b") == "a;b";
  }

  /** The condition on headers is needed: one header cell holding a semicolon comes back as two. */
  lemma SemicolonHeaderSplits()
    ensures ToCsv(["a;b"], []) == "a;b"
    ensures Parsed("a;b", Delimiter("a;b")) == [["a", "b"]]
    ensures Keep(ShownRows([TextCells(["a;b"])])) == [["a;b"]]
  {
    SemicolonPrints();
    SemicolonWins();
    SemicolonParses();
    assert ShownRow([Filled("a;b")]) == ["a;b"];
    assert ShownRows([[Filled("a;b")]]) == [["a;b"]];
    KeepsOne(["a;b"], 0, 0);
  }

  // ---- parsing is compositional ----

  lemma {:induction false} RunAddsRows(before: seq<seq<string>>, s: Scan, rest: string, d: char)
    ensures Run(s.(rows := before + s.rows), rest, d) == Run(s, rest, d).(rows := before + Run(s, rest, d).rows)
    decreases |rest|
  {
    if rest != [] {
      var (s', n) := Feed(s, rest, d);
      assert EndRow(s.(rows := before + s.rows)).rows == before + EndRow(s).rows;
      assert Feed(s.(rows := before + s.rows), rest, d) == (s'.(rows := before + s'.rows), n);
      RunAddsRows(before, s', rest[n..], d);
    }
  }

  /** Where the scan of `a` followed by a line feed stands: the row has ended, if it had not. */
  ghost predicate Broken(e: Scan, x: Scan) {
    x == EndRow(e) || (x == e && e.cell == "" && e.row == [])
  }

  /** A line feed after text that ends outside quotes ends its last row and nothing else. */
  lemma {:induction false} ScansAcrossLineFeed(s: Scan, a: string, b: string, d: char) returns (x: Scan)
    requires d != '"' && d != '\r' && d != '\n' && !Run(s, a, d).quoted
    ensures Broken(Run(s, a, d), x) && Run(s, a + "\n" + b, d) == Run(x, b, d)
    decreases |a|
  {
    var text := a + "\n" + b;
    if a == [] {
      assert text == "\n" + b && text[1..] == b;
      x := EndRow(s);
    } else {
      var (s', n) := Feed(s, a, d);
      assert |a| > 1 ==> text[1] == a[1];
      assert text[0] == a[0] && text[n..] == a[n..] + "\n" + b;
      if a == "\r" && !s.quoted {
        assert text[1..] == "\n" + b && ("\n" + b)[1..] == b;
        x := EndRow(s);
      } else {
        assert Feed(s, text, d) == (s', n);
        x := ScansAcrossLineFeed(s', a[n..], b, d);
      }
    }
  }

  lemma BrokenKeeps(e: Scan, x: Scan)
    requires !e.quoted && Broken(e, x)
    ensures x.cell == "" && x.row == [] && !x.quoted && Keep(x.rows) == Keep(Finish(e).rows)
  {
    if x == EndRow(e) && e.cell == "" && e.row == [] {
      assert e.row + [e.cell] == [""];
      KeepAppends(e.rows, [[""]]);
    }
  }

  /**
   * Parsing two texts joined by a line feed is parsing each: the first must end outside
   * quotes and the second not start with a byte order mark. The first may end in CR, in LF or
   * in a closing quote.
   */
  lemma ParsingIsCompositional(a: string, b: string, d: char)
    requires d == ',' || d == ';' || d == '\t'
    requires !Run(START, StripBom(a), d).quoted && (b != [] ==> b[0] != BOM)
    ensures Parsed(a + "\n" + b, d) == Parsed(a, d) + Parsed(b, d)
  {
    var a' := StripBom(a);
    assert StripBom(a + "\n" + b) == a' + "\n" + b;
    var e := Run(START, a', d);
    var x := ScansAcrossLineFeed(START, a', b, d);
    BrokenKeeps(e, x);
    ParsesAfterRows(x, b, d);
  }

  lemma ParsesAfterRows(x: Scan, b: string, d: char)
    requires x.cell == "" && x.row == [] && !x.quoted
    ensures Keep(Finish(Run(x, b, d)).rows) == Keep(x.rows) + Keep(Finish(Run(START, b, d)).rows)
  {
    RunAddsRows(x.rows, START, b, d);
    assert x.rows + START.rows == x.rows;
    var end := Run(START, b, d);
    assert Finish(end.(rows := x.rows + end.rows)).rows == x.rows + Finish(end).rows;
    KeepAppends(x.rows, Finish(end).rows);
  }

  // ---- records keyed by header ----

  /** `cells[i] ?? ''` */
  function CellAt(cells: seq<string>, i: nat): string {
    if i < |cells| then cells[i] else ""
  }

  /** The first `n` headers with their cells; of two equal headers the later one wins. */
  function Entries(header: seq<string>, cells: seq<string>, n: nat): map<string, string>
    requires n <= |header|
  {
    if n == 0 then map[]
    else Entries(header, cells, n - 1)[Trim(header[n - 1]) := Trim(CellAt(cells, n - 1))]
  }

  function Records(rows: seq<seq<string>>): seq<map<string, string>> {
    if rows == [] then []
    else seq(|rows| - 1, k requires 0 <= k < |rows| - 1 => Entries(rows[0], rows[k + 1], |rows[0]|))
  }

  lemma EntriesStep(header: seq<string>, cells: seq<string>, n: nat, key: string)
    requires 0 < n <= |header|
    ensures Trim(header[n - 1]) == key ==>
              key in Entries(header, cells, n) && Entries(header, cells, n)[key] == Trim(CellAt(cells, n - 1))
    ensures Trim(header[n - 1]) != key && key in Entries(header, cells, n - 1) ==>
              key in Entries(header, cells, n) && Entries(header, cells, n)[key] == Entries(header, cells, n - 1)[key]
  {}

  lemma {:induction false} EntryOf(header: seq<string>, cells: seq<string>, n: nat, i: nat)
    requires i < n <= |header|
    requires forall k :: i < k < |header| ==> Trim(header[k]) != Trim(header[i])
    ensures Trim(header[i]) in Entries(header, cells, n)
    ensures Entries(header, cells, n)[Trim(header[i])] == Trim(CellAt(cells, i))
  {
    EntriesStep(header, cells, n, Trim(header[i]));
    if i < n - 1 {
      EntryOf(header, cells, n - 1, i);
    }
  }

  lemma KeepsHeader(header: seq<string>, rows: seq<seq<string>>)
    requires !BlankRow(header)
    ensures Keep([header] + rows) == [header] + Keep(rows)
  {
    assert ([header] + rows)[1..] == rows;
  }

  /**
   * A printed table whose header row shows something is read back as one record for each row
   * that shows something; under each header not repeated later lies that row's cell, trimmed.
   */
  lemma RecordsOfPrinted(headers: seq<string>, rows: seq<seq<Cell>>, k: nat, i: nat)
    requires headers != [] && headers[0] != [] ==> headers[0][0] != BOM
    requires forall h :: 0 <= h < |headers| ==> ';' !in headers[h] && '\t' !in headers[h]
    requires !BlankRow(ShownRow(TextCells(headers)))
    requires k < |Keep(ShownRows(rows))| && i < |headers|
    requires var shown := ShownRow(TextCells(headers));
             forall h :: i < h < |headers| ==> Trim(shown[h]) != Trim(shown[i])
    ensures var text := ToCsv(headers, rows);
            var records := Records(Parsed(text, Delimiter(text)));
            var key := Trim(Shown(Filled(headers[i])));
            && |records| == |Keep(ShownRows(rows))|
            && var row := Keep(ShownRows(rows))[k];
            && key in records[k] && records[k][key] == Trim(if i < |row| then row[i] else "")
  {
    PrintThenParse(headers, rows);
    var shown := ShownRow(TextCells(headers));
    ShownRowsStep(TextCells(headers), rows);
    KeepsHeader(shown, ShownRows(rows));
    EntryOf(shown, Keep(ShownRows(rows))[k], |shown|, i);
  }
}
