/**
 * When a printed table survives the vote on its separator: exactly when the comma wins the vote
 * of the printed header line.
 */
module CsvVote {
  import opened Text
  import opened Csv

  // ---- the vote is the header's ----

  lemma {:induction false} FirstLineOfHead(head: string, tail: string)
    requires tail == [] || "\r\n" <= tail
    ensures FirstLine(head + tail) == FirstLine(head)
    decreases |head|
  {
    if head == [] {
      assert head + tail == tail;
    } else {
      assert (head + tail)[0] == head[0] && (head + tail)[1..] == head[1..] + tail;
      FirstLineOfHead(head[1..], tail);
    }
  }

  /** The printed table: its header line, and what follows a line break. */
  lemma PrintedParts(headers: seq<string>, rows: seq<seq<Cell>>) returns (tail: string)
    ensures ToCsv(headers, rows) == PrintRow(TextCells(headers)) + tail
    ensures tail == [] || "\r\n" <= tail
  {
    var all := [TextCells(headers)] + rows;
    tail := if rows == [] then "" else "\r\n" + PrintRows(rows);
    assert all[0] == TextCells(headers) && all[1..] == rows;
    Regroup(PrintRow(all[0]), "\r\n", PrintRows(rows), "");
  }

  predicate NoBomFirst(headers: seq<string>) {
    headers != [] && headers[0] != [] ==> headers[0][0] != BOM
  }

  lemma DelimiterIsHeaders(headers: seq<string>, rows: seq<seq<Cell>>)
    requires NoBomFirst(headers)
    ensures Delimiter(ToCsv(headers, rows)) == Delimiter(PrintRow(TextCells(headers)))
  {
    var tail := PrintedParts(headers, rows);
    PrintedStart(headers, rows);
    var head := PrintRow(TextCells(headers));
    FirstLineOfHead(head, tail);
    PrintedHead(headers);
  }

  lemma PrintedHead(headers: seq<string>)
    requires NoBomFirst(headers)
    ensures ToCsv(headers, []) == PrintRow(TextCells(headers))
    ensures StripBom(PrintRow(TextCells(headers))) == PrintRow(TextCells(headers))
  {
    PrintedStart(headers, []);
    assert [TextCells(headers)] + [] == [TextCells(headers)];
  }

  // ---- the first cell of the first row ----

  /** The first cell scanned so far starts with `x`. */
  predicate FirstCellExtends(s: Scan, x: string) {
    if s.rows != [] then s.rows[0] != [] && x <= s.rows[0][0]
    else if s.row != [] then x <= s.row[0]
    else x <= s.cell
  }

  lemma {:induction false} RunExtends(s: Scan, rest: string, d: char, x: string)
    requires x != "" && FirstCellExtends(s, x)
    ensures FirstCellExtends(Run(s, rest, d), x)
    ensures var rows := Finish(Run(s, rest, d)).rows; rows != [] && rows[0] != [] && x <= rows[0][0]
    decreases |rest|
  {
    if rest != [] {
      var (s', n) := Feed(s, rest, d);
      assert FirstCellExtends(s', x);
      RunExtends(s', rest[n..], d, x);
    }
  }

  /** The first cell is over, and it is `x`. */
  predicate FirstCellIs(s: Scan, x: string) {
    if s.rows != [] then s.rows[0] != [] && s.rows[0][0] == x
    else s.row != [] && s.row[0] == x
  }

  lemma {:induction false} RunKeepsFirstCell(s: Scan, rest: string, d: char, x: string)
    requires FirstCellIs(s, x)
    ensures var rows := Finish(Run(s, rest, d)).rows; rows != [] && rows[0] != [] && rows[0][0] == x
    decreases |rest|
  {
    if rest != [] {
      var (s', n) := Feed(s, rest, d);
      assert FirstCellIs(s', x);
      RunKeepsFirstCell(s', rest[n..], d, x);
    }
  }

  /** The first row, finished or not, shows something. */
  predicate FirstRowShows(s: Scan) {
    if s.rows != [] then !BlankRow(s.rows[0]) else !BlankRow(s.row + [s.cell])
  }

  lemma BlankParts(row: seq<string>, cell: string)
    ensures BlankRow(row + [cell]) <==> BlankRow(row) && BlankCell(cell)
  {
    assert forall c :: c in row + [cell] <==> c in row || c == cell;
  }

  lemma BlankGrows(cell: string, ch: char)
    ensures BlankCell(cell + [ch]) <==> BlankCell(cell) && IsSpace(ch)
  {
    assert forall c :: c in cell + [ch] <==> c in cell || c == ch;
  }

  lemma FeedShows(s: Scan, rest: string, d: char)
    requires FirstRowShows(s) && rest != []
    ensures FirstRowShows(Feed(s, rest, d).0)
  {
    BlankParts(s.row, s.cell);
    BlankParts(s.row + [s.cell], "");
    BlankParts(s.row, s.cell + [rest[0]]);
    BlankGrows(s.cell, rest[0]);
  }

  lemma {:induction false} RunShows(s: Scan, rest: string, d: char)
    requires FirstRowShows(s)
    ensures var rows := Finish(Run(s, rest, d)).rows; rows != [] && !BlankRow(rows[0])
    decreases |rest|
  {
    if rest == [] {
      BlankParts(s.row, s.cell);
    } else {
      FeedShows(s, rest, d);
      RunShows(Feed(s, rest, d).0, rest[Feed(s, rest, d).1..], d);
    }
  }

  /** Text without quotes and line breaks. */
  predicate Bare(text: string) {
    '"' !in text && '\r' !in text && '\n' !in text
  }

  /** Bare text that holds more than white space and separators makes the first row show something. */
  lemma {:induction false} BareShows(s: Scan, text: string, tail: string, d: char)
    requires !s.quoted && s.rows == [] && Bare(text) && exists c :: c in text && !IsSpace(c) && c != d
    ensures var rows := Finish(Run(s, text + tail, d)).rows; rows != [] && !BlankRow(rows[0])
    decreases |text|
  {
    var ch, more := text[0], text[1..];
    assert (text + tail)[0] == ch && (text + tail)[1..] == more + tail;
    assert ch in text && forall c :: c in text <==> c == ch || c in more;
    var s' := Feed(s, text + tail, d).0;
    if ch != d && !IsSpace(ch) {
      BlankGrows(s.cell, ch);
      BlankParts(s.row, s.cell + [ch]);
      RunShows(s', more + tail, d);
    } else {
      BareShows(s', more, tail, d);
    }
  }

  // ---- another separator changes the first cell ----

  /** The first kept row of `rows` is not a row that starts with `x`. */
  lemma OtherFirstRow(rows: seq<seq<string>>, header: seq<string>, more: seq<seq<string>>)
    requires rows != [] && rows[0] != [] && !BlankRow(rows[0])
    requires header != [] && !BlankRow(header) && rows[0][0] != header[0]
    ensures Keep(rows) != Keep([header] + more)
  {
    assert rows == [rows[0]] + rows[1..];
    KeepsHeader(rows[0], rows[1..]);
    KeepsHeader(header, more);
    assert Keep(rows)[0] == rows[0] && Keep([header] + more)[0] == header;
  }

  predicate Rival(d: char) {
    d == ';' || d == '\t'
  }

  /** Reading up to the end of the first printed field, when it holds no `d` or is quoted. */
  lemma ScansFirstField(text: string, tail: string, d: char)
    requires Rival(d) && (NeedsQuotes(text) || d !in text) && (tail != [] ==> tail[0] != '"')
    ensures Run(START, Field(text) + tail, d) == Run(START.(cell := text), tail, d)
  {
    if NeedsQuotes(text) {
      ScansQuotedField(START, text, tail, d);
    } else {
      ScansPlain(START, text, tail, d);
      assert "" + text == text;
    }
  }

  /** More than one header cell: the comma after the first becomes part of the first cell. */
  lemma CommaJoins(first: string, rest: string, header: seq<string>, more: seq<seq<string>>, d: char)
    requires Rival(d) && (NeedsQuotes(first) || d !in first)
    requires header != [] && header[0] == first && !BlankRow(header)
    ensures Keep(Finish(Run(START, Field(first) + ("," + rest), d)).rows) != Keep([header] + more)
  {
    ScansFirstField(first, "," + rest, d);
    var s := START.(cell := first + [',']);
    assert ("," + rest)[1..] == rest;
    assert Run(START.(cell := first), "," + rest, d) == Run(s, rest, d);
    RunExtends(s, rest, d, first + [',']);
    BlankGrows(first, ',');
    BlankParts([], first + [',']);
    RunShows(s, rest, d);
    OtherFirstRow(Finish(Run(s, rest, d)).rows, header, more);
  }

  /** A `d` in an unquoted first cell cuts that cell short. */
  lemma CutsFirstCell(first: string, tail: string, d: char)
    requires Rival(d) && !NeedsQuotes(first) && d in first
    ensures var rows := Finish(Run(START, first + tail, d)).rows;
            rows != [] && rows[0] != [] && |rows[0][0]| < |first|
  {
    var i := FirstAt(first, d);
    var a, b := first[..i], first[i + 1..];
    assert first + tail == a + ([d] + (b + tail));
    assert forall c :: c in a ==> c in first;
    ScansPlain(START, a, [d] + (b + tail), d);
    assert "" + a == a;
    var s := START.(cell := a);
    assert ([d] + (b + tail))[1..] == b + tail;
    assert Run(s, [d] + (b + tail), d) == Run(EndCell(s), b + tail, d);
    RunKeepsFirstCell(EndCell(s), b + tail, d, a);
  }

  lemma {:induction false} FirstAt(text: string, d: char) returns (i: nat)
    requires d in text
    ensures i < |text| && text[i] == d && d !in text[..i]
    decreases |text|
  {
    if text[0] == d {
      i := 0;
    } else {
      var k := FirstAt(text[1..], d);
      i := k + 1;
      assert text[..i] == [text[0]] + text[1..][..k];
    }
  }

  // ---- one quoted or separator-free header cell casts no vote ----

  lemma {:induction false} QuotedCastsNoVote(text: string, tail: string, d: char)
    requires Rival(d) && (tail == [] || "\r\n" <= tail)
    ensures Votes(FirstLine(Doubled(text) + "\"" + tail), true, d) == 0
    decreases |text|
  {
    var all := Doubled(text) + "\"" + tail;
    if text == [] {
      assert all[0] == '"' && all[1..] == tail;
      assert FirstLine(tail) == [] && FirstLine(all) == ['"'];
    } else {
      DoubledStep(text, tail);
      QuotedCastsNoVote(text[1..], tail, d);
      var rest := Doubled(text[1..]) + "\"" + tail;
      if text[0] == '"' {
        assert all[1..][0] == '"' && all[1..][1..] == rest;
        assert FirstLine(all) == ['"'] + (['"'] + FirstLine(rest));
      } else {
        assert all[1..] == rest;
      }
    }
  }

  lemma LoneFieldCastsNoVote(text: string, d: char)
    requires Rival(d) && (NeedsQuotes(text) || d !in text)
    ensures Votes(FirstLine(Field(text)), false, d) == 0
  {
    if NeedsQuotes(text) {
      QuotedCastsNoVote(text, "", d);
      var inner := Doubled(text) + "\"";
      assert inner + "" == inner;
      assert Field(text) == ['"'] + inner;
      assert Field(text)[1..] == inner;
    } else {
      FirstLineOfHead(text, "");
      FirstLineIsHeader(text, "");
      assert text + "" == text;
      NoVotes(FirstLine(text), false, d);
    }
  }

  // ---- a semicolon used as separator is missing from the cells ----

  function Count(text: string, d: char): nat {
    if text == [] then 0 else (if text[0] == d then 1 else 0) + Count(text[1..], d)
  }

  function CountRow(row: seq<string>, d: char): nat {
    if row == [] then 0 else Count(row[0], d) + CountRow(row[1..], d)
  }

  function CountRows(rows: seq<seq<string>>, d: char): nat {
    if rows == [] then 0 else CountRow(rows[0], d) + CountRows(rows[1..], d)
  }

  lemma {:induction false} CountConcat(a: string, b: string, d: char)
    ensures Count(a + b, d) == Count(a, d) + Count(b, d)
    decreases |a|
  {
    if a == [] {
      assert a + b == b;
    } else {
      assert (a + b)[1..] == a[1..] + b;
      CountConcat(a[1..], b, d);
    }
  }

  lemma {:induction false} CountRowSnoc(row: seq<string>, cell: string, d: char)
    ensures CountRow(row + [cell], d) == CountRow(row, d) + Count(cell, d)
    decreases |row|
  {
    if row == [] {
      assert row + [cell] == [cell];
    } else {
      assert (row + [cell])[1..] == row[1..] + [cell];
      CountRowSnoc(row[1..], cell, d);
    }
  }

  lemma {:induction false} CountRowsSnoc(rows: seq<seq<string>>, row: seq<string>, d: char)
    ensures CountRows(rows + [row], d) == CountRows(rows, d) + CountRow(row, d)
    decreases |rows|
  {
    if rows == [] {
      assert rows + [row] == [row];
    } else {
      assert (rows + [row])[1..] == rows[1..] + [row];
      CountRowsSnoc(rows[1..], row, d);
    }
  }

  /** How many `d` the scanner holds. */
  function Held(s: Scan, d: char): nat {
    CountRows(s.rows, d) + CountRow(s.row, d) + Count(s.cell, d)
  }

  lemma EndsHeld(s: Scan, d: char)
    ensures Held(EndCell(s), d) == Held(s, d) && Held(EndRow(s), d) == Held(s, d)
  {
    CountRowSnoc(s.row, s.cell, d);
    CountRowsSnoc(s.rows, s.row + [s.cell], d);
  }

  lemma FeedHolds(s: Scan, rest: string, d: char)
    requires rest != []
    ensures var (s', n) := Feed(s, rest, ';'); Held(s', d) + Count(rest[n..], d) <= Held(s, d) + Count(rest, d)
  {
    var n := Feed(s, rest, ';').1;
    assert rest == rest[..n] + rest[n..];
    CountConcat(rest[..n], rest[n..], d);
    CountConcat(s.cell, [rest[0]], d);
    EndsHeld(s, d);
    if n == 2 {
      assert rest[..n] == [rest[0]] + [rest[1]];
      CountConcat([rest[0]], [rest[1]], d);
    } else {
      assert rest[..n] == [rest[0]];
    }
  }

  lemma {:induction false} RunHolds(s: Scan, rest: string, d: char)
    ensures CountRows(Finish(Run(s, rest, ';')).rows, d) <= Held(s, d) + Count(rest, d)
    decreases |rest|
  {
    if rest == [] {
      EndsHeld(s, d);
    } else {
      FeedHolds(s, rest, d);
      RunHolds(Feed(s, rest, ';').0, rest[Feed(s, rest, ';').1..], d);
    }
  }

  lemma {:induction false} BlankHolds(cell: string, d: char)
    requires BlankCell(cell) && !IsSpace(d)
    ensures Count(cell, d) == 0
  {
    if cell != [] {
      assert cell[0] in cell && forall c :: c in cell[1..] ==> c in cell;
      BlankHolds(cell[1..], d);
    }
  }

  lemma {:induction false} BlankRowHolds(row: seq<string>, d: char)
    requires BlankRow(row) && !IsSpace(d)
    ensures CountRow(row, d) == 0
  {
    if row != [] {
      assert row[0] in row && forall c :: c in row[1..] ==> c in row;
      BlankHolds(row[0], d);
      BlankRowHolds(row[1..], d);
    }
  }

  /** Dropping blank rows drops no `d` that can be seen. */
  lemma {:induction false} KeepHolds(rows: seq<seq<string>>, d: char)
    requires !IsSpace(d)
    ensures CountRows(Keep(rows), d) == CountRows(rows, d)
  {
    if rows != [] {
      KeepHolds(rows[1..], d);
      if BlankRow(rows[0]) {
        BlankRowHolds(rows[0], d);
        assert [] + Keep(rows[1..]) == Keep(rows[1..]);
      } else {
        assert ([rows[0]] + Keep(rows[1..]))[1..] == Keep(rows[1..]);
      }
    }
  }

  lemma {:induction false} DoubledHolds(text: string, d: char)
    requires Rival(d)
    ensures Count(Doubled(text), d) == Count(text, d)
  {
    if text != [] {
      DoubledHolds(text[1..], d);
      var first := if text[0] == '"' then "\"\"" else [text[0]];
      assert Doubled(text) == first + Doubled(text[1..]);
      CountConcat(first, Doubled(text[1..]), d);
      assert first[1..] == if text[0] == '"' then "\"" else "";
    }
  }

  lemma FieldHolds(text: string, d: char)
    requires Rival(d)
    ensures Count(Field(text), d) == Count(text, d)
  {
    if NeedsQuotes(text) {
      DoubledHolds(text, d);
      CountConcat("\"" + Doubled(text), "\"", d);
      CountConcat("\"", Doubled(text), d);
      assert Count("\"", d) == 0;
    }
  }

  lemma {:induction false} PrintedRowHolds(row: seq<Cell>, d: char)
    requires Rival(d)
    ensures Count(PrintRow(row), d) == CountRow(ShownRow(row), d)
    decreases |row|
  {
    if row != [] {
      var rest := row[1..];
      PrintedRowHolds(rest, d);
      FieldHolds(Shown(row[0]), d);
      assert ShownRow(row)[0] == Shown(row[0]) && ShownRow(row)[1..] == ShownRow(rest);
      if rest == [] {
        assert ShownRow(rest) == [];
      } else {
        CountConcat(EscapeCell(row[0]) + ",", PrintRow(rest), d);
        CountConcat(EscapeCell(row[0]), ",", d);
      }
    }
  }

  lemma {:induction false} PrintedHolds(rows: seq<seq<Cell>>, d: char)
    requires Rival(d)
    ensures Count(PrintRows(rows), d) == CountRows(ShownRows(rows), d)
    decreases |rows|
  {
    if rows != [] {
      var rest := rows[1..];
      PrintedHolds(rest, d);
      PrintedRowHolds(rows[0], d);
      assert ShownRows(rows)[0] == ShownRow(rows[0]) && ShownRows(rows)[1..] == ShownRows(rest);
      if rest != [] {
        CountConcat(PrintRow(rows[0]) + "\r\n", PrintRows(rest), d);
        CountConcat(PrintRow(rows[0]), "\r\n", d);
        CountConcat("\r", "\n", d);
        assert "\r" + "\n" == "\r\n";
      }
    }
  }

  /** A semicolon that ended a cell is in no cell of the result. */
  lemma SemicolonIsMissing(first: string, tail: string)
    requires !NeedsQuotes(first) && ';' in first
    ensures CountRows(Keep(Finish(Run(START, first + tail, ';')).rows), ';') < Count(first + tail, ';')
  {
    var i := FirstAt(first, ';');
    var a, b := first[..i], first[i + 1..];
    assert first + tail == a + ([';'] + (b + tail));
    assert forall c :: c in a ==> c in first;
    ScansPlain(START, a, [';'] + (b + tail), ';');
    assert "" + a == a;
    var s := START.(cell := a);
    assert ([';'] + (b + tail))[1..] == b + tail;
    assert Run(s, [';'] + (b + tail), ';') == Run(EndCell(s), b + tail, ';');
    RunHolds(EndCell(s), b + tail, ';');
    EndsHeld(s, ';');
    CountConcat(a, [';'] + (b + tail), ';');
    KeepHolds(Finish(Run(EndCell(s), b + tail, ';')).rows, ';');
  }

  // ---- the round trip ----

  lemma WinnerHasVotes(text: string)
    ensures Delimiter(text) != ',' ==>
              Rival(Delimiter(text)) && Votes(FirstLine(StripBom(text)), false, Delimiter(text)) > 0
  {}

  lemma ShownHeader(headers: seq<string>)
    requires !BlankRow(ShownRow(TextCells(headers)))
    ensures headers != []
    ensures PrintRow(TextCells(headers)) ==
            if |headers| == 1 then Field(Shown(Filled(headers[0])))
            else Field(Shown(Filled(headers[0]))) + "," + PrintRow(TextCells(headers)[1..])
  {}

  /** What a first field is followed by in a printed table: a comma, a line break, or nothing. */
  lemma AfterFirstField(headers: seq<string>, rows: seq<seq<Cell>>) returns (tail: string)
    requires !BlankRow(ShownRow(TextCells(headers)))
    ensures headers != [] && ToCsv(headers, rows) == Field(Shown(Filled(headers[0]))) + tail
    ensures if |headers| > 1 then tail != [] && tail[0] == ',' else tail == [] || "\r\n" <= tail
  {
    ShownHeader(headers);
    var end := PrintedParts(headers, rows);
    if |headers| == 1 {
      tail := end;
    } else {
      tail := "," + (PrintRow(TextCells(headers)[1..]) + end);
      Regroup(Field(Shown(Filled(headers[0]))), ",", PrintRow(TextCells(headers)[1..]), end);
    }
  }

  /** When another separator wins the vote and the first header cell is quoted or lacks it. */
  lemma RivalWithoutCut(headers: seq<string>, rows: seq<seq<Cell>>, d: char)
    requires NoBomFirst(headers) && !BlankRow(ShownRow(TextCells(headers))) && Rival(d)
    requires headers != [] && (NeedsQuotes(Shown(Filled(headers[0]))) || d !in Shown(Filled(headers[0])))
    requires Delimiter(PrintRow(TextCells(headers))) == d
    ensures Parsed(ToCsv(headers, rows), d) != Keep(ShownRows([TextCells(headers)] + rows))
  {
    var first, header := Shown(Filled(headers[0])), ShownRow(TextCells(headers));
    ShownHeader(headers);
    PrintedHead(headers);
    WinnerHasVotes(PrintRow(TextCells(headers)));
    if |headers| == 1 {
      LoneFieldCastsNoVote(first, d);
    } else {
      var tail := AfterFirstField(headers, rows);
      PrintedStart(headers, rows);
      assert tail == "," + tail[1..];
      ShownRowsStep(TextCells(headers), rows);
      CommaJoins(first, tail[1..], header, ShownRows(rows), d);
    }
  }

  /** When the tab wins the vote and cuts the first header cell. */
  lemma TabCuts(headers: seq<string>, rows: seq<seq<Cell>>)
    requires NoBomFirst(headers) && !BlankRow(ShownRow(TextCells(headers))) && headers != []
    requires !NeedsQuotes(Shown(Filled(headers[0]))) && '\t' in Shown(Filled(headers[0]))
    ensures Parsed(ToCsv(headers, rows), '\t') != Keep(ShownRows([TextCells(headers)] + rows))
  {
    var first, header := Shown(Filled(headers[0])), ShownRow(TextCells(headers));
    var tail := AfterFirstField(headers, rows);
    PrintedStart(headers, rows);
    ShownRowsStep(TextCells(headers), rows);
    CutsFirstCell(first, tail, '\t');
    var text := if |headers| > 1 then first + "," else first;
    var rest := if |headers| > 1 then tail[1..] else tail;
    assert first + tail == text + rest;
    HeaderShowsMore(headers);
    BareShows(START, text, rest, '\t');
    OtherFirstRow(Finish(Run(START, first + tail, '\t')).rows, header, ShownRows(rows));
  }

  lemma HeaderShowsMore(headers: seq<string>)
    requires !BlankRow(ShownRow(TextCells(headers))) && headers != [] && !NeedsQuotes(Shown(Filled(headers[0])))
    ensures var first := Shown(Filled(headers[0])); var text := if |headers| > 1 then first + "," else first;
            Bare(text) && exists c :: c in text && !IsSpace(c) && c != '\t'
  {
    var first := Shown(Filled(headers[0]));
    assert forall c :: c in first ==> !Special(c);
    if |headers| > 1 {
      assert ',' in first + "," && !IsSpace(',');
    } else {
      assert ShownRow(TextCells(headers)) == [first];
      var c :| c in first && !IsSpace(c);
      assert IsSpace('\t');
    }
  }

  /** When the semicolon wins the vote and cuts the first header cell. */
  lemma SemicolonCuts(headers: seq<string>, rows: seq<seq<Cell>>)
    requires NoBomFirst(headers) && !BlankRow(ShownRow(TextCells(headers))) && headers != []
    requires !NeedsQuotes(Shown(Filled(headers[0]))) && ';' in Shown(Filled(headers[0]))
    ensures Parsed(ToCsv(headers, rows), ';') != Keep(ShownRows([TextCells(headers)] + rows))
  {
    var all := [TextCells(headers)] + rows;
    var tail := AfterFirstField(headers, rows);
    PrintedStart(headers, rows);
    SemicolonIsMissing(Shown(Filled(headers[0])), tail);
    PrintedHolds(all, ';');
    assert !IsSpace(';');
    KeepHolds(ShownRows(all), ';');
  }

  /**
   * A table whose header row shows something comes back from print and parse exactly when, on
   * the first line of its printed header, neither semicolons nor tabs outnumber the commas
   * outside quotes.
   */
  lemma RoundTripIffCommaWins(headers: seq<string>, rows: seq<seq<Cell>>)
    requires NoBomFirst(headers) && !BlankRow(ShownRow(TextCells(headers)))
    ensures var text, line := ToCsv(headers, rows), FirstLine(PrintRow(TextCells(headers)));
            Parsed(text, Delimiter(text)) == Keep(ShownRows([TextCells(headers)] + rows))
            <==> && Votes(line, false, ';') <= Votes(line, false, ',')
                 && Votes(line, false, '\t') <= Votes(line, false, ',')
  {
    var head := PrintRow(TextCells(headers));
    PrintedHead(headers);
    DelimiterIsHeaders(headers, rows);
    WinnerHasVotes(head);
    ShownHeader(headers);
    var first, d := Shown(Filled(headers[0])), Delimiter(head);
    if d == ',' {
      PrintThenParseWithComma(headers, rows);
    } else if NeedsQuotes(first) || d !in first {
      RivalWithoutCut(headers, rows, d);
    } else if d == '\t' {
      TabCuts(headers, rows);
    } else {
      SemicolonCuts(headers, rows);
    }
  }
}
