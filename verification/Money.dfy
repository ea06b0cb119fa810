/**
 * Printing and reading whole numbers the Indonesian way: a dot every three digits, a comma
 * before two decimals. Arithmetic is exact.
 */
module Money {
  import opened Wrappers
  import opened Text

  predicate IsDigit(c: char) {
    '0' <= c <= '9'
  }

  predicate AllDigits(s: string) {
    forall i :: 0 <= i < |s| ==> IsDigit(s[i])
  }

  predicate IsSeparator(c: char) {
    c == '.' || c == ','
  }

  function DigitOf(n: nat): char
    requires n < 10
  {
    '0' + n as char
  }

  function Digits(n: nat): string {
    if n < 10 then [DigitOf(n)] else Digits(n / 10) + [DigitOf(n % 10)]
  }

  /** `Number` of a run of digits; the empty run counts as zero. */
  function ValueOf(s: string): int {
    if s == [] then 0 else 10 * ValueOf(s[..|s| - 1]) + (s[|s| - 1] as int - '0' as int)
  }

  /** The characters of `s` that satisfy `keep`. */
  function Filter(s: string, keep: char -> bool): string {
    if s == [] then [] else (if keep(s[0]) then [s[0]] else []) + Filter(s[1..], keep)
  }

  predicate IsNumeric(c: char) {
    IsDigit(c) || IsSeparator(c)
  }

  /** Everything but the digits removed. */
  function OnlyDigits(s: string): string {
    Filter(s, IsDigit)
  }

  /** How many characters a decimal part takes at the end of `s`, separator included; zero if none. */
  function DecimalTail(s: string): (n: nat)
    ensures n <= |s| && (n == 0 || n == 2 || n == 3)
  {
    if |s| >= 3 && IsSeparator(s[|s| - 3]) && IsDigit(s[|s| - 2]) && IsDigit(s[|s| - 1]) then 3
    else if |s| >= 2 && IsSeparator(s[|s| - 2]) && IsDigit(s[|s| - 1]) then 2
    else 0
  }

  /** `Math.round` of a number of hundredths. */
  function RoundHundredths(h: int): int {
    (h + 50) / 100
  }

  /** The whole rupiah a typed amount stands for. */
  function ParseIdr(raw: string): int {
    var s := Filter(raw, IsNumeric);
    var n := DecimalTail(s);
    if n == 0 then ValueOf(OnlyDigits(s))
    else
      var whole := ValueOf(OnlyDigits(s[..|s| - n]));
      var fraction := ValueOf(s[|s| - n + 1..]) * (if n == 2 then 10 else 1);
      RoundHundredths(100 * whole + fraction)
  }

  /** A separator before every group of three digits, from the right. */
  function Grouped(digits: string, sep: char): string {
    if |digits| <= 3 then digits
    else Grouped(digits[..|digits| - 3], sep) + [sep] + digits[|digits| - 3..]
  }

  /** A non-negative amount given in hundredths: whole amounts are printed without decimals. */
  function FormatIdr(hundredths: nat): string {
    var whole := Grouped(Digits(hundredths / 100), '.');
    var cents := hundredths % 100;
    "Rp " + if cents == 0 then whole else whole + "," + [DigitOf(cents / 10), DigitOf(cents % 10)]
  }

  // ---- import cells ----

  predicate IsInk(c: char) {
    !IsSpace(c)
  }

  /** One to three digits, then groups of a separator and three digits. */
  predicate IsGrouped(s: string) {
    if |s| <= 3 then |s| >= 1 && AllDigits(s)
    else IsSeparator(s[|s| - 4]) && AllDigits(s[|s| - 3..]) && IsGrouped(s[..|s| - 4])
  }

  /** A whole-number cell: plain or grouped digits with an optional minus, anything else is an error. */
  function IntCell(raw: string): Option<int> {
    var s := Filter(raw, IsInk);
    if s != [] && s[0] == '-' then ReadBody(true, s[1..]) else ReadBody(false, s)
  }

  function ReadBody(minus: bool, body: string): Option<int> {
    if IsGrouped(body) || (body != [] && AllDigits(body)) then
      Some(if minus then -ValueOf(OnlyDigits(body)) else ValueOf(OnlyDigits(body)))
    else None
  }

  /** The plain print of an integer, or the grouped one with a separator. */
  function PrintInt(n: int, sep: Option<char>): string {
    var digits := Digits(if n < 0 then -n else n);
    (if n < 0 then "-" else "") + if sep.Some? then Grouped(digits, sep.value) else digits
  }

  // ---- digits ----

  lemma {:induction false} DigitsAreDigits(n: nat)
    ensures Digits(n) != [] && AllDigits(Digits(n)) && ValueOf(Digits(n)) == n
    decreases n
  {
    if n < 10 {
      assert [DigitOf(n)][..0] == [];
    } else {
      DigitsAreDigits(n / 10);
      assert Digits(n)[..|Digits(n)| - 1] == Digits(n / 10);
    }
  }

  lemma {:induction false} FilterConcat(a: string, b: string, keep: char -> bool)
    ensures Filter(a + b, keep) == Filter(a, keep) + Filter(b, keep)
    decreases |a|
  {
    if a == [] {
      assert a + b == b;
    } else {
      var first, rest := if keep(a[0]) then [a[0]] else [], Filter(a[1..], keep);
      assert (a + b)[0] == a[0] && (a + b)[1..] == a[1..] + b;
      FilterConcat(a[1..], b, keep);
      assert first + (rest + Filter(b, keep)) == first + rest + Filter(b, keep);
    }
  }

  lemma {:induction false} FilterKeepsAll(s: string, keep: char -> bool)
    requires forall i :: 0 <= i < |s| ==> keep(s[i])
    ensures Filter(s, keep) == s
    decreases |s|
  {
    if s != [] {
      FilterKeepsAll(s[1..], keep);
    }
  }

  lemma FilterOne(c: char, keep: char -> bool)
    ensures Filter([c], keep) == if keep(c) then [c] else []
  {
    assert [c][1..] == [];
  }

  predicate AllNumeric(s: string) {
    forall i :: 0 <= i < |s| ==> IsNumeric(s[i])
  }

  lemma {:induction false} GroupedIsNumeric(digits: string, sep: char)
    requires AllDigits(digits) && IsSeparator(sep)
    ensures AllNumeric(Grouped(digits, sep))
    decreases |digits|
  {
    if |digits| > 3 {
      GroupedIsNumeric(digits[..|digits| - 3], sep);
    }
  }

  lemma FilterThree(a: string, sep: char, b: string)
    requires IsSeparator(sep) && AllDigits(b)
    ensures OnlyDigits(a + [sep] + b) == OnlyDigits(a) + b
  {
    FilterConcat(a + [sep], b, IsDigit);
    FilterConcat(a, [sep], IsDigit);
    FilterOne(sep, IsDigit);
    FilterKeepsAll(b, IsDigit);
    assert OnlyDigits(a) + [] == OnlyDigits(a);
  }

  /** Grouping only adds separators. */
  lemma {:induction false} GroupedDigits(digits: string, sep: char)
    requires AllDigits(digits) && IsSeparator(sep)
    ensures OnlyDigits(Grouped(digits, sep)) == digits
    decreases |digits|
  {
    if |digits| <= 3 {
      FilterKeepsAll(digits, IsDigit);
    } else {
      var head, tail := digits[..|digits| - 3], digits[|digits| - 3..];
      GroupedDigits(head, sep);
      FilterThree(Grouped(head, sep), sep, tail);
      assert head + tail == digits;
    }
  }

  /** A grouped number has groups of three after its first group, so it has no decimal tail. */
  lemma {:induction false} GroupedShape(digits: string, sep: char)
    requires digits != [] && AllDigits(digits) && IsSeparator(sep)
    ensures var g := Grouped(digits, sep);
            IsGrouped(g) && DecimalTail(g) == 0 && |g| >= 1 && IsDigit(g[0])
    decreases |digits|
  {
    if |digits| > 3 {
      var head, tail := digits[..|digits| - 3], digits[|digits| - 3..];
      GroupedShape(head, sep);
      var g := Grouped(digits, sep);
      assert g[..|g| - 4] == Grouped(head, sep) && g[|g| - 3..] == tail && g[|g| - 4] == sep;
      assert g[|g| - 3] == tail[0] && g[|g| - 2] == tail[1] && g[|g| - 1] == tail[2];
    }
  }

  lemma PrefixIsDropped(s: string)
    requires AllNumeric(s)
    ensures Filter("Rp " + s, IsNumeric) == s
  {
    FilterConcat("Rp ", s, IsNumeric);
    FilterKeepsAll(s, IsNumeric);
    assert "Rp "[1..] == "p " && "p "[1..] == " " && " "[1..] == "";
    assert Filter(" ", IsNumeric) == "" && Filter("p ", IsNumeric) == "";
  }

  lemma CentsValue(cents: nat)
    requires cents < 100
    ensures ValueOf([DigitOf(cents / 10), DigitOf(cents % 10)]) == cents
  {
    var c := [DigitOf(cents / 10), DigitOf(cents % 10)];
    assert c[..1] == [DigitOf(cents / 10)] && c[..1][..0] == [];
    assert ValueOf(c[..1]) == cents / 10;
  }

  /** Digits, a separator and two digits read as that many hundredths, rounded. */
  lemma ReadsHundredths(raw: string, whole: string, sep: char, cents: nat)
    requires cents < 100 && IsSeparator(sep) && AllNumeric(whole)
    requires Filter(raw, IsNumeric) == whole + [sep] + [DigitOf(cents / 10), DigitOf(cents % 10)]
    ensures ParseIdr(raw) == RoundHundredths(100 * ValueOf(OnlyDigits(whole)) + cents)
  {
    var c := [DigitOf(cents / 10), DigitOf(cents % 10)];
    var s := whole + [sep] + c;
    assert s[|s| - 3] == sep && s[|s| - 2] == c[0] && s[|s| - 1] == c[1];
    assert s[..|s| - 3] == whole && s[|s| - 2..] == c;
    CentsValue(cents);
  }

  lemma PrintThenParseWhole(n: nat)
    ensures ParseIdr("Rp " + Grouped(Digits(n), '.')) == n
  {
    DigitsAreDigits(n);
    GroupedDigits(Digits(n), '.');
    GroupedIsNumeric(Digits(n), '.');
    GroupedShape(Digits(n), '.');
    PrefixIsDropped(Grouped(Digits(n), '.'));
  }

  lemma PrintThenParseFraction(n: nat, cents: nat)
    requires cents < 100
    ensures ParseIdr("Rp " + (Grouped(Digits(n), '.') + "," + [DigitOf(cents / 10), DigitOf(cents % 10)]))
         == RoundHundredths(100 * n + cents)
  {
    DigitsAreDigits(n);
    GroupedDigits(Digits(n), '.');
    GroupedIsNumeric(Digits(n), '.');
    var g, c := Grouped(Digits(n), '.'), [DigitOf(cents / 10), DigitOf(cents % 10)];
    PrefixIsDropped(g + "," + c);
    ReadsHundredths("Rp " + (g + "," + c), g, ',', cents);
  }

  /** A whole amount reads back as itself; one with two decimals as itself rounded half up. */
  lemma PrintThenParseIdr(hundredths: nat)
    ensures ParseIdr(FormatIdr(hundredths)) == RoundHundredths(hundredths)
    ensures hundredths % 100 == 0 ==> ParseIdr(FormatIdr(hundredths)) == hundredths / 100
  {
    if hundredths % 100 == 0 {
      PrintThenParseWhole(hundredths / 100);
    } else {
      PrintThenParseFraction(hundredths / 100, hundredths % 100);
    }
  }

  /** A typed decimal point or comma is a decimal, never dropped: the amount is rounded. */
  lemma TypedDecimals(n: nat, sep: char, cents: nat)
    requires IsSeparator(sep) && cents < 100
    ensures ParseIdr(Digits(n) + [sep] + [DigitOf(cents / 10), DigitOf(cents % 10)])
         == n + (if cents >= 50 then 1 else 0)
  {
    DigitsAreDigits(n);
    var raw := Digits(n) + [sep] + [DigitOf(cents / 10), DigitOf(cents % 10)];
    FilterKeepsAll(raw, IsNumeric);
    FilterKeepsAll(Digits(n), IsDigit);
    ReadsHundredths(raw, Digits(n), sep, cents);
  }

  lemma NumericIsInk(s: string)
    requires AllNumeric(s)
    ensures Filter(s, IsInk) == s && Filter("-" + s, IsInk) == "-" + s
  {
    FilterKeepsAll(s, IsInk);
    FilterConcat("-", s, IsInk);
    FilterOne('-', IsInk);
  }

  /** A cell that is an optional minus and a readable body reads as the body's digits. */
  lemma ReadsBody(minus: bool, body: string)
    requires AllNumeric(body) && body != []
    ensures IntCell((if minus then "-" else "") + body) == ReadBody(minus, body)
  {
    NumericIsInk(body);
    if minus {
      assert ("-" + body)[1..] == body;
    } else {
      assert "" + body == body && IsNumeric(body[0]);
    }
  }

  /** Digits, a separator and one digit read as that many tenths, rounded. */
  lemma ReadsTenths(raw: string, whole: string, sep: char, tenths: nat)
    requires tenths < 10 && IsSeparator(sep) && whole != "" && AllDigits(whole)
    requires Filter(raw, IsNumeric) == whole + [sep] + [DigitOf(tenths)]
    ensures ParseIdr(raw) == RoundHundredths(100 * ValueOf(OnlyDigits(whole)) + 10 * tenths)
  {
    var c := [DigitOf(tenths)];
    var s := whole + [sep] + c;
    assert s[|s| - 2] == sep && s[|s| - 1] == c[0];
    assert |s| >= 3 && s[|s| - 3] == whole[|whole| - 1] && IsDigit(s[|s| - 3]);
    assert DecimalTail(s) == 2;
    assert s[..|s| - 2] == whole && s[|s| - 1..] == c;
    assert c[..0] == "" && ValueOf(c) == tenths;
  }

  lemma RoundsTenths(n: nat, tenths: nat)
    requires tenths < 10
    ensures RoundHundredths(100 * n + 10 * tenths) == n + (if tenths >= 5 then 1 else 0)
  {}

  lemma TypedDigits(n: nat)
    ensures Digits(n) != "" && AllDigits(Digits(n)) && ValueOf(OnlyDigits(Digits(n))) == n
  {
    DigitsAreDigits(n);
    FilterKeepsAll(Digits(n), IsDigit);
  }

  /** One typed decimal counts tenths. */
  lemma TypedTenths(n: nat, sep: char, tenths: nat)
    requires IsSeparator(sep) && tenths < 10
    ensures ParseIdr(Digits(n) + [sep] + [DigitOf(tenths)]) == n + (if tenths >= 5 then 1 else 0)
  {
    var digits := Digits(n);
    TypedDigits(n);
    FilterKeepsAll(digits + [sep] + [DigitOf(tenths)], IsNumeric);
    ReadsTenths(digits + [sep] + [DigitOf(tenths)], digits, sep, tenths);
    RoundsTenths(n, tenths);
  }

  lemma FilterAround(before: string, text: string, after: string, keep: char -> bool)
    requires Filter(before, keep) == "" && Filter(after, keep) == "" && Filter(text, keep) == text
    ensures Filter(before + text + after, keep) == text && Filter(before + after, keep) == ""
  {
    FilterConcat(before + text, after, keep);
    FilterConcat(before, text, keep);
    FilterConcat(before, after, keep);
    assert "" + text == text && text + "" == text;
  }

  lemma ReadsWhole(raw: string, digits: string, sep: char)
    requires digits != "" && AllDigits(digits) && IsSeparator(sep)
    requires Filter(raw, IsNumeric) == Grouped(digits, sep)
    ensures ParseIdr(raw) == ValueOf(digits)
  {
    GroupedDigits(digits, sep);
    GroupedShape(digits, sep);
  }

  /** Typed thousands, with dots or commas, are digits only, whatever else stands around them. */
  lemma TypedThousands(n: nat, sep: char, before: string, after: string)
    requires IsSeparator(sep)
    requires Filter(before, IsNumeric) == "" && Filter(after, IsNumeric) == ""
    ensures ParseIdr(before + Grouped(Digits(n), sep) + after) == n
    ensures ParseIdr(before + after) == 0
  {
    var g := Grouped(Digits(n), sep);
    DigitsAreDigits(n);
    GroupedIsNumeric(Digits(n), sep);
    FilterKeepsAll(g, IsNumeric);
    FilterAround(before, g, after, IsNumeric);
    ReadsWhole(before + g + after, Digits(n), sep);
  }

  predicate DigitsOr(s: string, sep: char) {
    forall c :: c in s ==> IsDigit(c) || c == sep
  }

  lemma {:induction false} OnlySeparators(digits: string, sep: char)
    requires AllDigits(digits)
    ensures DigitsOr(Grouped(digits, sep), sep)
    decreases |digits|
  {
    if |digits| > 3 {
      var head, tail := digits[..|digits| - 3], digits[|digits| - 3..];
      OnlySeparators(head, sep);
      assert forall c :: c in Grouped(digits, sep) ==> c in Grouped(head, sep) || c == sep || c in tail;
    }
  }

  /** What is printed: the whole digits in dotted groups of three, and two decimals when there are any. */
  lemma PrintedAmount(hundredths: nat) returns (g: string)
    ensures FormatIdr(hundredths) == "Rp " + g + (if hundredths % 100 == 0 then ""
              else "," + [DigitOf(hundredths % 100 / 10), DigitOf(hundredths % 100 % 10)])
    ensures OnlyDigits(g) == Digits(hundredths / 100) && IsGrouped(g)
    ensures DigitsOr(g, '.')
  {
    var digits := Digits(hundredths / 100);
    g := Grouped(digits, '.');
    DigitsAreDigits(hundredths / 100);
    GroupedDigits(digits, '.');
    GroupedShape(digits, '.');
    OnlySeparators(digits, '.');
    if hundredths % 100 == 0 {
      assert "Rp " + g + "" == "Rp " + g;
    } else {
      var two := [DigitOf(hundredths % 100 / 10), DigitOf(hundredths % 100 % 10)];
      assert "Rp " + (g + "," + two) == "Rp " + g + ("," + two);
    }
  }

  /** A printed number starts with a zero only when it is zero. */
  lemma {:induction false} NoLeadingZero(n: nat)
    ensures Digits(n) != "" && (Digits(n)[0] == '0' ==> n == 0)
    decreases n
  {
    if n >= 10 {
      NoLeadingZero(n / 10);
      assert Digits(n)[0] == Digits(n / 10)[0];
    }
  }

  lemma {:induction false} FilteredFrom(s: string, keep: char -> bool)
    ensures forall c :: c in s && keep(c) ==> c in Filter(s, keep)
    ensures forall c :: c in Filter(s, keep) ==> c in s && keep(c)
    decreases |s|
  {
    if s != [] {
      FilteredFrom(s[1..], keep);
      assert forall c :: c in s <==> c == s[0] || c in s[1..];
    }
  }

  lemma {:induction false} GroupedHolds(s: string)
    requires IsGrouped(s)
    ensures forall c :: c in s ==> IsNumeric(c)
    decreases |s|
  {
    if |s| > 3 {
      GroupedHolds(s[..|s| - 4]);
      assert s == s[..|s| - 4] + [s[|s| - 4]] + s[|s| - 3..];
    }
  }

  /** A readable body holds digits and separators only. */
  lemma BodyIsNumeric(minus: bool, body: string)
    requires ReadBody(minus, body).Some?
    ensures body != "" && forall c :: c in body ==> IsNumeric(c)
  {
    if IsGrouped(body) {
      GroupedHolds(body);
    }
  }

  /**
   * A cell that is read as a number holds white space, digits, separators and a minus only; what
   * is read is its digits, negated when its first visible character is a minus, and no other
   * character is one.
   */
  lemma OnlyNumbersAreRead(raw: string)
    requires IntCell(raw).Some?
    ensures forall c :: c in raw ==> IsSpace(c) || IsNumeric(c) || c == '-'
    ensures var ink := Filter(raw, IsInk);
            && ink != "" && '-' !in ink[1..]
            && IntCell(raw).value == if ink[0] == '-' then -ValueOf(OnlyDigits(ink[1..])) else ValueOf(OnlyDigits(ink))
  {
    var ink := Filter(raw, IsInk);
    FilteredFrom(raw, IsInk);
    if ink != [] && ink[0] == '-' {
      BodyIsNumeric(true, ink[1..]);
      assert forall c :: c in ink ==> c == '-' || c in ink[1..];
    } else {
      BodyIsNumeric(false, ink);
      assert forall c :: c in ink[1..] ==> c in ink;
    }
  }

  /** A whole-number cell with two decimals is refused, not read a hundred times too large. */
  lemma DecimalsAreRefused(n: nat, sep: char, cents: nat)
    requires IsSeparator(sep) && cents < 100
    ensures IntCell(Digits(n) + [sep] + [DigitOf(cents / 10), DigitOf(cents % 10)]) == None
  {
    DigitsAreDigits(n);
    var body := Digits(n) + [sep] + [DigitOf(cents / 10), DigitOf(cents % 10)];
    assert body[|body| - 3] == sep && IsNumeric(sep);
    SeparatorBeforeTwo(body);
    ReadsBody(false, body);
    assert "" + body == body;
  }

  lemma SeparatorBeforeTwo(s: string)
    requires |s| >= 4 && IsSeparator(s[|s| - 3])
    ensures !AllDigits(s) && !IsGrouped(s)
  {
    assert s[|s| - 3..][0] == s[|s| - 3];
  }

  /** Every integer is read back from its plain print and from either grouped print. */
  lemma PrintThenReadInt(n: int, sep: Option<char>)
    requires sep.Some? ==> IsSeparator(sep.value)
    ensures IntCell(PrintInt(n, sep)) == Some(n)
  {
    var digits := Digits(if n < 0 then -n else n);
    DigitsAreDigits(if n < 0 then -n else n);
    FilterKeepsAll(digits, IsDigit);
    if sep.Some? {
      GroupedDigits(digits, sep.value);
      GroupedIsNumeric(digits, sep.value);
      GroupedShape(digits, sep.value);
    }
    ReadsBody(n < 0, if sep.Some? then Grouped(digits, sep.value) else digits);
  }
}
