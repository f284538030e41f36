// Printing durations with weeks and days, and reading them back
// (internal/utils/duration.go).
module Durations {
  import opened GoStrings
  import opened LogEntries

  const NANOSECOND: nat := 1
  const MICROSECOND: nat := 1_000
  const MILLISECOND: nat := 1_000_000
  const SECOND: nat := 1_000_000_000
  const MINUTE: nat := 60_000_000_000
  const HOUR: nat := 3_600_000_000_000
  const DAY: nat := 86_400_000_000_000
  const WEEK: nat := 604_800_000_000_000

  const TWO_63: nat := 0x8000_0000_0000_0000

  datatype Parsed = Error | Ok(d: Duration)

  predicate InRange(d: int) {
    MIN_DURATION <= d <= MAX_DURATION
  }

  // ------------------------------------------------------------- FormatDuration

  datatype Unit = Unit(size: nat, sym: string)

  const SMALL_UNITS: seq<Unit> := [
    Unit(HOUR, "h"), Unit(MINUTE, "m"), Unit(SECOND, "s"),
    Unit(MILLISECOND, "ms"), Unit(MICROSECOND, "\U{B5}s"), Unit(NANOSECOND, "ns")]

  const UNITS: seq<Unit> := [Unit(WEEK, "w"), Unit(DAY, "d")] + SMALL_UNITS

  predicate Positive(units: seq<Unit>) {
    forall i :: 0 <= i < |units| ==> units[i].size > 0 && units[i].sym != ""
  }

  // The parts printed for some units, largest first.
  function Parts(remaining: int, units: seq<Unit>): string
    requires Positive(units)
  {
    if units == [] then ""
    else if remaining >= units[0].size then
      NatString(remaining / units[0].size) + units[0].sym + Parts(remaining % units[0].size, units[1..])
    else Parts(remaining, units[1..])
  }

  function Format(d: Duration): string {
    if d == 0 then "0s" else Parts(d, UNITS)
  }

  lemma Reassociate(a: string, b: string, c: string, d: string)
    ensures a + (b + c + d) == a + b + c + d
  {
  }

  method PrintParts(d: Duration, units: seq<Unit>) returns (b: string)
    requires Positive(units)
    ensures b == Parts(d, units)
  {
    b := "";
    var remaining := d;
    var i := 0;
    assert units[0..] == units;
    while i < |units|
      invariant 0 <= i <= |units|
      invariant b + Parts(remaining, units[i..]) == Parts(d, units)
    {
      var u := units[i];
      assert units[i..][1..] == units[i + 1..];
      if remaining >= u.size {
        var val := remaining / u.size;
        Reassociate(b, NatString(val), u.sym, Parts(remaining % u.size, units[i + 1..]));
        b := b + NatString(val) + u.sym;
        remaining := remaining % u.size;
      }
      i := i + 1;
    }
  }

  method FormatDuration(d: Duration) returns (b: string)
    ensures b == Format(d)
  {
    if d == 0 {
      return "0s";
    }
    b := PrintParts(d, UNITS);
  }

  // -------------------------------------------- the week and day part of a string

  function DigitCount(s: string): (n: nat)
    ensures n <= |s| && AllDigits(s[..n]) && (n < |s| ==> !IsDigit(s[n]))
  {
    if s == "" || !IsDigit(s[0]) then 0 else 1 + DigitCount(s[1..])
  }

  predicate WeekOrDay(c: char) {
    c == 'w' || c == 'd'
  }

  // Length of the match of (\d*\.?\d+)([wd]) at the start of s; 0 for none.
  function MatchLength(s: string): (n: nat)
    ensures n <= |s| && (n > 0 ==> n >= 2 && WeekOrDay(s[n - 1]))
    ensures n > 0 ==> var j := DigitCount(s); j == n - 1 || (j < n - 1 && s[j] == '.' && AllDigits(s[j + 1..n - 1]))
  {
    var j := DigitCount(s);
    if j < |s| && s[j] == '.' then
      var k := DigitCount(s[j + 1..]);
      assert s[j + 1..][..k] == s[j + 1..j + 1 + k];
      if k > 0 && j + 1 + k < |s| && WeekOrDay(s[j + 1 + k]) then j + k + 2 else 0
    else if j > 0 && j < |s| && WeekOrDay(s[j]) then j + 1
    else 0
  }

  datatype Match = Match(value: string, unit: char)

  // FindAllStringSubmatch
  function FindAll(s: string): (r: seq<Match>)
    ensures forall m :: m in r ==> IsNumber(m.value) && WeekOrDay(m.unit)
    decreases |s|
  {
    var n := MatchLength(s);
    if n > 0 then
      MatchedNumber(s);
      [Match(s[..n - 1], s[n - 1])] + FindAll(s[n..])
    else if s == "" then []
    else FindAll(s[1..])
  }

  // ReplaceAllString with the empty string
  function RemoveAll(s: string): string
    decreases |s|
  {
    var n := MatchLength(s);
    if n > 0 then RemoveAll(s[n..])
    else if s == "" then ""
    else [s[0]] + RemoveAll(s[1..])
  }

  // Digits with at most one point among them.
  predicate IsNumber(s: string) {
    var j := DigitCount(s);
    j == |s| || (s[j] == '.' && AllDigits(s[j + 1..]))
  }

  lemma MatchedNumber(s: string)
    requires MatchLength(s) > 0
    ensures IsNumber(s[..MatchLength(s) - 1])
  {
    var n := MatchLength(s);
    var j := DigitCount(s);
    assert s[..n - 1][..j] == s[..j];
    DigitsThen(s[..j], s[j..n - 1]);
    assert s[..j] + s[j..n - 1] == s[..n - 1];
    assert j < n - 1 ==> s[..n - 1][j + 1..] == s[j + 1..n - 1];
  }

  // The digits of p are counted up to the first character that is none.
  lemma {:induction false} DigitsThen(p: string, rest: string)
    requires AllDigits(p) && (rest != "" ==> !IsDigit(rest[0]))
    ensures DigitCount(p + rest) == |p|
  {
    if p == "" {
      assert p + rest == rest;
    } else {
      assert IsDigit(p[0]);
      assert (p + rest)[1..] == p[1..] + rest;
      DigitsThen(p[1..], rest);
    }
  }

  function Power10(k: nat): (r: nat)
    ensures r >= 1
  {
    if k == 0 then 1 else 10 * Power10(k - 1)
  }

  // strconv.ParseFloat, without rounding.
  function Number(s: string): (x: real)
    requires IsNumber(s)
    ensures x >= 0.0
  {
    var j := DigitCount(s);
    var whole := Decimal(s[..j]) as real;
    if j == |s| then whole
    else whole + Decimal(s[j + 1..]) as real / Power10(|s| - j - 1) as real
  }

  function HoursOf(m: Match): (h: real)
    requires IsNumber(m.value)
    ensures h >= 0.0
  {
    if m.unit == 'w' then Number(m.value) * 7.0 * 24.0 else Number(m.value) * 24.0
  }

  function Hours(matches: seq<Match>): (h: real)
    requires forall m :: m in matches ==> IsNumber(m.value)
    ensures h >= 0.0
  {
    if matches == [] then 0.0
    else Hours(matches[..|matches| - 1]) + HoursOf(matches[|matches| - 1])
  }

  // Weeks directly after days, among the week and day parts.
  predicate Disordered(matches: seq<Match>) {
    exists i :: 0 < i < |matches| && matches[i].unit == 'w' && matches[i - 1].unit == 'd'
  }

  // ------------------------------------------------------- the standard library

  function RoundHalfEven(x: real): nat
    requires x >= 0.0
  {
    var f := x.Floor;
    var part := x - f as real;
    if part < 0.5 || (part == 0.5 && f % 2 == 0) then f else f + 1
  }

  function SixDigits(n: nat): string
    requires n < 1_000_000
  {
    [Digit(n / 100_000), Digit(n / 10_000 % 10), Digit(n / 1_000 % 10), Digit(n / 100 % 10), Digit(n / 10 % 10),
     Digit(n % 10)]
  }

  function PrintMillionths(n: nat): string {
    NatString(n / 1_000_000) + "." + SixDigits(n % 1_000_000)
  }

  // %f
  function FixedPoint(x: real): string
    requires x >= 0.0
  {
    PrintMillionths(RoundHalfEven(x * 1_000_000.0))
  }

  // Nanoseconds of a unit the standard library knows; 0 for any other text.
  function UnitSize(u: string): nat {
    if u == "ns" then NANOSECOND
    else if u == "us" || u == "\U{B5}s" || u == "\U{3BC}s" then MICROSECOND
    else if u == "ms" then MILLISECOND
    else if u == "s" then SECOND
    else if u == "m" then MINUTE
    else if u == "h" then HOUR
    else 0
  }

  function UnitLength(s: string): (n: nat)
    ensures n <= |s|
  {
    if s == "" || s[0] == '.' || IsDigit(s[0]) then 0 else 1 + UnitLength(s[1..])
  }

  // Fraction digits and their scale; digits that no longer fit are dropped.
  function Fraction(digits: string, f: nat, scale: nat): (r: (nat, nat))
    requires AllDigits(digits) && scale > 0
    ensures r.1 > 0
  {
    if digits == "" || f > MAX_DURATION / 10 then (f, scale)
    else
      assert IsDigit(digits[0]);
      var y := 10 * f + (digits[0] as int - '0' as int);
      if y > TWO_63 then (f, scale) else Fraction(digits[1..], y, 10 * scale)
  }

  datatype Term = Bad | Term(v: nat, rest: string)

  // Digits and a unit: `whole` in front of the point, `frac` behind it.
  function ValueOf(whole: nat, frac: (nat, nat), unit: nat, rest: string): Term
    requires frac.1 > 0
  {
    if whole > TWO_63 || unit == 0 || whole > TWO_63 / unit then Bad
    else
      var v := whole * unit + frac.0 * unit / frac.1;
      if v > TWO_63 then Bad else Term(v, rest)
  }

  // The digits in front of and behind a point, and what follows them.
  datatype Num = Num(whole: string, frac: string, rest: string)

  function LeadingNumber(s: string): (r: Num)
    ensures AllDigits(r.whole) && AllDigits(r.frac)
    ensures |r.whole| + |r.frac| + |r.rest| <= |s|
  {
    var i := DigitCount(s);
    var after := s[i..];
    if after != "" && after[0] == '.' then
      var j := DigitCount(after[1..]);
      Num(s[..i], after[1..][..j], after[1..][j..])
    else Num(s[..i], "", after)
  }

  function TermFrom(n: Num): (r: Term)
    requires AllDigits(n.whole) && AllDigits(n.frac)
    ensures r.Term? ==> |r.rest| < |n.whole| + |n.frac| + |n.rest|
  {
    var u := UnitLength(n.rest);
    if n.whole == "" && n.frac == "" then Bad
    else ValueOf(Decimal(n.whole), Fraction(n.frac, 0, 1), UnitSize(n.rest[..u]), n.rest[u..])
  }

  function FirstTerm(s: string): (r: Term)
    ensures r.Term? ==> |r.rest| < |s|
  {
    TermFrom(LeadingNumber(s))
  }

  type TermReader = string -> Term

  ghost predicate Shrinks(read: TermReader) {
    forall s :: read(s).Term? ==> |read(s).rest| < |s|
  }

  // time.ParseDuration on a string that starts with neither sign nor a bare 0;
  // the sum is an unsigned 64-bit number.
  function SumTerms(read: TermReader, s: string, d: nat): Parsed
    requires Shrinks(read)
    decreases |s|
  {
    if s == "" then (if d > MAX_DURATION then Error else Ok(d))
    else
      match read(s)
      case Bad => Error
      case Term(v, rest) =>
        var sum := (d + v) % (2 * TWO_63);
        if sum > TWO_63 then Error else SumTerms(read, rest, sum)
  }

  // -------------------------------------------------------------- ParseDuration

  function ParseWith(read: TermReader, s: string): Parsed
    requires Shrinks(read)
  {
    var matches := FindAll(s);
    if s == "" || Disordered(matches) then Error
    else SumTerms(read, FixedPoint(Hours(matches)) + "h" + RemoveAll(s), 0)
  }

  function Parse(s: string): Parsed {
    ParseWith(FirstTerm, s)
  }

  lemma OneMoreMatch(matches: seq<Match>, i: nat)
    requires i < |matches| && forall m :: m in matches ==> IsNumber(m.value)
    ensures Hours(matches[..i + 1]) == Hours(matches[..i]) + HoursOf(matches[i])
  {
    assert matches[..i + 1][..i] == matches[..i];
  }

  lemma OneMoreInOrder(matches: seq<Match>, i: nat)
    requires i < |matches| && !Disordered(matches[..i])
    requires i > 0 ==> matches[i].unit != 'w' || matches[i - 1].unit != 'd'
    ensures !Disordered(matches[..i + 1])
  {
    forall k | 0 < k < i ensures matches[k].unit != 'w' || matches[k - 1].unit != 'd' {
      assert matches[..i][k] == matches[k] && matches[..i][k - 1] == matches[k - 1];
    }
  }

  method WeekAndDayHours(matches: seq<Match>) returns (ok: bool, totalHours: real)
    requires forall m :: m in matches ==> IsNumber(m.value) && WeekOrDay(m.unit)
    ensures ok <==> !Disordered(matches)
    ensures ok ==> totalHours == Hours(matches)
  {
    totalHours := 0.0;
    var lastUnit := '\0';
    var i := 0;
    while i < |matches|
      invariant 0 <= i <= |matches|
      invariant !Disordered(matches[..i])
      invariant totalHours == Hours(matches[..i])
      invariant lastUnit == if i == 0 then '\0' else matches[i - 1].unit
    {
      var m := matches[i];
      OneMoreMatch(matches, i);
      var value := Number(m.value);
      if lastUnit != '\0' && m.unit == 'w' && lastUnit == 'd' {
        assert Disordered(matches);
        return false, 0.0;
      }
      OneMoreInOrder(matches, i);
      match m.unit {
        case 'w' => totalHours := totalHours + value * 7.0 * 24.0;
        case _ => totalHours := totalHours + value * 24.0;
      }
      lastUnit := m.unit;
      i := i + 1;
    }
    assert matches[..i] == matches;
    ok := true;
  }

  method ParseDuration(durationStr: string) returns (r: Parsed)
    ensures r == Parse(durationStr)
  {
    if durationStr == "" {
      return Error;
    }
    var matches := FindAll(durationStr);
    var ok, totalHours := WeekAndDayHours(matches);
    if !ok {
      return Error;
    }
    var remainingStr := RemoveAll(durationStr);
    r := SumTerms(FirstTerm, FixedPoint(totalHours) + "h" + remainingStr, 0);
  }
}
