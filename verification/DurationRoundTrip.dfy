// A printed duration reads back as itself.
module DurationRoundTrip {
  import Arithmetic
  import opened GoStrings
  import opened LogEntries
  import opened Durations

  // ---------------------------------------------------- the week and day scanner

  type Scanner = string -> (seq<Match>, string)

  function Scan(s: string): (seq<Match>, string) {
    (FindAll(s), RemoveAll(s))
  }

  // Text a scanner passes over, whatever follows it.
  predicate PassedBefore(scan: Scanner, pre: string, t: string) {
    scan(pre + t) == (scan(t).0, pre + scan(t).1)
  }

  ghost predicate PassedOver(scan: Scanner, pre: string) {
    forall t :: PassedBefore(scan, pre, t)
  }

  ghost predicate Passed(pre: string) {
    PassedOver(Scan, pre)
  }

  lemma PassedTogether(scan: Scanner, a: string, b: string)
    requires PassedOver(scan, a) && PassedOver(scan, b)
    ensures PassedOver(scan, a + b)
  {
    forall t ensures PassedBefore(scan, a + b, t) {
      assert PassedBefore(scan, a, b + t) && PassedBefore(scan, b, t);
      assert a + b + t == a + (b + t);
      assert a + b + scan(t).1 == a + (b + scan(t).1);
    }
  }

  lemma NothingIsPassed()
    ensures Passed("")
  {
    forall t ensures PassedBefore(Scan, "", t) {
      assert "" + t == t;
      assert "" + RemoveAll(t) == RemoveAll(t);
    }
  }

  // Where nothing matches, a scanner keeps one character and goes on.
  predicate SkipsAt(scan: Scanner, s: string)
    requires s != ""
  {
    scan(s) == (scan(s[1..]).0, [s[0]] + scan(s[1..]).1)
  }

  ghost predicate SkipsUnmatched(scan: Scanner) {
    forall s :: s != "" && MatchLength(s) == 0 ==> SkipsAt(scan, s)
  }

  // Digits in front of a character that is neither w nor d ...
  lemma {:induction false} DigitsPassBefore(scan: Scanner, p: string, c: char, t: string)
    requires AllDigits(p) && !IsDigit(c) && c != '.' && !WeekOrDay(c) && SkipsUnmatched(scan)
    ensures PassedBefore(scan, p + [c], t)
  {
    var s := p + [c] + t;
    NoMatchHere(p, c, t);
    assert SkipsAt(scan, s);
    if p == "" {
      assert s[1..] == t && p + [c] == [c] && s[0] == c;
    } else {
      assert s[1..] == p[1..] + [c] + t;
      DigitsPassBefore(scan, p[1..], c, t);
      FirstOfThree(p, c, scan(t).1);
    }
  }

  lemma NoMatchHere(p: string, c: char, t: string)
    requires AllDigits(p) && !IsDigit(c) && c != '.' && !WeekOrDay(c)
    ensures MatchLength(p + [c] + t) == 0
  {
    DigitsThen(p, [c] + t);
    assert p + [c] + t == p + ([c] + t);
  }

  lemma DigitsPass(p: string, c: char)
    requires AllDigits(p) && !IsDigit(c) && c != '.' && !WeekOrDay(c)
    ensures Passed(p + [c])
  {
    forall t ensures PassedBefore(Scan, p + [c], t) {
      DigitsPassBefore(Scan, p, c, t);
    }
  }

  // A number of weeks or days is taken out.
  lemma ScanTakes(p: string, c: char, t: string)
    requires p != "" && AllDigits(p) && WeekOrDay(c)
    ensures FindAll(p + [c] + t) == [Match(p, c)] + FindAll(t) && RemoveAll(p + [c] + t) == RemoveAll(t)
  {
    var s := p + [c] + t;
    assert s == p + ([c] + t);
    DigitsThen(p, [c] + t);
    assert MatchLength(s) == |p| + 1;
    assert s[..|p|] == p && s[|p| + 1..] == t;
  }

  // Units the week and day scanner passes over.
  predicate Small(units: seq<Unit>) {
    Positive(units) && forall i :: 0 <= i < |units| ==> IsSymbol(units[i].sym)
  }

  predicate IsSymbol(sym: string) {
    forall k :: 0 <= k < |sym| ==> !IsDigit(sym[k]) && sym[k] != '.' && !WeekOrDay(sym[k])
  }

  // ... so what is printed in small units is passed over.
  lemma {:induction false} SymbolPasses(sym: string)
    requires IsSymbol(sym)
    ensures Passed(sym)
  {
    if sym == "" {
      NothingIsPassed();
    } else {
      DigitsPass("", sym[0]);
      SymbolPasses(sym[1..]);
      PassedTogether(Scan, "" + [sym[0]], sym[1..]);
      assert "" + [sym[0]] + sym[1..] == sym;
    }
  }

  lemma PartPasses(p: string, sym: string)
    requires AllDigits(p) && IsSymbol(sym) && sym != ""
    ensures Passed(p + sym)
  {
    DigitsPass(p, sym[0]);
    SymbolPasses(sym[1..]);
    PassedTogether(Scan, p + [sym[0]], sym[1..]);
    assert p + [sym[0]] + sym[1..] == p + sym;
  }

  lemma {:induction false} SmallPartsPass(r: int, units: seq<Unit>)
    requires Small(units)
    ensures Passed(Parts(r, units))
  {
    if units == [] {
      NothingIsPassed();
    } else if r < units[0].size {
      SmallPartsPass(r, units[1..]);
    } else {
      PartPasses(NatString(r / units[0].size), units[0].sym);
      SmallPartsPass(r % units[0].size, units[1..]);
      PassedTogether(Scan, NatString(r / units[0].size) + units[0].sym, Parts(r % units[0].size, units[1..]));
    }
  }

  // ------------------------------------------------------------ reading it back

  lemma {:induction false} UnitThen(sym: string, t: string)
    requires IsSymbol(sym) || sym == "d" || sym == "w"
    requires t == "" || IsDigit(t[0])
    ensures UnitLength(sym + t) == |sym|
  {
    if sym == "" {
      assert sym + t == t;
    } else {
      assert (sym + t)[1..] == sym[1..] + t;
      UnitThen(sym[1..], t);
    }
  }

  lemma TimesFits(n: nat, unit: nat)
    requires unit > 0 && n * unit <= MAX_DURATION
    ensures n <= TWO_63 / unit && n <= TWO_63
  {
    assert n * unit / unit == n;
    if n > TWO_63 / unit {
      Arithmetic.MulGap(TWO_63 / unit, n, unit);
    }
    Arithmetic.MulMonotone(1, unit, n);
    assert unit * n == n * unit;
  }

  lemma WholeIsLeading(p: string, after: string)
    requires AllDigits(p) && after != "" && !IsDigit(after[0]) && after[0] != '.'
    ensures LeadingNumber(p + after) == Num(p, "", after)
  {
    DigitsThen(p, after);
    assert (p + after)[|p|..] == after;
  }

  lemma FractionIsLeading(p: string, frac: string, after: string)
    requires AllDigits(p) && AllDigits(frac) && after != "" && !IsDigit(after[0])
    ensures LeadingNumber(p + ("." + (frac + after))) == Num(p, frac, after)
  {
    var behind := frac + after;
    DigitsThen(p, "." + behind);
    assert (p + ("." + behind))[|p|..] == "." + behind;
    assert ("." + behind)[1..] == behind;
    DigitsThen(frac, after);
  }

  lemma WholeTerm(p: string, frac: string, scale: nat, sym: string, t: string, unit: nat)
    requires AllDigits(p) && p != "" && AllDigits(frac) && Fraction(frac, 0, 1) == (0, scale)
    requires UnitLength(sym + t) == |sym| && UnitSize(sym) == unit > 0
    requires Decimal(p) * unit <= MAX_DURATION
    ensures 0 <= Decimal(p) * unit
    ensures TermFrom(Num(p, frac, sym + t)) == Term(Decimal(p) * unit, t)
  {
    assert (sym + t)[..|sym|] == sym && (sym + t)[|sym|..] == t;
    Arithmetic.MulMonotone(0, Decimal(p), unit);
    TimesFits(Decimal(p), unit);
    assert 0 * unit / scale == 0;
  }

  lemma TermIsSummed(read: TermReader, s: string, v: nat, rest: string, d: nat)
    requires Shrinks(read) && read(s) == Term(v, rest) && d + v <= MAX_DURATION
    ensures SumTerms(read, s, d) == SumTerms(read, rest, d + v)
  {
    assert (d + v) % (2 * TWO_63) == d + v;
  }

  // Text that is one number with its unit, whatever number follows.
  predicate ReadBefore(read: TermReader, term: string, v: nat, t: string) {
    read(term + t) == Term(v, t)
  }

  ghost predicate ReadsAs(read: TermReader, term: string, v: nat) {
    forall t :: (t == "" || IsDigit(t[0])) ==> ReadBefore(read, term, v, t)
  }

  lemma NumberIsRead(p: string, sym: string, unit: nat)
    requires AllDigits(p) && p != "" && IsSymbol(sym) && sym != "" && UnitSize(sym) == unit > 0
    requires Decimal(p) * unit <= MAX_DURATION
    ensures Decimal(p) * unit >= 0 && ReadsAs(FirstTerm, p + sym, Decimal(p) * unit)
  {
    Arithmetic.MulMonotone(0, Decimal(p), unit);
    forall t | t == "" || IsDigit(t[0]) ensures ReadBefore(FirstTerm, p + sym, Decimal(p) * unit, t) {
      assert p + sym + t == p + (sym + t);
      UnitThen(sym, t);
      WholeIsLeading(p, sym + t);
      WholeTerm(p, "", 1, sym, t, unit);
    }
  }

  // Every number of a unit is read as what it stands for.
  ghost predicate UnitRead(read: TermReader, u: Unit) {
    forall n: nat :: n * u.size <= MAX_DURATION ==> ReadsAs(read, NatString(n) + u.sym, n * u.size)
  }

  ghost predicate UnitsRead(read: TermReader, units: seq<Unit>) {
    forall u :: u in units ==> UnitRead(read, u)
  }

  lemma UnitIsRead(u: Unit)
    requires IsSymbol(u.sym) && u.sym != "" && UnitSize(u.sym) == u.size > 0
    ensures UnitRead(FirstTerm, u)
  {
    forall n: nat | n * u.size <= MAX_DURATION ensures ReadsAs(FirstTerm, NatString(n) + u.sym, n * u.size) {
      DecimalOfNatString(n);
      NumberIsRead(NatString(n), u.sym, u.size);
    }
  }

  lemma SmallUnitsRead(units: seq<Unit>)
    requires Small(units) && forall u :: u in units ==> UnitSize(u.sym) == u.size
    ensures UnitsRead(FirstTerm, units)
  {
    forall u | u in units ensures UnitRead(FirstTerm, u) {
      var i :| 0 <= i < |units| && units[i] == u;
      UnitIsRead(units[i]);
    }
  }

  lemma PartsStartWithDigit(r: int, units: seq<Unit>)
    requires Positive(units)
    ensures var s := Parts(r, units); s == "" || IsDigit(s[0])
  {
    if units != [] && r < units[0].size { PartsStartWithDigit(r, units[1..]); }
  }

  lemma Quotient(r: nat, size: nat)
    requires size > 0
    ensures r == r / size * size + r % size && r / size >= 0
    ensures if r < size then r / size == 0 && r % size == r else r / size > 0
  {
    assert r == r / size * size + r % size;
    if r < size {
      Arithmetic.DivMod(r, 0, r, size);
    } else if r / size <= 0 {
      Arithmetic.MulMonotone(r / size, 0, size);
    }
  }

  lemma TermThen(read: TermReader, term: string, v: nat, t: string, d: nat)
    requires Shrinks(read) && ReadsAs(read, term, v) && (t == "" || IsDigit(t[0])) && d + v <= MAX_DURATION
    ensures SumTerms(read, term + t, d) == SumTerms(read, t, d + v)
  {
    assert ReadBefore(read, term, v, t);
    TermIsSummed(read, term + t, v, t, d);
  }

  // The parts of a duration add up to it.
  lemma {:induction false} PartsAddUp(read: TermReader, r: nat, units: seq<Unit>, d: nat)
    requires Shrinks(read) && Positive(units) && UnitsRead(read, units)
    requires units != [] && units[|units| - 1].size == 1 && d + r <= MAX_DURATION
    ensures SumTerms(read, Parts(r, units), d) == Ok(d + r)
  {
    var size, rest := units[0].size, units[1..];
    Quotient(r, size);
    if r < size {
      if rest != [] { PartsAddUp(read, r, rest, d); }
    } else {
      var v, left := r / size * size, r % size;
      assert units[0] in units;
      PartsStartWithDigit(left, rest);
      TermThen(read, NatString(r / size) + units[0].sym, v, Parts(left, rest), d);
      if rest != [] { PartsAddUp(read, left, rest, d + v); }
    }
  }

  lemma ZerosAreNoFraction()
    ensures Fraction("000000", 0, 1) == (0, 1_000_000)
  {
    assert Fraction("000000", 0, 1) == Fraction("00000", 0, 10) == Fraction("0000", 0, 100);
    assert Fraction("0000", 0, 100) == Fraction("000", 0, 1_000) == Fraction("00", 0, 10_000);
    assert Fraction("00", 0, 10_000) == Fraction("0", 0, 100_000) == Fraction("", 0, 1_000_000);
  }

  lemma WholeIsNotRounded(x: real, n: nat)
    requires x == n as real
    ensures RoundHalfEven(x) == n
  {
    assert x.Floor == n;
  }

  lemma Scaled(h: nat)
    ensures h as real * 1_000_000.0 == (h * 1_000_000) as real
  {
  }

  lemma SixZeros()
    ensures SixDigits(0) == "000000"
  {
  }

  lemma WholePrinted(h: nat)
    ensures PrintMillionths(h * 1_000_000) == NatString(h) + "." + "000000"
  {
    Arithmetic.DivMod(h * 1_000_000, h, 0, 1_000_000);
    SixZeros();
  }

  lemma FixedIsMillionths(x: real, n: nat)
    requires x >= 0.0 && RoundHalfEven(x * 1_000_000.0) == n
    ensures FixedPoint(x) == PrintMillionths(n)
  {
  }

  lemma WholeHoursPrinted(h: nat)
    ensures FixedPoint(h as real) == NatString(h) + "." + "000000"
  {
    Scaled(h);
    WholeIsNotRounded(h as real * 1_000_000.0, h * 1_000_000);
    FixedIsMillionths(h as real, h * 1_000_000);
    WholePrinted(h);
  }

  // A whole number of hours printed by %f is read as those hours.
  ghost predicate HoursRead(read: TermReader) {
    forall h: nat :: h * HOUR <= MAX_DURATION ==> ReadsAs(read, FixedPoint(h as real) + "h", h * HOUR)
  }

  lemma HoursAreRead()
    ensures HoursRead(FirstTerm)
  {
    forall h: nat | h * HOUR <= MAX_DURATION ensures ReadsAs(FirstTerm, FixedPoint(h as real) + "h", h * HOUR) {
      HoursTerm(h);
    }
  }

  lemma HoursTerm(h: nat)
    requires h * HOUR <= MAX_DURATION
    ensures ReadsAs(FirstTerm, FixedPoint(h as real) + "h", h * HOUR)
  {
    WholeHoursPrinted(h);
    DecimalOfNatString(h);
    ZerosAreNoFraction();
    Symbols();
    PointRead(NatString(h), "000000", 1_000_000, "h", HOUR);
  }

  lemma Rebracket(p: string, point: string, frac: string, sym: string, t: string)
    ensures p + point + frac + sym + t == p + (point + (frac + (sym + t)))
  {
  }

  lemma PointRead(p: string, frac: string, scale: nat, sym: string, unit: nat)
    requires AllDigits(p) && p != "" && AllDigits(frac) && Fraction(frac, 0, 1) == (0, scale)
    requires IsSymbol(sym) && sym != "" && UnitSize(sym) == unit > 0 && Decimal(p) * unit <= MAX_DURATION
    ensures Decimal(p) * unit >= 0 && ReadsAs(FirstTerm, p + "." + frac + sym, Decimal(p) * unit)
  {
    Arithmetic.MulMonotone(0, Decimal(p), unit);
    forall t | t == "" || IsDigit(t[0]) ensures ReadBefore(FirstTerm, p + "." + frac + sym, Decimal(p) * unit, t) {
      Rebracket(p, ".", frac, sym, t);
      PointTerm(p, frac, scale, sym, unit, t);
    }
  }

  lemma PointTerm(p: string, frac: string, scale: nat, sym: string, unit: nat, t: string)
    requires AllDigits(p) && p != "" && AllDigits(frac) && Fraction(frac, 0, 1) == (0, scale)
    requires IsSymbol(sym) && sym != "" && UnitSize(sym) == unit > 0 && Decimal(p) * unit <= MAX_DURATION
    requires t == "" || IsDigit(t[0])
    ensures Decimal(p) * unit >= 0
    ensures FirstTerm(p + ("." + (frac + (sym + t)))) == Term(Decimal(p) * unit, t)
  {
    UnitThen(sym, t);
    FractionIsLeading(p, frac, sym + t);
    WholeTerm(p, frac, scale, sym, t, unit);
  }

  // ------------------------------------------------------------------ round trip

  lemma SmallUnitsAreSmall()
    ensures Small(SMALL_UNITS) && forall u :: u in SMALL_UNITS ==> UnitSize(u.sym) == u.size
  {
    Symbols();
  }

  lemma Symbols()
    ensures IsSymbol("h") && IsSymbol("m") && IsSymbol("s") && IsSymbol("ms") && IsSymbol("\U{B5}s") && IsSymbol("ns")
    ensures UnitSize("h") == HOUR && UnitSize("m") == MINUTE && UnitSize("s") == SECOND
    ensures UnitSize("ms") == MILLISECOND && UnitSize("\U{B5}s") == MICROSECOND && UnitSize("ns") == NANOSECOND
  {
  }

  // The text and the match of a count of weeks or days.
  function Count(n: nat, c: char): string {
    if n > 0 then NatString(n) + [c] else ""
  }

  function Counted(n: nat, c: char): seq<Match> {
    if n > 0 then [Match(NatString(n), c)] else []
  }

  lemma CountIsScanned(n: nat, c: char, t: string)
    requires WeekOrDay(c)
    ensures FindAll(Count(n, c) + t) == Counted(n, c) + FindAll(t) && RemoveAll(Count(n, c) + t) == RemoveAll(t)
  {
    if n > 0 {
      ScanTakes(NatString(n), c, t);
    } else {
      assert "" + t == t;
    }
  }

  lemma PartsSplit(r: nat, units: seq<Unit>, c: char)
    requires Positive(units) && units != [] && units[0].sym == [c]
    ensures Parts(r, units) == Count(r / units[0].size, c) + Parts(r % units[0].size, units[1..])
  {
    Quotient(r, units[0].size);
    assert "" + Parts(r, units[1..]) == Parts(r, units[1..]);
  }

  lemma FormatSplits(d: Duration)
    requires d > 0
    ensures Format(d) == Count(d / WEEK, 'w') + (Count(d % WEEK / DAY, 'd') + Parts(d % WEEK % DAY, SMALL_UNITS))
  {
    var afterWeeks := UNITS[1..];
    assert afterWeeks == [Unit(DAY, "d")] + SMALL_UNITS;
    assert afterWeeks[1..] == SMALL_UNITS;
    PartsSplit(d, UNITS, 'w');
    PartsSplit(d % WEEK, afterWeeks, 'd');
  }

  lemma WeeksDaysRest(w: nat, d: nat, rest: string)
    requires Passed(rest)
    ensures var s := Count(w, 'w') + (Count(d, 'd') + rest);
      FindAll(s) == Counted(w, 'w') + Counted(d, 'd') && RemoveAll(s) == rest
  {
    assert PassedBefore(Scan, rest, "");
    assert rest + "" == rest;
    CountIsScanned(d, 'd', rest);
    CountIsScanned(w, 'w', Count(d, 'd') + rest);
  }

  lemma CountedHours(w: nat, d: nat)
    ensures Hours(Counted(w, 'w') + Counted(d, 'd')) == (168 * w + 24 * d) as real
    ensures !Disordered(Counted(w, 'w') + Counted(d, 'd'))
  {
    NumberOf(w);
    NumberOf(d);
    var weeks, days := Counted(w, 'w'), Counted(d, 'd');
    var all := weeks + days;
    assert weeks + [] == weeks && weeks[..0] == [];
    if d > 0 { assert all[..|all| - 1] == weeks; }
    assert Hours(weeks) == 168.0 * w as real;
  }

  lemma NumberOf(n: nat)
    ensures IsNumber(NatString(n)) && Number(NatString(n)) == n as real
  {
    var p := NatString(n);
    DigitsThen(p, "");
    assert p + "" == p && p[..|p|] == p;
    DecimalOfNatString(n);
  }

  lemma ScannedParse(read: TermReader, s: string, matches: seq<Match>, rest: string, hours: real)
    requires Shrinks(read) && s != "" && FindAll(s) == matches && RemoveAll(s) == rest
    requires !Disordered(matches) && hours == Hours(matches)
    ensures ParseWith(read, s) == SumTerms(read, FixedPoint(hours) + "h" + rest, 0)
  {
  }

  lemma SomethingIsPrinted(w: nat, d: nat, r: nat)
    requires w > 0 || d > 0 || r > 0
    ensures Count(w, 'w') + (Count(d, 'd') + Parts(r, SMALL_UNITS)) != ""
  {
    if w == 0 && d == 0 { PartIsPrinted(r, SMALL_UNITS); }
  }

  lemma PartIsPrinted(r: nat, units: seq<Unit>)
    requires Positive(units) && r > 0 && units != [] && units[|units| - 1].size == 1
    ensures Parts(r, units) != ""
  {
    if r < units[0].size { PartIsPrinted(r, units[1..]); }
  }

  lemma TermThenParts(read: TermReader, term: string, v: nat, r: nat, units: seq<Unit>)
    requires Shrinks(read) && Positive(units) && UnitsRead(read, units)
    requires units != [] && units[|units| - 1].size == 1 && v + r <= MAX_DURATION
    requires ReadsAs(read, term, v)
    ensures SumTerms(read, term + Parts(r, units), 0) == Ok(v + r)
  {
    PartsStartWithDigit(r, units);
    TermThen(read, term, v, Parts(r, units), 0);
    PartsAddUp(read, r, units, v);
  }

  // What is printed of w weeks, some days and the rest.
  function Printed(w: nat, days: nat, r: nat): string {
    Count(w, 'w') + (Count(days, 'd') + Parts(r, SMALL_UNITS))
  }

  lemma PrintedIsScanned(s: string, w: nat, days: nat, r: nat)
    requires s == Printed(w, days, r) && (w > 0 || days > 0 || r > 0)
    ensures s != "" && FindAll(s) == Counted(w, 'w') + Counted(days, 'd') && RemoveAll(s) == Parts(r, SMALL_UNITS)
  {
    SomethingIsPrinted(w, days, r);
    SmallUnitsAreSmall();
    SmallPartsPass(r, SMALL_UNITS);
    WeeksDaysRest(w, days, Parts(r, SMALL_UNITS));
  }

  // What the parser hands on for it.
  function HoursFirst(hours: nat, r: nat): string {
    FixedPoint(hours as real) + "h" + Parts(r, SMALL_UNITS)
  }

  lemma CountedIsParsed(read: TermReader, s: string, matches: seq<Match>, r: nat, hours: nat)
    requires Shrinks(read) && s != "" && FindAll(s) == matches && RemoveAll(s) == Parts(r, SMALL_UNITS)
    requires !Disordered(matches) && Hours(matches) == hours as real
    ensures ParseWith(read, s) == SumTerms(read, HoursFirst(hours, r), 0)
  {
    ScannedParse(read, s, matches, Parts(r, SMALL_UNITS), hours as real);
  }

  lemma SmallestUnit()
    ensures Positive(SMALL_UNITS) && SMALL_UNITS != [] && SMALL_UNITS[|SMALL_UNITS| - 1].size == 1
  {
  }

  lemma HoursThenRest(read: TermReader, hours: nat, r: nat)
    requires Shrinks(read) && HoursRead(read) && UnitsRead(read, SMALL_UNITS) && hours * HOUR + r <= MAX_DURATION
    ensures SumTerms(read, HoursFirst(hours, r), 0) == Ok(hours * HOUR + r)
  {
    SmallestUnit();
    var first := FixedPoint(hours as real) + "h";
    assert ReadsAs(read, first, hours * HOUR);
    TermThenParts(read, first, hours * HOUR, r, SMALL_UNITS);
  }

  lemma WeeksDaysAndRest(d: nat)
    ensures var w, days, r := d / WEEK, d % WEEK / DAY, d % WEEK % DAY; (168 * w + 24 * days) * HOUR + r == d
  {
  }

  lemma PrintedIsParsed(read: TermReader, s: string, w: nat, days: nat, r: nat, hours: nat)
    requires Shrinks(read) && HoursRead(read) && UnitsRead(read, SMALL_UNITS)
    requires s == Printed(w, days, r) && hours == 168 * w + 24 * days && 0 < hours * HOUR + r <= MAX_DURATION
    ensures ParseWith(read, s) == Ok(hours * HOUR + r)
  {
    PrintedIsScanned(s, w, days, r);
    CountedHours(w, days);
    CountedIsParsed(read, s, Counted(w, 'w') + Counted(days, 'd'), r, hours);
    HoursThenRest(read, hours, r);
  }

  lemma PositiveRoundTrip(read: TermReader, d: Duration)
    requires Shrinks(read) && HoursRead(read) && UnitsRead(read, SMALL_UNITS) && 0 < d <= MAX_DURATION
    ensures ParseWith(read, Format(d)) == Ok(d)
  {
    var w, days, r := d / WEEK, d % WEEK / DAY, d % WEEK % DAY;
    WeeksDaysAndRest(d);
    FormatSplits(d);
    PrintedIsParsed(read, Format(d), w, days, r, 168 * w + 24 * days);
  }

  lemma ZeroIsScanned()
    ensures FindAll("0s") == [] && RemoveAll("0s") == "0s"
  {
    Symbols();
    PartPasses("0", "s");
    assert PassedBefore(Scan, "0" + "s", "");
    assert "0" + "s" + "" == "0s" && "0s" + "" == "0s";
  }

  lemma ZeroRoundTrip(read: TermReader)
    requires Shrinks(read) && HoursRead(read) && UnitsRead(read, SMALL_UNITS)
    ensures ParseWith(read, Format(0)) == Ok(0)
  {
    var s, first := "0s", FixedPoint(0 as real) + "h";
    ZeroIsScanned();
    ScannedParse(read, s, [], s, 0 as real);
    assert ReadsAs(read, first, 0 * HOUR);
    assert SMALL_UNITS[2] in SMALL_UNITS && ReadsAs(read, NatString(0) + "s", 0 * SECOND);
    assert NatString(0) + "s" == s;
    ZeroThenZero(read, first, s);
  }

  lemma ZeroThenZero(read: TermReader, first: string, second: string)
    requires Shrinks(read) && ReadsAs(read, first, 0) && ReadsAs(read, second, 0)
    requires second != "" && IsDigit(second[0])
    ensures SumTerms(read, first + second, 0) == Ok(0)
  {
    TermThen(read, first, 0, second, 0);
    assert second + "" == second;
    TermThen(read, second, 0, "", 0);
  }

  // Printing a duration and reading it back gives the duration.
  lemma RoundTrip(d: Duration)
    requires 0 <= d <= MAX_DURATION
    ensures Parse(Format(d)) == Ok(d)
  {
    HoursAreRead();
    SmallUnitsAreSmall();
    SmallUnitsRead(SMALL_UNITS);
    if d == 0 {
      ZeroRoundTrip(FirstTerm);
    } else {
      PositiveRoundTrip(FirstTerm, d);
    }
  }

  lemma NegativePrintsNothing(d: int, units: seq<Unit>)
    requires d < 0 && Positive(units)
    ensures Parts(d, units) == ""
  {
    if units != [] { NegativePrintsNothing(d, units[1..]); }
  }

  // The duration comes back exactly when it is not negative: a negative one
  // prints as the empty string.
  lemma RoundTripExactly(d: Duration)
    requires InRange(d)
    ensures Parse(Format(d)) == Ok(d) <==> d >= 0
  {
    if d >= 0 {
      RoundTrip(d);
    } else {
      NegativePrintsNothing(d, UNITS);
    }
  }

  // Different durations print differently.
  lemma PrintedOnce(d: Duration, e: Duration)
    requires 0 <= d <= MAX_DURATION && 0 <= e <= MAX_DURATION && Format(d) == Format(e)
    ensures d == e
  {
    RoundTrip(d);
    RoundTrip(e);
  }

  // The order of units is enforced only between weeks and days: days and weeks
  // behind smaller units mean the same as in front of them.
  lemma DaysMayComeLast(n: nat, c: char, r: nat)
    requires WeekOrDay(c)
    ensures Parse(Parts(r, SMALL_UNITS) + (NatString(n) + [c])) == Parse(NatString(n) + [c] + Parts(r, SMALL_UNITS))
  {
    SmallUnitsAreSmall();
    SmallPartsPass(r, SMALL_UNITS);
    var small := Parts(r, SMALL_UNITS);
    var p := NatString(n);
    assert PassedBefore(Scan, small, "") && PassedBefore(Scan, small, p + [c]);
    assert small + "" == small;
    ScanTakes(p, c, small);
    ScanTakes(p, c, "");
    assert p + [c] + "" == p + [c];
  }

  // ------------------------------------------------------------ fractions of days

  lemma {:induction false} DecimalJoin(p: string, q: string)
    requires AllDigits(p) && AllDigits(q)
    ensures AllDigits(p + q) && Decimal(p + q) == Decimal(p) * Power10(|q|) + Decimal(q)
  {
    var n := |q| - 1;
    if q == "" {
      assert p + q == p;
    } else {
      assert (p + q)[..|p| + n] == p + q[..n] && (p + q)[|p| + n] == q[n] && IsDigit(q[n]);
      DecimalJoin(p, q[..n]);
      NextPlace(Decimal(p), Power10(n), Decimal(q[..n]), q[n] as int - '0' as int);
    }
  }

  lemma NextPlace(a: nat, t: nat, b: nat, d: int)
    ensures 10 * (a * t + b) + d == a * (10 * t) + (10 * b + d)
  {
  }

  lemma PointIsCounted(p: string, q: string)
    requires AllDigits(p) && AllDigits(q)
    ensures var s := p + "." + q;
      DigitCount(s) == |p| && s[..|p|] == p && s[|p|] == '.' && s[|p| + 1..] == q && IsNumber(s)
  {
    DigitsThen(p, "." + q);
    assert p + "." + q == p + ("." + q);
  }

  lemma NumberAt(s: string, p: string, q: string)
    requires AllDigits(p) && AllDigits(q) && IsNumber(s) && DigitCount(s) == |p| < |s|
    requires s[..|p|] == p && s[|p| + 1..] == q
    ensures Number(s) == Decimal(p) as real + Decimal(q) as real / Power10(|q|) as real
  {
    assert |s| - |p| - 1 == |q|;
  }

  // x is n divided by scale.
  predicate IsQuotient(x: real, n: nat, scale: nat) {
    x * scale as real == n as real
  }

  lemma Unscaled(x: real, a: nat, b: nat, n: nat, scale: nat)
    requires scale >= 1 && x == a as real + b as real / scale as real && n == a * scale + b
    ensures IsQuotient(x, n, scale)
  {
    var t := scale as real;
    assert (b as real / t) * t == b as real;
    assert (a * scale) as real == a as real * t;
  }

  // The number with a point is the number without it, divided by ten to the digits
  // behind it.
  lemma FractionIsRead(p: string, q: string)
    requires AllDigits(p) && AllDigits(q) && AllDigits(p + q) && IsNumber(p + "." + q)
    ensures IsQuotient(Number(p + "." + q), Decimal(p + q), Power10(|q|))
  {
    PointIsCounted(p, q);
    NumberAt(p + "." + q, p, q);
    DecimalJoin(p, q);
    Unscaled(Number(p + "." + q), Decimal(p), Decimal(q), Decimal(p + q), Power10(|q|));
  }

  lemma PointLength(s: string, p: string, q: string, unit: char)
    requires AllDigits(p) && AllDigits(q) && q != "" && WeekOrDay(unit) && s == p + "." + q + [unit]
    ensures MatchLength(s) == |s| && s[..|s| - 1] == p + "." + q && s[|s| - 1] == unit
  {
    assert s == p + ("." + q + [unit]);
    DigitsThen(p, "." + q + [unit]);
    DigitsThen(q, [unit]);
    assert s[|p|] == '.' && s[|p| + 1..] == q + [unit];
  }

  lemma OneMatch(s: string)
    requires MatchLength(s) == |s| > 0
    ensures |FindAll(s)| == 1 && FindAll(s)[0] == Match(s[..|s| - 1], s[|s| - 1])
    ensures RemoveAll(s) == "" && !Disordered(FindAll(s))
  {
    assert s[|s|..] == "" && MatchLength("") == 0 && FindAll("") == [] && RemoveAll("") == "";
  }

  lemma OneMatchParses(read: TermReader, s: string, m: Match, h: nat)
    requires Shrinks(read) && HoursRead(read) && UnitsRead(read, SMALL_UNITS)
    requires s != "" && FindAll(s) == [m] && RemoveAll(s) == "" && IsNumber(m.value) && WeekOrDay(m.unit)
    requires Hours([m]) == h as real && !Disordered([m]) && h * HOUR <= MAX_DURATION
    ensures ParseWith(read, s) == Ok(h * HOUR)
  {
    NoParts();
    CountedIsParsed(read, s, [m], 0, h);
    HoursThenRest(read, h, 0);
  }

  // The hours of a day or a week.
  function HoursEach(unit: char): nat {
    if unit == 'w' then 168 else 24
  }

  predicate IsProduct(x: real, y: real, n: nat) {
    x == y * n as real
  }

  // n days or weeks, divided by scale, come to h whole hours.
  predicate ComesTo(n: nat, unit: char, scale: nat, h: nat) {
    n * HoursEach(unit) == h * scale
  }

  lemma OneHours(m: Match)
    requires IsNumber(m.value) && WeekOrDay(m.unit)
    ensures IsProduct(Hours([m]), Number(m.value), HoursEach(m.unit)) && !Disordered([m])
  {
    assert [m][..0] == [] && Hours([]) == 0.0;
    var x := Number(m.value);
    assert x * 7.0 * 24.0 == x * 168.0;
  }

  lemma WholeHours(hours: real, x: real, n: nat, scale: nat, unit: char, h: nat)
    requires scale >= 1 && IsProduct(hours, x, HoursEach(unit)) && IsQuotient(x, n, scale) && ComesTo(n, unit, scale, h)
    ensures hours == h as real
  {
    var s, each := scale as real, HoursEach(unit);
    assert hours * s == (x * s) * each as real == n as real * each as real == (n * each) as real;
    assert (n * each) as real == (h * scale) as real == h as real * s;
    assert (hours - h as real) * s == 0.0;
  }

  lemma FractionHours(p: string, q: string, unit: char, h: nat)
    requires AllDigits(p) && AllDigits(q) && AllDigits(p + q) && WeekOrDay(unit) && IsNumber(p + "." + q)
    requires ComesTo(Decimal(p + q), unit, Power10(|q|), h)
    ensures Hours([Match(p + "." + q, unit)]) == h as real && !Disordered([Match(p + "." + q, unit)])
  {
    var m := Match(p + "." + q, unit);
    FractionIsRead(p, q);
    OneHours(m);
    WholeHours(Hours([m]), Number(m.value), Decimal(p + q), Power10(|q|), unit, h);
  }

  // A fraction of days or weeks that comes to whole hours is parsed as those hours.
  lemma FractionParses(p: string, q: string, unit: char, h: nat)
    requires AllDigits(p) && AllDigits(q) && AllDigits(p + q) && q != "" && WeekOrDay(unit)
    requires ComesTo(Decimal(p + q), unit, Power10(|q|), h) && h * HOUR <= MAX_DURATION
    ensures Parse(p + "." + q + [unit]) == Ok(h * HOUR)
  {
    var s, m := p + "." + q + [unit], Match(p + "." + q, unit);
    PointLength(s, p, q, unit);
    OneMatch(s);
    PointIsCounted(p, q);
    FractionHours(p, q, unit, h);
    assert FindAll(s) == [m];
    HoursAreRead();
    SmallUnitsAreSmall();
    SmallUnitsRead(SMALL_UNITS);
    OneMatchParses(FirstTerm, s, m, h);
  }

  lemma NoParts()
    ensures Parts(0, SMALL_UNITS) == ""
  {
    SmallPartsOfZero(SMALL_UNITS);
  }

  lemma {:induction false} SmallPartsOfZero(units: seq<Unit>)
    requires Positive(units)
    ensures Parts(0, units) == ""
  {
    if units != [] { SmallPartsOfZero(units[1..]); }
  }

  // -------------------------------------------------------- fractions of small units

  // Printing to six places rounds to the nearest millionth, and a tie to the even one.
  lemma RoundIsNearest(x: real)
    requires x >= 0.0
    ensures var r := RoundHalfEven(x);
            && r as real - 0.5 <= x <= r as real + 0.5
            && (x == r as real - 0.5 || x == r as real + 0.5 ==> r % 2 == 0)
  {
  }

  // The units the library knows.
  lemma UnitsExactly(u: string)
    ensures UnitSize("h") == 3600 * UnitSize("s") && UnitSize("m") == 60 * UnitSize("s")
    ensures UnitSize("s") == 1000 * UnitSize("ms") == 1_000_000 * UnitSize("us") == 1_000_000_000 * UnitSize("ns")
    ensures UnitSize("us") == UnitSize("\U{B5}s") == UnitSize("\U{3BC}s") && UnitSize("ns") == 1
    ensures UnitSize(u) > 0 ==> u in {"h", "m", "s", "ms", "us", "\U{B5}s", "\U{3BC}s", "ns"}
  {
  }

  lemma OneDigit(d: nat)
    requires d < 10
    ensures AllDigits([Digit(d)]) && Decimal([Digit(d)]) == d
  {
    assert [Digit(d)][..0] == "";
  }

  lemma NextDigit(s: string, d: nat)
    requires AllDigits(s) && d < 10
    ensures AllDigits(s + [Digit(d)]) && Decimal(s + [Digit(d)]) == 10 * Decimal(s) + d
  {
    assert (s + [Digit(d)])[..|s|] == s;
  }

  lemma SixRead(a: nat, b: nat, c: nat, d: nat, e: nat, f: nat)
    requires a < 10 && b < 10 && c < 10 && d < 10 && e < 10 && f < 10
    ensures var s := [Digit(a), Digit(b), Digit(c), Digit(d), Digit(e), Digit(f)];
      AllDigits(s) && Decimal(s) == 10 * (10 * (10 * (10 * (10 * a + b) + c) + d) + e) + f
  {
    OneDigit(a);
    NextDigit([Digit(a)], b);
    NextDigit([Digit(a), Digit(b)], c);
    NextDigit([Digit(a), Digit(b), Digit(c)], d);
    NextDigit([Digit(a), Digit(b), Digit(c), Digit(d)], e);
    NextDigit([Digit(a), Digit(b), Digit(c), Digit(d), Digit(e)], f);
    assert [Digit(a)] + [Digit(b)] == [Digit(a), Digit(b)];
    assert [Digit(a), Digit(b)] + [Digit(c)] == [Digit(a), Digit(b), Digit(c)];
    assert [Digit(a), Digit(b), Digit(c)] + [Digit(d)] == [Digit(a), Digit(b), Digit(c), Digit(d)];
    assert [Digit(a), Digit(b), Digit(c), Digit(d)] + [Digit(e)] == [Digit(a), Digit(b), Digit(c), Digit(d), Digit(e)];
    assert [Digit(a), Digit(b), Digit(c), Digit(d), Digit(e)] + [Digit(f)]
        == [Digit(a), Digit(b), Digit(c), Digit(d), Digit(e), Digit(f)];
  }

  lemma Places(n: nat)
    ensures n == 10 * (n / 10) + n % 10
    ensures n / 10 == 10 * (n / 100) + n / 10 % 10
    ensures n / 100 == 10 * (n / 1_000) + n / 100 % 10
    ensures n / 1_000 == 10 * (n / 10_000) + n / 1_000 % 10
    ensures n / 10_000 == 10 * (n / 100_000) + n / 10_000 % 10
  {
  }

  // Six places hold a number of millionths.
  lemma SixDigitsRead(n: nat)
    requires n < 1_000_000
    ensures AllDigits(SixDigits(n)) && Decimal(SixDigits(n)) == n && |SixDigits(n)| == 6
  {
    Places(n);
    SixRead(n / 100_000, n / 10_000 % 10, n / 1_000 % 10, n / 100 % 10, n / 10 % 10, n % 10);
  }

  lemma HeadDigit(digits: string)
    requires AllDigits(digits) && digits != ""
    ensures IsDigit(digits[0]) && AllDigits(digits[1..])
    ensures Decimal(digits) == (digits[0] as int - '0' as int) * Power10(|digits| - 1) + Decimal(digits[1..])
  {
    assert IsDigit(digits[0]);
    assert digits == [digits[0]] + digits[1..];
    OneDigit(digits[0] as int - '0' as int);
    assert [Digit(digits[0] as int - '0' as int)] == [digits[0]];
    DecimalJoin([digits[0]], digits[1..]);
  }

  // f times ten to the digits, and the digits added.
  predicate Appended(f: nat, scale: nat, digits: string, r: (nat, nat))
    requires AllDigits(digits)
  {
    r.0 == f * Power10(|digits|) + Decimal(digits) && r.1 == scale * Power10(|digits|)
  }

  lemma OneMorePlace(f: nat, t: nat, d: nat, rest: nat, scale: nat)
    requires t >= 1
    ensures (10 * f + d) * t + rest == f * (10 * t) + (d * t + rest)
    ensures 10 * scale * t == scale * (10 * t)
    ensures f <= f * t && 10 * f + d <= (10 * f + d) * t
  {
    assert (10 * f + d) * t == f * (10 * t) + d * t;
    Arithmetic.MulMonotone(1, t, f);
    Arithmetic.MulMonotone(1, t, 10 * f + d);
    assert t * f == f * t && t * (10 * f + d) == (10 * f + d) * t;
  }

  lemma AppendedNext(f: nat, scale: nat, digits: string, d: nat, r: (nat, nat))
    requires AllDigits(digits) && digits != "" && AllDigits(digits[1..])
    requires d == digits[0] as int - '0' as int && Appended(10 * f + d, 10 * scale, digits[1..], r)
    ensures Appended(f, scale, digits, r)
  {
    HeadDigit(digits);
    OneMorePlace(f, Power10(|digits| - 1), d, Decimal(digits[1..]), scale);
    assert |digits[1..]| == |digits| - 1;
  }

  predicate Fits(f: nat, digits: string)
    requires AllDigits(digits)
  {
    f * Power10(|digits|) + Decimal(digits) <= MAX_DURATION
  }

  lemma StillFits(f: nat, digits: string, d: nat)
    requires AllDigits(digits) && digits != "" && AllDigits(digits[1..]) && Fits(f, digits)
    requires d == digits[0] as int - '0' as int
    ensures f <= MAX_DURATION / 10 && 10 * f + d <= TWO_63 && Fits(10 * f + d, digits[1..])
  {
    HeadDigit(digits);
    OneMorePlace(f, Power10(|digits| - 1), d, Decimal(digits[1..]), 1);
    assert |digits[1..]| == |digits| - 1;
  }

  // Fraction digits that fit are taken as they are.
  lemma {:induction false} FractionIsDecimal(digits: string, f: nat, scale: nat)
    requires AllDigits(digits) && scale > 0 && Fits(f, digits)
    ensures Appended(f, scale, digits, Fraction(digits, f, scale))
  {
    if digits != "" {
      HeadDigit(digits);
      var d: nat := digits[0] as int - '0' as int;
      StillFits(f, digits, d);
      FractionIsDecimal(digits[1..], 10 * f + d, 10 * scale);
      AppendedNext(f, scale, digits, d, Fraction(digits[1..], 10 * f + d, 10 * scale));
    }
  }

  // whole units and part / scale of one, the latter cut off at whole nanoseconds.
  predicate Amounts(v: nat, whole: nat, part: nat, scale: nat, unit: nat)
    requires scale > 0
  {
    v == whole * unit + part * unit / scale
  }

  lemma ValueFits(whole: nat, part: nat, scale: nat, unit: nat, rest: string, v: nat)
    requires scale > 0 && unit > 0 && Amounts(v, whole, part, scale, unit) && v <= MAX_DURATION
    ensures ValueOf(whole, (part, scale), unit, rest) == Term(v, rest)
  {
    Arithmetic.MulMonotone(0, part, unit);
    assert part * unit / scale >= 0;
    TimesFits(whole, unit);
  }

  // Digits with a point in front of a unit are that many units.
  lemma FractionTerm(p: string, q: string, sym: string, unit: nat, t: string, v: nat)
    requires AllDigits(p) && AllDigits(q) && p != "" && (t == "" || IsDigit(t[0]))
    requires IsSymbol(sym) && sym != "" && UnitSize(sym) == unit > 0 && Decimal(q) <= MAX_DURATION
    requires Amounts(v, Decimal(p), Decimal(q), Power10(|q|), unit) && v <= MAX_DURATION
    ensures FirstTerm(p + ("." + (q + (sym + t)))) == Term(v, t)
  {
    UnitThen(sym, t);
    assert sym + t != "" && (sym + t)[0] == sym[0];
    FractionIsLeading(p, q, sym + t);
    TermOfParts(p, q, sym, unit, t, v);
  }

  lemma TermOfParts(p: string, q: string, sym: string, unit: nat, t: string, v: nat)
    requires AllDigits(p) && AllDigits(q) && p != "" && Decimal(q) <= MAX_DURATION
    requires UnitLength(sym + t) == |sym| && UnitSize(sym) == unit > 0
    requires Amounts(v, Decimal(p), Decimal(q), Power10(|q|), unit) && v <= MAX_DURATION
    ensures TermFrom(Num(p, q, sym + t)) == Term(v, t)
  {
    assert (sym + t)[..|sym|] == sym && (sym + t)[|sym|..] == t;
    FractionOf(q);
    ValueFits(Decimal(p), Decimal(q), Power10(|q|), unit, t, v);
  }

  lemma FractionOf(q: string)
    requires AllDigits(q) && Decimal(q) <= MAX_DURATION
    ensures Fraction(q, 0, 1) == (Decimal(q), Power10(|q|))
  {
    FractionIsDecimal(q, 0, 1);
  }
}
