// What matchers as they are written say about the parts of a log entry, without the
// machinery of field names and directives in between.
module MatcherReadings {
  import opened GoStrings
  import opened LogEntries
  import opened IncludeGraph
  import opened MatcherSpec

  // ------------------------------------------------------------------- plain values

  // A text that is no directive.
  predicate Plain(s: string) {
    !LooksLikeDirective(s) && !LooksLikeDirective(TrimSpace(s))
  }

  lemma PlainIsLiteral(field: string, s: string)
    requires Plain(s) && field != "StatusCode"
    ensures !IsInclude(s) && Classify(field, s) == Literal(TrimSpace(s))
  {
  }

  // A plain text under a text field asks for just that part of the entry, up to blanks
  // around the text.
  lemma PlainTextMeans(env: Env, fs: FileSystem, order: seq<Path>, file: Path, s: string, bound: nat, e: LogEntry)
    requires FilesRanked(env, fs, order) && Plain(s)
    ensures Ranked(env, order, file, VString(s), bound)
    ensures Means(env, fs, order, file, Canonical("ip"), VString(s), bound, e) <==> e.ip.address == TrimSpace(s)
    ensures Means(env, fs, order, file, Canonical("path"), VString(s), bound, e) <==> e.path == TrimSpace(s)
    ensures Means(env, fs, order, file, Canonical("method"), VString(s), bound, e) <==> e.httpMethod == TrimSpace(s)
    ensures Means(env, fs, order, file, Canonical("protocol"), VString(s), bound, e) <==> e.protocol == TrimSpace(s)
    ensures Means(env, fs, order, file, Canonical("referrer"), VString(s), bound, e) <==> e.referrer == TrimSpace(s)
    ensures Means(env, fs, order, file, Canonical("vhost"), VString(s), bound, e) <==> e.vhost == TrimSpace(s)
    ensures Means(env, fs, order, file, Canonical("useragent"), VString(s), bound, e) <==> e.userAgent == TrimSpace(s)
    ensures Means(env, fs, order, file, Canonical("user_agent"), VString(s), bound, e) <==> e.userAgent == TrimSpace(s)
  {
    KeysAreKnown();
    PlainIsLiteral("IP", s);
    PlainIsLiteral("Path", s);
    PlainIsLiteral("Method", s);
    PlainIsLiteral("Protocol", s);
    PlainIsLiteral("Referrer", s);
    PlainIsLiteral("VHost", s);
    PlainIsLiteral("UserAgent", s);
  }

  // A text that is a directive only without its blanks, or one with nothing behind it,
  // is compared as it stands.
  lemma AlmostDirectiveMeans(env: Env, fs: FileSystem, order: seq<Path>, file: Path, s: string, bound: nat, e: LogEntry)
    requires FilesRanked(env, fs, order)
    requires s == "file:" || s == "regex:" || s == "cidr:"
             || (!LooksLikeDirective(s) && LooksLikeDirective(TrimSpace(s)))
    ensures Ranked(env, order, file, VString(s), bound)
    ensures Means(env, fs, order, file, Canonical("path"), VString(s), bound, e) <==> e.path == s
  {
    KeysAreKnown();
    AlmostIsLiteral(s);
  }

  lemma AlmostIsLiteral(s: string)
    requires s == "file:" || s == "regex:" || s == "cidr:"
             || (!LooksLikeDirective(s) && LooksLikeDirective(TrimSpace(s)))
    ensures !IsInclude(s) && Classify("Path", s) == Literal(s)
  {
    assert TrimLeft("file:") == "file:" == TrimRight("file:");
    assert TrimLeft("regex:") == "regex:" == TrimRight("regex:");
    assert TrimLeft("cidr:") == "cidr:" == TrimRight("cidr:");
  }

  lemma KeysAreKnown()
    ensures Canonical("ip") == "IP" && Canonical("path") == "Path" && Canonical("method") == "Method"
    ensures Canonical("protocol") == "Protocol" && Canonical("referrer") == "Referrer" && Canonical("vhost") == "VHost"
    ensures Canonical("useragent") == Canonical("user_agent") == "UserAgent"
    ensures Canonical("statuscode") == "StatusCode" && Canonical("size") == "Size"
  {
    LowerIsFixed("ip");
    LowerIsFixed("path");
    LowerIsFixed("method");
    LowerIsFixed("protocol");
    LowerIsFixed("referrer");
    LowerIsFixed("vhost");
    LowerIsFixed("useragent");
    LowerIsFixed("user_agent");
    LowerIsFixed("statuscode");
    LowerIsFixed("size");
  }

  lemma LowerIsFixed(s: string)
    requires forall i :: 0 <= i < |s| ==> !('A' <= s[i] <= 'Z')
    ensures ToLower(s) == s
  {
  }

  // A number asks for the status code or the size.
  lemma NumberMeans(env: Env, fs: FileSystem, order: seq<Path>, file: Path, n: int, bound: nat, e: LogEntry)
    requires FilesRanked(env, fs, order)
    ensures Means(env, fs, order, file, Canonical("statuscode"), VInt(n), bound, e) <==> e.statusCode == n
    ensures Means(env, fs, order, file, Canonical("size"), VInt(n), bound, e) <==> e.size == n
  {
    KeysAreKnown();
  }

  // ------------------------------------------------------------------------- ranges

  // A value of an object with two bounds.
  function Between(low: string, lo: int, high: string, hi: int): Value {
    VObject([(low, VInt(lo)), (high, VInt(hi))])
  }

  lemma BothOperators(env: Env, fs: FileSystem, order: seq<Path>, file: Path, field: string, low: string, lo: int,
          high: string, hi: int, bound: nat, e: LogEntry)
    requires FilesRanked(env, fs, order) && low != "not" && high != "not" && TypeOf(field) == IntField
    ensures Ranked(env, order, file, Between(low, lo, high, hi), bound)
    ensures Means(env, fs, order, file, field, Between(low, lo, high, hi), bound, e) <==>
            RangeHolds(low, GetMatchValue(field, e).n, lo) && RangeHolds(high, GetMatchValue(field, e).n, hi)
  {
    var v := Between(low, lo, high, hi);
    assert OperatorMeans(env, fs, order, file, field, v, 0, bound, e) <==> RangeHolds(low, GetMatchValue(field, e).n, lo);
    assert OperatorMeans(env, fs, order, file, field, v, 1, bound, e) <==> RangeHolds(high, GetMatchValue(field, e).n, hi);
  }

  // Two bounds describe the interval they name, each with or without its end.
  lemma RangeMeans(env: Env, fs: FileSystem, order: seq<Path>, file: Path, lo: int, hi: int, bound: nat, e: LogEntry)
    requires FilesRanked(env, fs, order)
    ensures Ranked(env, order, file, Between("gte", lo, "lt", hi), bound)
    ensures Ranked(env, order, file, Between("gt", lo, "lte", hi), bound)
    ensures Means(env, fs, order, file, Canonical("statuscode"), Between("gte", lo, "lt", hi), bound, e) <==>
            lo <= e.statusCode < hi
    ensures Means(env, fs, order, file, Canonical("statuscode"), Between("gt", lo, "lte", hi), bound, e) <==>
            lo < e.statusCode <= hi
    ensures Means(env, fs, order, file, Canonical("size"), Between("gte", lo, "lt", hi), bound, e) <==> lo <= e.size < hi
    ensures Means(env, fs, order, file, Canonical("size"), Between("gt", lo, "lte", hi), bound, e) <==> lo < e.size <= hi
  {
    KeysAreKnown();
    BothOperators(env, fs, order, file, "StatusCode", "gte", lo, "lt", hi, bound, e);
    BothOperators(env, fs, order, file, "StatusCode", "gt", lo, "lte", hi, bound, e);
    BothOperators(env, fs, order, file, "Size", "gte", lo, "lt", hi, bound, e);
    BothOperators(env, fs, order, file, "Size", "gt", lo, "lte", hi, bound, e);
  }

  // --------------------------------------------------------------------- directives

  // The four kinds of directive and what follows them.
  lemma DirectivesRead(field: string, t: string)
    ensures Classify(field, "exact:" + t) == Literal(t)
    ensures t != "" ==> Classify(field, "regex:" + t) == Regex(t) && Classify(field, "cidr:" + t) == Cidr(t)
    ensures t != "" ==> Classify(field, "file:" + t) == Include(t)
    ensures !IsInclude("exact:" + t) && !IsInclude("regex:" + t) && !IsInclude("cidr:" + t)
  {
    assert ("exact:" + t)[0] == 'e' && ("regex:" + t)[0] == 'r' && ("cidr:" + t)[0] == 'c' && ("file:" + t)[0] == 'f';
    assert ("exact:" + t)[6..] == t && ("regex:" + t)[6..] == t && ("cidr:" + t)[5..] == t && ("file:" + t)[5..] == t;
    assert t != "" ==> |"regex:" + t| > 6 && |"cidr:" + t| > 5 && |"file:" + t| > 5;
  }

  // An exact text is compared as it is, a regular expression is asked about the part,
  // and a prefix must contain the address.
  lemma DirectiveMeans(env: Env, fs: FileSystem, order: seq<Path>, file: Path, t: string, bound: nat, e: LogEntry)
    requires FilesRanked(env, fs, order)
    ensures Ranked(env, order, file, VString("exact:" + t), bound)
    ensures Ranked(env, order, file, VString("regex:" + t), bound) && Ranked(env, order, file, VString("cidr:" + t), bound)
    ensures Means(env, fs, order, file, Canonical("path"), VString("exact:" + t), bound, e) <==> e.path == t
    ensures t != "" ==>
      (Means(env, fs, order, file, Canonical("path"), VString("regex:" + t), bound, e) <==> env.regexMatch(t, e.path))
    ensures t != "" && env.parsePrefix(t).Some? ==>
      (Means(env, fs, order, file, Canonical("ip"), VString("cidr:" + t), bound, e) <==>
         PrefixContains(env.parsePrefix(t).value, e.ip.addr))
  {
    KeysAreKnown();
    DirectivesRead("Path", t);
    DirectivesRead("IP", t);
  }

  // A prefix contains the addresses of its family that begin with its bits.
  lemma ContainsExactly(p: Prefix, bits: seq<bool>)
    ensures PrefixContains(p, Addr4(bits)) <==> !p.v6 && |p.bits| <= |bits| && bits[..|p.bits|] == p.bits
    ensures PrefixContains(p, Addr6(bits)) <==> p.v6 && |p.bits| <= |bits| && bits[..|p.bits|] == p.bits
    ensures !PrefixContains(p, NoAddr)
  {
    if p.bits <= bits { assert bits[..|p.bits|] == p.bits; }
    if |p.bits| <= |bits| && bits[..|p.bits|] == p.bits {
      forall k | 0 <= k < |p.bits| ensures p.bits[k] == bits[k] {
        assert bits[..|p.bits|][k] == bits[k];
      }
    }
  }

  // `not` is the complement, and a list is any of its items.
  lemma NotAndAnyMean(env: Env, fs: FileSystem, order: seq<Path>, file: Path, field: string, v: Value, w: Value,
          bound: nat, e: LogEntry)
    requires FilesRanked(env, fs, order) && Ranked(env, order, file, v, bound) && Ranked(env, order, file, w, bound)
    ensures Ranked(env, order, file, VObject([("not", v)]), bound) && Ranked(env, order, file, VList([v, w]), bound)
    ensures Means(env, fs, order, file, field, VObject([("not", v)]), bound, e) <==>
            !Means(env, fs, order, file, field, v, bound, e)
    ensures Means(env, fs, order, file, field, VList([v, w]), bound, e) <==>
            Means(env, fs, order, file, field, v, bound, e) || Means(env, fs, order, file, field, w, bound, e)
  {
    assert OperatorMeans(env, fs, order, file, field, VObject([("not", v)]), 0, bound, e) <==>
           !Means(env, fs, order, file, field, v, bound, e);
    assert [v, w][0] == v && [v, w][1] == w;
  }

  // ---------------------------------------------------------------- classes of codes

  lemma ThreeDigits(n: nat)
    requires 100 <= n < 1000
    ensures Itoa(n) == [Digit(n / 100), Digit(n / 10 % 10), Digit(n % 10)]
  {
    assert NatString(n / 100) == [Digit(n / 100)];
    assert NatString(n / 10) == NatString(n / 100) + [Digit(n / 10 % 10)];
  }

  lemma ClassIsPrefix(d: nat)
    requires 1 <= d <= 9
    ensures var s := [Digit(d)] + "XX"; !IsInclude(s) && Classify("StatusCode", s) == StatusPrefix([Digit(d)])
  {
    var s := [Digit(d)] + "XX";
    assert s[0] == Digit(d) && IsDigit(s[0]) && s[1..] == "XX" && s[1] == 'X';
    assert IndexOfX("XX") == 0 && IndexOfX(s) == 1;
    assert s[..1] == [Digit(d)];
    DecimalOfNatString(d);
    assert NatString(d) == [Digit(d)];
  }

  // 4XX is the class of the codes from 400 to 499, and so for every class.
  lemma StatusClassMeans(env: Env, fs: FileSystem, order: seq<Path>, file: Path, d: nat, bound: nat, e: LogEntry)
    requires FilesRanked(env, fs, order) && 1 <= d <= 9 && 100 <= e.statusCode < 1000
    ensures Ranked(env, order, file, VString([Digit(d)] + "XX"), bound)
    ensures Means(env, fs, order, file, Canonical("statuscode"), VString([Digit(d)] + "XX"), bound, e) <==>
            100 * d <= e.statusCode < 100 * d + 100
  {
    KeysAreKnown();
    ClassIsPrefix(d);
    ThreeDigits(e.statusCode);
    var prefix, code := [Digit(d)], Itoa(e.statusCode);
    assert HasPrefix(code, prefix) <==> code[0] == Digit(d);
    assert Digit(e.statusCode / 100) == Digit(d) <==> e.statusCode / 100 == d;
  }

  // -------------------------------------------------------------------- file lines

  // A line counts exactly if its first character that is no blank exists and is not #.
  lemma SignificantExactly(line: string)
    ensures Significant(line) <==>
            exists i :: 0 <= i < |line| && !IsSpace(line[i]) && line[i] != '#' && forall j :: 0 <= j < i ==> IsSpace(line[j])
  {
    TrimLeftIsRest(line);
    TrimRightKeeps(TrimLeft(line));
    var t := TrimLeft(line);
    var k := |line| - |t|;
    assert t != "" ==> line[k] == t[0];
    if Significant(line) {
      assert TrimSpace(line)[0] == t[0] && HasPrefix(TrimSpace(line), "#") <==> t[0] == '#';
      assert !IsSpace(line[k]) && line[k] != '#' && forall j :: 0 <= j < k ==> IsSpace(line[j]);
    }
  }

  // What is read of a file are its significant lines.
  lemma {:induction false} LinesExactly(lines: seq<string>, s: string)
    ensures s in SignificantLines(lines) <==> s in lines && Significant(s)
  {
    if lines != [] { LinesExactly(lines[1..], s); }
  }

  // A text file includes exactly what its significant lines name behind "file:", taken
  // as it stands.
  lemma {:induction false} TextIncludesExactly(resolve: Resolver, p: Path, lines: seq<string>, target: Path)
    ensures target in TextDirectives(resolve, p, lines) <==>
            exists s :: s in lines && Significant(s) && IncludesText(resolve, p, s, target)
  {
    if lines != [] {
      TextIncludesExactly(resolve, p, lines[1..], target);
      assert HasPrefix(lines[0], "file:") ==> TrimPrefix(lines[0], "file:") == lines[0][5..];
      assert forall s :: s in lines <==> s == lines[0] || s in lines[1..];
    }
  }

  predicate IncludesText(resolve: Resolver, p: Path, s: string, target: Path) {
    |s| > 5 && s[..5] == "file:" && resolve(p, s[5..]) == target
  }

  lemma {:induction false} TrimLeftIsRest(s: string)
    ensures var k := |s| - |TrimLeft(s)|;
            && k >= 0 && TrimLeft(s) == s[k..]
            && (forall j :: 0 <= j < k ==> IsSpace(s[j]))
            && (TrimLeft(s) != "" ==> !IsSpace(TrimLeft(s)[0]))
  {
    if s != "" && IsSpace(s[0]) {
      TrimLeftIsRest(s[1..]);
      assert forall j :: 0 < j < |s| ==> s[1..][j - 1] == s[j];
    }
  }

  // Trimming behind a first character that is no blank keeps it.
  lemma {:induction false} TrimRightKeeps(s: string)
    requires s != "" ==> !IsSpace(s[0])
    ensures TrimRight(s) == "" <==> s == ""
    ensures s != "" ==> TrimRight(s)[0] == s[0]
  {
    if s != "" && IsSpace(s[|s| - 1]) { TrimRightKeeps(s[..|s| - 1]); }
  }
}
