// Go's string operations that the repository relies on, with the library
// contracts its code depends on.  Strings are read one character at a time,
// which fixes the leftmost, non-overlapping matching of the Go functions.
module GoStrings {

  predicate HasPrefix(s: string, prefix: string) {
    prefix <= s
  }

  predicate HasSuffix(s: string, suffix: string) {
    |suffix| <= |s| && s[|s| - |suffix|..] == suffix
  }

  // strings.TrimPrefix
  function TrimPrefix(s: string, prefix: string): string {
    if prefix <= s then s[|prefix|..] else s
  }

  // strings.Contains
  predicate Contains(s: string, sub: string) {
    sub <= s || (s != "" && Contains(s[1..], sub))
  }

  // strings.Index: the leftmost occurrence, or -1.
  function Index(s: string, sub: string): (r: int)
    ensures -1 <= r <= |s| - |sub| || (r == -1 && |s| < |sub|)
    ensures r >= 0 <==> Contains(s, sub)
    ensures r >= 0 ==> sub <= s[r..]
  {
    if sub <= s then 0
    else if s == "" then -1
    else
      var r := Index(s[1..], sub);
      if r < 0 then -1 else assert s[1..][r..] == s[r + 1..]; r + 1
  }

  // strings.Split for a non-empty separator.
  function Split(s: string, sep: string): (parts: seq<string>)
    requires sep != ""
    ensures |parts| >= 1
    decreases |s|
  {
    if sep <= s then [""] + Split(s[|sep|..], sep)
    else if s == "" then [""]
    else
      var rest := Split(s[1..], sep);
      [[s[0]] + rest[0]] + rest[1..]
  }

  // strings.Join
  function Join(parts: seq<string>, sep: string): string {
    if parts == [] then ""
    else if |parts| == 1 then parts[0]
    else parts[0] + sep + Join(parts[1..], sep)
  }

  // strings.ReplaceAll for a non-empty pattern.
  function ReplaceAll(s: string, pattern: string, to: string): string
    requires pattern != ""
    decreases |s|
  {
    if pattern <= s then to + ReplaceAll(s[|pattern|..], pattern, to)
    else if s == "" then ""
    else [s[0]] + ReplaceAll(s[1..], pattern, to)
  }

  // unicode.IsSpace
  predicate IsSpace(c: char) {
    var n := c as int;
    (0x09 <= n <= 0x0D) || n == 0x20 || n == 0x85 || n == 0xA0 || n == 0x1680
    || (0x2000 <= n <= 0x200A) || n == 0x2028 || n == 0x2029 || n == 0x202F
    || n == 0x205F || n == 0x3000
  }

  function TrimLeft(s: string): string {
    if s != "" && IsSpace(s[0]) then TrimLeft(s[1..]) else s
  }

  function TrimRight(s: string): string {
    if s != "" && IsSpace(s[|s| - 1]) then TrimRight(s[..|s| - 1]) else s
  }

  // strings.TrimSpace
  function TrimSpace(s: string): string {
    TrimRight(TrimLeft(s))
  }

  // One decimal digit.
  function Digit(d: nat): char
    requires d < 10
  {
    ('0' as int + d) as char
  }

  predicate IsDigit(c: char) {
    '0' <= c <= '9'
  }

  predicate AllDigits(s: string) {
    forall i :: 0 <= i < |s| ==> IsDigit(s[i])
  }

  // The number a string of decimal digits stands for.
  function Decimal(digits: string): nat
    requires AllDigits(digits)
  {
    if digits == "" then 0
    else
      var last := digits[|digits| - 1];
      assert IsDigit(last);
      10 * Decimal(digits[..|digits| - 1]) + (last as int - '0' as int)
  }

  // Decimal digits of a natural number, as %d and strconv.Itoa print it.
  function NatString(n: nat): (s: string)
    ensures s != "" && AllDigits(s)
  {
    if n < 10 then [Digit(n)] else NatString(n / 10) + [Digit(n % 10)]
  }

  // strconv.Itoa
  function Itoa(n: int): string {
    if n < 0 then "-" + NatString(-n) else NatString(n)
  }

  // -------------------------------------------------------------- lemmas

  // Printing a number and reading it back.
  lemma {:induction false} DecimalOfNatString(n: nat)
    ensures Decimal(NatString(n)) == n
  {
    var s := NatString(n);
    if n >= 10 {
      DecimalOfNatString(n / 10);
      assert s[..|s| - 1] == NatString(n / 10);
    } else {
      assert s[..0] == "";
    }
  }

  // A pattern without c occurs across c exactly when it occurs on one side of it.
  lemma {:induction false} ContainsAcross(a: string, c: char, b: string, sub: string)
    requires sub != "" && c !in sub
    ensures Contains(a + [c] + b, sub) <==> (Contains(a, sub) || Contains(b, sub))
  {
    var s := a + [c] + b;
    PrefixAcross(a, c, b, sub);
    if a == "" {
      assert s[1..] == b;
    } else {
      assert s[1..] == a[1..] + [c] + b;
      ContainsAcross(a[1..], c, b, sub);
    }
  }

  // Two strings split at the first c are equal only piece by piece.
  lemma {:induction false} SplitAtFirst(a: string, c: char, x: string, b: string, y: string)
    requires c !in a && c !in b && a + [c] + x == b + [c] + y
    ensures a == b && x == y
  {
    var s, t := a + [c] + x, b + [c] + y;
    assert a != "" ==> s[0] == a[0];
    assert b != "" ==> t[0] == b[0];
    if a != "" && b != "" {
      assert s[1..] == a[1..] + [c] + x;
      assert t[1..] == b[1..] + [c] + y;
      SplitAtFirst(a[1..], c, x, b[1..], y);
    } else {
      assert s[1..] == x && t[1..] == y;
    }
  }

  // A prefix without c reaches no further than c.
  lemma PrefixAcross(a: string, c: char, b: string, sub: string)
    requires sub != "" && c !in sub
    ensures sub <= a + [c] + b <==> sub <= a
  {
    if |a| < |sub| <= |a| + 1 + |b| {
      assert (a + [c] + b)[|a|] == c != sub[|a|];
    }
  }

  lemma FirstOfThree(a: string, c: char, b: string)
    requires a != ""
    ensures a + [c] + b == [a[0]] + (a[1..] + [c] + b)
  {
  }

  lemma DropAcross(a: string, c: char, b: string, n: nat)
    requires n <= |a|
    ensures (a + [c] + b)[n..] == a[n..] + [c] + b
    ensures a != "" ==> (a + [c] + b)[0] == a[0]
  {
  }

  lemma FirstOfFour(x: string, a: string, c: char, b: string)
    ensures x + (a + [c] + b) == (x + a) + [c] + b
  {
  }

  // Replacement does not reach across a character foreign to the pattern.
  lemma {:induction false} ReplaceAcross(a: string, c: char, b: string, pattern: string, to: string)
    requires pattern != "" && c !in pattern
    ensures ReplaceAll(a + [c] + b, pattern, to) == ReplaceAll(a, pattern, to) + [c] + ReplaceAll(b, pattern, to)
    decreases |a|
  {
    var s, r := a + [c] + b, ReplaceAll(b, pattern, to);
    PrefixAcross(a, c, b, pattern);
    if pattern <= a {
      var rest := a[|pattern|..];
      DropAcross(a, c, b, |pattern|);
      ReplaceAcross(rest, c, b, pattern, to);
      FirstOfFour(to, ReplaceAll(rest, pattern, to), c, r);
    } else if a == "" {
      assert s[1..] == b;
    } else {
      DropAcross(a, c, b, 1);
      ReplaceAcross(a[1..], c, b, pattern, to);
      FirstOfFour([a[0]], ReplaceAll(a[1..], pattern, to), c, r);
    }
  }

  // A string without the pattern is left alone.
  lemma {:induction false} ReplaceNothing(s: string, pattern: string, to: string)
    requires pattern != "" && !Contains(s, pattern)
    ensures ReplaceAll(s, pattern, to) == s
  {
    if s != "" { ReplaceNothing(s[1..], pattern, to); }
  }

  // A prefix of the replaced string free of c is a prefix of the original.
  lemma {:induction false} ReplacedPrefix(s: string, pattern: string, c: char, p: string)
    requires pattern != "" && c !in p && p <= ReplaceAll(s, pattern, [c])
    ensures p <= s
    decreases |p|
  {
    var r := ReplaceAll(s, pattern, [c]);
    assert p != "" ==> p[0] == r[0];
    if p != "" && !(pattern <= s) {
      assert r[1..] == ReplaceAll(s[1..], pattern, [c]);
      assert p[1..] <= r[1..];
      ReplacedPrefix(s[1..], pattern, c, p[1..]);
    }
  }

  // Replacing a pattern by one character foreign to it leaves no occurrence.
  lemma {:induction false} ReplaceRemoves(s: string, pattern: string, c: char)
    requires pattern != "" && c !in pattern
    ensures !Contains(ReplaceAll(s, pattern, [c]), pattern)
    decreases |s|
  {
    var r := ReplaceAll(s, pattern, [c]);
    assert pattern <= s ==> r[0] == c;
    if pattern <= r {
      ReplacedPrefix(s, pattern, c, pattern);
      assert false;
    } else if s != "" {
      var rest := if pattern <= s then s[|pattern|..] else s[1..];
      ReplaceRemoves(rest, pattern, c);
      assert r[1..] == ReplaceAll(rest, pattern, [c]);
    }
  }
}
