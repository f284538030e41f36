// Compiled matchers at work: they share two caches kept on the log entry
// (internal/types/logentry.go), and none of them may change an answer.
module MatcherRuntime {
  import opened GoStrings
  import opened LogEntries
  import opened MatcherSpec
  import opened MatcherCompiler

  // ------------------------------------------------------------- cache keys

  function TypeDigit(t: FieldType): string {
    match t
    case StringField => "0"
    case IntField => "1"
    case UnsupportedField => "2"
  }

  function FieldKey(field: string, t: FieldType): string {
    field + ":" + TypeDigit(t)
  }

  function RegexKey(field: string, pattern: string): string {
    field + ":regex:" + pattern
  }

  function CidrKey(field: string, text: string): string {
    field + ":cidr:" + text
  }

  predicate PlainField(field: string) {
    ':' !in field
  }

  lemma FieldKeysApart(f1: string, t1: FieldType, f2: string, t2: FieldType)
    requires FieldKey(f1, t1) == FieldKey(f2, t2)
    ensures f1 == f2 && t1 == t2
  {
    var k1, k2 := FieldKey(f1, t1), FieldKey(f2, t2);
    assert k1[|k1| - 1] == TypeDigit(t1)[0] && k2[|k2| - 1] == TypeDigit(t2)[0];
    assert k1[..|k1| - 2] == f1 && k2[..|k2| - 2] == f2;
  }

  // For fields without a colon, and so for every known field, the keys of the
  // matcher cache separate all field and pattern pairs.
  lemma RegexKeysApart(f1: string, p1: string, f2: string, p2: string)
    requires PlainField(f1) && PlainField(f2) && RegexKey(f1, p1) == RegexKey(f2, p2)
    ensures f1 == f2 && p1 == p2
  {
    assert RegexKey(f1, p1) == f1 + ":" + ("regex:" + p1);
    assert RegexKey(f2, p2) == f2 + ":" + ("regex:" + p2);
    SplitAtFirst(f1, ':', "regex:" + p1, f2, "regex:" + p2);
    assert ("regex:" + p1)[6..] == p1 && ("regex:" + p2)[6..] == p2;
  }

  lemma CidrKeysApart(f1: string, c1: string, f2: string, c2: string)
    requires PlainField(f1) && PlainField(f2) && CidrKey(f1, c1) == CidrKey(f2, c2)
    ensures f1 == f2 && c1 == c2
  {
    assert CidrKey(f1, c1) == f1 + ":" + ("cidr:" + c1);
    assert CidrKey(f2, c2) == f2 + ":" + ("cidr:" + c2);
    SplitAtFirst(f1, ':', "cidr:" + c1, f2, "cidr:" + c2);
    assert ("cidr:" + c1)[5..] == c1 && ("cidr:" + c2)[5..] == c2;
  }

  lemma KindsApart(f1: string, p: string, f2: string, c: string)
    requires PlainField(f1) && PlainField(f2)
    ensures RegexKey(f1, p) != CidrKey(f2, c)
  {
    assert RegexKey(f1, p) == f1 + ":" + ("regex:" + p);
    assert CidrKey(f2, c) == f2 + ":" + ("cidr:" + c);
    assert ("regex:" + p)[0] == 'r' && ("cidr:" + c)[0] == 'c';
    if RegexKey(f1, p) == CidrKey(f2, c) {
      SplitAtFirst(f1, ':', "regex:" + p, f2, "cidr:" + c);
    }
  }

  lemma KnownFieldsArePlain(field: string)
    requires TypeOf(field) != UnsupportedField
    ensures PlainField(field)
  {
  }

  // Two different field names share a key for some patterns exactly when one of
  // them continues the other past ":regex:"; only a name with a colon can.
  lemma RegexKeysCollide(f1: string, f2: string)
    ensures (exists p1, p2 :: RegexKey(f1, p1) == RegexKey(f2, p2)) <==>
            (f1 + ":regex:" <= f2 + ":regex:" || f2 + ":regex:" <= f1 + ":regex:")
  {
    var a, b := f1 + ":regex:", f2 + ":regex:";
    if a <= b {
      assert RegexKey(f1, b[|a|..]) == RegexKey(f2, "");
    } else if b <= a {
      assert RegexKey(f1, "") == RegexKey(f2, a[|b|..]);
    } else {
      forall p1, p2 ensures RegexKey(f1, p1) != RegexKey(f2, p2) {
        var k1, k2 := RegexKey(f1, p1), RegexKey(f2, p2);
        assert k1[..|a|] == a && k2[..|b|] == b;
        if |a| <= |b| { assert k2[..|b|][..|a|] == k2[..|a|]; } else { assert k1[..|a|][..|b|] == k1[..|b|]; }
      }
    }
  }

  // Names as fields arrive: keys are lower-cased when the configuration is read, and
  // known ones then get their canonical name, which starts with a capital.
  predicate Configured(field: string) {
    TypeOf(field) != UnsupportedField || ToLower(field) == field
  }

  lemma EveryFieldIsConfigured(name: string)
    ensures Configured(Canonical(ToLower(name)))
  {
    var lower := ToLower(name);
    assert ToLower(lower) == lower;
    assert forall k :: k in CANONICAL ==> TypeOf(CANONICAL[k]) != UnsupportedField;
  }

  lemma UnknownStartsLow(field: string)
    requires Configured(field) && TypeOf(field) == UnsupportedField
    ensures field == "" || !('A' <= field[0] <= 'Z')
  {
    assert field != "" ==> ToLower(field)[0] == ToLowerChar(field[0]);
  }

  lemma KnownStartsHigh(field: string)
    requires TypeOf(field) != UnsupportedField
    ensures field != "" && 'A' <= field[0] <= 'Z'
  {
  }

  // So keys of configured fields meet only where no answer depends on it: for the
  // same field and pattern, or for two unknown fields, which never match.
  lemma ConfiguredKeysApart(f1: string, p1: string, f2: string, p2: string)
    requires Configured(f1) && Configured(f2) && RegexKey(f1, p1) == RegexKey(f2, p2)
    ensures (f1 == f2 && p1 == p2) || TypeOf(f1) == TypeOf(f2) == UnsupportedField
  {
    var k1, k2 := RegexKey(f1, p1), RegexKey(f2, p2);
    assert f1 != "" ==> k1[0] == f1[0];
    assert f2 != "" ==> k2[0] == f2[0];
    assert f1 == "" ==> k1[0] == ':';
    assert f2 == "" ==> k2[0] == ':';
    if TypeOf(f1) != UnsupportedField && TypeOf(f2) != UnsupportedField {
      KnownFieldsArePlain(f1);
      KnownFieldsArePlain(f2);
      RegexKeysApart(f1, p1, f2, p2);
    } else if TypeOf(f1) != UnsupportedField {
      KnownStartsHigh(f1);
      UnknownStartsLow(f2);
    } else if TypeOf(f2) != UnsupportedField {
      KnownStartsHigh(f2);
      UnknownStartsLow(f1);
    }
  }

  lemma ConfiguredKindsApart(field: string, pattern: string, text: string)
    requires Configured(field)
    ensures RegexKey(field, pattern) != CidrKey("IP", text)
  {
    if TypeOf(field) != UnsupportedField {
      KnownFieldsArePlain(field);
      KindsApart(field, pattern, "IP", text);
    } else {
      var k1, k2 := RegexKey(field, pattern), CidrKey("IP", text);
      UnknownStartsLow(field);
      assert k2[0] == 'I';
      assert if field == "" then k1[0] == ':' else k1[0] == field[0];
    }
  }

  // What a matcher is compiled to: its fields are configured ones, and prefixes are
  // looked up for the address only.
  ghost predicate Runnable(m: Matcher) {
    match m
    case MatchRegex(field, _) => Configured(field)
    case InCidr(field, _, _) => field == "IP"
    case AnyOf(ms) => forall i :: 0 <= i < |ms| ==> Runnable(ms[i])
    case AllOf(ms) => forall i :: 0 <= i < |ms| ==> Runnable(ms[i])
    case NotOf(n) => Runnable(n)
    case _ => true
  }

  // Prefixes were parsed from the texts they carry.
  ghost predicate Parsed(env: Env, m: Matcher) {
    match m
    case InCidr(_, text, prefix) => env.parsePrefix(text) == Some(prefix)
    case AnyOf(ms) => forall i :: 0 <= i < |ms| ==> Parsed(env, ms[i])
    case AllOf(ms) => forall i :: 0 <= i < |ms| ==> Parsed(env, ms[i])
    case NotOf(n) => Parsed(env, n)
    case _ => true
  }

  // ------------------------------------------------------------ the entry

  class CachedEntry {
    const entry: LogEntry
    var fieldCache: map<string, FieldValue>
    var matcherCache: map<string, bool>

    // Whatever is cached is true.
    ghost predicate Truthful(env: Env)
      reads this
    {
      && (forall f, t {:trigger FieldKey(f, t)} :: FieldKey(f, t) in fieldCache ==>
            TypeOf(f) == t && fieldCache[FieldKey(f, t)] == GetMatchValue(f, entry))
      && (forall f, p {:trigger RegexKey(f, p)} :: Configured(f) && RegexKey(f, p) in matcherCache ==>
            matcherCache[RegexKey(f, p)] == RegexResult(env, f, p, entry))
      && (forall c {:trigger CidrKey("IP", c)} :: CidrKey("IP", c) in matcherCache ==>
            && env.parsePrefix(c).Some?
            && matcherCache[CidrKey("IP", c)] == PrefixContains(env.parsePrefix(c).value, entry.ip.addr))
    }

    constructor (e: LogEntry)
      ensures entry == e && fieldCache == map[] && matcherCache == map[]
    {
      entry := e;
      fieldCache, matcherCache := map[], map[];
    }

    // GetMatchValueIfType
    method GetMatchValueIfType(env: Env, field: string, t: FieldType) returns (v: FieldValue)
      requires Truthful(env) && t != UnsupportedField
      modifies this`fieldCache
      ensures Truthful(env) && v == TypedValue(field, t, entry)
    {
      var key := FieldKey(field, t);
      if key in fieldCache { return fieldCache[key]; }
      v := GetMatchValue(field, entry);
      if TypeOf(field) != t { return NoValue; }
      fieldCache := fieldCache[key := v];
      forall f, u | FieldKey(f, u) in fieldCache
        ensures TypeOf(f) == u && fieldCache[FieldKey(f, u)] == GetMatchValue(f, entry)
      {
        if FieldKey(f, u) == key { FieldKeysApart(f, u, field, t); }
      }
    }

    method MatchRegexCached(env: Env, field: string, pattern: string) returns (result: bool)
      requires Truthful(env) && Configured(field)
      modifies this
      ensures Truthful(env) && result == RegexResult(env, field, pattern, entry)
    {
      var key := RegexKey(field, pattern);
      if key in matcherCache { return matcherCache[key]; }
      var v := GetMatchValueIfType(env, field, StringField);
      result := v.StringValue? && env.regexMatch(pattern, v.s);
      StoreRegex(env, field, pattern, result);
    }

    // StoreMatcherResult, for the key of a regular expression.
    method StoreRegex(env: Env, field: string, pattern: string, result: bool)
      requires Truthful(env) && Configured(field) && result == RegexResult(env, field, pattern, entry)
      modifies this`matcherCache
      ensures Truthful(env)
    {
      matcherCache := matcherCache[RegexKey(field, pattern) := result];
      forall f, p | Configured(f) && RegexKey(f, p) in matcherCache
        ensures matcherCache[RegexKey(f, p)] == RegexResult(env, f, p, entry)
      {
        if RegexKey(f, p) == RegexKey(field, pattern) { ConfiguredKeysApart(f, p, field, pattern); }
      }
      forall c | CidrKey("IP", c) in matcherCache
        ensures env.parsePrefix(c).Some?
        ensures matcherCache[CidrKey("IP", c)] == PrefixContains(env.parsePrefix(c).value, entry.ip.addr)
      {
        ConfiguredKindsApart(field, pattern, c);
      }
    }

    method InCidrCached(env: Env, text: string, prefix: Prefix) returns (result: bool)
      requires Truthful(env) && env.parsePrefix(text) == Some(prefix)
      modifies this`matcherCache
      ensures Truthful(env) && result == PrefixContains(prefix, entry.ip.addr)
    {
      var key := CidrKey("IP", text);
      if key in matcherCache { return matcherCache[key]; }
      result := PrefixContains(prefix, entry.ip.addr);
      matcherCache := matcherCache[key := result];
      forall f, p | Configured(f) && RegexKey(f, p) in matcherCache
        ensures matcherCache[RegexKey(f, p)] == RegexResult(env, f, p, entry)
      {
        ConfiguredKindsApart(f, p, text);
      }
      forall c | CidrKey("IP", c) in matcherCache
        ensures env.parsePrefix(c).Some?
        ensures matcherCache[CidrKey("IP", c)] == PrefixContains(env.parsePrefix(c).value, entry.ip.addr)
      {
        if CidrKey("IP", c) == key { CidrKeysApart("IP", c, "IP", text); }
      }
    }

    // Running a compiled matcher, after whatever ran on this entry before.
    method Run(env: Env, m: Matcher) returns (result: bool)
      requires Truthful(env) && Runnable(m) && Parsed(env, m)
      modifies this
      ensures Truthful(env) && result == Denotes(env, m, entry)
      decreases m
    {
      match m
      case StringEquals(field, literal) =>
        var v := GetMatchValueIfType(env, field, StringField);
        result := v.StringValue? && v.s == literal;
      case IntEquals(field, n) =>
        var v := GetMatchValueIfType(env, field, IntField);
        result := v.IntValue? && v.n == n;
      case MatchRegex(field, pattern) =>
        result := MatchRegexCached(env, field, pattern);
      case InCidr(_, text, prefix) =>
        result := InCidrCached(env, text, prefix);
      case InAnyPrefix(prefixes) =>
        result := false;
        for i := 0 to |prefixes|
          invariant forall j :: 0 <= j < i ==> !PrefixContains(prefixes[j], entry.ip.addr)
          invariant Truthful(env) && !result
        {
          if PrefixContains(prefixes[i], entry.ip.addr) { return true; }
        }
      case InRange(field, op, bound) =>
        var v := GetMatchValueIfType(env, field, IntField);
        result := v.IntValue? && RangeHolds(op, v.n, bound);
      case StatusStarts(field, digits) =>
        var v := GetMatchValueIfType(env, field, IntField);
        result := v.IntValue? && HasPrefix(Itoa(v.n), digits);
      case AnyOf(ms) =>
        for i := 0 to |ms|
          invariant Truthful(env)
          invariant forall j :: 0 <= j < i ==> !Denotes(env, ms[j], entry)
        {
          var hit := Run(env, ms[i]);
          if hit { return true; }
        }
        result := false;
      case AllOf(ms) =>
        for i := 0 to |ms|
          invariant Truthful(env)
          invariant forall j :: 0 <= j < i ==> Denotes(env, ms[j], entry)
        {
          var hit := Run(env, ms[i]);
          if !hit { return false; }
        }
        result := true;
      case NotOf(n) =>
        var hit := Run(env, n);
        result := !hit;
    }
  }
}
