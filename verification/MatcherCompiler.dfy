// The matcher compiler: the compiled form of a value, and the proof that it keeps
// the value's meaning and that its recursion through included files ends.
module MatcherCompiler {
  import opened GoStrings
  import opened LogEntries
  import opened IncludeGraph
  import opened MatcherSpec

  // A compiled matcher: what each closure of the compiler has captured.
  datatype Matcher =
    | StringEquals(field: string, literal: string)
    | IntEquals(field: string, n: int)
    | MatchRegex(field: string, pattern: string)
    | InCidr(field: string, text: string, prefix: Prefix)
    | InAnyPrefix(prefixes: seq<Prefix>)
    | InRange(field: string, op: string, bound: int)
    | StatusStarts(field: string, digits: string)
    | AnyOf(matchers: seq<Matcher>)
    | AllOf(matchers: seq<Matcher>)
    | NotOf(matcher: Matcher)

  // What a compiled matcher answers when nothing is cached.
  ghost predicate Denotes(env: Env, m: Matcher, e: LogEntry) {
    match m
    case StringEquals(field, literal) => TypedValue(field, StringField, e) == StringValue(literal)
    case IntEquals(field, n) => TypedValue(field, IntField, e) == IntValue(n)
    case MatchRegex(field, pattern) => RegexResult(env, field, pattern, e)
    case InCidr(_, _, prefix) => PrefixContains(prefix, e.ip.addr)
    case InAnyPrefix(prefixes) => exists i :: 0 <= i < |prefixes| && PrefixContains(prefixes[i], e.ip.addr)
    case InRange(field, op, bound) =>
      TypedValue(field, IntField, e).IntValue? && RangeHolds(op, TypedValue(field, IntField, e).n, bound)
    case StatusStarts(field, prefix) =>
      TypedValue(field, IntField, e).IntValue? && HasPrefix(Itoa(TypedValue(field, IntField, e).n), prefix)
    case AnyOf(matchers) => exists i :: 0 <= i < |matchers| && Denotes(env, matchers[i], e)
    case AllOf(matchers) => forall i :: 0 <= i < |matchers| ==> Denotes(env, matchers[i], e)
    case NotOf(matcher) => !Denotes(env, matcher, e)
  }

  predicate RegexResult(env: Env, field: string, pattern: string, e: LogEntry) {
    var v := TypedValue(field, StringField, e);
    v.StringValue? && env.regexMatch(pattern, v.s)
  }

  // ------------------------------------------------------------ compilation

  function CompileDirective(env: Env, field: string, d: Directive): Result<Matcher>
    requires !d.Include?
  {
    match d
    case Literal(s) => Ok(StringEquals(field, s))
    case Regex(pattern) => if env.regexValid(pattern) then Ok(MatchRegex(field, pattern)) else Err
    case Cidr(text) =>
      if field != "IP" || env.parsePrefix(text).None? then Err
      else Ok(InCidr(field, text, env.parsePrefix(text).value))
    case StatusPrefix(prefix) => Ok(StatusStarts(field, prefix))
  }

  // The prefix a list item stands for, if it is one.
  function ItemPrefix(env: Env, v: Value): Option<Prefix> {
    if v.VString? && HasPrefix(v.s, "cidr:") then env.parsePrefix(TrimPrefix(v.s, "cidr:")) else None
  }

  // tryCompileBatchedCIDR
  function BatchedPrefixes(env: Env, items: seq<Value>): Option<seq<Prefix>> {
    if items == [] then Some([])
    else
      var p, rest := ItemPrefix(env, items[0]), BatchedPrefixes(env, items[1..]);
      if p.None? || rest.None? then None else Some([p.value] + rest.value)
  }

  // compileSingleMatcher; the bound ranks the files that may still be opened.
  ghost function Compile(env: Env, fs: FileSystem, order: seq<Path>, file: Path, field: string, v: Value,
          bound: nat): Result<Matcher>
    requires FilesRanked(env, fs, order) && Ranked(env, order, file, v, bound)
    decreases bound, v, 3
  {
    var name := Canonical(field);
    match v
    case VString(s) =>
      if IsInclude(s) then
        var t := Target(env, file, s);
        CompileList(env, fs, order, t, name, Strings(ReadLines(fs, t)), Rank(order, t))
      else
        IncludeClassified(name, s);
        CompileDirective(env, name, Classify(name, s))
    case VInt(n) => Ok(IntEquals(name, n))
    case VList(items) => CompileList(env, fs, order, file, name, items, bound)
    case VObject(entries) =>
      if entries == [] then Err
      else
        var ms := CompileEntries(env, fs, order, file, name, v, 0, bound);
        if ms.Err? then Err else Ok(AllOf(ms.value))
    case VOther => Err
  }

  // compileListMatcher
  ghost function CompileList(env: Env, fs: FileSystem, order: seq<Path>, file: Path, field: string,
          items: seq<Value>, bound: nat): Result<Matcher>
    requires FilesRanked(env, fs, order)
    requires forall i :: 0 <= i < |items| ==> Ranked(env, order, file, items[i], bound)
    decreases bound, items, 2
  {
    if field == "IP" && BatchedPrefixes(env, items).Some? then Ok(InAnyPrefix(BatchedPrefixes(env, items).value))
    else
      var ms := CompileItems(env, fs, order, file, field, items, bound);
      if ms.Err? then Err else Ok(AnyOf(ms.value))
  }

  ghost function CompileItems(env: Env, fs: FileSystem, order: seq<Path>, file: Path, field: string,
          items: seq<Value>, bound: nat): (r: Result<seq<Matcher>>)
    requires FilesRanked(env, fs, order)
    requires forall i :: 0 <= i < |items| ==> Ranked(env, order, file, items[i], bound)
    ensures r.Ok? ==> |r.value| == |items|
    decreases bound, items, 1
  {
    if items == [] then Ok([])
    else
      var first := Compile(env, fs, order, file, field, items[0], bound);
      var rest := CompileItems(env, fs, order, file, field, items[1..], bound);
      if first.Err? || rest.Err? then Err else Ok([first.value] + rest.value)
  }

  // compileObjectMatcher, compileRangeMatcher and compileNotMatcher
  ghost function CompileEntries(env: Env, fs: FileSystem, order: seq<Path>, file: Path, field: string, v: Value,
          k: nat, bound: nat): (r: Result<seq<Matcher>>)
    requires FilesRanked(env, fs, order) && Ranked(env, order, file, v, bound)
    requires v.VObject? && k <= |v.entries|
    ensures r.Ok? ==> |r.value| == |v.entries| - k
    decreases bound, v, 2, |v.entries| - k
  {
    if k == |v.entries| then Ok([])
    else
      var first := CompileOperator(env, fs, order, file, field, v, k, bound);
      var rest := CompileEntries(env, fs, order, file, field, v, k + 1, bound);
      if first.Err? || rest.Err? then Err else Ok([first.value] + rest.value)
  }

  ghost function CompileOperator(env: Env, fs: FileSystem, order: seq<Path>, file: Path, field: string, v: Value,
          k: nat, bound: nat): Result<Matcher>
    requires FilesRanked(env, fs, order) && Ranked(env, order, file, v, bound) && v.VObject? && k < |v.entries|
    decreases bound, v, 1
  {
    var op, operand := v.entries[k].0, v.entries[k].1;
    if op == "not" then
      var m := Compile(env, fs, order, file, field, operand, bound);
      if m.Err? then Err else Ok(NotOf(m.value))
    else if IsRange(op) && operand.VInt? && TypeOf(field) == IntField then Ok(InRange(field, op, operand.n))
    else Err
  }

  // --------------------------------------------------------- meaning is kept

  // Compilation succeeds exactly on well-formed values, and the compiled matcher
  // answers what the value means.
  ghost predicate Faithful(env: Env, fs: FileSystem, order: seq<Path>, file: Path, field: string, v: Value,
          bound: nat, e: LogEntry)
    requires FilesRanked(env, fs, order) && Ranked(env, order, file, v, bound)
  {
    var r := Compile(env, fs, order, file, field, v, bound);
    && (r.Ok? <==> WellFormed(env, fs, order, file, field, v, bound))
    && (r.Ok? ==> (Denotes(env, r.value, e) <==> Means(env, fs, order, file, field, v, bound, e)))
  }

  lemma {:induction false} CompileIsFaithful(env: Env, fs: FileSystem, order: seq<Path>, file: Path, field: string,
          v: Value, bound: nat, e: LogEntry)
    requires ValidEnv(env) && FilesRanked(env, fs, order) && Ranked(env, order, file, v, bound)
    requires Canonical(field) == field
    ensures Faithful(env, fs, order, file, field, v, bound, e)
    decreases bound, v, 4
  {
    match v
    case VString(s) =>
      if IsInclude(s) {
        var t := Target(env, file, s);
        ListIsFaithful(env, fs, order, t, field, Strings(ReadLines(fs, t)), Rank(order, t), e);
      } else {
        IncludeClassified(field, s);
      }
    case VInt(_) =>
    case VList(items) => ListIsFaithful(env, fs, order, file, field, items, bound, e);
    case VObject(entries) => ObjectIsFaithful(env, fs, order, file, field, v, bound, e);
    case VOther =>
  }

  // A list is any of its items, whether or not it is compiled to one batch of
  // prefixes.
  lemma {:induction false} ListIsFaithful(env: Env, fs: FileSystem, order: seq<Path>, file: Path, field: string,
          items: seq<Value>, bound: nat, e: LogEntry)
    requires ValidEnv(env) && FilesRanked(env, fs, order) && Canonical(field) == field
    requires forall i :: 0 <= i < |items| ==> Ranked(env, order, file, items[i], bound)
    ensures var r := CompileList(env, fs, order, file, field, items, bound);
            && (r.Ok? <==> forall i :: 0 <= i < |items| ==> WellFormed(env, fs, order, file, field, items[i], bound))
            && (r.Ok? ==> (Denotes(env, r.value, e) <==>
                  exists i :: 0 <= i < |items| && Means(env, fs, order, file, field, items[i], bound, e)))
    decreases bound, items, 2
  {
    if field == "IP" && BatchedPrefixes(env, items).Some? {
      BatchIsFaithful(env, fs, order, file, items, bound, e);
    } else {
      ItemsAreFaithful(env, fs, order, file, field, items, bound, e);
    }
  }

  // A batch of prefixes has one for every item, which means just that.
  lemma BatchIsFaithful(env: Env, fs: FileSystem, order: seq<Path>, file: Path, items: seq<Value>, bound: nat,
          e: LogEntry)
    requires ValidEnv(env) && FilesRanked(env, fs, order) && BatchedPrefixes(env, items).Some?
    requires forall i :: 0 <= i < |items| ==> Ranked(env, order, file, items[i], bound)
    ensures var ps := BatchedPrefixes(env, items).value;
            && |ps| == |items|
            && forall i :: 0 <= i < |items| ==>
                 && WellFormed(env, fs, order, file, "IP", items[i], bound)
                 && (Means(env, fs, order, file, "IP", items[i], bound, e) <==> PrefixContains(ps[i], e.ip.addr))
  {
    BatchIsAnyPrefix(env, items);
    forall i | 0 <= i < |items|
      ensures WellFormed(env, fs, order, file, "IP", items[i], bound)
      ensures Means(env, fs, order, file, "IP", items[i], bound, e)
              <==> PrefixContains(BatchedPrefixes(env, items).value[i], e.ip.addr)
    {
      PrefixItem(env, fs, order, file, items[i], bound, e);
    }
  }

  lemma {:induction false} ItemsAreFaithful(env: Env, fs: FileSystem, order: seq<Path>, file: Path, field: string,
          items: seq<Value>, bound: nat, e: LogEntry)
    requires ValidEnv(env) && FilesRanked(env, fs, order) && Canonical(field) == field
    requires forall i :: 0 <= i < |items| ==> Ranked(env, order, file, items[i], bound)
    ensures var r := CompileItems(env, fs, order, file, field, items, bound);
            && (r.Ok? <==> forall i :: 0 <= i < |items| ==> WellFormed(env, fs, order, file, field, items[i], bound))
            && (r.Ok? ==> forall i :: 0 <= i < |items| ==>
                  (Denotes(env, r.value[i], e) <==> Means(env, fs, order, file, field, items[i], bound, e)))
    decreases bound, items, 1
  {
    if items != [] {
      CompileIsFaithful(env, fs, order, file, field, items[0], bound, e);
      ItemsAreFaithful(env, fs, order, file, field, items[1..], bound, e);
      assert forall i :: 0 < i < |items| ==> items[i] == items[1..][i - 1];
    }
  }

  // The operators of an object from the k-th on, compiled to ms.
  ghost predicate OperatorFaithful(env: Env, fs: FileSystem, order: seq<Path>, file: Path, field: string, v: Value,
          i: nat, ms: seq<Matcher>, k: nat, bound: nat, e: LogEntry)
    requires FilesRanked(env, fs, order) && Ranked(env, order, file, v, bound) && v.VObject? && i < |v.entries|
    requires k <= i < k + |ms|
  {
    Denotes(env, ms[i - k], e) <==> OperatorMeans(env, fs, order, file, field, v, i, bound, e)
  }

  ghost predicate OperatorsWellFormed(env: Env, fs: FileSystem, order: seq<Path>, file: Path, field: string,
          v: Value, k: nat, bound: nat)
    requires FilesRanked(env, fs, order) && Ranked(env, order, file, v, bound) && v.VObject?
  {
    forall i :: k <= i < |v.entries| ==> WellFormedOperator(env, fs, order, file, field, v, i, bound)
  }

  lemma NextOperator(env: Env, fs: FileSystem, order: seq<Path>, file: Path, field: string, v: Value, k: nat,
          bound: nat)
    requires FilesRanked(env, fs, order) && Ranked(env, order, file, v, bound) && v.VObject? && k < |v.entries|
    ensures OperatorsWellFormed(env, fs, order, file, field, v, k, bound) <==>
            && WellFormedOperator(env, fs, order, file, field, v, k, bound)
            && OperatorsWellFormed(env, fs, order, file, field, v, k + 1, bound)
  {
  }

  lemma {:induction false} EntriesAreFaithful(env: Env, fs: FileSystem, order: seq<Path>, file: Path, field: string,
          v: Value, k: nat, bound: nat, e: LogEntry)
    requires ValidEnv(env) && FilesRanked(env, fs, order) && Canonical(field) == field
    requires Ranked(env, order, file, v, bound) && v.VObject? && k <= |v.entries|
    ensures var r := CompileEntries(env, fs, order, file, field, v, k, bound);
            && (r.Ok? <==> OperatorsWellFormed(env, fs, order, file, field, v, k, bound))
            && (r.Ok? ==> forall i :: k <= i < |v.entries| ==>
                  OperatorFaithful(env, fs, order, file, field, v, i, r.value, k, bound, e))
    decreases bound, v, 2, |v.entries| - k
  {
    if k < |v.entries| {
      if v.entries[k].0 == "not" {
        CompileIsFaithful(env, fs, order, file, field, v.entries[k].1, bound, e);
      }
      var next := k + 1;
      EntriesAreFaithful(env, fs, order, file, field, v, next, bound, e);
      var first := CompileOperator(env, fs, order, file, field, v, k, bound);
      var rest := CompileEntries(env, fs, order, file, field, v, next, bound);
      var r := CompileEntries(env, fs, order, file, field, v, k, bound);
      assert first.Ok? <==> WellFormedOperator(env, fs, order, file, field, v, k, bound);
      NextOperator(env, fs, order, file, field, v, k, bound);
      if r.Ok? {
        forall i | k <= i < |v.entries|
          ensures OperatorFaithful(env, fs, order, file, field, v, i, r.value, k, bound, e)
        {
          if i > k {
            assert OperatorFaithful(env, fs, order, file, field, v, i, rest.value, next, bound, e);
          }
        }
      }
    }
  }

  lemma {:induction false} ObjectIsFaithful(env: Env, fs: FileSystem, order: seq<Path>, file: Path, field: string,
          v: Value, bound: nat, e: LogEntry)
    requires ValidEnv(env) && FilesRanked(env, fs, order) && Canonical(field) == field
    requires Ranked(env, order, file, v, bound) && v.VObject?
    ensures Faithful(env, fs, order, file, field, v, bound, e)
    decreases bound, v, 3
  {
    EntriesAreFaithful(env, fs, order, file, field, v, 0, bound, e);
    var r := CompileEntries(env, fs, order, file, field, v, 0, bound);
    if r.Ok? {
      forall i | 0 <= i < |v.entries|
        ensures Denotes(env, r.value[i], e) <==> OperatorMeans(env, fs, order, file, field, v, i, bound, e)
      {
        assert OperatorFaithful(env, fs, order, file, field, v, i, r.value, 0, bound, e);
      }
    }
  }

  // The batch holds the prefix of every item, in order.
  lemma {:induction false} BatchIsAnyPrefix(env: Env, items: seq<Value>)
    requires BatchedPrefixes(env, items).Some?
    ensures var ps := BatchedPrefixes(env, items).value;
            |ps| == |items| && forall i :: 0 <= i < |items| ==> ItemPrefix(env, items[i]) == Some(ps[i])
  {
    if items != [] {
      BatchIsAnyPrefix(env, items[1..]);
      assert forall i :: 0 < i < |items| ==> items[i] == items[1..][i - 1];
    }
  }

  // A batched item means what the single matcher for it would.
  lemma PrefixItem(env: Env, fs: FileSystem, order: seq<Path>, file: Path, v: Value, bound: nat, e: LogEntry)
    requires ValidEnv(env) && FilesRanked(env, fs, order) && Ranked(env, order, file, v, bound)
    requires ItemPrefix(env, v).Some?
    ensures WellFormed(env, fs, order, file, "IP", v, bound)
    ensures Means(env, fs, order, file, "IP", v, bound, e) <==> PrefixContains(ItemPrefix(env, v).value, e.ip.addr)
  {
    var s := v.s;
    assert s[0] == "cidr:"[0] == 'c';
    assert !HasPrefix(s, "exact:") && !HasPrefix(s, "file:") && !HasPrefix(s, "regex:");
    assert TrimPrefix("cidr:", "cidr:") == "";
    assert Classify("IP", s) == Cidr(TrimPrefix(s, "cidr:"));
  }

  // ------------------------------------------------ the scan admits compilation

  // The scan reads target out of the scalar t of the main file, whose path it trims.
  predicate Names(env: Env, p: Path, t: string, target: Path) {
    var rel := TrimSpace(TrimPrefix(t, FILE_PREFIX));
    HasPrefix(t, FILE_PREFIX) && rel != "" && env.resolve(p, rel) == target
  }

  // The file the compiler opens for s, without trimming, is one the scan reads out of
  // some scalar.
  ghost predicate Scanned(env: Env, p: Path, scalars: seq<string>, s: string) {
    exists t :: t in scalars && Names(env, p, t, Target(env, p, s))
  }

  // Scan and compiler part at an include of the main file exactly when no scalar of
  // the file, trimmed, names what the compiler opens.
  lemma {:induction false} BlanksPartScanAndCompiler(env: Env, p: Path, scalars: seq<string>, s: string)
    ensures Target(env, p, s) in MainDirectives(env.resolve, p, scalars) <==> Scanned(env, p, scalars, s)
  {
    if scalars != [] {
      BlanksPartScanAndCompiler(env, p, scalars[1..], s);
      assert forall t :: t in scalars <==> t == scalars[0] || t in scalars[1..];
      assert Names(env, p, scalars[0], Target(env, p, s)) ==> Scanned(env, p, scalars, s);
      if Scanned(env, p, scalars[1..], s) {
        var t :| t in scalars[1..] && Names(env, p, t, Target(env, p, s));
        assert t in scalars;
      }
    }
  }

  // Every include of v leads to a scanned file or to one of the others listed.
  ghost predicate Covered(env: Env, p: Path, scalars: seq<string>, v: Value, others: seq<Path>) {
    match v
    case VString(s) => IsInclude(s) ==> Scanned(env, p, scalars, s) || Target(env, p, s) in others
    case VList(items) => forall i :: 0 <= i < |items| ==> Covered(env, p, scalars, items[i], others)
    case VObject(entries) => forall i :: 0 <= i < |entries| ==> Covered(env, p, scalars, entries[i].1, others)
    case _ => true
  }

  // All strings of v come from the main file.
  ghost predicate StringsFrom(v: Value, scalars: seq<string>) {
    match v
    case VString(s) => s in scalars
    case VList(items) => forall i :: 0 <= i < |items| ==> StringsFrom(items[i], scalars)
    case VObject(entries) => forall i :: 0 <= i < |entries| ==> StringsFrom(entries[i].1, scalars)
    case _ => true
  }

  // Every file the compiler opens for a line is one the scan recorded.
  lemma {:induction false} TextTargetScanned(env: Env, p: Path, lines: seq<string>, s: string)
    requires s in SignificantLines(lines) && IsInclude(s)
    ensures Target(env, p, s) in TextDirectives(env.resolve, p, lines)
  {
    if !(Significant(lines[0]) && s == lines[0]) {
      TextTargetScanned(env, p, lines[1..], s);
    }
  }

  // The files below the root, in an order the cycle search left: the root is done
  // last.
  ghost predicate Accepted(g: Edges, order: seq<Path>, root: Path, files: seq<Path>) {
    Topological(g, order) && order == files + [root]
  }

  lemma IncludedRank(g: Edges, order: seq<Path>, root: Path, files: seq<Path>, p: Path, d: Path)
    requires Accepted(g, order, root, files) && p in files && p in g && d in g[p]
    ensures d in files && Rank(files, d) < Rank(files, p)
  {
    assert forall i :: 0 <= i < |files| ==> order[i] == files[i];
    var i := Rank(files, p);
    assert order[..i] == files[..i];
    var j :| 0 <= j < i && files[j] == d;
    assert files[Rank(files, d)] == files[j];
  }

  // In an accepted graph every include of an included file opens a file of lower
  // rank, and so does every include of the main file: compilation terminates.
  lemma AcceptedIncludesAreRanked(env: Env, fs: FileSystem, g: Edges, order: seq<Path>, root: Path,
          scalars: seq<string>, files: seq<Path>)
    requires ScanOf(g, env.resolve, fs, root, scalars) && Accepted(g, order, root, files)
    ensures FilesRanked(env, fs, files)
  {
    forall p, i | p in files && 0 <= i < |ReadLines(fs, p)|
      ensures Ranked(env, files, p, VString(ReadLines(fs, p)[i]), Rank(files, p))
    {
      var s := ReadLines(fs, p)[i];
      if IsInclude(s) {
        TextTargetScanned(env, p, fs[p].lines, s);
        var k :| 0 <= k < |files| && files[k] == p;
        assert order[k] == p && order[|files|] == root;
        IncludedRank(g, order, root, files, p, Target(env, p, s));
      }
    }
  }

  // The files of a that are not in b, in their order.
  function Without(a: seq<Path>, b: seq<Path>): (r: seq<Path>)
    ensures forall p :: p in r <==> p in a && p !in b
  {
    if a == [] then [] else if a[0] in b then Without(a[1..], b) else [a[0]] + Without(a[1..], b)
  }

  lemma {:induction false} RankWithout(a: seq<Path>, b: seq<Path>, p: Path, q: Path)
    requires p in a && q in a && p !in b && q !in b && Rank(a, p) < Rank(a, q)
    ensures Rank(Without(a, b), p) < Rank(Without(a, b), q)
  {
    var rest := Without(a[1..], b);
    assert a == [a[0]] + a[1..];
    if a[0] == p {
      RankNext(p, rest, q);
    } else {
      RankNext(a[0], a[1..], p);
      RankNext(a[0], a[1..], q);
      RankWithout(a[1..], b, p, q);
      RankNext(a[0], rest, p);
      RankNext(a[0], rest, q);
    }
  }

  lemma RankNext(first: Path, rest: seq<Path>, p: Path)
    requires first == p || p in rest
    ensures Rank([first] + rest, p) == if first == p then 0 else 1 + Rank(rest, p)
  {
    assert ([first] + rest)[1..] == rest;
  }

  lemma {:induction false} RankBehind(a: seq<Path>, b: seq<Path>, p: Path)
    requires p in a || p in b
    ensures Rank(a + b, p) == if p in a then Rank(a, p) else |a| + Rank(b, p)
  {
    if a == [] {
      assert a + b == b;
    } else if a[0] != p {
      assert (a + b)[1..] == a[1..] + b;
      RankBehind(a[1..], b, p);
    }
  }

  // Two rankings in one: the second keeps what is new in it.
  lemma JoinRanked(env: Env, fs: FileSystem, a: seq<Path>, b: seq<Path>)
    requires FilesRanked(env, fs, a) && FilesRanked(env, fs, b)
    ensures FilesRanked(env, fs, a + Without(b, a))
  {
    var all := a + Without(b, a);
    forall p, i | p in all && 0 <= i < |ReadLines(fs, p)|
      ensures Ranked(env, all, p, VString(ReadLines(fs, p)[i]), Rank(all, p))
    {
      var s := ReadLines(fs, p)[i];
      if IsInclude(s) {
        var t := Target(env, p, s);
        assert Ranked(env, if p in a then a else b, p, VString(s), Rank(if p in a then a else b, p));
        RankBehind(a, Without(b, a), p);
        RankBehind(a, Without(b, a), t);
        if p !in a && t !in a { RankWithout(b, a, t, p); }
      }
    }
  }

  // With the scanned files in front, such a value is ranked.
  lemma {:induction false} CoveredIsRanked(env: Env, fs: FileSystem, g: Edges, order: seq<Path>, root: Path,
          scalars: seq<string>, files: seq<Path>, others: seq<Path>, v: Value)
    requires ScanOf(g, env.resolve, fs, root, scalars) && Accepted(g, order, root, files)
    requires fs[root].Readable? && Covered(env, root, scalars, v, others)
    ensures var all := files + Without(others, files); Ranked(env, all, root, v, |all|)
    decreases v
  {
    var all := files + Without(others, files);
    match v
    case VString(s) =>
      if IsInclude(s) {
        var t := Target(env, root, s);
        BlanksPartScanAndCompiler(env, root, scalars, s);
        assert order[|files|] == root && order[..|files|] == files;
        assert t in g[root] ==> t in files;
        assert t in all;
      }
    case VList(items) =>
      forall i | 0 <= i < |items| ensures Ranked(env, all, root, items[i], |all|) {
        CoveredIsRanked(env, fs, g, order, root, scalars, files, others, items[i]);
      }
    case VObject(entries) =>
      forall i | 0 <= i < |entries| ensures Ranked(env, all, root, entries[i].1, |all|) {
        CoveredIsRanked(env, fs, g, order, root, scalars, files, others, entries[i].1);
      }
    case _ =>
  }

  lemma {:induction false} RankedIsCovered(env: Env, p: Path, scalars: seq<string>, order: seq<Path>, v: Value,
          bound: nat)
    requires Ranked(env, order, p, v, bound)
    ensures Covered(env, p, scalars, v, order)
    decreases v
  {
    match v
    case VString(_) =>
    case VList(items) =>
      forall i | 0 <= i < |items| ensures Covered(env, p, scalars, items[i], order) {
        RankedIsCovered(env, p, scalars, order, items[i], bound);
      }
    case VObject(entries) =>
      forall i | 0 <= i < |entries| ensures Covered(env, p, scalars, entries[i].1, order) {
        RankedIsCovered(env, p, scalars, order, entries[i].1, bound);
      }
    case _ =>
  }

  // Some order of files ranks everything the compiler opens for v: its recursion
  // ends.
  ghost predicate Rankable(env: Env, fs: FileSystem, file: Path, v: Value) {
    exists order, bound: nat :: FilesRanked(env, fs, order) && Ranked(env, order, file, v, bound)
  }

  // After a scan without cycle, that is so exactly if the includes of v that the scan
  // did not read can be ranked by themselves: all others are.
  lemma MainValueIsRanked(env: Env, fs: FileSystem, g: Edges, order: seq<Path>, root: Path,
          scalars: seq<string>, files: seq<Path>, v: Value)
    requires ScanOf(g, env.resolve, fs, root, scalars) && Accepted(g, order, root, files)
    requires fs[root].Readable?
    ensures Rankable(env, fs, root, v) <==>
            exists others :: FilesRanked(env, fs, others) && Covered(env, root, scalars, v, others)
  {
    AcceptedIncludesAreRanked(env, fs, g, order, root, scalars, files);
    if Rankable(env, fs, root, v) {
      var all, bound: nat :| FilesRanked(env, fs, all) && Ranked(env, all, root, v, bound);
      RankedIsCovered(env, root, scalars, all, v, bound);
    }
    forall others | FilesRanked(env, fs, others) && Covered(env, root, scalars, v, others)
      ensures Rankable(env, fs, root, v)
    {
      CoveredIsRanked(env, fs, g, order, root, scalars, files, others, v);
      JoinRanked(env, fs, files, others);
    }
  }

  // Trimming the include leaves the file it names.
  predicate SameTarget(env: Env, p: Path, s: string) {
    Names(env, p, s, Target(env, p, s))
  }

  // A value of the main file none of whose includes is changed by trimming needs no
  // other files.
  lemma {:induction false} PlainPathsAreCovered(env: Env, p: Path, scalars: seq<string>, v: Value)
    requires StringsFrom(v, scalars) && forall s :: s in scalars && IsInclude(s) ==> SameTarget(env, p, s)
    ensures Covered(env, p, scalars, v, [])
    decreases v
  {
    match v
    case VString(_) =>
    case VList(items) =>
      forall i | 0 <= i < |items| ensures Covered(env, p, scalars, items[i], []) {
        PlainPathsAreCovered(env, p, scalars, items[i]);
      }
    case VObject(entries) =>
      forall i | 0 <= i < |entries| ensures Covered(env, p, scalars, entries[i].1, []) {
        PlainPathsAreCovered(env, p, scalars, entries[i].1);
      }
    case _ =>
  }

  // A main file that includes ` loop`, a file of that name that includes itself, and
  // no file `loop`.
  ghost predicate LoopBehindBlank(env: Env, fs: FileSystem, root: Path, hidden: Path) {
    && env.resolve(root, " loop") == env.resolve(hidden, " loop") == hidden
    && env.resolve(root, "loop") !in fs && env.resolve(root, "loop") != root
    && root in fs && fs[root].Readable?
    && hidden in fs && fs[hidden] == Readable(["file: loop"])
  }

  // Where they part, the scan can find no cycle although compilation never ends: no
  // order of the files ranks the includes.
  lemma HiddenLoop(env: Env, fs: FileSystem, root: Path, hidden: Path, g: Edges)
    requires LoopBehindBlank(env, fs, root, hidden) && ScanOf(g, env.resolve, fs, root, ["file: loop"])
    ensures forall path :: !CyclePath(g, root, path)
    ensures forall order, bound: nat ::
      !(FilesRanked(env, fs, order) && Ranked(env, order, root, VString("file: loop"), bound))
  {
    LoopText();
    NoEdgesBehind(env, fs, root, g);
    assert ReadLines(fs, hidden) == ["file: loop"] && ReadLines(fs, hidden)[0] == "file: loop";
  }

  lemma LoopText()
    ensures IsInclude("file: loop") && TrimPrefix("file: loop", FILE_PREFIX) == " loop"
    ensures TrimSpace(" loop") == "loop" && Significant("file: loop")
  {
    assert TrimLeft(" loop") == TrimLeft("loop") == "loop";
    assert TrimRight("loop") == "loop";
    assert TrimLeft("file: loop") == "file: loop" == TrimRight("file: loop");
  }

  lemma NoEdgesBehind(env: Env, fs: FileSystem, root: Path, g: Edges)
    requires env.resolve(root, "loop") !in fs && env.resolve(root, "loop") != root
    requires root in fs && fs[root].Readable?
    requires ScanOf(g, env.resolve, fs, root, ["file: loop"])
    ensures forall path :: !CyclePath(g, root, path)
  {
    LoopText();
    var missing := env.resolve(root, "loop");
    assert ["file: loop"][1..] == [];
    assert MainDirectives(env.resolve, root, ["file: loop"][1..]) == [];
    assert MainDirectives(env.resolve, root, ["file: loop"]) == [missing];
    assert g[root] == [missing];
    assert missing in g[root];
    forall path ensures !CyclePath(g, root, path) {
      DeadEnd(g, root, missing, path);
    }
  }

  // A path out of a root with one dead end cannot return.
  lemma DeadEnd(g: Edges, root: Path, end: Path, path: seq<Path>)
    requires root in g && end in g && g[root] == [end] && g[end] == [] && end != root
    ensures !CyclePath(g, root, path)
  {
    if |path| >= 2 && path[0] == root && EdgePath(g, path) {
      Along(g, path, 0);
      if |path| > 2 { Along(g, path, 1); }
    }
  }

  lemma Along(g: Edges, path: seq<Path>, i: nat)
    requires EdgePath(g, path) && i + 1 < |path|
    ensures path[i + 1] in g[path[i]]
  {
  }
}
