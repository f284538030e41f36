// The compiler as it runs: it loops over lists and objects, opens included files
// and records every one of them for the file watcher.
module ConfigCompiler {
  import opened LogEntries
  import opened IncludeGraph
  import opened MatcherSpec
  import opened MatcherCompiler
  import opened MatcherRuntime

  // Every file that v includes, directly or through other files, is recorded with
  // its current lines.
  ghost predicate Watched(deps: map<Path, seq<string>>, env: Env, fs: FileSystem, order: seq<Path>, file: Path,
          v: Value, bound: nat)
    requires FilesRanked(env, fs, order) && Ranked(env, order, file, v, bound)
    decreases bound, v
  {
    match v
    case VString(s) =>
      IsInclude(s) ==>
        var t := Target(env, file, s);
        && t in deps && deps[t] == ReadLines(fs, t)
        && forall i :: 0 <= i < |ReadLines(fs, t)| ==>
             Watched(deps, env, fs, order, t, VString(ReadLines(fs, t)[i]), Rank(order, t))
    case VList(items) => forall i :: 0 <= i < |items| ==> Watched(deps, env, fs, order, file, items[i], bound)
    case VObject(entries) => forall i :: 0 <= i < |entries| ==> Watched(deps, env, fs, order, file, entries[i].1, bound)
    case _ => true
  }

  // Files are added, or read again.
  ghost predicate Updates(deps: map<Path, seq<string>>, deps': map<Path, seq<string>>, fs: FileSystem) {
    deps.Keys <= deps'.Keys && forall p :: p in deps' ==> (p in deps && deps'[p] == deps[p]) || deps'[p] == ReadLines(fs, p)
  }

  lemma {:induction false} WatchedStays(deps: map<Path, seq<string>>, deps': map<Path, seq<string>>, env: Env,
          fs: FileSystem, order: seq<Path>, file: Path, v: Value, bound: nat)
    requires FilesRanked(env, fs, order) && Ranked(env, order, file, v, bound)
    requires Updates(deps, deps', fs) && Watched(deps, env, fs, order, file, v, bound)
    ensures Watched(deps', env, fs, order, file, v, bound)
    decreases bound, v
  {
    match v
    case VString(s) =>
      if IsInclude(s) {
        var t := Target(env, file, s);
        forall i | 0 <= i < |ReadLines(fs, t)|
          ensures Watched(deps', env, fs, order, t, VString(ReadLines(fs, t)[i]), Rank(order, t))
        {
          WatchedStays(deps, deps', env, fs, order, t, VString(ReadLines(fs, t)[i]), Rank(order, t));
        }
      }
    case VList(items) =>
      forall i | 0 <= i < |items| ensures Watched(deps', env, fs, order, file, items[i], bound) {
        WatchedStays(deps, deps', env, fs, order, file, items[i], bound);
      }
    case VObject(entries) =>
      forall i | 0 <= i < |entries| ensures Watched(deps', env, fs, order, file, entries[i].1, bound) {
        WatchedStays(deps, deps', env, fs, order, file, entries[i].1, bound);
      }
    case _ =>
  }

  ghost predicate ItemsWatched(deps: map<Path, seq<string>>, env: Env, fs: FileSystem, order: seq<Path>, file: Path,
          items: seq<Value>, bound: nat)
    requires FilesRanked(env, fs, order)
    requires forall i :: 0 <= i < |items| ==> Ranked(env, order, file, items[i], bound)
  {
    forall i :: 0 <= i < |items| ==> Watched(deps, env, fs, order, file, items[i], bound)
  }

  lemma ItemsWatchedGrow(deps: map<Path, seq<string>>, deps': map<Path, seq<string>>, env: Env, fs: FileSystem,
          order: seq<Path>, file: Path, items: seq<Value>, i: nat, bound: nat)
    requires FilesRanked(env, fs, order) && i < |items|
    requires forall i :: 0 <= i < |items| ==> Ranked(env, order, file, items[i], bound)
    requires Updates(deps, deps', fs)
    requires ItemsWatched(deps, env, fs, order, file, items[..i], bound)
    requires Watched(deps', env, fs, order, file, items[i], bound)
    ensures ItemsWatched(deps', env, fs, order, file, items[..i + 1], bound)
  {
    var upto, before := items[..i + 1], items[..i];
    forall j | 0 <= j < |upto| ensures Watched(deps', env, fs, order, file, upto[j], bound) {
      if j < i {
        assert Watched(deps, env, fs, order, file, before[j], bound);
        WatchedStays(deps, deps', env, fs, order, file, items[j], bound);
      }
    }
  }

  // The same for the first k operators of an object.
  ghost predicate EntriesWatched(deps: map<Path, seq<string>>, env: Env, fs: FileSystem, order: seq<Path>, file: Path,
          v: Value, k: nat, bound: nat)
    requires FilesRanked(env, fs, order) && Ranked(env, order, file, v, bound) && v.VObject? && k <= |v.entries|
  {
    forall i :: 0 <= i < k ==> Watched(deps, env, fs, order, file, v.entries[i].1, bound)
  }

  lemma EntriesWatchedGrow(deps: map<Path, seq<string>>, deps': map<Path, seq<string>>, env: Env, fs: FileSystem,
          order: seq<Path>, file: Path, v: Value, k: nat, bound: nat)
    requires FilesRanked(env, fs, order) && Ranked(env, order, file, v, bound) && v.VObject? && k < |v.entries|
    requires Updates(deps, deps', fs) && EntriesWatched(deps, env, fs, order, file, v, k, bound)
    requires Watched(deps', env, fs, order, file, v.entries[k].1, bound)
    ensures EntriesWatched(deps', env, fs, order, file, v, k + 1, bound)
  {
    forall i | 0 <= i < k ensures Watched(deps', env, fs, order, file, v.entries[i].1, bound) {
      WatchedStays(deps, deps', env, fs, order, file, v.entries[i].1, bound);
    }
  }

  // ------------------------------------------------- unrolling the list loops

  function Append(ms: seq<Matcher>, rest: Result<seq<Matcher>>): Result<seq<Matcher>> {
    if rest.Err? then Err else Ok(ms + rest.value)
  }

  lemma ItemsUnroll(env: Env, fs: FileSystem, order: seq<Path>, file: Path, field: string, items: seq<Value>, i: nat,
          bound: nat, ms: seq<Matcher>)
    requires FilesRanked(env, fs, order) && i < |items|
    requires forall i :: 0 <= i < |items| ==> Ranked(env, order, file, items[i], bound)
    ensures var all := CompileItems(env, fs, order, file, field, items[i..], bound);
            var first := Compile(env, fs, order, file, field, items[i], bound);
            var rest := CompileItems(env, fs, order, file, field, items[i + 1..], bound);
            Append(ms, all) == if first.Err? then Err else Append(ms + [first.value], rest)
  {
    assert items[i..][0] == items[i] && items[i..][1..] == items[i + 1..];
    var first := Compile(env, fs, order, file, field, items[i], bound);
    var rest := CompileItems(env, fs, order, file, field, items[i + 1..], bound);
    if first.Ok? && rest.Ok? {
      assert ms + ([first.value] + rest.value) == (ms + [first.value]) + rest.value;
    }
  }

  lemma EntriesUnroll(env: Env, fs: FileSystem, order: seq<Path>, file: Path, field: string, v: Value, k: nat,
          bound: nat, ms: seq<Matcher>)
    requires FilesRanked(env, fs, order) && Ranked(env, order, file, v, bound) && v.VObject? && k < |v.entries|
    ensures var all := CompileEntries(env, fs, order, file, field, v, k, bound);
            var first := CompileOperator(env, fs, order, file, field, v, k, bound);
            var rest := CompileEntries(env, fs, order, file, field, v, k + 1, bound);
            Append(ms, all) == if first.Err? then Err else Append(ms + [first.value], rest)
  {
    var first := CompileOperator(env, fs, order, file, field, v, k, bound);
    var rest := CompileEntries(env, fs, order, file, field, v, k + 1, bound);
    if first.Ok? && rest.Ok? {
      assert ms + ([first.value] + rest.value) == (ms + [first.value]) + rest.value;
    }
  }

  // A list item that is a prefix includes nothing.
  lemma PrefixItemWatched(deps: map<Path, seq<string>>, env: Env, fs: FileSystem, order: seq<Path>, file: Path,
          v: Value, bound: nat)
    requires FilesRanked(env, fs, order) && Ranked(env, order, file, v, bound)
    requires ItemPrefix(env, v).Some?
    ensures Watched(deps, env, fs, order, file, v, bound)
  {
    assert v.s[0] == "cidr:"[0];
  }

  class Compiler {
    var fileDependencies: map<Path, seq<string>>

    constructor (deps: map<Path, seq<string>>)
      ensures fileDependencies == deps
    {
      fileDependencies := deps;
    }

    // compileSingleMatcher and CompileStringMatcher
    method CompileSingle(env: Env, fs: FileSystem, ghost order: seq<Path>, file: Path, field: string, v: Value,
            ghost bound: nat)
        returns (r: Result<Matcher>)
      requires FilesRanked(env, fs, order) && Ranked(env, order, file, v, bound)
      modifies this
      ensures r == Compile(env, fs, order, file, field, v, bound)
      ensures Updates(old(fileDependencies), fileDependencies, fs)
      ensures r.Ok? ==> Watched(fileDependencies, env, fs, order, file, v, bound)
      decreases bound, v, 3
    {
      var name := Canonical(field);
      match v
      case VString(s) =>
        if IsInclude(s) {
          r := CompileInclude(env, fs, order, file, name, s, bound);
        } else {
          IncludeClassified(name, s);
          r := CompileDirective(env, name, Classify(name, s));
        }
      case VInt(n) => r := Ok(IntEquals(name, n));
      case VList(items) => r := CompileListItems(env, fs, order, file, name, items, bound);
      case VObject(entries) => r := CompileObject(env, fs, order, file, name, v, bound);
      case VOther => r := Err;
    }

    // The `file:` branch: the file is recorded, read, and compiled as a list in its
    // own directory.
    method CompileInclude(env: Env, fs: FileSystem, ghost order: seq<Path>, file: Path, name: string, s: string,
            ghost bound: nat)
        returns (r: Result<Matcher>)
      requires FilesRanked(env, fs, order) && Ranked(env, order, file, VString(s), bound) && IsInclude(s)
      modifies this
      ensures r == CompileList(env, fs, order, Target(env, file, s), name, Strings(ReadLines(fs, Target(env, file, s))), Rank(order, Target(env, file, s)))
      ensures Updates(old(fileDependencies), fileDependencies, fs)
      ensures r.Ok? ==> Watched(fileDependencies, env, fs, order, file, VString(s), bound)
      decreases bound, VString(s), 2
    {
      var t := Target(env, file, s);
      var content := ReadLines(fs, t);
      fileDependencies := fileDependencies[t := content];
      r := CompileListItems(env, fs, order, t, name, Strings(content), Rank(order, t));
      if r.Ok? {
        assert forall i :: 0 <= i < |content| ==> Watched(fileDependencies, env, fs, order, t, Strings(content)[i], Rank(order, t));
      }
    }

    // compileListMatcher
    method CompileListItems(env: Env, fs: FileSystem, ghost order: seq<Path>, file: Path, field: string,
            items: seq<Value>, ghost bound: nat)
        returns (r: Result<Matcher>)
      requires FilesRanked(env, fs, order)
      requires forall i :: 0 <= i < |items| ==> Ranked(env, order, file, items[i], bound)
      modifies this
      ensures r == CompileList(env, fs, order, file, field, items, bound)
      ensures Updates(old(fileDependencies), fileDependencies, fs)
      ensures r.Ok? ==> ItemsWatched(fileDependencies, env, fs, order, file, items, bound)
      decreases bound, items, 2
    {
      if field == "IP" {
        var batch := TryCompileBatchedCIDR(env, items);
        if batch.Some? {
          BatchIsAnyPrefix(env, items);
          forall i | 0 <= i < |items| ensures Watched(fileDependencies, env, fs, order, file, items[i], bound) {
            PrefixItemWatched(fileDependencies, env, fs, order, file, items[i], bound);
          }
          return Ok(InAnyPrefix(batch.value));
        }
      }
      var ms := CompileEach(env, fs, order, file, field, items, bound);
      r := if ms.Err? then Err else Ok(AnyOf(ms.value));
    }

    method CompileEach(env: Env, fs: FileSystem, ghost order: seq<Path>, file: Path, field: string,
            items: seq<Value>, ghost bound: nat)
        returns (r: Result<seq<Matcher>>)
      requires FilesRanked(env, fs, order)
      requires forall i :: 0 <= i < |items| ==> Ranked(env, order, file, items[i], bound)
      modifies this
      ensures r == CompileItems(env, fs, order, file, field, items, bound)
      ensures Updates(old(fileDependencies), fileDependencies, fs)
      ensures r.Ok? ==> ItemsWatched(fileDependencies, env, fs, order, file, items, bound)
      decreases bound, items, 1
    {
      var ms := [];
      ghost var all := CompileItems(env, fs, order, file, field, items, bound);
      assert items[0..] == items;
      assert all.Ok? ==> [] + all.value == all.value;
      for i := 0 to |items|
        invariant all == Append(ms, CompileItems(env, fs, order, file, field, items[i..], bound))
        invariant Updates(old(fileDependencies), fileDependencies, fs)
        invariant ItemsWatched(fileDependencies, env, fs, order, file, items[..i], bound)
      {
        ghost var before := fileDependencies;
        var m := CompileSingle(env, fs, order, file, field, items[i], bound);
        ItemsUnroll(env, fs, order, file, field, items, i, bound, ms);
        if m.Err? { return Err; }
        ItemsWatchedGrow(before, fileDependencies, env, fs, order, file, items, i, bound);
        ms := ms + [m.value];
      }
      assert items[..|items|] == items;
      r := Ok(ms);
      assert ms + [] == ms;
    }

    // tryCompileBatchedCIDR
    method TryCompileBatchedCIDR(env: Env, items: seq<Value>) returns (r: Option<seq<Prefix>>)
      ensures r == BatchedPrefixes(env, items)
    {
      var prefixes := [];
      assert items[0..] == items;
      ghost var all := BatchedPrefixes(env, items);
      assert all.Some? ==> [] + all.value == all.value;
      for i := 0 to |items|
        invariant var rest := BatchedPrefixes(env, items[i..]);
                  BatchedPrefixes(env, items) == if rest.None? then None else Some(prefixes + rest.value)
      {
        assert items[i..][0] == items[i] && items[i..][1..] == items[i + 1..];
        var p := ItemPrefix(env, items[i]);
        if p.None? { return None; }
        ghost var rest := BatchedPrefixes(env, items[i + 1..]);
        if rest.Some? { assert prefixes + ([p.value] + rest.value) == (prefixes + [p.value]) + rest.value; }
        prefixes := prefixes + [p.value];
      }
      assert prefixes + [] == prefixes;
      return Some(prefixes);
    }

    // compileRangeMatcher and compileNotMatcher
    method CompileOne(env: Env, fs: FileSystem, ghost order: seq<Path>, file: Path, field: string, v: Value, k: nat,
            ghost bound: nat)
        returns (m: Result<Matcher>)
      requires FilesRanked(env, fs, order) && Ranked(env, order, file, v, bound) && v.VObject? && k < |v.entries|
      modifies this
      ensures m == CompileOperator(env, fs, order, file, field, v, k, bound)
      ensures Updates(old(fileDependencies), fileDependencies, fs)
      ensures m.Ok? ==> Watched(fileDependencies, env, fs, order, file, v.entries[k].1, bound)
      decreases bound, v, 1
    {
      var op, operand := v.entries[k].0, v.entries[k].1;
      if op == "not" {
        var inner := CompileSingle(env, fs, order, file, field, operand, bound);
        m := if inner.Err? then Err else Ok(NotOf(inner.value));
      } else {
        m := if IsRange(op) && operand.VInt? && TypeOf(field) == IntField then Ok(InRange(field, op, operand.n)) else Err;
      }
    }

    // compileObjectMatcher
    method CompileObject(env: Env, fs: FileSystem, ghost order: seq<Path>, file: Path, field: string, v: Value,
            ghost bound: nat)
        returns (r: Result<Matcher>)
      requires FilesRanked(env, fs, order) && Ranked(env, order, file, v, bound) && v.VObject?
      modifies this
      ensures r == if v.entries == [] then Err
                   else if CompileEntries(env, fs, order, file, field, v, 0, bound).Err? then Err
                   else Ok(AllOf(CompileEntries(env, fs, order, file, field, v, 0, bound).value))
      ensures Updates(old(fileDependencies), fileDependencies, fs)
      ensures r.Ok? ==> Watched(fileDependencies, env, fs, order, file, v, bound)
      decreases bound, v, 2
    {
      var ms := [];
      ghost var all := CompileEntries(env, fs, order, file, field, v, 0, bound);
      assert all.Ok? ==> [] + all.value == all.value;
      for k := 0 to |v.entries|
        invariant all == Append(ms, CompileEntries(env, fs, order, file, field, v, k, bound))
        invariant Updates(old(fileDependencies), fileDependencies, fs)
        invariant EntriesWatched(fileDependencies, env, fs, order, file, v, k, bound)
      {
        ghost var before := fileDependencies;
        EntriesUnroll(env, fs, order, file, field, v, k, bound, ms);
        var m := CompileOne(env, fs, order, file, field, v, k, bound);
        if m.Err? { return Err; }
        EntriesWatchedGrow(before, fileDependencies, env, fs, order, file, v, k, bound);
        ms := ms + [m.value];
      }
      assert ms + [] == ms;
      r := if ms == [] then Err else Ok(AllOf(ms));
    }
  }

  // --------------------------------------------------- what compilation delivers

  ghost predicate AllRunnable(env: Env, ms: seq<Matcher>) {
    forall i :: 0 <= i < |ms| ==> Runnable(ms[i]) && Parsed(env, ms[i])
  }

  // Compiled matchers for a configured field can be run with the caches.
  lemma {:induction false} CompiledIsRunnable(env: Env, fs: FileSystem, order: seq<Path>, file: Path, field: string,
          v: Value, bound: nat)
    requires FilesRanked(env, fs, order) && Ranked(env, order, file, v, bound)
    requires Configured(Canonical(field))
    ensures var r := Compile(env, fs, order, file, field, v, bound);
            r.Ok? ==> Runnable(r.value) && Parsed(env, r.value)
    decreases bound, v, 3
  {
    var name := Canonical(field);
    CanonicalIsFixed(field);
    match v
    case VString(s) =>
      if IsInclude(s) {
        var t := Target(env, file, s);
        ItemsAreRunnable(env, fs, order, t, name, Strings(ReadLines(fs, t)), Rank(order, t));
      }
    case VList(items) => ItemsAreRunnable(env, fs, order, file, name, items, bound);
    case VObject(entries) =>
      EntriesAreRunnable(env, fs, order, file, name, v, 0, bound);
      var r := CompileEntries(env, fs, order, file, name, v, 0, bound);
      if r.Ok? { assert AllRunnable(env, r.value); }
    case _ =>
  }

  lemma {:induction false} ItemsAreRunnable(env: Env, fs: FileSystem, order: seq<Path>, file: Path, field: string,
          items: seq<Value>, bound: nat)
    requires FilesRanked(env, fs, order) && Configured(Canonical(field))
    requires forall i :: 0 <= i < |items| ==> Ranked(env, order, file, items[i], bound)
    ensures var r := CompileItems(env, fs, order, file, field, items, bound);
            r.Ok? ==> AllRunnable(env, r.value)
    decreases bound, items, 1
  {
    if items != [] {
      CompiledIsRunnable(env, fs, order, file, field, items[0], bound);
      ItemsAreRunnable(env, fs, order, file, field, items[1..], bound);
    }
  }

  lemma {:induction false} EntriesAreRunnable(env: Env, fs: FileSystem, order: seq<Path>, file: Path, field: string,
          v: Value, k: nat, bound: nat)
    requires FilesRanked(env, fs, order) && Configured(Canonical(field))
    requires Ranked(env, order, file, v, bound) && v.VObject? && k <= |v.entries|
    ensures var r := CompileEntries(env, fs, order, file, field, v, k, bound);
            r.Ok? ==> AllRunnable(env, r.value)
    decreases bound, v, 2, |v.entries| - k
  {
    if k < |v.entries| {
      if v.entries[k].0 == "not" {
        CompiledIsRunnable(env, fs, order, file, field, v.entries[k].1, bound);
      }
      EntriesAreRunnable(env, fs, order, file, field, v, k + 1, bound);
      var r := CompileEntries(env, fs, order, file, field, v, k, bound);
      var rest := CompileEntries(env, fs, order, file, field, v, k + 1, bound);
      if r.Ok? {
        assert r.value[1..] == rest.value;
        assert AllRunnable(env, rest.value);
      }
    }
  }

  // Whatever ran on the entry before, running a compiled matcher answers what the
  // configured value means.
  method Answer(env: Env, fs: FileSystem, ghost order: seq<Path>, file: Path, field: string, v: Value,
          ghost bound: nat, m: Matcher, cached: CachedEntry)
      returns (result: bool)
    requires ValidEnv(env) && FilesRanked(env, fs, order) && Ranked(env, order, file, v, bound)
    requires Canonical(field) == field && Configured(field)
    requires Compile(env, fs, order, file, field, v, bound) == Ok(m)
    requires cached.Truthful(env)
    modifies cached
    ensures cached.Truthful(env)
    ensures result == Means(env, fs, order, file, field, v, bound, cached.entry)
  {
    CompiledIsRunnable(env, fs, order, file, field, v, bound);
    result := cached.Run(env, m);
    CompileIsFaithful(env, fs, order, file, field, v, bound, cached.entry);
  }

  lemma LoadIsRanked(env: Env, fs: FileSystem, g: Edges, done: seq<Path>, root: Path, scalars: seq<string>,
          files: seq<Path>, others: seq<Path>, v: Value)
    requires ScanOf(g, env.resolve, fs, root, scalars) && Accepted(g, done, root, files) && fs[root].Readable?
    requires FilesRanked(env, fs, others) && Covered(env, root, scalars, v, others)
    ensures var order := files + Without(others, files);
      FilesRanked(env, fs, order) && Ranked(env, order, root, v, |order|)
  {
    AcceptedIncludesAreRanked(env, fs, g, done, root, scalars, files);
    JoinRanked(env, fs, files, others);
    CoveredIsRanked(env, fs, g, done, root, scalars, files, others, v);
  }

  // From scan to match: when no cycle is reported for the main file, each of its
  // values compiles exactly if it is well formed, and everything it includes is
  // then watched.  others are files the scan missed; where trimming changes no path
  // there are none.
  method LoadMatcher(env: Env, fs: FileSystem, root: Path, scalars: seq<string>, field: string, v: Value,
          ghost others: seq<Path>, graph: DepGraph, compiler: Compiler)
      returns (cycle: seq<Path>, r: Result<Matcher>, ghost order: seq<Path>)
    requires root in fs && fs[root].Readable? && ValidEnv(env)
    requires FilesRanked(env, fs, others) && Covered(env, root, scalars, v, others)
    requires graph.nodes == map[] && graph.scannedFiles == graph.visiting == graph.visited == {} && graph.order == []
    modifies graph, compiler
    ensures ScanOf(graph.nodes, env.resolve, fs, root, scalars)
    ensures cycle != [] ==> CyclePath(graph.nodes, root, cycle) && r == Err
    ensures cycle == [] ==>
              && (forall path :: !CyclePath(graph.nodes, root, path))
              && FilesRanked(env, fs, order) && Ranked(env, order, root, v, |order|)
              && r == Compile(env, fs, order, root, Canonical(field), v, |order|)
              && (r.Ok? <==> WellFormed(env, fs, order, root, Canonical(field), v, |order|))
              && (r.Ok? ==> Watched(compiler.fileDependencies, env, fs, order, root, v, |order|))
  {
    var built := graph.Build(env.resolve, fs, root, scalars);
    cycle := graph.DetectCycle(root);
    r, order := Err, [];
    if cycle == [] {
      ghost var files := graph.order[..|graph.order| - 1];
      assert Accepted(graph.nodes, graph.order, root, files);
      order := files + Without(others, files);
      LoadIsRanked(env, fs, graph.nodes, graph.order, root, scalars, files, others, v);
      var name := Canonical(field);
      CanonicalIsFixed(field);
      r := compiler.CompileSingle(env, fs, order, root, name, v, |order|);
      var e0 := LogEntry(0, NO_IP, "", "", "", "", 0, 0, "", "", "");
      CompileIsFaithful(env, fs, order, root, name, v, |order|, e0);
    }
  }

  // Loading a value of the configuration and asking it about an entry: whatever ran
  // on the entry before, the answer is what the value means.
  method LoadAndAnswer(env: Env, fs: FileSystem, root: Path, scalars: seq<string>, key: string, v: Value,
          ghost others: seq<Path>, graph: DepGraph, compiler: Compiler, cached: CachedEntry)
      returns (cycle: seq<Path>, loaded: bool, result: bool, ghost order: seq<Path>)
    requires root in fs && fs[root].Readable? && ValidEnv(env)
    requires FilesRanked(env, fs, others) && Covered(env, root, scalars, v, others)
    requires graph.nodes == map[] && graph.scannedFiles == graph.visiting == graph.visited == {} && graph.order == []
    requires cached.Truthful(env)
    modifies graph, compiler, cached
    ensures cached.Truthful(env)
    ensures cycle != [] ==> CyclePath(graph.nodes, root, cycle) && !loaded
    ensures cycle == [] ==>
              && FilesRanked(env, fs, order) && Ranked(env, order, root, v, |order|)
              && var field := Canonical(ToLower(key));
                 && (loaded <==> WellFormed(env, fs, order, root, field, v, |order|))
                 && (loaded ==> (result <==> Means(env, fs, order, root, field, v, |order|, cached.entry)))
  {
    var field := ToLower(key);
    var m;
    cycle, m, order := LoadMatcher(env, fs, root, scalars, field, v, others, graph, compiler);
    loaded, result := m.Ok?, false;
    if m.Ok? {
      EveryFieldIsConfigured(key);
      CanonicalIsFixed(field);
      result := Answer(env, fs, order, root, Canonical(field), v, |order|, m.value, cached);
    }
  }
}
