// Every interleaving of arrivals, worker ticks, flushes, idle sweeps and API
// clears, and what holds after each of them.
module SystemRuns {
  import opened LogEntries
  import opened Chains
  import opened Detection
  import opened Tracking
  import opened GreedyMatching
  import opened Activities
  import opened EntryEffects
  import opened StoreInvariants
  import opened ReorderBuffer
  import opened RunHistory
  import opened BlockCauses

  // The shared state, and a record of what happened to it.  held are the entries
  // the worker took from the buffer and has not processed yet.
  datatype System = System(
    store: Store,
    buffer: seq<LogEntry>,
    held: seq<LogEntry>,
    handed: seq<LogEntry>,      // given to the out-of-order handler
    processed: seq<LogEntry>,   // checked against the chains
    history: seq<Event>)

  const START := System(map[], [], [], [], [], [])

  // One atomic step, between lock and unlock.
  datatype Step =
    | Arrive(now: Time, entry: LogEntry, db: DbView)
    | Tick(horizon: Time, sorted: seq<LogEntry>)
    | ProcessHeld(order: seq<LogEntry>, clocks: seq<Time>)
    | Flush(clocks: seq<Time>)
    | IdleSweep(now: Time)
    | ApiClear(address: string)

  // What the scheduler and the clock can choose.
  ghost predicate Enabled(s: System, step: Step) {
    match step
    case Arrive(_, _, _) => true
    case Tick(_, sorted) => s.held == [] && SortOf(sorted, s.buffer)
    case ProcessHeld(order, clocks) => SortOf(order, s.held) && |clocks| == |order|
    case Flush(clocks) => |clocks| == |s.buffer|
    case IdleSweep(_) => true
    case ApiClear(_) => true
  }

  function ProcessOne(cfg: Config, now: Time, e: LogEntry, s: System): System {
    var result := CheckEntry(cfg, now, e, s.store);
    s.(store := result.store,
       processed := s.processed + [e],
       history := s.history + Events(result.ran) + [MarkOf(e, result.ran, s.store, result.store)])
  }

  function ProcessAll(cfg: Config, clocks: seq<Time>, entries: seq<LogEntry>, s: System): System
    requires |clocks| == |entries|
  {
    if entries == [] then s
    else ProcessAll(cfg, clocks[1..], entries[1..], ProcessOne(cfg, clocks[0], entries[0], s))
  }

  // handleOutOfOrder
  function HandleOutOfOrder(cfg: Config, now: Time, e: LogEntry, s: System): System {
    var s1 := s.(handed := s.handed + [e]);
    if cfg.outOfOrderTolerance == 0 then ProcessOne(cfg, now, e, s1)
    else
      var s2 := s1.(store := Ensure(s.store, IpOnly(e)));
      var last := s2.store[IpOnly(e)].lastRequestTime;
      if ShouldBuffer(last, e.timestamp, cfg.outOfOrderTolerance) then s2.(buffer := Insert(s.buffer, e))
      else ProcessOne(cfg, now, e, s2)
  }

  // CheckChains
  function ArriveAt(cfg: Config, now: Time, e: LogEntry, db: DbView, s: System): System {
    var gate := CheckGate(cfg, now, e, db, s.store);
    var s1 := s.(store := gate.store, history := s.history + TurnEvents(now, e, gate.verdict));
    if gate.verdict == Passed then HandleOutOfOrder(cfg, now, e, s1) else s1
  }

  function DropTo(s: System, st: Store): System {
    s.(store := st, history := s.history + [Dropped(s.store.Keys - st.Keys)])
  }

  function Apply(cfg: Config, s: System, step: Step): System
    requires step.ProcessHeld? ==> |step.clocks| == |step.order|
    requires step.Flush? ==> |step.clocks| == |s.buffer|
  {
    match step
    case Arrive(now, e, db) => ArriveAt(cfg, now, e, db, s)
    case Tick(horizon, sorted) =>
      var n := ReadyCount(sorted, horizon);
      s.(buffer := sorted[n..], held := sorted[..n])
    case ProcessHeld(order, clocks) => ProcessAll(cfg, clocks, order, s.(held := []))
    case Flush(clocks) => ProcessAll(cfg, clocks, s.buffer, s.(buffer := []))
    case IdleSweep(now) => DropTo(s, Sweep(cfg, now, s.store))
    case ApiClear(address) => DropTo(s, ClearAddress(address, s.store))
  }

  ghost predicate LeadsTo(cfg: Config, before: System, step: Step, s: System) {
    Enabled(before, step) && s == Apply(cfg, before, step)
  }

  // s is reached from the start by some run.
  ghost predicate Reaches(cfg: Config, steps: seq<Step>, s: System)
    decreases |steps|
  {
    if steps == [] then s == START
    else
      var step := steps[|steps| - 1];
      exists before :: Reaches(cfg, steps[..|steps| - 1], before) && LeadsTo(cfg, before, step, s)
  }

  // -------------------------------------------------------- the invariant

  // No entry is lost, duplicated or invented between handler, buffer and worker.
  ghost predicate Conserved(s: System) {
    multiset(s.handed) == multiset(s.processed) + multiset(s.buffer) + multiset(s.held)
  }

  // The store follows from the record, the record lists what was processed, and
  // every block has its cause in it.
  ghost predicate Accounted(cfg: Config, s: System) {
    && GoodStore(cfg, s.store)
    && Replays(cfg, s.history, s.store)
    && RecordOf(s.history, s.processed)
    && AllCaused(cfg, s.history, s.store)
  }

  ghost predicate Invariant(cfg: Config, s: System) {
    && Conserved(s)
    && Sorted(s.buffer)
    && Sorted(s.held)
    && Accounted(cfg, s)
  }

  lemma ProcessOneKeeps(cfg: Config, now: Time, e: LogEntry, s: System)
    requires ValidConfig(cfg) && Accounted(cfg, s)
    ensures var s1 := ProcessOne(cfg, now, e, s);
            && Accounted(cfg, s1)
            && s1.buffer == s.buffer && s1.held == s.held && s1.handed == s.handed
            && s1.processed == s.processed + [e]
  {
    CheckEntryKeepsGoodStore(cfg, now, e, s.store);
    CheckEntryReplays(cfg, now, e, s.store, s.history);
    var result := CheckEntry(cfg, now, e, s.store);
    var mark := MarkOf(e, result.ran, s.store, result.store);
    MarkReplays(cfg, mark, result.store, s.history + Events(result.ran));
    CheckEntryRecords(cfg, now, e, s.store, s.history, s.processed);
    CheckEntryIsCaused(cfg, now, e, s.store, s.history);
    StillCaused(cfg, s.history + Events(result.ran), [mark], result.store);
  }

  lemma HeadFirst(a: seq<LogEntry>, b: seq<LogEntry>)
    requires b != []
    ensures (a + [b[0]]) + b[1..] == a + b
  {
  }

  lemma {:induction false} ProcessAllKeeps(cfg: Config, clocks: seq<Time>, entries: seq<LogEntry>, s: System)
    requires |clocks| == |entries|
    requires ValidConfig(cfg) && Accounted(cfg, s)
    ensures var s1 := ProcessAll(cfg, clocks, entries, s);
            && Accounted(cfg, s1)
            && s1.buffer == s.buffer && s1.held == s.held && s1.handed == s.handed
            && s1.processed == s.processed + entries
  {
    if entries != [] {
      var s1 := ProcessOne(cfg, clocks[0], entries[0], s);
      ProcessOneKeeps(cfg, clocks[0], entries[0], s);
      ProcessAllKeeps(cfg, clocks[1..], entries[1..], s1);
      HeadFirst(s.processed, entries);
    }
  }

  lemma EnsureKeeps(cfg: Config, a: Actor, st: Store, history: seq<Event>)
    requires GoodStore(cfg, st) && Replays(cfg, history, st) && AllCaused(cfg, history, st)
    ensures var st1 := Ensure(st, a);
            GoodStore(cfg, st1) && Replays(cfg, history, st1) && AllCaused(cfg, history, st1)
  {
    LookupIsGood(cfg, st, a);
    PutKeepsGoodStore(cfg, st, a, Lookup(st, a));
    SameProgressReplays(cfg, history, st, Ensure(st, a));
  }

  lemma HandleOutOfOrderKeeps(cfg: Config, now: Time, e: LogEntry, s: System)
    requires ValidConfig(cfg) && Invariant(cfg, s)
    ensures Invariant(cfg, HandleOutOfOrder(cfg, now, e, s))
  {
    var s1 := s.(handed := s.handed + [e]);
    var s2 := s1.(store := Ensure(s.store, IpOnly(e)));
    if cfg.outOfOrderTolerance == 0 {
      ProcessOneKeeps(cfg, now, e, s1);
    } else {
      EnsureKeeps(cfg, IpOnly(e), s.store, s.history);
      if ShouldBuffer(s2.store[IpOnly(e)].lastRequestTime, e.timestamp, cfg.outOfOrderTolerance) {
        InsertKeepsOrder(s.buffer, e);
      } else {
        ProcessOneKeeps(cfg, now, e, s2);
      }
    }
  }

  lemma ArriveKeeps(cfg: Config, now: Time, e: LogEntry, db: DbView, s: System)
    requires ValidConfig(cfg) && Invariant(cfg, s)
    ensures Invariant(cfg, ArriveAt(cfg, now, e, db, s))
  {
    var gate := CheckGate(cfg, now, e, db, s.store);
    var s1 := s.(store := gate.store, history := s.history + TurnEvents(now, e, gate.verdict));
    CheckGateKeepsGoodStore(cfg, now, e, db, s.store);
    CheckGateReplays(cfg, now, e, db, s.store, s.history);
    GateIsCaused(cfg, now, e, db, s.store, s.history);
    TurnKeepsRecord(cfg, now, e, gate, s);
    assert Invariant(cfg, s1);
    if gate.verdict == Passed {
      HandleOutOfOrderKeeps(cfg, now, e, s1);
    }
  }

  // An entry that is turned away leaves its mark only.
  lemma TurnKeepsRecord(cfg: Config, now: Time, e: LogEntry, gate: Gate, s: System)
    requires RecordOf(s.history, s.processed) && Replays(cfg, s.history, gate.store)
    ensures var history := s.history + TurnEvents(now, e, gate.verdict);
            RecordOf(history, s.processed) && Replays(cfg, history, gate.store)
  {
    assert s.history + [] == s.history;
    OtherRecords(s.history, s.processed, Turned(now, e, gate.verdict));
    MarkReplays(cfg, Turned(now, e, gate.verdict), gate.store, s.history);
  }

  lemma DropKeeps(cfg: Config, s: System, st: Store)
    requires Invariant(cfg, s) && st.Keys <= s.store.Keys && forall a :: a in st ==> st[a] == s.store[a]
    ensures Invariant(cfg, DropTo(s, st))
  {
    var dropped := s.store.Keys - st.Keys;
    DropReplays(cfg, s.store, st, s.history);
    OtherRecords(s.history, s.processed, Dropped(dropped));
    StillCaused(cfg, s.history, [Dropped(dropped)], s.store);
    forall a | a in st ensures Caused(cfg, s.history + [Dropped(dropped)], a, st[a]) {
      assert Caused(cfg, s.history + [Dropped(dropped)], a, s.store[a]);
    }
  }

  lemma TickKeeps(cfg: Config, s: System, horizon: Time, sorted: seq<LogEntry>)
    requires Invariant(cfg, s) && Enabled(s, Tick(horizon, sorted))
    ensures Invariant(cfg, Apply(cfg, s, Tick(horizon, sorted)))
  {
    DrainTakesTheReady(sorted, horizon);
  }

  lemma WorkKeeps(cfg: Config, s: System, order: seq<LogEntry>, clocks: seq<Time>)
    requires ValidConfig(cfg) && Invariant(cfg, s) && Enabled(s, ProcessHeld(order, clocks))
    ensures Invariant(cfg, ProcessAll(cfg, clocks, order, s.(held := [])))
  {
    ProcessAllKeeps(cfg, clocks, order, s.(held := []));
  }

  lemma FlushKeeps(cfg: Config, s: System, clocks: seq<Time>)
    requires ValidConfig(cfg) && Invariant(cfg, s) && Enabled(s, Flush(clocks))
    ensures Invariant(cfg, ProcessAll(cfg, clocks, s.buffer, s.(buffer := [])))
  {
    ProcessAllKeeps(cfg, clocks, s.buffer, s.(buffer := []));
  }

  lemma StepKeeps(cfg: Config, s: System, step: Step)
    requires ValidConfig(cfg) && Invariant(cfg, s) && Enabled(s, step)
    ensures Invariant(cfg, Apply(cfg, s, step))
  {
    match step
    case Arrive(now, e, db) => ArriveKeeps(cfg, now, e, db, s);
    case Tick(horizon, sorted) => TickKeeps(cfg, s, horizon, sorted);
    case ProcessHeld(order, clocks) => WorkKeeps(cfg, s, order, clocks);
    case Flush(clocks) => FlushKeeps(cfg, s, clocks);
    case IdleSweep(now) => DropKeeps(cfg, s, Sweep(cfg, now, s.store));
    case ApiClear(address) => DropKeeps(cfg, s, ClearAddress(address, s.store));
  }

  lemma StartIsGood(cfg: Config)
    ensures Invariant(cfg, START)
  {
    forall a: Actor, c: nat, key: string | IsKeyOf(cfg, c, a.vhost, key)
      ensures ReplaysKey(cfg, [], Lookup(START.store, a), a, c, key)
    {
    }
  }

  // In every reachable state no entry is lost or duplicated, the buffer is sorted,
  // block flags agree, stored progress lies inside its chain, it is the replay of
  // the entries processed for its key, and every block has its cause.
  lemma {:induction false} EveryRunKeepsTheInvariant(cfg: Config, steps: seq<Step>, s: System)
    requires ValidConfig(cfg) && Reaches(cfg, steps, s)
    ensures Invariant(cfg, s)
    decreases |steps|
  {
    if steps == [] {
      StartIsGood(cfg);
    } else {
      var step := steps[|steps| - 1];
      var before :| Reaches(cfg, steps[..|steps| - 1], before) && LeadsTo(cfg, before, step, s);
      EveryRunKeepsTheInvariant(cfg, steps[..|steps| - 1], before);
      StepKeeps(cfg, before, step);
    }
  }

  // ------------------------------------------------- consequences for detection

  // The picked entries of a key's history were all processed.
  ghost predicate PicksProcessed(seen: seq<Observation>, picks: seq<nat>, processed: seq<LogEntry>) {
    forall i :: 0 <= i < |picks| ==> picks[i] < |seen| && seen[picks[i]].Seen? && seen[picks[i]].entry in processed
  }

  // In every run, progress k stored for a chain key rests on k processed entries of
  // that very actor and key, matching the first k steps under every time rule.
  lemma ProgressInRunIsSound(cfg: Config, steps: seq<Step>, s: System, a: Actor, c: nat, key: string)
    requires ValidConfig(cfg) && Reaches(cfg, steps, s) && IsKeyOf(cfg, c, a.vhost, key)
    ensures var seen := Project(s.history, a, key);
            exists picks ::
              && Detected(cfg.chains[c], seen, picks)
              && PicksProcessed(seen, picks, s.processed)
              && |picks| == ProgressOf(Lookup(s.store, a), key).currentStep
              && (picks != [] ==> Undisturbed(cfg.chains[c], seen, picks[0]))
  {
    EveryRunKeepsTheInvariant(cfg, steps, s);
    assert ReplaysKey(cfg, s.history, Lookup(s.store, a), a, c, key);
    SeenIsProcessed(s.history, s.processed, a, key);
    ProgressWitness(cfg.chains[c], Project(s.history, a, key), s.processed);
  }

  lemma ProgressWitness(chain: Chain, seen: seq<Observation>, processed: seq<LogEntry>)
    requires forall k :: 0 <= k < |seen| && seen[k].Seen? ==> seen[k].entry in processed
    ensures exists picks ::
              && Detected(chain, seen, picks)
              && PicksProcessed(seen, picks, processed)
              && |picks| == Progress(chain, seen).currentStep
              && (picks != [] ==> Undisturbed(chain, seen, picks[0]))
  {
    ProgressIsSound(chain, seen);
    var picks :| Detected(chain, seen, picks) && |picks| == Progress(chain, seen).currentStep
      && (picks != [] ==> Undisturbed(chain, seen, picks[0]));
    assert PicksProcessed(seen, picks, processed);
  }

  // The entries behind a completed run r, seen being its key's history up to it:
  // one for every step, all processed, the last one the entry of the run; since the
  // first of them the chain did not complete and the actor was not dropped.
  ghost predicate Witnessed(chain: Chain, seen: seq<Observation>, r: Ran, processed: seq<LogEntry>, picks: seq<nat>) {
    && Detected(chain, seen, picks)
    && PicksProcessed(seen, picks, processed)
    && |picks| == |chain.steps| > 0
    && picks[|picks| - 1] == |seen| - 1
    && seen[|seen| - 1] == Seen(r.entry, r.previousRequest)
    && forall j :: picks[0] <= j < |seen| - 1 ==> seen[j].Seen? && !CompletesAt(chain, seen, j)
  }

  // Event i is a run of a chain on the actor that chain charges the entry to, and
  // has such entries behind it.
  ghost predicate RestsOnEntries(cfg: Config, s: System, i: nat) {
    && i < |s.history| && s.history[i].Processed? && s.history[i].run.chain < |cfg.chains|
    && var r := s.history[i].run;
       var chain, seen := cfg.chains[r.chain], Project(s.history[..i + 1], r.actor, r.key);
       && r.actor == GetActor(chain, r.entry) && r.key == ChainKey(chain, r.entry)
       && exists picks :: Witnessed(chain, seen, r, s.processed, picks)
  }

  // In every run, every completion of a chain rests on such entries.
  lemma CompletionInRunIsSound(cfg: Config, steps: seq<Step>, s: System, i: nat)
    requires ValidConfig(cfg) && Reaches(cfg, steps, s)
    requires i < |s.history| && s.history[i].Processed? && s.history[i].run.completed
    ensures RestsOnEntries(cfg, s, i)
  {
    EveryRunKeepsTheInvariant(cfg, steps, s);
    RunWitness(cfg, s, i);
  }

  lemma RunWitness(cfg: Config, s: System, i: nat)
    requires Recorded(cfg, s.history) && RecordOf(s.history, s.processed)
    requires i < |s.history| && s.history[i].Processed? && s.history[i].run.completed
    ensures RestsOnEntries(cfg, s, i)
  {
    var r := s.history[i].run;
    assert RunReplays(cfg, s.history[..i], r);
    OneMoreRun(s.history, i);
    UptoIsProcessed(s.history, i + 1, s.processed, r.actor, r.key);
    LastIsWitnessed(cfg.chains[r.chain], Project(s.history[..i + 1], r.actor, r.key),
                    Project(s.history[..i], r.actor, r.key), r, s.processed);
  }

  lemma OneMoreRun(history: seq<Event>, i: nat)
    requires i < |history| && history[i].Processed?
    ensures var r := history[i].run;
      Project(history[..i + 1], r.actor, r.key)
      == Project(history[..i], r.actor, r.key) + [Seen(r.entry, r.previousRequest)]
  {
    assert history[..i + 1] == history[..i] + [history[i]];
    AppendEvent(history[..i], history[i], history[i].run.actor, history[i].run.key);
  }

  lemma LastIsWitnessed(chain: Chain, seen: seq<Observation>, prior: seq<Observation>, r: Ran, processed: seq<LogEntry>)
    requires seen == prior + [Seen(r.entry, r.previousRequest)]
    requires React(chain, Progress(chain, prior), Seen(r.entry, r.previousRequest)).completed
    requires forall k :: 0 <= k < |seen| && seen[k].Seen? ==> seen[k].entry in processed
    ensures exists picks :: Witnessed(chain, seen, r, processed, picks)
  {
    var n := |prior|;
    assert seen[..n] == prior;
    CompletionIsSound(chain, seen, n);
    var picks :| Detected(chain, seen, picks) && |picks| == |chain.steps| > 0 && picks[|picks| - 1] == n
      && forall j :: picks[0] <= j < n ==> seen[j].Seen? && !CompletesAt(chain, seen, j);
    assert Witnessed(chain, seen, r, processed, picks);
  }

  // In every run, the progress stored for a chain key is k exactly if a pass of k
  // entries through the chain is under way in what its actor was processed for.
  lemma ProgressInRunExactly(cfg: Config, steps: seq<Step>, s: System, a: Actor, c: nat, key: string, k: nat)
    requires ValidConfig(cfg) && Reaches(cfg, steps, s) && IsKeyOf(cfg, c, a.vhost, key) && k > 0
    ensures ProgressOf(Lookup(s.store, a), key).currentStep == k <==>
            exists picks :: UnderWay(cfg.chains[c], Project(s.history, a, key), picks) && |picks| == k
  {
    EveryRunKeepsTheInvariant(cfg, steps, s);
    assert ReplaysKey(cfg, s.history, Lookup(s.store, a), a, c, key);
    ProgressExactly(cfg.chains[c], Project(s.history, a, key), k);
  }

  // And a recorded run completed its chain exactly if its entry finishes such a pass.
  lemma CompletionInRunExactly(cfg: Config, steps: seq<Step>, s: System, i: nat)
    requires ValidConfig(cfg) && Reaches(cfg, steps, s) && i < |s.history| && s.history[i].Processed?
    ensures var r := s.history[i].run;
      && r.chain < |cfg.chains|
      && var seen := Project(s.history[..i + 1], r.actor, r.key);
         && seen != [] && seen[|seen| - 1] == Seen(r.entry, r.previousRequest)
         && (r.completed <==> exists picks :: FinishesLast(cfg.chains[r.chain], seen, picks))
  {
    EveryRunKeepsTheInvariant(cfg, steps, s);
    var r := s.history[i].run;
    assert RunReplays(cfg, s.history[..i], r);
    OneMoreRun(s.history, i);
    LastCompletesExactly(cfg.chains[r.chain], Project(s.history[..i], r.actor, r.key),
                         Project(s.history[..i + 1], r.actor, r.key), Seen(r.entry, r.previousRequest));
  }

  lemma LastCompletesExactly(chain: Chain, prior: seq<Observation>, seen: seq<Observation>, o: Observation)
    requires seen == prior + [o]
    ensures React(chain, Progress(chain, prior), o).completed <==>
            exists picks :: FinishesLast(chain, seen, picks)
  {
    assert seen[..|prior|] == prior;
    CompletesExactly(chain, seen, |prior|);
    forall picks ensures FinishesLast(chain, seen, picks) <==> Finishes(chain, seen, picks, |prior|) {
    }
  }

  // What a key's history shows up to some point was processed.
  lemma UptoIsProcessed(history: seq<Event>, n: nat, processed: seq<LogEntry>, a: Actor, key: string)
    requires RecordOf(history, processed) && n <= |history|
    ensures var seen := Project(history[..n], a, key);
      forall k :: 0 <= k < |seen| && seen[k].Seen? ==> seen[k].entry in processed
  {
    var seen := Project(history[..n], a, key);
    forall k | 0 <= k < |seen| && seen[k].Seen? ensures seen[k].entry in processed {
      var i := SeenIsRun(history[..n], a, key, k);
      RunIsProcessed(history, processed, i);
    }
  }

  // In every reachable state, an activity is blocked because a block chain completed
  // for its address, the recorded run resting on matching entries, or because an
  // entry of it met the gate as a known bad actor's.  The event gives the reason of
  // the block and the time it ends.
  lemma BlockInRunIsEarned(cfg: Config, steps: seq<Step>, s: System, a: Actor) returns (i: nat)
    requires ValidConfig(cfg) && Reaches(cfg, steps, s)
    requires a in s.store && s.store[a].isBlocked
    ensures || (EarnedAt(cfg, s.history, i, a, s.store[a]) && RestsOnEntries(cfg, s, i))
            || BannedAt(cfg, s.history, i, a, s.store[a])
  {
    EveryRunKeepsTheInvariant(cfg, steps, s);
    assert Caused(cfg, s.history, a, s.store[a]);
    i :| CausedAt(cfg, s.history, i, a, s.store[a]);
    if EarnedAt(cfg, s.history, i, a, s.store[a]) { RunWitness(cfg, s, i); }
  }

  // For a chain without time rules, in every run in which the actor was never
  // dropped, the recorded completions are as many as any choice of its processed
  // entries could give.
  lemma CompletionsInRunAreOptimal(cfg: Config, steps: seq<Step>, s: System, a: Actor, c: nat, key: string, n: nat)
    requires ValidConfig(cfg) && Reaches(cfg, steps, s) && IsKeyOf(cfg, c, a.vhost, key)
    requires cfg.chains[c].steps != [] && NoTimeRules(cfg.chains[c])
    requires forall i :: 0 <= i < |s.history| && s.history[i].Dropped? ==> a !in s.history[i].actors
    ensures Embeds(Repeated(cfg.chains[c].steps, n), Project(s.history, a, key)) <==>
            n <= CompletedRuns(s.history, a, key)
  {
    EveryRunKeepsTheInvariant(cfg, steps, s);
    assert ReplaysKey(cfg, s.history, Lookup(s.store, a), a, c, key);
    NeverDropped(s.history, a, key);
    GreedyIsOptimal(cfg.chains[c], Project(s.history, a, key), n);
  }

  lemma {:induction false} NeverDropped(history: seq<Event>, a: Actor, key: string)
    requires forall i :: 0 <= i < |history| && history[i].Dropped? ==> a !in history[i].actors
    ensures AllSeen(Project(history, a, key))
  {
    if history != [] {
      NeverDropped(history[..|history| - 1], a, key);
    }
  }

  // --------------------------------------------------- consequences for ordering

  // A tick takes exactly the buffered entries before the horizon, and the worker
  // processes them in time order before it takes more.
  lemma TickTakesExactlyTheReady(cfg: Config, s: System, horizon: Time, sorted: seq<LogEntry>)
    requires Enabled(s, Tick(horizon, sorted))
    ensures var s1 := Apply(cfg, s, Tick(horizon, sorted));
            && multiset(s1.held) + multiset(s1.buffer) == multiset(s.buffer)
            && (forall e :: e in s1.held ==> e.timestamp < horizon)
            && (forall e :: e in s1.buffer ==> e.timestamp >= horizon)
            && s1.store == s.store && s1.processed == s.processed
  {
    DrainTakesTheReady(sorted, horizon);
  }

  lemma HeldAreProcessedInOrder(cfg: Config, s: System, order: seq<LogEntry>, clocks: seq<Time>)
    requires ValidConfig(cfg) && Invariant(cfg, s) && Enabled(s, ProcessHeld(order, clocks))
    ensures var s1 := Apply(cfg, s, ProcessHeld(order, clocks));
            && s1.held == []
            && s1.processed == s.processed + order
            && Sorted(order) && multiset(order) == multiset(s.held)
            && s1.buffer == s.buffer
  {
    ProcessAllKeeps(cfg, clocks, order, s.(held := []));
  }

  // Shutdown: flushing with nothing held processes everything ever handed over.
  lemma FlushLeavesNothingBehind(cfg: Config, steps: seq<Step>, s: System, clocks: seq<Time>)
    requires ValidConfig(cfg) && Reaches(cfg, steps, s) && s.held == [] && Enabled(s, Flush(clocks))
    ensures var s1 := Apply(cfg, s, Flush(clocks));
            && s1.buffer == [] && multiset(s1.processed) == multiset(s1.handed)
            && s1.processed == s.processed + s.buffer
  {
    EveryRunKeepsTheInvariant(cfg, steps, s);
    ProcessAllKeeps(cfg, clocks, s.buffer, s.(buffer := []));
  }
}
