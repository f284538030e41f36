// What arrived over a run, and how it bears on request times and reordering.
module Arrivals {
  import opened LogEntries
  import opened Chains
  import opened Activities
  import opened StoreInvariants
  import opened ReorderBuffer
  import opened RequestTimes
  import opened RunHistory
  import opened SystemRuns

  // The entries a run brought in.
  function Arrived(steps: seq<Step>): seq<LogEntry> {
    if steps == [] then []
    else
      var last := steps[|steps| - 1];
      Arrived(steps[..|steps| - 1]) + if last.Arrive? then [last.entry] else []
  }

  // Everything that waits arrived late, after a later entry of its bare address that
  // the record shows.
  ghost predicate AllLate(arrived: seq<LogEntry>, history: seq<Event>, waiting: seq<LogEntry>, tolerance: Duration) {
    forall e :: e in waiting ==> e in arrived && exists j :: LateAt(history, j, e, tolerance)
  }

  // Request times are those of the record, and the record is about arrivals.
  ghost predicate Timed(arrived: seq<LogEntry>, cfg: Config, st: Store, history: seq<Event>) {
    && TimesFollow(history, st)
    && Genuine(arrived, history)
    && (BlocksLast(cfg) ==> RunsFollow(history))
  }

  ghost predicate Sourced(arrived: seq<LogEntry>, cfg: Config, s: System) {
    && Timed(arrived, cfg, s.store, s.history)
    && RecordOf(s.history, s.processed)
    && AllLate(arrived, s.history, s.buffer, cfg.outOfOrderTolerance)
    && AllLate(arrived, s.history, s.held, cfg.outOfOrderTolerance)
  }

  lemma SourcedMore(arrived: seq<LogEntry>, more: seq<LogEntry>, cfg: Config, s: System)
    requires Sourced(arrived, cfg, s)
    ensures Sourced(arrived + more, cfg, s)
  {
  }

  // What is late stays so as the record grows.
  lemma StillLate(arrived: seq<LogEntry>, history: seq<Event>, more: seq<Event>, waiting: seq<LogEntry>,
          tolerance: Duration)
    requires AllLate(arrived, history, waiting, tolerance)
    ensures AllLate(arrived, history + more, waiting, tolerance)
  {
    forall e | e in waiting ensures exists j :: LateAt(history + more, j, e, tolerance) {
      var j :| LateAt(history, j, e, tolerance);
      assert LateAt(history + more, j, e, tolerance);
    }
  }

  lemma LateSubset(arrived: seq<LogEntry>, history: seq<Event>, waiting: seq<LogEntry>, part: seq<LogEntry>,
          tolerance: Duration)
    requires AllLate(arrived, history, waiting, tolerance) && forall e :: e in part ==> e in waiting
    ensures AllLate(arrived, history, part, tolerance)
  {
  }

  lemma SameEntries(a: seq<LogEntry>, b: seq<LogEntry>)
    requires multiset(a) == multiset(b)
    ensures forall e :: e in a ==> e in b
  {
    forall e | e in a ensures e in b { assert e in multiset(a); }
  }

  lemma GenuineRuns(arrived: seq<LogEntry>, history: seq<Event>, ran: seq<Ran>, mark: Event)
    requires Genuine(arrived, history) && Genuine(arrived, [mark])
    ensures Genuine(arrived, history + Events(ran) + [mark])
  {
    EventsAreRuns(ran);
    assert [mark][0] == mark;
  }

  lemma ProcessOneSourced(arrived: seq<LogEntry>, cfg: Config, now: Time, e: LogEntry, s: System)
    requires Sourced(arrived, cfg, s) && e in arrived
    ensures Sourced(arrived, cfg, ProcessOne(cfg, now, e, s))
  {
    var result := CheckEntry(cfg, now, e, s.store);
    var mark := MarkOf(e, result.ran, s.store, result.store);
    CheckEntryTimes(cfg, now, e, s.store, s.history);
    GenuineRuns(arrived, s.history, result.ran, mark);
    if BlocksLast(cfg) { CheckEntryFollows(cfg, now, e, s.store, s.history); }
    CheckEntryRecords(cfg, now, e, s.store, s.history, s.processed);
    var more := Events(result.ran) + [mark];
    assert s.history + Events(result.ran) + [mark] == s.history + more;
    StillLate(arrived, s.history, more, s.buffer, cfg.outOfOrderTolerance);
    StillLate(arrived, s.history, more, s.held, cfg.outOfOrderTolerance);
  }

  lemma {:induction false} ProcessAllSourced(arrived: seq<LogEntry>, cfg: Config, clocks: seq<Time>,
          entries: seq<LogEntry>, s: System)
    requires |clocks| == |entries| && Sourced(arrived, cfg, s) && forall e :: e in entries ==> e in arrived
    ensures Sourced(arrived, cfg, ProcessAll(cfg, clocks, entries, s))
  {
    if entries != [] {
      ProcessOneSourced(arrived, cfg, clocks[0], entries[0], s);
      ProcessAllSourced(arrived, cfg, clocks[1..], entries[1..], ProcessOne(cfg, clocks[0], entries[0], s));
    }
  }

  // The gate's part of an arrival.
  lemma TurnSourced(arrived: seq<LogEntry>, cfg: Config, now: Time, e: LogEntry, db: DbView, s: System)
    requires Sourced(arrived, cfg, s) && e in arrived
    ensures var gate := CheckGate(cfg, now, e, db, s.store);
      Sourced(arrived, cfg, s.(store := gate.store, history := s.history + TurnEvents(now, e, gate.verdict)))
  {
    var gate := CheckGate(cfg, now, e, db, s.store);
    GateTimes(cfg, now, e, db, s.store, s.history);
    if gate.verdict == Passed {
      assert s.history + [] == s.history;
    } else {
      TurnedSourced(arrived, cfg, Turned(now, e, gate.verdict), s);
    }
  }

  lemma TurnedSourced(arrived: seq<LogEntry>, cfg: Config, ev: Event, s: System)
    requires Sourced(arrived, cfg, s) && (ev.Dropped? || (ev.Turned? && ev.entry in arrived))
    ensures var history := s.history + [ev];
      && Genuine(arrived, history) && RecordOf(history, s.processed)
      && (BlocksLast(cfg) ==> RunsFollow(history))
      && AllLate(arrived, history, s.buffer, cfg.outOfOrderTolerance)
      && AllLate(arrived, history, s.held, cfg.outOfOrderTolerance)
  {
    OtherRecords(s.history, s.processed, ev);
    if BlocksLast(cfg) { RunsFollowNext(s.history, ev); }
    StillLate(arrived, s.history, [ev], s.buffer, cfg.outOfOrderTolerance);
    StillLate(arrived, s.history, [ev], s.held, cfg.outOfOrderTolerance);
  }

  lemma HandleSourced(arrived: seq<LogEntry>, cfg: Config, now: Time, e: LogEntry, s: System)
    requires Sourced(arrived, cfg, s) && e in arrived
    ensures Sourced(arrived, cfg, HandleOutOfOrder(cfg, now, e, s))
  {
    var tolerance := cfg.outOfOrderTolerance;
    var s1 := s.(handed := s.handed + [e]);
    if tolerance == 0 {
      ProcessOneSourced(arrived, cfg, now, e, s1);
    } else {
      var st := Ensure(s.store, IpOnly(e));
      assert TimesFollow(s.history, st) by { assert forall a :: Lookup(st, a) == Lookup(s.store, a); }
      if ShouldBuffer(st[IpOnly(e)].lastRequestTime, e.timestamp, tolerance) {
        BufferedIsLate(arrived, s.history, st, e, tolerance);
        InsertIsSubset(s.buffer, e);
        LateSubset(arrived, s.history, [e] + s.buffer, Insert(s.buffer, e), tolerance);
      } else {
        ProcessOneSourced(arrived, cfg, now, e, s1.(store := st));
      }
    }
  }

  lemma InsertIsSubset(buffer: seq<LogEntry>, e: LogEntry)
    ensures forall x :: x in Insert(buffer, e) ==> x in [e] + buffer
  {
  }

  // In every run, request times are those the record gives, and what waits in the
  // buffer or with the worker arrived late after an entry without a vhost.
  lemma {:induction false} EveryRunIsSourced(cfg: Config, steps: seq<Step>, s: System)
    requires Reaches(cfg, steps, s)
    ensures Sourced(Arrived(steps), cfg, s)
    decreases |steps|
  {
    if steps != [] {
      var step, prior := steps[|steps| - 1], steps[..|steps| - 1];
      var before :| Reaches(cfg, prior, before) && LeadsTo(cfg, before, step, s);
      EveryRunIsSourced(cfg, prior, before);
      StepSourced(Arrived(prior), cfg, before, step);
    }
  }

  lemma StepSourced(arrived: seq<LogEntry>, cfg: Config, s: System, step: Step)
    requires Sourced(arrived, cfg, s) && Enabled(s, step)
    ensures Sourced(arrived + (if step.Arrive? then [step.entry] else []), cfg, Apply(cfg, s, step))
  {
    assert arrived + [] == arrived;
    match step
    case Arrive(now, e, db) =>
      SourcedMore(arrived, [e], cfg, s);
      ArriveSourced(arrived + [e], cfg, now, e, db, s);
    case Tick(horizon, sorted) =>
      SameEntries(sorted, s.buffer);
      var n := ReadyCount(sorted, horizon);
      LateSubset(arrived, s.history, s.buffer, sorted[n..], cfg.outOfOrderTolerance);
      LateSubset(arrived, s.history, s.buffer, sorted[..n], cfg.outOfOrderTolerance);
    case ProcessHeld(order, clocks) =>
      SameEntries(order, s.held);
      ProcessAllSourced(arrived, cfg, clocks, order, s.(held := []));
    case Flush(clocks) =>
      ProcessAllSourced(arrived, cfg, clocks, s.buffer, s.(buffer := []));
    case IdleSweep(now) => DropSourced(arrived, cfg, s, Sweep(cfg, now, s.store));
    case ApiClear(address) => DropSourced(arrived, cfg, s, ClearAddress(address, s.store));
  }

  lemma ArriveSourced(arrived: seq<LogEntry>, cfg: Config, now: Time, e: LogEntry, db: DbView, s: System)
    requires Sourced(arrived, cfg, s) && e in arrived
    ensures Sourced(arrived, cfg, ArriveAt(cfg, now, e, db, s))
  {
    var gate := CheckGate(cfg, now, e, db, s.store);
    TurnSourced(arrived, cfg, now, e, db, s);
    if gate.verdict == Passed {
      var s1 := s.(store := gate.store, history := s.history + TurnEvents(now, e, gate.verdict));
      HandleSourced(arrived, cfg, now, e, s1);
    }
  }

  lemma DropSourced(arrived: seq<LogEntry>, cfg: Config, s: System, st: Store)
    requires Sourced(arrived, cfg, s) && st.Keys <= s.store.Keys && forall a :: a in st ==> st[a] == s.store[a]
    ensures Sourced(arrived, cfg, DropTo(s, st))
  {
    DropTimes(s.store, st, s.history);
    TurnedSourced(arrived, cfg, Dropped(s.store.Keys - st.Keys), s);
  }

  // The request time r was given came from event j of the record before it: the last
  // entry the actor ran on since it was dropped, or a later one that met its running
  // block.  It was an arrival of the actor's address and vhost.
  ghost predicate ComesFrom(steps: seq<Step>, before: seq<Event>, j: nat, r: Ran) {
    && SeenAt(before, j, r.actor)
    && var e := before[j].entry;
       && e.timestamp == r.previousRequest
       && e.ip == r.actor.ip && e.vhost == r.actor.vhost
       && e in Arrived(steps)
  }

  // In every run, a chain is given exactly the request time the record shows at that
  // point: none, or that of such an entry.
  lemma RequestTimesAreExact(cfg: Config, steps: seq<Step>, s: System, i: nat)
    requires BlocksLast(cfg) && Reaches(cfg, steps, s) && i < |s.history| && s.history[i].Processed?
    ensures var r := s.history[i].run;
      && r.previousRequest == LastSeen(s.history[..i], r.actor)
      && (r.previousRequest != ZERO_TIME ==> exists j :: ComesFrom(steps, s.history[..i], j, r))
  {
    EveryRunIsSourced(cfg, steps, s);
    var before, r := s.history[..i], s.history[i].run;
    if r.previousRequest != ZERO_TIME {
      var j := SeenSomewhere(before, r.actor);
      assert before[j] == s.history[j];
      assert ComesFrom(steps, before, j, r);
    }
  }

  // In every run, an entry that passes the gate is buffered exactly if a tolerance is set,
  // the bare address has a later request time, and is ahead by no more than that; all
  // others are processed at once.
  lemma BufferedExactly(cfg: Config, steps: seq<Step>, s: System, now: Time, e: LogEntry, db: DbView)
    requires Reaches(cfg, steps, s) && CheckGate(cfg, now, e, db, s.store).verdict == Passed
    ensures var s1, last := ArriveAt(cfg, now, e, db, s), LastSeen(s.history, IpOnly(e));
      var late := cfg.outOfOrderTolerance != 0 && last != ZERO_TIME && e.timestamp < last
                  && Sub(last, e.timestamp) <= cfg.outOfOrderTolerance;
      && s1.handed == s.handed + [e]
      && (late ==> s1.buffer == Insert(s.buffer, e) && s1.processed == s.processed)
      && (!late ==> s1.buffer == s.buffer && s1.processed == s.processed + [e])
  {
    EveryRunIsSourced(cfg, steps, s);
    assert Lookup(s.store, IpOnly(e)).lastRequestTime == LastSeen(s.history, IpOnly(e));
    GateTime(cfg, now, e, db, s.store, IpOnly(e));
  }

  // Event j of the record is a later entry of e's address without a vhost, within the
  // tolerance: one that was processed, or met a running block.
  ghost predicate LaterBare(arrived: seq<LogEntry>, s: System, j: nat, e: LogEntry, tolerance: Duration) {
    && LateAt(s.history, j, e, tolerance)
    && s.history[j].entry in arrived
    && (s.history[j].Checked? ==> s.history[j].entry in s.processed)
  }

  lemma WaitingIsLate(arrived: seq<LogEntry>, cfg: Config, s: System, waiting: seq<LogEntry>, e: LogEntry)
      returns (j: nat)
    requires Genuine(arrived, s.history) && RecordOf(s.history, s.processed)
    requires AllLate(arrived, s.history, waiting, cfg.outOfOrderTolerance) && e in waiting
    ensures LaterBare(arrived, s, j, e, cfg.outOfOrderTolerance)
  {
    j :| LateAt(s.history, j, e, cfg.outOfOrderTolerance);
    if s.history[j].Checked? { CheckedIsListed(s.history, j); }
  }

  // Whatever waits comes after such an entry: buffering delays late entries, and puts
  // none of them in front of the entry that made them late.
  lemma BufferingNeedsBareTraffic(cfg: Config, steps: seq<Step>, s: System, e: LogEntry) returns (j: nat)
    requires Reaches(cfg, steps, s) && (e in s.buffer || e in s.held)
    ensures LaterBare(Arrived(steps), s, j, e, cfg.outOfOrderTolerance)
  {
    EveryRunIsSourced(cfg, steps, s);
    if e in s.buffer {
      j := WaitingIsLate(Arrived(steps), cfg, s, s.buffer, e);
    } else {
      j := WaitingIsLate(Arrived(steps), cfg, s, s.held, e);
    }
  }

  // ------------------------------------------------- addresses seen with a vhost

  // The entries of one address, in order.
  function OfAddress(entries: seq<LogEntry>, ip: IPInfo): seq<LogEntry> {
    if entries == [] then []
    else
      var last := entries[|entries| - 1];
      OfAddress(entries[..|entries| - 1], ip) + if last.ip == ip then [last] else []
  }

  lemma {:induction false} OfAddressTogether(a: seq<LogEntry>, b: seq<LogEntry>, ip: IPInfo)
    ensures OfAddress(a + b, ip) == OfAddress(a, ip) + OfAddress(b, ip)
  {
    if b == [] {
      assert a + b == a;
    } else {
      var n := |b| - 1;
      assert (a + b)[..|a| + n] == a + b[..n];
      OfAddressTogether(a, b[..n], ip);
    }
  }

  lemma {:induction false} OthersOnly(entries: seq<LogEntry>, ip: IPInfo)
    requires forall e :: e in entries ==> e.ip != ip
    ensures OfAddress(entries, ip) == []
  {
    if entries != [] { OthersOnly(entries[..|entries| - 1], ip); }
  }

  // Every entry of the address arrived with a vhost.
  ghost predicate AlwaysVhost(steps: seq<Step>, ip: IPInfo) {
    forall i :: 0 <= i < |steps| && steps[i].Arrive? && steps[i].entry.ip == ip ==> steps[i].entry.vhost != ""
  }

  lemma {:induction false} ArrivedInStep(steps: seq<Step>, e: LogEntry)
    requires e in Arrived(steps)
    ensures exists i :: 0 <= i < |steps| && steps[i].Arrive? && steps[i].entry == e
  {
    var n := |steps| - 1;
    if e in Arrived(steps[..n]) {
      ArrivedInStep(steps[..n], e);
      var i :| 0 <= i < n && steps[..n][i].Arrive? && steps[..n][i].entry == e;
      assert steps[i].Arrive? && steps[i].entry == e;
    } else {
      assert steps[n].Arrive? && steps[n].entry == e;
    }
  }

  lemma NothingWaits(cfg: Config, steps: seq<Step>, s: System, ip: IPInfo)
    requires Reaches(cfg, steps, s) && AlwaysVhost(steps, ip)
    ensures forall e :: e in s.buffer || e in s.held ==> e.ip != ip
  {
    forall e | (e in s.buffer || e in s.held) && e.ip == ip ensures false {
      var j := BufferingNeedsBareTraffic(cfg, steps, s, e);
      ArrivedInStep(steps, s.history[j].entry);
    }
  }

  lemma {:induction false} ProcessAllProcesses(cfg: Config, clocks: seq<Time>, entries: seq<LogEntry>, s: System)
    requires |clocks| == |entries|
    ensures var s1 := ProcessAll(cfg, clocks, entries, s);
      s1.processed == s.processed + entries && s1.handed == s.handed
  {
    if entries != [] {
      ProcessAllProcesses(cfg, clocks[1..], entries[1..], ProcessOne(cfg, clocks[0], entries[0], s));
      HeadFirst(s.processed, entries);
    }
  }

  // An address that only ever shows up with a vhost is never reordered: nothing of
  // it is buffered, and its entries are processed in the order they were handed
  // over, however far out of order they are.
  lemma {:induction false} VhostAddressIsNeverReordered(cfg: Config, steps: seq<Step>, s: System, ip: IPInfo)
    requires Reaches(cfg, steps, s) && AlwaysVhost(steps, ip)
    ensures forall e :: e in s.buffer || e in s.held ==> e.ip != ip
    ensures OfAddress(s.processed, ip) == OfAddress(s.handed, ip)
    decreases |steps|
  {
    NothingWaits(cfg, steps, s, ip);
    if steps != [] {
      var step, prior := steps[|steps| - 1], steps[..|steps| - 1];
      var before :| Reaches(cfg, prior, before) && LeadsTo(cfg, before, step, s);
      VhostAddressIsNeverReordered(cfg, prior, before, ip);
      StepKeepsOrderOf(cfg, before, step, ip);
    }
  }

  lemma StepKeepsOrderOf(cfg: Config, s: System, step: Step, ip: IPInfo)
    requires Enabled(s, step) && OfAddress(s.processed, ip) == OfAddress(s.handed, ip)
    requires forall e :: e in s.buffer || e in s.held ==> e.ip != ip
    requires var s1 := Apply(cfg, s, step); forall e :: e in s1.buffer || e in s1.held ==> e.ip != ip
    ensures var s1 := Apply(cfg, s, step); OfAddress(s1.processed, ip) == OfAddress(s1.handed, ip)
  {
    match step
    case Arrive(now, e, db) => ArrivalKeepsOrderOf(cfg, now, e, db, s, ip);
    case Tick(_, _) =>
    case ProcessHeld(order, clocks) =>
      SameEntries(order, s.held);
      OthersProcessed(cfg, clocks, order, s.(held := []), ip);
    case Flush(clocks) => OthersProcessed(cfg, clocks, s.buffer, s.(buffer := []), ip);
    case IdleSweep(_) =>
    case ApiClear(_) =>
  }

  lemma OthersProcessed(cfg: Config, clocks: seq<Time>, entries: seq<LogEntry>, s: System, ip: IPInfo)
    requires |clocks| == |entries| && forall e :: e in entries ==> e.ip != ip
    ensures var s1 := ProcessAll(cfg, clocks, entries, s);
      OfAddress(s1.processed, ip) == OfAddress(s.processed, ip) && s1.handed == s.handed
  {
    ProcessAllProcesses(cfg, clocks, entries, s);
    OfAddressTogether(s.processed, entries, ip);
    OthersOnly(entries, ip);
  }

  // An arrival is turned away, processed or buffered.
  lemma ArrivalEither(cfg: Config, now: Time, e: LogEntry, db: DbView, s: System)
    ensures var s1 := ArriveAt(cfg, now, e, db, s);
      || (s1.handed == s.handed && s1.processed == s.processed && s1.buffer == s.buffer)
      || (s1.handed == s.handed + [e] && s1.processed == s.processed + [e] && s1.buffer == s.buffer)
      || (s1.handed == s.handed + [e] && s1.processed == s.processed && s1.buffer == Insert(s.buffer, e))
  {
  }

  lemma InsertHolds(buffer: seq<LogEntry>, e: LogEntry)
    ensures e in Insert(buffer, e)
  {
    assert Insert(buffer, e)[InsertionPoint(buffer, e.timestamp)] == e;
  }

  lemma ArrivalKeepsOrderOf(cfg: Config, now: Time, e: LogEntry, db: DbView, s: System, ip: IPInfo)
    requires OfAddress(s.processed, ip) == OfAddress(s.handed, ip)
    requires forall x :: x in ArriveAt(cfg, now, e, db, s).buffer ==> x.ip != ip
    ensures var s1 := ArriveAt(cfg, now, e, db, s); OfAddress(s1.processed, ip) == OfAddress(s1.handed, ip)
  {
    OfAddressTogether(s.processed, [e], ip);
    OfAddressTogether(s.handed, [e], ip);
    ArrivalEither(cfg, now, e, db, s);
    InsertHolds(s.buffer, e);
    if e.ip != ip { OthersOnly([e], ip); }
  }

  // No activity without a vhost has been seen.
  ghost predicate BareNeverSeen(st: Store) {
    forall a: Actor :: a in st && a.vhost == "" ==> st[a].lastRequestTime == ZERO_TIME
  }

  // If every entry carries a vhost, the buffer is never used at all.
  lemma {:induction false} VhostTrafficIsNeverReordered(cfg: Config, steps: seq<Step>, s: System)
    requires Reaches(cfg, steps, s)
    requires forall e :: e in Arrived(steps) ==> e.vhost != ""
    ensures s.buffer == [] && s.held == [] && s.processed == s.handed && BareNeverSeen(s.store)
    decreases |steps|
  {
    NothingIsLate(cfg, steps, s);
    if steps != [] {
      var step, prior := steps[|steps| - 1], steps[..|steps| - 1];
      var before :| Reaches(cfg, prior, before) && LeadsTo(cfg, before, step, s);
      VhostTrafficIsNeverReordered(cfg, prior, before);
      match step
      case Arrive(now, e, db) => ArrivalIsProcessed(cfg, now, e, db, before);
      case Tick(_, _) =>
      case ProcessHeld(order, clocks) => assert |order| == |multiset(order)| == 0;
      case Flush(_) =>
      case IdleSweep(_) =>
      case ApiClear(_) =>
    }
  }

  lemma ArrivalIsProcessed(cfg: Config, now: Time, e: LogEntry, db: DbView, s: System)
    requires s.buffer == [] && s.processed == s.handed && ArriveAt(cfg, now, e, db, s).buffer == []
    ensures var s1 := ArriveAt(cfg, now, e, db, s); s1.processed == s1.handed
  {
    ArrivalEither(cfg, now, e, db, s);
    InsertHolds([], e);
  }

  lemma NothingLateIn(arrived: seq<LogEntry>, history: seq<Event>, waiting: seq<LogEntry>, tolerance: Duration)
    requires AllLate(arrived, history, waiting, tolerance) && Genuine(arrived, history)
    requires forall e :: e in arrived ==> e.vhost != ""
    ensures forall e :: e !in waiting
  {
  }

  lemma NothingIsLate(cfg: Config, steps: seq<Step>, s: System)
    requires Reaches(cfg, steps, s)
    requires forall e :: e in Arrived(steps) ==> e.vhost != ""
    ensures s.buffer == [] && s.held == [] && BareNeverSeen(s.store)
  {
    assert s.buffer != [] ==> s.buffer[0] in s.buffer;
    assert s.held != [] ==> s.held[0] in s.held;
    EveryRunIsSourced(cfg, steps, s);
    NothingLateIn(Arrived(steps), s.history, s.buffer, cfg.outOfOrderTolerance);
    NothingLateIn(Arrived(steps), s.history, s.held, cfg.outOfOrderTolerance);
    forall a | a in s.store && a.vhost == "" ensures s.store[a].lastRequestTime == ZERO_TIME {
      assert Lookup(s.store, a).lastRequestTime == LastSeen(s.history, a);
      if LastSeen(s.history, a) != ZERO_TIME {
        var j := SeenSomewhere(s.history, a);
        assert false;
      }
    }
  }

  // Mixed traffic does put entries with a vhost into the buffer: on a server with
  // one chain keyed by address, an entry without a vhost and a late one with it.
  function OneChain(tolerance: Duration): Config {
    Config([Chain("any", Log, 0, KeyIp, false, 1.0, [])], false, [], map[], map[], "", {}, [], tolerance,
           false, 0, false, false, 0, 0, 0)
  }

  // The entry without a vhost is processed at once, by the one chain.
  lemma BareIsSeen(tolerance: Duration, now: Time, e: LogEntry)
    requires e.ip.address != "" && e.vhost == "" && tolerance != 0
    ensures var s := ArriveAt(OneChain(tolerance), now, e, DbView(false), START);
      && s.buffer == [] && s.store.Keys == {IpOnly(e)}
      && s.store[IpOnly(e)].lastRequestTime == e.timestamp
  {
    var cfg, base := OneChain(tolerance), IpOnly(e);
    var gate := CheckGate(cfg, now, e, DbView(false), map[]);
    assert gate == Gate(map[base := NEW_ACTIVITY], Passed);
    var chain := cfg.chains[0];
    assert GetActor(chain, e) == base && ChainIndices(cfg, e) == [0];
    var turn := TryChain(cfg, now, e, 0, gate.store);
    assert turn.store.Keys == {base} && |turn.ran| == 1 && turn.ran[0].actor == base && !turn.ran[0].completed;
    assert RunChains(cfg, now, e, [0][1..], turn.store) == ChainsResult(turn.store, []);
    assert turn.ran + [] == turn.ran;
    assert RunChains(cfg, now, e, [0], gate.store) == turn;
    assert base in ActorsOf(turn.ran);
  }

  lemma LateIsBuffered(tolerance: Duration, now: Time, e: LogEntry, s: System)
    requires e.vhost != "" && tolerance != 0 && s.buffer == [] && s.store.Keys == {IpOnly(e)}
    requires ShouldBuffer(s.store[IpOnly(e)].lastRequestTime, e.timestamp, tolerance)
    ensures ArriveAt(OneChain(tolerance), now, e, DbView(false), s).buffer == [e]
  {
    var gate := CheckGate(OneChain(tolerance), now, e, DbView(false), s.store);
    assert BaseActor(e) != IpOnly(e) && Lookup(s.store, BaseActor(e)) == NEW_ACTIVITY;
    assert gate.verdict == Passed && gate.store[IpOnly(e)] == s.store[IpOnly(e)];
  }

  lemma MixedTrafficIsBuffered(bare: LogEntry, late: LogEntry, tolerance: Duration, now: Time) returns (s: System)
    requires bare.ip == late.ip && bare.ip.address != "" && bare.vhost == "" && late.vhost != ""
    requires tolerance != 0 && ShouldBuffer(bare.timestamp, late.timestamp, tolerance)
    ensures Reaches(OneChain(tolerance), [Arrive(now, bare, DbView(false)), Arrive(now, late, DbView(false))], s)
    ensures late in s.buffer
  {
    var s1 := ArriveAt(OneChain(tolerance), now, bare, DbView(false), START);
    BareIsSeen(tolerance, now, bare);
    LateIsBuffered(tolerance, now, late, s1);
    s := TwoArrivals(OneChain(tolerance), now, bare, late, DbView(false));
  }

  lemma TwoArrivals(cfg: Config, now: Time, e1: LogEntry, e2: LogEntry, db: DbView) returns (s: System)
    ensures s == ArriveAt(cfg, now, e2, db, ArriveAt(cfg, now, e1, db, START))
    ensures Reaches(cfg, [Arrive(now, e1, db), Arrive(now, e2, db)], s)
  {
    var s1 := OneArrival(cfg, now, e1, db, START);
    s := OneArrival(cfg, now, e2, db, s1);
    var first, second := Arrive(now, e1, db), Arrive(now, e2, db);
    assert Reaches(cfg, [], START);
    OneMoreStep(cfg, [], START, first, s1);
    assert [] + [first] == [first];
    OneMoreStep(cfg, [first], s1, second, s);
    assert [first] + [second] == [first, second];
  }

  lemma OneArrival(cfg: Config, now: Time, e: LogEntry, db: DbView, s: System) returns (s1: System)
    ensures s1 == ArriveAt(cfg, now, e, db, s) && LeadsTo(cfg, s, Arrive(now, e, db), s1)
  {
    s1 := ArriveAt(cfg, now, e, db, s);
  }

  lemma OneMoreStep(cfg: Config, steps: seq<Step>, before: System, step: Step, s: System)
    requires Reaches(cfg, steps, before) && LeadsTo(cfg, before, step, s)
    ensures Reaches(cfg, steps + [step], s)
  {
    var all := steps + [step];
    assert all[..|all| - 1] == steps && all[|all| - 1] == step;
  }
}
