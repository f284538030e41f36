// Marks and blocks over whole runs: whom the gate turns away, and which activities the
// chains never run on.
module StandingRuns {
  import opened LogEntries
  import opened Activities
  import opened StoreInvariants
  import opened RequestTimes
  import opened Standings
  import opened SystemRuns

  // ------------------------------------------------------------ the gate, exactly

  ghost predicate Covered(cfg: Config, e: LogEntry) {
    exists k :: 0 <= k < |cfg.goodActors| && RuleMatches(cfg.goodActors[k], e)
  }

  // The first rule that covers the entry.
  ghost predicate CoveredFirst(cfg: Config, e: LogEntry, k: nat) {
    && k < |cfg.goodActors| && RuleMatches(cfg.goodActors[k], e)
    && forall j :: 0 <= j < k ==> !RuleMatches(cfg.goodActors[j], e)
  }

  lemma CoveredIsGood(cfg: Config, e: LogEntry)
    ensures IsGoodActor(cfg, e) <==> Covered(cfg, e)
    ensures forall k :: CoveredFirst(cfg, e, k) ==> FirstRule(cfg.goodActors, e) == k
  {
  }

  // A rule covers whom all its matchers accept, and nobody if it has none.
  lemma RulesNarrow(rule: GoodActorRule, e: LogEntry)
    ensures !rule.hasIPMatcher && !rule.hasUAMatcher ==> !RuleMatches(rule, e)
    ensures rule.hasIPMatcher && !rule.hasUAMatcher ==> (RuleMatches(rule, e) <==> rule.ipMatcher(e))
    ensures rule.hasUAMatcher && !rule.hasIPMatcher ==> (RuleMatches(rule, e) <==> rule.uaMatcher(e))
    ensures rule.hasIPMatcher && rule.hasUAMatcher ==>
      (RuleMatches(rule, e) <==> rule.ipMatcher(e) && rule.uaMatcher(e))
  {
  }

  predicate Listed(cfg: Config, db: DbView) {
    cfg.persistenceEnabled && cfg.badActorsEnabled && db.isBadActor
  }

  // Whom the gate turns away and why, for every store and every answer of the
  // database: first good actors, then known bad ones, then marks and running blocks
  // of the activity.
  lemma VerdictExactly(cfg: Config, now: Time, e: LogEntry, db: DbView, st: Store)
    ensures var verdict, act := CheckGate(cfg, now, e, db, st).verdict, Lookup(st, BaseActor(e));
            && (verdict == KnownGood <==>
                  Covered(cfg, e) || (!Listed(cfg, db) && act.skipInfo.kind == SkipGoodActor))
            && (verdict == KnownBad <==> !Covered(cfg, e) && Listed(cfg, db))
            && (verdict == UnderBlock <==>
                  && !Covered(cfg, e) && !Listed(cfg, db) && act.skipInfo.kind != SkipGoodActor
                  && act.isBlocked && now <= act.blockedUntil)
  {
    CoveredIsGood(cfg, e);
  }

  // An entry whose block has run out passes, and its activity is free again.
  lemma ExpiredBlockPasses(cfg: Config, now: Time, e: LogEntry, db: DbView, st: Store)
    requires !Covered(cfg, e) && !Listed(cfg, db)
    requires var act := Lookup(st, BaseActor(e));
      act.skipInfo.kind != SkipGoodActor && act.isBlocked && now > act.blockedUntil
    ensures var gate := CheckGate(cfg, now, e, db, st);
      && gate.verdict == Passed
      && var act := Lookup(gate.store, BaseActor(e));
         !act.isBlocked && act.skipInfo.kind == SkipNone && act.blockedUntil == ZERO_TIME
  {
    CoveredIsGood(cfg, e);
  }

  // The entry leaves its mark in the record and nothing else outside the store.
  ghost predicate Rejected(cfg: Config, now: Time, e: LogEntry, db: DbView, s: System, verdict: Verdict) {
    var s1 := ArriveAt(cfg, now, e, db, s);
    verdict != Passed && s1 == s.(store := s1.store, history := s.history + [Turned(now, e, verdict)])
  }

  // An entry that some good actor rule covers reaches no chain, in no state of the
  // system: it is neither handed over nor buffered nor processed.  Its activity is
  // then marked by the first such rule and free of any block, unless it was marked
  // before.
  lemma GoodActorsAreTurnedAway(cfg: Config, now: Time, e: LogEntry, db: DbView, s: System, k: nat)
    requires CoveredFirst(cfg, e, k)
    ensures Rejected(cfg, now, e, db, s, KnownGood)
    ensures var before := Lookup(s.store, BaseActor(e));
      var after := Lookup(ArriveAt(cfg, now, e, db, s).store, BaseActor(e));
      && BaseActor(e) in ArriveAt(cfg, now, e, db, s).store
      && after.skipInfo.kind == SkipGoodActor
      && (if before.skipInfo.kind == SkipGoodActor then SameFlags(before, after)
          else after.skipInfo.source == cfg.goodActors[k].name && !after.isBlocked && after.blockedUntil == ZERO_TIME)
  {
    CoveredIsGood(cfg, e);
    var base := BaseActor(e);
    var st, rule := Ensure(s.store, base), cfg.goodActors[k].name;
    var good := st[base := MarkGood(st[base], rule)];
    UnblockFlags(cfg, now, e, rule, good, base);
    GoodPasses(now, e, UnblockGood(cfg, now, e, rule, good));
  }

  // Without a database, a good actor's address is unblocked once, and then not again
  // until the cooldown is over.
  lemma UnblocksAreSpaced(cfg: Config, now: Time, later: Time, e: LogEntry, rule: string, st: Store)
    requires cfg.unblockOnGoodActor && !cfg.persistenceEnabled && now != ZERO_TIME
    ensures var act := Lookup(st, IpOnly(e));
      var st1 := UnblockGood(cfg, now, e, rule, st);
      var due := act.lastUnblockTime == ZERO_TIME || Sub(now, act.lastUnblockTime) > cfg.unblockCooldown;
      && IpOnly(e) in st1
      && st1[IpOnly(e)].lastUnblockTime == (if due then now else act.lastUnblockTime)
      && (due ==> st1[IpOnly(e)].lastUnblockReason == "good-actor:" + rule)
      && (due && Sub(later, now) <= cfg.unblockCooldown ==> UnblockGood(cfg, later, e, rule, st1) == st1)
  {
  }

  // ------------------------------------------------------------------ whole runs

  // The clock readings of a run at which entries were looked at.
  function ClocksOf(steps: seq<Step>): seq<Time> {
    if steps == [] then []
    else
      var n := |steps| - 1;
      ClocksOf(steps[..n]) + ReadingsOf(steps[n])
  }

  function ReadingsOf(step: Step): seq<Time> {
    match step
    case Arrive(now, _, _) => [now]
    case ProcessHeld(_, clocks) => clocks
    case Flush(clocks) => clocks
    case _ => []
  }

  lemma {:induction false} ProcessAllStands(cfg: Config, all: seq<Time>, clocks: seq<Time>, entries: seq<LogEntry>,
          s: System)
    requires |clocks| == |entries| && Stands(cfg, all, s.history, s.store) && forall t :: t in clocks ==> t in all
    ensures var s1 := ProcessAll(cfg, clocks, entries, s); Stands(cfg, all, s1.history, s1.store)
  {
    if entries != [] {
      CheckEntryStands(cfg, all, clocks[0], entries[0], s.store, s.history);
      ProcessAllStands(cfg, all, clocks[1..], entries[1..], ProcessOne(cfg, clocks[0], entries[0], s));
    }
  }

  lemma HandleStands(cfg: Config, all: seq<Time>, now: Time, e: LogEntry, s: System)
    requires Stands(cfg, all, s.history, s.store) && now in all
    ensures var s1 := HandleOutOfOrder(cfg, now, e, s); Stands(cfg, all, s1.history, s1.store)
  {
    var st := Ensure(s.store, IpOnly(e));
    CheckEntryStands(cfg, all, now, e, s.store, s.history);
    EnsureStands(cfg, all, IpOnly(e), s.store, s.history);
    CheckEntryStands(cfg, all, now, e, st, s.history);
  }

  lemma ArriveStands(cfg: Config, all: seq<Time>, now: Time, e: LogEntry, db: DbView, s: System)
    requires Stands(cfg, all, s.history, s.store) && now in all
    ensures var s1 := ArriveAt(cfg, now, e, db, s); Stands(cfg, all, s1.history, s1.store)
  {
    var gate := CheckGate(cfg, now, e, db, s.store);
    GateStands(cfg, all, now, e, db, s.store, s.history);
    var s1 := s.(store := gate.store, history := s.history + TurnEvents(now, e, gate.verdict));
    if gate.verdict == Passed { HandleStands(cfg, all, now, e, s1); }
  }

  lemma StepStands(cfg: Config, clocks: seq<Time>, s: System, step: Step)
    requires Stands(cfg, clocks, s.history, s.store) && Enabled(s, step)
    ensures var s1 := Apply(cfg, s, step); Stands(cfg, clocks + ReadingsOf(step), s1.history, s1.store)
  {
    var all := clocks + ReadingsOf(step);
    StandsLonger(cfg, clocks, ReadingsOf(step), s.history, s.store);
    match step
    case Arrive(now, e, db) =>
      assert all[|clocks|] == now;
      ArriveStands(cfg, all, now, e, db, s);
    case Tick(_, _) =>
    case ProcessHeld(order, _) => ProcessAllStands(cfg, all, step.clocks, order, s.(held := []));
    case Flush(_) => ProcessAllStands(cfg, all, step.clocks, s.buffer, s.(buffer := []));
    case IdleSweep(now) => DropStands(cfg, all, s.store, Sweep(cfg, now, s.store), s.history);
    case ApiClear(address) => DropStands(cfg, all, s.store, ClearAddress(address, s.store), s.history);
  }

  // In every run the flags of every activity follow from the record, and the chains
  // ran on no activity marked good, nor on a blocked one before a clock had passed
  // the end of its block.
  lemma {:induction false} EveryRunStands(cfg: Config, steps: seq<Step>, s: System)
    requires Reaches(cfg, steps, s)
    ensures Stands(cfg, ClocksOf(steps), s.history, s.store)
    decreases |steps|
  {
    if steps == [] {
      StartStands(cfg);
    } else {
      var step, prior := steps[|steps| - 1], steps[..|steps| - 1];
      var before :| Reaches(cfg, prior, before) && LeadsTo(cfg, before, step, s);
      EveryRunStands(cfg, prior, before);
      StepStands(cfg, ClocksOf(prior), before, step);
    }
  }

  // The event drops a, or blocks it as a completed chain or a known bad actor does.
  predicate Unmarks(cfg: Config, ev: Event, a: Actor) {
    Restands(cfg, ev, a) && !(ev.Turned? && ev.verdict == KnownGood)
  }

  // Between a mark as good actor and a run on the marked activity, something dropped
  // it or blocked it.
  lemma GoodActorsRunNothing(cfg: Config, steps: seq<Step>, s: System, i: nat, j: nat, a: Actor)
    requires Reaches(cfg, steps, s) && i < j < |s.history|
    requires s.history[i].Turned? && s.history[i].verdict == KnownGood && BaseActor(s.history[i].entry) == a
    requires s.history[j].Processed? && s.history[j].run.actor == a
    ensures exists k :: i < k < j && Unmarks(cfg, s.history[k], a)
  {
    EveryRunStands(cfg, steps, s);
    var before := s.history[..j];
    assert Runnable(ClocksOf(steps), StandingOf(cfg, before, a));
    if forall k :: i < k < j ==> !Unmarks(cfg, s.history[k], a) {
      assert forall k :: i < k < j ==> before[k] == s.history[k];
      MarkStands(cfg, before, i, a);
    }
  }

  // Nothing after event i drops a, marks it good or blocks it again.
  ghost predicate Unchanged(cfg: Config, history: seq<Event>, i: nat, a: Actor) {
    forall k :: i < k < |history| && Restands(cfg, history[k], a) ==> history[k].Turned? && history[k].verdict == KnownBad
  }

  // A completed block chain blocks its actor and the bare address in every run: while
  // nothing else happens to them, no chain runs on them ...
  lemma BlockedActorsRunNothing(cfg: Config, steps: seq<Step>, s: System, i: nat, j: nat, a: Actor)
    requires Reaches(cfg, steps, s) && i < j < |s.history|
    requires s.history[i].Processed? && BlocksIt(cfg, s.history[i].run, a) && Unchanged(cfg, s.history[..j], i, a)
    requires s.history[j].Processed? && s.history[j].run.actor == a
    ensures var r := s.history[i].run; PastEnd(ClocksOf(steps), r.now + cfg.chains[r.chain].blockDuration)
  {
    EveryRunStands(cfg, steps, s);
    assert Runnable(ClocksOf(steps), StandingOf(cfg, s.history[..j], a));
    BlockStands(cfg, s.history[..j], i, a);
  }

  // ... and every entry of the address without a vhost, as every entry of the actor
  // itself, is turned away until a clock passes the end of the block.
  lemma BlockedAddressIsTurnedAway(cfg: Config, steps: seq<Step>, s: System, i: nat, now: Time, e: LogEntry, db: DbView)
    requires Reaches(cfg, steps, s) && i < |s.history| && s.history[i].Processed?
    requires BlocksIt(cfg, s.history[i].run, BaseActor(e)) && Unchanged(cfg, s.history, i, BaseActor(e))
    requires var r := s.history[i].run;
      var until := r.now + cfg.chains[r.chain].blockDuration;
      now <= until && !PastEnd(ClocksOf(steps), until)
    ensures exists verdict :: Rejected(cfg, now, e, db, s, verdict)
  {
    EveryRunStands(cfg, steps, s);
    BlockStands(cfg, s.history, i, BaseActor(e));
    assert Agrees(ClocksOf(steps), StandingOf(cfg, s.history, BaseActor(e)), Lookup(s.store, BaseActor(e)));
    var verdict := CheckGate(cfg, now, e, db, s.store).verdict;
    VerdictExactly(cfg, now, e, db, s.store);
    assert Rejected(cfg, now, e, db, s, verdict);
  }

  // ------------------------------------------------------------- a fresh start

  // Clearing an address drops its activities and no other.
  lemma ClearIsExact(address: string, st: Store, a: Actor)
    ensures a in ClearAddress(address, st) <==> a in st && a.ip.address != address
    ensures a in ClearAddress(address, st) ==> ClearAddress(address, st)[a] == st[a]
  {
  }

  // In every run, an address that was cleared starts as if it had never been seen:
  // no block, no mark, no progress, no request time.
  lemma ClearedAddressStartsAfresh(cfg: Config, steps: seq<Step>, s: System, address: string, a: Actor)
    requires Reaches(cfg, steps, s) && a.ip.address == address
    ensures var s1 := Apply(cfg, s, ApiClear(address));
      && Lookup(s1.store, a) == NEW_ACTIVITY
      && (a in s.store ==> StandingOf(cfg, s1.history, a) == Open && LastSeen(s1.history, a) == ZERO_TIME)
  {
    var s1 := Apply(cfg, s, ApiClear(address));
    ClearIsExact(address, s.store, a);
    StandingNext(cfg, s.history, Dropped(s.store.Keys - s1.store.Keys), a);
    SeenNext(s.history, Dropped(s.store.Keys - s1.store.Keys), a);
  }

  // The idle sweep drops an activity exactly if it is not blocked, matched no step
  // within the idle timeout, and has been silent for longer than that or than any
  // first-step rule looks back.
  lemma SweepIsExact(cfg: Config, now: Time, st: Store, a: Actor)
    requires a in st
    ensures a !in Sweep(cfg, now, st) <==>
      && !st[a].isBlocked
      && (forall key :: key in st[a].chainProgress ==>
            Sub(now, st[a].chainProgress[key].lastMatchTime) >= cfg.idleTimeout)
      && (|| Sub(now, st[a].lastRequestTime) > cfg.idleTimeout
          || Sub(now, st[a].lastRequestTime) > cfg.maxTimeSinceLastHit > 0)
    ensures a in Sweep(cfg, now, st) ==> Sweep(cfg, now, st)[a] == st[a]
    ensures Sweep(cfg, now, st).Keys <= st.Keys
  {
  }
}
