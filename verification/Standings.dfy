// Where an activity stands, by the record alone: open to the chains, marked as a good
// actor, or blocked until some time.  The store follows it, so a mark or a block keeps
// an actor from the chains for as long as it stands.
module Standings {
  import opened LogEntries
  import opened Activities
  import opened EntryEffects
  import opened StoreInvariants
  import opened BlockCauses

  datatype Standing = Open | Good(rule: string) | Banned(reason: string, until: Time)

  // The name of the first rule that covers the entry.
  function RuleName(cfg: Config, e: LogEntry): string {
    if IsGoodActor(cfg, e) then cfg.goodActors[FirstRule(cfg.goodActors, e)].name else ""
  }

  // The run blocks the activity: it is the actor that completed, or the bare address.
  predicate BlocksIt(cfg: Config, r: Ran, a: Actor) {
    IsBlock(cfg, r) && (a == r.actor || a == IpOnly(r.entry))
  }

  function NextStanding(cfg: Config, ev: Event, a: Actor, before: Standing): Standing {
    match ev
    case Processed(r) =>
      if BlocksIt(cfg, r, a) then Banned(r.key, r.now + cfg.chains[r.chain].blockDuration) else before
    case Checked(_, _, _) => before
    case Turned(now, e, verdict) =>
      if a != BaseActor(e) then before
      else if verdict == KnownGood && !before.Good? then Good(RuleName(cfg, e))
      else if verdict == KnownBad && !before.Banned? then Banned(BAD_ACTOR, now + cfg.badActorBlockDuration)
      else before
    case Dropped(actors) => if a in actors then Open else before
  }

  function StandingOf(cfg: Config, history: seq<Event>, a: Actor): Standing {
    if history == [] then Open
    else
      var n := |history| - 1;
      NextStanding(cfg, history[n], a, StandingOf(cfg, history[..n], a))
  }

  lemma StandingNext(cfg: Config, history: seq<Event>, ev: Event, a: Actor)
    ensures StandingOf(cfg, history + [ev], a) == NextStanding(cfg, ev, a, StandingOf(cfg, history, a))
  {
    assert (history + [ev])[..|history|] == history;
  }

  // A clock was read past the end of the block.
  ghost predicate PastEnd(clocks: seq<Time>, until: Time) {
    exists i :: 0 <= i < |clocks| && clocks[i] > until
  }

  // A block that stands is lifted only by a clock past its end.
  ghost predicate Agrees(clocks: seq<Time>, standing: Standing, act: Activity) {
    match standing
    case Open => act.skipInfo.kind == SkipNone && !act.isBlocked && act.blockedUntil == ZERO_TIME
    case Good(rule) => act.skipInfo == SkipInfo(SkipGoodActor, rule) && !act.isBlocked && act.blockedUntil == ZERO_TIME
    case Banned(reason, until) =>
      || (act.isBlocked && act.skipInfo == SkipInfo(SkipBlocked, reason) && act.blockedUntil == until)
      || (act.skipInfo.kind != SkipGoodActor && PastEnd(clocks, until))
  }

  ghost predicate AllAgree(cfg: Config, clocks: seq<Time>, history: seq<Event>, st: Store) {
    forall a :: Agrees(clocks, StandingOf(cfg, history, a), Lookup(st, a))
  }

  // The chains may run on the activity.
  ghost predicate Runnable(clocks: seq<Time>, standing: Standing) {
    !standing.Good? && (standing.Banned? ==> PastEnd(clocks, standing.until))
  }

  ghost predicate RunsAllowed(cfg: Config, clocks: seq<Time>, history: seq<Event>) {
    forall i :: 0 <= i < |history| && history[i].Processed? ==>
      Runnable(clocks, StandingOf(cfg, history[..i], history[i].run.actor))
  }

  ghost predicate Stands(cfg: Config, clocks: seq<Time>, history: seq<Event>, st: Store) {
    AllAgree(cfg, clocks, history, st) && RunsAllowed(cfg, clocks, history)
  }

  // ---------------------------------------------------------------- more clocks

  lemma PastEndStays(clocks: seq<Time>, more: seq<Time>, until: Time)
    requires PastEnd(clocks, until)
    ensures PastEnd(clocks + more, until)
  {
    var i :| 0 <= i < |clocks| && clocks[i] > until;
    assert (clocks + more)[i] > until;
  }

  lemma StandsLonger(cfg: Config, clocks: seq<Time>, more: seq<Time>, history: seq<Event>, st: Store)
    requires Stands(cfg, clocks, history, st)
    ensures Stands(cfg, clocks + more, history, st)
  {
    forall a ensures Agrees(clocks + more, StandingOf(cfg, history, a), Lookup(st, a)) {
      AgreesLonger(clocks, more, StandingOf(cfg, history, a), Lookup(st, a));
    }
    forall i | 0 <= i < |history| && history[i].Processed?
      ensures Runnable(clocks + more, StandingOf(cfg, history[..i], history[i].run.actor))
    {
      var standing := StandingOf(cfg, history[..i], history[i].run.actor);
      assert Runnable(clocks, standing);
      if standing.Banned? { PastEndStays(clocks, more, standing.until); }
    }
  }

  lemma AgreesLonger(clocks: seq<Time>, more: seq<Time>, standing: Standing, act: Activity)
    requires Agrees(clocks, standing, act)
    ensures Agrees(clocks + more, standing, act)
  {
    if standing.Banned? && PastEnd(clocks, standing.until) { PastEndStays(clocks, more, standing.until); }
  }

  // ------------------------------------------------------------- one entry's runs

  lemma PreCheckAgrees(clocks: seq<Time>, now: Time, e: LogEntry, standing: Standing, act: Activity)
    requires Agrees(clocks, standing, act) && now in clocks
    ensures var pre := PreCheckActivity(now, e, act);
            Agrees(clocks, standing, pre.activity) && (!pre.skip ==> Runnable(clocks, standing))
  {
    var i :| 0 <= i < |clocks| && clocks[i] == now;
  }

  lemma PutAgrees(cfg: Config, clocks: seq<Time>, history: seq<Event>, st: Store, a: Actor, act: Activity)
    requires AllAgree(cfg, clocks, history, st) && Agrees(clocks, StandingOf(cfg, history, a), act)
    ensures AllAgree(cfg, clocks, history, st[a := act])
  {
    forall b ensures Agrees(clocks, StandingOf(cfg, history, b), Lookup(st[a := act], b)) {
      assert Agrees(clocks, StandingOf(cfg, history, b), Lookup(st, b));
    }
  }

  // What a run leaves of one activity: the flags of a block it caused, or those before.
  predicate SameFlags(act: Activity, act1: Activity) {
    act1.isBlocked == act.isBlocked && act1.skipInfo == act.skipInfo && act1.blockedUntil == act.blockedUntil
  }

  predicate HasBlock(act: Activity, reason: string, until: Time) {
    act.isBlocked && act.skipInfo == SkipInfo(SkipBlocked, reason) && act.blockedUntil == until
  }

  lemma ProcessFlags(cfg: Config, e: LogEntry, r: Ran, st: Store, b: Actor)
    requires r.actor in st && r.entry == e && r.chain < |cfg.chains| && r.key == ChainKey(cfg.chains[r.chain], e)
    requires r.completed == AdvanceFor(cfg.chains[r.chain], e, r.previousRequest, st[r.actor]).completed
    ensures var chain := cfg.chains[r.chain];
            var st1 := ProcessChain(r.now, chain, e, r.actor, r.previousRequest, st);
            if BlocksIt(cfg, r, b) then HasBlock(Lookup(st1, b), r.key, r.now + chain.blockDuration)
            else SameFlags(Lookup(st, b), Lookup(st1, b))
  {
  }

  lemma ProcessAgrees(cfg: Config, clocks: seq<Time>, e: LogEntry, r: Ran, st: Store, history: seq<Event>)
    requires Stands(cfg, clocks, history, st)
    requires r.actor in st && r.entry == e && r.chain < |cfg.chains| && r.key == ChainKey(cfg.chains[r.chain], e)
    requires r.completed == AdvanceFor(cfg.chains[r.chain], e, r.previousRequest, st[r.actor]).completed
    requires Runnable(clocks, StandingOf(cfg, history, r.actor))
    ensures Stands(cfg, clocks, history + [Processed(r)],
                   ProcessChain(r.now, cfg.chains[r.chain], e, r.actor, r.previousRequest, st))
  {
    var st1 := ProcessChain(r.now, cfg.chains[r.chain], e, r.actor, r.previousRequest, st);
    forall b ensures Agrees(clocks, StandingOf(cfg, history + [Processed(r)], b), Lookup(st1, b)) {
      assert Agrees(clocks, StandingOf(cfg, history, b), Lookup(st, b));
      StandingNext(cfg, history, Processed(r), b);
      ProcessFlags(cfg, e, r, st, b);
    }
    AllowedNext(cfg, clocks, history, Processed(r));
  }

  lemma AllowedNext(cfg: Config, clocks: seq<Time>, history: seq<Event>, ev: Event)
    requires RunsAllowed(cfg, clocks, history)
    requires ev.Processed? ==> Runnable(clocks, StandingOf(cfg, history, ev.run.actor))
    ensures RunsAllowed(cfg, clocks, history + [ev])
  {
    var more := history + [ev];
    forall i | 0 <= i < |more| && more[i].Processed?
      ensures Runnable(clocks, StandingOf(cfg, more[..i], more[i].run.actor))
    {
      assert more[..i] == history[..i];
      if i == |history| { assert history[..i] == history; }
    }
  }

  lemma TryChainStands(cfg: Config, clocks: seq<Time>, now: Time, e: LogEntry, i: nat, st: Store, history: seq<Event>)
    requires i < |cfg.chains| && Stands(cfg, clocks, history, st) && now in clocks
    ensures var t := TryChain(cfg, now, e, i, st);
            |t.ran| <= 1 && Stands(cfg, clocks, history + Events(t.ran), t.store)
  {
    var chain := cfg.chains[i];
    var a := GetActor(chain, e);
    assert history + Events([]) == history;
    if !FilteredOut(cfg, chain) && a.ip.address != "" {
      var standing, act := StandingOf(cfg, history, a), Lookup(st, a);
      assert Agrees(clocks, standing, act);
      PreCheckAgrees(clocks, now, e, standing, act);
      var pre := PreCheckActivity(now, e, act);
      PutAgrees(cfg, clocks, history, st, a, pre.activity);
      if !pre.skip {
        var r := TryChain(cfg, now, e, i, st).ran[0];
        assert Events([r]) == [Processed(r)];
        ProcessAgrees(cfg, clocks, e, r, st[a := pre.activity], history);
      }
    }
  }

  lemma {:induction false} RunChainsStand(cfg: Config, clocks: seq<Time>, now: Time, e: LogEntry, indices: seq<nat>,
          st: Store, history: seq<Event>)
    requires Stands(cfg, clocks, history, st) && now in clocks
    ensures var result := RunChains(cfg, now, e, indices, st);
            Stands(cfg, clocks, history + Events(result.ran), result.store)
  {
    if indices == [] || indices[0] >= |cfg.chains| {
      assert history + Events([]) == history;
    } else {
      var first := TryChain(cfg, now, e, indices[0], st);
      TryChainStands(cfg, clocks, now, e, indices[0], st, history);
      if !Stops(cfg, first.ran) {
        var rest := RunChains(cfg, now, e, indices[1..], first.store);
        RunChainsStand(cfg, clocks, now, e, indices[1..], first.store, history + Events(first.ran));
        EventsOfTurn(first.ran, rest.ran, history);
      }
    }
  }

  lemma CheckEntryStands(cfg: Config, clocks: seq<Time>, now: Time, e: LogEntry, st: Store, history: seq<Event>)
    requires Stands(cfg, clocks, history, st) && now in clocks
    ensures var result := CheckEntry(cfg, now, e, st);
            Stands(cfg, clocks, history + Events(result.ran) + [MarkOf(e, result.ran, st, result.store)], result.store)
  {
    var indices := ChainIndices(cfg, e);
    RunChainsStand(cfg, clocks, now, e, indices, st, history);
    var mid, result := RunChains(cfg, now, e, indices, st), CheckEntry(cfg, now, e, st);
    var more, mark := history + Events(mid.ran), MarkOf(e, result.ran, st, result.store);
    forall a ensures Agrees(clocks, StandingOf(cfg, more + [mark], a), Lookup(result.store, a)) {
      assert Agrees(clocks, StandingOf(cfg, more, a), Lookup(mid.store, a));
      StandingNext(cfg, more, mark, a);
    }
    AllowedNext(cfg, clocks, more, mark);
  }

  // ------------------------------------------------------------------- the gate

  // What the gate leaves of one activity.
  lemma GateAgrees(cfg: Config, clocks: seq<Time>, now: Time, e: LogEntry, db: DbView, st: Store, standing: Standing,
          a: Actor)
    requires Agrees(clocks, standing, Lookup(st, a)) && now in clocks
    ensures var gate := CheckGate(cfg, now, e, db, st);
            var after := if gate.verdict == Passed then standing else NextStanding(cfg, Turned(now, e, gate.verdict), a, standing);
            Agrees(clocks, after, Lookup(gate.store, a))
  {
    var base := BaseActor(e);
    var act, st1 := Lookup(st, base), Ensure(st, base);
    if IsGoodActor(cfg, e) {
      var rule := RuleName(cfg, e);
      var good := st1[base := MarkGood(act, rule)];
      UnblockFlags(cfg, now, e, rule, good, a);
      GoodPasses(now, e, UnblockGood(cfg, now, e, rule, good));
    } else if cfg.persistenceEnabled && cfg.badActorsEnabled && db.isBadActor {
    } else if a == base {
      PreCheckAgrees(clocks, now, e, standing, act);
    }
  }

  lemma UnblockFlags(cfg: Config, now: Time, e: LogEntry, rule: string, st: Store, a: Actor)
    ensures SameFlags(Lookup(st, a), Lookup(UnblockGood(cfg, now, e, rule, st), a))
  {
  }

  // A marked activity is passed on by nobody.
  lemma GoodPasses(now: Time, e: LogEntry, st: Store)
    requires Lookup(st, BaseActor(e)).skipInfo.kind == SkipGoodActor
    ensures PassPreCheck(now, e, st) == Gate(st[BaseActor(e) := Lookup(st, BaseActor(e))], KnownGood)
  {
  }

  lemma GateStands(cfg: Config, clocks: seq<Time>, now: Time, e: LogEntry, db: DbView, st: Store, history: seq<Event>)
    requires Stands(cfg, clocks, history, st) && now in clocks
    ensures var gate := CheckGate(cfg, now, e, db, st);
            Stands(cfg, clocks, history + TurnEvents(now, e, gate.verdict), gate.store)
  {
    var gate := CheckGate(cfg, now, e, db, st);
    var more := history + TurnEvents(now, e, gate.verdict);
    assert gate.verdict == Passed ==> more == history;
    forall a ensures Agrees(clocks, StandingOf(cfg, more, a), Lookup(gate.store, a)) {
      GateAgrees(cfg, clocks, now, e, db, st, StandingOf(cfg, history, a), a);
      StandingNext(cfg, history, Turned(now, e, gate.verdict), a);
    }
    AllowedNext(cfg, clocks, history, Turned(now, e, gate.verdict));
  }

  // -------------------------------------------------------------------- the rest

  lemma EnsureStands(cfg: Config, clocks: seq<Time>, a: Actor, st: Store, history: seq<Event>)
    requires Stands(cfg, clocks, history, st)
    ensures Stands(cfg, clocks, history, Ensure(st, a))
  {
    assert Agrees(clocks, StandingOf(cfg, history, a), Lookup(st, a));
    PutAgrees(cfg, clocks, history, st, a, Lookup(st, a));
  }

  lemma DropStands(cfg: Config, clocks: seq<Time>, st: Store, st1: Store, history: seq<Event>)
    requires Stands(cfg, clocks, history, st)
    requires st1.Keys <= st.Keys && forall a :: a in st1 ==> st1[a] == st[a]
    ensures Stands(cfg, clocks, history + [Dropped(st.Keys - st1.Keys)], st1)
  {
    var ev := Dropped(st.Keys - st1.Keys);
    forall a ensures Agrees(clocks, StandingOf(cfg, history + [ev], a), Lookup(st1, a)) {
      assert Agrees(clocks, StandingOf(cfg, history, a), Lookup(st, a));
      StandingNext(cfg, history, ev, a);
    }
    AllowedNext(cfg, clocks, history, ev);
  }

  lemma StartStands(cfg: Config)
    ensures Stands(cfg, [], [], map[])
  {
  }

  // ------------------------------------------------------------ how long it stands

  // The event can end a mark or change a block of a.
  predicate Restands(cfg: Config, ev: Event, a: Actor) {
    match ev
    case Processed(r) => BlocksIt(cfg, r, a)
    case Checked(_, _, _) => false
    case Turned(_, e, verdict) => a == BaseActor(e) && (verdict == KnownGood || verdict == KnownBad)
    case Dropped(actors) => a in actors
  }

  // A block stands while nothing drops the activity, marks it good or blocks it again.
  lemma {:induction false} BlockStands(cfg: Config, history: seq<Event>, i: nat, a: Actor)
    requires i < |history| && history[i].Processed? && BlocksIt(cfg, history[i].run, a)
    requires forall k :: i < k < |history| && Restands(cfg, history[k], a) ==>
      history[k].Turned? && history[k].verdict == KnownBad
    ensures var r := history[i].run;
            StandingOf(cfg, history, a) == Banned(r.key, r.now + cfg.chains[r.chain].blockDuration)
    decreases |history|
  {
    var n := |history| - 1;
    if i < n {
      assert history[..n][i] == history[i];
      BlockStands(cfg, history[..n], i, a);
    }
  }

  // A mark stands while nothing drops the activity or blocks it.
  lemma {:induction false} MarkStands(cfg: Config, history: seq<Event>, i: nat, a: Actor)
    requires i < |history| && history[i].Turned? && history[i].verdict == KnownGood && a == BaseActor(history[i].entry)
    requires forall k :: i < k < |history| && Restands(cfg, history[k], a) ==>
      history[k].Turned? && history[k].verdict == KnownGood
    ensures StandingOf(cfg, history, a).Good?
    decreases |history|
  {
    var n := |history| - 1;
    if i < n {
      assert history[..n][i] == history[i];
      MarkStands(cfg, history[..n], i, a);
    }
  }

  // ------------------------------------------------ what a completed block leaves

  // A block that has not run out at this clock.
  predicate Holds(now: Time, act: Activity) {
    act.isBlocked && act.skipInfo.kind == SkipBlocked && !(now > act.blockedUntil)
  }

  // From one store to another only the runs listed change a block that holds.
  ghost predicate BlocksKept(cfg: Config, now: Time, st: Store, st1: Store, ran: seq<Ran>) {
    forall b :: Holds(now, Lookup(st, b)) && (forall r :: r in ran ==> !BlocksIt(cfg, r, b)) ==>
      SameFlags(Lookup(st, b), Lookup(st1, b))
  }

  lemma TurnKeepsBlocks(cfg: Config, now: Time, e: LogEntry, i: nat, st: Store)
    requires i < |cfg.chains|
    ensures var t := TryChain(cfg, now, e, i, st);
            && |t.ran| <= 1 && BlocksKept(cfg, now, st, t.store, t.ran)
            && forall r, b :: r in t.ran && BlocksIt(cfg, r, b) ==>
                 HasBlock(Lookup(t.store, b), r.key, now + cfg.chains[r.chain].blockDuration)
  {
    var chain := cfg.chains[i];
    var a := GetActor(chain, e);
    if !FilteredOut(cfg, chain) && a.ip.address != "" {
      var t, pre := TryChain(cfg, now, e, i, st), PreCheckActivity(now, e, Lookup(st, a));
      var st1 := st[a := pre.activity];
      if !pre.skip {
        var r := t.ran[0];
        forall b
          ensures if BlocksIt(cfg, r, b) then HasBlock(Lookup(t.store, b), r.key, now + chain.blockDuration)
                  else SameFlags(Lookup(st1, b), Lookup(t.store, b))
        {
          ProcessFlags(cfg, e, r, st1, b);
        }
      }
    }
  }

  // Of all blocks on an activity the last one counts.
  ghost predicate LastOn(cfg: Config, ran: seq<Ran>, l: nat, b: Actor) {
    l < |ran| && BlocksIt(cfg, ran[l], b) && forall j :: l < j < |ran| ==> !BlocksIt(cfg, ran[j], b)
  }

  ghost predicate LastBlocksHold(cfg: Config, now: Time, ran: seq<Ran>, st: Store) {
    forall l: nat, b: Actor :: LastOn(cfg, ran, l, b) ==>
      HasBlock(Lookup(st, b), ran[l].key, now + cfg.chains[ran[l].chain].blockDuration)
  }

  lemma {:induction false} RunChainsBlock(cfg: Config, now: Time, e: LogEntry, indices: seq<nat>, st: Store)
    requires BlocksLast(cfg)
    ensures var result := RunChains(cfg, now, e, indices, st);
            BlocksKept(cfg, now, st, result.store, result.ran) && LastBlocksHold(cfg, now, result.ran, result.store)
  {
    if indices != [] && indices[0] < |cfg.chains| {
      var first := TryChain(cfg, now, e, indices[0], st);
      TurnKeepsBlocks(cfg, now, e, indices[0], st);
      if Stops(cfg, first.ran) {
        FirstBlocks(cfg, now, first);
      } else {
        var rest := RunChains(cfg, now, e, indices[1..], first.store);
        RunChainsBlock(cfg, now, e, indices[1..], first.store);
        BlocksCompose(cfg, now, st, first, rest);
      }
    }
  }

  lemma FirstBlocks(cfg: Config, now: Time, first: ChainsResult)
    requires |first.ran| <= 1
    requires forall r, b :: r in first.ran && BlocksIt(cfg, r, b) ==>
      HasBlock(Lookup(first.store, b), r.key, now + cfg.chains[r.chain].blockDuration)
    ensures LastBlocksHold(cfg, now, first.ran, first.store)
  {
    forall l: nat, b: Actor | LastOn(cfg, first.ran, l, b)
      ensures HasBlock(Lookup(first.store, b), first.ran[l].key, now + cfg.chains[first.ran[l].chain].blockDuration)
    {
      assert first.ran[l] in first.ran;
    }
  }

  lemma BlocksCompose(cfg: Config, now: Time, st: Store, first: ChainsResult, rest: ChainsResult)
    requires BlocksLast(cfg) && |first.ran| <= 1
    requires BlocksKept(cfg, now, st, first.store, first.ran)
    requires forall r, b :: r in first.ran && BlocksIt(cfg, r, b) ==>
      HasBlock(Lookup(first.store, b), r.key, now + cfg.chains[r.chain].blockDuration)
    requires BlocksKept(cfg, now, first.store, rest.store, rest.ran) && LastBlocksHold(cfg, now, rest.ran, rest.store)
    ensures var ran := first.ran + rest.ran;
            BlocksKept(cfg, now, st, rest.store, ran) && LastBlocksHold(cfg, now, ran, rest.store)
  {
    var ran := first.ran + rest.ran;
    forall b | Holds(now, Lookup(st, b)) && (forall r :: r in ran ==> !BlocksIt(cfg, r, b))
      ensures SameFlags(Lookup(st, b), Lookup(rest.store, b))
    {
      assert SameFlags(Lookup(st, b), Lookup(first.store, b));
    }
    forall l: nat, b: Actor | LastOn(cfg, ran, l, b)
      ensures HasBlock(Lookup(rest.store, b), ran[l].key, now + cfg.chains[ran[l].chain].blockDuration)
    {
      LastInParts(cfg, now, first, rest, l, b);
    }
  }

  lemma LastInParts(cfg: Config, now: Time, first: ChainsResult, rest: ChainsResult, l: nat, b: Actor)
    requires BlocksLast(cfg) && LastOn(cfg, first.ran + rest.ran, l, b)
    requires forall r, b :: r in first.ran && BlocksIt(cfg, r, b) ==>
      HasBlock(Lookup(first.store, b), r.key, now + cfg.chains[r.chain].blockDuration)
    requires BlocksKept(cfg, now, first.store, rest.store, rest.ran) && LastBlocksHold(cfg, now, rest.ran, rest.store)
    ensures var r := (first.ran + rest.ran)[l];
            HasBlock(Lookup(rest.store, b), r.key, now + cfg.chains[r.chain].blockDuration)
  {
    var ran, m := first.ran + rest.ran, |first.ran|;
    forall j | 0 <= j < |rest.ran| && m + j > l ensures !BlocksIt(cfg, rest.ran[j], b) {
      assert ran[m + j] == rest.ran[j];
    }
    if l >= m {
      assert LastOn(cfg, rest.ran, l - m, b);
    } else {
      assert ran[l] in first.ran;
      assert Holds(now, Lookup(first.store, b));
    }
  }

  // After an entry, the actor of every completed block chain and the bare address are
  // blocked: each with the reason of the last completion on it, until a block
  // duration after the clock.
  lemma CompletedBlocksHold(cfg: Config, now: Time, e: LogEntry, st: Store)
    requires BlocksLast(cfg)
    ensures var result := CheckEntry(cfg, now, e, st);
            && (forall r, b :: r in result.ran && BlocksIt(cfg, r, b) ==> Holds(now, Lookup(result.store, b)))
            && LastBlocksHold(cfg, now, result.ran, result.store)
  {
    var mid, result := RunChains(cfg, now, e, ChainIndices(cfg, e), st), CheckEntry(cfg, now, e, st);
    RunChainsBlock(cfg, now, e, ChainIndices(cfg, e), st);
    forall b ensures SameFlags(Lookup(mid.store, b), Lookup(result.store, b)) {
    }
    forall l: nat, b: Actor | LastOn(cfg, result.ran, l, b)
      ensures HasBlock(Lookup(result.store, b), result.ran[l].key, now + cfg.chains[result.ran[l].chain].blockDuration)
    {
      assert LastOn(cfg, mid.ran, l, b);
    }
    forall r, b | r in result.ran && BlocksIt(cfg, r, b) ensures Holds(now, Lookup(result.store, b)) {
      var i :| 0 <= i < |result.ran| && result.ran[i] == r;
      var l := LastFrom(cfg, result.ran, i, b);
    }
  }

  lemma {:induction false} LastFrom(cfg: Config, ran: seq<Ran>, i: nat, b: Actor) returns (l: nat)
    requires i < |ran| && BlocksIt(cfg, ran[i], b)
    ensures LastOn(cfg, ran, l, b)
    decreases |ran| - i
  {
    if j :| i < j < |ran| && BlocksIt(cfg, ran[j], b) {
      l := LastFrom(cfg, ran, j, b);
    } else {
      l := i;
    }
  }
}
