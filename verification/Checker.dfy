// The checker as it runs: activities are shared objects in a map, updated in
// place under the activity lock.  Every method is held to the functions on store
// values that the other modules reason about.
module Checker {
  import opened LogEntries
  import opened Chains
  import opened Activities
  import opened StoreInvariants
  import opened ReorderBuffer
  import opened SystemRuns

  datatype Option<T> = None | Some(value: T)

  // store.ActorActivity
  class ActorActivity {
    var lastRequestTime: Time
    var blockedUntil: Time
    var lastUnblockTime: Time
    var lastUnblockReason: string
    var chainProgress: map<string, StepState>
    var isBlocked: bool
    var skipInfo: SkipInfo

    ghost function Value(): Activity
      reads this
    {
      Activity(lastRequestTime, blockedUntil, lastUnblockTime, lastUnblockReason, chainProgress, isBlocked, skipInfo)
    }

    constructor ()
      ensures Value() == NEW_ACTIVITY
    {
      lastRequestTime, blockedUntil, lastUnblockTime := ZERO_TIME, ZERO_TIME, ZERO_TIME;
      lastUnblockReason, chainProgress := "", map[];
      isBlocked, skipInfo := false, NO_SKIP;
    }

    // The part of PreCheckActivity that follows the lookup.
    method CheckSkip(now: Time, e: LogEntry) returns (skip: bool, info: SkipInfo)
      modifies this
      ensures var pre := PreCheckActivity(now, e, old(Value()));
              Value() == pre.activity && skip == pre.skip && info == pre.info
    {
      if skipInfo.kind == SkipGoodActor {
        return true, skipInfo;
      }
      if isBlocked {
        if now > blockedUntil {
          isBlocked := false;
          skipInfo := NO_SKIP;
          blockedUntil := ZERO_TIME;
        } else {
          if e.timestamp > lastRequestTime {
            lastRequestTime := e.timestamp;
          }
          return true, skipInfo;
        }
      }
      return false, NO_SKIP;
    }

    method Block(reason: string, until: Time)
      modifies this
      ensures Value() == MarkBlocked(old(Value()), reason, until)
    {
      isBlocked := true;
      skipInfo := SkipInfo(SkipBlocked, reason);
      blockedUntil := until;
    }

    // Progress is kept only while the chain is under way.
    method SaveProgress(key: string, state: StepState)
      modifies this
      ensures Value() == SetProgress(old(Value()), key, state)
    {
      if state.currentStep > 0 {
        chainProgress := chainProgress[key := state];
      } else {
        chainProgress := chainProgress - {key};
      }
    }
  }

  // The parts of app.Processor that the checker works on.
  class Processor {
    const cfg: Config
    var activityStore: map<Actor, ActorActivity>
    var entryBuffer: seq<LogEntry>
    // What the worker holds between its two locks, and the record of the run.
    ghost var held: seq<LogEntry>
    ghost var handed: seq<LogEntry>
    ghost var processed: seq<LogEntry>
    ghost var history: seq<Event>

    // No two actors share an activity.
    ghost predicate Valid()
      reads this`activityStore
    {
      forall a, b :: a in activityStore && b in activityStore && a != b ==> activityStore[a] != activityStore[b]
    }

    ghost function Values(): Store
      reads this`activityStore, activityStore.Values
    {
      map a | a in activityStore :: activityStore[a].Value()
    }

    ghost function State(): System
      reads this, activityStore.Values
    {
      System(Values(), entryBuffer, held, handed, processed, history)
    }

    // Activities are only ever added to the map while an entry is checked.
    twostate predicate Grows()
      reads this`activityStore
    {
      && (forall a :: a in old(activityStore) ==> a in activityStore && activityStore[a] == old(activityStore[a]))
      && fresh(activityStore.Values - old(activityStore.Values))
    }

    constructor (cfg: Config)
      ensures Valid() && State() == START && this.cfg == cfg
    {
      this.cfg := cfg;
      activityStore, entryBuffer := map[], [];
      held, handed, processed, history := [], [], [], [];
    }

    // Only the activity of a changed.
    twostate lemma OneChanged(a: Actor)
      requires Valid() && activityStore == old(activityStore) && a in activityStore
      requires forall b :: b in activityStore && b != a ==> activityStore[b].Value() == old(activityStore[b].Value())
      ensures Values() == old(Values())[a := activityStore[a].Value()]
    {
    }

    lemma PutTwice(st: Store, a: Actor, v: Activity, w: Activity)
      ensures st[a := v][a := w] == st[a := w]
    {
    }

    // store.GetOrCreateUnsafe
    method GetOrCreate(a: Actor) returns (activity: ActorActivity)
      requires Valid()
      modifies this`activityStore
      ensures Valid() && Grows()
      ensures a in activityStore && activity == activityStore[a]
      ensures Values() == Ensure(old(Values()), a)
    {
      if a in activityStore {
        activity := activityStore[a];
      } else {
        activity := new ActorActivity();
        activityStore := activityStore[a := activity];
      }
      assert activity.Value() == Lookup(old(Values()), a);
    }

    method PreCheck(now: Time, e: LogEntry, a: Actor) returns (activity: ActorActivity, skip: bool, info: SkipInfo)
      requires Valid()
      modifies this`activityStore, activityStore.Values
      ensures Valid() && Grows()
      ensures a in activityStore && activity == activityStore[a]
      ensures var pre := PreCheckActivity(now, e, Lookup(old(Values()), a));
              && Values() == old(Values())[a := pre.activity]
              && skip == pre.skip && info == pre.info
    {
      activity := GetOrCreate(a);
      label Created:
      ghost var st, act := Values(), activity.Value();
      assert act == st[a];
      skip, info := activity.CheckSkip(now, e);
      OneChanged@Created(a);
      PutTwice(old(Values()), a, act, activity.Value());
    }

    // The block is always recorded under the bare address too.
    method BlockAddress(e: LogEntry, reason: string, until: Time) returns (ipActivity: ActorActivity)
      requires Valid()
      modifies this`activityStore, activityStore.Values
      ensures Valid() && Grows()
      ensures IpOnly(e) in activityStore && ipActivity == activityStore[IpOnly(e)]
      ensures Values() == old(Values())[IpOnly(e) := MarkBlocked(Lookup(old(Values()), IpOnly(e)), reason, until)]
      ensures ipActivity.blockedUntil == until
    {
      ghost var st0 := Values();
      ipActivity := GetOrCreate(IpOnly(e));
      ghost var created, v := Values(), ipActivity.Value();
      assert v == created[IpOnly(e)];
      label Created:
      ipActivity.Block(reason, until);
      OneChanged@Created(IpOnly(e));
      PutTwice(st0, IpOnly(e), v, ipActivity.Value());
    }

    // handleChainCompletion
    method HandleChainCompletion(now: Time, chain: Chain, e: LogEntry, current: ActorActivity, ghost a: Actor)
        returns (stop: bool)
      requires Valid() && a in activityStore && activityStore[a] == current
      modifies this`activityStore, activityStore.Values
      ensures Valid() && Grows()
      ensures Values() == Complete(now, chain, e, a, old(Values()))
      ensures stop == StopsProcessing(chain)
    {
      stop := StopsProcessing(chain);
      if chain.action == Block {
        var reason := ChainKey(chain, e);
        var ipActivity := BlockAddress(e, reason, now + chain.blockDuration);
        ghost var st1 := Values();
        assert current.Value() == st1[a];
        label IpBlocked:
        current.Block(reason, ipActivity.blockedUntil);
        OneChanged@IpBlocked(a);
      }
    }

    // matchStepFields
    static method MatchStepFields(step: StepDef, e: LogEntry) returns (matched: bool)
      ensures matched == StepMatches(step, e)
    {
      for i := 0 to |step.matchers|
        invariant forall j :: 0 <= j < i ==> step.matchers[j](e)
      {
        if !step.matchers[i](e) { return false; }
      }
      return true;
    }

    method SaveFor(current: ActorActivity, key: string, state: StepState, ghost a: Actor)
      requires Valid() && a in activityStore && activityStore[a] == current
      modifies current
      ensures Values() == old(Values())[a := SetProgress(old(Values())[a], key, state)]
    {
      ghost var st := Values();
      assert current.Value() == st[a];
      current.SaveProgress(key, state);
      OneChanged(a);
    }

    // The completing entry leaves no progress.
    method CompleteChain(now: Time, chain: Chain, e: LogEntry, current: ActorActivity, key: string, ghost a: Actor)
        returns (stop: bool)
      requires Valid() && a in activityStore && activityStore[a] == current
      modifies this`activityStore, activityStore.Values
      ensures Valid() && Grows()
      ensures var st1 := Complete(now, chain, e, a, old(Values()));
              Values() == st1[a := SetProgress(st1[a], key, FRESH)]
      ensures stop == StopsProcessing(chain)
    {
      stop := HandleChainCompletion(now, chain, e, current, a);
      SaveFor(current, key, FRESH, a);
    }

    // ProcessChainForEntry; rounds counts how often the body of its loop runs.
    method ProcessChainForEntry(now: Time, chain: Chain, e: LogEntry, current: ActorActivity, previous: Time,
            ghost a: Actor)
        returns (stop: bool, ghost completed: bool, ghost rounds: nat)
      requires Valid() && a in activityStore && activityStore[a] == current
      modifies this`activityStore, activityStore.Values
      ensures Valid() && Grows()
      ensures GetActor(chain, e).ip.address == "" ==> !stop && !completed && Values() == old(Values())
      ensures GetActor(chain, e).ip.address != "" ==>
                && Values() == ProcessChain(now, chain, e, a, previous, old(Values()))
                && completed == AdvanceFor(chain, e, previous, old(Values())[a]).completed
                && stop == (completed && StopsProcessing(chain))
      ensures rounds <= 2
    {
      stop, completed, rounds := false, false, 0;
      if GetActor(chain, e).ip.address == "" { return; }
      var key := ChainKey(chain, e);
      var state := if key in current.chainProgress then current.chainProgress[key] else FRESH;
      ghost var start := state;
      assert current.Value() == Values()[a] && start == ProgressOf(old(Values())[a], key);
      while state.currentStep < |chain.steps|
        invariant Advance(chain, e, previous, state) == Advance(chain, e, previous, start)
        invariant rounds == 0 || (rounds == 1 && state.currentStep == 0)
        decreases state.currentStep
      {
        rounds := rounds + 1;
        var step := chain.steps[state.currentStep];
        if state.currentStep == 0 {
          if !FirstStepTimeRule(step, e, previous) { break; }
        } else if !InterStepTimeRules(step, Sub(e.timestamp, state.lastMatchTime)) {
          state := state.(currentStep := 0);
          continue;
        }
        var matched := MatchStepFields(step, e);
        if !matched { break; }
        state := StepState(state.currentStep + 1, e.timestamp);
        if state.currentStep == |chain.steps| {
          stop := CompleteChain(now, chain, e, current, key, a);
          completed := true;
          return;
        }
        break;
      }
      assert Stored(Advance(chain, e, previous, start)) == if state.currentStep > 0 then state else FRESH;
      SaveFor(current, key, state, a);
    }

    // One turn of the loop in checkChainsInternal; touched is the activity it ran on.
    method TryOneChain(now: Time, e: LogEntry, i: nat) returns (touched: ActorActivity?, stop: bool,
            ghost ran: seq<Ran>)
      requires Valid() && i < |cfg.chains|
      modifies this`activityStore, activityStore.Values
      ensures Valid() && Grows()
      ensures TryChain(cfg, now, e, i, old(Values())) == ChainsResult(Values(), ran)
      ensures stop == Stops(cfg, ran)
      ensures if touched == null then ran == []
              else |ran| == 1 && ran[0].actor in activityStore && activityStore[ran[0].actor] == touched
    {
      touched, stop, ran := null, false, [];
      var chain := cfg.chains[i];
      if FilteredOut(cfg, chain) { return; }
      var a := GetActor(chain, e);
      if a.ip.address == "" { return; }
      var current, skip, _ := PreCheck(now, e, a);
      if skip { return; }
      ghost var st1 := Values();
      assert current.Value() == st1[a];
      var previous := current.lastRequestTime;
      ghost var completed, rounds;
      stop, completed, rounds := ProcessChainForEntry(now, chain, e, current, previous, a);
      touched := current;
      ran := [Ran(i, a, ChainKey(chain, e), e, now, previous, completed)];
    }

    // touched holds exactly the activities of the actors that ran.
    ghost predicate Touched(touched: set<ActorActivity>, ran: seq<Ran>)
      reads this`activityStore
    {
      && touched <= activityStore.Values
      && ActorsOf(ran) <= activityStore.Keys
      && forall a :: a in activityStore ==> (activityStore[a] in touched <==> a in ActorsOf(ran))
    }

    // A turn, with the bookkeeping of touched activities.
    method TouchOneChain(now: Time, e: LogEntry, i: nat, touched: set<ActorActivity>, ghost ran: seq<Ran>)
        returns (touched': set<ActorActivity>, stop: bool, ghost ran': seq<Ran>)
      requires Valid() && i < |cfg.chains| && Touched(touched, ran)
      modifies this`activityStore, activityStore.Values
      ensures Valid() && Grows() && Touched(touched', ran')
      ensures var turn := TryChain(cfg, now, e, i, old(Values()));
              turn.store == Values() && ran' == ran + turn.ran && stop == Stops(cfg, turn.ran)
    {
      var activity, stopped, more := TryOneChain(now, e, i);
      assert forall a :: a in activityStore && a !in old(activityStore) ==> activityStore[a] !in touched;
      ExtendTouched(touched, ran, activity, more);
      touched' := if activity == null then touched else touched + {activity};
      stop, ran' := stopped, ran + more;
    }

    lemma Unroll(now: Time, e: LogEntry, indices: seq<nat>, k: nat, st: Store, ran: seq<Ran>)
      requires k < |indices|
      ensures var rest := RunChains(cfg, now, e, indices[k..], st);
              if indices[k] >= |cfg.chains| then rest == ChainsResult(st, [])
              else
                var first := TryChain(cfg, now, e, indices[k], st);
                var later := RunChains(cfg, now, e, indices[k + 1..], first.store);
                if Stops(cfg, first.ran) then rest == first
                else rest.store == later.store && ran + rest.ran == (ran + first.ran) + later.ran
    {
      assert indices[k..][0] == indices[k] && indices[k..][1..] == indices[k + 1..];
      if indices[k] < |cfg.chains| {
        var first := TryChain(cfg, now, e, indices[k], st);
        var later := RunChains(cfg, now, e, indices[k + 1..], first.store);
        assert ran + (first.ran + later.ran) == (ran + first.ran) + later.ran;
      }
    }

    // The loop over applicable chains.
    method RunApplicableChains(now: Time, e: LogEntry) returns (touched: set<ActorActivity>, ghost ran: seq<Ran>)
      requires Valid()
      modifies this`activityStore, activityStore.Values
      ensures Valid() && Grows() && Touched(touched, ran)
      ensures RunChains(cfg, now, e, ChainIndices(cfg, e), old(Values())) == ChainsResult(Values(), ran)
    {
      touched, ran := RunListed(now, e, ChainIndices(cfg, e));
    }

    method RunListed(now: Time, e: LogEntry, indices: seq<nat>)
        returns (touched: set<ActorActivity>, ghost ran: seq<Ran>)
      requires Valid()
      modifies this`activityStore, activityStore.Values
      ensures Valid() && Grows() && Touched(touched, ran)
      ensures RunChains(cfg, now, e, indices, old(Values())) == ChainsResult(Values(), ran)
    {
      touched, ran := {}, [];
      var k, stop := 0, false;
      ghost var st := Values();
      ghost var all := RunChains(cfg, now, e, indices, st);
      assert indices[0..] == indices;
      while k < |indices| && !stop
        invariant k <= |indices| && Valid() && Grows() && Touched(touched, ran) && st == Values()
        invariant Pending(all, now, e, indices, k, stop, st, ran)
        decreases |indices| - k, !stop
      {
        PendingStep(all, now, e, indices, k, st, ran);
        if indices[k] >= |cfg.chains| {
          stop := true;
        } else {
          touched, stop, ran := TouchOneChain(now, e, indices[k], touched, ran);
          k := k + 1;
        }
        st := Values();
      }
    }

    // What the loop still owes the whole result.
    ghost predicate Pending(all: ChainsResult, now: Time, e: LogEntry, indices: seq<nat>, k: nat, stop: bool,
            st: Store, ran: seq<Ran>)
    {
      k <= |indices| && all == if stop then ChainsResult(st, ran) else Then(ran, RunChains(cfg, now, e, indices[k..], st))
    }

    // One turn pays its part.
    lemma PendingStep(all: ChainsResult, now: Time, e: LogEntry, indices: seq<nat>, k: nat, st: Store, ran: seq<Ran>)
      requires k < |indices| && Pending(all, now, e, indices, k, false, st, ran)
      ensures if indices[k] >= |cfg.chains| then Pending(all, now, e, indices, k, true, st, ran)
              else var turn := TryChain(cfg, now, e, indices[k], st);
                   Pending(all, now, e, indices, k + 1, Stops(cfg, turn.ran), turn.store, ran + turn.ran)
    {
      Unroll(now, e, indices, k, st, ran);
    }

    lemma ExtendTouched(touched: set<ActorActivity>, ran: seq<Ran>, activity: ActorActivity?, more: seq<Ran>)
      requires Valid() && Touched(touched, ran)
      requires if activity == null then more == []
               else |more| == 1 && more[0].actor in activityStore && activityStore[more[0].actor] == activity
      ensures Touched(if activity == null then touched else touched + {activity}, ran + more)
    {
      if activity != null {
        assert more == [more[0]];
        assert ActorsOf(ran + more) == ActorsOf(ran) + {more[0].actor};
      } else {
        assert ran + more == ran;
      }
    }

    // The last request time moves once per entry, for every activity that ran.
    method StampAll(touched: set<ActorActivity>, t: Time, ghost ran: seq<Ran>)
      requires Valid() && Touched(touched, ran)
      modifies touched
      ensures Values() == Stamp(old(Values()), ActorsOf(ran), t)
    {
      var todo := touched;
      while todo != {}
        invariant todo <= touched
        invariant forall x :: x in touched ==>
          x.Value() == if x in todo then old(x.Value()) else old(x.Value()).(lastRequestTime := t)
      {
        var activity :| activity in todo;
        activity.lastRequestTime := t;
        todo := todo - {activity};
      }
    }

    method CheckInPlace(now: Time, e: LogEntry) returns (ghost ran: seq<Ran>)
      requires Valid()
      modifies this`activityStore, activityStore.Values
      ensures Valid() && Grows()
      ensures CheckEntry(cfg, now, e, old(Values())) == ChainsResult(Values(), ran)
    {
      var touched;
      touched, ran := RunApplicableChains(now, e);
      StampAll(touched, e.timestamp, ran);
    }

    // checkChainsInternal
    method CheckChainsInternal(now: Time, e: LogEntry)
      requires Valid()
      modifies this`activityStore, this`processed, this`history, activityStore.Values
      ensures Valid() && Grows()
      ensures State() == ProcessOne(cfg, now, e, old(State()))
    {
      ghost var s := State();
      var ran := CheckInPlace(now, e);
      ghost var st := Values();
      processed := processed + [e];
      history := history + Events(ran) + [MarkOf(e, ran, s.store, st)];
      assert Values() == st;
      assert State() == s.(store := st, processed := processed, history := history);
      OneProcessed(now, e, s, st, ran);
    }

    lemma OneProcessed(now: Time, e: LogEntry, s: System, st: Store, ran: seq<Ran>)
      requires CheckEntry(cfg, now, e, s.store) == ChainsResult(st, ran)
      ensures ProcessOne(cfg, now, e, s) == s.(store := st, processed := s.processed + [e],
              history := s.history + Events(ran) + [MarkOf(e, ran, s.store, st)])
    {
    }

    // sort.Search for the first entry later than t, as AddToOooBuffer calls it.
    method SearchLater(t: Time) returns (i: nat)
      requires Sorted(entryBuffer)
      ensures i == InsertionPoint(entryBuffer, t)
    {
      var j := |entryBuffer|;
      i := 0;
      while i < j
        invariant i <= j <= |entryBuffer|
        invariant forall k :: 0 <= k < i ==> entryBuffer[k].timestamp <= t
        invariant forall k :: j <= k < |entryBuffer| ==> entryBuffer[k].timestamp > t
      {
        var h := (i + j) / 2;
        if entryBuffer[h].timestamp > t { j := h; } else { i := h + 1; }
      }
      ghost var p := InsertionPoint(entryBuffer, t);
      assert i < |entryBuffer| ==> entryBuffer[i].timestamp > t;
      assert p < |entryBuffer| ==> entryBuffer[p].timestamp > t;
    }

    // AddToOooBuffer
    method AddToOooBuffer(e: LogEntry)
      requires Sorted(entryBuffer)
      modifies this`entryBuffer
      ensures entryBuffer == Insert(old(entryBuffer), e)
    {
      var i := SearchLater(e.timestamp);
      entryBuffer := entryBuffer[..i] + [e] + entryBuffer[i..];
    }

    // NextOooCandidate
    method NextOooCandidate(horizon: Time) returns (candidate: Option<LogEntry>)
      modifies this`entryBuffer
      ensures if old(entryBuffer) != [] && old(entryBuffer)[0].timestamp < horizon
              then candidate == Some(old(entryBuffer)[0]) && entryBuffer == old(entryBuffer)[1..]
              else candidate == None && entryBuffer == old(entryBuffer)
    {
      if entryBuffer == [] { return None; }
      if entryBuffer[0].timestamp < horizon {
        candidate := Some(entryBuffer[0]);
        entryBuffer := entryBuffer[1..];
      } else {
        candidate := None;
      }
    }

    // Whether an entry belongs into the buffer, by the last request of its bare address.
    method TooLate(e: LogEntry) returns (late: bool)
      requires Valid()
      modifies this`activityStore
      ensures Valid() && Grows()
      ensures var s, tolerance := old(State()), cfg.outOfOrderTolerance;
              var st := Ensure(s.store, IpOnly(e));
              if tolerance == 0 then State() == s && !late
              else
                && State() == s.(store := st)
                && late == ShouldBuffer(st[IpOnly(e)].lastRequestTime, e.timestamp, tolerance)
    {
      if cfg.outOfOrderTolerance == 0 { return false; }
      var activity := GetOrCreate(IpOnly(e));
      ghost var st := Values();
      assert activity.Value() == st[IpOnly(e)];
      late := ShouldBuffer(activity.lastRequestTime, e.timestamp, cfg.outOfOrderTolerance);
    }

    method BufferOrProcess(now: Time, e: LogEntry, late: bool)
      requires Valid() && Sorted(entryBuffer)
      modifies this`activityStore, this`processed, this`history, this`entryBuffer, activityStore.Values
      ensures Valid() && Grows()
      ensures var s := old(State());
              State() == if late then s.(buffer := Insert(s.buffer, e)) else ProcessOne(cfg, now, e, s)
    {
      if late {
        AddToOooBuffer(e);
      } else {
        CheckChainsInternal(now, e);
      }
    }

    // handleOutOfOrder
    method HandleOutOfOrder(now: Time, e: LogEntry) returns (buffered: bool)
      requires Valid() && Sorted(entryBuffer)
      modifies this, activityStore.Values
      ensures Valid() && Grows()
      ensures State() == SystemRuns.HandleOutOfOrder(cfg, now, e, old(State()))
    {
      ghost var s := State();
      handed := handed + [e];
      assert State() == s.(handed := s.handed + [e]);
      buffered := TooLate(e);
      BufferOrProcess(now, e, buffered);
    }

    // The good actor rules, first match wins.
    method FindGoodActorRule(e: LogEntry) returns (i: nat)
      ensures i == FirstRule(cfg.goodActors, e)
    {
      i := 0;
      while i < |cfg.goodActors|
        invariant i <= |cfg.goodActors|
        invariant forall j :: 0 <= j < i ==> !RuleMatches(cfg.goodActors[j], e)
      {
        if RuleMatches(cfg.goodActors[i], e) { break; }
        i := i + 1;
      }
    }

    // The gate in front of the handler: good actors, bad actors, running blocks.
    method PassGate(now: Time, e: LogEntry, db: DbView) returns (verdict: Verdict)
      requires Valid()
      modifies this`activityStore, activityStore.Values
      ensures Valid() && Grows()
      ensures CheckGate(cfg, now, e, db, old(Values())) == Gate(Values(), verdict)
    {
      var activity := GetOrCreate(BaseActor(e));
      verdict := JudgeActor(now, e, db, activity);
    }

    method JudgeActor(now: Time, e: LogEntry, db: DbView, activity: ActorActivity) returns (verdict: Verdict)
      requires Valid() && BaseActor(e) in activityStore && activityStore[BaseActor(e)] == activity
      modifies this`activityStore, activityStore.Values
      ensures Valid() && Grows()
      ensures GateOf(cfg, now, e, db, old(Values())) == Gate(Values(), verdict)
    {
      var i := FindGoodActorRule(e);
      if i < |cfg.goodActors| {
        verdict := AdmitGoodActor(now, e, cfg.goodActors[i].name, activity);
      } else if cfg.persistenceEnabled && cfg.badActorsEnabled && db.isBadActor {
        BlockBadActor(now, e, activity);
        verdict := KnownBad;
      } else {
        verdict := PassPreCheckInPlace(now, e);
      }
    }

    method AdmitGoodActor(now: Time, e: LogEntry, rule: string, activity: ActorActivity) returns (verdict: Verdict)
      requires Valid() && BaseActor(e) in activityStore && activityStore[BaseActor(e)] == activity
      modifies this`activityStore, activityStore.Values
      ensures Valid() && Grows()
      ensures var st := old(Values());
              PassPreCheck(now, e, UnblockGood(cfg, now, e, rule, st[BaseActor(e) := MarkGood(st[BaseActor(e)], rule)]))
              == Gate(Values(), verdict)
    {
      HandleGoodActor(now, e, rule, activity);
      verdict := PassPreCheckInPlace(now, e);
    }

    method PassPreCheckInPlace(now: Time, e: LogEntry) returns (verdict: Verdict)
      requires Valid()
      modifies this`activityStore, activityStore.Values
      ensures Valid() && Grows()
      ensures PassPreCheck(now, e, old(Values())) == Gate(Values(), verdict)
    {
      var _, skip, info := PreCheck(now, e, BaseActor(e));
      verdict := VerdictOf(skip, info);
    }

    // A known bad actor is blocked again unless it already is.
    method BlockBadActor(now: Time, e: LogEntry, activity: ActorActivity)
      requires Valid() && BaseActor(e) in activityStore && activityStore[BaseActor(e)] == activity
      modifies activity
      ensures var act := old(Values())[BaseActor(e)];
              Values() == old(Values())[BaseActor(e) := if act.isBlocked then act
                          else MarkBlocked(act, "bad-actor", now + cfg.badActorBlockDuration)]
    {
      if !activity.isBlocked {
        activity.Block("bad-actor", now + cfg.badActorBlockDuration);
      }
      OneChanged(BaseActor(e));
    }

    // A good actor is marked, and its address unblocked when that is due.
    method HandleGoodActor(now: Time, e: LogEntry, rule: string, activity: ActorActivity)
      requires Valid() && BaseActor(e) in activityStore && activityStore[BaseActor(e)] == activity
      modifies this`activityStore, activityStore.Values
      ensures Valid() && Grows()
      ensures var st := old(Values());
              Values() == UnblockGood(cfg, now, e, rule, st[BaseActor(e) := MarkGood(st[BaseActor(e)], rule)])
    {
      label Before:
      if activity.skipInfo.kind != SkipGoodActor {
        activity.skipInfo := SkipInfo(SkipGoodActor, rule);
        activity.isBlocked := false;
        activity.blockedUntil := ZERO_TIME;
      }
      OneChanged@Before(BaseActor(e));
      if cfg.unblockOnGoodActor && !cfg.persistenceEnabled {
        NoteUnblock(now, e, rule);
      }
    }

    // Without a database the cooldown is kept on the bare address.
    method NoteUnblock(now: Time, e: LogEntry, rule: string)
      requires Valid() && cfg.unblockOnGoodActor && !cfg.persistenceEnabled
      modifies this`activityStore, activityStore.Values
      ensures Valid() && Grows()
      ensures Values() == UnblockGood(cfg, now, e, rule, old(Values()))
    {
      var act := GetOrCreate(IpOnly(e));
      ghost var st := Values();
      assert act.Value() == st[IpOnly(e)];
      if ShouldUnblock(cfg, now, false, act.lastUnblockTime) {
        label Before:
        act.lastUnblockTime := now;
        act.lastUnblockReason := "good-actor:" + rule;
        OneChanged@Before(IpOnly(e));
      }
    }

    // CheckChains
    method CheckChains(now: Time, e: LogEntry, db: DbView)
      requires Valid() && Sorted(entryBuffer)
      modifies this, activityStore.Values
      ensures Valid() && Grows()
      ensures State() == Apply(cfg, old(State()), Arrive(now, e, db))
    {
      ghost var s0 := State();
      var verdict := PassGate(now, e, db);
      ghost var st := Values();
      history := history + TurnEvents(now, e, verdict);
      assert Values() == st;
      assert State() == s0.(store := st, history := s0.history + TurnEvents(now, e, verdict));
      if verdict == Passed {
        var _ := HandleOutOfOrder(now, e);
      }
    }

    // Checks entries one by one, each at its own reading of the clock.
    method ProcessEntries(clocks: seq<Time>, entries: seq<LogEntry>)
      requires Valid() && |clocks| == |entries|
      modifies this`activityStore, this`processed, this`history, activityStore.Values
      ensures Valid() && Grows()
      ensures State() == ProcessAll(cfg, clocks, entries, old(State()))
    {
      ghost var all := ProcessAll(cfg, clocks, entries, State());
      assert clocks[0..] == clocks && entries[0..] == entries;
      for k := 0 to |entries|
        invariant Valid() && Grows()
        invariant all == ProcessAll(cfg, clocks[k..], entries[k..], State())
      {
        ghost var s := State();
        UnrollEntries(clocks, entries, k, s);
        CheckChainsInternal(clocks[k], entries[k]);
      }
    }

    lemma UnrollEntries(clocks: seq<Time>, entries: seq<LogEntry>, k: nat, s: System)
      requires |clocks| == |entries| && k < |entries|
      ensures ProcessAll(cfg, clocks[k..], entries[k..], s) ==
              ProcessAll(cfg, clocks[k + 1..], entries[k + 1..], ProcessOne(cfg, clocks[k], entries[k], s))
    {
      assert clocks[k..][1..] == clocks[k + 1..] && entries[k..][1..] == entries[k + 1..];
    }

    // flushOooBuffer
    method FlushEntryBuffer(clocks: seq<Time>)
      requires Valid() && |clocks| == |entryBuffer|
      modifies this, activityStore.Values
      ensures Valid() && Grows()
      ensures State() == Apply(cfg, old(State()), Flush(clocks))
    {
      if entryBuffer == [] { return; }
      ghost var s0 := State();
      var toProcess := entryBuffer;
      entryBuffer := [];
      assert State() == s0.(buffer := []);
      ProcessEntries(clocks, toProcess);
    }

    // sort.Slice by time; the arrangement of equal times is not relied upon.
    static method SortByTime(entries: seq<LogEntry>) returns (sorted: seq<LogEntry>)
      ensures SortOf(sorted, entries)
    {
      sorted := [];
      for k := 0 to |entries|
        invariant Sorted(sorted) && multiset(sorted) == multiset(entries[..k])
      {
        InsertKeepsOrder(sorted, entries[k]);
        sorted := Insert(sorted, entries[k]);
        assert entries[..k + 1] == entries[..k] + [entries[k]];
      }
      assert entries[..|entries|] == entries;
    }

    // The locked part of one round of EntryBufferWorker: what it takes is held by
    // the worker until it locks again to process it.
    method TakeReady(horizon: Time) returns (ready: seq<LogEntry>, ghost order: seq<LogEntry>)
      requires Valid() && held == []
      modifies this`entryBuffer, this`held
      ensures Valid() && ready == held
      ensures SortOf(order, old(entryBuffer))
      ensures State() == Apply(cfg, old(State()), Tick(horizon, order))
    {
      var sorted := SortByTime(entryBuffer);
      order := sorted;
      ready := HoldReady(horizon, sorted);
    }

    method HoldReady(horizon: Time, sorted: seq<LogEntry>) returns (ready: seq<LogEntry>)
      requires Valid() && held == []
      modifies this`entryBuffer, this`held
      ensures Valid() && ready == held
      ensures State() == Apply(cfg, old(State()), Tick(horizon, sorted))
    {
      entryBuffer := sorted;
      ready := DrainReady(horizon, sorted);
      held := ready;
    }

    // Takes candidates until there is none.
    method DrainReady(horizon: Time, ghost order: seq<LogEntry>) returns (ready: seq<LogEntry>)
      requires entryBuffer == order
      modifies this`entryBuffer
      ensures var n := ReadyCount(order, horizon); ready == order[..n] && entryBuffer == order[n..]
    {
      ready := [];
      var more := true;
      while more
        invariant |ready| <= ReadyCount(order, horizon)
        invariant ready == order[..|ready|] && entryBuffer == order[|ready|..]
        invariant !more ==> |ready| == ReadyCount(order, horizon)
        decreases |entryBuffer|, more
      {
        var candidate := NextOooCandidate(horizon);
        match candidate
        case Some(e) => ready := ready + [e];
        case None => more := false;
      }
    }

    // FlushGivenEntries
    method FlushGivenEntries(ready: seq<LogEntry>, clocks: seq<Time>) returns (ghost order: seq<LogEntry>)
      requires Valid() && ready == held && |clocks| == |ready|
      modifies this, activityStore.Values
      ensures Valid() && Grows()
      ensures SortOf(order, old(held)) && |order| == |clocks|
      ensures State() == Apply(cfg, old(State()), Step.ProcessHeld(order, clocks))
    {
      var sorted := SortByTime(ready);
      assert |sorted| == |multiset(sorted)| == |ready|;
      order := sorted;
      ghost var s0 := State();
      held := [];
      assert State() == s0.(held := []);
      ProcessEntries(clocks, sorted);
    }

    // The body of the sweep, over activities in any order.
    method SweepInPlace(now: Time)
      requires Valid()
      modifies this`activityStore
      ensures Valid()
      ensures Values() == Sweep(cfg, now, old(Values()))
    {
      ghost var st, before := Values(), activityStore;
      var todo := activityStore.Keys;
      while todo != {}
        invariant todo <= activityStore.Keys
        invariant forall a :: a in activityStore ==> a in before && activityStore[a] == before[a]
        invariant forall a :: a in before ==> (a in activityStore <==> a in todo || !Swept(cfg, now, st[a]))
        decreases todo
      {
        var a :| a in todo;
        todo := todo - {a};
        assert activityStore[a].Value() == st[a];
        var idle := IsIdle(activityStore[a], now);
        if idle {
          activityStore := activityStore - {a};
        }
      }
    }

    method IsIdle(activity: ActorActivity, now: Time) returns (idle: bool)
      ensures idle == Swept(cfg, now, activity.Value())
    {
      var recent := HasRecentStep(activity, now);
      var silent := Sub(now, activity.lastRequestTime);
      idle := !activity.isBlocked && !recent
              && (silent > cfg.idleTimeout || (cfg.maxTimeSinceLastHit > 0 && silent > cfg.maxTimeSinceLastHit));
    }

    method HasRecentStep(activity: ActorActivity, now: Time) returns (recent: bool)
      ensures recent == HasActiveChain(cfg, now, activity.Value())
    {
      var todo := activity.chainProgress.Keys;
      recent := false;
      while todo != {} && !recent
        invariant todo <= activity.chainProgress.Keys
        invariant recent ==> HasActiveChain(cfg, now, activity.Value())
        invariant !recent ==> forall key :: key in activity.chainProgress.Keys - todo ==>
          Sub(now, activity.chainProgress[key].lastMatchTime) >= cfg.idleTimeout
        decreases todo
      {
        var key :| key in todo;
        todo := todo - {key};
        recent := Sub(now, activity.chainProgress[key].lastMatchTime) < cfg.idleTimeout;
      }
    }

    // One sweep of CleanUpIdleActors.
    method CleanUpIdleActors(now: Time)
      requires Valid()
      modifies this`activityStore, this`history
      ensures Valid()
      ensures State() == Apply(cfg, old(State()), IdleSweep(now))
    {
      SweepInPlace(now);
      assert old(Values()).Keys == old(activityStore).Keys;
      RecordDrop(old(activityStore).Keys);
    }

    // clearIPFromActivityStore
    method ClearIP(address: string)
      requires Valid()
      modifies this`activityStore, this`history
      ensures Valid()
      ensures State() == Apply(cfg, old(State()), ApiClear(address))
    {
      activityStore := map a | a in activityStore && a.ip.address != address :: activityStore[a];
      assert Values() == ClearAddress(address, old(Values()));
      assert old(Values()).Keys == old(activityStore).Keys;
      RecordDrop(old(activityStore).Keys);
    }

    ghost method RecordDrop(before: set<Actor>)
      modifies this`history
      ensures State() == old(State()).(history := old(history) + [Dropped(before - Values().Keys)])
    {
      assert Values().Keys == activityStore.Keys;
      history := history + [Dropped(before - activityStore.Keys)];
      assert Values() == old(Values());
    }
  }
}
