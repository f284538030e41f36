// Which entry the request time of an activity comes from: what first-step rules and
// the out-of-order test look at.
module RequestTimes {
  import opened LogEntries
  import opened Chains
  import opened Activities
  import opened EntryEffects
  import opened StoreInvariants
  import opened RunHistory
  import opened ReorderBuffer

  function Later(t: Time, u: Time): Time {
    if u > t then u else t
  }

  // The request time of an activity, by the record alone: the timestamp of the last
  // entry it ran on since it was last dropped, or a later one of an entry that met
  // its running block.
  function LastSeen(history: seq<Event>, a: Actor): Time {
    if history == [] then ZERO_TIME
    else
      var n := |history| - 1;
      NextSeen(history[n], a, LastSeen(history[..n], a))
  }

  function NextSeen(ev: Event, a: Actor, last: Time): Time {
    match ev
    case Processed(_) => last
    case Checked(e, stamped, raised) =>
      if a in stamped then e.timestamp else if a in raised then Later(last, e.timestamp) else last
    case Turned(_, e, verdict) => if verdict == UnderBlock && a == BaseActor(e) then Later(last, e.timestamp) else last
    case Dropped(actors) => if a in actors then ZERO_TIME else last
  }

  // The event sets the request time of a, whatever it was before.
  predicate Sets(ev: Event, a: Actor) {
    (ev.Checked? && a in ev.stamped) || (ev.Dropped? && a in ev.actors)
  }

  // The event raises the request time of a to that of a later entry.
  predicate Raises(ev: Event, a: Actor) {
    || (ev.Checked? && a !in ev.stamped && a in ev.raised)
    || (ev.Turned? && ev.verdict == UnderBlock && a == BaseActor(ev.entry))
  }

  // The request time of a is that of event j's entry: the last one it ran on, or a
  // raise above what was there; nothing after j set or raised it again.
  ghost predicate SeenAt(history: seq<Event>, j: nat, a: Actor) {
    && j < |history|
    && (Raises(history[j], a) ==> history[j].entry.timestamp > LastSeen(history[..j], a))
    && (!Raises(history[j], a) ==> history[j].Checked? && a in history[j].stamped)
    && forall k :: j < k < |history| ==>
         && !Sets(history[k], a)
         && (Raises(history[k], a) ==> history[k].entry.timestamp <= history[j].entry.timestamp)
  }

  lemma {:induction false} SeenSomewhere(history: seq<Event>, a: Actor) returns (j: nat)
    requires LastSeen(history, a) != ZERO_TIME
    ensures SeenAt(history, j, a) && history[j].entry.timestamp == LastSeen(history, a)
  {
    var n := |history| - 1;
    var last := LastSeen(history[..n], a);
    if LastSeen(history, a) == last && !Sets(history[n], a) {
      j := SeenSomewhere(history[..n], a);
      assert history[..n][..j] == history[..j];
      assert forall k :: j < k < n ==> history[..n][k] == history[k];
    } else {
      j := n;
    }
  }

  // ------------------------------------------------------- the store follows

  ghost predicate TimesFollow(history: seq<Event>, st: Store) {
    forall a :: Lookup(st, a).lastRequestTime == LastSeen(history, a)
  }

  lemma SeenNext(history: seq<Event>, ev: Event, a: Actor)
    ensures LastSeen(history + [ev], a) == NextSeen(ev, a, LastSeen(history, a))
  {
    assert (history + [ev])[..|history|] == history;
  }

  // A block that has not run out.
  predicate Running(now: Time, act: Activity) {
    act.isBlocked && !(now > act.blockedUntil)
  }

  // While an entry is checked, a request time stays or is raised to the entry's.
  ghost predicate RaisedOnly(now: Time, e: LogEntry, a: Actor, before: Activity, after: Activity) {
    || after.lastRequestTime == before.lastRequestTime
    || (a.ip == e.ip && a.vhost == e.vhost && after.lastRequestTime == e.timestamp > before.lastRequestTime)
  }

  ghost predicate AllRaisedOnly(now: Time, e: LogEntry, st: Store, st1: Store) {
    forall a :: RaisedOnly(now, e, a, Lookup(st, a), Lookup(st1, a))
  }

  // A raise happens under a running block, and the block goes on.
  ghost predicate UnderBlocks(now: Time, st: Store, st1: Store) {
    && (forall a :: Running(now, Lookup(st, a)) ==> Running(now, Lookup(st1, a)))
    && (forall a :: Lookup(st1, a).lastRequestTime != Lookup(st, a).lastRequestTime ==> Running(now, Lookup(st1, a)))
  }

  lemma ProcessTimes(now: Time, chain: Chain, e: LogEntry, a: Actor, previous: Time, st: Store)
    requires a in st
    ensures var st1 := ProcessChain(now, chain, e, a, previous, st);
            && (forall b :: Lookup(st1, b).lastRequestTime == Lookup(st, b).lastRequestTime)
            && (chain.blockDuration >= 0 ==> UnderBlocks(now, st, st1))
  {
    CompleteEffect(now, chain, e, a, st);
  }

  lemma TryChainTimes(cfg: Config, now: Time, e: LogEntry, i: nat, st: Store)
    requires i < |cfg.chains|
    ensures var st1 := TryChain(cfg, now, e, i, st).store;
            AllRaisedOnly(now, e, st, st1) && (cfg.chains[i].blockDuration >= 0 ==> UnderBlocks(now, st, st1))
  {
    var chain := cfg.chains[i];
    var a := GetActor(chain, e);
    if !FilteredOut(cfg, chain) && a.ip.address != "" {
      ActorOfEntry(chain, e);
      var pre := PreCheckActivity(now, e, Lookup(st, a));
      var st1 := st[a := pre.activity];
      assert AllRaisedOnly(now, e, st, st1) && UnderBlocks(now, st, st1);
      if !pre.skip {
        ProcessTimes(now, chain, e, a, pre.activity.lastRequestTime, st1);
      }
    }
  }

  lemma {:induction false} RunChainsTimes(cfg: Config, now: Time, e: LogEntry, indices: seq<nat>, st: Store)
    ensures var st1 := RunChains(cfg, now, e, indices, st).store;
            AllRaisedOnly(now, e, st, st1) && (BlocksLast(cfg) ==> UnderBlocks(now, st, st1))
  {
    if indices != [] && indices[0] < |cfg.chains| {
      TryChainTimes(cfg, now, e, indices[0], st);
      RunChainsTimes(cfg, now, e, indices[1..], TryChain(cfg, now, e, indices[0], st).store);
    }
  }

  // One request time over one entry.
  lemma CheckEntryTime(cfg: Config, now: Time, e: LogEntry, st: Store, a: Actor)
    ensures var result := CheckEntry(cfg, now, e, st);
            var mark := MarkOf(e, result.ran, st, result.store);
            var last := Lookup(st, a).lastRequestTime;
            && Lookup(result.store, a).lastRequestTime == NextSeen(mark, a, last)
            && (a in mark.raised ==> a.ip == e.ip && a.vhost == e.vhost)
            && (a in mark.raised && BlocksLast(cfg) ==> Running(now, Lookup(result.store, a)))
  {
    var indices := ChainIndices(cfg, e);
    var mid := RunChains(cfg, now, e, indices, st);
    RunChainsTimes(cfg, now, e, indices, st);
    RanAreStored(cfg, now, e, indices, st);
    assert RaisedOnly(now, e, a, Lookup(st, a), Lookup(mid.store, a));
  }

  // The mark of an entry: those that ran take its time, those raised took a later
  // time than they had, under a running block.
  lemma CheckEntryTimes(cfg: Config, now: Time, e: LogEntry, st: Store, history: seq<Event>)
    requires TimesFollow(history, st)
    ensures var result := CheckEntry(cfg, now, e, st);
            var mark := MarkOf(e, result.ran, st, result.store);
            && TimesFollow(history + Events(result.ran) + [mark], result.store)
            && (forall a :: a in mark.stamped + mark.raised ==> a.ip == e.ip && a.vhost == e.vhost)
            && (BlocksLast(cfg) ==> forall a :: a in mark.raised ==> Running(now, Lookup(result.store, a)))
  {
    RunChainsOnlyAddress(cfg, now, e, ChainIndices(cfg, e), st);
    var result := CheckEntry(cfg, now, e, st);
    var mark := MarkOf(e, result.ran, st, result.store);
    EventsAreRuns(result.ran);
    forall a { CheckEntryTime(cfg, now, e, st, a); }
    forall a ensures Lookup(result.store, a).lastRequestTime == LastSeen(history + Events(result.ran) + [mark], a) {
      RunsKeepSeen(history, Events(result.ran), a);
      SeenNext(history + Events(result.ran), mark, a);
    }
  }

  lemma {:induction false} RanAreStored(cfg: Config, now: Time, e: LogEntry, indices: seq<nat>, st: Store)
    ensures var result := RunChains(cfg, now, e, indices, st);
            st.Keys <= result.store.Keys && forall r :: r in result.ran ==> r.actor in result.store
  {
    if indices != [] && indices[0] < |cfg.chains| {
      RanAreStored(cfg, now, e, indices[1..], TryChain(cfg, now, e, indices[0], st).store);
    }
  }

  // Runs alone move no request time.
  lemma {:induction false} RunsKeepSeen(history: seq<Event>, more: seq<Event>, a: Actor)
    requires forall i :: 0 <= i < |more| ==> more[i].Processed?
    ensures LastSeen(history + more, a) == LastSeen(history, a)
  {
    if more == [] {
      assert history + more == history;
    } else {
      var n := |more| - 1;
      assert history + more == (history + more[..n]) + [more[n]];
      SeenNext(history + more[..n], more[n], a);
      RunsKeepSeen(history, more[..n], a);
    }
  }

  // The gate raises the request time of the entry's activity under a running block.
  lemma GateTimes(cfg: Config, now: Time, e: LogEntry, db: DbView, st: Store, history: seq<Event>)
    requires TimesFollow(history, st)
    ensures var gate := CheckGate(cfg, now, e, db, st);
            TimesFollow(history + TurnEvents(now, e, gate.verdict), gate.store)
  {
    var gate := CheckGate(cfg, now, e, db, st);
    forall a ensures Lookup(gate.store, a).lastRequestTime == LastSeen(history + TurnEvents(now, e, gate.verdict), a) {
      GateTime(cfg, now, e, db, st, a);
      TurnTime(now, e, gate, st, history, a);
    }
  }

  // What the gate does to one request time.
  predicate GateRaises(e: LogEntry, gate: Gate, st: Store, a: Actor) {
    var last := Lookup(st, a).lastRequestTime;
    Lookup(gate.store, a).lastRequestTime ==
    if gate.verdict == UnderBlock && a == BaseActor(e) then Later(last, e.timestamp) else last
  }

  lemma TurnTime(now: Time, e: LogEntry, gate: Gate, st: Store, history: seq<Event>, a: Actor)
    requires Lookup(st, a).lastRequestTime == LastSeen(history, a) && GateRaises(e, gate, st, a)
    ensures Lookup(gate.store, a).lastRequestTime == LastSeen(history + TurnEvents(now, e, gate.verdict), a)
  {
    if gate.verdict == Passed {
      assert history + [] == history;
    } else {
      SeenNext(history, Turned(now, e, gate.verdict), a);
    }
  }

  lemma GateTime(cfg: Config, now: Time, e: LogEntry, db: DbView, st: Store, a: Actor)
    ensures GateRaises(e, CheckGate(cfg, now, e, db, st), st, a)
  {
    var base := BaseActor(e);
    var st1 := Ensure(st, base);
    if IsGoodActor(cfg, e) {
      var rule := cfg.goodActors[FirstRule(cfg.goodActors, e)].name;
      var good := st1[base := MarkGood(st1[base], rule)];
      UnblockKeepsTime(cfg, now, e, rule, good, a);
      PassTime(now, e, UnblockGood(cfg, now, e, rule, good), a);
    } else if !(cfg.persistenceEnabled && cfg.badActorsEnabled && db.isBadActor) {
      PassTime(now, e, st1, a);
    }
  }

  lemma UnblockKeepsTime(cfg: Config, now: Time, e: LogEntry, rule: string, st: Store, a: Actor)
    ensures Lookup(UnblockGood(cfg, now, e, rule, st), a).lastRequestTime == Lookup(st, a).lastRequestTime
  {
  }

  lemma PassTime(now: Time, e: LogEntry, st: Store, a: Actor)
    ensures GateRaises(e, PassPreCheck(now, e, st), st, a)
  {
  }

  lemma DropTimes(st: Store, st1: Store, history: seq<Event>)
    requires TimesFollow(history, st)
    requires st1.Keys <= st.Keys && forall a :: a in st1 ==> st1[a] == st[a]
    ensures TimesFollow(history + [Dropped(st.Keys - st1.Keys)], st1)
  {
    forall a ensures Lookup(st1, a).lastRequestTime == LastSeen(history + [Dropped(st.Keys - st1.Keys)], a) {
      SeenNext(history, Dropped(st.Keys - st1.Keys), a);
    }
  }

  // -------------------------------------------------------- the runs follow

  // Every run was given the request time its actor had by then.
  ghost predicate RunsFollow(history: seq<Event>) {
    forall i :: 0 <= i < |history| && history[i].Processed? ==>
      history[i].run.previousRequest == LastSeen(history[..i], history[i].run.actor)
  }

  lemma RunsFollowNext(history: seq<Event>, ev: Event)
    requires RunsFollow(history)
    requires ev.Processed? ==> ev.run.previousRequest == LastSeen(history, ev.run.actor)
    ensures RunsFollow(history + [ev])
  {
    var more := history + [ev];
    forall i | 0 <= i < |more| && more[i].Processed?
      ensures more[i].run.previousRequest == LastSeen(more[..i], more[i].run.actor)
    {
      assert more[..i] == history[..i];
      if i == |history| { assert history[..i] == history; }
    }
  }

  // One more run of an entry, behind others of the same entry.
  lemma RunFollows(history: seq<Event>, ran: seq<Ran>, k: nat)
    requires k < |ran| && |Events(ran)| == |ran|
    requires forall i :: 0 <= i < |ran| ==> Events(ran)[i] == Processed(ran[i])
    requires ran[k].previousRequest == LastSeen(history, ran[k].actor)
    ensures var more := history + Events(ran);
            var i := |history| + k;
            more[i] == Processed(ran[k]) && ran[k].previousRequest == LastSeen(more[..i], ran[k].actor)
  {
    assert (history + Events(ran))[..|history| + k] == history + Events(ran)[..k];
    RunsKeepSeen(history, Events(ran)[..k], ran[k].actor);
  }

  lemma EventsFollow(history: seq<Event>, ran: seq<Ran>)
    requires RunsFollow(history)
    requires forall r :: r in ran ==> r.previousRequest == LastSeen(history, r.actor)
    ensures RunsFollow(history + Events(ran))
  {
    EventsAreRuns(ran);
    var more := history + Events(ran);
    forall i | 0 <= i < |more| && more[i].Processed?
      ensures more[i].run.previousRequest == LastSeen(more[..i], more[i].run.actor)
    {
      if i < |history| {
        assert more[..i] == history[..i];
      } else {
        assert ran[i - |history|] in ran;
        RunFollows(history, ran, i - |history|);
      }
    }
  }

  lemma CheckEntryFollows(cfg: Config, now: Time, e: LogEntry, st: Store, history: seq<Event>)
    requires BlocksLast(cfg) && TimesFollow(history, st) && RunsFollow(history)
    ensures var result := CheckEntry(cfg, now, e, st);
            RunsFollow(history + Events(result.ran) + [MarkOf(e, result.ran, st, result.store)])
  {
    var result := CheckEntry(cfg, now, e, st);
    EntryEffect(cfg, now, e, st);
    EventsFollow(history, result.ran);
    RunsFollowNext(history + Events(result.ran), MarkOf(e, result.ran, st, result.store));
  }

  // ------------------------------------------------------- what the buffer holds

  // A later entry of the same address without a vhost, close enough to buffer e.
  ghost predicate LateAfter(b: LogEntry, e: LogEntry, tolerance: Duration) {
    b.ip == e.ip && b.vhost == "" && ShouldBuffer(b.timestamp, e.timestamp, tolerance)
  }

  // Event j is such an entry: processed, or turned away by a running block.
  ghost predicate LateAt(history: seq<Event>, j: nat, e: LogEntry, tolerance: Duration) {
    && j < |history|
    && (history[j].Checked? || (history[j].Turned? && history[j].verdict == UnderBlock))
    && LateAfter(history[j].entry, e, tolerance)
  }

  // The record names entries that arrived, and activities of their address and vhost.
  ghost predicate Genuine(arrived: seq<LogEntry>, history: seq<Event>) {
    forall j :: 0 <= j < |history| ==>
      && (history[j].Checked? || history[j].Turned? ==> history[j].entry in arrived)
      && (history[j].Checked? ==> forall a :: a in history[j].stamped + history[j].raised ==>
            a.ip == history[j].entry.ip && a.vhost == history[j].entry.vhost)
  }

  // The test of the handler looks at the bare address, so what it buffers is late
  // after such an entry.
  lemma BufferedIsLate(arrived: seq<LogEntry>, history: seq<Event>, st: Store, e: LogEntry, tolerance: Duration)
    requires TimesFollow(history, st) && Genuine(arrived, history)
    requires ShouldBuffer(Lookup(st, IpOnly(e)).lastRequestTime, e.timestamp, tolerance)
    ensures exists j :: LateAt(history, j, e, tolerance)
  {
    assert Lookup(st, IpOnly(e)).lastRequestTime == LastSeen(history, IpOnly(e));
    var j := SeenSomewhere(history, IpOnly(e));
    assert LateAt(history, j, e, tolerance);
  }
}
