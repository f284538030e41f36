// What checking one entry against all chains can and cannot do to the store.
module EntryEffects {
  import opened LogEntries
  import opened Chains
  import opened ChainKeys
  import opened Activities

  // ---------------------------------------------------------- block flags

  // The three block fields agree.
  predicate Consistent(act: Activity) {
    && (act.isBlocked <==> act.skipInfo.kind == SkipBlocked)
    && (!act.isBlocked ==> act.blockedUntil == ZERO_TIME)
  }

  // key is a key of chain c on this vhost.
  ghost predicate IsKeyOf(cfg: Config, c: nat, vhost: string, key: string) {
    c < |cfg.chains| && exists website :: key == FormatChainKey(cfg.chains[c].name, vhost, website)
  }

  lemma KeyDeterminesChain(cfg: Config, c: nat, d: nat, vhost: string, key: string)
    requires ValidConfig(cfg) && IsKeyOf(cfg, c, vhost, key) && IsKeyOf(cfg, d, vhost, key)
    ensures c == d
  {
    var w1 :| key == FormatChainKey(cfg.chains[c].name, vhost, w1);
    var w2 :| key == FormatChainKey(cfg.chains[d].name, vhost, w2);
    KeyDeterminesName(cfg.chains[c].name, cfg.chains[d].name, vhost, w1, w2);
  }

  // All stored progress belongs to a chain and lies strictly inside it.
  ghost predicate InBounds(cfg: Config, vhost: string, progress: map<string, StepState>) {
    forall key :: key in progress ==>
      exists c: nat :: IsKeyOf(cfg, c, vhost, key) && 0 < progress[key].currentStep < |cfg.chains[c].steps|
  }

  ghost predicate GoodStore(cfg: Config, st: Store) {
    forall a: Actor :: a in st ==> Consistent(st[a]) && InBounds(cfg, a.vhost, st[a].chainProgress)
  }

  lemma PutKeepsGoodStore(cfg: Config, st: Store, a: Actor, act: Activity)
    requires GoodStore(cfg, st) && Consistent(act) && InBounds(cfg, a.vhost, act.chainProgress)
    ensures GoodStore(cfg, st[a := act])
  {
  }

  lemma LookupIsGood(cfg: Config, st: Store, a: Actor)
    requires GoodStore(cfg, st)
    ensures Consistent(Lookup(st, a)) && InBounds(cfg, a.vhost, Lookup(st, a).chainProgress)
  {
  }

  // The progress under a chain's key is in that chain's range.
  lemma ProgressBelongs(cfg: Config, a: Actor, act: Activity, c: nat, key: string)
    requires ValidConfig(cfg) && InBounds(cfg, a.vhost, act.chainProgress) && IsKeyOf(cfg, c, a.vhost, key)
    ensures InRange(cfg.chains[c], ProgressOf(act, key))
  {
    if key in act.chainProgress {
      var d: nat :| IsKeyOf(cfg, d, a.vhost, key) && 0 < act.chainProgress[key].currentStep < |cfg.chains[d].steps|;
      KeyDeterminesChain(cfg, c, d, a.vhost, key);
    }
  }

  lemma SetProgressInBounds(cfg: Config, a: Actor, act: Activity, c: nat, key: string, state: StepState)
    requires InBounds(cfg, a.vhost, act.chainProgress) && IsKeyOf(cfg, c, a.vhost, key) && InRange(cfg.chains[c], state)
    ensures InBounds(cfg, a.vhost, SetProgress(act, key, state).chainProgress)
  {
    var next := SetProgress(act, key, state);
    forall k | k in next.chainProgress
      ensures exists d: nat :: IsKeyOf(cfg, d, a.vhost, k) && 0 < next.chainProgress[k].currentStep < |cfg.chains[d].steps|
    {
      if k != key {
        assert next.chainProgress[k] == act.chainProgress[k];
      }
    }
  }

  // An actor the chain applies to carries the entry's address and vhost.
  lemma ActorOfEntry(chain: Chain, e: LogEntry)
    ensures var a := GetActor(chain, e); a.ip.address != "" ==> a.ip == e.ip && a.vhost == e.vhost
  {
  }

  // ------------------------------------------------------ one turn of the loop

  ghost predicate SameProgress(st: Store, st1: Store) {
    forall a :: Lookup(st1, a).chainProgress == Lookup(st, a).chainProgress
  }

  // Blocking writes flags only.
  lemma CompleteEffect(now: Time, chain: Chain, e: LogEntry, a: Actor, st: Store)
    requires a in st
    ensures var st1 := Complete(now, chain, e, a, st);
            && a in st1
            && SameProgress(st, st1)
            && (forall b :: Lookup(st1, b).lastRequestTime == Lookup(st, b).lastRequestTime)
            && (forall b :: b != a && b != IpOnly(e) ==> (b in st1 <==> b in st) && Lookup(st1, b) == Lookup(st, b))
            && (chain.action == Block && chain.blockDuration >= 0 ==> Skipped(now, st1[a]))
  {
  }

  // The relation between the store before and after one turn, or several.
  ghost predicate TurnKeeps(now: Time, st: Store, st1: Store, ran: seq<Ran>) {
    && (forall a :: Skipped(now, Lookup(st, a)) ==> Skipped(now, Lookup(st1, a)))
    && (forall a :: Skipped(now, Lookup(st, a)) ==> Lookup(st1, a).chainProgress == Lookup(st, a).chainProgress)
    && (forall a :: Lookup(st1, a).lastRequestTime == Lookup(st, a).lastRequestTime || Skipped(now, Lookup(st1, a)))
    && (forall i :: 0 <= i < |ran| ==>
          && !Skipped(now, Lookup(st, ran[i].actor))
          && ran[i].previousRequest == Lookup(st, ran[i].actor).lastRequestTime
          && ran[i].actor in st1)
    && st.Keys <= st1.Keys
  }

  // A completed block is the last run of its actor.
  ghost predicate BlockEndsRuns(cfg: Config, ran: seq<Ran>) {
    forall i, j :: 0 <= i < j < |ran| && IsBlock(cfg, ran[i]) ==> ran[j].actor != ran[i].actor
  }

  predicate IsBlock(cfg: Config, r: Ran) {
    r.completed && r.chain < |cfg.chains| && cfg.chains[r.chain].action == Block
  }

  lemma PreCheckEffect(now: Time, e: LogEntry, act: Activity)
    ensures var pre := PreCheckActivity(now, e, act);
            && (pre.skip <==> Skipped(now, act))
            && (Skipped(now, act) ==> Skipped(now, pre.activity))
            && pre.activity.chainProgress == act.chainProgress
            && (!pre.skip ==> pre.activity.lastRequestTime == act.lastRequestTime)
  {
  }

  lemma ProcessEffect(now: Time, chain: Chain, e: LogEntry, a: Actor, previous: Time, st: Store)
    requires a in st && chain.blockDuration >= 0
    ensures var st1 := ProcessChain(now, chain, e, a, previous, st);
            && st.Keys <= st1.Keys
            && (forall b :: Skipped(now, Lookup(st, b)) ==> Skipped(now, Lookup(st1, b)))
            && (forall b :: b != a ==> Lookup(st1, b).chainProgress == Lookup(st, b).chainProgress)
            && (forall b :: Lookup(st1, b).lastRequestTime == Lookup(st, b).lastRequestTime)
            && (AdvanceFor(chain, e, previous, st[a]).completed && chain.action == Block ==> Skipped(now, st1[a]))
  {
    CompleteEffect(now, chain, e, a, st);
  }

  lemma TurnEffect(cfg: Config, now: Time, e: LogEntry, i: nat, st: Store)
    requires BlocksLast(cfg) && i < |cfg.chains|
    ensures var t := TryChain(cfg, now, e, i, st);
            && |t.ran| <= 1
            && TurnKeeps(now, st, t.store, t.ran)
            && (forall r :: r in t.ran && IsBlock(cfg, r) ==> Skipped(now, Lookup(t.store, r.actor)))
  {
    var chain := cfg.chains[i];
    var a := GetActor(chain, e);
    if !FilteredOut(cfg, chain) && a.ip.address != "" {
      var act := Lookup(st, a);
      PreCheckEffect(now, e, act);
      var pre := PreCheckActivity(now, e, act);
      var st1 := st[a := pre.activity];
      if pre.skip {
        assert TurnKeeps(now, st, st1, []);
      } else {
        ProcessEffect(now, chain, e, a, pre.activity.lastRequestTime, st1);
      }
    }
  }

  // ------------------------------------------------------- all applicable chains

  // Every chain sees the request time from before the entry; an actor that was
  // skipped stays skipped; a completed block is the last thing its actor does.
  lemma {:induction false} RunChainsEffect(cfg: Config, now: Time, e: LogEntry, indices: seq<nat>, st: Store)
    requires BlocksLast(cfg)
    ensures var result := RunChains(cfg, now, e, indices, st);
            && TurnKeeps(now, st, result.store, result.ran)
            && BlockEndsRuns(cfg, result.ran)
            && (forall r :: r in result.ran && IsBlock(cfg, r) ==> Skipped(now, Lookup(result.store, r.actor)))
  {
    if indices != [] && indices[0] < |cfg.chains| {
      var first := TryChain(cfg, now, e, indices[0], st);
      TurnEffect(cfg, now, e, indices[0], st);
      if !Stops(cfg, first.ran) {
        var rest := RunChains(cfg, now, e, indices[1..], first.store);
        RunChainsEffect(cfg, now, e, indices[1..], first.store);
        TurnsCompose(cfg, now, st, first.store, rest.store, first.ran, rest.ran);
      }
    }
  }

  lemma TurnsCompose(cfg: Config, now: Time, st: Store, st1: Store, st2: Store, ran1: seq<Ran>, ran2: seq<Ran>)
    requires |ran1| <= 1
    requires TurnKeeps(now, st, st1, ran1) && TurnKeeps(now, st1, st2, ran2)
    requires BlockEndsRuns(cfg, ran2)
    requires forall r :: r in ran1 && IsBlock(cfg, r) ==> Skipped(now, Lookup(st1, r.actor))
    requires forall r :: r in ran2 && IsBlock(cfg, r) ==> Skipped(now, Lookup(st2, r.actor))
    ensures TurnKeeps(now, st, st2, ran1 + ran2) && BlockEndsRuns(cfg, ran1 + ran2)
    ensures forall r :: r in ran1 + ran2 && IsBlock(cfg, r) ==> Skipped(now, Lookup(st2, r.actor))
  {
    var ran := ran1 + ran2;
    forall i | 0 <= i < |ran|
      ensures !Skipped(now, Lookup(st, ran[i].actor))
      ensures ran[i].previousRequest == Lookup(st, ran[i].actor).lastRequestTime
      ensures ran[i].actor in st2
    {
      if i >= |ran1| { assert ran[i] == ran2[i - |ran1|]; }
    }
    forall i, j | 0 <= i < j < |ran| && IsBlock(cfg, ran[i]) ensures ran[j].actor != ran[i].actor {
      assert ran[j] == ran2[j - |ran1|];
      if i < |ran1| {
        assert ran[i] in ran1;
        assert !Skipped(now, Lookup(st1, ran2[j - |ran1|].actor));
      } else {
        assert ran[i] == ran2[i - |ran1|];
      }
    }
  }

  // One entry, all chains: the runs of an activity all see its last request time
  // from before the entry, at most one of them blocks and it is the last, every
  // activity that ran ends with the entry's timestamp, and a skipped activity
  // keeps its progress and runs nothing.
  lemma EntryEffect(cfg: Config, now: Time, e: LogEntry, st: Store)
    requires BlocksLast(cfg)
    ensures var result := CheckEntry(cfg, now, e, st);
            && (forall r :: r in result.ran ==> r.previousRequest == Lookup(st, r.actor).lastRequestTime)
            && BlockEndsRuns(cfg, result.ran)
            && (forall r :: r in result.ran ==>
                  r.actor in result.store && result.store[r.actor].lastRequestTime == e.timestamp)
            && (forall a :: Skipped(now, Lookup(st, a)) ==>
                  && Lookup(result.store, a).chainProgress == Lookup(st, a).chainProgress
                  && Skipped(now, Lookup(result.store, a))
                  && forall r :: r in result.ran ==> r.actor != a)
  {
    var indices := ChainIndices(cfg, e);
    RunChainsEffect(cfg, now, e, indices, st);
    var mid := RunChains(cfg, now, e, indices, st);
    assert forall r :: r in mid.ran ==> exists i :: 0 <= i < |mid.ran| && mid.ran[i] == r;
  }

  // ------------------------------------------------------------- isolation

  // Nothing but the activities of the entry's own address changes.
  ghost predicate OnlyAddress(ip: IPInfo, st: Store, st1: Store) {
    forall a: Actor :: a.ip != ip ==> (a in st1 <==> a in st) && Lookup(st1, a) == Lookup(st, a)
  }

  lemma {:induction false} RunChainsOnlyAddress(cfg: Config, now: Time, e: LogEntry, indices: seq<nat>, st: Store)
    ensures OnlyAddress(e.ip, st, RunChains(cfg, now, e, indices, st).store)
    ensures forall r :: r in RunChains(cfg, now, e, indices, st).ran ==> r.actor.ip == e.ip && r.actor.vhost == e.vhost
  {
    if indices != [] && indices[0] < |cfg.chains| {
      var chain := cfg.chains[indices[0]];
      ActorOfEntry(chain, e);
      var first := TryChain(cfg, now, e, indices[0], st);
      assert OnlyAddress(e.ip, st, first.store);
      RunChainsOnlyAddress(cfg, now, e, indices[1..], first.store);
    }
  }

  // A step that changes flags of one address's activities, and no progress.
  ghost predicate Quiet(ip: IPInfo, st: Store, st1: Store) {
    OnlyAddress(ip, st, st1) && SameProgress(st, st1)
  }

  lemma PutIsQuiet(st: Store, a: Actor, act: Activity)
    requires act.chainProgress == Lookup(st, a).chainProgress
    ensures Quiet(a.ip, st, st[a := act])
  {
  }

  lemma PassIsQuiet(now: Time, e: LogEntry, st: Store)
    ensures Quiet(e.ip, st, PassPreCheck(now, e, st).store)
  {
    PreCheckEffect(now, e, Lookup(st, BaseActor(e)));
    PutIsQuiet(st, BaseActor(e), PreCheckActivity(now, e, Lookup(st, BaseActor(e))).activity);
  }

  lemma UnblockIsQuiet(cfg: Config, now: Time, e: LogEntry, rule: string, st: Store)
    ensures Quiet(e.ip, st, UnblockGood(cfg, now, e, rule, st))
  {
    var act := Lookup(st, IpOnly(e));
    PutIsQuiet(st, IpOnly(e), act);
    PutIsQuiet(st, IpOnly(e), act.(lastUnblockTime := now, lastUnblockReason := "good-actor:" + rule));
    assert Ensure(st, IpOnly(e))[IpOnly(e) := act.(lastUnblockTime := now, lastUnblockReason := "good-actor:" + rule)]
        == st[IpOnly(e) := act.(lastUnblockTime := now, lastUnblockReason := "good-actor:" + rule)];
  }

  // The checks before the chains leave all progress alone.
  lemma GateIsQuiet(cfg: Config, now: Time, e: LogEntry, db: DbView, st: Store)
    ensures Quiet(e.ip, st, CheckGate(cfg, now, e, db, st).store)
  {
    var base := BaseActor(e);
    var st1 := Ensure(st, base);
    PutIsQuiet(st, base, Lookup(st, base));
    if IsGoodActor(cfg, e) {
      var rule := cfg.goodActors[FirstRule(cfg.goodActors, e)].name;
      var st2 := st1[base := MarkGood(st1[base], rule)];
      PutIsQuiet(st1, base, MarkGood(st1[base], rule));
      UnblockIsQuiet(cfg, now, e, rule, st2);
      PassIsQuiet(now, e, UnblockGood(cfg, now, e, rule, st2));
    } else if cfg.persistenceEnabled && cfg.badActorsEnabled && db.isBadActor {
      PutIsQuiet(st1, base, st1[base]);
      PutIsQuiet(st1, base, MarkBlocked(st1[base], "bad-actor", now + cfg.badActorBlockDuration));
    } else {
      PassIsQuiet(now, e, st1);
    }
  }

  // Entries of one address never touch another address's activities.
  lemma EntriesAreIsolated(cfg: Config, now: Time, e: LogEntry, db: DbView, st: Store)
    ensures OnlyAddress(e.ip, st, CheckGate(cfg, now, e, db, st).store)
    ensures OnlyAddress(e.ip, st, CheckEntry(cfg, now, e, st).store)
  {
    GateIsQuiet(cfg, now, e, db, st);
    var mid := RunChains(cfg, now, e, ChainIndices(cfg, e), st);
    RunChainsOnlyAddress(cfg, now, e, ChainIndices(cfg, e), st);
    assert forall a: Actor :: a.ip != e.ip ==> a !in ActorsOf(mid.ran);
  }
}
