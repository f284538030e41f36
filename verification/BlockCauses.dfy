// Why an activity is blocked, and until when: a chain completed for its address, or
// it met the gate as a known bad actor.
module BlockCauses {
  import opened LogEntries
  import opened Chains
  import opened Activities
  import opened EntryEffects
  import opened StoreInvariants

  const BAD_ACTOR := "bad-actor"

  // Event i is a completed run of a block chain, a its actor or the bare address of
  // its entry.  The block names the run's key, and ends a block duration after the
  // clock of the run.
  ghost predicate EarnedAt(cfg: Config, history: seq<Event>, i: nat, a: Actor, act: Activity) {
    && i < |history| && history[i].Processed? && IsBlock(cfg, history[i].run)
    && var r := history[i].run;
       && (a == r.actor || a == IpOnly(r.entry))
       && act.skipInfo.source == r.key
       && act.blockedUntil == r.now + cfg.chains[r.chain].blockDuration
  }

  // Event i is an entry of a that was turned away as a known bad actor's; the block
  // ends the configured time after.
  ghost predicate BannedAt(cfg: Config, history: seq<Event>, i: nat, a: Actor, act: Activity) {
    && i < |history| && history[i].Turned? && history[i].verdict == KnownBad
    && a == BaseActor(history[i].entry)
    && act.skipInfo.source == BAD_ACTOR
    && act.blockedUntil == history[i].now + cfg.badActorBlockDuration
  }

  ghost predicate CausedAt(cfg: Config, history: seq<Event>, i: nat, a: Actor, act: Activity) {
    EarnedAt(cfg, history, i, a, act) || BannedAt(cfg, history, i, a, act)
  }

  ghost predicate Caused(cfg: Config, history: seq<Event>, a: Actor, act: Activity) {
    act.isBlocked ==> exists i :: CausedAt(cfg, history, i, a, act)
  }

  ghost predicate AllCaused(cfg: Config, history: seq<Event>, st: Store) {
    forall a :: a in st ==> Caused(cfg, history, a, st[a])
  }

  lemma StillCaused(cfg: Config, history: seq<Event>, more: seq<Event>, st: Store)
    requires AllCaused(cfg, history, st)
    ensures AllCaused(cfg, history + more, st)
  {
    forall a | a in st && st[a].isBlocked ensures exists i :: CausedAt(cfg, history + more, i, a, st[a]) {
      assert Caused(cfg, history, a, st[a]);
      var i :| CausedAt(cfg, history, i, a, st[a]);
      assert CausedAt(cfg, history + more, i, a, st[a]);
    }
  }

  // A cause is about the block fields only.
  lemma SameBlock(cfg: Config, history: seq<Event>, a: Actor, act: Activity, act1: Activity)
    requires Caused(cfg, history, a, act)
    requires act1.isBlocked ==>
      act.isBlocked && act1.skipInfo.source == act.skipInfo.source && act1.blockedUntil == act.blockedUntil
    ensures Caused(cfg, history, a, act1)
  {
    if act1.isBlocked {
      var i :| CausedAt(cfg, history, i, a, act);
      assert CausedAt(cfg, history, i, a, act1);
    }
  }

  lemma PreCheckKeepsCause(cfg: Config, now: Time, e: LogEntry, history: seq<Event>, a: Actor, act: Activity)
    requires Caused(cfg, history, a, act)
    ensures Caused(cfg, history, a, PreCheckActivity(now, e, act).activity)
  {
    SameBlock(cfg, history, a, act, PreCheckActivity(now, e, act).activity);
  }

  lemma PutIsCaused(cfg: Config, history: seq<Event>, st: Store, a: Actor, act: Activity)
    requires AllCaused(cfg, history, st) && Caused(cfg, history, a, act)
    ensures AllCaused(cfg, history, st[a := act])
  {
  }

  // A completed block chain is the cause of both its blocks.
  lemma CompleteIsCaused(cfg: Config, e: LogEntry, history: seq<Event>, r: Ran, st: Store)
    requires AllCaused(cfg, history, st) && r.actor in st && r.entry == e
    requires r.chain < |cfg.chains| && r.completed && r.key == ChainKey(cfg.chains[r.chain], e)
    ensures AllCaused(cfg, history + [Processed(r)], Complete(r.now, cfg.chains[r.chain], e, r.actor, st))
  {
    StillCaused(cfg, history, [Processed(r)], st);
    if cfg.chains[r.chain].action == Block {
      var st1 := BlockedBy(cfg, r, IpOnly(e), st);
      BlockedByIsCaused(cfg, history, r, IpOnly(e), st);
      BlockedByIsCaused(cfg, history, r, r.actor, st1);
      CompleteMarksBoth(cfg, e, r, st);
    }
  }

  // The store once a run has marked one activity.
  function BlockedBy(cfg: Config, r: Ran, a: Actor, st: Store): Store
    requires IsBlock(cfg, r)
  {
    st[a := MarkBlocked(Lookup(st, a), r.key, r.now + cfg.chains[r.chain].blockDuration)]
  }

  lemma CompleteMarksBoth(cfg: Config, e: LogEntry, r: Ran, st: Store)
    requires IsBlock(cfg, r) && r.actor in st && r.key == ChainKey(cfg.chains[r.chain], e)
    ensures Complete(r.now, cfg.chains[r.chain], e, r.actor, st) ==
            BlockedBy(cfg, r, r.actor, BlockedBy(cfg, r, IpOnly(e), st))
  {
  }

  lemma BlockedByIsCaused(cfg: Config, history: seq<Event>, r: Ran, a: Actor, st: Store)
    requires IsBlock(cfg, r) && (a == r.actor || a == IpOnly(r.entry))
    requires AllCaused(cfg, history + [Processed(r)], st)
    ensures AllCaused(cfg, history + [Processed(r)], BlockedBy(cfg, r, a, st))
  {
    MarkIsCaused(cfg, history, r, a, Lookup(st, a));
    PutIsCaused(cfg, history + [Processed(r)], st, a,
                MarkBlocked(Lookup(st, a), r.key, r.now + cfg.chains[r.chain].blockDuration));
  }

  lemma MarkIsCaused(cfg: Config, history: seq<Event>, r: Ran, a: Actor, act: Activity)
    requires IsBlock(cfg, r) && (a == r.actor || a == IpOnly(r.entry))
    ensures Caused(cfg, history + [Processed(r)], a,
                   MarkBlocked(act, r.key, r.now + cfg.chains[r.chain].blockDuration))
  {
    var more, marked := history + [Processed(r)], MarkBlocked(act, r.key, r.now + cfg.chains[r.chain].blockDuration);
    assert EarnedAt(cfg, more, |history|, a, marked);
    assert CausedAt(cfg, more, |history|, a, marked);
  }

  // The run of a chain, and the store its completion leaves.
  lemma ProcessIsCaused(cfg: Config, e: LogEntry, history: seq<Event>, r: Ran, st: Store)
    requires AllCaused(cfg, history, st) && r.actor in st && r.entry == e
    requires r.chain < |cfg.chains| && r.key == ChainKey(cfg.chains[r.chain], e)
    requires r.completed == AdvanceFor(cfg.chains[r.chain], e, r.previousRequest, st[r.actor]).completed
    ensures AllCaused(cfg, history + [Processed(r)],
                      ProcessChain(r.now, cfg.chains[r.chain], e, r.actor, r.previousRequest, st))
  {
    var more, chain := history + [Processed(r)], cfg.chains[r.chain];
    StillCaused(cfg, history, [Processed(r)], st);
    if r.completed { CompleteIsCaused(cfg, e, history, r, st); }
    var st1 := if r.completed then Complete(r.now, chain, e, r.actor, st) else st;
    var act := SetProgress(st1[r.actor], r.key, Stored(AdvanceFor(chain, e, r.previousRequest, st[r.actor])));
    assert Caused(cfg, more, r.actor, st1[r.actor]);
    SameBlock(cfg, more, r.actor, st1[r.actor], act);
    PutIsCaused(cfg, more, st1, r.actor, act);
  }

  lemma TryChainIsCaused(cfg: Config, now: Time, e: LogEntry, i: nat, st: Store, history: seq<Event>)
    requires i < |cfg.chains| && AllCaused(cfg, history, st)
    ensures var t := TryChain(cfg, now, e, i, st);
            |t.ran| <= 1 && AllCaused(cfg, history + Events(t.ran), t.store)
  {
    var chain := cfg.chains[i];
    var a := GetActor(chain, e);
    assert history + Events([]) == history;
    if !FilteredOut(cfg, chain) && a.ip.address != "" {
      PreCheckKeepsCause(cfg, now, e, history, a, Lookup(st, a));
      var pre := PreCheckActivity(now, e, Lookup(st, a));
      var st1 := st[a := pre.activity];
      PutIsCaused(cfg, history, st, a, pre.activity);
      if !pre.skip {
        var r := TryChain(cfg, now, e, i, st).ran[0];
        assert Events([r]) == [Processed(r)];
        ProcessIsCaused(cfg, e, history, r, st1);
      }
    }
  }

  lemma {:induction false} RunChainsAreCaused(cfg: Config, now: Time, e: LogEntry, indices: seq<nat>, st: Store,
          history: seq<Event>)
    requires AllCaused(cfg, history, st)
    ensures var result := RunChains(cfg, now, e, indices, st);
            AllCaused(cfg, history + Events(result.ran), result.store)
  {
    if indices == [] || indices[0] >= |cfg.chains| {
      assert history + Events([]) == history;
    } else {
      var first := TryChain(cfg, now, e, indices[0], st);
      TryChainIsCaused(cfg, now, e, indices[0], st, history);
      if !Stops(cfg, first.ran) {
        var rest := RunChains(cfg, now, e, indices[1..], first.store);
        RunChainsAreCaused(cfg, now, e, indices[1..], first.store, history + Events(first.ran));
        EventsOfTurn(first.ran, rest.ran, history);
      }
    }
  }

  lemma CheckEntryIsCaused(cfg: Config, now: Time, e: LogEntry, st: Store, history: seq<Event>)
    requires AllCaused(cfg, history, st)
    ensures var result := CheckEntry(cfg, now, e, st);
            AllCaused(cfg, history + Events(result.ran), result.store)
  {
    RunChainsAreCaused(cfg, now, e, ChainIndices(cfg, e), st, history);
    var mid, result := RunChains(cfg, now, e, ChainIndices(cfg, e), st), CheckEntry(cfg, now, e, st);
    var more := history + Events(mid.ran);
    forall a | a in result.store ensures Caused(cfg, more, a, result.store[a]) {
      SameBlock(cfg, more, a, mid.store[a], result.store[a]);
    }
  }

  // The gate blocks known bad actors only, and says so; everything else it does
  // leaves or lifts blocks.
  lemma GateIsCaused(cfg: Config, now: Time, e: LogEntry, db: DbView, st: Store, history: seq<Event>)
    requires AllCaused(cfg, history, st)
    ensures var gate := CheckGate(cfg, now, e, db, st);
            AllCaused(cfg, history + TurnEvents(now, e, gate.verdict), gate.store)
  {
    var base := BaseActor(e);
    var st1 := Ensure(st, base);
    var gate := CheckGate(cfg, now, e, db, st);
    var turned := TurnEvents(now, e, gate.verdict);
    StillCaused(cfg, history, turned, st1);
    if IsGoodActor(cfg, e) {
      var rule := cfg.goodActors[FirstRule(cfg.goodActors, e)].name;
      var good := st1[base := MarkGood(st1[base], rule)];
      SameBlock(cfg, history + turned, base, st1[base], good[base]);
      UnblockIsCaused(cfg, now, e, rule, good, history + turned);
      PassIsCaused(cfg, now, e, UnblockGood(cfg, now, e, rule, good), history + turned);
    } else if cfg.persistenceEnabled && cfg.badActorsEnabled && db.isBadActor {
      var banned := MarkBlocked(st1[base], BAD_ACTOR, now + cfg.badActorBlockDuration);
      assert BannedAt(cfg, history + turned, |history|, base, banned);
      assert CausedAt(cfg, history + turned, |history|, base, banned);
      PutIsCaused(cfg, history + turned, st1, base, banned);
    } else {
      PassIsCaused(cfg, now, e, st1, history + turned);
    }
  }

  lemma UnblockIsCaused(cfg: Config, now: Time, e: LogEntry, rule: string, st: Store, history: seq<Event>)
    requires AllCaused(cfg, history, st)
    ensures AllCaused(cfg, history, UnblockGood(cfg, now, e, rule, st))
  {
    var act := Lookup(st, IpOnly(e));
    var noted := act.(lastUnblockTime := now, lastUnblockReason := "good-actor:" + rule);
    SameBlock(cfg, history, IpOnly(e), act, noted);
    PutIsCaused(cfg, history, Ensure(st, IpOnly(e)), IpOnly(e), noted);
  }

  lemma PassIsCaused(cfg: Config, now: Time, e: LogEntry, st: Store, history: seq<Event>)
    requires AllCaused(cfg, history, st)
    ensures AllCaused(cfg, history, PassPreCheck(now, e, st).store)
  {
    PreCheckKeepsCause(cfg, now, e, history, BaseActor(e), Lookup(st, BaseActor(e)));
  }
}
