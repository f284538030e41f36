// What every reachable activity store satisfies, and how the stored progress
// follows from the entries that were processed.
module StoreInvariants {
  import opened LogEntries
  import opened Chains
  import opened Activities
  import opened EntryEffects

  // ----------------------------------------------- the invariant is kept

  lemma ProcessChainKeepsGoodStore(cfg: Config, now: Time, e: LogEntry, i: nat, a: Actor, previous: Time, st: Store)
    requires ValidConfig(cfg) && i < |cfg.chains| && GoodStore(cfg, st) && a in st && a.vhost == e.vhost
    ensures GoodStore(cfg, ProcessChain(now, cfg.chains[i], e, a, previous, st))
  {
    var chain, act := cfg.chains[i], st[a];
    var key := ChainKey(chain, e);
    var out := AdvanceFor(chain, e, previous, act);
    assert IsKeyOf(cfg, i, a.vhost, key);
    ProgressBelongs(cfg, a, act, i, key);
    AdvanceInRange(chain, e, previous, ProgressOf(act, key));
    var st1 := if out.completed then Complete(now, chain, e, a, st) else st;
    CompleteKeepsGoodStore(cfg, now, chain, e, a, st);
    SetProgressInBounds(cfg, a, st1[a], i, key, Stored(out));
    PutKeepsGoodStore(cfg, st1, a, SetProgress(st1[a], key, Stored(out)));
  }

  lemma CompleteKeepsGoodStore(cfg: Config, now: Time, chain: Chain, e: LogEntry, a: Actor, st: Store)
    requires GoodStore(cfg, st) && a in st
    ensures GoodStore(cfg, Complete(now, chain, e, a, st))
  {
    if chain.action == Block {
      var reason, until := ChainKey(chain, e), now + chain.blockDuration;
      LookupIsGood(cfg, st, IpOnly(e));
      var marked := MarkBlocked(Lookup(st, IpOnly(e)), reason, until);
      PutKeepsGoodStore(cfg, st, IpOnly(e), marked);
      PutKeepsGoodStore(cfg, st[IpOnly(e) := marked], a, MarkBlocked(st[IpOnly(e) := marked][a], reason, until));
    }
  }

  lemma TryChainKeepsGoodStore(cfg: Config, now: Time, e: LogEntry, i: nat, st: Store)
    requires ValidConfig(cfg) && i < |cfg.chains| && GoodStore(cfg, st)
    ensures GoodStore(cfg, TryChain(cfg, now, e, i, st).store)
  {
    var chain := cfg.chains[i];
    var a := GetActor(chain, e);
    if !FilteredOut(cfg, chain) && a.ip.address != "" {
      ActorOfEntry(chain, e);
      LookupIsGood(cfg, st, a);
      var pre := PreCheckActivity(now, e, Lookup(st, a));
      PutKeepsGoodStore(cfg, st, a, pre.activity);
      if !pre.skip {
        ProcessChainKeepsGoodStore(cfg, now, e, i, a, pre.activity.lastRequestTime, st[a := pre.activity]);
      }
    }
  }

  lemma {:induction false} RunChainsKeepsGoodStore(cfg: Config, now: Time, e: LogEntry, indices: seq<nat>, st: Store)
    requires ValidConfig(cfg) && GoodStore(cfg, st)
    ensures GoodStore(cfg, RunChains(cfg, now, e, indices, st).store)
  {
    if indices != [] && indices[0] < |cfg.chains| {
      TryChainKeepsGoodStore(cfg, now, e, indices[0], st);
      RunChainsKeepsGoodStore(cfg, now, e, indices[1..], TryChain(cfg, now, e, indices[0], st).store);
    }
  }

  lemma CheckEntryKeepsGoodStore(cfg: Config, now: Time, e: LogEntry, st: Store)
    requires ValidConfig(cfg) && GoodStore(cfg, st)
    ensures GoodStore(cfg, CheckEntry(cfg, now, e, st).store)
  {
    RunChainsKeepsGoodStore(cfg, now, e, ChainIndices(cfg, e), st);
  }

  lemma CheckGateKeepsGoodStore(cfg: Config, now: Time, e: LogEntry, db: DbView, st: Store)
    requires GoodStore(cfg, st)
    ensures GoodStore(cfg, CheckGate(cfg, now, e, db, st).store)
  {
    var base := BaseActor(e);
    LookupIsGood(cfg, st, base);
    PutKeepsGoodStore(cfg, st, base, Lookup(st, base));
    var st1 := Ensure(st, base);
    if IsGoodActor(cfg, e) {
      var rule := cfg.goodActors[FirstRule(cfg.goodActors, e)].name;
      var good := MarkGood(st1[base], rule);
      PutKeepsGoodStore(cfg, st1, base, good);
      UnblockKeepsGoodStore(cfg, now, e, rule, st1[base := good]);
      PassKeepsGoodStore(cfg, now, e, UnblockGood(cfg, now, e, rule, st1[base := good]));
    } else if cfg.persistenceEnabled && cfg.badActorsEnabled && db.isBadActor {
      PutKeepsGoodStore(cfg, st1, base, MarkBlocked(st1[base], "bad-actor", now + cfg.badActorBlockDuration));
      PutKeepsGoodStore(cfg, st1, base, st1[base]);
    } else {
      PassKeepsGoodStore(cfg, now, e, st1);
    }
  }

  lemma UnblockKeepsGoodStore(cfg: Config, now: Time, e: LogEntry, rule: string, st: Store)
    requires GoodStore(cfg, st)
    ensures GoodStore(cfg, UnblockGood(cfg, now, e, rule, st))
  {
    var act := Lookup(st, IpOnly(e));
    LookupIsGood(cfg, st, IpOnly(e));
    PutKeepsGoodStore(cfg, st, IpOnly(e), act);
    var noted := act.(lastUnblockTime := now, lastUnblockReason := "good-actor:" + rule);
    PutKeepsGoodStore(cfg, Ensure(st, IpOnly(e)), IpOnly(e), noted);
  }

  lemma PassKeepsGoodStore(cfg: Config, now: Time, e: LogEntry, st: Store)
    requires GoodStore(cfg, st)
    ensures GoodStore(cfg, PassPreCheck(now, e, st).store)
  {
    LookupIsGood(cfg, st, BaseActor(e));
    PutKeepsGoodStore(cfg, st, BaseActor(e), PreCheckActivity(now, e, Lookup(st, BaseActor(e))).activity);
  }

  // The idle sweep keeps the invariant and drops exactly the idle activities: a
  // blocked actor, or one with a step matched within the idle timeout, survives.
  lemma SweepIsSafe(cfg: Config, now: Time, st: Store, a: Actor)
    requires GoodStore(cfg, st) && a in st
    ensures GoodStore(cfg, Sweep(cfg, now, st))
    ensures st[a].isBlocked ==> a in Sweep(cfg, now, st)
    ensures HasActiveChain(cfg, now, st[a]) ==> a in Sweep(cfg, now, st)
    ensures a in Sweep(cfg, now, st) ==> Sweep(cfg, now, st)[a] == st[a]
    ensures a !in Sweep(cfg, now, st) ==>
              Sub(now, st[a].lastRequestTime) > cfg.idleTimeout
              || Sub(now, st[a].lastRequestTime) > cfg.maxTimeSinceLastHit > 0
  {
  }

  // ----------------------------------------------------- replaying history

  // What happened to the store: the runs of an entry, then the entry itself with
  // the activities that ran and those whose request time it raised although they
  // did not; entries that were turned away; activities that were dropped.
  datatype Event =
    | Processed(run: Ran)
    | Checked(entry: LogEntry, stamped: set<Actor>, raised: set<Actor>)
    | Turned(now: Time, entry: LogEntry, verdict: Verdict)
    | Dropped(actors: set<Actor>)

  // The activities whose request time changed.
  function Moved(st: Store, st1: Store): set<Actor> {
    set a | a in st1 && st1[a].lastRequestTime != Lookup(st, a).lastRequestTime
  }

  // The mark of an entry whose runs took st to st1.
  function MarkOf(e: LogEntry, ran: seq<Ran>, st: Store, st1: Store): Event {
    Checked(e, ActorsOf(ran), Moved(st, st1) - ActorsOf(ran))
  }

  // The record of an entry the gate does not hand on.
  function TurnEvents(now: Time, e: LogEntry, verdict: Verdict): seq<Event> {
    if verdict == Passed then [] else [Turned(now, e, verdict)]
  }

  // The part of the history that concerns one chain key of one activity.
  function Project(history: seq<Event>, a: Actor, key: string): seq<Observation> {
    if history == [] then []
    else
      var n := |history| - 1;
      Project(history[..n], a, key) + ProjectOne(history[n], a, key)
  }

  function ProjectOne(ev: Event, a: Actor, key: string): seq<Observation> {
    match ev
    case Processed(r) => if r.actor == a && r.key == key then [Seen(r.entry, r.previousRequest)] else []
    case Checked(_, _, _) => []
    case Turned(_, _, _) => []
    case Dropped(actors) => if a in actors then [Forgotten] else []
  }

  // How many of the recorded runs completed.
  function CompletedRuns(history: seq<Event>, a: Actor, key: string): nat {
    if history == [] then 0
    else
      var n := |history| - 1;
      CompletedRuns(history[..n], a, key)
      + if history[n].Processed? && history[n].run.actor == a && history[n].run.key == key && history[n].run.completed
        then 1 else 0
  }

  function Events(ran: seq<Ran>): seq<Event> {
    if ran == [] then [] else [Processed(ran[0])] + Events(ran[1..])
  }

  // The stored progress and the completions of a key are those of its chain
  // replayed over that key's own history, and so is every single run.
  ghost predicate Replays(cfg: Config, history: seq<Event>, st: Store) {
    Recorded(cfg, history) &&
    forall a: Actor, c: nat, key: string {:trigger IsKeyOf(cfg, c, a.vhost, key), Lookup(st, a)} ::
      IsKeyOf(cfg, c, a.vhost, key) ==> ReplaysKey(cfg, history, Lookup(st, a), a, c, key)
  }

  ghost predicate ReplaysKey(cfg: Config, history: seq<Event>, act: Activity, a: Actor, c: nat, key: string)
    requires c < |cfg.chains|
  {
    && ProgressOf(act, key) == Progress(cfg.chains[c], Project(history, a, key))
    && CompletedRuns(history, a, key) == Completions(cfg.chains[c], Project(history, a, key))
  }

  // A run, given what happened before it: it belongs to a chain and the actor that
  // chain charges its entry to, and completed exactly if the replay does.
  ghost predicate RunReplays(cfg: Config, before: seq<Event>, r: Ran) {
    && r.chain < |cfg.chains|
    && r.actor == GetActor(cfg.chains[r.chain], r.entry) && r.actor.ip.address != ""
    && r.key == ChainKey(cfg.chains[r.chain], r.entry)
    && var chain := cfg.chains[r.chain];
       var out := React(chain, Progress(chain, Project(before, r.actor, r.key)), Seen(r.entry, r.previousRequest));
       r.completed == out.completed
  }

  ghost predicate Recorded(cfg: Config, history: seq<Event>) {
    forall i :: 0 <= i < |history| && history[i].Processed? ==> RunReplays(cfg, history[..i], history[i].run)
  }

  lemma RecordOne(cfg: Config, history: seq<Event>, ev: Event)
    requires Recorded(cfg, history) && (ev.Processed? ==> RunReplays(cfg, history, ev.run))
    ensures Recorded(cfg, history + [ev])
  {
    var more := history + [ev];
    forall i | 0 <= i < |more| && more[i].Processed? ensures RunReplays(cfg, more[..i], more[i].run) {
      assert more[..i] == history[..i];
      if i == |history| { assert history[..i] == history; }
    }
  }

  // One more event of the key's history.
  lemma AppendEvent(history: seq<Event>, ev: Event, a: Actor, key: string)
    ensures Project(history + [ev], a, key) == Project(history, a, key) + ProjectOne(ev, a, key)
    ensures CompletedRuns(history + [ev], a, key) == CompletedRuns(history, a, key)
            + if ev.Processed? && ev.run.actor == a && ev.run.key == key && ev.run.completed then 1 else 0
  {
    assert (history + [ev])[..|history|] == history;
  }

  lemma AppendObservation(chain: Chain, h: seq<Observation>, o: Observation)
    ensures Progress(chain, h + [o]) == Stored(React(chain, Progress(chain, h), o))
    ensures Completions(chain, h + [o]) == Completions(chain, h)
            + if React(chain, Progress(chain, h), o).completed then 1 else 0
  {
    assert (h + [o])[..|h|] == h;
  }

  // Where progress and history of a key are untouched, the replay still holds.
  lemma SameProgressReplays(cfg: Config, history: seq<Event>, st: Store, st1: Store)
    requires Replays(cfg, history, st) && SameProgress(st, st1)
    ensures Replays(cfg, history, st1)
  {
    forall a: Actor, c: nat, key: string | IsKeyOf(cfg, c, a.vhost, key)
      ensures ReplaysKey(cfg, history, Lookup(st1, a), a, c, key)
    {
      assert ReplaysKey(cfg, history, Lookup(st, a), a, c, key);
    }
  }

  // Processing an entry against one chain changes the progress of one key.
  lemma ProcessChainProgress(now: Time, chain: Chain, e: LogEntry, a: Actor, previous: Time, st: Store, b: Actor,
          k: string)
    requires a in st
    ensures ProgressOf(Lookup(ProcessChain(now, chain, e, a, previous, st), b), k) ==
            if b == a && k == ChainKey(chain, e) then Stored(AdvanceFor(chain, e, previous, st[a]))
            else ProgressOf(Lookup(st, b), k)
  {
    CompleteEffect(now, chain, e, a, st);
    var st1 := if AdvanceFor(chain, e, previous, st[a]).completed then Complete(now, chain, e, a, st) else st;
    assert Lookup(st1, b).chainProgress == Lookup(st, b).chainProgress;
  }

  // ... which is one more step of that key's replay.
  lemma ProcessChainReplays(cfg: Config, now: Time, e: LogEntry, i: nat, a: Actor, previous: Time, st: Store,
          history: seq<Event>)
    requires ValidConfig(cfg) && i < |cfg.chains| && a in st
    requires a == GetActor(cfg.chains[i], e) && a.ip.address != ""
    requires Replays(cfg, history, st)
    ensures var chain := cfg.chains[i];
            var r := Ran(i, a, ChainKey(chain, e), e, now, previous, AdvanceFor(chain, e, previous, st[a]).completed);
            Replays(cfg, history + [Processed(r)], ProcessChain(now, chain, e, a, previous, st))
  {
    var chain := cfg.chains[i];
    var key := ChainKey(chain, e);
    var r := Ran(i, a, key, e, now, previous, AdvanceFor(chain, e, previous, st[a]).completed);
    var st1 := ProcessChain(now, chain, e, a, previous, st);
    ActorOfEntry(chain, e);
    assert IsKeyOf(cfg, i, a.vhost, key);
    assert ReplaysKey(cfg, history, Lookup(st, a), a, i, key);
    RecordOne(cfg, history, Processed(r));
    forall b: Actor, c: nat, k: string | IsKeyOf(cfg, c, b.vhost, k)
      ensures ReplaysKey(cfg, history + [Processed(r)], Lookup(st1, b), b, c, k)
    {
      assert ReplaysKey(cfg, history, Lookup(st, b), b, c, k);
      ProcessChainProgress(now, chain, e, a, previous, st, b, k);
      AppendEvent(history, Processed(r), b, k);
      if b == a && k == key {
        KeyDeterminesChain(cfg, c, i, a.vhost, key);
        AppendObservation(chain, Project(history, a, key), Seen(e, previous));
      } else {
        assert Project(history + [Processed(r)], b, k) == Project(history, b, k);
      }
    }
  }

  lemma EventsOfTurn(ran1: seq<Ran>, ran2: seq<Ran>, history: seq<Event>)
    requires |ran1| <= 1
    ensures history + Events(ran1 + ran2) == (history + Events(ran1)) + Events(ran2)
  {
    if ran1 == [] {
      assert ran1 + ran2 == ran2;
    } else {
      assert (ran1 + ran2)[1..] == ran2;
      assert Events(ran1) == [Processed(ran1[0])];
    }
  }

  lemma {:induction false} RunChainsReplays(cfg: Config, now: Time, e: LogEntry, indices: seq<nat>, st: Store,
          history: seq<Event>)
    requires ValidConfig(cfg) && Replays(cfg, history, st)
    ensures var result := RunChains(cfg, now, e, indices, st);
            Replays(cfg, history + Events(result.ran), result.store)
  {
    if indices == [] || indices[0] >= |cfg.chains| {
      assert history + Events([]) == history;
    } else {
      var first := TryChain(cfg, now, e, indices[0], st);
      TryChainReplays(cfg, now, e, indices[0], st, history);
      if !Stops(cfg, first.ran) {
        var rest := RunChains(cfg, now, e, indices[1..], first.store);
        RunChainsReplays(cfg, now, e, indices[1..], first.store, history + Events(first.ran));
        EventsOfTurn(first.ran, rest.ran, history);
      }
    }
  }

  lemma TryChainReplays(cfg: Config, now: Time, e: LogEntry, i: nat, st: Store, history: seq<Event>)
    requires ValidConfig(cfg) && i < |cfg.chains| && Replays(cfg, history, st)
    ensures var t := TryChain(cfg, now, e, i, st);
            |t.ran| <= 1 && Replays(cfg, history + Events(t.ran), t.store)
  {
    var chain := cfg.chains[i];
    var a := GetActor(chain, e);
    assert history + Events([]) == history;
    if !FilteredOut(cfg, chain) && a.ip.address != "" {
      ActorOfEntry(chain, e);
      var pre := PreCheckActivity(now, e, Lookup(st, a));
      var st1 := st[a := pre.activity];
      SameProgressReplays(cfg, history, st, st1);
      if !pre.skip {
        ProcessChainReplays(cfg, now, e, i, a, pre.activity.lastRequestTime, st1, history);
        assert Events(TryChain(cfg, now, e, i, st).ran) == [Processed(TryChain(cfg, now, e, i, st).ran[0])];
      }
    }
  }

  lemma CheckEntryReplays(cfg: Config, now: Time, e: LogEntry, st: Store, history: seq<Event>)
    requires ValidConfig(cfg) && Replays(cfg, history, st)
    ensures var result := CheckEntry(cfg, now, e, st);
            Replays(cfg, history + Events(result.ran), result.store)
  {
    var indices := ChainIndices(cfg, e);
    RunChainsReplays(cfg, now, e, indices, st, history);
    var mid := RunChains(cfg, now, e, indices, st);
    SameProgressReplays(cfg, history + Events(mid.ran), mid.store, CheckEntry(cfg, now, e, st).store);
  }

  lemma CheckGateReplays(cfg: Config, now: Time, e: LogEntry, db: DbView, st: Store, history: seq<Event>)
    requires Replays(cfg, history, st)
    ensures Replays(cfg, history, CheckGate(cfg, now, e, db, st).store)
  {
    GateIsQuiet(cfg, now, e, db, st);
    SameProgressReplays(cfg, history, st, CheckGate(cfg, now, e, db, st).store);
  }

  // Dropping activities forgets exactly their progress.
  lemma DropReplays(cfg: Config, st: Store, st1: Store, history: seq<Event>)
    requires Replays(cfg, history, st)
    requires st1.Keys <= st.Keys && forall a :: a in st1 ==> st1[a] == st[a]
    ensures Replays(cfg, history + [Dropped(st.Keys - st1.Keys)], st1)
  {
    var ev := Dropped(st.Keys - st1.Keys);
    RecordOne(cfg, history, ev);
    forall a: Actor, c: nat, key: string | IsKeyOf(cfg, c, a.vhost, key)
      ensures ReplaysKey(cfg, history + [ev], Lookup(st1, a), a, c, key)
    {
      assert ReplaysKey(cfg, history, Lookup(st, a), a, c, key);
      AppendEvent(history, ev, a, key);
      if a in st && a !in st1 {
        AppendObservation(cfg.chains[c], Project(history, a, key), Forgotten);
      } else {
        assert Project(history + [ev], a, key) == Project(history, a, key);
      }
    }
  }

  // The mark of a processed entry, or of one turned away, concerns no key.
  lemma MarkReplays(cfg: Config, ev: Event, st: Store, history: seq<Event>)
    requires Replays(cfg, history, st) && (ev.Checked? || ev.Turned?)
    ensures Replays(cfg, history + [ev], st)
  {
    RecordOne(cfg, history, ev);
    forall a: Actor, c: nat, key: string | IsKeyOf(cfg, c, a.vhost, key)
      ensures ReplaysKey(cfg, history + [ev], Lookup(st, a), a, c, key)
    {
      assert ReplaysKey(cfg, history, Lookup(st, a), a, c, key);
      AppendEvent(history, ev, a, key);
      assert Project(history + [ev], a, key) == Project(history, a, key);
    }
  }
}
