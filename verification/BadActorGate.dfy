// The database behind the checker: what its tables answer, and whom the gate turns
// away because of it.
module BadActorGate {
  import opened LogEntries
  import opened Activities
  import opened StoreInvariants
  import opened SystemRuns
  import P = Persistence
  import S = Scores

  // persistence.IsBadActor for the address of an entry
  function ViewOf(db: P.Tables, e: LogEntry): DbView {
    DbView(e.ip.address in db.badActors)
  }

  // The bad actor check is on and no good actor rule comes before it.
  predicate Judged(cfg: Config, e: LogEntry) {
    cfg.persistenceEnabled && cfg.badActorsEnabled && !IsGoodActor(cfg, e)
  }

  // Nothing of the entry gets past the gate but its mark, and its activity stands
  // blocked.
  ghost predicate TurnedAway(cfg: Config, now: Time, e: LogEntry, db: DbView, s: System) {
    var s1 := ArriveAt(cfg, now, e, db, s);
    && s1 == s.(store := s1.store, history := s.history + [Turned(now, e, KnownBad)])
    && BaseActor(e) in s1.store && s1.store[BaseActor(e)].isBlocked
  }

  // A bad actor of the tables is turned away, whatever the state of the checker.
  lemma BadActorsAreTurnedAway(cfg: Config, now: Time, e: LogEntry, db: P.Tables, s: System)
    requires Judged(cfg, e) && e.ip.address in db.badActors
    ensures TurnedAway(cfg, now, e, ViewOf(db, e), s)
  {
  }

  // Over any run of blocks, removals and clean-ups but the one for stale bad actors,
  // an address whose score reached the threshold is turned away.
  lemma ThresholdTurnsAway(hash: P.Hash, bad: P.BadActorConfig, steps: seq<S.Step>, cfg: Config, now: Time,
          e: LogEntry, s: System)
    requires forall i :: 0 <= i < |steps| ==> !steps[i].StaleActors?
    requires Judged(cfg, e)
    requires var db := S.Run(hash, bad, steps);
      e.ip.address in db.scores && db.scores[e.ip.address].score >= bad.threshold
    ensures TurnedAway(cfg, now, e, ViewOf(S.Run(hash, bad, steps), e), s)
  {
    S.RunPromotes(hash, bad, steps);
    BadActorsAreTurnedAway(cfg, now, e, S.Run(hash, bad, steps), s);
  }
}
