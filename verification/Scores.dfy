// Bad actor scores over whole runs (internal/checker/checker.go, executeBlock;
// internal/persistence/sqlite.go).
module Scores {
  import opened LogEntries
  import opened ClusterMerge
  import opened Persistence
  import opened Cleanup

  // What can happen to the tables.  A removal by reason is a removal of the addresses
  // whose history matches; GoodActor unblocks with an event, Unblock without.  The
  // stages of a clean-up are steps of their own: no lock covers them together.
  datatype Step =
    | Block(ip: string, reason: string, now: Time, duration: Duration, chainWeight: real, history: string)
    | PeerBadActor(ip: string, score: real, blockCount: nat, promotedAt: Time, history: string, now: Time)
    | Remove(ips: set<string>)
    | RemoveAll
    | Clear(ip: string, now: Time)
    | GoodActor(ip: string, reason: string, now: Time)
    | Unblock(ip: string, reason: string, now: Time)
    | CleanBlocks(now: Time)
    | CleanUnblocked(now: Time, retention: Duration)
    | CleanEvents(clock: Time, retention: Duration)
    | CleanReasons
    | CleanLowScores(clock: Time, maxAge: Duration, minScore: real)
    | CleanOrphanedScores
    | CleanStaleScores(clock: Time, retention: Duration)
    | CleanPromotedScores
    | StaleActors

  // RemoveBadActor for several addresses.
  function DropBadActors(db: Tables, ips: set<string>): Tables {
    db.(badActors := db.badActors - ips, scores := db.scores - ips)
  }

  function Apply(db: Tables, hash: Hash, cfg: BadActorConfig, step: Step): Tables {
    match step
    case Block(ip, reason, now, duration, w, history) => ExecuteBlock(db, hash, cfg, ip, reason, now, duration, w, history)
    case PeerBadActor(ip, score, n, at, history, now) => ApplyPeer(db, hash, cfg, ip, score, n, at, history, now)
    case Remove(ips) => DropBadActors(db, ips)
    case RemoveAll => db.(badActors := map[], scores := map[])
    case Clear(ip, now) => Forget(db, hash, ip, now)
    case GoodActor(ip, reason, now) => UnblockIp(db, hash, ip, reason, now)
    case Unblock(ip, reason, now) => UpsertIp(db, hash, ip, Unblocked, now, reason, now, ZERO_TIME)
    case CleanBlocks(now) => ExpiredBlocks(db, now)
    case CleanUnblocked(now, retention) => OldUnblocked(db, now, retention)
    case CleanEvents(clock, retention) => OldEvents(db, clock, retention)
    case CleanReasons => OrphanedReasons(db)
    case CleanLowScores(clock, maxAge, minScore) => LowScores(db, clock, maxAge, minScore)
    case CleanOrphanedScores => OrphanedScores(db)
    case CleanStaleScores(clock, retention) => StaleScores(db, clock, retention)
    case CleanPromotedScores => PromotedScores(db)
    case StaleActors => StaleBadActors(db)
  }

  function Run(hash: Hash, cfg: BadActorConfig, steps: seq<Step>): Tables {
    if steps == [] then EMPTY else Apply(Run(hash, cfg, steps[..|steps| - 1]), hash, cfg, steps[|steps| - 1])
  }

  // ------------------------------------------------------- the score by history

  // The sum and number of the positive weights of ip since its score row was last
  // deleted, counted from the steps alone; deleted tells which steps deleted it.
  datatype Tally = Tally(sum: real, count: nat)

  function TallyOf(hash: Hash, cfg: BadActorConfig, steps: seq<Step>, ip: string): Tally {
    if steps == [] then Tally(0.0, 0)
    else
      var n := |steps| - 1;
      var before, step := TallyOf(hash, cfg, steps[..n], ip), steps[n];
      if step.Block? && step.ip == ip && Weight(cfg, step.chainWeight) > 0.0 then
        Tally(before.sum + step.chainWeight, before.count + 1)
      else if Deletes(Run(hash, cfg, steps[..n]), step, ip) then Tally(0.0, 0)
      else before
  }

  // Whether a step deletes the score row of ip.
  predicate Deletes(db: Tables, step: Step, ip: string) {
    match step
    case Remove(ips) => ip in ips
    case RemoveAll => true
    case Clear(other, _) => other == ip
    case CleanLowScores(clock, maxAge, minScore) =>
      ip in db.scores && db.scores[ip].score < minScore && db.scores[ip].lastBlockTime < ToUnix(clock - maxAge)
    case CleanOrphanedScores => ip !in db.ips
    case CleanStaleScores(clock, retention) =>
      ip in db.scores && !IsBlockedIp(db.ips, ip) && db.scores[ip].lastBlockTime < ToUnix(clock - retention)
    case CleanPromotedScores => ip in db.badActors
    case _ => false
  }

  // The score rows are exactly the tallies that count something.
  ghost predicate RowsAreTallies(hash: Hash, cfg: BadActorConfig, steps: seq<Step>) {
    forall ip ::
      var t, db := TallyOf(hash, cfg, steps, ip), Run(hash, cfg, steps);
      && (ip in db.scores <==> t.count > 0)
      && (ip in db.scores ==> db.scores[ip].score == t.sum && db.scores[ip].blockCount == t.count)
      && (t.count == 0 ==> t.sum == 0.0)
  }

  // What one step does to one score row.
  lemma StepOnScore(db: Tables, hash: Hash, cfg: BadActorConfig, step: Step, ip: string)
    ensures var out := Apply(db, hash, cfg, step);
            if step.Block? && step.ip == ip && Weight(cfg, step.chainWeight) > 0.0 then
              ip in out.scores && out.scores[ip] == AddScore(db.scores, ip, step.chainWeight, step.now)[ip]
            else if Deletes(db, step, ip) then ip !in out.scores
            else (ip in out.scores <==> ip in db.scores) && (ip in db.scores ==> out.scores[ip] == db.scores[ip])
  {
    match step
    case Block(_, _, _, _, _, _) =>
    case PeerBadActor(_, _, _, _, _, _) =>
    case Clear(_, _) =>
    case _ =>
  }

  // Over any run, each score row is the sum and the count of the positive weights
  // since it was last deleted.
  lemma {:induction false} ScoresAreTallies(hash: Hash, cfg: BadActorConfig, steps: seq<Step>)
    ensures RowsAreTallies(hash, cfg, steps)
  {
    if steps != [] {
      var n := |steps| - 1;
      ScoresAreTallies(hash, cfg, steps[..n]);
      forall ip
        ensures var t, db := TallyOf(hash, cfg, steps, ip), Run(hash, cfg, steps);
                && (ip in db.scores <==> t.count > 0)
                && (ip in db.scores ==> db.scores[ip].score == t.sum && db.scores[ip].blockCount == t.count)
                && (t.count == 0 ==> t.sum == 0.0)
      {
        var before := TallyOf(hash, cfg, steps[..n], ip);
        assert ip in Run(hash, cfg, steps[..n]).scores <==> before.count > 0;
        StepOnScore(Run(hash, cfg, steps[..n]), hash, cfg, steps[n], ip);
      }
    }
  }

  // ------------------------------------------------------------- promotion

  // Every address at or above the threshold is a bad actor.
  ghost predicate AllPromoted(db: Tables, cfg: BadActorConfig) {
    forall ip :: ip in db.scores && db.scores[ip].score >= cfg.threshold ==> ip in db.badActors
  }

  // The bad actor rows a peer wrote: one it inserts counts until the row is deleted.
  function PeerRows(hash: Hash, cfg: BadActorConfig, steps: seq<Step>): set<string> {
    if steps == [] then {}
    else
      var n := |steps| - 1;
      var db, step := Run(hash, cfg, steps[..n]), steps[n];
      var inserted := if step.PeerBadActor? && step.ip !in db.badActors then {step.ip} else {};
      (PeerRows(hash, cfg, steps[..n]) + inserted) * Apply(db, hash, cfg, step).badActors.Keys
  }

  // Every other bad actor was promoted here, at or above the threshold.
  ghost predicate LocalsEarned(db: Tables, cfg: BadActorConfig, peerRows: set<string>) {
    forall ip :: ip in db.badActors && ip !in peerRows ==> db.badActors[ip].totalScore >= cfg.threshold
  }

  lemma PromotionStep(db: Tables, hash: Hash, cfg: BadActorConfig, step: Step)
    requires AllPromoted(db, cfg) && !step.StaleActors?
    ensures AllPromoted(Apply(db, hash, cfg, step), cfg)
  {
    var out := Apply(db, hash, cfg, step);
    forall ip | ip in out.scores && out.scores[ip].score >= cfg.threshold ensures ip in out.badActors {
      StepOnScore(db, hash, cfg, step, ip);
    }
  }

  lemma EarnedStep(db: Tables, hash: Hash, cfg: BadActorConfig, step: Step, peerRows: set<string>)
    requires LocalsEarned(db, cfg, peerRows)
    ensures var inserted := if step.PeerBadActor? && step.ip !in db.badActors then {step.ip} else {};
      var out := Apply(db, hash, cfg, step);
      LocalsEarned(out, cfg, (peerRows + inserted) * out.badActors.Keys)
  {
  }

  // Over any run, every bad actor whose row no peer wrote records a score that
  // reached the threshold.
  lemma {:induction false} LocalPromotionsAreEarned(hash: Hash, cfg: BadActorConfig, steps: seq<Step>)
    ensures LocalsEarned(Run(hash, cfg, steps), cfg, PeerRows(hash, cfg, steps))
  {
    if steps != [] {
      var n := |steps| - 1;
      LocalPromotionsAreEarned(hash, cfg, steps[..n]);
      EarnedStep(Run(hash, cfg, steps[..n]), hash, cfg, steps[n], PeerRows(hash, cfg, steps[..n]));
    }
  }

  // Over any run without stale-actor clean-ups, with a fixed threshold, whoever has
  // reached it is a bad actor.
  lemma {:induction false} RunPromotes(hash: Hash, cfg: BadActorConfig, steps: seq<Step>)
    requires forall i :: 0 <= i < |steps| ==> !steps[i].StaleActors?
    ensures AllPromoted(Run(hash, cfg, steps), cfg)
    ensures LocalsEarned(Run(hash, cfg, steps), cfg, PeerRows(hash, cfg, steps))
  {
    LocalPromotionsAreEarned(hash, cfg, steps);
    if steps != [] {
      var n := |steps| - 1;
      RunPromotes(hash, cfg, steps[..n]);
      PromotionStep(Run(hash, cfg, steps[..n]), hash, cfg, steps[n]);
    }
  }

  // Over any run, every reference to a reason stays stored.
  lemma {:induction false} RunsAreSound(hash: Hash, cfg: BadActorConfig, steps: seq<Step>)
    ensures Sound(Run(hash, cfg, steps), hash)
  {
    if steps != [] {
      var n := |steps| - 1;
      RunsAreSound(hash, cfg, steps[..n]);
      StepKeepsSound(Run(hash, cfg, steps[..n]), hash, cfg, steps[n]);
    }
  }

  lemma StepKeepsSound(db: Tables, hash: Hash, cfg: BadActorConfig, step: Step)
    requires Sound(db, hash)
    ensures Sound(Apply(db, hash, cfg, step), hash)
  {
    match step
    case Block(ip, reason, now, duration, w, history) =>
      BlockKeepsSound(db, hash, cfg, ip, reason, now, duration, w, history);
    case PeerBadActor(ip, score, n, at, history, now) => PeerKeepsSound(db, hash, cfg, ip, score, n, at, history, now);
    case Clear(ip, now) => ForgetKeepsSound(db, hash, ip, now);
    case GoodActor(ip, reason, now) =>
      var db1 := AddEvent(db, hash, now, UnblockEvent, ip, reason, 0);
      EventKeepsSound(db, hash, now, UnblockEvent, ip, reason, 0);
      UpsertKeepsSound(db1, hash, ip, Unblocked, now, reason, now, ZERO_TIME);
    case Unblock(ip, reason, now) => UpsertKeepsSound(db, hash, ip, Unblocked, now, reason, now, ZERO_TIME);
    case CleanReasons => ReasonStage(db, hash);
    case CleanBlocks(_) =>
    case CleanUnblocked(_, _) =>
    case CleanEvents(_, _) =>
    case _ => SoundIgnoresScores(db, Apply(db, hash, cfg, step), hash);
  }

  // A clean-up of stale bad actors breaks the promise exactly when it removes a bad
  // actor that still has its score: one whose address is no longer blocked.
  lemma StaleActorsBreakPromotion(db: Tables, hash: Hash, cfg: BadActorConfig)
    requires AllPromoted(db, cfg)
    ensures AllPromoted(Apply(db, hash, cfg, StaleActors), cfg) <==>
            forall ip :: ip in db.scores && db.scores[ip].score >= cfg.threshold ==> IsBlockedIp(db.ips, ip)
  {
    var out := Apply(db, hash, cfg, StaleActors);
    assert out.scores == db.scores;
  }

  // So it breaks for every address at the threshold that is unblocked: the next
  // clean-up keeps its score and drops its promotion.
  lemma UnblockedActorIsLost(db: Tables, hash: Hash, cfg: BadActorConfig, ip: string, step: Step)
    requires ip in db.scores && db.scores[ip].score >= cfg.threshold
    requires (step.GoodActor? || step.Unblock?) && step.ip == ip
    ensures var out := Apply(Apply(db, hash, cfg, step), hash, cfg, StaleActors);
            ip in out.scores && out.scores[ip] == db.scores[ip] && ip !in out.badActors
  {
    var mid := Apply(db, hash, cfg, step);
    assert !IsBlockedIp(mid.ips, ip);
  }
}
