// What the periodic clean-up leaves in the database, and what it must not take
// (cmd/bot-detector/main.go, runCleanup).
module Cleanup {
  import opened LogEntries
  import opened ClusterMerge
  import opened Persistence

  // Reasons are stored under their own hash, and every reason a row refers to is
  // stored.
  ghost predicate Sound(db: Tables, hash: Hash) {
    && (forall id :: id in db.reasons ==> hash(db.reasons[id]) == id)
    && (forall ip :: ip in db.ips ==> db.ips[ip].reasonId in db.reasons)
    && (forall n :: n in db.events ==> db.events[n].reasonId in db.reasons)
    && (forall n :: n in db.events ==> n < db.nextEvent)
  }

  lemma UpsertKeepsSound(db: Tables, hash: Hash, ip: string, state: BlockState, expire: Time, reason: string,
          modified: Time, first: Time)
    requires Sound(db, hash)
    ensures Sound(UpsertIp(db, hash, ip, state, expire, reason, modified, first), hash)
  {
  }

  lemma EventKeepsSound(db: Tables, hash: Hash, t: Time, kind: EventType, ip: string, reason: string,
          duration: Duration)
    requires Sound(db, hash)
    ensures Sound(AddEvent(db, hash, t, kind, ip, reason, duration), hash)
  {
  }

  // Scores and bad actors refer to no reason.
  lemma SoundIgnoresScores(db: Tables, db1: Tables, hash: Hash)
    requires Sound(db, hash)
    requires db1.ips == db.ips && db1.events == db.events && db1.nextEvent == db.nextEvent && db1.reasons == db.reasons
    ensures Sound(db1, hash)
  {
  }

  // A block, with or without promotion, keeps all references sound.
  lemma BlockKeepsSound(db: Tables, hash: Hash, cfg: BadActorConfig, ip: string, reason: string, now: Time,
          duration: Duration, weight: real, history: string)
    requires Sound(db, hash)
    ensures Sound(ExecuteBlock(db, hash, cfg, ip, reason, now, duration, weight, history), hash)
  {
    var db1 := AddEvent(db, hash, now, BlockEvent, ip, reason, duration);
    EventKeepsSound(db, hash, now, BlockEvent, ip, reason, duration);
    var db2 := UpsertIp(db1, hash, ip, Blocked, now + duration, reason, now, now);
    UpsertKeepsSound(db1, hash, ip, Blocked, now + duration, reason, now, now);
    var db3 := BlockIp(db, hash, ip, now + duration, reason, now, duration, Weight(cfg, weight));
    SoundIgnoresScores(db2, db3, hash);
    if Weight(cfg, weight) > 0.0 {
      PromotionKeepsSound(db3, hash, cfg, ip, now, history);
    }
  }

  lemma PromotionKeepsSound(db: Tables, hash: Hash, cfg: BadActorConfig, ip: string, now: Time, history: string)
    requires Sound(db, hash) && ip in db.scores
    ensures Sound(PromoteIfDue(db, hash, cfg, ip, now, history), hash)
  {
    var db1 := Promote(db, ip, db.scores[ip].score, db.scores[ip].blockCount, now, history);
    SoundIgnoresScores(db, db1, hash);
    UpsertKeepsSound(db1, hash, ip, Blocked, now + cfg.blockDuration, "bad-actor", now, now);
  }

  lemma ForgetKeepsSound(db: Tables, hash: Hash, ip: string, now: Time)
    requires Sound(db, hash)
    ensures Sound(Forget(db, hash, ip, now), hash)
  {
    var db1 := DropBadActor(db, ip);
    EventKeepsSound(db1.(ips := db1.ips - {ip}), hash, now, UnblockEvent, ip, "manual_clear", 0);
  }

  lemma PeerKeepsSound(db: Tables, hash: Hash, cfg: BadActorConfig, ip: string, score: real, blockCount: nat,
          promotedAt: Time, history: string, now: Time)
    requires Sound(db, hash)
    ensures Sound(ApplyPeer(db, hash, cfg, ip, score, blockCount, promotedAt, history, now), hash)
  {
    UpsertKeepsSound(Promote(db, ip, score, blockCount, promotedAt, history), hash, ip, Blocked, now + cfg.blockDuration, "bad-actor", now, now);
  }

  // ------------------------------------------------------- after the clean-up

  // Which rows of ips and events stay.
  predicate RowStays(row: IpRow, cfg: CleanupConfig, now: Time) {
    row.expireTime >= if row.state == Blocked then ToUnix(now) else ToUnix(now - cfg.retention)
  }

  lemma RowStages(db: Tables, cfg: CleanupConfig, now: Time, clock: Time)
    ensures var mid := RowsCleaned(db, cfg, now, clock);
            && (forall ip :: ip in mid.ips <==> ip in db.ips && RowStays(db.ips[ip], cfg, now))
            && (forall ip :: ip in mid.ips ==> mid.ips[ip] == db.ips[ip])
            && (forall n :: n in mid.events <==> n in db.events && db.events[n].timestamp >= ToUnix(clock - cfg.retention))
            && (forall n :: n in mid.events ==> mid.events[n] == db.events[n])
            && mid == db.(ips := mid.ips, events := mid.events)
  {
  }

  // No reason that a surviving row refers to is lost, and no other survives.
  lemma ReasonStage(db: Tables, hash: Hash)
    requires Sound(db, hash)
    ensures var out := OrphanedReasons(db);
            && Sound(out, hash)
            && (forall id :: id in out.reasons <==> Referenced(out, id))
            && (forall id :: id in out.reasons ==> out.reasons[id] == db.reasons[id])
  {
    var out := OrphanedReasons(db);
    forall id ensures Referenced(out, id) <==> Referenced(db, id) { }
    forall ip | ip in out.ips ensures out.ips[ip].reasonId in out.reasons {
      assert Referenced(db, db.ips[ip].reasonId);
    }
    forall n | n in out.events ensures out.events[n].reasonId in out.reasons {
      assert Referenced(db, db.events[n].reasonId);
    }
  }

  // A bad actor stays exactly while its address has a blocked row; a score exactly
  // for a known address that is not a bad actor, unless it is old.
  lemma ActorStages(db: Tables, cfg: CleanupConfig, clock: Time)
    ensures var out := ActorsCleaned(db, cfg, clock);
            && out == db.(badActors := out.badActors, scores := out.scores)
            && (forall ip :: ip in out.badActors <==> ip in db.badActors && IsBlockedIp(db.ips, ip))
            && (forall ip :: ip in out.badActors ==> out.badActors[ip] == db.badActors[ip])
            && (forall ip :: ip in out.scores <==> ip in db.scores && ScoreStays(db, ip, cfg, clock))
            && (forall ip :: ip in out.scores ==> out.scores[ip] == db.scores[ip])
  {
    var db1 := StaleBadActors(LowScores(db, clock, cfg.scoreMaxAge, cfg.scoreMinCleanup));
    var db2 := StaleScores(OrphanedScores(db1), clock, cfg.retention);
    FirstScoreStages(db, cfg, clock);
    LaterScoreStages(db1, cfg, clock);
    assert ActorsCleaned(db, cfg, clock) == PromotedScores(db2);
  }

  predicate LowAndOld(row: ScoreRow, cfg: CleanupConfig, clock: Time) {
    row.score < cfg.scoreMinCleanup && row.lastBlockTime < ToUnix(clock - cfg.scoreMaxAge)
  }

  predicate StillRelevant(db: Tables, ip: string, cfg: CleanupConfig, clock: Time)
    requires ip in db.scores
  {
    ip in db.ips && (IsBlockedIp(db.ips, ip) || db.scores[ip].lastBlockTime >= ToUnix(clock - cfg.retention))
  }

  lemma FirstScoreStages(db: Tables, cfg: CleanupConfig, clock: Time)
    ensures var out := StaleBadActors(LowScores(db, clock, cfg.scoreMaxAge, cfg.scoreMinCleanup));
            && out == db.(badActors := out.badActors, scores := out.scores)
            && (forall ip :: ip in out.badActors <==> ip in db.badActors && IsBlockedIp(db.ips, ip))
            && (forall ip :: ip in out.badActors ==> out.badActors[ip] == db.badActors[ip])
            && (forall ip :: ip in out.scores <==> ip in db.scores && !LowAndOld(db.scores[ip], cfg, clock))
            && (forall ip :: ip in out.scores ==> out.scores[ip] == db.scores[ip])
  {
  }

  lemma LaterScoreStages(db: Tables, cfg: CleanupConfig, clock: Time)
    ensures var out := PromotedScores(StaleScores(OrphanedScores(db), clock, cfg.retention));
            && out == db.(scores := out.scores)
            && (forall ip :: ip in out.scores <==> ip in db.scores && ip !in db.badActors && StillRelevant(db, ip, cfg, clock))
            && (forall ip :: ip in out.scores ==> out.scores[ip] == db.scores[ip])
  {
  }

  predicate ScoreStays(db: Tables, ip: string, cfg: CleanupConfig, clock: Time)
    requires ip in db.scores
  {
    var row := db.scores[ip];
    && ip in db.ips
    && !LowAndOld(row, cfg, clock)
    && (if db.ips[ip].state == Blocked then ip !in db.badActors else row.lastBlockTime >= ToUnix(clock - cfg.retention))
  }

  // After the clean-up: no expired block and no over-age unblocked row remains,
  // every surviving row keeps its reason text, and only those reasons are stored.
  lemma RowsAfterCleanup(db: Tables, hash: Hash, cfg: CleanupConfig, now: Time, clock: Time)
    requires Sound(db, hash)
    ensures var out := Cleaned(db, cfg, now, clock);
            && Sound(out, hash)
            && (forall ip :: ip in out.ips <==> ip in db.ips && RowStays(db.ips[ip], cfg, now))
            && (forall ip :: ip in out.ips ==> out.ips[ip] == db.ips[ip])
            && (forall ip :: ip in out.ips ==> out.reasons[out.ips[ip].reasonId] == db.reasons[db.ips[ip].reasonId])
            && (forall n :: n in out.events ==>
                  n in db.events && out.reasons[out.events[n].reasonId] == db.reasons[db.events[n].reasonId])
            && (forall id :: id in out.reasons <==> Referenced(out, id))
  {
    var mid := RowsCleaned(db, cfg, now, clock);
    RowStages(db, cfg, now, clock);
    FewerRowsSound(db, mid, hash);
    ReasonStage(mid, hash);
    var pruned := OrphanedReasons(mid);
    ActorsOnly(pruned, cfg, clock);
    SameReferences(pruned, Cleaned(db, cfg, now, clock), hash);
  }

  lemma FewerRowsSound(db: Tables, db1: Tables, hash: Hash)
    requires Sound(db, hash) && db1 == db.(ips := db1.ips, events := db1.events)
    requires forall ip :: ip in db1.ips ==> ip in db.ips && db1.ips[ip] == db.ips[ip]
    requires forall n :: n in db1.events ==> n in db.events && db1.events[n] == db.events[n]
    ensures Sound(db1, hash)
  {
  }

  lemma ActorsOnly(db: Tables, cfg: CleanupConfig, clock: Time)
    ensures var out := ActorsCleaned(db, cfg, clock); out == db.(badActors := out.badActors, scores := out.scores)
  {
  }

  lemma SameReferences(db: Tables, db1: Tables, hash: Hash)
    requires Sound(db, hash) && db1 == db.(badActors := db1.badActors, scores := db1.scores)
    ensures Sound(db1, hash) && forall id :: Referenced(db1, id) <==> Referenced(db, id)
  {
    SoundIgnoresScores(db, db1, hash);
  }

  // ... and every bad actor has a blocked row, and scores exist only for known
  // addresses that are not bad actors.  A bad actor outlives the clean-up exactly
  // as long as its block: no promotion is permanent.
  lemma ActorsAfterCleanup(db: Tables, cfg: CleanupConfig, now: Time, clock: Time)
    requires cfg.badActorsEnabled
    ensures var out := Cleaned(db, cfg, now, clock);
            && (forall ip :: ip in out.badActors <==>
                  ip in db.badActors && IsBlockedIp(db.ips, ip) && db.ips[ip].expireTime >= ToUnix(now))
            && (forall ip :: ip in out.badActors ==> IsBlockedIp(out.ips, ip) && out.badActors[ip] == db.badActors[ip])
            && out.scores.Keys <= out.ips.Keys - out.badActors.Keys
            && (forall ip :: ip in out.scores <==> ip in db.scores && ScoreStays(OrphanedReasons(RowsCleaned(db, cfg, now, clock)), ip, cfg, clock))
  {
    RowStages(db, cfg, now, clock);
    ActorStages(OrphanedReasons(RowsCleaned(db, cfg, now, clock)), cfg, clock);
  }

  // The order of the stages matters: with the reasons before the events, a reason
  // stays behind exactly if the only rows that refer to it are events deleted next.
  lemma ReasonsBeforeEventsLeaveOrphans(db: Tables, clock: Time, retention: Duration, id: int)
    ensures var out := OldEvents(OrphanedReasons(db), clock, retention);
      id in out.reasons && !Referenced(out, id) <==>
        && id in db.reasons
        && (exists n :: n in db.events && db.events[n].reasonId == id)
        && (forall n :: n in db.events && db.events[n].reasonId == id ==>
              db.events[n].timestamp < ToUnix(clock - retention))
        && (forall ip :: ip in db.ips ==> db.ips[ip].reasonId != id)
  {
    var mid := OrphanedReasons(db);
    var out := OldEvents(mid, clock, retention);
    assert forall n :: n in out.events <==> n in db.events && db.events[n].timestamp >= ToUnix(clock - retention);
    assert id in mid.reasons <==> id in db.reasons && Referenced(db, id);
  }

  // In the order of the program nothing stays behind, whatever the database was.
  lemma EventsBeforeReasonsLeaveNone(db: Tables, clock: Time, retention: Duration, id: int)
    ensures var out := OrphanedReasons(OldEvents(db, clock, retention));
      id in out.reasons ==> Referenced(out, id)
  {
    var mid := OldEvents(db, clock, retention);
    var out := OrphanedReasons(mid);
    assert Referenced(mid, id) <==> Referenced(out, id);
  }

  // With an injective hash a row's reason is the text it was written with.
  lemma ReasonIsKept(db: Tables, hash: Hash, ip: string, state: BlockState, expire: Time, reason: string,
          modified: Time, first: Time)
    requires Sound(db, hash) && Injective(hash)
    ensures var out := UpsertIp(db, hash, ip, state, expire, reason, modified, first);
      ip in out.ips && out.ips[ip].reasonId in out.reasons && out.reasons[out.ips[ip].reasonId] == reason
  {
    if hash(reason) in db.reasons { assert hash(db.reasons[hash(reason)]) == hash(reason); }
  }
}
