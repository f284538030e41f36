// The state database as it runs: statements that update tables in place, and
// deletions in batches (internal/persistence/sqlite.go, cmd/bot-detector/main.go).
module Database {
  import opened LogEntries
  import opened ClusterMerge
  import opened Persistence

  // Rows of a batch: as many matching ones as fit, whichever the engine finds.
  ghost predicate IsBatch<K(!new)>(batch: set<K>, matching: set<K>, size: nat) {
    batch <= matching && |batch| == if |matching| < size then |matching| else size
  }

  const BATCH_SIZE := 5000

  // cleanupBatch: repeats a bounded DELETE until it removes less than a full batch.
  // It ends, and it has then deleted exactly the matching rows.
  method CleanupBatch<K(==, !new), V>(table: map<K, V>, where_: (K, V) -> bool) returns (rest: map<K, V>, total: nat)
    ensures rest == Without(table, where_)
    ensures total == |(set k | k in table && where_(k, table[k]))|
  {
    rest, total := table, 0;
    ghost var all := set k | k in table && where_(k, table[k]);
    ghost var matching := all;
    var more := true;
    while more
      invariant matching == set k | k in rest && where_(k, rest[k])
      invariant matching <= all && rest == table - (all - matching)
      invariant total + |matching| == |all|
      invariant !more ==> matching == {}
      decreases |matching|, more
    {
      var n;
      rest, n, matching := DeleteSome(rest, where_, matching);
      total := total + n;
      more := n >= BATCH_SIZE;
    }
  }

  // One DELETE ... LIMIT statement.
  method DeleteSome<K(==, !new), V>(table: map<K, V>, where_: (K, V) -> bool, ghost matching: set<K>)
      returns (rest: map<K, V>, n: nat, ghost left: set<K>)
    requires matching == set k | k in table && where_(k, table[k])
    ensures left <= matching && rest == table - (matching - left)
    ensures left == set k | k in rest && where_(k, rest[k])
    ensures n + |left| == |matching|
    ensures n == if |matching| < BATCH_SIZE then |matching| else BATCH_SIZE
  {
    var candidates := set k | k in table && where_(k, table[k]);
    var batch := PickSome(candidates);
    rest, n, left := table - batch, |batch|, candidates - batch;
    assert candidates - left == batch;
  }

  // Takes rows one by one until the batch is full or none is left.
  method PickSome<K(==, !new)>(candidates: set<K>) returns (batch: set<K>)
    ensures IsBatch(batch, candidates, BATCH_SIZE)
  {
    batch := {};
    var todo := candidates;
    while todo != {} && |batch| < BATCH_SIZE
      invariant batch + todo == candidates && batch !! todo && |batch| <= BATCH_SIZE
      decreases todo
    {
      var k :| k in todo;
      todo := todo - {k};
      batch := batch + {k};
    }
    if todo == {} {
      assert batch == candidates;
    } else {
      assert |candidates| == |batch| + |todo|;
    }
  }

  class StateDB {
    var ips: map<string, IpRow>
    var events: map<nat, EventRow>
    var nextEvent: nat
    var reasons: map<int, string>
    var scores: map<string, ScoreRow>
    var badActors: map<string, BadActorRow>
    const hash: Hash

    ghost function State(): Tables
      reads this
    {
      Tables(ips, events, nextEvent, reasons, scores, badActors)
    }

    constructor (hash: Hash)
      ensures State() == EMPTY && this.hash == hash
    {
      this.hash := hash;
      ips, events, nextEvent, reasons, scores, badActors := map[], map[], 0, map[], map[], map[];
    }

    method GetOrCreateReasonID(reason: string) returns (id: int)
      modifies this`reasons
      ensures id == hash(reason) && reasons == Intern(old(reasons), hash, reason)
    {
      id := hash(reason);
      if id !in reasons { reasons := reasons[id := reason]; }
    }

    method InsertEvent(t: Time, kind: EventType, ip: string, reason: string, duration: Duration)
      modifies this`reasons, this`events, this`nextEvent
      ensures State() == AddEvent(old(State()), hash, t, kind, ip, reason, duration)
    {
      var id := GetOrCreateReasonID(reason);
      events := events[nextEvent := EventRow(ToUnix(t), kind, ip, id, duration)];
      nextEvent := nextEvent + 1;
    }

    method UpsertIPState(ip: string, state: BlockState, expire: Time, reason: string, modified: Time, first: Time)
      modifies this`reasons, this`ips
      ensures State() == UpsertIp(old(State()), hash, ip, state, expire, reason, modified, first)
    {
      var id := GetOrCreateReasonID(reason);
      var firstBlocked := ToUnix(first);
      if ip in ips && ips[ip].firstBlockedAt > 0 && ips[ip].firstBlockedAt < firstBlocked {
        firstBlocked := ips[ip].firstBlockedAt;
      }
      ips := ips[ip := IpRow(state, ToUnix(expire), id, ToUnix(modified), firstBlocked)];
    }

    // BlockIPBatch: one transaction, answering the new score and count.
    method BlockIPBatch(ip: string, expire: Time, reason: string, t: Time, duration: Duration, weight: real)
        returns (score: real, blockCount: nat)
      modifies this
      ensures State() == BlockIp(old(State()), hash, ip, expire, reason, t, duration, weight)
      ensures weight > 0.0 ==> ip in scores && score == scores[ip].score && blockCount == scores[ip].blockCount
      ensures weight <= 0.0 ==> score == 0.0 && blockCount == 0
    {
      InsertEvent(t, BlockEvent, ip, reason, duration);
      UpsertIPState(ip, Blocked, expire, reason, t, t);
      score, blockCount := 0.0, 0;
      if weight > 0.0 {
        score, blockCount := weight, 1;
        if ip in scores {
          score, blockCount := scores[ip].score + weight, scores[ip].blockCount + 1;
        }
        scores := scores[ip := ScoreRow(score, blockCount, ToUnix(t))];
      }
    }

    method PromoteToBadActor(ip: string, score: real, blockCount: nat, t: Time, history: string)
      modifies this`badActors
      ensures State() == Promote(old(State()), ip, score, blockCount, t, history)
    {
      badActors := badActors[ip := BadActorRow(ToUnix(t), score, blockCount, history)];
    }

    // The persistence part of executeBlock.
    method Execute(cfg: BadActorConfig, ip: string, reason: string, now: Time, duration: Duration, chainWeight: real,
            history: string)
      modifies this
      ensures State() == ExecuteBlock(old(State()), hash, cfg, ip, reason, now, duration, chainWeight, history)
    {
      var weight := 0.0;
      if cfg.enabled && chainWeight > 0.0 { weight := chainWeight; }
      var score, blockCount := BlockIPBatch(ip, now + duration, reason, now, duration, weight);
      if cfg.enabled && chainWeight > 0.0 && score >= cfg.threshold && ip !in badActors {
        PromoteToBadActor(ip, score, blockCount, now, history);
        UpsertIPState(ip, Blocked, now + cfg.blockDuration, "bad-actor", now, now);
      }
    }

    method ApplyBadActorFromPeer(cfg: BadActorConfig, ip: string, score: real, blockCount: nat, promotedAt: Time,
            history: string, now: Time)
      modifies this
      ensures State() == ApplyPeer(old(State()), hash, cfg, ip, score, blockCount, promotedAt, history, now)
    {
      if ip in badActors { return; }
      PromoteToBadActor(ip, score, blockCount, promotedAt, history);
      UpsertIPState(ip, Blocked, now + cfg.blockDuration, "bad-actor", now, now);
    }

    method RemoveBadActor(ip: string)
      modifies this`badActors, this`scores
      ensures State() == DropBadActor(old(State()), ip)
    {
      badActors := badActors - {ip};
      scores := scores - {ip};
    }

    // RemoveBadActorsByReason; matches tells which histories contain the reason.
    method RemoveBadActorsByReason(matches: string -> bool) returns (removed: set<string>)
      modifies this`badActors, this`scores
      ensures removed == set ip | ip in old(badActors) && matches(old(badActors)[ip].history)
      ensures State() == old(State()).(badActors := old(badActors) - removed, scores := old(scores) - removed)
    {
      removed := set ip | ip in badActors && matches(badActors[ip].history);
      var todo := removed;
      while todo != {}
        invariant todo <= removed
        invariant badActors == old(badActors) - (removed - todo)
        invariant scores == old(scores) - (removed - todo)
        decreases todo
      {
        var ip :| ip in todo;
        RemoveBadActor(ip);
        todo := todo - {ip};
      }
      assert removed - {} == removed;
    }

    method RemoveAllBadActors() returns (removed: set<string>)
      modifies this`badActors, this`scores
      ensures removed == old(badActors).Keys
      ensures State() == old(State()).(badActors := map[], scores := map[])
    {
      removed := badActors.Keys;
      badActors := map[];
      scores := map[];
    }

    // The persistence part of clearing an address through the API.
    method RemoveFromPersistence(ip: string, now: Time)
      modifies this
      ensures State() == Forget(old(State()), hash, ip, now)
    {
      RemoveBadActor(ip);
      if ip !in ips { return; }
      ips := ips - {ip};
      InsertEvent(now, UnblockEvent, ip, "manual_clear", 0);
    }

    // ---------------------------------------------------------- clean-up stages

    method CleanupExpiredBlocks(now: Time) returns (n: nat)
      modifies this`ips
      ensures State() == ExpiredBlocks(old(State()), now)
    {
      ips, n := CleanupBatch(ips, (ip: string, r: IpRow) => r.state == Blocked && r.expireTime < ToUnix(now));
    }

    method CleanupOldUnblocked(now: Time, retention: Duration) returns (n: nat)
      modifies this`ips
      ensures State() == OldUnblocked(old(State()), now, retention)
    {
      ips, n := CleanupBatch(ips, (ip: string, r: IpRow) => r.state == Unblocked && r.expireTime < ToUnix(now - retention));
    }

    method CleanupOldEvents(clock: Time, retention: Duration) returns (n: nat)
      modifies this`events
      ensures State() == OldEvents(old(State()), clock, retention)
    {
      events, n := CleanupBatch(events, (i: nat, r: EventRow) => r.timestamp < ToUnix(clock - retention));
    }

    method CleanupOrphanedReasons() returns (n: nat)
      modifies this`reasons
      ensures State() == OrphanedReasons(old(State()))
    {
      var used := (set ip | ip in ips :: ips[ip].reasonId) + (set i | i in events :: events[i].reasonId);
      var kept := map id | id in reasons && id in used :: reasons[id];
      assert forall id :: id in used <==> Referenced(State(), id);
      n := |reasons.Keys - kept.Keys|;
      reasons := kept;
    }

    method CleanupLowScores(clock: Time, maxAge: Duration, minScore: real) returns (n: nat)
      modifies this`scores
      ensures State() == LowScores(old(State()), clock, maxAge, minScore)
    {
      var before := |scores|;
      scores := map ip | ip in scores && !(scores[ip].score < minScore && scores[ip].lastBlockTime < ToUnix(clock - maxAge)) :: scores[ip];
      assert scores.Keys <= old(scores).Keys;
      n := if |scores| <= before then before - |scores| else 0;
    }

    method CleanupStaleBadActors() returns (n: nat)
      modifies this`badActors
      ensures State() == StaleBadActors(old(State()))
    {
      var known := ips;
      badActors, n := CleanupBatch(badActors, (ip: string, r: BadActorRow) => !IsBlockedIp(known, ip));
    }

    method CleanupStaleScores(clock: Time, retention: Duration) returns (n: nat)
      modifies this`scores
      ensures State() == StaleScores(OrphanedScores(old(State())), clock, retention)
    {
      var known := ips;
      var orphaned, stale;
      scores, orphaned := CleanupBatch(scores, (ip: string, r: ScoreRow) => ip !in known);
      scores, stale := CleanupBatch(scores, (ip: string, r: ScoreRow) => !IsBlockedIp(known, ip) && r.lastBlockTime < ToUnix(clock - retention));
      n := orphaned + stale;
    }

    method CleanupPromotedScores() returns (n: nat)
      modifies this`scores
      ensures State() == PromotedScores(old(State()))
    {
      var promoted := badActors;
      scores, n := CleanupBatch(scores, (ip: string, r: ScoreRow) => ip in promoted);
    }

    // runCleanup
    method RunCleanup(cfg: CleanupConfig, now: Time, clock: Time) returns (removed: seq<nat>)
      modifies this
      ensures State() == Cleaned(old(State()), cfg, now, clock)
    {
      var n1 := CleanupExpiredBlocks(now);
      var n2 := CleanupOldUnblocked(now, cfg.retention);
      var n3 := CleanupOldEvents(clock, cfg.retention);
      var n4 := CleanupOrphanedReasons();
      removed := [n1, n2, n3, n4];
      if cfg.badActorsEnabled {
        var n5 := CleanupLowScores(clock, cfg.scoreMaxAge, cfg.scoreMinCleanup);
        var n6 := CleanupStaleBadActors();
        var n7 := CleanupStaleScores(clock, cfg.retention);
        var n8 := CleanupPromotedScores();
        removed := removed + [n5, n6, n7, n8];
      }
    }
  }
}
