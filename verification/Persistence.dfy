// The tables of the state database and what each statement does to them
// (internal/persistence/sqlite.go).
module Persistence {
  import opened LogEntries
  import opened ClusterMerge

  // Seconds since 1970, as stored.
  type Unix = int

  const UNIX_EPOCH_SECONDS := 62_135_596_800
  const NANOS := 1_000_000_000

  // timeToUnix: the zero time is stored as 0.
  function ToUnix(t: Time): Unix {
    if t == ZERO_TIME then 0 else t / NANOS - UNIX_EPOCH_SECONDS
  }

  // unixToTime
  function FromUnix(seconds: Unix): Time {
    if seconds == 0 then ZERO_TIME else (seconds + UNIX_EPOCH_SECONDS) * NANOS
  }

  datatype EventType = BlockEvent | UnblockEvent | ChallengeEvent

  datatype IpRow = IpRow(state: BlockState, expireTime: Unix, reasonId: int, modifiedAt: Unix, firstBlockedAt: Unix)
  datatype EventRow = EventRow(timestamp: Unix, kind: EventType, ip: string, reasonId: int, duration: Duration)
  datatype ScoreRow = ScoreRow(score: real, blockCount: nat, lastBlockTime: Unix)
  datatype BadActorRow = BadActorRow(promotedAt: Unix, totalScore: real, blockCount: nat, history: string)

  // Events are keyed by their AUTOINCREMENT id; nextEvent has never been used.
  datatype Tables = Tables(
    ips: map<string, IpRow>,
    events: map<nat, EventRow>,
    nextEvent: nat,
    reasons: map<int, string>,
    scores: map<string, ScoreRow>,
    badActors: map<string, BadActorRow>)

  const EMPTY := Tables(map[], map[], 0, map[], map[], map[])

  // reasonHash, taken to be injective.
  type Hash = string -> int

  ghost predicate Injective(hash: Hash) {
    forall a, b :: hash(a) == hash(b) ==> a == b
  }

  // INSERT OR IGNORE INTO reasons
  function Intern(reasons: map<int, string>, hash: Hash, reason: string): map<int, string> {
    if hash(reason) in reasons then reasons else reasons[hash(reason) := reason]
  }

  // first_blocked_at of a row that already exists.
  function KeepFirst(stored: Unix, excluded: Unix): Unix {
    if stored > 0 && stored < excluded then stored else excluded
  }

  // INSERT INTO ips ... ON CONFLICT DO UPDATE, as local writers use it.
  function PutIp(ips: map<string, IpRow>, ip: string, row: IpRow): map<string, IpRow> {
    ips[ip := if ip in ips then row.(firstBlockedAt := KeepFirst(ips[ip].firstBlockedAt, row.firstBlockedAt)) else row]
  }

  // UpsertIPState
  function UpsertIp(db: Tables, hash: Hash, ip: string, state: BlockState, expire: Time, reason: string,
          modified: Time, first: Time): Tables {
    db.(reasons := Intern(db.reasons, hash, reason),
        ips := PutIp(db.ips, ip, IpRow(state, ToUnix(expire), hash(reason), ToUnix(modified), ToUnix(first))))
  }

  // INSERT OR IGNORE INTO events without a node name: NULL never conflicts.
  function AddEvent(db: Tables, hash: Hash, t: Time, kind: EventType, ip: string, reason: string,
          duration: Duration): Tables {
    db.(reasons := Intern(db.reasons, hash, reason),
        events := db.events[db.nextEvent := EventRow(ToUnix(t), kind, ip, hash(reason), duration)],
        nextEvent := db.nextEvent + 1)
  }

  function AddScore(scores: map<string, ScoreRow>, ip: string, weight: real, t: Time): map<string, ScoreRow> {
    scores[ip := if ip in scores then ScoreRow(scores[ip].score + weight, scores[ip].blockCount + 1, ToUnix(t))
                 else ScoreRow(weight, 1, ToUnix(t))]
  }

  // BlockIPBatch
  function BlockIp(db: Tables, hash: Hash, ip: string, expire: Time, reason: string, t: Time, duration: Duration,
          weight: real): Tables {
    var db1 := AddEvent(db, hash, t, BlockEvent, ip, reason, duration);
    var db2 := UpsertIp(db1, hash, ip, Blocked, expire, reason, t, t);
    if weight > 0.0 then db2.(scores := AddScore(db2.scores, ip, weight, t)) else db2
  }

  // PromoteToBadActorWithHistory, once the history is at hand
  function Promote(db: Tables, ip: string, score: real, blockCount: nat, t: Time, history: string): Tables {
    db.(badActors := db.badActors[ip := BadActorRow(ToUnix(t), score, blockCount, history)])
  }

  // RemoveBadActor
  function DropBadActor(db: Tables, ip: string): Tables {
    db.(badActors := db.badActors - {ip}, scores := db.scores - {ip})
  }

  // ------------------------------------------------------------- executeBlock

  datatype BadActorConfig = BadActorConfig(enabled: bool, threshold: real, blockDuration: Duration)

  // The weight a block adds to the score.
  function Weight(cfg: BadActorConfig, chainWeight: real): real {
    if cfg.enabled && chainWeight > 0.0 then chainWeight else 0.0
  }

  // The promotion that follows a block whose weight counts.
  function PromoteIfDue(db: Tables, hash: Hash, cfg: BadActorConfig, ip: string, now: Time, history: string): Tables
    requires ip in db.scores
  {
    var row := db.scores[ip];
    if row.score >= cfg.threshold && ip !in db.badActors then
      UpsertIp(Promote(db, ip, row.score, row.blockCount, now, history),
               hash, ip, Blocked, now + cfg.blockDuration, "bad-actor", now, now)
    else db
  }

  // A completed block chain: event, state and score in one transaction, and the
  // promotion when the score reaches the threshold.
  function ExecuteBlock(db: Tables, hash: Hash, cfg: BadActorConfig, ip: string, reason: string, now: Time,
          duration: Duration, chainWeight: real, history: string): Tables {
    var weight := Weight(cfg, chainWeight);
    var db1 := BlockIp(db, hash, ip, now + duration, reason, now, duration, weight);
    if weight > 0.0 then PromoteIfDue(db1, hash, cfg, ip, now, history) else db1
  }

  // ApplyBadActorFromPeer
  function ApplyPeer(db: Tables, hash: Hash, cfg: BadActorConfig, ip: string, score: real, blockCount: nat,
          promotedAt: Time, history: string, now: Time): Tables {
    if ip in db.badActors then db
    else UpsertIp(Promote(db, ip, score, blockCount, promotedAt, history),
                  hash, ip, Blocked, now + cfg.blockDuration, "bad-actor", now, now)
  }

  // RemoveFromPersistence
  function Forget(db: Tables, hash: Hash, ip: string, now: Time): Tables {
    var db1 := DropBadActor(db, ip);
    if ip !in db1.ips then db1
    else AddEvent(db1.(ips := db1.ips - {ip}), hash, now, UnblockEvent, ip, "manual_clear", 0)
  }

  // The unblock of a good actor's address in CheckChains.
  function UnblockIp(db: Tables, hash: Hash, ip: string, reason: string, now: Time): Tables {
    UpsertIp(AddEvent(db, hash, now, UnblockEvent, ip, reason, 0), hash, ip, Unblocked, now, reason, now, ZERO_TIME)
  }

  // ------------------------------------------------------------------ clean-up

  // What is left of a table when the rows that match are deleted.
  function Without<K, V>(table: map<K, V>, where_: (K, V) -> bool): map<K, V> {
    map k | k in table && !where_(k, table[k]) :: table[k]
  }

  predicate IsBlockedIp(ips: map<string, IpRow>, ip: string) {
    ip in ips && ips[ip].state == Blocked
  }

  predicate Referenced(db: Tables, id: int) {
    (exists ip :: ip in db.ips && db.ips[ip].reasonId == id) || (exists n :: n in db.events && db.events[n].reasonId == id)
  }

  function ExpiredBlocks(db: Tables, now: Time): Tables {
    db.(ips := Without(db.ips, (ip: string, r: IpRow) => r.state == Blocked && r.expireTime < ToUnix(now)))
  }

  function OldUnblocked(db: Tables, now: Time, retention: Duration): Tables {
    db.(ips := Without(db.ips, (ip: string, r: IpRow) => r.state == Unblocked && r.expireTime < ToUnix(now - retention)))
  }

  function OldEvents(db: Tables, clock: Time, retention: Duration): Tables {
    db.(events := Without(db.events, (n: nat, r: EventRow) => r.timestamp < ToUnix(clock - retention)))
  }

  function OrphanedReasons(db: Tables): Tables {
    db.(reasons := Without(db.reasons, (id: int, text: string) => !Referenced(db, id)))
  }

  function LowScores(db: Tables, clock: Time, maxAge: Duration, minScore: real): Tables {
    db.(scores := Without(db.scores, (ip: string, r: ScoreRow) => r.score < minScore && r.lastBlockTime < ToUnix(clock - maxAge)))
  }

  function StaleBadActors(db: Tables): Tables {
    db.(badActors := Without(db.badActors, (ip: string, r: BadActorRow) => !IsBlockedIp(db.ips, ip)))
  }

  function OrphanedScores(db: Tables): Tables {
    db.(scores := Without(db.scores, (ip: string, r: ScoreRow) => ip !in db.ips))
  }

  function StaleScores(db: Tables, clock: Time, retention: Duration): Tables {
    db.(scores := Without(db.scores, (ip: string, r: ScoreRow) => !IsBlockedIp(db.ips, ip) && r.lastBlockTime < ToUnix(clock - retention)))
  }

  function PromotedScores(db: Tables): Tables {
    db.(scores := Without(db.scores, (ip: string, r: ScoreRow) => ip in db.badActors))
  }

  datatype CleanupConfig = CleanupConfig(retention: Duration, badActorsEnabled: bool, scoreMaxAge: Duration, scoreMinCleanup: real)

  // The stages of runCleanup; now is the configured clock, clock the system's.
  function RowsCleaned(db: Tables, cfg: CleanupConfig, now: Time, clock: Time): Tables {
    OldEvents(OldUnblocked(ExpiredBlocks(db, now), now, cfg.retention), clock, cfg.retention)
  }

  function ActorsCleaned(db: Tables, cfg: CleanupConfig, clock: Time): Tables {
    var db1 := StaleBadActors(LowScores(db, clock, cfg.scoreMaxAge, cfg.scoreMinCleanup));
    PromotedScores(StaleScores(OrphanedScores(db1), clock, cfg.retention))
  }

  // runCleanup
  function Cleaned(db: Tables, cfg: CleanupConfig, now: Time, clock: Time): Tables {
    var db1 := OrphanedReasons(RowsCleaned(db, cfg, now, clock));
    if cfg.badActorsEnabled then ActorsCleaned(db1, cfg, clock) else db1
  }
}
