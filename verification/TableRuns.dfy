// What the tables hold after any run, by its steps alone: every row is that of the last
// step that wrote it, and every event was written by one step.
module TableRuns {
  import opened LogEntries
  import opened ClusterMerge
  import opened Persistence
  import opened Cleanup
  import opened Scores

  // ------------------------------------------------------------------ one block

  // The block makes its address a bad actor: its weight counts, reaches the threshold,
  // and the address is none yet.
  predicate Promotes(db: Tables, cfg: BadActorConfig, ip: string, chainWeight: real) {
    && cfg.enabled && chainWeight > 0.0 && ip !in db.badActors
    && (if ip in db.scores then db.scores[ip].score else 0.0) + chainWeight >= cfg.threshold
  }

  // The text a stored id stands for.
  ghost predicate ReadsAs(db: Tables, id: int, text: string) {
    id in db.reasons && db.reasons[id] == text
  }

  // A completed block chain leaves its address with a blocked row: for its duration and
  // under its reason, or as a bad actor's if the block made it one.
  ghost predicate BlockedRow(db: Tables, out: Tables, cfg: BadActorConfig, ip: string, reason: string, now: Time,
          duration: Duration, promoted: bool)
  {
    && ip in out.ips && out.ips[ip].state == Blocked && out.ips[ip].modifiedAt == ToUnix(now)
    && out.ips[ip].expireTime == ToUnix(now + if promoted then cfg.blockDuration else duration)
    && ReadsAs(out, out.ips[ip].reasonId, if promoted then "bad-actor" else reason)
    && forall x :: x != ip ==> (x in out.ips <==> x in db.ips) && (x in db.ips ==> out.ips[x] == db.ips[x])
  }

  // One event more, with these fields.
  ghost predicate OneMoreEvent(db: Tables, out: Tables, kind: EventType, ip: string, reason: string, now: Time,
          duration: Duration)
  {
    && out.nextEvent == db.nextEvent + 1
    && (forall n :: n in out.events <==> n in db.events || n == db.nextEvent)
    && (forall n :: n in db.events && n != db.nextEvent ==> out.events[n] == db.events[n])
    && var added := out.events[db.nextEvent];
       && added.kind == kind && added.ip == ip && added.timestamp == ToUnix(now) && added.duration == duration
       && ReadsAs(out, added.reasonId, reason)
  }

  lemma BlockFields(db: Tables, hash: Hash, cfg: BadActorConfig, ip: string, reason: string, now: Time,
          duration: Duration, chainWeight: real, history: string)
    ensures var out := ExecuteBlock(db, hash, cfg, ip, reason, now, duration, chainWeight, history);
      var promoted := Promotes(db, cfg, ip, chainWeight);
      && out.ips == db.ips[ip := IpRow(Blocked, ToUnix(now + if promoted then cfg.blockDuration else duration),
           hash(if promoted then "bad-actor" else reason), ToUnix(now),
           KeepFirst(if ip in db.ips then db.ips[ip].firstBlockedAt else 0, ToUnix(now)))]
      && out.nextEvent == db.nextEvent + 1
      && out.events == db.events[db.nextEvent := EventRow(ToUnix(now), BlockEvent, ip, hash(reason), duration)]
  {
  }

  lemma BlockWrites(db: Tables, hash: Hash, cfg: BadActorConfig, ip: string, reason: string, now: Time,
          duration: Duration, chainWeight: real, history: string)
    requires Sound(db, hash) && Injective(hash)
    ensures var out := ExecuteBlock(db, hash, cfg, ip, reason, now, duration, chainWeight, history);
      && BlockedRow(db, out, cfg, ip, reason, now, duration, Promotes(db, cfg, ip, chainWeight))
      && OneMoreEvent(db, out, BlockEvent, ip, reason, now, duration)
  {
    BlockKeepsSound(db, hash, cfg, ip, reason, now, duration, chainWeight, history);
    BlockFields(db, hash, cfg, ip, reason, now, duration, chainWeight, history);
    var out := ExecuteBlock(db, hash, cfg, ip, reason, now, duration, chainWeight, history);
    BlockReads(db, out, hash, cfg, ip, reason, now, duration, Promotes(db, cfg, ip, chainWeight));
  }

  lemma BlockReads(db: Tables, out: Tables, hash: Hash, cfg: BadActorConfig, ip: string, reason: string, now: Time,
          duration: Duration, promoted: bool)
    requires Sound(out, hash) && Injective(hash)
    requires out.ips == db.ips[ip := IpRow(Blocked, ToUnix(now + if promoted then cfg.blockDuration else duration),
           hash(if promoted then "bad-actor" else reason), ToUnix(now),
           KeepFirst(if ip in db.ips then db.ips[ip].firstBlockedAt else 0, ToUnix(now)))]
    requires out.nextEvent == db.nextEvent + 1
    requires out.events == db.events[db.nextEvent := EventRow(ToUnix(now), BlockEvent, ip, hash(reason), duration)]
    ensures BlockedRow(db, out, cfg, ip, reason, now, duration, promoted)
    ensures OneMoreEvent(db, out, BlockEvent, ip, reason, now, duration)
  {
    TextOf(out, hash, out.ips[ip].reasonId, if promoted then "bad-actor" else reason);
    TextOf(out, hash, out.events[db.nextEvent].reasonId, reason);
  }

  lemma TextOf(db: Tables, hash: Hash, id: int, text: string)
    requires Sound(db, hash) && Injective(hash) && id == hash(text) && id in db.reasons
    ensures ReadsAs(db, id, text)
  {
    assert hash(db.reasons[id]) == hash(text);
  }

  // ------------------------------------------------------------------- the ips rows

  // What the last step that wrote a row wrote; first is the start of the block.
  datatype Written = Nothing | Row(state: BlockState, expire: Unix, reason: string, modified: Unix, first: Unix)

  // A block keeps an earlier start that is known.
  function Start(before: Written, t: Unix): Unix {
    if before.Row? && 0 < before.first < t then before.first else t
  }

  function BlockRow(before: Written, reason: string, until: Time, now: Time): Written {
    Row(Blocked, ToUnix(until), reason, ToUnix(now), Start(before, ToUnix(now)))
  }

  // The promotion that step n of a run brings about, by the tally of its weights.
  predicate PromotesAt(hash: Hash, cfg: BadActorConfig, steps: seq<Step>, n: nat) {
    && n < |steps| && steps[n].Block? && cfg.enabled && steps[n].chainWeight > 0.0
    && steps[n].ip !in Run(hash, cfg, steps[..n]).badActors
    && TallyOf(hash, cfg, steps[..n], steps[n].ip).sum + steps[n].chainWeight >= cfg.threshold
  }

  function LastWrite(hash: Hash, cfg: BadActorConfig, steps: seq<Step>, ip: string): Written {
    if steps == [] then Nothing
    else
      var n := |steps| - 1;
      var before, step := LastWrite(hash, cfg, steps[..n], ip), steps[n];
      match step
      case Block(other, reason, now, duration, _, _) =>
        if other != ip then before
        else if PromotesAt(hash, cfg, steps, n) then BlockRow(before, "bad-actor", now + cfg.blockDuration, now)
        else BlockRow(before, reason, now + duration, now)
      case PeerBadActor(other, _, _, _, _, now) =>
        if other != ip || ip in Run(hash, cfg, steps[..n]).badActors then before
        else BlockRow(before, "bad-actor", now + cfg.blockDuration, now)
      case Clear(other, _) => if other == ip then Nothing else before
      case GoodActor(other, reason, now) =>
        if other == ip then Row(Unblocked, ToUnix(now), reason, ToUnix(now), 0) else before
      case Unblock(other, reason, now) =>
        if other == ip then Row(Unblocked, ToUnix(now), reason, ToUnix(now), 0) else before
      case CleanBlocks(now) =>
        if before.Row? && before.state == Blocked && before.expire < ToUnix(now) then Nothing else before
      case CleanUnblocked(now, retention) =>
        if before.Row? && before.state == Unblocked && before.expire < ToUnix(now - retention) then Nothing else before
      case _ => before
  }

  // A row holds what was written.
  predicate Holds(db: Tables, hash: Hash, ip: string, w: Written) {
    if w == Nothing then ip !in db.ips
    else ip in db.ips && db.ips[ip] == IpRow(w.state, w.expire, hash(w.reason), w.modified, w.first)
  }

  lemma BlockHolds(db: Tables, hash: Hash, cfg: BadActorConfig, step: Step, ip: string, before: Written)
    requires step.Block? && Holds(db, hash, ip, before)
    ensures var w := if step.ip != ip then before
              else if Promotes(db, cfg, ip, step.chainWeight) then
                BlockRow(before, "bad-actor", step.now + cfg.blockDuration, step.now)
              else BlockRow(before, step.reason, step.now + step.duration, step.now);
      Holds(Apply(db, hash, cfg, step), hash, ip, w)
  {
  }

  lemma OtherHolds(db: Tables, hash: Hash, cfg: BadActorConfig, step: Step, ip: string, before: Written)
    requires !step.Block? && Holds(db, hash, ip, before)
    ensures var w := match step {
        case PeerBadActor(other, _, _, _, _, now) =>
          if other != ip || ip in db.badActors then before
          else BlockRow(before, "bad-actor", now + cfg.blockDuration, now)
        case Clear(other, _) => if other == ip then Nothing else before
        case GoodActor(other, reason, now) =>
          if other == ip then Row(Unblocked, ToUnix(now), reason, ToUnix(now), 0) else before
        case Unblock(other, reason, now) =>
          if other == ip then Row(Unblocked, ToUnix(now), reason, ToUnix(now), 0) else before
        case CleanBlocks(now) =>
          if before.Row? && before.state == Blocked && before.expire < ToUnix(now) then Nothing else before
        case CleanUnblocked(now, retention) =>
          if before.Row? && before.state == Unblocked && before.expire < ToUnix(now - retention) then Nothing else before
        case _ => before
      };
      Holds(Apply(db, hash, cfg, step), hash, ip, w)
  {
  }

  lemma PromotesByTally(hash: Hash, cfg: BadActorConfig, steps: seq<Step>, n: nat)
    requires n < |steps| && steps[n].Block?
    ensures PromotesAt(hash, cfg, steps, n) <==>
            Promotes(Run(hash, cfg, steps[..n]), cfg, steps[n].ip, steps[n].chainWeight)
  {
    ScoresAreTallies(hash, cfg, steps[..n]);
  }

  // Over any run, every row is that of the last step that wrote it, and there is none
  // if there was no such step or the row was removed since.
  lemma {:induction false} RowsAreLastWrites(hash: Hash, cfg: BadActorConfig, steps: seq<Step>, ip: string)
    ensures Holds(Run(hash, cfg, steps), hash, ip, LastWrite(hash, cfg, steps, ip))
  {
    if steps != [] {
      var n := |steps| - 1;
      var db, before := Run(hash, cfg, steps[..n]), LastWrite(hash, cfg, steps[..n], ip);
      RowsAreLastWrites(hash, cfg, steps[..n], ip);
      if steps[n].Block? {
        PromotesByTally(hash, cfg, steps, n);
        BlockHolds(db, hash, cfg, steps[n], ip, before);
      } else {
        OtherHolds(db, hash, cfg, steps[n], ip, before);
      }
    }
  }

  // With an injective hash the row reads as the reason that was written.
  lemma RowsReadAsWritten(hash: Hash, cfg: BadActorConfig, steps: seq<Step>, ip: string)
    requires Injective(hash) && ip in Run(hash, cfg, steps).ips
    ensures var db := Run(hash, cfg, steps);
      LastWrite(hash, cfg, steps, ip).Row? && ReadsAs(db, db.ips[ip].reasonId, LastWrite(hash, cfg, steps, ip).reason)
  {
    var db := Run(hash, cfg, steps);
    RowsAreLastWrites(hash, cfg, steps, ip);
    RunsAreSound(hash, cfg, steps);
    TextOf(db, hash, db.ips[ip].reasonId, LastWrite(hash, cfg, steps, ip).reason);
  }

  // ---------------------------------------------------------------- blocks that last

  // The step takes a block off the address: an unblock, a clear, or a clean-up after
  // its expiry.
  predicate Lifts(db: Tables, step: Step, ip: string) {
    match step
    case GoodActor(other, _, _) => other == ip
    case Unblock(other, _, _) => other == ip
    case Clear(other, _) => other == ip
    case CleanBlocks(now) => ip in db.ips && db.ips[ip].expireTime < ToUnix(now)
    case _ => false
  }

  ghost predicate LiftedAt(hash: Hash, cfg: BadActorConfig, steps: seq<Step>, k: nat, ip: string) {
    k < |steps| && Lifts(Run(hash, cfg, steps[..k]), steps[k], ip)
  }

  lemma LiftedInPrefix(hash: Hash, cfg: BadActorConfig, steps: seq<Step>, n: nat, k: nat, ip: string)
    requires k < n <= |steps|
    ensures LiftedAt(hash, cfg, steps[..n], k, ip) <==> LiftedAt(hash, cfg, steps, k, ip)
  {
    assert steps[..n][..k] == steps[..k] && steps[..n][k] == steps[k];
  }

  // An address stays blocked in the tables from a block on until such a step.
  lemma {:induction false} BlockLasts(hash: Hash, cfg: BadActorConfig, steps: seq<Step>, m: nat, ip: string)
    requires m < |steps| && steps[m].Block? && steps[m].ip == ip
    requires forall k :: m < k < |steps| ==> !LiftedAt(hash, cfg, steps, k, ip)
    ensures IsBlockedIp(Run(hash, cfg, steps).ips, ip)
    decreases |steps|
  {
    var n := |steps| - 1;
    var db := Run(hash, cfg, steps[..n]);
    if m < n {
      forall k | m < k < n ensures !LiftedAt(hash, cfg, steps[..n], k, ip) {
        LiftedInPrefix(hash, cfg, steps, n, k, ip);
      }
      BlockLasts(hash, cfg, steps[..n], m, ip);
      assert !LiftedAt(hash, cfg, steps, n, ip);
      StaysBlocked(db, hash, cfg, steps[n], ip);
    } else {
      StartsBlocked(db, hash, cfg, steps[n]);
    }
  }

  lemma StartsBlocked(db: Tables, hash: Hash, cfg: BadActorConfig, step: Step)
    requires step.Block?
    ensures IsBlockedIp(Apply(db, hash, cfg, step).ips, step.ip)
  {
  }

  lemma StaysBlocked(db: Tables, hash: Hash, cfg: BadActorConfig, step: Step, ip: string)
    requires IsBlockedIp(db.ips, ip) && !Lifts(db, step, ip)
    ensures IsBlockedIp(Apply(db, hash, cfg, step).ips, ip)
  {
    match step
    case Block(_, _, _, _, _, _) =>
    case _ =>
  }

  // ---------------------------------------------------------------------- the events

  datatype EventWritten = EventWritten(timestamp: Unix, kind: EventType, ip: string, reason: string, duration: Duration)

  // The event a step writes, if it does.
  function NewEvents(before: Written, step: Step): (r: seq<EventWritten>)
    ensures |r| <= 1
  {
    match step
    case Block(ip, reason, now, duration, _, _) => [EventWritten(ToUnix(now), BlockEvent, ip, reason, duration)]
    case GoodActor(ip, reason, now) => [EventWritten(ToUnix(now), UnblockEvent, ip, reason, 0)]
    case Clear(ip, now) =>
      if before == Nothing then [] else [EventWritten(ToUnix(now), UnblockEvent, ip, "manual_clear", 0)]
    case _ => []
  }

  // What the row of a cleared address was.
  function RowBefore(hash: Hash, cfg: BadActorConfig, steps: seq<Step>): Written
    requires steps != []
  {
    var n := |steps| - 1;
    if steps[n].Clear? then LastWrite(hash, cfg, steps[..n], steps[n].ip) else Nothing
  }

  // The events a run writes, in the order of their ids.
  function EventsWritten(hash: Hash, cfg: BadActorConfig, steps: seq<Step>): seq<EventWritten> {
    if steps == [] then []
    else
      var n := |steps| - 1;
      EventsWritten(hash, cfg, steps[..n]) + NewEvents(RowBefore(hash, cfg, steps), steps[n])
  }

  // The ids left after a step: a clean-up takes those before its horizon, and a new
  // event adds the next one.
  function LeftAfter(left: set<nat>, all: seq<EventWritten>, step: Step, added: nat): set<nat> {
    if step.CleanEvents? then set i | i in left && i < |all| && all[i].timestamp >= ToUnix(step.clock - step.retention)
    else if added == 0 then left
    else left + {|all|}
  }

  // The ids whose events were not cleaned up.
  function EventsLeft(hash: Hash, cfg: BadActorConfig, steps: seq<Step>): set<nat> {
    if steps == [] then {}
    else
      var n := |steps| - 1;
      LeftAfter(EventsLeft(hash, cfg, steps[..n]), EventsWritten(hash, cfg, steps[..n]), steps[n],
                |NewEvents(RowBefore(hash, cfg, steps), steps[n])|)
  }

  function RowOfEvent(hash: Hash, w: EventWritten): EventRow {
    EventRow(w.timestamp, w.kind, w.ip, hash(w.reason), w.duration)
  }

  ghost predicate EventsHold(db: Tables, hash: Hash, all: seq<EventWritten>, left: set<nat>) {
    && db.nextEvent == |all| && db.events.Keys == left
    && forall i :: i in left ==> i < |all| && db.events[i] == RowOfEvent(hash, all[i])
  }

  lemma OneEvent(db: Tables, db1: Tables, hash: Hash, all: seq<EventWritten>, left: set<nat>, w: EventWritten)
    requires EventsHold(db, hash, all, left) && db1.nextEvent == db.nextEvent + 1
    requires db1.events == db.events[db.nextEvent := RowOfEvent(hash, w)]
    ensures EventsHold(db1, hash, all + [w], left + {|all|})
  {
  }

  // What a step does to the events.
  ghost predicate EventsStep(db: Tables, out: Tables, hash: Hash, step: Step, added: seq<EventWritten>) {
    if step.CleanEvents? then
      && added == [] && out.nextEvent == db.nextEvent
      && out.events == map i | i in db.events && db.events[i].timestamp >= ToUnix(step.clock - step.retention) :: db.events[i]
    else if added == [] then out.events == db.events && out.nextEvent == db.nextEvent
    else
      && |added| == 1 && out.nextEvent == db.nextEvent + 1
      && out.events == db.events[db.nextEvent := RowOfEvent(hash, added[0])]
  }

  lemma StepOnEvents(db: Tables, hash: Hash, cfg: BadActorConfig, step: Step, before: Written)
    requires step.Clear? ==> (before == Nothing <==> step.ip !in db.ips)
    ensures EventsStep(db, Apply(db, hash, cfg, step), hash, step, NewEvents(before, step))
  {
    match step
    case Block(ip, reason, now, duration, w, history) =>
      BlockFields(db, hash, cfg, ip, reason, now, duration, w, history);
    case CleanEvents(_, _) =>
    case _ =>
  }

  lemma EventsNext(db: Tables, out: Tables, hash: Hash, step: Step, all: seq<EventWritten>, left: set<nat>,
          added: seq<EventWritten>)
    requires EventsHold(db, hash, all, left) && EventsStep(db, out, hash, step, added)
    ensures EventsHold(out, hash, all + added, LeftAfter(left, all, step, |added|))
  {
    assert all + [] == all;
    if !step.CleanEvents? && added != [] {
      assert added == [added[0]];
      OneEvent(db, out, hash, all, left, added[0]);
    }
  }

  // Over any run, the stored events are exactly those written and not cleaned up, each
  // under its number and as it was written.
  lemma {:induction false} EventsAreWritten(hash: Hash, cfg: BadActorConfig, steps: seq<Step>)
    ensures EventsHold(Run(hash, cfg, steps), hash, EventsWritten(hash, cfg, steps), EventsLeft(hash, cfg, steps))
  {
    if steps != [] {
      var n := |steps| - 1;
      var db := Run(hash, cfg, steps[..n]);
      EventsAreWritten(hash, cfg, steps[..n]);
      if steps[n].Clear? { RowsAreLastWrites(hash, cfg, steps[..n], steps[n].ip); }
      StepOnEvents(db, hash, cfg, steps[n], RowBefore(hash, cfg, steps));
      EventsNext(db, Run(hash, cfg, steps), hash, steps[n], EventsWritten(hash, cfg, steps[..n]),
                 EventsLeft(hash, cfg, steps[..n]), NewEvents(RowBefore(hash, cfg, steps), steps[n]));
    }
  }

  // ------------------------------------------------------------- the time of a score

  // When a weight was last counted for ip.
  function LastCounted(cfg: BadActorConfig, steps: seq<Step>, ip: string): Unix {
    if steps == [] then 0
    else
      var n := |steps| - 1;
      if steps[n].Block? && steps[n].ip == ip && cfg.enabled && steps[n].chainWeight > 0.0 then ToUnix(steps[n].now)
      else LastCounted(cfg, steps[..n], ip)
  }

  // Over any run, a score row shows when its last weight was counted.
  lemma {:induction false} ScoreTimes(hash: Hash, cfg: BadActorConfig, steps: seq<Step>, ip: string)
    requires ip in Run(hash, cfg, steps).scores
    ensures Run(hash, cfg, steps).scores[ip].lastBlockTime == LastCounted(cfg, steps, ip)
  {
    if steps != [] {
      var n := |steps| - 1;
      StepOnScore(Run(hash, cfg, steps[..n]), hash, cfg, steps[n], ip);
      if ip in Run(hash, cfg, steps[..n]).scores { ScoreTimes(hash, cfg, steps[..n], ip); }
    }
  }

  // A stored time is the written one without its fraction of a second; the zero time and
  // the epoch itself both read as none.
  lemma SecondsAreKept(t: Time)
    ensures ToUnix(t) != 0 ==> FromUnix(ToUnix(t)) <= t < FromUnix(ToUnix(t)) + NANOS
    ensures ToUnix(t) == 0 ==> FromUnix(ToUnix(t)) == ZERO_TIME
    ensures forall u: Time :: t <= u && t != ZERO_TIME && u != ZERO_TIME ==> ToUnix(t) <= ToUnix(u)
  {
  }

  // -------------------------------------------------------------------- bad actors

  datatype ActorWritten = NoActor | Listed(row: BadActorRow)

  // The bad actor row an address has: that of the promotion here, with the tally it
  // reached, or that of a peer, until it is removed.
  function ActorOf(hash: Hash, cfg: BadActorConfig, steps: seq<Step>, ip: string): ActorWritten {
    if steps == [] then NoActor
    else
      var n := |steps| - 1;
      var before, step := ActorOf(hash, cfg, steps[..n], ip), steps[n];
      match step
      case Block(other, _, now, _, w, history) =>
        var t := TallyOf(hash, cfg, steps[..n], ip);
        if other == ip && before == NoActor && cfg.enabled && w > 0.0 && t.sum + w >= cfg.threshold then
          Listed(BadActorRow(ToUnix(now), t.sum + w, t.count + 1, history))
        else before
      case PeerBadActor(other, score, count, at, history, _) =>
        if other == ip && before == NoActor then Listed(BadActorRow(ToUnix(at), score, count, history)) else before
      case Remove(ips) => if ip in ips then NoActor else before
      case RemoveAll => NoActor
      case Clear(other, _) => if other == ip then NoActor else before
      case StaleActors =>
        var w := LastWrite(hash, cfg, steps[..n], ip);
        if w.Row? && w.state == Blocked then before else NoActor
      case _ => before
  }

  predicate ActorHolds(db: Tables, ip: string, w: ActorWritten) {
    if w == NoActor then ip !in db.badActors else ip in db.badActors && db.badActors[ip] == w.row
  }

  lemma BlockActor(db: Tables, hash: Hash, cfg: BadActorConfig, step: Step, ip: string)
    requires step.Block?
    ensures var out := Apply(db, hash, cfg, step);
      if step.ip == ip && Promotes(db, cfg, ip, step.chainWeight) then
        ip in out.badActors && out.badActors[ip] ==
          BadActorRow(ToUnix(step.now), (if ip in db.scores then db.scores[ip].score else 0.0) + step.chainWeight,
                      (if ip in db.scores then db.scores[ip].blockCount else 0) + 1, step.history)
      else (ip in out.badActors <==> ip in db.badActors) && (ip in db.badActors ==> out.badActors[ip] == db.badActors[ip])
  {
  }

  // Over any run, the bad actors are exactly those, with these rows.
  lemma {:induction false} ActorsAreWritten(hash: Hash, cfg: BadActorConfig, steps: seq<Step>, ip: string)
    ensures ActorHolds(Run(hash, cfg, steps), ip, ActorOf(hash, cfg, steps, ip))
  {
    if steps != [] {
      var n := |steps| - 1;
      ActorsAreWritten(hash, cfg, steps[..n], ip);
      ScoresAreTallies(hash, cfg, steps[..n]);
      RowsAreLastWrites(hash, cfg, steps[..n], ip);
      ActorNext(hash, cfg, steps, ip);
    }
  }

  lemma ActorNext(hash: Hash, cfg: BadActorConfig, steps: seq<Step>, ip: string)
    requires steps != []
    requires var prior := steps[..|steps| - 1];
      && ActorHolds(Run(hash, cfg, prior), ip, ActorOf(hash, cfg, prior, ip))
      && Holds(Run(hash, cfg, prior), hash, ip, LastWrite(hash, cfg, prior, ip))
      && RowsAreTallies(hash, cfg, prior)
    ensures ActorHolds(Run(hash, cfg, steps), ip, ActorOf(hash, cfg, steps, ip))
  {
    var n := |steps| - 1;
    var db := Run(hash, cfg, steps[..n]);
    var t := TallyOf(hash, cfg, steps[..n], ip);
    assert (ip in db.scores <==> t.count > 0) && (t.count == 0 ==> t.sum == 0.0);
    if steps[n].Block? { BlockActor(db, hash, cfg, steps[n], ip); }
  }
}
