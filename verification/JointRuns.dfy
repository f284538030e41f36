// The checker and the state database in one run: what the checker writes for its
// completed block chains, and what the tables answer the checker.
module JointRuns {
  import opened LogEntries
  import opened Activities
  import opened EntryEffects
  import opened StoreInvariants
  import opened BlockCauses
  import opened RunHistory
  import opened SystemRuns
  import opened Arrivals
  import opened BadActorGate
  import P = Persistence
  import R = StandingRuns
  import S = Scores
  import T = TableRuns

  // story is the text a promotion stores, computed from the tables.
  datatype Env = Env(cfg: Config, hash: P.Hash, threshold: real, story: (P.Tables, string) -> string) {
    function Bad(): P.BadActorConfig {
      P.BadActorConfig(cfg.badActorsEnabled, threshold, cfg.badActorBlockDuration)
    }
  }

  datatype Joint = Joint(system: System, tables: P.Tables)

  const START_JOINT := Joint(START, P.EMPTY)

  // A step of the checker, or one of another writer to the tables.
  datatype Act = Checks(step: Step) | Writes(write: S.Step)

  // A completed run of a block chain, as the database is told of it.
  predicate IsWritten(cfg: Config, ev: Event) {
    cfg.persistenceEnabled && ev.Processed? && IsBlock(cfg, ev.run)
  }

  // executeBlock
  function WriteBlock(env: Env, db: P.Tables, r: Ran): P.Tables
    requires IsBlock(env.cfg, r)
  {
    var chain, ip := env.cfg.chains[r.chain], r.entry.ip.address;
    P.ExecuteBlock(db, env.hash, env.Bad(), ip, r.key, r.now, chain.blockDuration, chain.badActorWeight, Story(env, db, r))
  }

  // The history of a promotion is read behind the block.
  function Story(env: Env, db: P.Tables, r: Ran): string
    requires IsBlock(env.cfg, r)
  {
    var chain, ip := env.cfg.chains[r.chain], r.entry.ip.address;
    env.story(P.BlockIp(db, env.hash, ip, r.now + chain.blockDuration, r.key, r.now, chain.blockDuration,
                        P.Weight(env.Bad(), chain.badActorWeight)), ip)
  }

  // What the events of one step write, in order.
  function WriteEvents(env: Env, db: P.Tables, events: seq<Event>): P.Tables {
    if events == [] then db
    else
      var n := |events| - 1;
      var before := WriteEvents(env, db, events[..n]);
      if IsWritten(env.cfg, events[n]) then WriteBlock(env, before, events[n].run) else before
  }

  // When the address was unblocked, as far as its row tells.
  function LastUnblock(db: P.Tables, ip: string): Time {
    if ip in db.ips && db.ips[ip].state.Unblocked? then P.FromUnix(db.ips[ip].modifiedAt) else ZERO_TIME
  }

  // Whether a good actor's entry unblocks its address in the tables.
  predicate Unblocks(cfg: Config, now: Time, e: LogEntry, db: P.Tables) {
    && cfg.persistenceEnabled && cfg.unblockOnGoodActor && IsGoodActor(cfg, e)
    && ShouldUnblock(cfg, now, P.IsBlockedIp(db.ips, e.ip.address), LastUnblock(db, e.ip.address))
  }

  function WriteUnblock(env: Env, now: Time, e: LogEntry, db: P.Tables): P.Tables {
    if !Unblocks(env.cfg, now, e, db) then db
    else P.UnblockIp(db, env.hash, e.ip.address, UnblockReason(env.cfg, e), now)
  }

  function UnblockReason(cfg: Config, e: LogEntry): string
    requires IsGoodActor(cfg, e)
  {
    "good-actor:" + cfg.goodActors[FirstRule(cfg.goodActors, e)].name
  }

  // The gate asks the tables; the other writers block nobody through a chain and
  // recognise no good actor.
  ghost predicate JointEnabled(j: Joint, act: Act) {
    match act
    case Checks(step) => Enabled(j.system, step) && (step.Arrive? ==> step.db == ViewOf(j.tables, step.entry))
    case Writes(write) => !write.Block? && !write.GoodActor?
  }

  // What a step added to the record.
  function News(s: System, s1: System): seq<Event> {
    if |s.history| <= |s1.history| then s1.history[|s.history|..] else []
  }

  function JointApply(env: Env, j: Joint, act: Act): Joint
    requires act.Checks? && act.step.ProcessHeld? ==> |act.step.clocks| == |act.step.order|
    requires act.Checks? && act.step.Flush? ==> |act.step.clocks| == |j.system.buffer|
  {
    match act
    case Checks(step) =>
      var s1 := Apply(env.cfg, j.system, step);
      var db := if step.Arrive? then WriteUnblock(env, step.now, step.entry, j.tables) else j.tables;
      Joint(s1, WriteEvents(env, db, News(j.system, s1)))
    case Writes(write) => j.(tables := S.Apply(j.tables, env.hash, env.Bad(), write))
  }

  ghost predicate JointLeadsTo(env: Env, before: Joint, act: Act, j: Joint) {
    JointEnabled(before, act) && j == JointApply(env, before, act)
  }

  ghost predicate JointReaches(env: Env, acts: seq<Act>, j: Joint)
    decreases |acts|
  {
    if acts == [] then j == START_JOINT
    else
      var n := |acts| - 1;
      exists before :: JointReaches(env, acts[..n], before) && JointLeadsTo(env, before, acts[n], j)
  }

  // ------------------------------------------------- the checker in a joint run

  function StepsOf(acts: seq<Act>): seq<Step> {
    if acts == [] then []
    else
      var n := |acts| - 1;
      StepsOf(acts[..n]) + if acts[n].Checks? then [acts[n].step] else []
  }

  // The checker of a joint run makes a run of its own, so all that holds of those
  // holds of it.
  lemma {:induction false} CheckerRuns(env: Env, acts: seq<Act>, j: Joint)
    requires JointReaches(env, acts, j)
    ensures Reaches(env.cfg, StepsOf(acts), j.system)
    decreases |acts|
  {
    if acts != [] {
      var n := |acts| - 1;
      var before :| JointReaches(env, acts[..n], before) && JointLeadsTo(env, before, acts[n], j);
      CheckerRuns(env, acts[..n], before);
      if acts[n].Checks? {
        OneMoreStep(env.cfg, StepsOf(acts[..n]), before.system, acts[n].step, j.system);
      } else {
        assert StepsOf(acts[..n]) + [] == StepsOf(acts[..n]);
      }
    }
  }

  // ------------------------------------------------- the tables in a joint run

  // A block of the tables.
  datatype BlockRecord = BlockRecord(ip: string, reason: string, now: Time, duration: Duration, weight: real)

  function BlocksWritten(steps: seq<S.Step>): seq<BlockRecord> {
    if steps == [] then []
    else
      var n := |steps| - 1;
      BlocksWritten(steps[..n]) + match steps[n] {
        case Block(ip, reason, now, duration, weight, _) => [BlockRecord(ip, reason, now, duration, weight)]
        case _ => []
      }
  }

  function RecordOfRun(cfg: Config, r: Ran): BlockRecord
    requires IsBlock(cfg, r)
  {
    var chain := cfg.chains[r.chain];
    BlockRecord(r.entry.ip.address, r.key, r.now, chain.blockDuration, chain.badActorWeight)
  }

  function BlocksRecorded(cfg: Config, history: seq<Event>): seq<BlockRecord> {
    if history == [] then []
    else
      var n := |history| - 1;
      BlocksRecorded(cfg, history[..n])
      + if IsWritten(cfg, history[n]) then [RecordOfRun(cfg, history[n].run)] else []
  }

  lemma {:induction false} RecordedTogether(cfg: Config, history: seq<Event>, more: seq<Event>)
    ensures BlocksRecorded(cfg, history + more) == BlocksRecorded(cfg, history) + BlocksRecorded(cfg, more)
  {
    if more == [] {
      assert history + more == history;
    } else {
      var n := |more| - 1;
      assert (history + more)[..|history| + n] == history + more[..n];
      RecordedTogether(cfg, history, more[..n]);
    }
  }

  // The act is the arrival of an entry of the address that a good actor rule covers.
  predicate Recognises(cfg: Config, act: Act, ip: string) {
    && act.Checks? && act.step.Arrive? && act.step.entry.ip.address == ip
    && cfg.unblockOnGoodActor && IsGoodActor(cfg, act.step.entry)
  }

  // A step is a block, the unblock of a good actor that arrived, or another writer's.
  ghost predicate FromAct(cfg: Config, acts: seq<Act>, step: S.Step) {
    || step.Block?
    || (step.GoodActor? && exists act :: act in acts && Recognises(cfg, act, step.ip))
    || Writes(step) in acts
  }

  ghost predicate FromActs(cfg: Config, acts: seq<Act>, steps: seq<S.Step>) {
    forall i :: 0 <= i < |steps| ==> FromAct(cfg, acts, steps[i])
  }

  function TablesAfter(env: Env, steps: seq<S.Step>): P.Tables {
    S.Run(env.hash, env.Bad(), steps)
  }

  lemma OneMoreWrite(env: Env, acts: seq<Act>, steps: seq<S.Step>, step: S.Step)
    requires FromActs(env.cfg, acts, steps) && FromAct(env.cfg, acts, step)
    ensures TablesAfter(env, steps + [step]) == S.Apply(TablesAfter(env, steps), env.hash, env.Bad(), step)
    ensures FromActs(env.cfg, acts, steps + [step])
    ensures BlocksWritten(steps + [step]) == BlocksWritten(steps) +
      if step.Block? then [BlockRecord(step.ip, step.reason, step.now, step.duration, step.chainWeight)] else []
  {
    assert (steps + [step])[..|steps|] == steps;
  }

  // The blocks of some events are that many steps of the tables.
  lemma {:induction false} EventsAreSteps(env: Env, acts: seq<Act>, steps: seq<S.Step>, events: seq<Event>)
      returns (out: seq<S.Step>)
    requires FromActs(env.cfg, acts, steps)
    ensures TablesAfter(env, out) == WriteEvents(env, TablesAfter(env, steps), events)
    ensures BlocksWritten(out) == BlocksWritten(steps) + BlocksRecorded(env.cfg, events)
    ensures steps <= out && FromActs(env.cfg, acts, out)
  {
    if events == [] {
      out := steps;
    } else {
      var n := |events| - 1;
      var mid := EventsAreSteps(env, acts, steps, events[..n]);
      if IsWritten(env.cfg, events[n]) {
        out := OneBlock(env, acts, mid, events[n].run);
      } else {
        out := mid;
      }
    }
  }

  lemma OneBlock(env: Env, acts: seq<Act>, steps: seq<S.Step>, r: Ran) returns (out: seq<S.Step>)
    requires FromActs(env.cfg, acts, steps) && IsBlock(env.cfg, r)
    ensures TablesAfter(env, out) == WriteBlock(env, TablesAfter(env, steps), r)
    ensures BlocksWritten(out) == BlocksWritten(steps) + [RecordOfRun(env.cfg, r)]
    ensures steps <= out && FromActs(env.cfg, acts, out)
  {
    var chain := env.cfg.chains[r.chain];
    var step := S.Block(r.entry.ip.address, r.key, r.now, chain.blockDuration, chain.badActorWeight,
                        Story(env, TablesAfter(env, steps), r));
    OneMoreWrite(env, acts, steps, step);
    out := steps + [step];
  }

  lemma UnblockIsStep(env: Env, acts: seq<Act>, steps: seq<S.Step>, now: Time, e: LogEntry, db: DbView)
      returns (out: seq<S.Step>)
    requires FromActs(env.cfg, acts, steps) && Checks(Arrive(now, e, db)) in acts
    ensures TablesAfter(env, out) == WriteUnblock(env, now, e, TablesAfter(env, steps))
    ensures BlocksWritten(out) == BlocksWritten(steps)
    ensures steps <= out && FromActs(env.cfg, acts, out)
  {
    out := steps;
    if Unblocks(env.cfg, now, e, TablesAfter(env, steps)) {
      var step := S.GoodActor(e.ip.address, UnblockReason(env.cfg, e), now);
      assert Recognises(env.cfg, Checks(Arrive(now, e, db)), step.ip);
      OneMoreWrite(env, acts, steps, step);
      out := steps + [step];
    }
  }

  // The tables listed ip at some point, by a peer's report or a score at the threshold.
  ghost predicate ListedAt(env: Env, steps: seq<S.Step>, n: nat, ip: string) {
    && n <= |steps|
    && var db := TablesAfter(env, steps[..n]);
       && ip in db.badActors
       && (ip in S.PeerRows(env.hash, env.Bad(), steps[..n]) || db.badActors[ip].totalScore >= env.threshold)
  }

  ghost predicate Listed(env: Env, steps: seq<S.Step>, ip: string) {
    exists n: nat :: ListedAt(env, steps, n, ip)
  }

  // Whoever was turned away as a known bad actor was listed.
  ghost predicate TurnedWereListed(env: Env, steps: seq<S.Step>, history: seq<Event>) {
    forall i :: 0 <= i < |history| && history[i].Turned? && history[i].verdict == KnownBad ==>
      Listed(env, steps, history[i].entry.ip.address)
  }

  lemma StillListed(env: Env, steps: seq<S.Step>, out: seq<S.Step>, ip: string)
    requires Listed(env, steps, ip) && steps <= out
    ensures Listed(env, out, ip)
  {
    var n: nat :| ListedAt(env, steps, n, ip);
    assert out[..n] == steps[..n];
    assert ListedAt(env, out, n, ip);
  }

  lemma AllStillListed(env: Env, steps: seq<S.Step>, out: seq<S.Step>, history: seq<Event>)
    requires TurnedWereListed(env, steps, history) && steps <= out
    ensures TurnedWereListed(env, out, history)
  {
    forall i | 0 <= i < |history| && history[i].Turned? && history[i].verdict == KnownBad
      ensures Listed(env, out, history[i].entry.ip.address)
    {
      StillListed(env, steps, out, history[i].entry.ip.address);
    }
  }

  lemma ListedNow(env: Env, steps: seq<S.Step>, ip: string)
    requires ip in TablesAfter(env, steps).badActors
    ensures Listed(env, steps, ip)
  {
    S.LocalPromotionsAreEarned(env.hash, env.Bad(), steps);
    assert steps[..|steps|] == steps;
    assert ListedAt(env, steps, |steps|, ip);
  }

  // ---------------------------------------------------------- the record grows

  // A step extends the record, and marks as a known bad actor's at most the entry
  // that arrives while the database lists its address.
  ghost predicate Extends(s: System, s1: System, mayBan: LogEntry -> bool) {
    && s.history <= s1.history
    && forall i :: |s.history| <= i < |s1.history| && s1.history[i].Turned? && s1.history[i].verdict == KnownBad ==>
         mayBan(s1.history[i].entry)
  }

  lemma ProcessOneExtends(cfg: Config, now: Time, e: LogEntry, s: System, mayBan: LogEntry -> bool)
    ensures Extends(s, ProcessOne(cfg, now, e, s), mayBan)
  {
    EventsAreRuns(CheckEntry(cfg, now, e, s.store).ran);
  }

  lemma {:induction false} ProcessAllExtends(cfg: Config, clocks: seq<Time>, entries: seq<LogEntry>, s: System,
          mayBan: LogEntry -> bool)
    requires |clocks| == |entries|
    ensures Extends(s, ProcessAll(cfg, clocks, entries, s), mayBan)
  {
    if entries != [] {
      ProcessOneExtends(cfg, clocks[0], entries[0], s, mayBan);
      ProcessAllExtends(cfg, clocks[1..], entries[1..], ProcessOne(cfg, clocks[0], entries[0], s), mayBan);
    }
  }

  lemma GateBans(cfg: Config, now: Time, e: LogEntry, db: DbView, st: Store)
    ensures CheckGate(cfg, now, e, db, st).verdict == KnownBad ==> db.isBadActor
  {
  }

  lemma ArriveExtends(cfg: Config, now: Time, e: LogEntry, db: DbView, s: System, mayBan: LogEntry -> bool)
    requires db.isBadActor ==> mayBan(e)
    ensures Extends(s, ArriveAt(cfg, now, e, db, s), mayBan)
  {
    var gate := CheckGate(cfg, now, e, db, s.store);
    GateBans(cfg, now, e, db, s.store);
    var s1 := s.(store := gate.store, history := s.history + TurnEvents(now, e, gate.verdict));
    if gate.verdict == Passed {
      HandleExtends(cfg, now, e, s1, mayBan);
    }
  }

  lemma HandleExtends(cfg: Config, now: Time, e: LogEntry, s: System, mayBan: LogEntry -> bool)
    ensures Extends(s, HandleOutOfOrder(cfg, now, e, s), mayBan)
  {
    var s1 := s.(handed := s.handed + [e]);
    ProcessOneExtends(cfg, now, e, s1, mayBan);
    ProcessOneExtends(cfg, now, e, s1.(store := Ensure(s.store, IpOnly(e))), mayBan);
  }

  lemma StepExtends(cfg: Config, s: System, step: Step, mayBan: LogEntry -> bool)
    requires Enabled(s, step) && (step.Arrive? && step.db.isBadActor ==> mayBan(step.entry))
    ensures Extends(s, Apply(cfg, s, step), mayBan)
  {
    match step
    case Arrive(now, e, db) => ArriveExtends(cfg, now, e, db, s, mayBan);
    case Tick(_, _) =>
    case ProcessHeld(order, clocks) => ProcessAllExtends(cfg, clocks, order, s.(held := []), mayBan);
    case Flush(clocks) => ProcessAllExtends(cfg, clocks, s.buffer, s.(buffer := []), mayBan);
    case IdleSweep(_) =>
    case ApiClear(_) =>
  }

  // ------------------------------------------------------ both runs are one run

  // The tables are those after a run of steps whose blocks are, in order and in every
  // field, the completed block chains of the checker's record; its other steps are
  // unblocks of good actors and what the other writers did.
  ghost predicate Follows(env: Env, acts: seq<Act>, j: Joint, steps: seq<S.Step>) {
    && j.tables == TablesAfter(env, steps)
    && BlocksWritten(steps) == BlocksRecorded(env.cfg, j.system.history)
    && FromActs(env.cfg, acts, steps)
    && TurnedWereListed(env, steps, j.system.history)
  }

  lemma CheckFollows(env: Env, acts: seq<Act>, before: Joint, step: Step, steps: seq<S.Step>) returns (out: seq<S.Step>)
    requires Follows(env, acts, before, steps) && JointEnabled(before, Checks(step)) && Checks(step) in acts
    ensures Follows(env, acts, JointApply(env, before, Checks(step)), out)
  {
    var s, s1 := before.system, Apply(env.cfg, before.system, step);
    var listed := (e: LogEntry) => e.ip.address in before.tables.badActors;
    StepExtends(env.cfg, s, step, listed);
    assert s1.history == s.history + News(s, s1);
    RecordedTogether(env.cfg, s.history, News(s, s1));
    var mid := steps;
    if step.Arrive? { mid := UnblockIsStep(env, acts, steps, step.now, step.entry, step.db); }
    out := EventsAreSteps(env, acts, mid, News(s, s1));
    NewAreListed(env, steps, out, s, s1, listed);
  }

  lemma NewAreListed(env: Env, steps: seq<S.Step>, out: seq<S.Step>, s: System, s1: System, listed: LogEntry -> bool)
    requires TurnedWereListed(env, steps, s.history) && steps <= out && Extends(s, s1, listed)
    requires forall e :: listed(e) ==> e.ip.address in TablesAfter(env, steps).badActors
    ensures TurnedWereListed(env, out, s1.history)
  {
    AllStillListed(env, steps, out, s.history);
    forall i | |s.history| <= i < |s1.history| && s1.history[i].Turned? && s1.history[i].verdict == KnownBad
      ensures Listed(env, out, s1.history[i].entry.ip.address)
    {
      assert listed(s1.history[i].entry);
      ListedNow(env, steps, s1.history[i].entry.ip.address);
      StillListed(env, steps, out, s1.history[i].entry.ip.address);
    }
  }

  lemma MoreActs(cfg: Config, acts: seq<Act>, more: seq<Act>, steps: seq<S.Step>)
    requires FromActs(cfg, acts, steps) && forall act :: act in acts ==> act in more
    ensures FromActs(cfg, more, steps)
  {
    forall i | 0 <= i < |steps| ensures FromAct(cfg, more, steps[i]) {
      assert FromAct(cfg, acts, steps[i]);
    }
  }

  // In every joint run the tables follow the checker.
  lemma {:induction false} TablesFollowChecker(env: Env, acts: seq<Act>, j: Joint) returns (steps: seq<S.Step>)
    requires JointReaches(env, acts, j)
    ensures Follows(env, acts, j, steps)
    decreases |acts|
  {
    steps := [];
    if acts != [] {
      var n := |acts| - 1;
      var before :| JointReaches(env, acts[..n], before) && JointLeadsTo(env, before, acts[n], j);
      var prior := TablesFollowChecker(env, acts[..n], before);
      MoreActs(env.cfg, acts[..n], acts, prior);
      match acts[n]
      case Checks(step) => steps := CheckFollows(env, acts, before, step, prior);
      case Writes(write) =>
        OneMoreWrite(env, acts, prior, write);
        steps := prior + [write];
        AllStillListed(env, prior, steps, j.system.history);
    }
  }

  // --------------------------------------------------------------- consequences

  // The positive weights of an address among some blocks.
  function Weighed(blocks: seq<BlockRecord>, ip: string): S.Tally {
    if blocks == [] then S.Tally(0.0, 0)
    else
      var n := |blocks| - 1;
      var before, last := Weighed(blocks[..n], ip), blocks[n];
      if last.ip == ip && last.weight > 0.0 then S.Tally(before.sum + last.weight, before.count + 1) else before
  }

  // No step deletes the score row of ip when it comes.
  ghost predicate NeverDeleted(env: Env, steps: seq<S.Step>, ip: string) {
    forall i :: 0 <= i < |steps| ==> !S.Deletes(TablesAfter(env, steps[..i]), steps[i], ip)
  }

  lemma {:induction false} TallyIsWeight(env: Env, steps: seq<S.Step>, ip: string)
    requires env.cfg.badActorsEnabled && NeverDeleted(env, steps, ip)
    ensures S.TallyOf(env.hash, env.Bad(), steps, ip) == Weighed(BlocksWritten(steps), ip)
  {
    if steps != [] {
      var n := |steps| - 1;
      assert forall i :: 0 <= i < n ==> steps[..n][..i] == steps[..i];
      TallyIsWeight(env, steps[..n], ip);
      assert !S.Deletes(TablesAfter(env, steps[..n]), steps[n], ip);
      OneMoreWeight(BlocksWritten(steps[..n]), BlocksWritten(steps), ip);
    }
  }

  lemma OneMoreWeight(prior: seq<BlockRecord>, blocks: seq<BlockRecord>, ip: string)
    requires prior <= blocks && |blocks| <= |prior| + 1
    ensures Weighed(blocks, ip) ==
      if |blocks| == |prior| then Weighed(prior, ip)
      else
        var before, last := Weighed(prior, ip), blocks[|prior|];
        if last.ip == ip && last.weight > 0.0 then S.Tally(before.sum + last.weight, before.count + 1) else before
  {
    assert blocks[..|prior|] == prior;
  }

  // In every joint run, the score of an address whose row was never deleted is the
  // sum of the weights of its completed block chains, and counts them.
  lemma ScoresAreCompletions(env: Env, acts: seq<Act>, j: Joint, ip: string) returns (steps: seq<S.Step>)
    requires JointReaches(env, acts, j) && env.cfg.badActorsEnabled
    ensures Follows(env, acts, j, steps)
    ensures NeverDeleted(env, steps, ip) ==>
      && var t := Weighed(BlocksRecorded(env.cfg, j.system.history), ip);
         && (ip in j.tables.scores <==> t.count > 0)
         && (ip in j.tables.scores ==> j.tables.scores[ip].score == t.sum && j.tables.scores[ip].blockCount == t.count)
  {
    steps := TablesFollowChecker(env, acts, j);
    if NeverDeleted(env, steps, ip) {
      TallyIsWeight(env, steps, ip);
      S.ScoresAreTallies(env.hash, env.Bad(), steps);
    }
  }

  // A write that can delete the score row of ip, or any bad actor by its block.
  predicate MayDelete(write: S.Step, ip: string) {
    match write
    case Remove(ips) => ip in ips
    case RemoveAll => true
    case Clear(other, _) => other == ip
    case CleanLowScores(_, _, _) => true
    case CleanOrphanedScores => true
    case CleanStaleScores(_, _) => true
    case CleanPromotedScores => true
    case StaleActors => true
    case _ => false
  }

  // So in a joint run without clean-ups of scores, an address whose completed block
  // chains weigh as much as the threshold is turned away at its next entry, unless a
  // good actor rule covers it.
  lemma CompletionsTurnAway(env: Env, acts: seq<Act>, j: Joint, now: Time, e: LogEntry)
    requires JointReaches(env, acts, j) && Judged(env.cfg, e)
    requires forall act :: act in acts && act.Writes? ==> !MayDelete(act.write, e.ip.address)
    requires var t := Weighed(BlocksRecorded(env.cfg, j.system.history), e.ip.address);
      t.count > 0 && t.sum >= env.threshold
    ensures TurnedAway(env.cfg, now, e, ViewOf(j.tables, e), j.system)
  {
    var ip := e.ip.address;
    var steps := ScoresAreCompletions(env, acts, j, ip);
    forall i | 0 <= i < |steps|
      ensures !S.Deletes(TablesAfter(env, steps[..i]), steps[i], ip) && !steps[i].StaleActors?
    {
      assert FromAct(env.cfg, acts, steps[i]);
    }
    ThresholdTurnsAway(env.hash, env.Bad(), steps, env.cfg, now, e, j.system);
  }

  // In every joint run without stale-actor clean-ups, an address whose score row is at
  // the threshold is turned away.
  lemma ThresholdInJointRun(env: Env, acts: seq<Act>, j: Joint, now: Time, e: LogEntry)
    requires JointReaches(env, acts, j) && Judged(env.cfg, e)
    requires forall act :: act in acts && act.Writes? ==> !act.write.StaleActors?
    requires var ip := e.ip.address; ip in j.tables.scores && j.tables.scores[ip].score >= env.threshold
    ensures TurnedAway(env.cfg, now, e, ViewOf(j.tables, e), j.system)
  {
    var steps := TablesFollowChecker(env, acts, j);
    forall i | 0 <= i < |steps| ensures !steps[i].StaleActors? {
      assert FromAct(env.cfg, acts, steps[i]);
    }
    ThresholdTurnsAway(env.hash, env.Bad(), steps, env.cfg, now, e, j.system);
  }

  // In every joint run, a blocked activity has a completed block chain behind it that
  // rests on matching entries, or met the gate when the database had its address as a
  // bad actor, by a peer's report or by a score that reached the threshold.
  lemma BlockInJointRunIsEarned(env: Env, acts: seq<Act>, j: Joint, a: Actor) returns (i: nat, steps: seq<S.Step>)
    requires ValidConfig(env.cfg) && JointReaches(env, acts, j)
    requires a in j.system.store && j.system.store[a].isBlocked
    ensures Follows(env, acts, j, steps)
    ensures var act := j.system.store[a];
      || (EarnedAt(env.cfg, j.system.history, i, a, act) && RestsOnEntries(env.cfg, j.system, i))
      || (BannedAt(env.cfg, j.system.history, i, a, act) && Listed(env, steps, a.ip.address))
  {
    CheckerRuns(env, acts, j);
    i := BlockInRunIsEarned(env.cfg, StepsOf(acts), j.system, a);
    steps := TablesFollowChecker(env, acts, j);
  }

  // ------------------------------------------------------- blocks in the tables

  lemma {:induction false} BlockOfStep(steps: seq<S.Step>, b: BlockRecord) returns (m: nat)
    requires b in BlocksWritten(steps)
    ensures m < |steps| && steps[m].Block?
    ensures b == BlockRecord(steps[m].ip, steps[m].reason, steps[m].now, steps[m].duration, steps[m].chainWeight)
  {
    var n := |steps| - 1;
    if b in BlocksWritten(steps[..n]) {
      m := BlockOfStep(steps[..n], b);
    } else {
      m := n;
    }
  }

  lemma {:induction false} RecordedIsListed(cfg: Config, history: seq<Event>, i: nat)
    requires i < |history| && IsWritten(cfg, history[i])
    ensures RecordOfRun(cfg, history[i].run) in BlocksRecorded(cfg, history)
  {
    var n := |history| - 1;
    if i < n {
      assert history[..n][i] == history[i];
      RecordedIsListed(cfg, history[..n], i);
    }
  }

  // In every joint run, a recorded completion of a block chain is a block of the tables
  // with its address, reason, clock and duration, and the address stays blocked there
  // until a step lifts it: an unblock, a clear, or a clean-up after the expiry.
  lemma CompletionBlocksAddress(env: Env, acts: seq<Act>, j: Joint, i: nat) returns (steps: seq<S.Step>, m: nat)
    requires JointReaches(env, acts, j) && i < |j.system.history| && IsWritten(env.cfg, j.system.history[i])
    ensures Follows(env, acts, j, steps) && m < |steps| && steps[m].Block?
    ensures RecordOfRun(env.cfg, j.system.history[i].run) ==
            BlockRecord(steps[m].ip, steps[m].reason, steps[m].now, steps[m].duration, steps[m].chainWeight)
    ensures (forall k :: m < k < |steps| ==> !T.LiftedAt(env.hash, env.Bad(), steps, k, steps[m].ip)) ==>
            P.IsBlockedIp(j.tables.ips, steps[m].ip)
  {
    steps := TablesFollowChecker(env, acts, j);
    RecordedIsListed(env.cfg, j.system.history, i);
    m := BlockOfStep(steps, RecordOfRun(env.cfg, j.system.history[i].run));
    if forall k :: m < k < |steps| ==> !T.LiftedAt(env.hash, env.Bad(), steps, k, steps[m].ip) {
      T.BlockLasts(env.hash, env.Bad(), steps, m, steps[m].ip);
    }
  }

  // An act that can take a block off the address.
  predicate MayLift(cfg: Config, act: Act, ip: string) {
    match act
    case Checks(_) => Recognises(cfg, act, ip)
    case Writes(write) =>
      match write {
        case GoodActor(other, _, _) => other == ip
        case Unblock(other, _, _) => other == ip
        case Clear(other, _) => other == ip
        case CleanBlocks(_) => true
        case _ => false
      }
  }

  // So where nobody unblocks or clears an address, no good actor shows up there and
  // expired blocks are not cleaned up, every address with a recorded completion has a
  // blocked row.
  lemma CompletionsStayBlocked(env: Env, acts: seq<Act>, j: Joint, i: nat)
    requires JointReaches(env, acts, j) && i < |j.system.history| && IsWritten(env.cfg, j.system.history[i])
    requires forall act :: act in acts ==> !MayLift(env.cfg, act, j.system.history[i].run.entry.ip.address)
    ensures P.IsBlockedIp(j.tables.ips, j.system.history[i].run.entry.ip.address)
  {
    var steps, m := CompletionBlocksAddress(env, acts, j, i);
    forall k | m < k < |steps| ensures !T.LiftedAt(env.hash, env.Bad(), steps, k, steps[m].ip) {
      assert FromAct(env.cfg, acts, steps[k]);
      NotLifted(env, acts, steps, k, steps[m].ip);
    }
  }

  lemma NotLifted(env: Env, acts: seq<Act>, steps: seq<S.Step>, k: nat, ip: string)
    requires k < |steps| && FromAct(env.cfg, acts, steps[k])
    requires forall act :: act in acts ==> !MayLift(env.cfg, act, ip)
    ensures !T.LiftedAt(env.hash, env.Bad(), steps, k, ip)
  {
    if Writes(steps[k]) in acts {
      assert !MayLift(env.cfg, Writes(steps[k]), ip);
    }
  }

  // Whom a good actor's arrival unblocks in the tables: a blocked address always, one
  // without a row at once, and one already unblocked again after the cooldown.
  lemma UnblocksExactly(cfg: Config, now: Time, e: LogEntry, db: P.Tables)
    ensures var ip := e.ip.address;
      Unblocks(cfg, now, e, db) <==>
        && cfg.persistenceEnabled && cfg.unblockOnGoodActor && IsGoodActor(cfg, e)
        && (|| ip !in db.ips
            || db.ips[ip].state.Blocked?
            || db.ips[ip].modifiedAt == 0
            || P.FromUnix(db.ips[ip].modifiedAt) == ZERO_TIME
            || Sub(now, P.FromUnix(db.ips[ip].modifiedAt)) > cfg.unblockCooldown)
  {
  }

  // The arrival of a good actor leaves its address unblocked in the tables, where that
  // is configured, whatever the state was before.
  lemma GoodActorIsUnblocked(env: Env, j: Joint, now: Time, e: LogEntry)
    requires env.cfg.persistenceEnabled && env.cfg.unblockOnGoodActor && IsGoodActor(env.cfg, e)
    ensures !P.IsBlockedIp(JointApply(env, j, Checks(Arrive(now, e, ViewOf(j.tables, e)))).tables.ips, e.ip.address)
  {
    var s1 := ArriveAt(env.cfg, now, e, ViewOf(j.tables, e), j.system);
    R.GoodActorsAreTurnedAway(env.cfg, now, e, ViewOf(j.tables, e), j.system, FirstRule(env.cfg.goodActors, e));
    var news := News(j.system, s1);
    assert news == [Turned(now, e, KnownGood)];
    var db := WriteUnblock(env, now, e, j.tables);
    assert news[..0] == [] && WriteEvents(env, db, news) == db;
  }
}
