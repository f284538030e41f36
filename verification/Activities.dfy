// What one log entry does to the activity store: the values the checker's
// methods are held to (internal/checker/checker.go, internal/store/store.go).
module Activities {
  import opened LogEntries
  import opened Chains
  import opened ChainKeys

  datatype SkipType = SkipNone | SkipGoodActor | SkipBlocked

  datatype SkipInfo = SkipInfo(kind: SkipType, source: string)

  const NO_SKIP := SkipInfo(SkipNone, "")

  datatype Activity = Activity(
    lastRequestTime: Time,
    blockedUntil: Time,
    lastUnblockTime: Time,
    lastUnblockReason: string,
    chainProgress: map<string, StepState>,
    isBlocked: bool,
    skipInfo: SkipInfo)

  const NEW_ACTIVITY := Activity(ZERO_TIME, ZERO_TIME, ZERO_TIME, "", map[], false, NO_SKIP)

  type Store = map<Actor, Activity>

  // A good actor rule; an absent matcher accepts every entry.
  datatype GoodActorRule = GoodActorRule(
    name: string,
    hasIPMatcher: bool,
    ipMatcher: LogEntry -> bool,
    hasUAMatcher: bool,
    uaMatcher: LogEntry -> bool)

  datatype Config = Config(
    chains: seq<Chain>,
    // Multi-website mode: which chains apply to an entry's vhost.
    multiWebsite: bool,
    globalChains: seq<nat>,
    vhostToWebsite: map<string, string>,
    websiteChains: map<string, seq<nat>>,
    catchAllWebsite: string,
    chainFilter: set<string>,
    goodActors: seq<GoodActorRule>,
    outOfOrderTolerance: Duration,
    unblockOnGoodActor: bool,
    unblockCooldown: Duration,
    persistenceEnabled: bool,
    badActorsEnabled: bool,
    badActorBlockDuration: Duration,
    idleTimeout: Duration,
    maxTimeSinceLastHit: Duration)

  ghost predicate BlocksLast(cfg: Config) {
    forall i :: 0 <= i < |cfg.chains| ==> cfg.chains[i].blockDuration >= 0
  }

  // What configuration loading guarantees, plus names that keep chain keys apart.
  ghost predicate ValidConfig(cfg: Config) {
    && (forall i, j :: 0 <= i < j < |cfg.chains| ==> Apart(cfg.chains[i].name, cfg.chains[j].name))
    && BlocksLast(cfg)
  }

  function Lookup(st: Store, a: Actor): Activity {
    if a in st then st[a] else NEW_ACTIVITY
  }

  // GetOrCreateUnsafe
  function Ensure(st: Store, a: Actor): Store {
    st[a := Lookup(st, a)]
  }

  // GetActor
  function GetActor(chain: Chain, e: LogEntry): Actor {
    var version := e.ip.version;
    var plain := Actor(e.ip, "", e.vhost);
    match chain.matchKey
    case KeyIpv4 => if version != IPv4 then NO_ACTOR else plain
    case KeyIpv6 => if version != IPv6 then NO_ACTOR else plain
    case KeyIpUa => plain.(ua := e.userAgent)
    case KeyIpv4Ua => if version != IPv4 then NO_ACTOR else plain.(ua := e.userAgent)
    case KeyIpv6Ua => if version != IPv6 then NO_ACTOR else plain.(ua := e.userAgent)
    case KeyIp => plain
    case KeyOther => plain
  }

  function ChainKey(chain: Chain, e: LogEntry): string {
    FormatChainKey(chain.name, e.vhost, e.website)
  }

  // The activity that carries an address's block, whatever vhost it was seen on.
  function IpOnly(e: LogEntry): Actor {
    Actor(e.ip, "", "")
  }

  // ------------------------------------------------------ PreCheckActivity

  datatype PreCheck = PreCheck(activity: Activity, skip: bool, info: SkipInfo)

  function PreCheckActivity(now: Time, e: LogEntry, act: Activity): PreCheck {
    if act.skipInfo.kind == SkipGoodActor then PreCheck(act, true, act.skipInfo)
    else if act.isBlocked && now > act.blockedUntil then
      PreCheck(act.(isBlocked := false, skipInfo := NO_SKIP, blockedUntil := ZERO_TIME), false, NO_SKIP)
    else if act.isBlocked then
      var last := if e.timestamp > act.lastRequestTime then e.timestamp else act.lastRequestTime;
      PreCheck(act.(lastRequestTime := last), true, act.skipInfo)
    else PreCheck(act, false, NO_SKIP)
  }

  // A block or a good actor rule keeps the entry from the chains.
  predicate Skipped(now: Time, act: Activity) {
    act.skipInfo.kind == SkipGoodActor || (act.isBlocked && !(now > act.blockedUntil))
  }

  // ------------------------------------------------- handleChainCompletion

  function MarkBlocked(act: Activity, reason: string, until: Time): Activity {
    act.(isBlocked := true, skipInfo := SkipInfo(SkipBlocked, reason), blockedUntil := until)
  }

  // A completed block chain blocks the bare address and the actor that completed it.
  function Complete(now: Time, chain: Chain, e: LogEntry, a: Actor, st: Store): Store
    requires a in st
  {
    if chain.action == Block then
      var reason, until := ChainKey(chain, e), now + chain.blockDuration;
      var st1 := st[IpOnly(e) := MarkBlocked(Lookup(st, IpOnly(e)), reason, until)];
      st1[a := MarkBlocked(st1[a], reason, until)]
    else st
  }

  predicate StopsProcessing(chain: Chain) {
    chain.stopOnMatch && (chain.action == Block || chain.action == Challenge)
  }

  // -------------------------------------------------- ProcessChainForEntry

  function ProgressOf(act: Activity, key: string): StepState {
    if key in act.chainProgress then act.chainProgress[key] else FRESH
  }

  function SetProgress(act: Activity, key: string, state: StepState): Activity {
    act.(chainProgress :=
      if state.currentStep > 0 then act.chainProgress[key := state] else act.chainProgress - {key})
  }

  function AdvanceFor(chain: Chain, e: LogEntry, previous: Time, act: Activity): Outcome {
    Advance(chain, e, previous, ProgressOf(act, ChainKey(chain, e)))
  }

  function ProcessChain(now: Time, chain: Chain, e: LogEntry, a: Actor, previous: Time, st: Store): Store
    requires a in st
  {
    var key := ChainKey(chain, e);
    var out := AdvanceFor(chain, e, previous, st[a]);
    var st1 := if out.completed then Complete(now, chain, e, a, st) else st;
    st1[a := SetProgress(st1[a], key, Stored(out))]
  }

  // --------------------------------------------------- checkChainsInternal

  // One run of one chain against one activity, and the clock it ran at.
  datatype Ran = Ran(
    chain: nat,
    actor: Actor,
    key: string,
    entry: LogEntry,
    now: Time,
    previousRequest: Time,
    completed: bool)

  datatype ChainsResult = ChainsResult(store: Store, ran: seq<Ran>)

  // The chains an entry is checked against, by index.
  function ChainIndices(cfg: Config, e: LogEntry): seq<nat> {
    if !cfg.multiWebsite then seq(|cfg.chains|, i requires 0 <= i => i)
    else if e.vhost in cfg.vhostToWebsite then
      var w := cfg.vhostToWebsite[e.vhost];
      cfg.globalChains + if w in cfg.websiteChains then cfg.websiteChains[w] else []
    else if cfg.catchAllWebsite != "" then
      cfg.globalChains +
      if cfg.catchAllWebsite in cfg.websiteChains then cfg.websiteChains[cfg.catchAllWebsite] else []
    else cfg.globalChains
  }

  predicate FilteredOut(cfg: Config, chain: Chain) {
    cfg.chainFilter != {} && chain.name !in cfg.chainFilter
  }

  // One turn of the loop over applicable chains: the store, and the run if there was one.
  function TryChain(cfg: Config, now: Time, e: LogEntry, i: nat, st: Store): ChainsResult
    requires i < |cfg.chains|
  {
    var chain := cfg.chains[i];
    var a := GetActor(chain, e);
    if FilteredOut(cfg, chain) || a.ip.address == "" then ChainsResult(st, [])
    else
      var act := Lookup(st, a);
      var pre := PreCheckActivity(now, e, act);
      var st1 := st[a := pre.activity];
      if pre.skip then ChainsResult(st1, [])
      else
        var previous := pre.activity.lastRequestTime;
        var completed := AdvanceFor(chain, e, previous, pre.activity).completed;
        ChainsResult(ProcessChain(now, chain, e, a, previous, st1),
                     [Ran(i, a, ChainKey(chain, e), e, now, previous, completed)])
  }

  // Whether a turn ends the loop early.
  predicate Stops(cfg: Config, ran: seq<Ran>) {
    |ran| > 0 && ran[0].completed && ran[0].chain < |cfg.chains| && StopsProcessing(cfg.chains[ran[0].chain])
  }

  function RunChains(cfg: Config, now: Time, e: LogEntry, indices: seq<nat>, st: Store): ChainsResult {
    if indices == [] || indices[0] >= |cfg.chains| then ChainsResult(st, [])
    else
      var first := TryChain(cfg, now, e, indices[0], st);
      if Stops(cfg, first.ran) then first
      else
        Then(first.ran, RunChains(cfg, now, e, indices[1..], first.store))
  }

  // Earlier runs, followed by the rest of the loop.
  function Then(ran: seq<Ran>, rest: ChainsResult): ChainsResult {
    ChainsResult(rest.store, ran + rest.ran)
  }

  function ActorsOf(ran: seq<Ran>): set<Actor> {
    set r | r in ran :: r.actor
  }

  // Every processed activity ends with the entry's timestamp.
  function Stamp(st: Store, actors: set<Actor>, t: Time): Store {
    map a | a in st :: if a in actors then st[a].(lastRequestTime := t) else st[a]
  }

  function CheckEntry(cfg: Config, now: Time, e: LogEntry, st: Store): ChainsResult {
    var result := RunChains(cfg, now, e, ChainIndices(cfg, e), st);
    ChainsResult(Stamp(result.store, ActorsOf(result.ran), e.timestamp), result.ran)
  }

  // ----------------------------------------------------------- CheckChains

  // What the database answers about the entry's address.
  datatype DbView = DbView(isBadActor: bool)

  predicate RuleMatches(rule: GoodActorRule, e: LogEntry) {
    && (rule.hasIPMatcher || rule.hasUAMatcher)
    && (rule.hasIPMatcher ==> rule.ipMatcher(e))
    && (rule.hasUAMatcher ==> rule.uaMatcher(e))
  }

  // The first good actor rule that applies, by position; |rules| if none does.
  function FirstRule(rules: seq<GoodActorRule>, e: LogEntry): (i: nat)
    ensures i <= |rules|
    ensures i < |rules| ==> RuleMatches(rules[i], e)
    ensures forall j :: 0 <= j < i ==> !RuleMatches(rules[j], e)
  {
    if rules == [] || RuleMatches(rules[0], e) then 0 else 1 + FirstRule(rules[1..], e)
  }

  predicate IsGoodActor(cfg: Config, e: LogEntry) {
    FirstRule(cfg.goodActors, e) < |cfg.goodActors|
  }

  function BaseActor(e: LogEntry): Actor {
    Actor(e.ip, "", e.vhost)
  }

  function MarkGood(act: Activity, rule: string): Activity {
    if act.skipInfo.kind == SkipGoodActor then act
    else act.(skipInfo := SkipInfo(SkipGoodActor, rule), isBlocked := false, blockedUntil := ZERO_TIME)
  }

  // Whether a good actor's address is unblocked now.
  predicate ShouldUnblock(cfg: Config, now: Time, isBlocked: bool, lastUnblock: Time) {
    if !isBlocked && lastUnblock != ZERO_TIME then Sub(now, lastUnblock) > cfg.unblockCooldown
    else true
  }

  // The unblock a good actor triggers, as far as it shows in the store.
  function UnblockGood(cfg: Config, now: Time, e: LogEntry, rule: string, st: Store): Store {
    if !cfg.unblockOnGoodActor || cfg.persistenceEnabled then st
    else
      var st1 := Ensure(st, IpOnly(e));
      if ShouldUnblock(cfg, now, false, st1[IpOnly(e)].lastUnblockTime) then
        st1[IpOnly(e) := st1[IpOnly(e)].(lastUnblockTime := now, lastUnblockReason := "good-actor:" + rule)]
      else st1
  }

  // Whether CheckChains hands the entry on, or why not.
  datatype Verdict = Passed | KnownGood | KnownBad | UnderBlock

  // The store it leaves before, and its verdict.
  datatype Gate = Gate(store: Store, verdict: Verdict)

  function CheckGate(cfg: Config, now: Time, e: LogEntry, db: DbView, st: Store): Gate {
    GateOf(cfg, now, e, db, Ensure(st, BaseActor(e)))
  }

  function GateOf(cfg: Config, now: Time, e: LogEntry, db: DbView, st: Store): Gate
    requires BaseActor(e) in st
  {
    var base := BaseActor(e);
    if IsGoodActor(cfg, e) then
      var rule := cfg.goodActors[FirstRule(cfg.goodActors, e)].name;
      PassPreCheck(now, e, UnblockGood(cfg, now, e, rule, st[base := MarkGood(st[base], rule)]))
    else if cfg.persistenceEnabled && cfg.badActorsEnabled && db.isBadActor then
      Gate(st[base := if st[base].isBlocked then st[base]
                      else MarkBlocked(st[base], "bad-actor", now + cfg.badActorBlockDuration)],
           KnownBad)
    else PassPreCheck(now, e, st)
  }

  function VerdictOf(skip: bool, info: SkipInfo): Verdict {
    if !skip then Passed else if info.kind == SkipGoodActor then KnownGood else UnderBlock
  }

  function PassPreCheck(now: Time, e: LogEntry, st: Store): Gate {
    var pre := PreCheckActivity(now, e, Lookup(st, BaseActor(e)));
    Gate(st[BaseActor(e) := pre.activity], VerdictOf(pre.skip, pre.info))
  }

  // ------------------------------------------------------ CleanUpIdleActors

  predicate HasActiveChain(cfg: Config, now: Time, act: Activity) {
    exists key :: key in act.chainProgress
                  && Sub(now, act.chainProgress[key].lastMatchTime) < cfg.idleTimeout
  }

  // The sweep drops an activity that is not blocked, has no recent step, and has
  // been silent for longer than the idle timeout or than any first-step rule needs.
  predicate Swept(cfg: Config, now: Time, act: Activity) {
    var silent := Sub(now, act.lastRequestTime);
    && !act.isBlocked
    && !HasActiveChain(cfg, now, act)
    && (silent > cfg.idleTimeout || (cfg.maxTimeSinceLastHit > 0 && silent > cfg.maxTimeSinceLastHit))
  }

  function Sweep(cfg: Config, now: Time, st: Store): Store {
    map a | a in st && !Swept(cfg, now, st[a]) :: st[a]
  }

  // clearIPFromActivityStore: an API call drops every activity of an address.
  function ClearAddress(address: string, st: Store): Store {
    map a | a in st && a.ip.address != address :: st[a]
  }
}
