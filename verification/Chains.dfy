// One behavioural chain: its steps, its time rules, and what a single log entry
// does to an actor's progress through it (internal/checker/checker.go).
module Chains {
  import opened LogEntries

  // A compiled step: the entry must satisfy every matcher.  A duration that is
  // not positive switches its rule off.
  datatype StepDef = StepDef(
    matchers: seq<LogEntry -> bool>,
    maxDelay: Duration,
    minDelay: Duration,
    minTimeSinceLastHit: Duration)

  datatype Action = Block | Log | Challenge | OtherAction

  datatype MatchKey = KeyIp | KeyIpv4 | KeyIpv6 | KeyIpUa | KeyIpv4Ua | KeyIpv6Ua | KeyOther

  datatype Chain = Chain(
    name: string,
    action: Action,
    blockDuration: Duration,
    matchKey: MatchKey,
    stopOnMatch: bool,
    badActorWeight: real,
    steps: seq<StepDef>)

  datatype StepState = StepState(currentStep: nat, lastMatchTime: Time)

  const FRESH := StepState(0, ZERO_TIME)

  // matchStepFields
  predicate StepMatches(step: StepDef, e: LogEntry) {
    forall i :: 0 <= i < |step.matchers| ==> step.matchers[i](e)
  }

  // checkFirstStepTimeRule: an actor never seen before passes.
  predicate FirstStepTimeRule(step: StepDef, e: LogEntry, previousRequest: Time) {
    step.minTimeSinceLastHit > 0 && previousRequest != ZERO_TIME ==>
      Sub(e.timestamp, previousRequest) > step.minTimeSinceLastHit
  }

  // The delays between two neighbouring steps that do not reset the chain.
  predicate InterStepTimeRules(step: StepDef, sinceLastStep: Duration) {
    && (step.maxDelay > 0 ==> sinceLastStep <= step.maxDelay)
    && (step.minDelay > 0 ==> sinceLastStep >= step.minDelay)
  }

  // What one entry leaves behind: the progress, and whether the chain completed.
  datatype Outcome = Outcome(state: StepState, completed: bool)

  // The body of the step loop of ProcessChainForEntry, including the reset that
  // tries the same entry again as a first step.
  function Advance(chain: Chain, e: LogEntry, previousRequest: Time, state: StepState): Outcome
    decreases state.currentStep
  {
    if state.currentStep >= |chain.steps| then Outcome(state, false)
    else
      var step := chain.steps[state.currentStep];
      if state.currentStep == 0 && !FirstStepTimeRule(step, e, previousRequest) then
        Outcome(state, false)
      else if state.currentStep > 0
           && !InterStepTimeRules(step, Sub(e.timestamp, state.lastMatchTime)) then
        Advance(chain, e, previousRequest, state.(currentStep := 0))
      else if !StepMatches(step, e) then Outcome(state, false)
      else if state.currentStep + 1 == |chain.steps| then Outcome(StepState(0, e.timestamp), true)
      else Outcome(StepState(state.currentStep + 1, e.timestamp), false)
  }

  // Only a chain in progress is stored; everything else is forgotten.
  function Stored(out: Outcome): StepState {
    if out.completed || out.state.currentStep == 0 then FRESH else out.state
  }

  // ------------------------------------------------- one actor, one chain key

  // What happens to the progress kept for one chain key of one activity: an
  // entry is processed against the chain, or the whole activity is dropped.
  datatype Observation =
    | Seen(entry: LogEntry, previousRequest: Time)
    | Forgotten

  function React(chain: Chain, state: StepState, o: Observation): Outcome {
    match o
    case Seen(e, previous) => Advance(chain, e, previous, state)
    case Forgotten => Outcome(FRESH, false)
  }

  // The progress after a whole history.
  function Progress(chain: Chain, history: seq<Observation>): StepState {
    if history == [] then FRESH
    else
      var before := history[..|history| - 1];
      Stored(React(chain, Progress(chain, before), history[|history| - 1]))
  }

  // Whether the chain completes at position i of a history.
  predicate CompletesAt(chain: Chain, history: seq<Observation>, i: nat)
    requires i < |history|
  {
    React(chain, Progress(chain, history[..i]), history[i]).completed
  }

  // How often the chain completed.
  function Completions(chain: Chain, history: seq<Observation>): nat {
    if history == [] then 0
    else
      var n := |history| - 1;
      Completions(chain, history[..n]) + if CompletesAt(chain, history, n) then 1 else 0
  }

  // Stored progress lies strictly between 0 and the chain's length, or is absent.
  predicate InRange(chain: Chain, state: StepState) {
    state == FRESH || 0 < state.currentStep < |chain.steps|
  }

  // One entry keeps progress in range, and completes no chain without steps.
  lemma AdvanceInRange(chain: Chain, e: LogEntry, previous: Time, state: StepState)
    requires InRange(chain, state)
    ensures InRange(chain, Stored(Advance(chain, e, previous, state)))
    ensures Advance(chain, e, previous, state).completed ==> |chain.steps| > 0
  {
  }

  lemma {:induction false} ProgressInRange(chain: Chain, history: seq<Observation>)
    ensures InRange(chain, Progress(chain, history))
  {
    if history != [] {
      var before, last := history[..|history| - 1], history[|history| - 1];
      ProgressInRange(chain, before);
      if last.Seen? {
        AdvanceInRange(chain, last.entry, last.previousRequest, Progress(chain, before));
      }
    }
  }

  // The step loop runs its body at most twice: after a reset the first-step rule
  // applies, and it cannot reset again.
  lemma OneResetSuffices(chain: Chain, e: LogEntry, previous: Time, state: StepState)
    requires 0 < state.currentStep < |chain.steps|
    requires !InterStepTimeRules(chain.steps[state.currentStep], Sub(e.timestamp, state.lastMatchTime))
    ensures var out := Advance(chain, e, previous, state);
            var first := FirstStepTimeRule(chain.steps[0], e, previous) && StepMatches(chain.steps[0], e);
            && !out.completed
            && Stored(out) == if first then StepState(1, e.timestamp) else FRESH
  {
  }
}
