// Exactly when a chain is under way or completes, by positions of a history: what a
// mismatch, a match, a missed delay and a new start do to the stored progress.
module Tracking {
  import opened LogEntries
  import opened Chains
  import opened Detection

  // ------------------------------------------------------- one more entry

  // Step k is due since `last`: the entry keeps the delays of the step.
  predicate InTime(chain: Chain, k: nat, o: Observation, last: Time) {
    k < |chain.steps| && o.Seen? && InterStepTimeRules(chain.steps[k], Sub(o.entry.timestamp, last))
  }

  predicate Matches(chain: Chain, k: nat, o: Observation) {
    k < |chain.steps| && o.Seen? && StepMatches(chain.steps[k], o.entry)
  }

  // The entry would start the chain.
  predicate Opens(chain: Chain, o: Observation) {
    Matches(chain, 0, o) && FirstStepTimeRule(chain.steps[0], o.entry, o.previousRequest)
  }

  // Nothing is under way at the entry, or what is misses its delays.
  predicate Anew(chain: Chain, state: StepState, o: Observation) {
    state.currentStep == 0 || (o.Seen? && !InTime(chain, state.currentStep, o, state.lastMatchTime))
  }

  // The progress before position n, and after it.
  function Before(chain: Chain, history: seq<Observation>, n: nat): StepState
    requires n <= |history|
  {
    Progress(chain, history[..n])
  }

  lemma NextProgress(chain: Chain, history: seq<Observation>, n: nat)
    requires n < |history|
    ensures var out := React(chain, Before(chain, history, n), history[n]);
            && Before(chain, history, n + 1) == Stored(out)
            && CompletesAt(chain, history, n) == out.completed
            && InRange(chain, Before(chain, history, n))
  {
    assert history[..n + 1][..n] == history[..n] && history[..n + 1][n] == history[n];
    ProgressInRange(chain, history[..n]);
  }

  // An entry inside the delays that does not match the due step changes nothing.
  lemma MismatchWaits(chain: Chain, history: seq<Observation>, n: nat)
    requires n < |history|
    requires var state := Before(chain, history, n);
             && state.currentStep > 0 && InTime(chain, state.currentStep, history[n], state.lastMatchTime)
             && !Matches(chain, state.currentStep, history[n])
    ensures Before(chain, history, n + 1) == Before(chain, history, n) && !CompletesAt(chain, history, n)
  {
    NextProgress(chain, history, n);
  }

  // One that matches it takes the chain one step further, or completes it.
  lemma MatchAdvances(chain: Chain, history: seq<Observation>, n: nat)
    requires n < |history|
    requires var state := Before(chain, history, n);
             && state.currentStep > 0 && InTime(chain, state.currentStep, history[n], state.lastMatchTime)
             && Matches(chain, state.currentStep, history[n])
    ensures var k := Before(chain, history, n).currentStep + 1;
            && (CompletesAt(chain, history, n) <==> k == |chain.steps|)
            && Before(chain, history, n + 1) ==
               if k == |chain.steps| then FRESH else StepState(k, history[n].entry.timestamp)
  {
    NextProgress(chain, history, n);
  }

  // Where the chain starts anew, it starts with this very entry or not at all.
  lemma AnewOpensOrNot(chain: Chain, history: seq<Observation>, n: nat)
    requires n < |history| && Anew(chain, Before(chain, history, n), history[n])
    ensures var opens := Opens(chain, history[n]);
            && (CompletesAt(chain, history, n) <==> opens && |chain.steps| == 1)
            && Before(chain, history, n + 1) ==
               if opens && |chain.steps| > 1 then StepState(1, history[n].entry.timestamp) else FRESH
  {
    NextProgress(chain, history, n);
    var state, o := Before(chain, history, n), history[n];
    if o.Seen? && state.currentStep > 0 {
      OneResetSuffices(chain, o.entry, o.previousRequest, state);
    }
  }

  // A dropped activity has no progress.
  lemma DropForgets(chain: Chain, history: seq<Observation>, n: nat)
    requires n < |history| && history[n].Forgotten?
    ensures Before(chain, history, n + 1) == FRESH && !CompletesAt(chain, history, n)
  {
    NextProgress(chain, history, n);
  }

  // ------------------------------------------------------------ whole passes

  // All entries after the one at `from`, up to `end`, wait for step k.
  ghost predicate WaitFor(chain: Chain, history: seq<Observation>, k: nat, from: nat, end: nat)
    requires from < |history| && end <= |history| && history[from].Seen?
  {
    forall j :: from < j < end ==>
      InTime(chain, k, history[j], history[from].entry.timestamp) && !Matches(chain, k, history[j])
  }

  // picks are the entries of one pass through the chain: it starts anew at the first,
  // each next one comes in time for its step, and what lies between matches nothing
  // that is due.
  ghost predicate Tracked(chain: Chain, history: seq<Observation>, picks: seq<nat>) {
    && picks != [] && Detected(chain, history, picks)
    && Anew(chain, Before(chain, history, picks[0]), history[picks[0]])
    && forall i :: 0 <= i < |picks| - 1 ==> WaitFor(chain, history, i + 1, picks[i], picks[i + 1])
  }

  // ... and the history ends while the next step is due.
  ghost predicate UnderWay(chain: Chain, history: seq<Observation>, picks: seq<nat>) {
    && Tracked(chain, history, picks) && |picks| < |chain.steps|
    && WaitFor(chain, history, |picks|, picks[|picks| - 1], |history|)
  }

  ghost predicate Finishes(chain: Chain, history: seq<Observation>, picks: seq<nat>, n: nat) {
    Tracked(chain, history, picks) && |picks| == |chain.steps| && picks[|picks| - 1] == n
  }

  ghost predicate FinishesLast(chain: Chain, history: seq<Observation>, picks: seq<nat>) {
    history != [] && Finishes(chain, history, picks, |history| - 1)
  }

  lemma {:induction false} Waiting(chain: Chain, history: seq<Observation>, k: nat, from: nat, end: nat)
    requires from < end <= |history| && history[from].Seen? && 0 < k
    requires WaitFor(chain, history, k, from, end)
    requires Before(chain, history, from + 1) == StepState(k, history[from].entry.timestamp)
    ensures Before(chain, history, end) == StepState(k, history[from].entry.timestamp)
    decreases end
  {
    if end > from + 1 {
      Waiting(chain, history, k, from, end - 1);
      MismatchWaits(chain, history, end - 1);
    }
  }

  // Such a pass takes the chain as far as it goes: no entry of it is missed.
  lemma {:induction false} TrackedAdvances(chain: Chain, history: seq<Observation>, picks: seq<nat>)
    requires Tracked(chain, history, picks)
    ensures var n := picks[|picks| - 1];
            && (CompletesAt(chain, history, n) <==> |picks| == |chain.steps|)
            && (|picks| < |chain.steps| ==>
                  Before(chain, history, n + 1) == StepState(|picks|, history[n].entry.timestamp))
    decreases |picks|
  {
    var k := |picks| - 1;
    if k == 0 {
      AnewOpensOrNot(chain, history, picks[0]);
    } else {
      PrefixIsTracked(chain, history, picks, k);
      TrackedAdvances(chain, history, picks[..k]);
      NextPick(chain, history, picks);
    }
  }

  lemma NextPick(chain: Chain, history: seq<Observation>, picks: seq<nat>)
    requires Tracked(chain, history, picks) && |picks| > 1
    requires var k := |picks| - 1;
             Before(chain, history, picks[k - 1] + 1) == StepState(k, history[picks[k - 1]].entry.timestamp)
    ensures var n := picks[|picks| - 1];
            && (CompletesAt(chain, history, n) <==> |picks| == |chain.steps|)
            && (|picks| < |chain.steps| ==>
                  Before(chain, history, n + 1) == StepState(|picks|, history[n].entry.timestamp))
  {
    var k := |picks| - 1;
    assert WaitFor(chain, history, k, picks[k - 1], picks[k]);
    Waiting(chain, history, k, picks[k - 1], picks[k]);
    assert InTime(chain, k, history[picks[k]], history[picks[k - 1]].entry.timestamp);
    MatchAdvances(chain, history, picks[k]);
  }

  lemma PrefixIsTracked(chain: Chain, history: seq<Observation>, picks: seq<nat>, k: nat)
    requires Tracked(chain, history, picks) && 0 < k <= |picks|
    ensures Tracked(chain, history, picks[..k])
  {
    var prior := picks[..k];
    forall i | 0 <= i < |prior| - 1 ensures WaitFor(chain, history, i + 1, prior[i], prior[i + 1]) {
      assert WaitFor(chain, history, i + 1, picks[i], picks[i + 1]);
    }
  }

  lemma UnderWayProgress(chain: Chain, history: seq<Observation>, picks: seq<nat>)
    requires UnderWay(chain, history, picks)
    ensures Progress(chain, history) == StepState(|picks|, history[picks[|picks| - 1]].entry.timestamp)
  {
    TrackedAdvances(chain, history, picks);
    Waiting(chain, history, |picks|, picks[|picks| - 1], |history|);
    assert history[..|history|] == history;
  }

  // ------------------------------------------------- every progress has its pass

  // Positions read the same in a longer history.
  lemma TrackedInPrefix(chain: Chain, history: seq<Observation>, n: nat, picks: seq<nat>)
    requires n <= |history| && Tracked(chain, history[..n], picks)
    ensures Tracked(chain, history, picks)
  {
    DetectedInPrefix(chain, history, n, picks);
    assert history[..n][..picks[0]] == history[..picks[0]];
    forall i | 0 <= i < |picks| - 1 ensures WaitFor(chain, history, i + 1, picks[i], picks[i + 1]) {
      assert WaitFor(chain, history[..n], i + 1, picks[i], picks[i + 1]);
    }
  }

  // The last entry is the next of the pass.
  lemma TrackedNext(chain: Chain, history: seq<Observation>, prior: seq<nat>)
    requires history != []
    requires var n := |history| - 1;
             && UnderWay(chain, history[..n], prior)
             && InTime(chain, |prior|, history[n], history[prior[|prior| - 1]].entry.timestamp)
             && Matches(chain, |prior|, history[n])
    ensures Tracked(chain, history, prior + [|history| - 1])
  {
    var n, k := |history| - 1, |prior|;
    var picks := prior + [n];
    TrackedInPrefix(chain, history, n, prior);
    PickNext(chain, history, prior, history[prior[k - 1]].entry.timestamp);
    forall i | 0 <= i < |picks| - 1 ensures WaitFor(chain, history, i + 1, picks[i], picks[i + 1]) {
      if i < k - 1 {
        assert WaitFor(chain, history, i + 1, prior[i], prior[i + 1]);
      } else {
        assert WaitFor(chain, history[..n], k, prior[k - 1], n);
      }
    }
  }

  // The last entry leaves the pass as it was.
  lemma WaitsOn(chain: Chain, history: seq<Observation>, prior: seq<nat>)
    requires history != []
    requires var n := |history| - 1;
             && UnderWay(chain, history[..n], prior)
             && InTime(chain, |prior|, history[n], history[prior[|prior| - 1]].entry.timestamp)
             && !Matches(chain, |prior|, history[n])
    ensures UnderWay(chain, history, prior)
  {
    var n := |history| - 1;
    TrackedInPrefix(chain, history, n, prior);
    assert WaitFor(chain, history[..n], |prior|, prior[|prior| - 1], n);
  }

  lemma OpensTracked(chain: Chain, history: seq<Observation>, n: nat)
    requires n < |history| && Anew(chain, Before(chain, history, n), history[n]) && Opens(chain, history[n])
    ensures Tracked(chain, history, [n])
  {
  }

  lemma {:induction false} PassOf(chain: Chain, history: seq<Observation>) returns (picks: seq<nat>)
    requires Progress(chain, history).currentStep > 0
    ensures UnderWay(chain, history, picks) && |picks| == Progress(chain, history).currentStep
  {
    var n := |history| - 1;
    var state, o := Before(chain, history, n), history[n];
    assert history[..n + 1] == history;
    NextProgress(chain, history, n);
    if Anew(chain, state, o) {
      AnewOpensOrNot(chain, history, n);
      OpensTracked(chain, history, n);
      picks := [n];
    } else {
      var prior := PassOf(chain, history[..n]);
      UnderWayProgress(chain, history[..n], prior);
      if Matches(chain, state.currentStep, o) {
        MatchAdvances(chain, history, n);
        TrackedNext(chain, history, prior);
        picks := prior + [n];
      } else {
        WaitsOn(chain, history, prior);
        picks := prior;
      }
    }
  }

  lemma LastCompletes(chain: Chain, history: seq<Observation>) returns (picks: seq<nat>)
    requires history != [] && CompletesAt(chain, history, |history| - 1)
    ensures Finishes(chain, history, picks, |history| - 1)
  {
    var n := |history| - 1;
    var state, o := Before(chain, history, n), history[n];
    NextProgress(chain, history, n);
    if Anew(chain, state, o) {
      AnewOpensOrNot(chain, history, n);
      OpensTracked(chain, history, n);
      picks := [n];
    } else {
      var prior := PassOf(chain, history[..n]);
      UnderWayProgress(chain, history[..n], prior);
      if !Matches(chain, state.currentStep, o) { MismatchWaits(chain, history, n); }
      MatchAdvances(chain, history, n);
      TrackedNext(chain, history, prior);
      picks := prior + [n];
    }
  }

  lemma PassOfCompletion(chain: Chain, history: seq<Observation>, n: nat) returns (picks: seq<nat>)
    requires n < |history| && CompletesAt(chain, history, n)
    ensures Finishes(chain, history, picks, n)
  {
    var upto := history[..n + 1];
    assert upto[..n] == history[..n] && upto[n] == history[n];
    picks := LastCompletes(chain, upto);
    TrackedInPrefix(chain, history, n + 1, picks);
  }

  // For every chain and history: the progress is k exactly if some pass of k entries
  // is under way.
  lemma ProgressExactly(chain: Chain, history: seq<Observation>, k: nat)
    requires k > 0
    ensures Progress(chain, history).currentStep == k <==> exists picks :: UnderWay(chain, history, picks) && |picks| == k
  {
    if Progress(chain, history).currentStep == k {
      var picks := PassOf(chain, history);
    }
    forall picks | UnderWay(chain, history, picks) && |picks| == k ensures Progress(chain, history).currentStep == k {
      UnderWayProgress(chain, history, picks);
    }
  }

  // The chain completes at an entry exactly if that entry finishes a pass.
  lemma CompletesExactly(chain: Chain, history: seq<Observation>, n: nat)
    requires n < |history|
    ensures CompletesAt(chain, history, n) <==> exists picks :: Finishes(chain, history, picks, n)
  {
    if CompletesAt(chain, history, n) {
      var picks := PassOfCompletion(chain, history, n);
    }
    forall picks | Finishes(chain, history, picks, n) ensures CompletesAt(chain, history, n) {
      TrackedAdvances(chain, history, picks);
    }
  }

  // A step is in time up to and including its greatest delay and from its least one
  // on; the first step only beyond its least silence.
  lemma DelayBounds(step: StepDef, d: Duration, e: LogEntry, previous: Time)
    ensures step.maxDelay > 0 && step.minDelay <= 0 ==> (InterStepTimeRules(step, d) <==> !(d > step.maxDelay))
    ensures step.minDelay > 0 && step.maxDelay <= 0 ==> (InterStepTimeRules(step, d) <==> !(d < step.minDelay))
    ensures step.minDelay > 0 && step.maxDelay > 0 ==>
      (InterStepTimeRules(step, d) <==> !(d < step.minDelay) && !(step.maxDelay < d))
    ensures step.minDelay <= 0 && step.maxDelay <= 0 ==> InterStepTimeRules(step, d)
    ensures !FirstStepTimeRule(step, e, previous) <==>
      step.minTimeSinceLastHit > 0 && previous != ZERO_TIME && Sub(e.timestamp, previous) <= step.minTimeSinceLastHit
  {
  }
}
