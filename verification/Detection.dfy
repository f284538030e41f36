// Whatever the time rules are, progress and completion always rest on entries of
// that actor that match the steps in order and keep every rule.
module Detection {
  import opened LogEntries
  import opened Chains

  // picks are positions of entries that match the chain's first |picks| steps in
  // order: the first-step rule held at the first, every delay between neighbours.
  ghost predicate Detected(chain: Chain, history: seq<Observation>, picks: seq<nat>) {
    && |picks| <= |chain.steps|
    && (forall i :: 0 <= i < |picks| ==>
          && picks[i] < |history|
          && history[picks[i]].Seen?
          && StepMatches(chain.steps[i], history[picks[i]].entry))
    && (forall i, j :: 0 <= i < j < |picks| ==> picks[i] < picks[j])
    && (picks != [] ==>
          FirstStepTimeRule(chain.steps[0], history[picks[0]].entry, history[picks[0]].previousRequest))
    && (forall i :: 1 <= i < |picks| ==>
          InterStepTimeRules(chain.steps[i],
                             Sub(history[picks[i]].entry.timestamp, history[picks[i - 1]].entry.timestamp)))
  }

  // From position i on, the activity was not dropped and the chain did not complete.
  ghost predicate Undisturbed(chain: Chain, history: seq<Observation>, i: nat) {
    forall j :: i <= j < |history| ==> history[j].Seen? && !CompletesAt(chain, history, j)
  }

  // Positions read the same in a longer history.
  lemma DetectedInPrefix(chain: Chain, history: seq<Observation>, n: nat, picks: seq<nat>)
    requires n <= |history| && Detected(chain, history[..n], picks)
    ensures Detected(chain, history, picks)
  {
  }

  lemma UndisturbedInPrefix(chain: Chain, history: seq<Observation>, n: nat, i: nat)
    requires n + 1 == |history| && Undisturbed(chain, history[..n], i)
    requires history[n].Seen? && !CompletesAt(chain, history, n)
    ensures Undisturbed(chain, history, i)
  {
    forall j | i <= j < n ensures history[j].Seen? && !CompletesAt(chain, history, j) {
      assert history[..n][..j] == history[..j];
      assert !CompletesAt(chain, history[..n], j);
      assert history[..n][j] == history[j];
    }
  }

  // An entry that takes the chain further matches the step that was due.
  lemma DueStep(chain: Chain, e: LogEntry, previous: Time, state: StepState)
    requires var k := state.currentStep;
             k < |chain.steps| && (k > 0 ==> InterStepTimeRules(chain.steps[k], Sub(e.timestamp, state.lastMatchTime)))
    requires var out := Advance(chain, e, previous, state);
             out.completed || (out.state != state && out.state.currentStep > 0)
    ensures var k, out := state.currentStep, Advance(chain, e, previous, state);
            && StepMatches(chain.steps[k], e)
            && (k == 0 ==> FirstStepTimeRule(chain.steps[0], e, previous))
            && (out.completed <==> k + 1 == |chain.steps|)
            && (!out.completed ==> out.state == StepState(k + 1, e.timestamp))
  {
  }

  // The last entry is the next pick.
  lemma PickNext(chain: Chain, history: seq<Observation>, prior: seq<nat>, last: Time)
    requires history != [] && history[|history| - 1].Seen?
    requires Detected(chain, history, prior) && |prior| < |chain.steps|
    requires forall i :: 0 <= i < |prior| ==> prior[i] < |history| - 1
    requires prior != [] ==> history[prior[|prior| - 1]].entry.timestamp == last
    requires var o, k := history[|history| - 1], |prior|;
             && StepMatches(chain.steps[k], o.entry)
             && (k == 0 ==> FirstStepTimeRule(chain.steps[0], o.entry, o.previousRequest))
             && (k > 0 ==> InterStepTimeRules(chain.steps[k], Sub(o.entry.timestamp, last)))
    ensures Detected(chain, history, prior + [|history| - 1])
  {
  }

  // The last entry extended the progress, or started it over.
  lemma Extend(chain: Chain, history: seq<Observation>, prior: seq<nat>) returns (picks: seq<nat>)
    requires history != [] && history[|history| - 1].Seen?
    requires var n := |history| - 1;
             var state := Progress(chain, history[..n]);
             && Detected(chain, history, prior) && |prior| == state.currentStep < |chain.steps|
             && (forall i :: 0 <= i < |prior| ==> prior[i] < n)
             && (prior != [] ==> history[prior[|prior| - 1]].entry.timestamp == state.lastMatchTime)
             && var out := React(chain, state, history[n]);
                out.completed || (out.state != state && out.state.currentStep > 0)
    ensures var n := |history| - 1;
            var out := React(chain, Progress(chain, history[..n]), history[n]);
            && picks != [] && picks[|picks| - 1] == n
            && Detected(chain, history, picks)
            && |picks| == (if out.completed then |chain.steps| else out.state.currentStep)
            && (picks == [n] || picks == prior + [n])
            && (!out.completed ==> out.state.lastMatchTime == history[n].entry.timestamp)
  {
    var n := |history| - 1;
    var state := Progress(chain, history[..n]);
    var e, previous := history[n].entry, history[n].previousRequest;
    if state.currentStep > 0
       && !InterStepTimeRules(chain.steps[state.currentStep], Sub(e.timestamp, state.lastMatchTime)) {
      OneResetSuffices(chain, e, previous, state);
      PickNext(chain, history, [], e.timestamp);
      picks := [] + [n];
    } else {
      DueStep(chain, e, previous, state);
      PickNext(chain, history, prior, state.lastMatchTime);
      picks := prior + [n];
    }
  }

  // picks are the entries behind the stored progress.  They were all processed since
  // the activity was last dropped and since the chain last completed.
  ghost predicate Rests(chain: Chain, history: seq<Observation>, picks: seq<nat>) {
    var state := Progress(chain, history);
    && Detected(chain, history, picks)
    && |picks| == state.currentStep
    && (picks != [] ==>
          && history[picks[|picks| - 1]].entry.timestamp == state.lastMatchTime
          && Undisturbed(chain, history, picks[0]))
  }

  // What rested on picks before the last entry, seen from after it.
  lemma RestedBefore(chain: Chain, history: seq<Observation>, prior: seq<nat>)
    requires history != []
    requires var n := |history| - 1;
             Rests(chain, history[..n], prior) && history[n].Seen? && !CompletesAt(chain, history, n)
    ensures var n := |history| - 1;
            && Detected(chain, history, prior)
            && (forall i :: 0 <= i < |prior| ==> prior[i] < n)
            && (prior != [] ==>
                  && history[prior[|prior| - 1]].entry.timestamp == Progress(chain, history[..n]).lastMatchTime
                  && Undisturbed(chain, history, prior[0]))
  {
    var n := |history| - 1;
    DetectedInPrefix(chain, history, n, prior);
    if prior != [] { UndisturbedInPrefix(chain, history, n, prior[0]); }
  }

  // An entry that leaves the progress as it was, or takes it further.
  lemma RestsNext(chain: Chain, history: seq<Observation>, prior: seq<nat>) returns (picks: seq<nat>)
    requires history != []
    requires var n := |history| - 1;
             && Rests(chain, history[..n], prior) && history[n].Seen? && !CompletesAt(chain, history, n)
             && Progress(chain, history).currentStep > 0
    ensures Rests(chain, history, picks)
  {
    var n := |history| - 1;
    var state := Progress(chain, history[..n]);
    RestedBefore(chain, history, prior);
    ProgressInRange(chain, history[..n]);
    if React(chain, state, history[n]).state == state {
      picks := prior;
    } else {
      picks := Extend(chain, history, prior);
    }
  }

  lemma {:induction false} ProgressRests(chain: Chain, history: seq<Observation>) returns (picks: seq<nat>)
    ensures Rests(chain, history, picks)
  {
    picks := [];
    if Progress(chain, history).currentStep > 0 {
      var n := |history| - 1;
      var prior := ProgressRests(chain, history[..n]);
      picks := RestsNext(chain, history, prior);
    }
  }

  // Stored progress k has k entries behind it.
  lemma ProgressIsSound(chain: Chain, history: seq<Observation>)
    ensures exists picks ::
              && Detected(chain, history, picks)
              && |picks| == Progress(chain, history).currentStep
              && (picks != [] ==> Undisturbed(chain, history, picks[0]))
  {
    var picks := ProgressRests(chain, history);
  }

  // The entry that completed the chain, behind those its progress rested on.
  lemma CompletionRests(chain: Chain, history: seq<Observation>, prior: seq<nat>) returns (picks: seq<nat>)
    requires history != []
    requires var n := |history| - 1; Rests(chain, history[..n], prior) && CompletesAt(chain, history, n)
    ensures Detected(chain, history, picks) && |picks| == |chain.steps| > 0
    ensures var n := |history| - 1;
            && picks[|picks| - 1] == n
            && (picks[0] == n || Undisturbed(chain, history[..n], picks[0]))
  {
    var n := |history| - 1;
    ProgressInRange(chain, history[..n]);
    DetectedInPrefix(chain, history, n, prior);
    picks := Extend(chain, history, prior);
  }

  // A completion has one entry for every step behind it, the last being the entry
  // that completed, and shares none of them with an earlier completion.
  lemma CompletionIsSound(chain: Chain, history: seq<Observation>, i: nat)
    requires i < |history| && CompletesAt(chain, history, i)
    ensures exists picks ::
              && Detected(chain, history, picks)
              && |picks| == |chain.steps| > 0
              && picks[|picks| - 1] == i
              && forall j :: picks[0] <= j < i ==> history[j].Seen? && !CompletesAt(chain, history, j)
  {
    var upto := history[..i + 1];
    assert upto[..i] == history[..i];
    var prior := ProgressRests(chain, upto[..i]);
    var picks := CompletionRests(chain, upto, prior);
    DetectedInPrefix(chain, history, i + 1, picks);
    forall j | picks[0] <= j < i ensures history[j].Seen? && !CompletesAt(chain, history, j) {
      assert history[..i][..j] == history[..j];
      assert !CompletesAt(chain, history[..i], j);
    }
  }
}
