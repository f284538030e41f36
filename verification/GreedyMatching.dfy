// Without time rules the greedy matcher completes a chain as often as any
// choice of entries could.
module GreedyMatching {
  import opened Arithmetic
  import opened Chains

  predicate NoTimeRules(chain: Chain) {
    forall i :: 0 <= i < |chain.steps| ==>
      var s := chain.steps[i]; s.maxDelay <= 0 && s.minDelay <= 0 && s.minTimeSinceLastHit <= 0
  }

  ghost predicate AllSeen(history: seq<Observation>) {
    forall i :: 0 <= i < |history| ==> history[i].Seen?
  }

  // picks chooses, in order, one entry of the history for every step of the word.
  ghost predicate EmbedsBy(word: seq<StepDef>, history: seq<Observation>, picks: seq<nat>) {
    && |picks| == |word|
    && (forall i :: 0 <= i < |picks| ==> picks[i] < |history|)
    && (forall i, j :: 0 <= i < j < |picks| ==> picks[i] < picks[j])
    && (forall i :: 0 <= i < |picks| ==>
          history[picks[i]].Seen? && StepMatches(word[i], history[picks[i]].entry))
  }

  ghost predicate Embeds(word: seq<StepDef>, history: seq<Observation>) {
    exists picks :: EmbedsBy(word, history, picks)
  }

  // The step list repeated n times.
  function Repeated(steps: seq<StepDef>, n: nat): (word: seq<StepDef>)
    ensures |word| == n * |steps|
  {
    if n == 0 then [] else Repeated(steps, n - 1) + steps
  }

  // The first m steps of the endless repetition of a step list.
  function Cycled(steps: seq<StepDef>, m: nat): (word: seq<StepDef>)
    requires steps != []
    ensures |word| == m
  {
    seq(m, i requires 0 <= i => steps[i % |steps|])
  }

  lemma {:induction false} RepeatedIsCycled(steps: seq<StepDef>, n: nat)
    requires steps != []
    ensures Repeated(steps, n) == Cycled(steps, n * |steps|)
  {
    if n > 0 {
      RepeatedIsCycled(steps, n - 1);
      var L, base := |steps|, (n - 1) * |steps|;
      assert n * L == base + L;
      forall i | base <= i < base + L ensures steps[i - base] == steps[i % L] {
        DivMod(i, n - 1, i - base, L);
      }
    }
  }

  // All steps matched so far, over all rounds.
  function StepsMatched(chain: Chain, history: seq<Observation>): nat {
    Completions(chain, history) * |chain.steps| + Progress(chain, history).currentStep
  }

  // Without time rules an entry takes the chain one step further exactly if it
  // matches the step that is due.
  lemma AdvanceUntimed(chain: Chain, state: StepState, o: Observation)
    requires chain.steps != [] && NoTimeRules(chain) && InRange(chain, state) && o.Seen?
    ensures var k, out := state.currentStep, React(chain, state, o);
            var due := k < |chain.steps| && StepMatches(chain.steps[k], o.entry);
            && (out.completed <==> due && k + 1 == |chain.steps|)
            && Stored(out).currentStep == if !due then k else if out.completed then 0 else k + 1
  {
  }

  lemma OneMoreCompletion(chain: Chain, history: seq<Observation>)
    requires history != []
    ensures var n := |history| - 1;
            var out := React(chain, Progress(chain, history[..n]), history[n]);
            && Progress(chain, history) == Stored(out)
            && Completions(chain, history) == Completions(chain, history[..n]) + if out.completed then 1 else 0
  {
  }

  // Without time rules one more entry matches one more step of the cycle, or none.
  lemma MatchedGrowsByOne(chain: Chain, history: seq<Observation>)
    requires chain.steps != [] && NoTimeRules(chain) && AllSeen(history) && history != []
    ensures var n := |history| - 1;
            var m := StepsMatched(chain, history[..n]);
            StepsMatched(chain, history) ==
            m + if StepMatches(chain.steps[m % |chain.steps|], history[n].entry) then 1 else 0
  {
    var n := |history| - 1;
    var before, L := history[..n], |chain.steps|;
    ProgressInRange(chain, before);
    AdvanceUntimed(chain, Progress(chain, before), history[n]);
    OneMoreCompletion(chain, history);
    var k, c := Progress(chain, before).currentStep, Completions(chain, before);
    StepsCount(c, k, L);
  }

  // The position in the cycle after c rounds and k steps, and a round completed.
  lemma StepsCount(c: nat, k: nat, L: nat)
    requires k < L
    ensures (c * L + k) % L == k
    ensures k + 1 == L ==> (c + 1) * L + 0 == c * L + k + 1
  {
    DivMod(c * L + k, c, k, L);
  }

  lemma LongerHistory(word: seq<StepDef>, history: seq<Observation>, picks: seq<nat>)
    requires history != [] && EmbedsBy(word, history[..|history| - 1], picks)
    ensures EmbedsBy(word, history, picks)
  {
  }

  lemma OneMorePick(word: seq<StepDef>, step: StepDef, history: seq<Observation>, picks: seq<nat>)
    requires history != [] && EmbedsBy(word, history[..|history| - 1], picks)
    requires history[|history| - 1].Seen? && StepMatches(step, history[|history| - 1].entry)
    ensures EmbedsBy(word + [step], history, picks + [|history| - 1])
  {
  }

  // The greedy choice: the matched steps do embed in the history.
  lemma {:induction false} GreedyEmbeds(chain: Chain, history: seq<Observation>) returns (picks: seq<nat>)
    requires chain.steps != [] && NoTimeRules(chain) && AllSeen(history)
    ensures EmbedsBy(Cycled(chain.steps, StepsMatched(chain, history)), history, picks)
  {
    if history == [] {
      picks := [];
    } else {
      var n := |history| - 1;
      var m := StepsMatched(chain, history[..n]);
      picks := GreedyEmbeds(chain, history[..n]);
      MatchedGrowsByOne(chain, history);
      var word := Cycled(chain.steps, m);
      if StepMatches(chain.steps[m % |chain.steps|], history[n].entry) {
        OneMorePick(word, chain.steps[m % |chain.steps|], history, picks);
        assert Cycled(chain.steps, m + 1) == word + [chain.steps[m % |chain.steps|]];
        picks := picks + [n];
      } else {
        LongerHistory(word, history, picks);
      }
    }
  }

  // No choice of entries matches more steps of the cycle than the greedy one.
  lemma {:induction false} NothingBeatsGreedy(chain: Chain, history: seq<Observation>, m: nat, picks: seq<nat>)
    requires chain.steps != [] && NoTimeRules(chain) && AllSeen(history)
    requires EmbedsBy(Cycled(chain.steps, m), history, picks)
    ensures m <= StepsMatched(chain, history)
  {
    if m > 0 {
      var n := |history| - 1;
      assert picks[m - 1] <= n;
      var fewer := picks[..m - 1];
      MatchedGrowsByOne(chain, history);
      if picks[m - 1] < n {
        assert EmbedsBy(Cycled(chain.steps, m), history[..n], picks);
        NothingBeatsGreedy(chain, history[..n], m, picks);
      } else {
        assert EmbedsBy(Cycled(chain.steps, m - 1), history[..n], fewer);
        NothingBeatsGreedy(chain, history[..n], m - 1, fewer);
        assert StepMatches(chain.steps[(m - 1) % |chain.steps|], history[n].entry);
      }
    }
  }

  // A prefix of an embedded word embeds.
  lemma PrefixEmbeds(steps: seq<StepDef>, m: nat, m': nat, history: seq<Observation>, picks: seq<nat>)
    requires steps != [] && m <= m' && EmbedsBy(Cycled(steps, m'), history, picks)
    ensures EmbedsBy(Cycled(steps, m), history, picks[..m])
  {
  }

  // The number of completions is the greatest n for which the step list repeated
  // n times embeds, in order, in the processed entries.
  lemma GreedyIsOptimal(chain: Chain, history: seq<Observation>, n: nat)
    requires chain.steps != [] && NoTimeRules(chain) && AllSeen(history)
    ensures Embeds(Repeated(chain.steps, n), history) <==> n <= Completions(chain, history)
  {
    var L, total, c := |chain.steps|, StepsMatched(chain, history), Completions(chain, history);
    RepeatedIsCycled(chain.steps, n);
    ProgressInRange(chain, history);
    if n <= c {
      var picks := GreedyEmbeds(chain, history);
      MulMonotone(n, c, L);
      PrefixEmbeds(chain.steps, n * L, total, history, picks);
    } else {
      MulGap(c, n, L);
      forall picks ensures !EmbedsBy(Repeated(chain.steps, n), history, picks) {
        if EmbedsBy(Repeated(chain.steps, n), history, picks) {
          NothingBeatsGreedy(chain, history, n * L, picks);
        }
      }
    }
  }
}
