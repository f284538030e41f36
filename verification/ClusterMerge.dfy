// Merging the IP states of all nodes (internal/cluster/syncloop.go,
// internal/server/handlers_statesync.go).
module ClusterMerge {
  import opened GoStrings
  import opened LogEntries
  import opened ChainKeys
  import opened Reasons

  datatype BlockState = Blocked | Unblocked

  datatype IPState = IPState(
    state: BlockState,
    expireTime: Time,
    reason: string,
    modifiedAt: Time,
    firstBlockedAt: Time)

  type States = map<string, IPState>

  // A node's answer; a node that could not be queried contributes nothing.  For the
  // cache its reasons have been attributed while they were fetched.
  datatype Node = Node(name: string, address: string, fetched: bool, states: States)

  // The leader's cache, filled on a timer, and the merge done for a request.
  datatype Variant = Cached | OnRequest

  function MaxTime(a: Time, b: Time): Time {
    if a > b then a else b
  }

  // minTime: the zero time stands for "never".
  function MinTime(a: Time, b: Time): Time {
    if a == ZERO_TIME then b else if b == ZERO_TIME then a else if a < b then a else b
  }

  // Two states of one address.  The merge on request does not carry over when the
  // address was first blocked.
  function Combine(variant: Variant, existing: IPState, s: IPState): IPState {
    IPState(
      if s.expireTime > existing.expireTime then s.state else existing.state,
      MaxTime(existing.expireTime, s.expireTime),
      MergeReasons(existing.reason, s.reason),
      MaxTime(existing.modifiedAt, s.modifiedAt),
      if variant == Cached then MinTime(existing.firstBlockedAt, s.firstBlockedAt) else ZERO_TIME)
  }

  // Which of its own states a node starts from.
  predicate LocalCounts(variant: Variant, now: Time, s: IPState) {
    match variant
    case Cached => s.state == Unblocked || s.expireTime > now
    case OnRequest => !(s.state == Blocked && s.expireTime != ZERO_TIME && now > s.expireTime)
  }

  predicate RemoteCounts(variant: Variant, now: Time, s: IPState) {
    variant == Cached ==> s.expireTime > now
  }

  function Attribute(s: IPState, name: string, address: string): IPState {
    s.(reason := AddSourceNode(s.reason, name, address))
  }

  // -------------------------------------------------- contributions of an address

  datatype Input = Input(variant: Variant, now: Time, selfName: string, selfAddress: string, local: States)

  function LocalPart(input: Input, ip: string): seq<IPState> {
    if ip in input.local && LocalCounts(input.variant, input.now, input.local[ip])
    then [Attribute(input.local[ip], input.selfName, input.selfAddress)] else []
  }

  predicate Contributes(input: Input, node: Node, ip: string) {
    && node.name != input.selfName && node.fetched
    && ip in node.states && RemoteCounts(input.variant, input.now, node.states[ip])
  }

  // A state as the merge takes it; the merge on request attributes it here.
  function Taken(input: Input, node: Node, s: IPState): IPState {
    if input.variant == OnRequest then Attribute(s, node.name, node.address) else s
  }

  // All states that count for ip, in merge order.
  function Contributions(input: Input, nodes: seq<Node>, ip: string): seq<IPState> {
    if nodes == [] then LocalPart(input, ip)
    else
      var n := |nodes| - 1;
      Contributions(input, nodes[..n], ip)
      + if Contributes(input, nodes[n], ip) then [Taken(input, nodes[n], nodes[n].states[ip])] else []
  }

  function Fold(variant: Variant, cs: seq<IPState>): IPState
    requires cs != []
  {
    if |cs| == 1 then cs[0] else Combine(variant, Fold(variant, cs[..|cs| - 1]), cs[|cs| - 1])
  }

  // The merged map holds exactly the addresses something counts for, each folded
  // in merge order.
  ghost predicate IsMerge(input: Input, nodes: seq<Node>, merged: States) {
    forall ip ::
      var cs := Contributions(input, nodes, ip);
      (ip in merged <==> cs != []) && (ip in merged ==> merged[ip] == Fold(input.variant, cs))
  }

  // ---------------------------------------------------------------- the loops

  method MergeLocal(input: Input) returns (merged: States)
    ensures IsMerge(input, [], merged)
  {
    merged := map[];
    var todo := input.local.Keys;
    while todo != {}
      invariant todo <= input.local.Keys
      invariant forall ip :: ip in merged <==> ip in input.local.Keys - todo && LocalPart(input, ip) != []
      invariant forall ip :: ip in merged ==> [merged[ip]] == LocalPart(input, ip)
      decreases todo
    {
      var ip :| ip in todo;
      todo := todo - {ip};
      var s := input.local[ip];
      if LocalCounts(input.variant, input.now, s) {
        merged := merged[ip := Attribute(s, input.selfName, input.selfAddress)];
      }
    }
  }

  // What one node makes of the entry for ip.
  function After(input: Input, node: Node, before: States, ip: string): IPState
    requires ip in before || Contributes(input, node, ip)
  {
    if !Contributes(input, node, ip) then before[ip]
    else if ip in before then Combine(input.variant, before[ip], Taken(input, node, node.states[ip]))
    else Taken(input, node, node.states[ip])
  }

  ghost predicate MergesNode(input: Input, node: Node, before: States, merged: States) {
    forall ip :: (ip in merged <==> ip in before || Contributes(input, node, ip)) &&
                 (ip in merged ==> merged[ip] == After(input, node, before, ip))
  }

  // One node's states, in whatever order its map is iterated.
  method MergeNode(input: Input, node: Node, before: States) returns (merged: States)
    requires node.name != input.selfName && node.fetched
    ensures MergesNode(input, node, before, merged)
  {
    merged := before;
    var todo := node.states.Keys;
    while todo != {}
      invariant todo <= node.states.Keys
      invariant forall ip :: ip in todo ==> (ip in merged <==> ip in before) && (ip in before ==> merged[ip] == before[ip])
      invariant forall ip :: ip !in todo ==> (ip in merged <==> ip in before || Contributes(input, node, ip))
      invariant forall ip :: ip !in todo && ip in merged ==> merged[ip] == After(input, node, before, ip)
      decreases todo
    {
      var ip :| ip in todo;
      todo := todo - {ip};
      if RemoteCounts(input.variant, input.now, node.states[ip]) {
        var s := Taken(input, node, node.states[ip]);
        if ip in merged {
          merged := merged[ip := Combine(input.variant, merged[ip], s)];
        } else {
          merged := merged[ip := s];
        }
      }
    }
  }

  lemma MergeGrows(input: Input, nodes: seq<Node>, k: nat, before: States, merged: States)
    requires k < |nodes| && IsMerge(input, nodes[..k], before) && MergesNode(input, nodes[k], before, merged)
    ensures IsMerge(input, nodes[..k + 1], merged)
  {
    forall ip
      ensures ip in merged <==> Contributions(input, nodes[..k + 1], ip) != []
      ensures ip in merged ==> merged[ip] == Fold(input.variant, Contributions(input, nodes[..k + 1], ip))
    {
      assert nodes[..k + 1][..k] == nodes[..k];
      var cs := Contributions(input, nodes[..k], ip);
      if Contributes(input, nodes[k], ip) {
        assert (cs + [Taken(input, nodes[k], nodes[k].states[ip])])[..|cs|] == cs;
      } else {
        assert cs + [] == cs;
      }
    }
  }

  // collectAndCacheMergedState and the fold of collectAndMergeStates
  method Collect(input: Input, nodes: seq<Node>) returns (merged: States, failed: seq<string>)
    ensures IsMerge(input, nodes, merged)
    ensures failed == FailedNodes(input, nodes)
  {
    merged := MergeLocal(input);
    failed := [];
    for k := 0 to |nodes|
      invariant IsMerge(input, nodes[..k], merged)
      invariant failed == FailedNodes(input, nodes[..k])
    {
      var node, before := nodes[k], merged;
      assert nodes[..k + 1][..k] == nodes[..k];
      if node.name != input.selfName {
        if node.fetched {
          merged := MergeNode(input, node, before);
        } else {
          failed := failed + [node.name];
        }
      }
      MergeGrows(input, nodes, k, before, merged);
    }
    assert nodes[..|nodes|] == nodes;
  }

  function FailedNodes(input: Input, nodes: seq<Node>): seq<string> {
    if nodes == [] then []
    else
      var n := |nodes| - 1;
      FailedNodes(input, nodes[..n]) + if nodes[n].name != input.selfName && !nodes[n].fetched then [nodes[n].name] else []
  }

  // A name is reported exactly if another node of that name could not be queried.
  lemma {:induction false} FailedExactly(input: Input, nodes: seq<Node>, name: string)
    ensures name in FailedNodes(input, nodes) <==>
            name != input.selfName && exists k :: 0 <= k < |nodes| && nodes[k].name == name && !nodes[k].fetched
  {
    if nodes != [] {
      var n := |nodes| - 1;
      FailedExactly(input, nodes[..n], name);
      assert forall k :: 0 <= k < n ==> nodes[..n][k] == nodes[k];
    }
  }

  // ------------------------------------------------------- which addresses are merged

  // The node's own state for ip takes part: for the cache unless it is a block that has
  // expired; on request also a block that expires right now, or never.
  predicate OwnTakesPart(input: Input, ip: string) {
    && ip in input.local
    && var s := input.local[ip];
       || s.state == Unblocked
       || s.expireTime > input.now
       || (input.variant == OnRequest && (s.expireTime == input.now || s.expireTime == ZERO_TIME))
  }

  // Another node that answered has a state for ip; for the cache one that has not
  // expired.
  predicate OtherTakesPart(input: Input, node: Node, ip: string) {
    && node.fetched && node.name != input.selfName && ip in node.states
    && (input.variant == OnRequest || node.states[ip].expireTime > input.now)
  }

  lemma {:induction false} ContributesSomewhere(input: Input, nodes: seq<Node>, ip: string)
    ensures Contributions(input, nodes, ip) != [] <==>
            OwnTakesPart(input, ip) || exists k :: 0 <= k < |nodes| && OtherTakesPart(input, nodes[k], ip)
  {
    if nodes != [] {
      var n := |nodes| - 1;
      ContributesSomewhere(input, nodes[..n], ip);
      assert forall k :: 0 <= k < n ==> nodes[..n][k] == nodes[k];
      if OtherTakesPart(input, nodes[n], ip) {
        assert Contributes(input, nodes[n], ip);
      }
    }
  }

  // The merge holds exactly the addresses for which some node's state takes part.
  lemma MergedExactly(input: Input, nodes: seq<Node>, merged: States, ip: string)
    requires IsMerge(input, nodes, merged)
    ensures ip in merged <==>
            OwnTakesPart(input, ip) || exists k :: 0 <= k < |nodes| && OtherTakesPart(input, nodes[k], ip)
  {
    ContributesSomewhere(input, nodes, ip);
  }

  lemma {:induction false} CachedLives(input: Input, nodes: seq<Node>, ip: string)
    requires input.variant == Cached
    ensures forall i :: 0 <= i < |Contributions(input, nodes, ip)| ==>
      var c := Contributions(input, nodes, ip)[i];
      c.expireTime > input.now || (ip in input.local && input.local[ip].state == Unblocked)
  {
    if nodes != [] { CachedLives(input, nodes[..|nodes| - 1], ip); }
  }

  // What the cache hands out has not expired, except for an address this very node has
  // unblocked.
  lemma CacheHasNotExpired(input: Input, nodes: seq<Node>, merged: States, ip: string)
    requires IsMerge(input, nodes, merged) && input.variant == Cached && ip in merged
    ensures merged[ip].expireTime > input.now || (ip in input.local && input.local[ip].state == Unblocked)
  {
    var cs := Contributions(input, nodes, ip);
    assert cs != [] && merged[ip] == Fold(input.variant, cs);
    FoldTakesLatest(input.variant, cs);
    CachedLives(input, nodes, ip);
    assert cs[0].expireTime <= merged[ip].expireTime;
  }

  // ----------------------------------------------------------- what a fold gives

  // Both times are the greatest among the contributions.
  lemma {:induction false} FoldTakesLatest(variant: Variant, cs: seq<IPState>)
    requires cs != []
    ensures var r := Fold(variant, cs);
            && (forall i :: 0 <= i < |cs| ==> cs[i].expireTime <= r.expireTime && cs[i].modifiedAt <= r.modifiedAt)
            && (exists i :: 0 <= i < |cs| && cs[i].expireTime == r.expireTime)
            && (exists i :: 0 <= i < |cs| && cs[i].modifiedAt == r.modifiedAt)
  {
    var r := Fold(variant, cs);
    if |cs| == 1 {
      assert cs[0].expireTime == r.expireTime && cs[0].modifiedAt == r.modifiedAt;
    } else {
      var before, last := cs[..|cs| - 1], cs[|cs| - 1];
      FoldTakesLatest(variant, before);
      var b := Fold(variant, before);
      var i :| 0 <= i < |before| && before[i].expireTime == b.expireTime;
      var j :| 0 <= j < |before| && before[j].modifiedAt == b.modifiedAt;
      var p := if last.expireTime > b.expireTime then |cs| - 1 else i;
      var q := if last.modifiedAt > b.modifiedAt then |cs| - 1 else j;
      assert cs[i] == before[i] && cs[j] == before[j];
      assert 0 <= p < |cs| && cs[p].expireTime == r.expireTime;
      assert 0 <= q < |cs| && cs[q].modifiedAt == r.modifiedAt;
      forall k | 0 <= k < |cs| ensures cs[k].expireTime <= r.expireTime && cs[k].modifiedAt <= r.modifiedAt {
        if k < |before| { assert cs[k] == before[k]; }
      }
    }
  }

  // The state is that of the first contribution with the longest expiry.
  ghost predicate FirstLongest(cs: seq<IPState>, i: nat) {
    && i < |cs|
    && (forall j :: 0 <= j < |cs| ==> cs[j].expireTime <= cs[i].expireTime)
    && (forall j :: 0 <= j < i ==> cs[j].expireTime < cs[i].expireTime)
  }

  lemma {:induction false} FoldTakesStateOfLongest(variant: Variant, cs: seq<IPState>) returns (i: nat)
    requires cs != []
    ensures FirstLongest(cs, i) && Fold(variant, cs).state == cs[i].state && Fold(variant, cs).expireTime == cs[i].expireTime
  {
    if |cs| == 1 {
      i := 0;
    } else {
      var before, last := cs[..|cs| - 1], cs[|cs| - 1];
      i := FoldTakesStateOfLongest(variant, before);
      assert forall j :: 0 <= j < |before| ==> cs[j] == before[j];
      if last.expireTime > before[i].expireTime {
        i := |cs| - 1;
      }
    }
  }

  // In the cache the first block is the least time that is not zero.
  lemma {:induction false} FoldTakesFirstBlock(cs: seq<IPState>)
    requires cs != []
    ensures var r := Fold(Cached, cs).firstBlockedAt;
            && (r == ZERO_TIME <==> forall i :: 0 <= i < |cs| ==> cs[i].firstBlockedAt == ZERO_TIME)
            && (r != ZERO_TIME ==> exists i :: 0 <= i < |cs| && cs[i].firstBlockedAt == r)
            && (forall i :: 0 <= i < |cs| && cs[i].firstBlockedAt != ZERO_TIME ==> r <= cs[i].firstBlockedAt)
  {
    if |cs| > 1 {
      var n := |cs| - 1;
      var before := cs[..n];
      FoldTakesFirstBlock(before);
      assert forall j :: 0 <= j < n ==> cs[j] == before[j];
      var r, b := Fold(Cached, cs).firstBlockedAt, Fold(Cached, before).firstBlockedAt;
      if b != ZERO_TIME {
        var i :| 0 <= i < n && before[i].firstBlockedAt == b;
        assert cs[i].firstBlockedAt == b;
      }
      assert r == MinTime(b, cs[n].firstBlockedAt);
    }
  }

  // The merge on request keeps it exactly when there is one contribution, or none
  // of them knows a first block.
  lemma RequestForgetsFirstBlock(cs: seq<IPState>)
    requires cs != []
    ensures Fold(OnRequest, cs).firstBlockedAt == Fold(Cached, cs).firstBlockedAt <==>
      |cs| == 1 || forall i :: 0 <= i < |cs| ==> cs[i].firstBlockedAt == ZERO_TIME
  {
    FoldTakesFirstBlock(cs);
    assert |cs| >= 2 ==> Fold(OnRequest, cs).firstBlockedAt == ZERO_TIME;
  }

  function ReasonsOf(cs: seq<IPState>): seq<string> {
    seq(|cs|, i requires 0 <= i < |cs| => cs[i].reason)
  }

  // The merged reason is the ordered set of the contributed reasons.
  lemma {:induction false} FoldMergesReasons(variant: Variant, cs: seq<IPState>)
    requires cs != []
    ensures Fold(variant, cs).reason == MergeAll(ReasonsOf(cs))
  {
    var n := |cs| - 1;
    assert ReasonsOf(cs)[..n] == ReasonsOf(cs[..n]);
    if n > 0 {
      FoldMergesReasons(variant, cs[..n]);
    } else {
      assert MergeAll(ReasonsOf(cs)[..0]) == "";
    }
  }

  lemma MergedReasonSplits(variant: Variant, cs: seq<IPState>)
    requires cs != [] && AllSingle(ReasonsOf(cs))
    ensures Split(Fold(variant, cs).reason, REASON_SEPARATOR) == FirstSeen(ReasonsOf(cs))
  {
    FoldMergesReasons(variant, cs);
    MergeRefinesOrderedSet(ReasonsOf(cs));
  }

  // A reason as nodes keep it: attributed before, or bare and free of separators.
  predicate Mergeable(reason: string) {
    || Single(reason)
    || (&& reason != "" && !IsSpace(reason[0])
        && !(Contains(reason, " (") && HasSuffix(reason, ")"))
        && !Contains(reason + " ", REASON_SEPARATOR))
  }

  predicate PlainSource(name: string, address: string) {
    var source := if name == "" then address else name;
    source != "" && !Contains(source, REASON_SEPARATOR)
  }

  ghost predicate AllMergeable(input: Input, nodes: seq<Node>, ip: string) {
    && PlainSource(input.selfName, input.selfAddress)
    && (ip in input.local ==> Mergeable(input.local[ip].reason))
    && (forall i :: 0 <= i < |nodes| ==>
          PlainSource(nodes[i].name, nodes[i].address) && (ip in nodes[i].states ==> Mergeable(nodes[i].states[ip].reason)))
  }

  lemma AttributedIsSingle(reason: string, name: string, address: string)
    requires Mergeable(reason) && PlainSource(name, address)
    ensures Single(AddSourceNode(reason, name, address))
  {
    if !Single(reason) {
      AttributedExactly(reason, name, address);
      assert AddSourceNode(reason, name, address)[0] == reason[0];
    }
  }

  lemma {:induction false} ContributionsAreSingle(input: Input, nodes: seq<Node>, ip: string)
    requires input.variant == OnRequest && AllMergeable(input, nodes, ip)
    ensures AllSingle(ReasonsOf(Contributions(input, nodes, ip)))
  {
    if nodes == [] {
      if ip in input.local { AttributedIsSingle(input.local[ip].reason, input.selfName, input.selfAddress); }
    } else {
      var n := |nodes| - 1;
      ContributionsAreSingle(input, nodes[..n], ip);
      var before := Contributions(input, nodes[..n], ip);
      if Contributes(input, nodes[n], ip) {
        AttributedIsSingle(nodes[n].states[ip].reason, nodes[n].name, nodes[n].address);
        OneMoreSingle(before, Taken(input, nodes[n], nodes[n].states[ip]));
      } else {
        assert before + [] == before;
      }
    }
  }

  lemma OneMoreSingle(cs: seq<IPState>, c: IPState)
    requires AllSingle(ReasonsOf(cs)) && AllSingle([c.reason])
    ensures AllSingle(ReasonsOf(cs + [c]))
  {
    assert ReasonsOf(cs + [c]) == ReasonsOf(cs) + [c.reason];
    assert [c.reason][0] == c.reason;
  }

  // From the nodes to the response: the merged reason splits back into one
  // attributed reason per base, in merge order.
  lemma MergedReasonsOfCluster(input: Input, nodes: seq<Node>, merged: States, ip: string)
    requires input.variant == OnRequest && AllMergeable(input, nodes, ip)
    requires IsMerge(input, nodes, merged) && ip in merged
    ensures Split(merged[ip].reason, REASON_SEPARATOR) == FirstSeen(ReasonsOf(Contributions(input, nodes, ip)))
  {
    ContributionsAreSingle(input, nodes, ip);
    assert ip in merged <==> Contributions(input, nodes, ip) != [];
    MergedReasonSplits(input.variant, Contributions(input, nodes, ip));
  }

  // The times, and the first block, do not depend on the order of the nodes.
  lemma TimesIgnoreOrder(variant: Variant, cs: seq<IPState>, ds: seq<IPState>)
    requires cs != [] && multiset(cs) == multiset(ds)
    ensures ds != []
    ensures var a, b := Fold(variant, cs), Fold(variant, ds);
            a.expireTime == b.expireTime && a.modifiedAt == b.modifiedAt
            && (variant == Cached ==> a.firstBlockedAt == b.firstBlockedAt)
  {
    assert cs[0] in multiset(ds);
    SameElements(cs, ds);
    FoldTakesLatest(variant, cs);
    FoldTakesLatest(variant, ds);
    FoldTakesFirstBlock(cs);
    FoldTakesFirstBlock(ds);
  }

  lemma SameElements(cs: seq<IPState>, ds: seq<IPState>)
    requires multiset(cs) == multiset(ds)
    ensures forall i :: 0 <= i < |cs| ==> cs[i] in ds
    ensures forall i :: 0 <= i < |ds| ==> ds[i] in cs
  {
    forall i | 0 <= i < |cs| ensures cs[i] in ds { assert cs[i] in multiset(cs); }
    forall i | 0 <= i < |ds| ensures ds[i] in cs { assert ds[i] in multiset(ds); }
  }

  // All contributions with the longest expiry have the same state.
  ghost predicate LongestAgree(cs: seq<IPState>) {
    forall i: nat, j: nat :: IsLongest(cs, i) && IsLongest(cs, j) ==> cs[i].state == cs[j].state
  }

  ghost predicate IsLongest(cs: seq<IPState>, i: nat) {
    i < |cs| && forall j :: 0 <= j < |cs| ==> cs[j].expireTime <= cs[i].expireTime
  }

  ghost predicate SameState(variant: Variant, cs: seq<IPState>, ds: seq<IPState>)
    requires cs != []
  {
    ds != [] && multiset(ds) == multiset(cs) ==> Fold(variant, ds).state == Fold(variant, cs).state
  }

  // The state depends on the order of the contributions exactly when two of them tie
  // for the longest expiry with different states.
  lemma StateIgnoresOrderExactly(variant: Variant, cs: seq<IPState>)
    requires cs != []
    ensures (forall ds :: SameState(variant, cs, ds)) <==> LongestAgree(cs)
  {
    if LongestAgree(cs) {
      forall ds ensures SameState(variant, cs, ds) {
        if ds != [] && multiset(ds) == multiset(cs) { AgreeingState(variant, cs, ds); }
      }
    } else {
      var i: nat, j: nat :| IsLongest(cs, i) && IsLongest(cs, j) && cs[i].state != cs[j].state;
      var k := if cs[i].state == Fold(variant, cs).state then j else i;
      var ds := ToFront(cs, k);
      FrontWins(variant, ds);
      assert !SameState(variant, cs, ds);
    }
  }

  lemma AgreeingState(variant: Variant, cs: seq<IPState>, ds: seq<IPState>)
    requires cs != [] && ds != [] && multiset(cs) == multiset(ds) && LongestAgree(cs)
    ensures Fold(variant, cs).state == Fold(variant, ds).state
  {
    SameElements(cs, ds);
    var i := FoldTakesStateOfLongest(variant, cs);
    var j := FoldTakesStateOfLongest(variant, ds);
    var k: nat :| k < |cs| && cs[k] == ds[j];
    assert forall l :: 0 <= l < |cs| ==> cs[l] in ds;
    assert IsLongest(cs, i) && IsLongest(cs, k);
  }

  // One longest contribution moved to the front.
  lemma ToFront(cs: seq<IPState>, k: nat) returns (ds: seq<IPState>)
    requires IsLongest(cs, k)
    ensures ds != [] && multiset(ds) == multiset(cs) && ds[0] == cs[k] && IsLongest(ds, 0)
  {
    ds := [cs[k]] + cs[..k] + cs[k + 1..];
    assert cs == cs[..k] + [cs[k]] + cs[k + 1..];
    forall j | 0 <= j < |ds| ensures ds[j].expireTime <= ds[0].expireTime {
      assert ds[j] in multiset(cs);
      assert ds[j] in cs;
    }
  }

  lemma FrontWins(variant: Variant, ds: seq<IPState>)
    requires ds != [] && IsLongest(ds, 0)
    ensures Fold(variant, ds).state == ds[0].state
  {
    var i := FoldTakesStateOfLongest(variant, ds);
  }

  // ------------------------------------------------------- the order of the nodes

  // What a node adds to the contributions.
  function Part(input: Input, node: Node, ip: string): seq<IPState> {
    if Contributes(input, node, ip) then [Taken(input, node, node.states[ip])] else []
  }

  lemma LastPart(input: Input, nodes: seq<Node>, node: Node, ip: string)
    ensures Contributions(input, nodes + [node], ip) == Contributions(input, nodes, ip) + Part(input, node, ip)
  {
    assert (nodes + [node])[..|nodes|] == nodes;
  }

  type Parts = Node -> seq<IPState>

  // All parts of a list of nodes.
  function Tally(part: Parts, nodes: seq<Node>): multiset<IPState> {
    if nodes == [] then multiset{} else multiset(part(nodes[0])) + Tally(part, nodes[1..])
  }

  lemma {:induction false} TallyTogether(part: Parts, nodes: seq<Node>, more: seq<Node>)
    ensures Tally(part, nodes + more) == Tally(part, nodes) + Tally(part, more)
  {
    if nodes == [] {
      assert nodes + more == more;
    } else {
      assert (nodes + more)[1..] == nodes[1..] + more;
      TallyTogether(part, nodes[1..], more);
    }
  }

  lemma {:induction false} TallyIgnoresOrder(part: Parts, nodes: seq<Node>, others: seq<Node>)
    requires multiset(nodes) == multiset(others)
    ensures Tally(part, nodes) == Tally(part, others)
  {
    if nodes == [] {
      assert |others| == |multiset(others)| == 0;
    } else {
      var x := nodes[0];
      var before, after := TakenOut(others, x, nodes);
      assert nodes == [x] + nodes[1..];
      TallyIgnoresOrder(part, nodes[1..], before + after);
      TallyTogether(part, before, after);
      TallyTogether(part, before, [x] + after);
      assert ([x] + after)[1..] == after;
    }
  }

  lemma TakenOut(others: seq<Node>, x: Node, nodes: seq<Node>) returns (before: seq<Node>, after: seq<Node>)
    requires nodes != [] && nodes[0] == x && multiset(nodes) == multiset(others)
    ensures others == before + ([x] + after) && multiset(before + after) == multiset(nodes[1..])
  {
    assert x in multiset(others);
    var k :| 0 <= k < |others| && others[k] == x;
    before, after := others[..k], others[k + 1..];
    assert others == before + ([x] + after);
    SameButOne(before, x, after, nodes);
  }

  lemma SameButOne(before: seq<Node>, x: Node, after: seq<Node>, nodes: seq<Node>)
    requires nodes != [] && nodes[0] == x && multiset(nodes) == multiset(before + ([x] + after))
    ensures multiset(before + after) == multiset(nodes[1..])
  {
    assert nodes == [x] + nodes[1..];
    assert multiset(nodes[1..]) == multiset(nodes) - multiset{x};
    assert multiset(before + after) == multiset(before + ([x] + after)) - multiset{x};
  }

  // The contributions are the node's own and the parts of the others.
  lemma {:induction false} ContributionsTally(input: Input, nodes: seq<Node>, ip: string)
    ensures multiset(Contributions(input, nodes, ip))
      == multiset(LocalPart(input, ip)) + Tally((n: Node) => Part(input, n, ip), nodes)
  {
    var part := (n: Node) => Part(input, n, ip);
    if nodes != [] {
      var init, last := nodes[..|nodes| - 1], nodes[|nodes| - 1];
      assert nodes == init + [last];
      ContributionsTally(input, init, ip);
      LastPart(input, init, last, ip);
      TallyTogether(part, init, [last]);
      assert Tally(part, [last]) == multiset(part(last)) by { assert [last][1..] == []; }
    }
  }

  // Permuted nodes give permuted contributions.
  lemma ContributionsIgnoreOrder(input: Input, nodes: seq<Node>, others: seq<Node>, ip: string)
    requires multiset(nodes) == multiset(others)
    ensures multiset(Contributions(input, nodes, ip)) == multiset(Contributions(input, others, ip))
  {
    ContributionsTally(input, nodes, ip);
    ContributionsTally(input, others, ip);
    TallyIgnoresOrder((n: Node) => Part(input, n, ip), nodes, others);
  }

  // Two merges that differ in the order of the nodes hold the same addresses with
  // the same times, and the same state unless a tie decides it.
  lemma MergeIgnoresNodeOrder(input: Input, nodes: seq<Node>, others: seq<Node>, merged: States, other: States,
          ip: string)
    requires multiset(nodes) == multiset(others)
    requires IsMerge(input, nodes, merged) && IsMerge(input, others, other)
    ensures ip in merged <==> ip in other
    ensures ip in merged ==>
      && merged[ip].expireTime == other[ip].expireTime && merged[ip].modifiedAt == other[ip].modifiedAt
      && (input.variant == Cached ==> merged[ip].firstBlockedAt == other[ip].firstBlockedAt)
      && (LongestAgree(Contributions(input, nodes, ip)) ==> merged[ip].state == other[ip].state)
  {
    var cs, ds := Contributions(input, nodes, ip), Contributions(input, others, ip);
    ContributionsIgnoreOrder(input, nodes, others, ip);
    assert |cs| == |multiset(cs)| == |ds|;
    assert ip in merged <==> cs != [];
    assert ip in other <==> ds != [];
    if cs != [] {
      TimesIgnoreOrder(input.variant, cs, ds);
      if LongestAgree(cs) { AgreeingState(input.variant, cs, ds); }
    }
  }
}
