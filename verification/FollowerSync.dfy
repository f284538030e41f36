// A follower applying the leader's merged states to its own tables
// (internal/cluster/syncloop.go, fetchAndMergeFromLeader).
module FollowerSync {
  import opened LogEntries
  import opened ClusterMerge
  import opened Persistence

  function Max(a: int, b: int): int {
    if a > b then a else b
  }

  // What the follower's upsert makes of a row; the times only grow, state and
  // reason are the leader's.
  function Merge(row: IpRow, excluded: IpRow): IpRow {
    IpRow(excluded.state, Max(row.expireTime, excluded.expireTime), excluded.reasonId,
          Max(row.modifiedAt, excluded.modifiedAt), KeepFirst(row.firstBlockedAt, excluded.firstBlockedAt))
  }

  function RowOf(hash: Hash, s: IPState): IpRow {
    IpRow(s.state, ToUnix(s.expireTime), hash(s.reason), ToUnix(s.modifiedAt), ToUnix(s.firstBlockedAt))
  }

  function Put(ips: map<string, IpRow>, hash: Hash, ip: string, s: IPState): map<string, IpRow> {
    ips[ip := if ip in ips then Merge(ips[ip], RowOf(hash, s)) else RowOf(hash, s)]
  }

  // Only states that have not expired are applied.
  function Live(states: States, now: Time): set<string> {
    set ip | ip in states && states[ip].expireTime > now
  }

  // The rows after the states of some addresses were applied.
  function AppliedTo(ips: map<string, IpRow>, hash: Hash, states: States, seen: set<string>): map<string, IpRow>
    requires seen <= states.Keys
  {
    map ip | ip in ips.Keys + seen ::
      if ip !in seen then ips[ip]
      else if ip in ips then Merge(ips[ip], RowOf(hash, states[ip]))
      else RowOf(hash, states[ip])
  }

  function Applied(ips: map<string, IpRow>, hash: Hash, states: States, now: Time): map<string, IpRow> {
    AppliedTo(ips, hash, states, Live(states, now))
  }

  // Stored reasons stand under their own hash; with an injective hash their ids
  // determine them.
  ghost predicate Interned(reasons: map<int, string>, hash: Hash) {
    forall id :: id in reasons ==> hash(reasons[id]) == id
  }

  // Nothing is overwritten, and exactly the reasons of the applied states are added.
  ghost predicate ReasonsAdded(before: map<int, string>, after: map<int, string>, hash: Hash, states: States,
          seen: set<string>)
    requires seen <= states.Keys
  {
    && Interned(after, hash)
    && (forall id :: id in before ==> id in after && after[id] == before[id])
    && (forall ip :: ip in seen ==> hash(states[ip].reason) in after)
    && (forall id :: id in after && id !in before ==> HasReason(hash, states, seen, id))
  }

  ghost predicate HasReason(hash: Hash, states: States, seen: set<string>, id: int)
    requires seen <= states.Keys
  {
    exists ip :: ip in seen && hash(states[ip].reason) == id
  }

  lemma OneMoreRow(ips: map<string, IpRow>, hash: Hash, states: States, seen: set<string>, ip: string)
    requires seen <= states.Keys && ip in states && ip !in seen
    ensures Put(AppliedTo(ips, hash, states, seen), hash, ip, states[ip]) == AppliedTo(ips, hash, states, seen + {ip})
  {
  }

  lemma OneMoreReason(before: map<int, string>, after: map<int, string>, hash: Hash, states: States,
          seen: set<string>, ip: string)
    requires seen <= states.Keys && ReasonsAdded(before, after, hash, states, seen) && ip in states
    ensures ReasonsAdded(before, Intern(after, hash, states[ip].reason), hash, states, seen + {ip})
  {
    var more := Intern(after, hash, states[ip].reason);
    forall id | id in more && id !in before ensures HasReason(hash, states, seen + {ip}, id) {
      if id in after {
        assert HasReason(hash, states, seen, id);
        var p :| p in seen && hash(states[p].reason) == id;
        assert p in seen + {ip};
      } else {
        assert ip in seen + {ip} && hash(states[ip].reason) == id;
      }
    }
  }

  // ------------------------------------------------------------ the upsert loop

  class FollowerTables {
    var ips: map<string, IpRow>
    var reasons: map<int, string>
    // The open transaction: what has been written and not committed yet.
    var pendingIps: map<string, IpRow>
    var pendingReasons: map<int, string>
    const hash: Hash

    constructor (hash: Hash, ips: map<string, IpRow>, reasons: map<int, string>)
      ensures this.hash == hash && this.ips == ips && this.reasons == reasons
    {
      this.hash := hash;
      this.ips, this.reasons, pendingIps, pendingReasons := ips, reasons, ips, reasons;
    }

    method BeginBatch()
      modifies this`pendingIps, this`pendingReasons
      ensures pendingIps == ips && pendingReasons == reasons
    {
      pendingIps, pendingReasons := ips, reasons;
    }

    method Commit()
      modifies this`ips, this`reasons
      ensures ips == pendingIps && reasons == pendingReasons
    {
      ips, reasons := pendingIps, pendingReasons;
    }

    // One state, inside the open transaction.
    method ApplyState(ip: string, s: IPState)
      modifies this`pendingIps, this`pendingReasons
      ensures pendingIps == Put(old(pendingIps), hash, ip, s)
      ensures pendingReasons == Intern(old(pendingReasons), hash, s.reason)
    {
      pendingReasons := Intern(pendingReasons, hash, s.reason);
      pendingIps := Put(pendingIps, hash, ip, s);
    }

    // A full batch is committed and the next one begun: nothing pending is lost.
    method CommitFullBatch(count: nat, batchSize: int)
      modifies this
      ensures pendingIps == old(pendingIps) && pendingReasons == old(pendingReasons)
    {
      var size := if batchSize <= 0 then 10000 else batchSize;
      if count % size == 0 {
        Commit();
        BeginBatch();
      }
    }

    // What is pending once the states of the addresses in seen were applied.
    ghost predicate Pending(ips0: map<string, IpRow>, reasons0: map<int, string>, states: States, seen: set<string>)
      reads this`pendingIps, this`pendingReasons
      requires seen <= states.Keys
    {
      pendingIps == AppliedTo(ips0, hash, states, seen) && ReasonsAdded(reasons0, pendingReasons, hash, states, seen)
    }

    method Visit(ip: string, states: States, batchSize: int, count: nat, ghost ips0: map<string, IpRow>,
            ghost reasons0: map<int, string>, ghost seen: set<string>)
      requires ip in states && seen <= states.Keys && ip !in seen && Pending(ips0, reasons0, states, seen)
      modifies this
      ensures Pending(ips0, reasons0, states, seen + {ip})
    {
      OneMoreRow(ips0, hash, states, seen, ip);
      OneMoreReason(reasons0, pendingReasons, hash, states, seen, ip);
      ApplyState(ip, states[ip]);
      CommitFullBatch(count, batchSize);
    }

    // The loop of fetchAndMergeFromLeader, over the states in any order.
    method VisitAll(states: States, now: Time, batchSize: int, ghost ips0: map<string, IpRow>,
            ghost reasons0: map<int, string>)
      requires Pending(ips0, reasons0, states, {})
      modifies this
      ensures Pending(ips0, reasons0, states, Live(states, now))
    {
      var count, todo := 0, states.Keys;
      ghost var seen: set<string> := {};
      while todo != {}
        invariant todo <= states.Keys && seen == Live(states, now) - todo
        invariant Pending(ips0, reasons0, states, seen)
        decreases todo
      {
        var ip :| ip in todo;
        todo := todo - {ip};
        if states[ip].expireTime > now {
          count := count + 1;
          Visit(ip, states, batchSize, count, ips0, reasons0, seen);
          seen := seen + {ip};
        }
      }
      assert seen == Live(states, now);
    }

    // fetchAndMergeFromLeader, once the response is there.  Whatever the batch size
    // and whatever the order of the visits, the tables end up the same.
    method ApplyStates(states: States, now: Time, batchSize: int)
      requires Interned(reasons, hash)
      modifies this
      ensures ips == Applied(old(ips), hash, states, now)
      ensures ReasonsAdded(old(reasons), reasons, hash, states, Live(states, now))
    {
      BeginBatch();
      assert AppliedTo(ips, hash, states, {}) == ips;
      VisitAll(states, now, batchSize, ips, reasons);
      Commit();
    }
  }

  // ------------------------------------------------------------------- lemmas

  lemma KeepFirstTwice(stored: Unix, excluded: Unix)
    ensures KeepFirst(KeepFirst(stored, excluded), excluded) == KeepFirst(stored, excluded)
  {
  }

  // Applying one response twice leaves the same rows as applying it once.
  lemma ApplyingTwiceIsOnce(ips: map<string, IpRow>, hash: Hash, states: States, now: Time)
    ensures Applied(Applied(ips, hash, states, now), hash, states, now) == Applied(ips, hash, states, now)
  {
    var once := Applied(ips, hash, states, now);
    forall ip | ip in Live(states, now) ensures Merge(once[ip], RowOf(hash, states[ip])) == once[ip] {
      if ip in ips { KeepFirstTwice(ips[ip].firstBlockedAt, ToUnix(states[ip].firstBlockedAt)); }
    }
  }

  // No row disappears, and no row's expiry or modification time goes back.
  lemma TimesNeverGoBack(ips: map<string, IpRow>, hash: Hash, states: States, now: Time, ip: string)
    requires ip in ips
    ensures var out := Applied(ips, hash, states, now);
            && ip in out
            && out[ip].expireTime >= ips[ip].expireTime
            && out[ip].modifiedAt >= ips[ip].modifiedAt
  {
  }

  // Nor do they over any sequence of responses.
  function AppliedAll(ips: map<string, IpRow>, hash: Hash, responses: seq<(States, Time)>): map<string, IpRow> {
    if responses == [] then ips
    else
      var n := |responses| - 1;
      Applied(AppliedAll(ips, hash, responses[..n]), hash, responses[n].0, responses[n].1)
  }

  lemma {:induction false} TimesNeverGoBackInRun(ips: map<string, IpRow>, hash: Hash, responses: seq<(States, Time)>,
          ip: string)
    requires ip in ips
    ensures var out := AppliedAll(ips, hash, responses);
            ip in out && out[ip].expireTime >= ips[ip].expireTime && out[ip].modifiedAt >= ips[ip].modifiedAt
  {
    if responses != [] {
      var n := |responses| - 1;
      TimesNeverGoBackInRun(ips, hash, responses[..n], ip);
      TimesNeverGoBack(AppliedAll(ips, hash, responses[..n]), hash, responses[n].0, responses[n].1, ip);
    }
  }

  // What one response makes of every row, field by field: a live state replaces state
  // and reason, and each time if it is later; everything else stays as it was.
  lemma AppliedFields(ips: map<string, IpRow>, hash: Hash, states: States, now: Time, ip: string)
    ensures var out := Applied(ips, hash, states, now);
      var live := ip in states && states[ip].expireTime > now;
      && (ip in out <==> ip in ips || live)
      && (ip in ips && !live ==> out[ip] == ips[ip])
      && (live ==>
            && out[ip].state == states[ip].state && out[ip].reasonId == hash(states[ip].reason)
            && Greatest(out[ip].expireTime, ToUnix(states[ip].expireTime), ip in ips, if ip in ips then ips[ip].expireTime else 0)
            && Greatest(out[ip].modifiedAt, ToUnix(states[ip].modifiedAt), ip in ips, if ip in ips then ips[ip].modifiedAt else 0)
            && (out[ip].firstBlockedAt ==
                if ip in ips && 0 < ips[ip].firstBlockedAt < ToUnix(states[ip].firstBlockedAt) then ips[ip].firstBlockedAt
                else ToUnix(states[ip].firstBlockedAt)))
  {
  }

  // The greater of what was received and what was stored, if anything was.
  predicate Greatest(t: Unix, received: Unix, known: bool, stored: Unix) {
    t >= received && (known ==> t >= stored) && (t == received || (known && t == stored))
  }

  // Response n has a state for ip that is live when it is applied.
  predicate LiveIn(responses: seq<(States, Time)>, n: nat, ip: string) {
    n < |responses| && ip in responses[n].0 && responses[n].0[ip].expireTime > responses[n].1
  }

  // The last live one.
  ghost predicate LastLive(responses: seq<(States, Time)>, n: nat, ip: string) {
    LiveIn(responses, n, ip) && forall m :: n < m < |responses| ==> !LiveIn(responses, m, ip)
  }

  // t is the greatest of the stored time, if any, and those received live.
  ghost predicate GreatestOfAll(t: Unix, time: IPState -> Time, responses: seq<(States, Time)>, ip: string, known: bool,
          stored: Unix)
  {
    && (known ==> t >= stored)
    && (forall n: nat :: LiveIn(responses, n, ip) ==> t >= ToUnix(time(responses[n].0[ip])))
    && ((known && t == stored) || exists n: nat :: LiveIn(responses, n, ip) && t == ToUnix(time(responses[n].0[ip])))
  }

  lemma GreatestNext(t: Unix, t0: Unix, time: IPState -> Time, responses: seq<(States, Time)>, ip: string, known: bool,
          stored: Unix, before: bool)
    requires responses != []
    requires var prior := responses[..|responses| - 1];
      before == (known || exists n: nat :: LiveIn(prior, n, ip))
    requires before ==> GreatestOfAll(t0, time, responses[..|responses| - 1], ip, known, stored)
    requires var n := |responses| - 1;
      if LiveIn(responses, n, ip) then Greatest(t, ToUnix(time(responses[n].0[ip])), before, t0) else before && t == t0
    ensures GreatestOfAll(t, time, responses, ip, known, stored)
  {
    var n := |responses| - 1;
    var prior := responses[..n];
    assert forall m: nat :: m < n ==> (LiveIn(prior, m, ip) <==> LiveIn(responses, m, ip));
    if LiveIn(responses, n, ip) && t == ToUnix(time(responses[n].0[ip])) {
    } else if before && !(known && t0 == stored) {
      var m: nat :| LiveIn(prior, m, ip) && t0 == ToUnix(time(prior[m].0[ip]));
      assert LiveIn(responses, m, ip) && t == ToUnix(time(responses[m].0[ip]));
    }
    forall m: nat | LiveIn(responses, m, ip) ensures t >= ToUnix(time(responses[m].0[ip])) {
      if m < n { assert LiveIn(prior, m, ip); }
    }
  }

  // Over any sequence of responses: a row exists if it did before or some response had
  // it live; state and reason are those of the last such response; and each time is
  // the greatest of the stored one and all those received.
  lemma {:induction false} AppliedAllFields(ips: map<string, IpRow>, hash: Hash, responses: seq<(States, Time)>, ip: string)
    ensures var out := AppliedAll(ips, hash, responses);
      && (ip in out <==> ip in ips || exists n: nat :: LiveIn(responses, n, ip))
      && (ip in ips && (forall n: nat :: !LiveIn(responses, n, ip)) ==> out[ip] == ips[ip])
      && (forall n: nat :: LastLive(responses, n, ip) ==>
            out[ip].state == responses[n].0[ip].state && out[ip].reasonId == hash(responses[n].0[ip].reason))
      && (ip in out ==> TimesOf(out[ip], ips, responses, ip))
  {
    if responses != [] {
      var n := |responses| - 1;
      AppliedAllFields(ips, hash, responses[..n], ip);
      NextResponse(AppliedAll(ips, hash, responses[..n]), ips, hash, responses, ip);
    }
  }

  ghost predicate TimesOf(row: IpRow, ips: map<string, IpRow>, responses: seq<(States, Time)>, ip: string) {
    var known := ip in ips;
    && GreatestOfAll(row.expireTime, (s: IPState) => s.expireTime, responses, ip, known,
                     if known then ips[ip].expireTime else 0)
    && GreatestOfAll(row.modifiedAt, (s: IPState) => s.modifiedAt, responses, ip, known,
                     if known then ips[ip].modifiedAt else 0)
  }

  lemma NextResponse(mid: map<string, IpRow>, ips: map<string, IpRow>, hash: Hash, responses: seq<(States, Time)>,
          ip: string)
    requires responses != []
    requires var prior := responses[..|responses| - 1];
      && (ip in mid <==> ip in ips || exists n: nat :: LiveIn(prior, n, ip))
      && (ip in ips && (forall n: nat :: !LiveIn(prior, n, ip)) ==> mid[ip] == ips[ip])
      && (forall n: nat :: LastLive(prior, n, ip) ==>
            mid[ip].state == prior[n].0[ip].state && mid[ip].reasonId == hash(prior[n].0[ip].reason))
      && (ip in mid ==> TimesOf(mid[ip], ips, prior, ip))
    ensures var n := |responses| - 1;
      var out := Applied(mid, hash, responses[n].0, responses[n].1);
      && (ip in out <==> ip in ips || exists n: nat :: LiveIn(responses, n, ip))
      && (ip in ips && (forall n: nat :: !LiveIn(responses, n, ip)) ==> out[ip] == ips[ip])
      && (forall n: nat :: LastLive(responses, n, ip) ==>
            out[ip].state == responses[n].0[ip].state && out[ip].reasonId == hash(responses[n].0[ip].reason))
      && (ip in out ==> TimesOf(out[ip], ips, responses, ip))
  {
    var n := |responses| - 1;
    var prior, states, now := responses[..n], responses[n].0, responses[n].1;
    var out := Applied(mid, hash, states, now);
    AppliedFields(mid, hash, states, now, ip);
    assert forall m: nat :: m < n ==> (LiveIn(prior, m, ip) <==> LiveIn(responses, m, ip));
    forall m: nat | LastLive(responses, m, ip) && m < n ensures LastLive(prior, m, ip) {
    }
    if ip in out {
      var known := ip in ips;
      GreatestNext(out[ip].expireTime, if ip in mid then mid[ip].expireTime else 0, (s: IPState) => s.expireTime,
                   responses, ip, known, if known then ips[ip].expireTime else 0, ip in mid);
      GreatestNext(out[ip].modifiedAt, if ip in mid then mid[ip].modifiedAt else 0, (s: IPState) => s.modifiedAt,
                   responses, ip, known, if known then ips[ip].modifiedAt else 0, ip in mid);
    }
  }

  // The first block a row should show after a merge.
  function EarliestBlock(a: Unix, b: Unix): Unix {
    if a == 0 then b else if b == 0 then a else if a < b then a else b
  }

  // The upsert keeps it except when the leader reports none: then the follower
  // forgets its own.
  lemma FirstBlockKept(stored: Unix, excluded: Unix)
    requires stored >= 0 && excluded >= 0
    ensures KeepFirst(stored, excluded) == EarliestBlock(stored, excluded) <==> !(stored > 0 && excluded == 0)
  {
  }

  // And the leader reports none for every address that two nodes contributed to,
  // because the merge on request drops it.
  lemma SharedBlockLosesItsStart(ips: map<string, IpRow>, hash: Hash, input: Input, nodes: seq<Node>, states: States,
          now: Time, ip: string)
    requires input.variant == OnRequest && IsMerge(input, nodes, states)
    requires |Contributions(input, nodes, ip)| >= 2 && states[ip].expireTime > now
    ensures ip in Applied(ips, hash, states, now) && Applied(ips, hash, states, now)[ip].firstBlockedAt == 0
  {
    assert ip in states;
    RequestForgetsFirstBlock(Contributions(input, nodes, ip));
  }
}
