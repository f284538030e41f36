// Block reasons as strings: attribution to a node and merging without duplicates
// (internal/cluster/statesync.go; the same functions stand in
// internal/server/handlers_statesync.go).
module Reasons {
  import opened GoStrings
  import opened ChainKeys

  // AddSourceNode
  function AddSourceNode(reason: string, nodeName: string, nodeAddress: string): string {
    var source := if nodeName == "" then nodeAddress else nodeName;
    if Contains(reason, " (") && HasSuffix(reason, ")") then reason
    else if source == "" then reason
    else reason + " (" + source + ")"
  }

  // extractBaseReason
  function BaseReason(reason: string): string {
    var i := Index(reason, " (");
    if i >= 0 then reason[..i] else reason
  }

  // The bases MergeReasons finds in an existing joined reason.
  function KnownBases(existing: string): set<string> {
    set part | part in Split(existing, REASON_SEPARATOR) :: BaseReason(TrimSpace(part))
  }

  // MergeReasons
  function MergeReasons(existing: string, newReason: string): string {
    if existing == "" then newReason
    else if newReason == "" then existing
    else if BaseReason(newReason) in KnownBases(existing) then existing
    else existing + REASON_SEPARATOR + newReason
  }

  function MergeAll(reasons: seq<string>): string {
    if reasons == [] then ""
    else MergeReasons(MergeAll(reasons[..|reasons| - 1]), reasons[|reasons| - 1])
  }

  // ------------------------------------------------------- what merging means

  // One reason with its node: it cannot be split, and nothing of it is trimmed.
  predicate Attributed(reason: string) {
    Contains(reason, " (") && HasSuffix(reason, ")") && !Contains(reason, REASON_SEPARATOR)
  }

  predicate Single(reason: string) {
    Attributed(reason) && !IsSpace(reason[0])
  }

  ghost predicate AllSingle(reasons: seq<string>) {
    forall i :: 0 <= i < |reasons| ==> Single(reasons[i])
  }

  function Bases(reasons: seq<string>): set<string> {
    set r | r in reasons :: BaseReason(r)
  }

  // The reasons whose base was not seen before, in first-seen order.
  function FirstSeen(reasons: seq<string>): seq<string> {
    if reasons == [] then []
    else
      var n := |reasons| - 1;
      var before := FirstSeen(reasons[..n]);
      if BaseReason(reasons[n]) in Bases(before) then before else before + [reasons[n]]
  }

  // The base of a reason is what stands in front of its first source.
  lemma BaseExactly(reason: string)
    ensures BaseReason(reason) <= reason
    ensures BaseReason(reason) == reason <==> !Contains(reason, " (")
    ensures Contains(reason, " (") ==> " (" <= reason[|BaseReason(reason)|..]
    ensures !Contains(BaseReason(reason), " (")
  {
    if Contains(reason, " (") { NoneBefore(reason, " ("); }
  }

  // Nothing in front of the leftmost occurrence holds another.
  lemma {:induction false} NoneBefore(s: string, sub: string)
    requires Contains(s, sub) && sub != ""
    ensures !Contains(s[..Index(s, sub)], sub)
  {
    var i := Index(s, sub);
    if sub <= s {
      assert s[..i] == "";
    } else {
      NoneBefore(s[1..], sub);
      assert s[..i][1..] == s[1..][..i - 1];
      assert sub <= s[..i] ==> sub <= s;
    }
  }

  // ------------------------------------------------------------------ lemmas

  lemma {:induction false} TrimLeftStops(s: string)
    ensures TrimLeft(s) == "" || !IsSpace(TrimLeft(s)[0])
    ensures s != "" && !IsSpace(s[0]) ==> TrimLeft(s) == s
    ensures HasSuffix(s, ")") ==> HasSuffix(TrimLeft(s), ")")
  {
    if s != "" && IsSpace(s[0]) {
      TrimLeftStops(s[1..]);
      if HasSuffix(s, ")") { SuffixStays(s); }
    }
  }

  lemma SuffixStays(s: string)
    requires HasSuffix(s, ")") && s[0] != ')'
    ensures HasSuffix(s[1..], ")")
  {
    assert s[|s| - 1] == s[|s| - 1..][0] == ')';
    assert s[1..][|s| - 2..] == [s[|s| - 1]];
  }

  // A reason that ends in ')' is only trimmed on the left.
  lemma TrimOfClosed(s: string)
    requires HasSuffix(s, ")")
    ensures TrimSpace(s) == TrimLeft(s) != ""
  {
    TrimLeftStops(s);
    var t := TrimLeft(s);
    assert t[|t| - 1] == t[|t| - 1..][0] == ')';
  }

  lemma TrimOfSingle(s: string)
    requires Single(s)
    ensures TrimSpace(s) == s
  {
    TrimOfClosed(s);
    TrimLeftStops(s);
  }

  // Splitting takes off a leading part that contains no separator and ends in ')'.
  lemma {:induction false} SplitHead(p: string, rest: string)
    requires !Contains(p, REASON_SEPARATOR) && (p == "" || HasSuffix(p, ")"))
    ensures Split(p + REASON_SEPARATOR + rest, REASON_SEPARATOR) == [p] + Split(rest, REASON_SEPARATOR)
  {
    var sep := REASON_SEPARATOR;
    var s := p + sep + rest;
    if p == "" {
      assert s == sep + rest;
      assert s[|sep|..] == rest;
    } else {
      assert p[|p| - 1] == p[|p| - 1..][0] == ')';
      if |p| < |sep| { assert s[|p| - 1] == ')' != sep[|p| - 1]; }
      if |p| >= |sep| { assert s[..|sep|] == p[..|sep|]; }
      assert !(sep <= s);
      if |p| > 1 { assert p[1..][|p| - 2] == ')'; }
      SplitHead(p[1..], rest);
      assert s[1..] == p[1..] + sep + rest;
      assert [s[0]] + p[1..] == p;
    }
  }

  lemma {:induction false} SplitOfPart(p: string)
    requires !Contains(p, REASON_SEPARATOR)
    ensures Split(p, REASON_SEPARATOR) == [p]
  {
    if p != "" {
      SplitOfPart(p[1..]);
      assert [p[0]] + p[1..] == p;
    }
  }

  // Splitting undoes joining.
  lemma {:induction false} SplitOfJoin(parts: seq<string>)
    requires parts != [] && AllSingle(parts)
    ensures Split(Join(parts, REASON_SEPARATOR), REASON_SEPARATOR) == parts
  {
    if |parts| == 1 {
      SplitOfPart(parts[0]);
    } else {
      SplitHead(parts[0], Join(parts[1..], REASON_SEPARATOR));
      SplitOfJoin(parts[1..]);
    }
  }

  lemma {:induction false} JoinAppend(parts: seq<string>, p: string)
    requires parts != []
    ensures Join(parts + [p], REASON_SEPARATOR) == Join(parts, REASON_SEPARATOR) + REASON_SEPARATOR + p
  {
    var longer := parts + [p];
    if |parts| == 1 {
      assert longer[1..] == [p];
    } else {
      JoinAppend(parts[1..], p);
      assert longer[1..] == parts[1..] + [p];
      var head, tail := parts[0] + REASON_SEPARATOR, Join(parts[1..], REASON_SEPARATOR);
      assert head + (tail + REASON_SEPARATOR + p) == (head + tail) + REASON_SEPARATOR + p;
    }
  }

  lemma JoinNonEmpty(parts: seq<string>)
    requires parts != [] && AllSingle(parts)
    ensures Join(parts, REASON_SEPARATOR) != ""
  {
  }

  lemma {:induction false} FirstSeenIsSingle(reasons: seq<string>)
    requires AllSingle(reasons)
    ensures AllSingle(FirstSeen(reasons)) && (reasons != [] ==> FirstSeen(reasons) != [])
  {
    if reasons != [] {
      FirstSeenIsSingle(reasons[..|reasons| - 1]);
    }
  }

  lemma KnownBasesOfJoin(parts: seq<string>)
    requires parts != [] && AllSingle(parts)
    ensures KnownBases(Join(parts, REASON_SEPARATOR)) == Bases(parts)
  {
    SplitOfJoin(parts);
    forall p | p in parts ensures TrimSpace(p) == p {
      TrimOfSingle(p);
    }
  }

  // Merging on strings keeps the joined form of the ordered set.
  lemma {:induction false} MergeAllIsJoin(reasons: seq<string>)
    requires AllSingle(reasons)
    ensures MergeAll(reasons) == Join(FirstSeen(reasons), REASON_SEPARATOR)
  {
    if reasons != [] {
      var n := |reasons| - 1;
      var before := FirstSeen(reasons[..n]);
      MergeAllIsJoin(reasons[..n]);
      FirstSeenIsSingle(reasons[..n]);
      assert reasons[n] != "";
      if n > 0 {
        JoinNonEmpty(before);
        KnownBasesOfJoin(before);
        JoinAppend(before, reasons[n]);
      }
    }
  }

  // Merging any number of attributed reasons gives a string that splits back into
  // the ordered set of them.
  lemma MergeRefinesOrderedSet(reasons: seq<string>)
    requires reasons != [] && AllSingle(reasons)
    ensures Split(MergeAll(reasons), REASON_SEPARATOR) == FirstSeen(reasons)
  {
    MergeAllIsJoin(reasons);
    FirstSeenIsSingle(reasons);
    SplitOfJoin(FirstSeen(reasons));
  }

  // That set: the bases are pairwise distinct and are exactly the bases supplied.
  lemma {:induction false} FirstSeenBases(reasons: seq<string>)
    ensures var kept := FirstSeen(reasons);
            && (forall i, j :: 0 <= i < j < |kept| ==> BaseReason(kept[i]) != BaseReason(kept[j]))
            && Bases(kept) == Bases(reasons)
  {
    if reasons != [] {
      var n := |reasons| - 1;
      FirstSeenBases(reasons[..n]);
      var before := FirstSeen(reasons[..n]);
      assert reasons == reasons[..n] + [reasons[n]];
      assert Bases(reasons) == Bases(reasons[..n]) + {BaseReason(reasons[n])};
      var kept := FirstSeen(reasons);
      if kept != before {
        assert Bases(kept) == Bases(before) + {BaseReason(reasons[n])};
        forall i | 0 <= i < |before| ensures BaseReason(before[i]) != BaseReason(reasons[n]) {
          assert before[i] in before;
        }
      }
    }
  }

  // r is supplied at position i, and no reason with its base before that.
  ghost predicate FirstAt(reasons: seq<string>, r: string, i: nat) {
    i < |reasons| && reasons[i] == r && BaseReason(r) !in Bases(reasons[..i])
  }

  lemma FirstAtInPrefix(reasons: seq<string>, n: nat, r: string, i: nat)
    requires n <= |reasons| && FirstAt(reasons[..n], r, i)
    ensures FirstAt(reasons, r, i)
  {
    assert reasons[..n][..i] == reasons[..i];
  }

  // And the order is that of first appearance: the positions at which the kept
  // reasons were first supplied increase.
  lemma {:induction false} FirstSeenOrder(reasons: seq<string>) returns (at: seq<nat>)
    ensures |at| == |FirstSeen(reasons)|
    ensures forall i :: 0 <= i < |at| ==> FirstAt(reasons, FirstSeen(reasons)[i], at[i])
    ensures forall i, j :: 0 <= i < j < |at| ==> at[i] < at[j]
  {
    if reasons == [] {
      at := [];
    } else {
      var n := |reasons| - 1;
      var before := FirstSeen(reasons[..n]);
      at := FirstSeenOrder(reasons[..n]);
      forall i | 0 <= i < |at| ensures FirstAt(reasons, before[i], at[i]) {
        FirstAtInPrefix(reasons, n, before[i], at[i]);
      }
      FirstSeenBases(reasons[..n]);
      if BaseReason(reasons[n]) !in Bases(before) {
        at := at + [n];
      }
    }
  }

  // ------------------------------------------------------------- attribution

  // A reason that has a source keeps it, whoever attributes it next.
  lemma AttributionIsIdempotent(reason: string, name: string, address: string, name2: string, address2: string)
    requires name != "" || address != ""
    ensures AddSourceNode(AddSourceNode(reason, name, address), name2, address2) == AddSourceNode(reason, name, address)
  {
    var source := if name == "" then address else name;
    var r := AddSourceNode(reason, name, address);
    if r != reason {
      assert r == reason + " (" + (source + ")");
      ContainsInside(reason, " (", source + ")");
      assert r[|r| - 1..] == ")";
    }
  }

  lemma {:induction false} ContainsInside(a: string, sub: string, b: string)
    ensures Contains(a + sub + b, sub)
  {
    var s := a + sub + b;
    if a == "" {
      assert sub <= s;
    } else {
      assert s[1..] == a[1..] + sub + b;
      ContainsInside(a[1..], sub, b);
    }
  }

  // Attributing a bare reason gives a single one exactly when neither the reason
  // with the blank that follows it nor the source brings a separator along.
  lemma AttributedExactly(reason: string, name: string, address: string)
    requires !(Contains(reason, " (") && HasSuffix(reason, ")")) && (name != "" || address != "")
    ensures var source := if name == "" then address else name;
            Attributed(AddSourceNode(reason, name, address)) <==>
            !Contains(reason + " ", REASON_SEPARATOR) && !Contains(source, REASON_SEPARATOR)
  {
    var source := if name == "" then address else name;
    var r := AddSourceNode(reason, name, address);
    assert r == reason + " (" + (source + ")");
    ContainsInside(reason, " (", source + ")");
    assert r[|r| - 1..] == ")";
    assert r == (reason + " ") + "(" + (source + ")");
    ContainsAcross(reason + " ", '(', source + ")", REASON_SEPARATOR);
    assert source + ")" == source + ")" + "";
    ContainsAcross(source, ')', "", REASON_SEPARATOR);
  }

  lemma BaseStarts(reason: string)
    requires reason != ""
    ensures if BaseReason(reason) == "" then reason[0] == ' ' else BaseReason(reason)[0] == reason[0]
  {
    if Index(reason, " (") == 0 { assert reason[0..][0] == " ("[0]; }
  }

  // Merging a single reason with itself adds nothing, except when it begins with
  // white space: the part is trimmed before its base is taken, the new reason is not.
  lemma MergeWithItself(reason: string)
    requires Attributed(reason)
    ensures MergeReasons(reason, reason) == reason <==> !IsSpace(reason[0])
  {
    SplitOfPart(reason);
    TrimOfClosed(reason);
    TrimLeftStops(reason);
    var t := TrimLeft(reason);
    assert KnownBases(reason) == {BaseReason(t)};
    BaseStarts(t);
    BaseStarts(reason);
    if IsSpace(reason[0]) {
      assert BaseReason(t) != BaseReason(reason);
      assert |reason + REASON_SEPARATOR + reason| > |reason|;
    }
  }
}
