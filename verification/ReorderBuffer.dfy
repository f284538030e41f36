// The out-of-order buffer: kept sorted by time, drained from the front
// (internal/checker/checker.go).
module ReorderBuffer {
  import opened LogEntries

  ghost predicate Sorted(buffer: seq<LogEntry>) {
    forall i, j :: 0 <= i < j < |buffer| ==> buffer[i].timestamp <= buffer[j].timestamp
  }

  // ShouldBufferOutOfOrder
  predicate ShouldBuffer(lastRequest: Time, timestamp: Time, tolerance: Duration) {
    lastRequest != ZERO_TIME && timestamp < lastRequest && Sub(lastRequest, timestamp) <= tolerance
  }

  // Where AddToOooBuffer puts an entry: before the first one that is later.
  function InsertionPoint(buffer: seq<LogEntry>, t: Time): (i: nat)
    ensures i <= |buffer|
    ensures forall j :: 0 <= j < i ==> buffer[j].timestamp <= t
    ensures i < |buffer| ==> buffer[i].timestamp > t
  {
    if buffer == [] || buffer[0].timestamp > t then 0 else 1 + InsertionPoint(buffer[1..], t)
  }

  function Insert(buffer: seq<LogEntry>, e: LogEntry): seq<LogEntry> {
    var i := InsertionPoint(buffer, e.timestamp);
    buffer[..i] + [e] + buffer[i..]
  }

  // How many entries at the front a drain takes.
  function ReadyCount(buffer: seq<LogEntry>, horizon: Time): (n: nat)
    ensures n <= |buffer|
    ensures forall j :: 0 <= j < n ==> buffer[j].timestamp < horizon
    ensures n < |buffer| ==> buffer[n].timestamp >= horizon
  {
    if buffer == [] || buffer[0].timestamp >= horizon then 0 else 1 + ReadyCount(buffer[1..], horizon)
  }

  ghost predicate Permutation(a: seq<LogEntry>, b: seq<LogEntry>) {
    multiset(a) == multiset(b)
  }

  // What sort.Slice may leave: any time-ordered arrangement of the same entries.
  ghost predicate SortOf(sorted: seq<LogEntry>, from: seq<LogEntry>) {
    Sorted(sorted) && Permutation(sorted, from)
  }

  // -------------------------------------------------------------- lemmas

  // Insertion keeps the order and the other entries; the new entry goes behind
  // every entry that is not later, and so behind those with the same time.
  lemma InsertKeepsOrder(buffer: seq<LogEntry>, e: LogEntry)
    requires Sorted(buffer)
    ensures Sorted(Insert(buffer, e))
    ensures multiset(Insert(buffer, e)) == multiset(buffer) + multiset{e}
    ensures forall j :: InsertionPoint(buffer, e.timestamp) <= j < |buffer| ==> buffer[j].timestamp > e.timestamp
  {
    InsertAt(buffer, e, InsertionPoint(buffer, e.timestamp));
    InsertAdds(buffer, e, InsertionPoint(buffer, e.timestamp));
  }

  lemma InsertAt(buffer: seq<LogEntry>, e: LogEntry, i: nat)
    requires Sorted(buffer) && i <= |buffer|
    requires i > 0 ==> buffer[i - 1].timestamp <= e.timestamp
    requires i < |buffer| ==> buffer[i].timestamp > e.timestamp
    ensures Sorted(buffer[..i] + [e] + buffer[i..])
    ensures forall j :: i <= j < |buffer| ==> buffer[j].timestamp > e.timestamp
  {
    SortedJoin(buffer[..i], [e]);
    SortedJoin(buffer[..i] + [e], buffer[i..]);
  }

  lemma InsertAdds(buffer: seq<LogEntry>, e: LogEntry, i: nat)
    requires i <= |buffer|
    ensures multiset(buffer[..i] + [e] + buffer[i..]) == multiset(buffer) + multiset{e}
  {
    assert buffer == buffer[..i] + buffer[i..];
  }

  lemma SortedJoin(a: seq<LogEntry>, b: seq<LogEntry>)
    requires Sorted(a) && Sorted(b)
    requires a != [] && b != [] ==> a[|a| - 1].timestamp <= b[0].timestamp
    ensures Sorted(a + b)
  {
  }

  // A drain takes exactly the entries before the horizon, in time order.
  lemma DrainTakesTheReady(buffer: seq<LogEntry>, horizon: Time)
    requires Sorted(buffer)
    ensures var n := ReadyCount(buffer, horizon);
            && Sorted(buffer[..n]) && Sorted(buffer[n..])
            && multiset(buffer[..n]) + multiset(buffer[n..]) == multiset(buffer)
            && (forall e :: e in buffer[..n] ==> e.timestamp < horizon)
            && (forall e :: e in buffer[n..] ==> e.timestamp >= horizon)
  {
    var n := ReadyCount(buffer, horizon);
    assert buffer == buffer[..n] + buffer[n..];
  }
}
