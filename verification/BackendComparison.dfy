// Comparing the stick tables of several HAProxy backends
// (internal/blocker/haproxy.go, CompareHAProxyBackends).
module BackendComparison {
  import opened StringOrder

  const TWO_63: int := 0x8000_0000_0000_0000

  type int64 = x: int | -0x8000_0000_0000_0000 <= x < 0x8000_0000_0000_0000

  // Go's int64 arithmetic wraps around.
  function Wrap(x: int): int64 {
    (x + TWO_63) % (2 * TWO_63) - TWO_63
  }

  const MILLISECOND: int := 1_000_000
  // The most milliseconds a time.Duration can hold.
  const MAX_SPAN: int := 9_223_372_036_854

  // exp: milliseconds left until the entry expires.
  datatype TableEntry = TableEntry(exp: int64, gpc0: int)

  // backend address -> table -> IP; a table that is nil in the source is absent here.
  type Tables = map<string, map<string, TableEntry>>
  type Backends = map<string, Tables>

  datatype Discrepancy =
    | PresenceMismatch(table: string, ip: string, presentIn: seq<string>, missingIn: seq<string>)
    | Gpc0Mismatch(table: string, ip: string, a: string, b: string, entryA: TableEntry, entryB: TableEntry)
    | ExpirationMismatch(table: string, ip: string, a: string, b: string, entryA: TableEntry, entryB: TableEntry,
                         diffMillis: int64)

  function DiffMillis(a: TableEntry, b: TableEntry): int64 {
    var d: int := Wrap(a.exp - b.exp);
    if d < 0 then Wrap(-d) else d
  }

  // The comparison of the source: milliseconds turned into a Duration.
  predicate Late(a: TableEntry, b: TableEntry, tolerance: int64) {
    Wrap(DiffMillis(a, b) * MILLISECOND) > tolerance
  }

  // ------------------------------------------------------------ what is wanted

  function Abs(x: int): nat {
    if x < 0 then -x else x
  }

  // The two expiries are at most `tolerance` nanoseconds apart.
  predicate Close(a: TableEntry, b: TableEntry, tolerance: int) {
    Abs(a.exp - b.exp) * MILLISECOND <= tolerance
  }

  predicate Holds(all: Backends, addr: string, table: string, ip: string) {
    addr in all && table in all[addr] && ip in all[addr][table]
  }

  function Entry(all: Backends, addr: string, table: string, ip: string): TableEntry
    requires Holds(all, addr, table, ip)
  {
    all[addr][table][ip]
  }

  function Holders(all: Backends, table: string, ip: string): set<string> {
    set addr | addr in all && Holds(all, addr, table, ip)
  }

  predicate IsFirst(addr: string, addrs: set<string>) {
    addr in addrs && forall b :: b in addrs && b != addr ==> Less(addr, b)
  }

  predicate FirstAndOther(all: Backends, table: string, ip: string, a: string, b: string) {
    IsFirst(a, Holders(all, table, ip)) && b in Holders(all, table, ip) && b != a
  }

  // Exactly what the report must hold.
  predicate IsDiscrepancy(all: Backends, tolerance: int64, d: Discrepancy) {
    match d
    case PresenceMismatch(t, ip, present, missing) =>
      && Lists(present, Holders(all, t, ip)) && present != []
      && Lists(missing, all.Keys - Holders(all, t, ip)) && missing != []
    case Gpc0Mismatch(t, ip, a, b, ea, eb) =>
      && FirstAndOther(all, t, ip, a, b)
      && ea == Entry(all, a, t, ip) && eb == Entry(all, b, t, ip)
      && ea.gpc0 != eb.gpc0
    case ExpirationMismatch(t, ip, a, b, ea, eb, diff) =>
      && FirstAndOther(all, t, ip, a, b)
      && ea == Entry(all, a, t, ip) && eb == Entry(all, b, t, ip)
      && diff == DiffMillis(ea, eb) && Late(ea, eb, tolerance)
  }

  predicate Distinct(s: seq<Discrepancy>) {
    forall i, j :: 0 <= i < j < |s| ==> s[i] != s[j]
  }

  ghost predicate Reports(report: seq<Discrepancy>, all: Backends, tolerance: int64) {
    && Distinct(report)
    && forall d :: d in report <==> IsDiscrepancy(all, tolerance, d)
  }

  // -------------------------------------------------------------- the algorithm

  // The tables and IPs present on any backend.
  method CollectUnique(all: Backends) returns (ips: map<string, set<string>>)
    ensures forall t, ip :: (t in ips && ip in ips[t]) <==> Holders(all, t, ip) != {}
  {
    ips := map[];
    var addrs := all.Keys;
    ghost var seen: set<string> := {};
    while addrs != {}
      invariant seen + addrs == all.Keys && seen !! addrs
      invariant forall t, ip :: (t in ips && ip in ips[t]) <==> HeldBy(all, seen, t, ip)
      decreases addrs
    {
      var addr :| addr in addrs;
      ips := CollectTables(ips, all[addr]);
      addrs := addrs - {addr};
      forall t, ip ensures HeldBy(all, seen + {addr}, t, ip) <==> (HeldBy(all, seen, t, ip) || Holds(all, addr, t, ip)) {
        OneMoreBackend(all, seen, addr, t, ip);
      }
      seen := seen + {addr};
    }
    forall t, ip ensures HeldBy(all, seen, t, ip) <==> Holders(all, t, ip) != {} {
      assert Holders(all, t, ip) * all.Keys == Holders(all, t, ip);
    }
  }

  predicate HeldBy(all: Backends, addrs: set<string>, t: string, ip: string) {
    Holders(all, t, ip) * addrs != {}
  }

  lemma OneMoreBackend(all: Backends, seen: set<string>, addr: string, t: string, ip: string)
    requires addr in all
    ensures HeldBy(all, seen + {addr}, t, ip) <==> (HeldBy(all, seen, t, ip) || Holds(all, addr, t, ip))
  {
    var holders := Holders(all, t, ip);
    assert Holds(all, addr, t, ip) ==> addr in holders * (seen + {addr});
    assert holders * (seen + {addr}) == holders * seen + holders * {addr};
  }

  method CollectTables(ips: map<string, set<string>>, tables: Tables) returns (r: map<string, set<string>>)
    ensures forall t, ip ::
      (t in r && ip in r[t]) <==> ((t in ips && ip in ips[t]) || (t in tables && ip in tables[t]))
  {
    r := ips;
    var left := tables.Keys;
    while left != {}
      invariant left <= tables.Keys
      invariant forall t, ip ::
        (t in r && ip in r[t]) <==> ((t in ips && ip in ips[t]) || (t in tables && t !in left && ip in tables[t]))
      decreases left
    {
      var t :| t in left;
      if t !in r {
        r := r[t := {}];
      }
      r := r[t := r[t] + tables[t].Keys];
      left := left - {t};
    }
  }

  // The backends with and without the entry, in address order.
  method SplitByPresence(all: Backends, addrs: seq<string>, t: string, ip: string)
    returns (present: seq<string>, missing: seq<string>)
    requires Lists(addrs, all.Keys)
    ensures Lists(present, Holders(all, t, ip))
    ensures Lists(missing, all.Keys - Holders(all, t, ip))
  {
    present, missing := [], [];
    var i := 0;
    while i < |addrs|
      invariant 0 <= i <= |addrs|
      invariant Sorted(present) && Sorted(missing)
      invariant forall x :: x in present <==> x in addrs[..i] && Holds(all, x, t, ip)
      invariant forall x :: x in missing <==> x in addrs[..i] && !Holds(all, x, t, ip)
    {
      var addr := addrs[i];
      assert forall x :: x in addrs[..i] ==> Less(x, addr);
      assert addrs[..i + 1] == addrs[..i] + [addr];
      assert addr in Elements(addrs);
      if t in all[addr] && ip in all[addr][t] {
        present := present + [addr];
      } else {
        missing := missing + [addr];
      }
      i := i + 1;
    }
    assert addrs[..i] == addrs;
    assert forall x :: x in addrs <==> x in Elements(addrs);
  }

  // Everything there is to report about one entry.
  method ComparePair(all: Backends, addrs: seq<string>, t: string, ip: string, tolerance: int64)
    returns (r: seq<Discrepancy>)
    requires Lists(addrs, all.Keys)
    ensures Distinct(r)
    ensures forall d :: d in r <==> d.table == t && d.ip == ip && IsDiscrepancy(all, tolerance, d)
  {
    var present, missing := SplitByPresence(all, addrs, t, ip);
    r := [];
    if |present| > 0 && |missing| > 0 {
      r := [PresenceMismatch(t, ip, present, missing)];
    }
    forall d: Discrepancy | d.PresenceMismatch? && d.table == t && d.ip == ip
      ensures d in r <==> IsDiscrepancy(all, tolerance, d)
    {
      if IsDiscrepancy(all, tolerance, d) {
        OneListing(d.presentIn, present);
        OneListing(d.missingIn, missing);
      }
    }
    if |present| > 1 {
      SortedFirst(present);
      var compared := CompareWithFirst(all, present, t, ip, tolerance);
      AppendDistinct(r, compared);
      r := r + compared;
    } else {
      forall d: Discrepancy | d.table == t && d.ip == ip && !d.PresenceMismatch?
        ensures !IsDiscrepancy(all, tolerance, d)
      {
        if IsDiscrepancy(all, tolerance, d) { AtMostOne(present, d.a, d.b); }
      }
    }
  }

  lemma SortedFirst(s: seq<string>)
    requires Sorted(s) && s != []
    ensures IsFirst(s[0], Elements(s))
  {
    assert s[0] in Elements(s);
  }

  lemma AtMostOne(s: seq<string>, a: string, b: string)
    requires |s| <= 1 && a in Elements(s) && b in Elements(s)
    ensures a == b
  {
  }

  lemma OnlyOneFirst(a: string, b: string, addrs: set<string>)
    requires IsFirst(a, addrs) && IsFirst(b, addrs)
    ensures a == b
  {
    if a != b {
      LessIsTransitive(a, b, a);
      LessIsIrreflexive(a);
    }
  }

  lemma AppendDistinct(r: seq<Discrepancy>, more: seq<Discrepancy>)
    requires Distinct(r) && Distinct(more)
    requires forall d :: d in r ==> d !in more
    ensures Distinct(r + more)
  {
    var s := r + more;
    forall i, j | 0 <= i < j < |s| ensures s[i] != s[j] {
      if i < |r| && |r| <= j {
        assert r[i] in r && more[j - |r|] in more;
      }
    }
  }

  // The mismatches of one backend with the first one holding the entry.
  method CompareEntries(all: Backends, a: string, b: string, t: string, ip: string, tolerance: int64)
    returns (r: seq<Discrepancy>)
    requires FirstAndOther(all, t, ip, a, b)
    ensures Distinct(r)
    ensures forall d :: d in r <==> MismatchWith(all, t, ip, tolerance, d) && d.b == b
  {
    r := [];
    var entryA, entryB := Entry(all, a, t, ip), Entry(all, b, t, ip);
    if entryA.gpc0 != entryB.gpc0 {
      r := r + [Gpc0Mismatch(t, ip, a, b, entryA, entryB)];
    }
    var diffMillis := Wrap(entryA.exp - entryB.exp);
    if diffMillis < 0 {
      diffMillis := Wrap(-diffMillis);
    }
    if Wrap(diffMillis * MILLISECOND) > tolerance {
      r := r + [ExpirationMismatch(t, ip, a, b, entryA, entryB, diffMillis)];
    }
    forall d | MismatchWith(all, t, ip, tolerance, d) && d.b == b ensures d in r {
      OnlyOneFirst(a, d.a, Holders(all, t, ip));
    }
  }

  predicate MismatchWith(all: Backends, t: string, ip: string, tolerance: int64, d: Discrepancy) {
    d.table == t && d.ip == ip && !d.PresenceMismatch? && IsDiscrepancy(all, tolerance, d)
  }

  method CompareWithFirst(all: Backends, present: seq<string>, t: string, ip: string, tolerance: int64)
    returns (r: seq<Discrepancy>)
    requires Lists(present, Holders(all, t, ip)) && |present| > 1
    ensures Distinct(r)
    ensures forall d :: d in r <==> MismatchWith(all, t, ip, tolerance, d)
  {
    r := [];
    SortedFirst(present);
    var i := 1;
    while i < |present|
      invariant 1 <= i <= |present|
      invariant Distinct(r)
      invariant forall d :: d in r <==> MismatchWith(all, t, ip, tolerance, d) && d.b in present[1..i]
    {
      var addr := present[i];
      assert addr in Elements(present);
      LessIsIrreflexive(addr);
      assert forall x :: x in present[..i] ==> Less(x, addr);
      var more := CompareEntries(all, present[0], addr, t, ip, tolerance);
      AppendDistinct(r, more);
      assert present[1..i + 1] == present[1..i] + [addr];
      r := r + more;
      i := i + 1;
    }
    forall d | MismatchWith(all, t, ip, tolerance, d) ensures d in r {
      OnlyOneFirst(present[0], d.a, Elements(present));
      assert d.b in Elements(present);
      assert present == [present[0]] + present[1..i];
    }
  }

  // The comparison of the source, after all the entries were fetched.
  method Compare(all: Backends, tolerance: int64) returns (report: seq<Discrepancy>)
    ensures Reports(report, all, tolerance)
  {
    var ips := CollectUnique(all);
    var addrs := SortedKeys(all.Keys);
    report := [];
    var tables := ips.Keys;
    while tables != {}
      invariant tables <= ips.Keys
      invariant Distinct(report)
      invariant forall d :: d in report <==> IsDiscrepancy(all, tolerance, d) && d.table in ips.Keys - tables
      decreases tables
    {
      var t :| t in tables;
      var more := CompareTable(all, addrs, t, ips[t], tolerance);
      AppendDistinct(report, more);
      report := report + more;
      tables := tables - {t};
    }
    forall d | IsDiscrepancy(all, tolerance, d) ensures d.table in ips.Keys {
      DiscrepancyIsHeld(all, tolerance, d);
    }
  }

  lemma DiscrepancyIsHeld(all: Backends, tolerance: int64, d: Discrepancy)
    requires IsDiscrepancy(all, tolerance, d)
    ensures Holders(all, d.table, d.ip) != {}
  {
    if d.PresenceMismatch? {
      assert d.presentIn[0] in Elements(d.presentIn);
    } else {
      assert d.b in Holders(all, d.table, d.ip);
    }
  }

  method CompareTable(all: Backends, addrs: seq<string>, t: string, ips: set<string>, tolerance: int64)
    returns (r: seq<Discrepancy>)
    requires Lists(addrs, all.Keys)
    requires forall ip :: ip in ips <==> Holders(all, t, ip) != {}
    ensures Distinct(r)
    ensures forall d :: d in r <==> IsDiscrepancy(all, tolerance, d) && d.table == t
  {
    r := [];
    var left := ips;
    while left != {}
      invariant left <= ips
      invariant Distinct(r)
      invariant forall d :: d in r <==> IsDiscrepancy(all, tolerance, d) && d.table == t && d.ip in ips - left
      decreases left
    {
      var ip :| ip in left;
      var more := ComparePair(all, addrs, t, ip, tolerance);
      AppendDistinct(r, more);
      r := r + more;
      left := left - {ip};
    }
    forall d | IsDiscrepancy(all, tolerance, d) && d.table == t ensures d.ip in ips {
      DiscrepancyIsHeld(all, tolerance, d);
    }
  }

  // What one backend answered: nothing usable, or the entries of its tables.
  datatype Answer = Failed | Tables(tables: Tables)
  datatype Outcome = Error | Report(report: seq<Discrepancy>)

  // Tables without entries are not kept.
  function Kept(tables: Tables): Tables {
    map t | t in tables && tables[t] != map[] :: tables[t]
  }

  function Gathered(addresses: seq<string>, fetch: string -> Answer): Backends
    requires forall addr :: addr in addresses ==> fetch(addr).Tables?
  {
    map addr | addr in addresses :: Kept(fetch(addr).tables)
  }

  method CompareHAProxyBackends(addresses: seq<string>, fetch: string -> Answer, tolerance: int64)
    returns (r: Outcome)
    ensures r.Error? <==> |addresses| < 2 || exists addr :: addr in addresses && fetch(addr).Failed?
    ensures r.Report? ==> Reports(r.report, Gathered(addresses, fetch), tolerance)
  {
    if |addresses| < 2 {
      return Error;
    }
    var all: Backends, failed := map[], false;
    var i := 0;
    while i < |addresses|
      invariant 0 <= i <= |addresses|
      invariant failed <==> exists addr :: addr in addresses[..i] && fetch(addr).Failed?
      invariant !failed ==> all == Gathered(addresses[..i], fetch)
    {
      assert addresses[..i + 1] == addresses[..i] + [addresses[i]];
      match fetch(addresses[i]) {
        case Failed => failed := true;
        case Tables(tables) => all := all[addresses[i] := Kept(tables)];
      }
      i := i + 1;
    }
    assert addresses[..i] == addresses;
    if failed {
      return Error;
    }
    var report := Compare(all, tolerance);
    r := Report(report);
  }

  // ------------------------------------------------------------------ results

  // Every entry present anywhere is everywhere, with the counter of the first
  // backend and an expiry close to the first backend's.
  ghost predicate Agree(all: Backends, tolerance: int) {
    forall t, ip, a, b :: IsFirst(a, Holders(all, t, ip)) && b in all && b != a ==>
      && Holds(all, b, t, ip)
      && Entry(all, a, t, ip).gpc0 == Entry(all, b, t, ip).gpc0
      && Close(Entry(all, a, t, ip), Entry(all, b, t, ip), tolerance)
  }

  // No expiry is further from the first backend's than a Duration can say.
  ghost predicate SpansFit(all: Backends) {
    forall t, ip, a, b :: IsFirst(a, Holders(all, t, ip)) && b in Holders(all, t, ip) ==>
      Abs(Entry(all, a, t, ip).exp - Entry(all, b, t, ip).exp) <= MAX_SPAN
  }

  ghost predicate Clean(all: Backends, tolerance: int64) {
    forall d :: !IsDiscrepancy(all, tolerance, d)
  }

  lemma FitsIsExact(a: TableEntry, b: TableEntry, tolerance: int64)
    requires Abs(a.exp - b.exp) <= MAX_SPAN
    ensures DiffMillis(a, b) == Abs(a.exp - b.exp)
    ensures Late(a, b, tolerance) <==> !Close(a, b, tolerance)
  {
    WrapFits(a.exp - b.exp);
    WrapFits(b.exp - a.exp);
    WrapFits(Abs(a.exp - b.exp) * MILLISECOND);
  }

  lemma WrapFits(x: int)
    requires -TWO_63 <= x < TWO_63
    ensures Wrap(x) == x
  {
  }

  // The comparison of two expiries is right for every tolerance exactly when
  // their distance fits a Duration; beyond that it wraps around.
  lemma ToleranceIsExact(a: TableEntry, b: TableEntry)
    ensures (forall tolerance: int64 :: Late(a, b, tolerance) <==> !Close(a, b, tolerance))
      <==> Abs(a.exp - b.exp) <= MAX_SPAN
  {
    if Abs(a.exp - b.exp) <= MAX_SPAN {
      forall tolerance: int64 ensures Late(a, b, tolerance) <==> !Close(a, b, tolerance) {
        FitsIsExact(a, b, tolerance);
      }
    } else {
      assert !Late(a, b, TWO_63 - 1) && !Close(a, b, TWO_63 - 1);
    }
  }

  lemma FirstExists(addrs: set<string>) returns (a: string)
    requires addrs != {}
    ensures IsFirst(a, addrs)
  {
    var s := ListingExists(addrs);
    assert s == [] ==> Elements(s) == {};
    SortedFirst(s);
    a := s[0];
  }

  // The backends agree exactly when the report is empty and no expiry distance is too
  // long to be compared.
  lemma CleanMeansAgreement(all: Backends, tolerance: int64)
    ensures Agree(all, tolerance) <==> Clean(all, tolerance) && SpansFit(all)
  {
    if Clean(all, tolerance) && SpansFit(all) {
      forall t, ip, a, b | IsFirst(a, Holders(all, t, ip)) && b in all && b != a
        ensures Holds(all, b, t, ip)
        ensures Entry(all, a, t, ip).gpc0 == Entry(all, b, t, ip).gpc0
        ensures Close(Entry(all, a, t, ip), Entry(all, b, t, ip), tolerance)
      {
        CleanPair(all, tolerance, t, ip, a, b);
      }
    }
    if Agree(all, tolerance) {
      forall d ensures !IsDiscrepancy(all, tolerance, d) {
        if IsDiscrepancy(all, tolerance, d) { DiscrepancyDisagrees(all, tolerance, d); }
      }
    }
  }

  lemma CleanPair(all: Backends, tolerance: int64, t: string, ip: string, a: string, b: string)
    requires SpansFit(all) && Clean(all, tolerance)
    requires IsFirst(a, Holders(all, t, ip)) && b in all && b != a
    ensures Holds(all, b, t, ip)
    ensures Entry(all, a, t, ip).gpc0 == Entry(all, b, t, ip).gpc0
    ensures Close(Entry(all, a, t, ip), Entry(all, b, t, ip), tolerance)
  {
    var holders := Holders(all, t, ip);
    if b !in holders {
      var present := ListingExists(holders);
      var missing := ListingExists(all.Keys - holders);
      assert a in Elements(present) && b in Elements(missing);
      assert IsDiscrepancy(all, tolerance, PresenceMismatch(t, ip, present, missing));
    }
    var ea, eb := Entry(all, a, t, ip), Entry(all, b, t, ip);
    FitsIsExact(ea, eb, tolerance);
    assert !IsDiscrepancy(all, tolerance, Gpc0Mismatch(t, ip, a, b, ea, eb));
    assert !IsDiscrepancy(all, tolerance, ExpirationMismatch(t, ip, a, b, ea, eb, DiffMillis(ea, eb)));
  }

  lemma DiscrepancyDisagrees(all: Backends, tolerance: int64, d: Discrepancy)
    requires IsDiscrepancy(all, tolerance, d)
    ensures !Agree(all, tolerance)
  {
    var holders := Holders(all, d.table, d.ip);
    DiscrepancyIsHeld(all, tolerance, d);
    var a := FirstExists(holders);
    if d.PresenceMismatch? {
      assert d.missingIn[0] in Elements(d.missingIn);
      assert d.missingIn[0] in all && !Holds(all, d.missingIn[0], d.table, d.ip);
    } else {
      OnlyOneFirst(a, d.a, holders);
      if Abs(d.entryA.exp - d.entryB.exp) <= MAX_SPAN { FitsIsExact(d.entryA, d.entryB, tolerance); }
      assert d.b in all;
    }
  }

  // Something is wrong whatever the tolerance: an entry is missing or counters differ.
  ghost predicate Differ(all: Backends) {
    exists d: Discrepancy :: !d.ExpirationMismatch? && IsDiscrepancy(all, 0, d)
  }

  lemma DifferingNeverAgree(all: Backends, tolerance: int64)
    requires Differ(all)
    ensures !Clean(all, tolerance) && !Agree(all, tolerance)
  {
    var d: Discrepancy :| !d.ExpirationMismatch? && IsDiscrepancy(all, 0, d);
    assert IsDiscrepancy(all, tolerance, d);
    DiscrepancyIsHeld(all, tolerance, d);
    var a := FirstExists(Holders(all, d.table, d.ip));
    if d.PresenceMismatch? {
      assert d.missingIn[0] in Elements(d.missingIn);
      assert d.missingIn[0] in all && !Holds(all, d.missingIn[0], d.table, d.ip);
    } else {
      OnlyOneFirst(a, d.a, Holders(all, d.table, d.ip));
      assert d.b in all;
    }
  }

  // The report is right at every tolerance exactly when no expiry distance
  // wraps around or the backends differ in some other way.
  lemma ReportIsExact(all: Backends)
    ensures (forall tolerance: int64 :: Clean(all, tolerance) <==> Agree(all, tolerance))
      <==> (SpansFit(all) || Differ(all))
  {
    forall tolerance: int64 | SpansFit(all) || Differ(all)
      ensures Clean(all, tolerance) <==> Agree(all, tolerance)
    {
      if Differ(all) {
        DifferingNeverAgree(all, tolerance);
      } else {
        CleanMeansAgreement(all, tolerance);
      }
    }
    if !SpansFit(all) && !Differ(all) {
      var largest: int64 := TWO_63 - 1;
      forall d: Discrepancy ensures !IsDiscrepancy(all, largest, d) {
        assert !d.ExpirationMismatch? ==> (IsDiscrepancy(all, largest, d) <==> IsDiscrepancy(all, 0, d));
      }
      assert Clean(all, largest) && !Agree(all, largest);
    }
  }

  // A clean report bounds any two backends by twice the tolerance ...
  lemma CleanBoundsAnyTwo(all: Backends, tolerance: int64, t: string, ip: string, b: string, c: string)
    requires Clean(all, tolerance) && SpansFit(all) && tolerance >= 0
    requires b in all && c in all && Holders(all, t, ip) != {}
    ensures Holds(all, b, t, ip) && Holds(all, c, t, ip)
    ensures Entry(all, b, t, ip).gpc0 == Entry(all, c, t, ip).gpc0
    ensures Close(Entry(all, b, t, ip), Entry(all, c, t, ip), 2 * tolerance)
  {
    CleanMeansAgreement(all, tolerance);
    var a := FirstExists(Holders(all, t, ip));
    assert Holds(all, a, t, ip);
    assert b != a ==> Holds(all, b, t, ip);
    assert c != a ==> Holds(all, c, t, ip);
  }

  // ... which three backends reach, whatever the tolerance in milliseconds.
  ghost predicate Three(all: Backends, a: string, b: string, c: string, t: string, ip: string, gap: nat) {
    && all.Keys == {a, b, c} && Less(a, b) && Less(a, c)
    && (forall x, t', ip' :: Holds(all, x, t', ip') <==> x in all && t' == t && ip' == ip)
    && Entry(all, a, t, ip).exp == gap && Entry(all, a, t, ip).gpc0 == 1
    && Entry(all, b, t, ip).exp == 0 && Entry(all, b, t, ip).gpc0 == 1
    && Entry(all, c, t, ip).exp == 2 * gap && Entry(all, c, t, ip).gpc0 == 1
  }

  lemma ThreeExist(a: string, b: string, c: string, t: string, ip: string, gap: nat) returns (all: Backends)
    requires 2 * gap <= MAX_SPAN && Less(a, b) && Less(a, c) && b != c
    ensures Three(all, a, b, c, t, ip, gap)
  {
    LessIsIrreflexive(a);
    var first, second, third := TableEntry(gap, 1), TableEntry(0, 1), TableEntry(2 * gap, 1);
    all := map[a := map[t := map[ip := first]], b := map[t := map[ip := second]], c := map[t := map[ip := third]]];
  }

  lemma ThreeAgree(all: Backends, a: string, b: string, c: string, t: string, ip: string, gap: nat)
    requires 2 * gap <= MAX_SPAN && Three(all, a, b, c, t, ip, gap)
    ensures SpansFit(all) && Agree(all, gap * MILLISECOND)
  {
    assert IsFirst(a, Holders(all, t, ip));
    forall t', ip', x | IsFirst(x, Holders(all, t', ip')) ensures x == a && t' == t && ip' == ip {
      assert Holds(all, x, t', ip');
      OnlyOneFirst(x, a, Holders(all, t, ip));
    }
  }

  lemma TwiceTheToleranceIsReached(a: string, b: string, c: string, t: string, ip: string, gap: nat)
    returns (all: Backends)
    requires 2 * gap <= MAX_SPAN && Less(a, b) && Less(a, c) && b != c
    ensures Clean(all, gap * MILLISECOND)
    ensures Holds(all, b, t, ip) && Holds(all, c, t, ip)
    ensures !Close(Entry(all, b, t, ip), Entry(all, c, t, ip), 2 * gap * MILLISECOND - 1)
  {
    all := ThreeExist(a, b, c, t, ip, gap);
    ThreeAgree(all, a, b, c, t, ip, gap);
    CleanMeansAgreement(all, gap * MILLISECOND);
  }

  // Backends that agree pairwise within the tolerance are reported clean.
  lemma PairwiseAgreementIsClean(all: Backends, tolerance: int64)
    requires forall t, ip, b, c :: Holders(all, t, ip) != {} && b in all && c in all ==>
      && Holds(all, b, t, ip) && Holds(all, c, t, ip)
      && Entry(all, b, t, ip).gpc0 == Entry(all, c, t, ip).gpc0
      && Close(Entry(all, b, t, ip), Entry(all, c, t, ip), tolerance)
    ensures Clean(all, tolerance) && SpansFit(all)
  {
    assert Agree(all, tolerance) by {
      forall t, ip, a, b | IsFirst(a, Holders(all, t, ip)) && b in all && b != a
        ensures Holds(all, b, t, ip)
        ensures Entry(all, a, t, ip).gpc0 == Entry(all, b, t, ip).gpc0
        ensures Close(Entry(all, a, t, ip), Entry(all, b, t, ip), tolerance)
      {
        assert a in Holders(all, t, ip) && a in all;
      }
    }
    CleanMeansAgreement(all, tolerance);
  }
}
