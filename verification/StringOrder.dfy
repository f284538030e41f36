// The order sort.Strings sorts by, and the one sorted listing of a finite set
// of strings.
module StringOrder {

  predicate Less(a: string, b: string) {
    b != "" && (a == "" || a[0] < b[0] || (a[0] == b[0] && Less(a[1..], b[1..])))
  }

  lemma {:induction false} LessIsTotal(a: string, b: string)
    ensures a == b || Less(a, b) || Less(b, a)
  {
    if a != "" && b != "" && a[0] == b[0] {
      LessIsTotal(a[1..], b[1..]);
      if a[1..] == b[1..] {
        assert a == [a[0]] + a[1..] && b == [b[0]] + b[1..];
      }
    }
  }

  lemma {:induction false} LessIsTransitive(a: string, b: string, c: string)
    requires Less(a, b) && Less(b, c)
    ensures Less(a, c)
  {
    if a != "" && a[0] == b[0] && b[0] == c[0] {
      LessIsTransitive(a[1..], b[1..], c[1..]);
    }
  }

  lemma {:induction false} LessIsIrreflexive(a: string)
    ensures !Less(a, a)
  {
    if a != "" { LessIsIrreflexive(a[1..]); }
  }

  predicate Sorted(s: seq<string>) {
    forall i, j :: 0 <= i < j < |s| ==> Less(s[i], s[j])
  }

  function Elements(s: seq<string>): set<string> {
    set x | x in s
  }

  predicate Lists(s: seq<string>, x: set<string>) {
    Sorted(s) && Elements(s) == x
  }

  // Where a string belongs in a sorted listing.
  function Insert(s: seq<string>, x: string): (r: seq<string>)
    ensures Elements(r) == Elements(s) + {x}
  {
    if s == [] then [x]
    else if Less(x, s[0]) then [x] + s
    else
      var rest := Insert(s[1..], x);
      assert s == [s[0]] + s[1..];
      assert forall y :: y in rest <==> y in Elements(rest);
      assert forall y :: y in s <==> y == s[0] || y in Elements(s[1..]);
      [s[0]] + rest
  }

  lemma {:induction false} InsertKeepsSorted(s: seq<string>, x: string)
    requires Sorted(s) && x !in s
    ensures Sorted(Insert(s, x))
  {
    var r := Insert(s, x);
    if s == [] {
    } else if Less(x, s[0]) {
      forall i, j | 0 <= i < j < |r| ensures Less(r[i], r[j]) {
        if i == 0 && j > 1 { LessIsTransitive(x, s[0], s[j - 1]); }
      }
    } else {
      InsertKeepsSorted(s[1..], x);
      LessIsTotal(x, s[0]);
      var rest := Insert(s[1..], x);
      forall i, j | 0 <= i < j < |r| ensures Less(r[i], r[j]) {
        if i == 0 {
          assert r[j] in Elements(rest);
        }
      }
    }
  }

  // A set of strings has one sorted listing, whatever order it was read in.
  lemma {:induction false} OneListing(s: seq<string>, t: seq<string>)
    requires Sorted(s) && Sorted(t) && Elements(s) == Elements(t)
    ensures s == t
  {
    assert s != [] ==> s[0] in Elements(t);
    assert t != [] ==> t[0] in Elements(s);
    if s != [] && t != [] {
      FirstIsLeast(s, t);
      FirstIsLeast(t, s);
      if s[0] != t[0] {
        LessIsTransitive(s[0], t[0], s[0]);
        LessIsIrreflexive(s[0]);
      }
      TailElements(s);
      TailElements(t);
      OneListing(s[1..], t[1..]);
      assert s == [s[0]] + s[1..] && t == [t[0]] + t[1..];
    }
  }

  lemma FirstIsLeast(s: seq<string>, t: seq<string>)
    requires Sorted(s) && s != [] && t != [] && Elements(s) == Elements(t)
    ensures s[0] == t[0] || Less(s[0], t[0])
  {
    assert t[0] in Elements(s);
    var i :| 0 <= i < |s| && s[i] == t[0];
  }

  lemma TailElements(s: seq<string>)
    requires Sorted(s) && s != []
    ensures Elements(s[1..]) == Elements(s) - {s[0]}
  {
    LessIsIrreflexive(s[0]);
    assert s == [s[0]] + s[1..];
  }

  lemma {:induction false} ListingExists(x: set<string>) returns (s: seq<string>)
    ensures Lists(s, x)
  {
    if x == {} {
      s := [];
    } else {
      var y :| y in x;
      var rest := ListingExists(x - {y});
      assert y !in Elements(rest);
      InsertKeepsSorted(rest, y);
      s := Insert(rest, y);
    }
  }

  // sort.Strings applied to the keys of a map.
  method SortedKeys(keys: set<string>) returns (s: seq<string>)
    ensures Lists(s, keys)
  {
    s := [];
    var left := keys;
    while left != {}
      invariant left <= keys
      invariant Lists(s, keys - left)
      decreases left
    {
      var k :| k in left;
      assert k !in Elements(s);
      InsertKeepsSorted(s, k);
      s := Insert(s, k);
      left := left - {k};
    }
  }
}
