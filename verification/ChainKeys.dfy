// The keys under which an activity stores chain progress, which are also the
// reasons written for a block (internal/checker/checker.go, formatChainKey).
module ChainKeys {
  import opened GoStrings

  const REASON_SEPARATOR := " | "

  // The key before the separator is taken out of it.
  function RawKey(name: string, vhost: string, website: string): string {
    if vhost != "" then name + "@" + vhost
    else if website != "" then name + "[" + website + "]"
    else name
  }

  // formatChainKey
  function FormatChainKey(name: string, vhost: string, website: string): string {
    var result := RawKey(name, vhost, website);
    if Contains(result, REASON_SEPARATOR) then ReplaceAll(result, REASON_SEPARATOR, "_") else result
  }

  // A key is always a single reason: it can be split back out of a joined list.
  lemma KeyHasNoSeparator(name: string, vhost: string, website: string)
    ensures !Contains(FormatChainKey(name, vhost, website), REASON_SEPARATOR)
  {
    ReplaceRemoves(RawKey(name, vhost, website), REASON_SEPARATOR, '_');
  }

  // A chain name, vhost or website as it appears in a key.
  function Label(s: string): string {
    ReplaceAll(s, REASON_SEPARATOR, "_")
  }

  // name continues outer the way a website context would.
  predicate Continues(outer: string, name: string) {
    |outer| < |name| && outer <= name && name[|outer|] == '['
  }

  predicate Nested(name1: string, name2: string) {
    Continues(name1, name2) || Continues(name2, name1)
  }

  // The two names leave labels that no context can make equal.
  predicate Apart(name1: string, name2: string) {
    Label(name1) != Label(name2) && !Nested(Label(name1), Label(name2))
  }

  // The parts of a key are replaced one by one: no separator reaches across the
  // character between them.
  lemma KeyParts(name: string, vhost: string, website: string)
    ensures FormatChainKey(name, vhost, website) ==
            if vhost != "" then Label(name) + "@" + Label(vhost)
            else if website != "" then Label(name) + "[" + Label(website + "]")
            else Label(name)
  {
    var raw := RawKey(name, vhost, website);
    if vhost != "" {
      ReplaceAcross(name, '@', vhost, REASON_SEPARATOR, "_");
    } else if website != "" {
      assert raw == name + "[" + (website + "]");
      ReplaceAcross(name, '[', website + "]", REASON_SEPARATOR, "_");
    }
    if !Contains(raw, REASON_SEPARATOR) {
      ReplaceNothing(raw, REASON_SEPARATOR, "_");
    }
  }

  // Within one activity, whose vhost is fixed, a key determines the label of the
  // chain's name: always where the vhost is known, and otherwise unless the labels
  // are nested.
  lemma KeyDeterminesName(name1: string, name2: string, vhost: string, website1: string, website2: string)
    requires vhost == "" ==> !Nested(Label(name1), Label(name2))
    requires FormatChainKey(name1, vhost, website1) == FormatChainKey(name2, vhost, website2)
    ensures Label(name1) == Label(name2)
  {
    KeyParts(name1, vhost, website1);
    KeyParts(name2, vhost, website2);
    var r1, r2 := Label(website1 + "]"), Label(website2 + "]");
    if vhost != "" {
      SameEnding(Label(name1), Label(name2), "@", Label(vhost));
    } else if website1 != "" && website2 != "" {
      SameOrNested(Label(name1), Label(name2), r1, r2);
    } else if website1 != "" {
      BracketNests(Label(name1), r1);
    } else if website2 != "" {
      BracketNests(Label(name2), r2);
    }
  }

  lemma SameEnding(a: string, b: string, x: string, y: string)
    requires a + x + y == b + x + y
    ensures a == b
  {
    assert (a + x + y)[..|a|] == a;
    assert (b + x + y)[..|b|] == b;
  }

  lemma SameOrNested(a: string, b: string, x: string, y: string)
    requires a + "[" + x == b + "[" + y
    ensures a == b || Nested(a, b)
  {
    var s := a + "[" + x;
    assert s[..|a|] == a && s[|a|] == '[';
    assert s[..|b|] == b && s[|b|] == '[';
    if |a| < |b| {
      assert b[..|a|] == s[..|b|][..|a|] == a && b[|a|] == s[|a|];
    } else if |b| < |a| {
      assert a[..|b|] == s[..|a|][..|b|] == b && a[|b|] == s[|b|];
    }
  }

  lemma BracketNests(outer: string, rest: string)
    ensures Continues(outer, outer + "[" + rest)
  {
  }

  // Two chains store their progress under one key of an activity with this vhost,
  // each for entries of its website.
  predicate Meet(name1: string, name2: string, vhost: string, website1: string, website2: string) {
    && website1 != "" && website2 != ""
    && FormatChainKey(name1, vhost, website1) == FormatChainKey(name2, vhost, website2)
  }

  // Where every entry has a website, two chains can share their progress exactly
  // when their labels are the same or, without a vhost, nested.
  lemma KeysMeet(name1: string, name2: string, vhost: string)
    ensures (exists w1, w2 :: Meet(name1, name2, vhost, w1, w2)) <==>
            Label(name1) == Label(name2) || (vhost == "" && Nested(Label(name1), Label(name2)))
  {
    forall w1, w2 | Meet(name1, name2, vhost, w1, w2)
      ensures Label(name1) == Label(name2) || (vhost == "" && Nested(Label(name1), Label(name2)))
    {
      if vhost != "" || !Nested(Label(name1), Label(name2)) { KeyDeterminesName(name1, name2, vhost, w1, w2); }
    }
    if Label(name1) == Label(name2) {
      KeyParts(name1, vhost, "site");
      KeyParts(name2, vhost, "site");
      assert Meet(name1, name2, vhost, "site", "site");
    } else if vhost == "" && Continues(Label(name1), Label(name2)) {
      var w := Repeating(name1, name2);
      assert Meet(name1, name2, vhost, w, "site");
    } else if vhost == "" && Continues(Label(name2), Label(name1)) {
      var w := Repeating(name2, name1);
      assert Meet(name1, name2, vhost, "site", w);
    }
  }

  // A website that repeats the rest of the longer label.
  lemma Repeating(outer: string, name: string) returns (w: string)
    requires Continues(Label(outer), Label(name))
    ensures Meet(outer, name, "", w, "site")
  {
    var rest := Label(name)[|Label(outer)| + 1..];
    w := rest + "[" + "site";
    assert Label(name) == Label(outer) + "[" + rest;
    ReplaceRemoves(name, REASON_SEPARATOR, '_');
    ContainsAcross(Label(outer), '[', rest, REASON_SEPARATOR);
    KeyParts(outer, "", w);
    KeyParts(name, "", "site");
    ReplacedBehind(rest, "site");
    SameTail(Label(outer), rest, Label("site" + "]"));
  }

  lemma ReplacedBehind(rest: string, site: string)
    requires !Contains(rest, REASON_SEPARATOR)
    ensures Label(rest + "[" + site + "]") == rest + "[" + Label(site + "]")
  {
    ReplaceAcross(rest, '[', site + "]", REASON_SEPARATOR, "_");
    ReplaceNothing(rest, REASON_SEPARATOR, "_");
    assert rest + "[" + site + "]" == rest + "[" + (site + "]");
  }

  lemma SameTail(outer: string, rest: string, r: string)
    ensures outer + "[" + (rest + "[" + r) == outer + "[" + rest + "[" + r
  {
  }
}
