// Which chains see an entry, and whom they charge it to.
module Applicability {
  import opened LogEntries
  import opened Chains
  import opened Activities
  import opened EntryEffects

  // ------------------------------------------------------------- whom it charges

  predicate ByUserAgent(chain: Chain) {
    chain.matchKey == KeyIpUa || chain.matchKey == KeyIpv4Ua || chain.matchKey == KeyIpv6Ua
  }

  // The entry's address is of the family the chain asks for.
  predicate OfFamily(chain: Chain, e: LogEntry) {
    match chain.matchKey
    case KeyIpv4 => e.ip.version == IPv4
    case KeyIpv4Ua => e.ip.version == IPv4
    case KeyIpv6 => e.ip.version == IPv6
    case KeyIpv6Ua => e.ip.version == IPv6
    case _ => true
  }

  predicate Charged(chain: Chain, e: LogEntry) {
    GetActor(chain, e).ip.address != ""
  }

  // An entry is charged exactly if it has an address of the right family.
  lemma ChargedExactly(chain: Chain, e: LogEntry)
    ensures Charged(chain, e) <==> e.ip.address != "" && OfFamily(chain, e)
  {
  }

  // Two entries are charged to one actor exactly if they share address and vhost and,
  // for a chain that separates them, the user agent.
  lemma SameActorExactly(chain: Chain, e1: LogEntry, e2: LogEntry)
    requires Charged(chain, e1) && Charged(chain, e2)
    ensures GetActor(chain, e1) == GetActor(chain, e2) <==>
            e1.ip == e2.ip && e1.vhost == e2.vhost && (ByUserAgent(chain) ==> e1.userAgent == e2.userAgent)
  {
  }

  // The bare address is the actor exactly for entries without vhost and, where user
  // agents count, without one.
  lemma BareActorExactly(chain: Chain, e: LogEntry)
    requires Charged(chain, e)
    ensures GetActor(chain, e) == IpOnly(e) <==> e.vhost == "" && (ByUserAgent(chain) ==> e.userAgent == "")
  {
  }

  // The activity the gate looks at is that of a chain which counts no user agents, so
  // what it marks there keeps such chains off the entry.
  lemma GateLooksAtActor(chain: Chain, e: LogEntry)
    requires Charged(chain, e)
    ensures GetActor(chain, e) == BaseActor(e) <==> (ByUserAgent(chain) ==> e.userAgent == "")
  {
  }

  // ------------------------------------------------------------- which chains apply

  // The website whose chains an entry sees besides the global ones: that of its vhost,
  // or the catch-all for a vhost nobody claims.
  ghost predicate Site(cfg: Config, e: LogEntry, w: string) {
    if e.vhost in cfg.vhostToWebsite then w == cfg.vhostToWebsite[e.vhost]
    else w == cfg.catchAllWebsite && w != ""
  }

  // A chain is listed for an entry exactly if it is global or belongs to that website;
  // without websites every chain is.
  lemma ListedExactly(cfg: Config, e: LogEntry, i: nat)
    ensures i in ChainIndices(cfg, e) <==>
            if !cfg.multiWebsite then i < |cfg.chains|
            else i in cfg.globalChains || exists w :: Site(cfg, e, w) && w in cfg.websiteChains && i in cfg.websiteChains[w]
  {
    if !cfg.multiWebsite {
      assert i < |cfg.chains| ==> ChainIndices(cfg, e)[i] == i;
    } else if e.vhost in cfg.vhostToWebsite {
      assert Site(cfg, e, cfg.vhostToWebsite[e.vhost]);
    } else if cfg.catchAllWebsite != "" {
      assert Site(cfg, e, cfg.catchAllWebsite);
    }
  }

  // Global chains come first, then those of the website, each in its own order.
  lemma GlobalsFirst(cfg: Config, e: LogEntry)
    requires cfg.multiWebsite
    ensures cfg.globalChains <= ChainIndices(cfg, e)
    ensures forall w :: Site(cfg, e, w) && w in cfg.websiteChains ==>
              ChainIndices(cfg, e)[|cfg.globalChains|..] == cfg.websiteChains[w]
  {
  }

  // --------------------------------------------------------- how far the loop goes

  // A completion after which the loop looks at no further chain.
  predicate Halts(cfg: Config, r: Ran) {
    && r.completed && r.chain < |cfg.chains|
    && cfg.chains[r.chain].stopOnMatch
    && (cfg.chains[r.chain].action == Block || cfg.chains[r.chain].action == Challenge)
  }

  predicate FilterAdmits(cfg: Config, chain: Chain) {
    cfg.chainFilter == {} || chain.name in cfg.chainFilter
  }

  // The chain had no run because the filter or the actor excludes it, or because its
  // actor is a good one or blocked.
  predicate LeftOut(cfg: Config, now: Time, e: LogEntry, i: nat, st: Store)
    requires i < |cfg.chains|
  {
    var chain := cfg.chains[i];
    !FilterAdmits(cfg, chain) || !Charged(chain, e) || Skipped(now, Lookup(st, GetActor(chain, e)))
  }

  // A run of chain i on the actor it charges the entry to.
  predicate RunOf(cfg: Config, e: LogEntry, i: nat, r: Ran) {
    && i < |cfg.chains| && r.chain == i && r.actor == GetActor(cfg.chains[i], e)
    && FilterAdmits(cfg, cfg.chains[i]) && Charged(cfg.chains[i], e)
  }

  // A run and the position of its chain in the list.
  datatype Placed = Placed(position: nat, run: Ran)

  function RunsIn(placed: seq<Placed>): seq<Ran> {
    if placed == [] then [] else [placed[0].run] + RunsIn(placed[1..])
  }

  ghost predicate Ascending(placed: seq<Placed>) {
    placed == [] || ((forall x :: x in placed[1..] ==> placed[0].position < x.position) && Ascending(placed[1..]))
  }

  ghost predicate PlacedAt(placed: seq<Placed>, p: nat) {
    exists x :: x in placed && x.position == p
  }

  // The runs placed are those of listed chains from position lo up to m.
  ghost predicate RunsOf(cfg: Config, e: LogEntry, indices: seq<nat>, placed: seq<Placed>, lo: nat, m: nat) {
    m <= |indices| && forall x :: x in placed ==> lo <= x.position < m && RunOf(cfg, e, indices[x.position], x.run)
  }

  // All others there were left out.
  ghost predicate OthersOut(cfg: Config, now: Time, e: LogEntry, indices: seq<nat>, st: Store, placed: seq<Placed>,
          lo: nat, m: nat)
  {
    m <= |indices| && forall p :: lo <= p < m ==>
      indices[p] < |cfg.chains| && (PlacedAt(placed, p) || LeftOut(cfg, now, e, indices[p], st))
  }

  // The loop ended at position m because there was no more, because the next chain is
  // unknown, or because the run before it halted it; no earlier run did.
  ghost predicate EndsAt(cfg: Config, indices: seq<nat>, placed: seq<Placed>, m: nat) {
    && m <= |indices|
    && (forall x :: x in placed && Halts(cfg, x.run) ==> x.position + 1 == m)
    && (m < |indices| ==> indices[m] >= |cfg.chains| || exists x :: x in placed && Halts(cfg, x.run))
  }

  ghost predicate Covers(cfg: Config, now: Time, e: LogEntry, indices: seq<nat>, st: Store, placed: seq<Placed>,
          lo: nat, m: nat)
  {
    && lo <= m && Ascending(placed)
    && RunsOf(cfg, e, indices, placed, lo, m)
    && OthersOut(cfg, now, e, indices, st, placed, lo, m)
    && EndsAt(cfg, indices, placed, m)
  }

  lemma TurnCovers(cfg: Config, now: Time, e: LogEntry, i: nat, st: Store)
    requires BlocksLast(cfg) && i < |cfg.chains|
    ensures var t := TryChain(cfg, now, e, i, st);
            if t.ran == [] then LeftOut(cfg, now, e, i, t.store)
            else |t.ran| == 1 && RunOf(cfg, e, i, t.ran[0]) && !LeftOut(cfg, now, e, i, st)
    ensures Stops(cfg, TryChain(cfg, now, e, i, st).ran) <==>
            TryChain(cfg, now, e, i, st).ran != [] && Halts(cfg, TryChain(cfg, now, e, i, st).ran[0])
  {
    PreCheckEffect(now, e, Lookup(st, GetActor(cfg.chains[i], e)));
  }

  // Who was left out stays so while the loop goes on.
  lemma StaysOut(cfg: Config, now: Time, e: LogEntry, indices: seq<nat>, i: nat, st: Store)
    requires BlocksLast(cfg) && i < |cfg.chains| && LeftOut(cfg, now, e, i, st)
    ensures LeftOut(cfg, now, e, i, RunChains(cfg, now, e, indices, st).store)
  {
    RunChainsEffect(cfg, now, e, indices, st);
  }

  // A chain that ran and let the loop go on.
  lemma RunCovers(cfg: Config, now: Time, e: LogEntry, indices: seq<nat>, st: Store, r: Ran, more: seq<Placed>,
          lo: nat, m: nat)
    requires lo < |indices| && RunOf(cfg, e, indices[lo], r) && !Halts(cfg, r)
    requires Covers(cfg, now, e, indices, st, more, lo + 1, m)
    ensures Covers(cfg, now, e, indices, st, [Placed(lo, r)] + more, lo, m)
    ensures RunsIn([Placed(lo, r)] + more) == [r] + RunsIn(more)
  {
    var placed := [Placed(lo, r)] + more;
    assert placed[1..] == more && placed[0] in placed;
    forall p | lo <= p < m
      ensures indices[p] < |cfg.chains| && (PlacedAt(placed, p) || LeftOut(cfg, now, e, indices[p], st))
    {
      if p > lo && PlacedAt(more, p) {
        var x :| x in more && x.position == p;
        assert x in placed;
      }
    }
  }

  lemma OutCovers(cfg: Config, now: Time, e: LogEntry, indices: seq<nat>, st: Store, more: seq<Placed>, lo: nat, m: nat)
    requires lo < |indices| && indices[lo] < |cfg.chains| && LeftOut(cfg, now, e, indices[lo], st)
    requires Covers(cfg, now, e, indices, st, more, lo + 1, m)
    ensures Covers(cfg, now, e, indices, st, more, lo, m)
  {
  }

  lemma HaltCovers(cfg: Config, now: Time, e: LogEntry, indices: seq<nat>, st: Store, r: Ran, lo: nat)
    requires lo < |indices| && RunOf(cfg, e, indices[lo], r) && Halts(cfg, r)
    ensures Covers(cfg, now, e, indices, st, [Placed(lo, r)], lo, lo + 1)
    ensures RunsIn([Placed(lo, r)]) == [r]
  {
    var placed := [Placed(lo, r)];
    assert placed[0] in placed && placed[1..] == [];
    assert PlacedAt(placed, lo);
  }

  lemma NothingCovers(cfg: Config, now: Time, e: LogEntry, indices: seq<nat>, st: Store, lo: nat)
    requires lo == |indices| || (lo < |indices| && indices[lo] >= |cfg.chains|)
    ensures Covers(cfg, now, e, indices, st, [], lo, lo)
  {
  }

  lemma {:induction false} LoopCovers(cfg: Config, now: Time, e: LogEntry, indices: seq<nat>, lo: nat, st: Store)
      returns (placed: seq<Placed>, m: nat)
    requires BlocksLast(cfg) && lo <= |indices|
    ensures var result := RunChains(cfg, now, e, indices[lo..], st);
            RunsIn(placed) == result.ran && Covers(cfg, now, e, indices, result.store, placed, lo, m)
    decreases |indices| - lo
  {
    if lo == |indices| || indices[lo] >= |cfg.chains| {
      NothingCovers(cfg, now, e, indices, st, lo);
      placed, m := [], lo;
    } else {
      var first := TryChain(cfg, now, e, indices[lo], st);
      TurnCovers(cfg, now, e, indices[lo], st);
      assert indices[lo..][1..] == indices[lo + 1..];
      if Stops(cfg, first.ran) {
        HaltCovers(cfg, now, e, indices, first.store, first.ran[0], lo);
        placed, m := [Placed(lo, first.ran[0])], lo + 1;
      } else {
        placed, m := LoopCovers(cfg, now, e, indices, lo + 1, first.store);
        var rest := RunChains(cfg, now, e, indices[lo + 1..], first.store);
        if first.ran == [] {
          StaysOut(cfg, now, e, indices[lo + 1..], indices[lo], first.store);
          OutCovers(cfg, now, e, indices, rest.store, placed, lo, m);
        } else {
          RunCovers(cfg, now, e, indices, rest.store, first.ran[0], placed, lo, m);
          placed := [Placed(lo, first.ran[0])] + placed;
        }
      }
    }
  }

  // An entry is run against exactly the listed chains that the filter admits, that
  // charge it, and whose actor is free: in their order, up to one that halts the loop.
  lemma EntryCovers(cfg: Config, now: Time, e: LogEntry, st: Store) returns (placed: seq<Placed>, m: nat)
    requires BlocksLast(cfg)
    ensures var result := CheckEntry(cfg, now, e, st);
            RunsIn(placed) == result.ran && Covers(cfg, now, e, ChainIndices(cfg, e), result.store, placed, 0, m)
  {
    var indices := ChainIndices(cfg, e);
    assert indices[0..] == indices;
    placed, m := LoopCovers(cfg, now, e, indices, 0, st);
    var mid, result := RunChains(cfg, now, e, indices, st), CheckEntry(cfg, now, e, st);
    forall a ensures Skipped(now, Lookup(mid.store, a)) <==> Skipped(now, Lookup(result.store, a)) {
    }
  }
}
