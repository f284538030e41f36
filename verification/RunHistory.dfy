// The record of a run, tied to the entries that were processed: every run of a
// chain belongs to one of them.
module RunHistory {
  import opened LogEntries
  import opened Chains
  import opened Activities
  import opened StoreInvariants

  // The entries a history marks as checked, in order.
  function ChecksOf(history: seq<Event>): seq<LogEntry> {
    if history == [] then []
    else
      var last := history[|history| - 1];
      ChecksOf(history[..|history| - 1]) + if last.Checked? then [last.entry] else []
  }

  // From position i on there are runs on e only, up to the mark of e at j.
  ghost predicate RunsUpTo(history: seq<Event>, i: nat, j: nat, e: LogEntry) {
    && i < j < |history| && history[j].Checked? && history[j].entry == e
    && forall k :: i <= k < j ==> history[k].Processed? && history[k].run.entry == e
  }

  // Every run stands in front of the mark of its entry, with nothing else between.
  ghost predicate RunsBelong(history: seq<Event>) {
    forall i :: 0 <= i < |history| && history[i].Processed? ==>
      exists j :: RunsUpTo(history, i, j, history[i].run.entry)
  }

  lemma BelongTogether(history: seq<Event>, more: seq<Event>)
    requires RunsBelong(history) && RunsBelong(more)
    ensures RunsBelong(history + more)
  {
    var all, n := history + more, |history|;
    forall i | 0 <= i < |all| && all[i].Processed? ensures exists j :: RunsUpTo(all, i, j, all[i].run.entry) {
      if i < n {
        var j :| RunsUpTo(history, i, j, history[i].run.entry);
        assert RunsUpTo(all, i, j, all[i].run.entry);
      } else {
        var j :| RunsUpTo(more, i - n, j, more[i - n].run.entry);
        assert RunsUpTo(all, i, n + j, all[i].run.entry);
      }
    }
  }

  lemma {:induction false} ChecksTogether(history: seq<Event>, more: seq<Event>)
    ensures ChecksOf(history + more) == ChecksOf(history) + ChecksOf(more)
  {
    if more == [] {
      assert history + more == history;
    } else {
      var n := |more| - 1;
      assert (history + more)[..|history| + n] == history + more[..n];
      ChecksTogether(history, more[..n]);
    }
  }

  lemma {:induction false} EventsAreRuns(ran: seq<Ran>)
    ensures |Events(ran)| == |ran| && forall i :: 0 <= i < |ran| ==> Events(ran)[i] == Processed(ran[i])
    ensures ChecksOf(Events(ran)) == []
  {
    if ran != [] {
      EventsAreRuns(ran[1..]);
      ChecksTogether([Processed(ran[0])], Events(ran[1..]));
      assert ChecksOf([Processed(ran[0])]) == [] by { assert [Processed(ran[0])][..0] == []; }
    }
  }

  // The runs of one entry and its mark.
  lemma EntryBelongs(ran: seq<Ran>, mark: Event)
    requires mark.Checked? && forall r :: r in ran ==> r.entry == mark.entry
    ensures RunsBelong(Events(ran) + [mark]) && ChecksOf(Events(ran) + [mark]) == [mark.entry]
  {
    EventsAreRuns(ran);
    var all := Events(ran) + [mark];
    assert all[..|ran|] == Events(ran);
    forall i | 0 <= i < |all| && all[i].Processed? ensures exists j :: RunsUpTo(all, i, j, all[i].run.entry) {
      assert ran[i] in ran;
      assert RunsUpTo(all, i, |ran|, all[i].run.entry);
    }
  }

  lemma {:induction false} RunsAreOnEntry(cfg: Config, now: Time, e: LogEntry, indices: seq<nat>, st: Store)
    ensures forall r :: r in RunChains(cfg, now, e, indices, st).ran ==> r.entry == e
  {
    if indices != [] && indices[0] < |cfg.chains| {
      RunsAreOnEntry(cfg, now, e, indices[1..], TryChain(cfg, now, e, indices[0], st).store);
    }
  }

  // The record lists exactly the processed entries, and every run belongs to one.
  ghost predicate RecordOf(history: seq<Event>, processed: seq<LogEntry>) {
    ChecksOf(history) == processed && RunsBelong(history)
  }

  lemma CheckEntryRecords(cfg: Config, now: Time, e: LogEntry, st: Store, history: seq<Event>, processed: seq<LogEntry>)
    requires RecordOf(history, processed)
    ensures var result := CheckEntry(cfg, now, e, st);
            RecordOf(history + Events(result.ran) + [MarkOf(e, result.ran, st, result.store)], processed + [e])
  {
    var result := CheckEntry(cfg, now, e, st);
    var mark := MarkOf(e, result.ran, st, result.store);
    var more := Events(result.ran) + [mark];
    RunsAreOnEntry(cfg, now, e, ChainIndices(cfg, e), st);
    EntryBelongs(result.ran, mark);
    BelongTogether(history, more);
    ChecksTogether(history, more);
    assert history + Events(result.ran) + [mark] == history + more;
  }

  // Drops and entries turned away add nothing to what was processed.
  lemma OtherRecords(history: seq<Event>, processed: seq<LogEntry>, ev: Event)
    requires RecordOf(history, processed) && (ev.Dropped? || ev.Turned?)
    ensures RecordOf(history + [ev], processed)
  {
    BelongTogether(history, [ev]);
    ChecksTogether(history, [ev]);
    assert [ev][..0] == [];
  }

  lemma {:induction false} CheckedIsListed(history: seq<Event>, j: nat)
    requires j < |history| && history[j].Checked?
    ensures history[j].entry in ChecksOf(history)
  {
    if j < |history| - 1 {
      CheckedIsListed(history[..|history| - 1], j);
    }
  }

  // So the entry of every run was processed.
  lemma RunIsProcessed(history: seq<Event>, processed: seq<LogEntry>, i: nat)
    requires RecordOf(history, processed) && i < |history| && history[i].Processed?
    ensures history[i].run.entry in processed
  {
    var j :| RunsUpTo(history, i, j, history[i].run.entry);
    CheckedIsListed(history, j);
  }

  // And so was every entry a key's history shows.
  lemma {:induction false} SeenIsRun(history: seq<Event>, a: Actor, key: string, k: nat) returns (i: nat)
    requires k < |Project(history, a, key)| && Project(history, a, key)[k].Seen?
    ensures i < |history| && history[i].Processed?
    ensures history[i].run.actor == a && history[i].run.key == key
    ensures Project(history, a, key)[k] == Seen(history[i].run.entry, history[i].run.previousRequest)
  {
    var n := |history| - 1;
    if k < |Project(history[..n], a, key)| {
      i := SeenIsRun(history[..n], a, key, k);
    } else {
      i := n;
    }
  }

  lemma SeenIsProcessed(history: seq<Event>, processed: seq<LogEntry>, a: Actor, key: string)
    requires RecordOf(history, processed)
    ensures forall k :: 0 <= k < |Project(history, a, key)| && Project(history, a, key)[k].Seen? ==>
      Project(history, a, key)[k].entry in processed
  {
    var seen := Project(history, a, key);
    forall k | 0 <= k < |seen| && seen[k].Seen? ensures seen[k].entry in processed {
      var i := SeenIsRun(history, a, key, k);
      RunIsProcessed(history, processed, i);
    }
  }
}
