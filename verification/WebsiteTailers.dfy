// Starting, replacing and stopping the log tailers of the configured websites
// (internal/processor/multi_website_manager.go).
module WebsiteTailers {

  datatype Website = Website(name: string, logPath: string)

  // A tailer seen from outside: what it reads and whether it was told to stop.
  datatype Site = Site(path: string, stopped: bool)
  type View = map<string, Site>

  // Closing a channel twice panics.
  datatype Result = Panic | Done(view: View)

  function Names(ws: seq<Website>): set<string> {
    set w | w in ws :: w.name
  }

  // The path of the last entry under a name.
  function LastPath(ws: seq<Website>, name: string): string
    requires name in Names(ws)
  {
    var w := ws[|ws| - 1];
    if w.name == name then w.logPath else LastPath(ws[..|ws| - 1], name)
  }

  // The path of the first entry under a name.
  function FirstPath(ws: seq<Website>, name: string): string
    requires name in Names(ws)
  {
    if ws[0].name == name then ws[0].logPath
    else
      assert ws == [ws[0]] + ws[1..];
      FirstPath(ws[1..], name)
  }

  // Every entry under the name asks for the path it already reads.
  predicate SamePath(view: View, ws: seq<Website>, name: string)
    requires name in view
  {
    forall w :: w in ws && w.name == name ==> w.logPath == view[name].path
  }

  // The sites some entry wants to read another path.
  function Moved(view: View, ws: seq<Website>): set<string> {
    set n | n in view && !SamePath(view, ws, n)
  }

  predicate Unchanged(view: View, ws: seq<Website>, name: string) {
    name in view && name in Names(ws) && SamePath(view, ws, name)
  }

  // ---------------------------------------------------------------- operations

  function Started(view: View, ws: seq<Website>): View {
    if ws == [] then view
    else
      var before := Started(view, ws[..|ws| - 1]);
      var w := ws[|ws| - 1];
      if w.name in before then before else before[w.name := Site(w.logPath, false)]
  }

  // One configured website: start it, keep it, or replace it.
  function Place(view: View, w: Website): Result {
    if w.name in view && view[w.name].path == w.logPath then Done(view)
    else if w.name in view && view[w.name].stopped then Panic
    else Done(view[w.name := Site(w.logPath, false)])
  }

  function PlaceAll(view: View, ws: seq<Website>): Result {
    if ws == [] then Done(view)
    else
      match PlaceAll(view, ws[..|ws| - 1])
      case Panic => Panic
      case Done(before) => Place(before, ws[|ws| - 1])
  }

  function Restrict(view: View, names: set<string>): View {
    map n | n in view && n in names :: view[n]
  }

  predicate RemovesStopped(view: View, names: set<string>) {
    exists n :: n in view && n !in names && view[n].stopped
  }

  function Update(view: View, ws: seq<Website>): Result {
    if RemovesStopped(view, Names(ws)) then Panic
    else PlaceAll(Restrict(view, Names(ws)), ws)
  }

  function Stopped(view: View): Result {
    if exists n :: n in view && view[n].stopped then Panic
    else Done(map n | n in view :: view[n].(stopped := true))
  }

  // ------------------------------------------------------- what an update means

  lemma LastName(ws: seq<Website>)
    requires ws != []
    ensures Names(ws) == Names(ws[..|ws| - 1]) + {ws[|ws| - 1].name}
  {
    var init, last := ws[..|ws| - 1], ws[|ws| - 1];
    assert ws == init + [last];
    forall n | n in Names(ws) ensures n in Names(init) + {last.name} {
      var w :| w in ws && w.name == n;
    }
    forall n | n in Names(init) ensures n in Names(ws) {
      var w :| w in init && w.name == n;
      assert w in ws;
    }
    assert last in ws;
  }

  // The sites after some websites were placed.
  predicate PlacedAs(view: View, ws: seq<Website>, v: View) {
    && v.Keys == view.Keys + Names(ws)
    && (forall n :: n in v ==>
          if n in view && SamePath(view, ws, n) then v[n] == view[n]
          else n in Names(ws) && v[n] == Site(LastPath(ws, n), false))
  }

  predicate ReplacesStopped(view: View, ws: seq<Website>) {
    exists n :: n in view && view[n].stopped && !SamePath(view, ws, n)
  }

  lemma PlacedStep(view: View, ws: seq<Website>, before: View, w: Website)
    requires PlacedAs(view, ws, before) && Place(before, w).Done?
    ensures PlacedAs(view, ws + [w], Place(before, w).view)
  {
    LastName(ws + [w]);
    assert (ws + [w])[..|ws|] == ws;
    OneMoreWebsite(view, ws, w);
  }

  lemma {:induction false} PlaceAllMeans(view: View, ws: seq<Website>)
    ensures PlaceAll(view, ws).Panic? <==> ReplacesStopped(view, ws)
    ensures PlaceAll(view, ws).Done? ==> PlacedAs(view, ws, PlaceAll(view, ws).view)
  {
    if ws != [] {
      var init, w := ws[..|ws| - 1], ws[|ws| - 1];
      PlaceAllMeans(view, init);
      assert ws == init + [w];
      OneMoreWebsite(view, init, w);
      if PlaceAll(view, ws).Done? {
        PlacedStep(view, init, PlaceAll(view, init).view, w);
      }
    }
  }

  lemma OneMoreWebsite(view: View, ws: seq<Website>, w: Website)
    ensures forall n :: n in view ==>
      (SamePath(view, ws + [w], n) <==> (SamePath(view, ws, n) && (n == w.name ==> w.logPath == view[n].path)))
  {
  }

  function MovedBy(view: View, w: Website): set<string> {
    if w.name in view && view[w.name].path != w.logPath then {w.name} else {}
  }

  lemma PlaceStep(view: View, ws: seq<Website>, i: nat, now: View)
    requires i < |ws| && PlaceAll(view, ws[..i]) == Done(now)
    ensures PlaceAll(view, ws[..i + 1]) == Place(now, ws[i])
    ensures Moved(view, ws[..i + 1]) == Moved(view, ws[..i]) + MovedBy(view, ws[i])
  {
    assert ws[..i + 1][..i] == ws[..i] && ws[..i + 1] == ws[..i] + [ws[i]];
    OneMoreWebsite(view, ws[..i], ws[i]);
  }

  lemma RestrictKeepsPaths(view: View, ws: seq<Website>)
    ensures forall n :: n in Restrict(view, Names(ws)) ==>
      (SamePath(Restrict(view, Names(ws)), ws, n) <==> Unchanged(view, ws, n))
  {
  }

  lemma UnchangedStays(view: View, ws: seq<Website>, n: string)
    requires n in view
    ensures Unchanged(view, ws, n)
      <==> n in Restrict(view, Names(ws)) && n !in Moved(Restrict(view, Names(ws)), ws)
  {
    RestrictKeepsPaths(view, ws);
  }

  lemma AllUnchangedStay(view: View, ws: seq<Website>)
    ensures forall n :: n in view ==> (Unchanged(view, ws, n)
      <==> n in Restrict(view, Names(ws)) && n !in Moved(Restrict(view, Names(ws)), ws))
  {
    forall n | n in view { UnchangedStays(view, ws, n); }
  }

  lemma {:induction false} PanicIsFinal(view: View, ws: seq<Website>, i: nat)
    requires i <= |ws| && PlaceAll(view, ws[..i]).Panic?
    ensures PlaceAll(view, ws).Panic?
    decreases |ws| - i
  {
    if i < |ws| {
      assert ws[..i + 1][..i] == ws[..i];
      PanicIsFinal(view, ws, i + 1);
    } else {
      assert ws[..i] == ws;
    }
  }

  // An update panics exactly when a tailer that has to go was stopped before;
  // otherwise the map holds the configured names with their paths, what did not
  // change is kept and everything else is new.
  lemma UpdateExactly(view: View, ws: seq<Website>)
    ensures Update(view, ws).Panic? <==> exists n :: n in view && view[n].stopped && !Unchanged(view, ws, n)
    ensures Update(view, ws).Done? ==>
      var v := Update(view, ws).view;
      && v.Keys == Names(ws)
      && forall n :: n in v ==>
        v[n] == if Unchanged(view, ws, n) then view[n] else Site(LastPath(ws, n), false)
  {
    var kept := Restrict(view, Names(ws));
    PlaceAllMeans(kept, ws);
    RestrictKeepsPaths(view, ws);
    if RemovesStopped(view, Names(ws)) {
      var n :| n in view && n !in Names(ws) && view[n].stopped;
      assert !Unchanged(view, ws, n);
    } else {
      assert ReplacesStopped(kept, ws) <==> exists n :: n in view && view[n].stopped && !Unchanged(view, ws, n);
    }
  }

  // Whatever an update did, the paths are the configured ones.
  lemma UpdatedPaths(view: View, ws: seq<Website>)
    requires Update(view, ws).Done?
    ensures var v := Update(view, ws).view;
      v.Keys == Names(ws) && forall n :: n in v ==> v[n].path == LastPath(ws, n)
  {
    UpdateExactly(view, ws);
    var v := Update(view, ws).view;
    forall n | n in v ensures v[n].path == LastPath(ws, n) {
      LastPathIsOne(ws, n);
    }
  }

  lemma {:induction false} LastPathIsOne(ws: seq<Website>, name: string)
    requires name in Names(ws)
    ensures Website(name, LastPath(ws, name)) in ws
  {
    LastName(ws);
    if ws[|ws| - 1].name != name { LastPathIsOne(ws[..|ws| - 1], name); }
  }

  // With unique names, every configured website is tailed at its own path after an
  // update, and only those are.
  lemma UniqueNamesUpdate(view: View, ws: seq<Website>)
    requires forall i, j :: 0 <= i < j < |ws| ==> ws[i].name != ws[j].name
    requires Update(view, ws).Done?
    ensures var v := Update(view, ws).view;
      && (forall w :: w in ws ==> w.name in v && v[w.name].path == w.logPath)
      && (forall n :: n in v ==> Website(n, v[n].path) in ws)
  {
    UpdatedPaths(view, ws);
    forall n | n in Names(ws) ensures Website(n, LastPath(ws, n)) in ws {
      LastPathIsOne(ws, n);
    }
  }

  // Starting keeps what runs; among the new names the first entry counts.
  lemma {:induction false} StartedMeans(view: View, ws: seq<Website>)
    ensures var v := Started(view, ws);
      && v.Keys == view.Keys + Names(ws)
      && forall n :: n in v ==> v[n] == if n in view then view[n] else Site(FirstPath(ws, n), false)
  {
    if ws != [] {
      var init, w := ws[..|ws| - 1], ws[|ws| - 1];
      StartedMeans(view, init);
      LastName(ws);
      forall n | n in Names(ws) ensures FirstPath(ws, n) == if n in Names(init) then FirstPath(init, n) else w.logPath {
        FirstPathGrows(init, w, n);
        assert ws == init + [w];
      }
    }
  }

  lemma {:induction false} FirstPathGrows(ws: seq<Website>, w: Website, name: string)
    requires name in Names(ws + [w])
    ensures FirstPath(ws + [w], name) == if name in Names(ws) then FirstPath(ws, name) else w.logPath
  {
    var more := ws + [w];
    if ws == [] {
    } else if ws[0].name != name {
      assert more[1..] == ws[1..] + [w];
      assert ws == [ws[0]] + ws[1..] && more == [ws[0]] + more[1..];
      assert name in Names(ws) <==> name in Names(ws[1..]) by { FirstName(ws); }
      FirstName(more);
      FirstPathGrows(ws[1..], w, name);
    } else {
      assert ws[0] in ws;
    }
  }

  lemma FirstName(ws: seq<Website>)
    requires ws != []
    ensures Names(ws) == {ws[0].name} + Names(ws[1..])
  {
    assert ws == [ws[0]] + ws[1..];
    assert ws[0] in ws;
    forall w | w in ws[1..] ensures w in ws { }
    forall n | n in Names(ws) ensures n in {ws[0].name} + Names(ws[1..]) {
      var w :| w in ws && w.name == n;
    }
  }

  // ---------------------------------------------------------------------- runs

  datatype Op = StartAll(ws: seq<Website>) | UpdateTo(ws: seq<Website>) | StopAll

  function Apply(view: View, op: Op): Result {
    match op
    case StartAll(ws) => Done(Started(view, ws))
    case UpdateTo(ws) => Update(view, ws)
    case StopAll => Stopped(view)
  }

  function Run(ops: seq<Op>): Result {
    if ops == [] then Done(map[])
    else
      match Run(ops[..|ops| - 1])
      case Panic => Panic
      case Done(view) => Apply(view, ops[|ops| - 1])
  }

  predicate NoStop(ops: seq<Op>) {
    StopAll !in ops
  }

  predicate AllLive(view: View) {
    forall n :: n in view ==> !view[n].stopped
  }

  // Without a stop nothing panics and no tailer in the map was told to stop.
  lemma {:induction false} RunsStayLive(ops: seq<Op>)
    requires NoStop(ops)
    ensures Run(ops).Done? && AllLive(Run(ops).view)
  {
    if ops != [] {
      var init, op := ops[..|ops| - 1], ops[|ops| - 1];
      assert op in ops;
      RunsStayLive(init);
      match op {
        case StartAll(ws) => StartedMeans(Run(init).view, ws);
        case UpdateTo(ws) => UpdateExactly(Run(init).view, ws);
      }
    }
  }

  // The tailers after a run without a stop.
  function Reached(ops: seq<Op>): View
    requires NoStop(ops)
  {
    RunsStayLive(ops);
    Run(ops).view
  }

  // One stop, as the last operation, closes every channel once.
  lemma StopLastIsSafe(ops: seq<Op>)
    requires NoStop(ops)
    ensures Run(ops + [StopAll]).Done?
    ensures forall n :: n in Run(ops + [StopAll]).view ==> Run(ops + [StopAll]).view[n].stopped
    ensures Run(ops + [StopAll]).view.Keys == Reached(ops).Keys
  {
    RunsStayLive(ops);
    assert (ops + [StopAll])[..|ops|] == ops;
  }

  // After a stop, the next operation panics exactly when there is a tailer it
  // stops once more: any at all for a second stop, one that is not kept
  // unchanged for an update.
  lemma AfterStop(ops: seq<Op>, op: Op)
    requires NoStop(ops)
    ensures var view := Reached(ops);
      Run(ops + [StopAll] + [op]).Panic? <==>
        match op
        case StartAll(_) => false
        case UpdateTo(ws) => exists n :: n in view && !Unchanged(view, ws, n)
        case StopAll => view != map[]
  {
    StopLastIsSafe(ops);
    var stopped := Run(ops + [StopAll]).view;
    var view := Run(ops).view;
    RunsStayLive(ops);
    assert (ops + [StopAll] + [op])[..|ops| + 1] == ops + [StopAll];
    assert (ops + [StopAll])[..|ops|] == ops;
    match op {
      case StartAll(_) =>
      case UpdateTo(ws) =>
        UpdateExactly(stopped, ws);
        assert forall n :: n in view ==> (Unchanged(view, ws, n) <==> Unchanged(stopped, ws, n));
      case StopAll =>
        assert view != map[] ==> exists n :: n in view;
    }
  }

  // -------------------------------------------------------------- the manager

  class Tailer {
    const name: string
    const logPath: string
    var stopClosed: bool

    constructor (website: Website)
      ensures name == website.name && logPath == website.logPath && !stopClosed
    {
      name, logPath, stopClosed := website.name, website.logPath, false;
    }

    // close(StopCh); false where Go panics.
    method Close() returns (ok: bool)
      modifies this
      ensures ok == !old(stopClosed) && stopClosed
    {
      ok := !stopClosed;
      stopClosed := true;
    }

    function Seen(): Site
      reads this
    {
      Site(logPath, stopClosed)
    }
  }

  class Manager {
    var tailers: map<string, Tailer>

    constructor ()
      ensures Valid() && ViewOf() == map[]
    {
      tailers := map[];
    }

    ghost predicate Valid()
      reads this
    {
      forall n :: n in tailers ==> tailers[n].name == n
    }

    function ViewOf(): View
      reads this, tailers.Values
    {
      map n | n in tailers :: tailers[n].Seen()
    }

    ghost predicate Shows(view: View)
      reads this, tailers.Values
    {
      view.Keys == tailers.Keys && forall n :: n in tailers ==> tailers[n].Seen() == view[n]
    }

    // startTailerLocked
    method StartTailer(website: Website)
      requires Valid()
      modifies this
      ensures Valid()
      ensures website.name in old(tailers) ==> tailers == old(tailers)
      ensures website.name !in old(tailers) ==>
        && tailers.Keys == old(tailers.Keys) + {website.name}
        && fresh(tailers[website.name]) && tailers[website.name].Seen() == Site(website.logPath, false)
        && forall n :: n in old(tailers) ==> tailers[n] == old(tailers[n])
    {
      if website.name in tailers {
        return;
      }
      var t := new Tailer(website);
      tailers := tailers[website.name := t];
    }

    method Start(ws: seq<Website>)
      requires Valid()
      modifies this
      ensures Valid() && ViewOf() == Started(old(ViewOf()), ws)
      ensures forall n :: n in old(tailers) ==> n in tailers && tailers[n] == old(tailers[n])
    {
      ghost var view := ViewOf();
      var i := 0;
      while i < |ws|
        invariant 0 <= i <= |ws|
        invariant Valid() && ViewOf() == Started(view, ws[..i])
        invariant forall n :: n in old(tailers) ==> n in tailers && tailers[n] == old(tailers[n])
        invariant forall n :: n in tailers && n !in old(tailers) ==> fresh(tailers[n])
      {
        assert ws[..i + 1][..i] == ws[..i];
        StartTailer(ws[i]);
        i := i + 1;
      }
      assert ws[..i] == ws;
    }

    // The tailer is stopped and leaves the map; false if it was stopped before.
    method StopOne(name: string) returns (ok: bool)
      requires Valid() && name in tailers
      modifies this, tailers[name]
      ensures Valid()
      ensures ok == !old(tailers[name].stopClosed)
      ensures ok ==> tailers == old(tailers) - {name} && old(tailers[name]).stopClosed
    {
      ok := tailers[name].Close();
      if ok {
        tailers := tailers - {name};
      }
    }

    // Stops the tailers of websites that are gone.
    method StopRemoved(names: set<string>) returns (ok: bool)
      requires Valid()
      modifies this, tailers.Values
      ensures Valid()
      ensures ok <==> !RemovesStopped(old(ViewOf()), names)
      ensures ok ==> Shows(Restrict(old(ViewOf()), names))
      ensures ok ==> forall n :: n in tailers ==> n in old(tailers) && tailers[n] == old(tailers[n])
      ensures ok ==> Gone(old(tailers))
    {
      ghost var view, before := ViewOf(), tailers;
      var left := tailers.Keys;
      while left != {}
        invariant left <= before.Keys && Valid()
        invariant forall n :: n in before ==> before[n].name == n
        invariant Stopping(view, before, names, left)
        decreases left
      {
        var name :| name in left;
        ok := StopNext(name, names, view, before, left);
        if !ok { return; }
        left := left - {name};
      }
      RemovedAreOutside(before);
      ok := true;
    }

    // Between before and the map without the tailers of other names; left are still
    // to be looked at.
    ghost predicate Stopping(view: View, before: map<string, Tailer>, names: set<string>, left: set<string>)
      reads this, before.Values
    {
      && before.Keys == view.Keys
      && (forall n :: n in tailers <==> n in before && (n in names || n in left))
      && (forall n :: n in tailers ==> tailers[n] == before[n] && tailers[n].Seen() == view[n])
      && (forall n :: n in before && n !in tailers ==> before[n].stopClosed && !view[n].stopped)
    }

    method StopNext(name: string, names: set<string>, ghost view: View, ghost before: map<string, Tailer>,
                    ghost left: set<string>)
      returns (ok: bool)
      requires Valid() && Stopping(view, before, names, left) && name in left && name in before
      requires forall n :: n in before ==> before[n].name == n
      modifies this, before.Values
      ensures Valid()
      ensures if ok then Stopping(view, before, names, left - {name}) else name !in names && view[name].stopped
    {
      ok := true;
      if name !in names {
        ok := StopOne(name);
      }
    }

    // Keeps, starts or replaces the tailer of one website.
    method PlaceOne(w: Website, ghost now: View) returns (ok: bool)
      requires Valid() && Shows(now)
      modifies this, tailers.Values
      ensures Valid()
      ensures ok <==> Place(now, w).Done?
      ensures ok ==> Shows(Place(now, w).view)
      ensures ok ==> w.name in tailers && tailers == old(tailers)[w.name := tailers[w.name]]
      ensures ok && w.name in now && now[w.name].path == w.logPath ==> tailers[w.name] == old(tailers[w.name])
      ensures ok && !(w.name in now && now[w.name].path == w.logPath) ==> fresh(tailers[w.name])
      ensures ok && w.name in now && now[w.name].path != w.logPath ==> old(tailers[w.name]).stopClosed
    {
      if w.name !in tailers {
        StartTailer(w);
      } else {
        var existing := tailers[w.name];
        if existing.logPath != w.logPath {
          ok := existing.Close();
          if !ok {
            return;
          }
          tailers := tailers - {w.name};
          StartTailer(w);
        }
      }
      ok := true;
    }

    // A tailer is in the map only under its own name.
    lemma OneNameEach(t: Tailer)
      requires Valid() && t in tailers.Values
      ensures t.name in tailers && tailers[t.name] == t
    {
    }

    // The tailers of before that are not in the map any more are stopped.
    ghost predicate Gone(before: map<string, Tailer>)
      reads this, before.Values
    {
      forall n :: n in before && n !in tailers ==> before[n].stopClosed && before[n] !in tailers.Values
    }

    lemma RemovedAreOutside(before: map<string, Tailer>)
      requires Valid() && forall n :: n in before ==> before[n].name == n
      ensures forall n :: n in before && n !in tailers ==> before[n] !in tailers.Values
    {
      forall n | n in before && before[n] in tailers.Values ensures n in tailers {
        OneNameEach(before[n]);
      }
    }

    // Told to stop.
    ghost predicate Closed(before: map<string, Tailer>, moved: set<string>)
      reads before.Values
    {
      forall n :: n in before && n in moved ==> before[n].stopClosed
    }

    lemma StillOutside(before: map<string, Tailer>, moved: set<string>)
      requires Valid() && Replaced(before, tailers, moved) && forall n :: n in before ==> before[n].name == n
      ensures forall n :: n in before && n in moved ==> before[n] !in tailers.Values
    {
      forall n | n in before && n in moved && before[n] in tailers.Values ensures false {
        OneNameEach(before[n]);
      }
    }

    method PlaceNext(w: Website, ghost view: View, ghost now: View, ghost before: map<string, Tailer>,
                     ghost moved: set<string>)
      returns (ok: bool, ghost next: View, ghost more: set<string>)
      requires Valid() && Shows(now) && Replaced(before, tailers, moved) && Closed(before, moved)
      requires view.Keys == before.Keys
      requires forall n :: n in before ==> before[n].name == n && before[n].logPath == view[n].path
      modifies this, tailers.Values
      ensures Valid()
      ensures ok <==> Place(now, w).Done?
      ensures ok ==> Done(next) == Place(now, w) && Shows(next)
      ensures ok ==> more == moved + MovedBy(view, w) && Replaced(before, tailers, more) && Closed(before, more)
      ensures ok ==> forall t :: t in tailers.Values ==> t in old(tailers.Values) || fresh(t)
    {
      next, more := now, moved + MovedBy(view, w);
      ghost var mid := tailers;
      StillOutside(before, moved);
      ok := PlaceOne(w, now);
      if ok {
        next := Place(now, w).view;
        ReplacedStep(before, mid, moved, w.name, tailers[w.name], more);
      }
    }

    method PlaceEach(ws: seq<Website>, ghost view: View) returns (ok: bool, ghost now: View)
      requires Valid() && Shows(view)
      modifies this, tailers.Values
      ensures Valid()
      ensures ok <==> PlaceAll(view, ws).Done?
      ensures ok ==> Shows(now) && PlaceAll(view, ws) == Done(now)
      ensures ok ==> Replaced(old(tailers), tailers, Moved(view, ws)) && Closed(old(tailers), Moved(view, ws))
      ensures ok ==> forall t :: t in tailers.Values ==> t in old(tailers.Values) || fresh(t)
    {
      ghost var before, moved := tailers, {};
      now := view;
      assert Moved(view, []) == {};
      assert forall n :: n in before ==> before[n].name == n && before[n].logPath == view[n].path;
      var i := 0;
      while i < |ws|
        invariant 0 <= i <= |ws|
        invariant PlaceAll(view, ws[..i]) == Done(now) && moved == Moved(view, ws[..i])
        invariant Valid() && Shows(now)
        invariant Replaced(before, tailers, moved) && Closed(before, moved)
        invariant forall t :: t in tailers.Values ==> t in before.Values || fresh(t)
      {
        PlaceStep(view, ws, i, now);
        ok, now, moved := PlaceNext(ws[i], view, now, before, moved);
        if !ok {
          PanicIsFinal(view, ws, i + 1);
          return;
        }
        i := i + 1;
      }
      assert ws[..i] == ws;
      ok := true;
    }

    // An update from before, which showed view: unchanged websites keep their tailer,
    // every other tailer of before is closed and gone.
    ghost predicate KeepsUnchanged(before: map<string, Tailer>, view: View, ws: seq<Website>)
      reads this
    {
      forall n :: n in before && Unchanged(view, ws, n) ==> n in tailers && tailers[n] == before[n]
    }

    ghost predicate ClosesOthers(before: map<string, Tailer>, view: View, ws: seq<Website>)
      reads this, before.Values
    {
      forall n :: n in before && !Unchanged(view, ws, n) ==> before[n].stopClosed && before[n] !in tailers.Values
    }

    // mid is what was left of before when the removed websites had gone.
    lemma UpdateKeeps(before: map<string, Tailer>, mid: map<string, Tailer>, view: View, ws: seq<Website>,
            moved: set<string>)
      requires Valid() && Replaced(mid, tailers, moved) && Closed(mid, moved)
      requires forall n :: n in mid ==> n in before && mid[n] == before[n]
      requires forall n :: n in before ==> before[n].name == n && (Unchanged(view, ws, n) <==> n in mid && n !in moved)
      requires forall n :: n in before && n !in mid ==> before[n].stopClosed && before[n] !in tailers.Values
      ensures KeepsUnchanged(before, view, ws) && ClosesOthers(before, view, ws)
    {
      StillOutside(mid, moved);
    }

    // The second half of an update: before showed view, and of it only the configured
    // websites are left.
    method PlaceKept(ws: seq<Website>, ghost before: map<string, Tailer>, ghost view: View) returns (ok: bool)
      requires Valid() && Shows(Restrict(view, Names(ws))) && view.Keys == before.Keys
      requires forall n :: n in tailers ==> n in before && tailers[n] == before[n]
      requires forall n :: n in before ==> before[n].name == n
      requires Gone(before)
      modifies this, tailers.Values
      ensures Valid()
      ensures ok <==> PlaceAll(Restrict(view, Names(ws)), ws).Done?
      ensures ok ==> ViewOf() == PlaceAll(Restrict(view, Names(ws)), ws).view
      ensures ok ==> KeepsUnchanged(before, view, ws) && ClosesOthers(before, view, ws)
      ensures ok ==> forall t :: t in tailers.Values ==> t in old(tailers.Values) || fresh(t)
    {
      ghost var kept, mid, now := Restrict(view, Names(ws)), tailers, map[];
      AllUnchangedStay(view, ws);
      ok, now := PlaceEach(ws, kept);
      if ok {
        assert now == ViewOf();
        UpdateKeeps(before, mid, view, ws, Moved(kept, ws));
      }
    }

    method UpdateWebsites(ws: seq<Website>) returns (ok: bool)
      requires Valid()
      modifies this, tailers.Values
      ensures Valid()
      ensures ok <==> Update(old(ViewOf()), ws).Done?
      ensures ok ==> ViewOf() == Update(old(ViewOf()), ws).view
      ensures ok ==> KeepsUnchanged(old(tailers), old(ViewOf()), ws)
      ensures ok ==> ClosesOthers(old(tailers), old(ViewOf()), ws)
      ensures ok ==> forall t :: t in tailers.Values ==> t in old(tailers.Values) || fresh(t)
    {
      ghost var view, before := ViewOf(), tailers;
      ok := StopRemoved(Names(ws));
      if ok {
        ok := PlaceKept(ws, before, view);
      }
    }

    method Stop() returns (ok: bool)
      requires Valid()
      modifies tailers.Values
      ensures Valid()
      ensures ok <==> Stopped(old(ViewOf())).Done?
      ensures ok ==> ViewOf() == Stopped(old(ViewOf())).view
    {
      ghost var view := ViewOf();
      var left := tailers.Keys;
      while left != {}
        invariant left <= tailers.Keys
        invariant forall n :: n in left ==> tailers[n].stopClosed == view[n].stopped
        invariant forall n :: n in tailers && n !in left ==> tailers[n].stopClosed && !view[n].stopped
        decreases left
      {
        var name :| name in left;
        left := left - {name};
        ok := tailers[name].Close();
        if !ok {
          assert view[name].stopped;
          return;
        }
      }
      ok := true;
    }
  }

  // Against an earlier map: the moved tailers are replaced by other objects, the
  // rest are the same objects, and every further one is another.
  ghost predicate Replaced(before: map<string, Tailer>, now: map<string, Tailer>, moved: set<string>) {
    && before.Keys <= now.Keys
    && (forall n :: n in before && n !in moved ==> now[n] == before[n])
    && (forall n :: n in before && n in moved ==> now[n] !in before.Values)
    && (forall n :: n in now && n !in before ==> now[n] !in before.Values)
  }

  lemma ReplacedStep(before: map<string, Tailer>, mid: map<string, Tailer>, moved: set<string>, name: string, t: Tailer,
                     more: set<string>)
    requires Replaced(before, mid, moved)
    requires moved <= more <= moved + {name}
    requires if name in before && name !in more then t == mid[name] else t !in before.Values
    ensures Replaced(before, mid[name := t], more)
  {
  }
}
