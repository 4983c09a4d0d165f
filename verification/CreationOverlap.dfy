/**
 * A run, from an empty data directory, that ends with two machines whose blocks overlap: the base
 * of the second was asked for, and the first was saved between the reads of the second.
 */
module CreationOverlap {
  import opened Prelude
  import opened LockModel
  import opened LockInvariant
  import LockAlone
  import LockSteps
  import opened LockScan
  import opened LockSolo
  import Ports = PortBlocks
  import opened CreationModel
  import opened CreationSteps

  // ---- Runs, put together ------------------------------------------------------------------------

  /** These events lead from `w` to `w'`. */
  ghost predicate Leads(w: Site, vs: seq<Event>, w': Site)
    decreases |vs|
  {
    if vs == [] then w == w' else exists mid :: SiteNext(w, vs[0], mid) && Leads(mid, vs[1..], w')
  }

  ghost predicate Reaches(w: Site, w': Site) {
    exists vs :: Leads(w, vs, w')
  }

  lemma ReachesItself(w: Site)
    ensures Reaches(w, w)
  {
    assert Leads(w, [], w);
  }

  lemma First(w: Site, v: Event, mid: Site, w': Site)
    requires SiteNext(w, v, mid) && Reaches(mid, w')
    ensures Reaches(w, w')
  {
    hide SiteNext;
    var vs :| Leads(mid, vs, w');
    assert ([v] + vs)[1..] == vs;
    assert Leads(w, [v] + vs, w');
  }

  lemma {:induction false} LeadsThen(w: Site, vs: seq<Event>, mid: Site, w': Site)
    requires Leads(w, vs, mid) && Reaches(mid, w')
    ensures Reaches(w, w')
    decreases |vs|
  {
    hide SiteNext;
    if vs != [] {
      var next :| SiteNext(w, vs[0], next) && Leads(next, vs[1..], mid);
      LeadsThen(next, vs[1..], mid, w');
      First(w, vs[0], next, w');
    }
  }

  lemma Then(w: Site, mid: Site, w': Site)
    requires Reaches(w, mid) && Reaches(mid, w')
    ensures Reaches(w, w')
  {
    var vs :| Leads(w, vs, mid);
    LeadsThen(w, vs, mid, w');
  }

  lemma OneStep(w: Site, v: Event, w': Site)
    requires SiteNext(w, v, w')
    ensures Reaches(w, w')
  {
    ReachesItself(w');
    First(w, v, w', w');
  }

  /** What is reached from a start is the end of a run. */
  lemma {:induction false} LeadsIsRun(w: Site, vs: seq<Event>, w': Site) returns (ws: seq<Site>)
    requires Leads(w, vs, w')
    ensures |ws| == |vs| + 1 && ws[0] == w && ws[|vs|] == w'
    ensures forall i {:trigger vs[i]} :: 0 <= i < |vs| ==> SiteNext(ws[i], vs[i], ws[i + 1])
    decreases |vs|
  {
    hide SiteNext;
    if vs == [] {
      ws := [w];
    } else {
      var mid :| SiteNext(w, vs[0], mid) && Leads(mid, vs[1..], w');
      var rest := LeadsIsRun(mid, vs[1..], w');
      ws := [w] + rest;
      forall i {:trigger vs[i]} | 0 <= i < |vs|
        ensures SiteNext(ws[i], vs[i], ws[i + 1])
      {
        if i > 0 {
          assert vs[1..][i - 1] == vs[i];
        }
      }
    }
  }

  // ---- The locks ---------------------------------------------------------------------------------

  lemma {:induction false} AllocSolo(w: Site, c: Contender, draws: seq<nat>)
    requires Solo(w.alloc, c, draws)
    ensures Reaches(w, w.(alloc := After(w.alloc, c, draws)))
    decreases |draws|
  {
    if draws == [] {
      ReachesItself(w);
    } else {
      var mid := w.(alloc := Act(w.alloc, c, draws[0]));
      assert SiteNext(w, AllocMove(Turn(c, draws[0])), mid);
      hide SiteNext, Act, CanAct, Reaches;
      AllocSolo(mid, c, draws[1..]);
      First(w, AllocMove(Turn(c, draws[0])), mid, w.(alloc := After(w.alloc, c, draws)));
    }
  }

  lemma OneLockMoves(w: Site, n: string, l: Label, s': State)
    requires n in w.locks && Next(w.locks[n], l, s') && !l.Crash? && !l.Remove? && !TooEarly(w, n, l)
    requires l.Begin? ==> l.reserve.None?
    ensures SiteNext(w, MachineMove(n, l), w.(locks := w.locks[n := s']))
  {
  }

  lemma {:induction false} MachineSolo(w: Site, n: string, c: Contender, draws: seq<nat>)
    requires n in w.locks && Solo(w.locks[n], c, draws)
    ensures Reaches(w, w.(locks := w.locks[n := After(w.locks[n], c, draws)]))
    decreases |draws|
  {
    if draws == [] {
      assert w.locks[n := w.locks[n]] == w.locks;
      ReachesItself(w);
    } else {
      var mid := w.(locks := w.locks[n := Act(w.locks[n], c, draws[0])]);
      hide Act, CanAct, Reaches;
      OneLockMoves(w, n, Turn(c, draws[0]), Act(w.locks[n], c, draws[0]));
      hide SiteNext;
      MachineSolo(mid, n, c, draws[1..]);
      var w' := w.(locks := w.locks[n := After(w.locks[n], c, draws)]);
      assert mid.locks[n := After(mid.locks[n], c, draws[1..])] == w'.locks;
      First(w, MachineMove(n, Turn(c, draws[0])), mid, w');
    }
  }

  /** No live holder stands in the way of the next one. */
  ghost predicate Open(s: State) {
    Inv(s) && (CurrentId(s.machine).Some? ==> LockAlone.FreeTop(s.machine, s.dead, CurrentId(s.machine).value))
  }

  /** A call that begins over an open lock gets it, alone. */
  lemma TakesOpen(s: State, c: Contender, reserve: Option<Reservation>) returns (begun: State, draws: seq<nat>)
    requires Open(s) && !s.machine.Absent? && PcOf(s, c).Idle? && c.pid !in s.dead
    ensures Next(s, Begin(c, reserve), begun) && Solo(begun, c, draws) && Inv(begun) && OnlyMoves(s, c, begun)
    ensures begun.procs[c].reserve == reserve
    ensures Inv(After(begun, c, draws)) && HoldsAlloc(After(begun, c, draws), c) && OnlyMoves(s, c, After(begun, c, draws))
  {
    begun := s.(procs := s.procs[c := Proc(EnsureDir, ProcOf(s, c).drawn, reserve)]);
    LockSteps.StepKeepsInv(s, Begin(c, reserve), begun);
    hide Inv;
    assert LockAlone.WillWin(begun, c);
    hide LockAlone.WillWin, LockAlone.FreeTop;
    draws := TakesAlone(begun, c);
    SoloMoves(begun, c, draws);
  }

  /** A holder that releases, alone, leaves the lock open. */
  lemma ReleasesOpen(s: State, c: Contender) returns (begun: State, draws: seq<nat>)
    requires Inv(s) && HoldsAlloc(s, c) && c.pid !in s.dead
    ensures Next(s, LockModel.Release(c), begun) && Solo(begun, c, draws)
    ensures Open(After(begun, c, draws)) && OnlyMoves(s, c, After(begun, c, draws))
    ensures Marked(After(begun, c, draws).machine, PcOf(s, c).claim) && !After(begun, c, draws).machine.Absent?
  {
    hide Inv;
    begun := GoTo(s, c, ReleaseRead(PcOf(s, c).claim));
    LockSteps.StepKeepsInv(s, LockModel.Release(c), begun);
    draws := ReleasesAlone(begun, c);
    SoloMoves(begun, c, draws);
  }

  lemma TakesAlloc(w: Site, c: Contender) returns (w': Site)
    requires Open(w.alloc) && PcOf(w.alloc, c).Idle? && c.pid !in w.alloc.dead
    ensures Reaches(w, w') && w' == w.(alloc := w'.alloc)
    ensures Inv(w'.alloc) && HoldsAlloc(w'.alloc, c) && OnlyMoves(w.alloc, c, w'.alloc)
  {
    hide Inv;
    var made := if w.alloc.machine.Absent? then w.alloc.(machine := Bare) else w.alloc;
    var w1 := w.(alloc := made);
    LockSteps.StepKeepsInv(w.alloc, MakeMachine, made);
    assert SiteNext(w, AllocMove(MakeMachine), w1);
    assert Open(made);
    var begun, draws := TakesOpen(made, c, None);
    var w2 := w1.(alloc := begun);
    w' := w2.(alloc := After(begun, c, draws));
    assert SiteNext(w1, AllocMove(Begin(c, None)), w2);
    hide Open, SiteNext, Reaches, Solo, After;
    AllocSolo(w2, c, draws);
    First(w1, AllocMove(Begin(c, None)), w2, w');
    First(w, AllocMove(MakeMachine), w1, w');
  }

  lemma ReleasesAlloc(w: Site, c: Contender) returns (w': Site)
    requires Inv(w.alloc) && HoldsAlloc(w.alloc, c) && c.pid !in w.alloc.dead
    requires c in w.jobs ==> !Critical(w.jobs[c].phase)
    ensures Reaches(w, w') && w' == w.(alloc := w'.alloc) && Open(w'.alloc) && OnlyMoves(w.alloc, c, w'.alloc)
  {
    hide Inv, Open, Reaches, Solo, After;
    var begun, draws := ReleasesOpen(w.alloc, c);
    var w1 := w.(alloc := begun);
    w' := w1.(alloc := After(begun, c, draws));
    assert SiteNext(w, AllocMove(LockModel.Release(c)), w1);
    hide SiteNext;
    AllocSolo(w1, c, draws);
    First(w, AllocMove(LockModel.Release(c)), w1, w');
  }

  lemma ReleasesMachine(w: Site, n: string, b: Contender) returns (w': Site)
    requires n in w.locks && Inv(w.locks[n]) && HoldsAlloc(w.locks[n], b) && b.pid !in w.locks[n].dead
    requires !TooEarly(w, n, LockModel.Release(b))
    ensures Reaches(w, w') && n in w'.locks && w' == w.(locks := w.locks[n := w'.locks[n]])
    ensures Marked(w'.locks[n].machine, PcOf(w.locks[n], b).claim) && w'.locks[n].dead == w.locks[n].dead
  {
    hide Inv, Open, Reaches, Solo, After, Marked;
    var begun, draws := ReleasesOpen(w.locks[n], b);
    var w1 := w.(locks := w.locks[n := begun]);
    w' := w.(locks := w.locks[n := After(begun, b, draws)]);
    OneLockMoves(w, n, LockModel.Release(b), begun);
    hide SiteNext;
    assert w1.(locks := w1.locks[n := After(begun, b, draws)]) == w';
    MachineSolo(w1, n, b, draws);
    First(w, MachineMove(n, LockModel.Release(b)), w1, w');
  }

  // ---- A creation --------------------------------------------------------------------------------

  lemma PutPut(w: Site, c: Contender, p: Phase, q: Phase)
    requires c in w.jobs
    ensures c in Put(w, c, p).jobs && Put(Put(w, c, p), c, q) == Put(w, c, q)
  {
    assert Put(w, c, p).jobs[c := w.jobs[c].(phase := q)] == w.jobs[c := w.jobs[c].(phase := q)];
  }

  lemma Moves(w: Site, c: Contender, p: Phase, v: Event, q: Phase)
    requires c in w.jobs && c in Put(w, c, p).jobs && SiteNext(Put(w, c, p), v, Put(Put(w, c, p), c, q))
    ensures SiteNext(Put(w, c, p), v, Put(w, c, q))
  {
    PutPut(w, c, p, q);
  }

  lemma ScanMoves(w: Site, c: Contender, seen: set<nat>, scan: Scan, listing: seq<string>)
    requires Working(w, c) && ListsDirectories(w, listing)
    requires ScanOk(View(w, w.jobs[c].name, scan)) && !scan.Finished?
    ensures SiteNext(Put(w, c, Scanning(seen, scan)), ScanCall(c, listing),
                     Put(w, c, Scanning(seen, ScanStep(View(w, w.jobs[c].name, scan), listing))))
  {
    hide ScanOk, ScanStep, Lists;
    var p := Scanning(seen, scan);
    assert View(Put(w, c, p), w.jobs[c].name, scan) == View(w, w.jobs[c].name, scan);
    assert View(Put(w, c, p), "", NotStarted) == View(w, "", NotStarted);
    Moves(w, c, p, ScanCall(c, listing), Scanning(seen, ScanStep(View(w, w.jobs[c].name, scan), listing)));
  }

  lemma ScanEnds(w: Site, c: Contender, seen: set<nat>, listing: seq<string>)
    requires Working(w, c) && ListsDirectories(w, listing)
    ensures SiteNext(Put(w, c, Scanning(seen, Finished([]))), ScanCall(c, listing), Put(w, c, Counting(seen, [], listing, {})))
  {
    hide Lists;
    var p := Scanning(seen, Finished([]));
    assert View(Put(w, c, p), "", NotStarted) == View(w, "", NotStarted);
    Moves(w, c, p, ScanCall(c, listing), Counting(seen, [], listing, {}));
  }

  /** The scan of an empty data directory, and of one with a machine whose last holder has released. */
  lemma ScansNothing(w: Site, c: Contender, listing: seq<string>, a: Claim)
    requires Working(w, c) && ListsDirectories(w, listing)
    requires listing == [] || (listing == [listing[0]] && listing[0] != w.jobs[c].name && listing[0] in w.locks
                               && Marked(w.locks[listing[0]].machine, a))
    ensures Reaches(Put(w, c, Scanning({}, NotStarted)), Put(w, c, Counting({}, [], listing, {})))
  {
    var v, name, end := ScanCall(c, listing), w.jobs[c].name, Put(w, c, Counting({}, [], listing, {}));
    ScanEnds(w, c, {}, listing);
    ScanMoves(w, c, {}, NotStarted, listing);
    ScanMoves(w, c, {}, AtName([], []), listing);
    hide SiteNext, Put, Reaches;
    OneStep(Put(w, c, Scanning({}, Finished([]))), v, end);
    First(Put(w, c, Scanning({}, AtName([], []))), v, Put(w, c, Scanning({}, Finished([]))), end);
    if listing != [] {
      ReleasedIsPassed(w, c, listing[0], a, end);
    }
    First(Put(w, c, Scanning({}, NotStarted)), v, Put(w, c, Scanning({}, AtName(listing, []))), end);
  }

  lemma ReleasedIsPassed(w: Site, c: Contender, n: string, a: Claim, w': Site)
    requires Working(w, c) && ListsDirectories(w, [n]) && n in w.locks && n != w.jobs[c].name && Marked(w.locks[n].machine, a)
    requires Reaches(Put(w, c, Scanning({}, AtName([], []))), w')
    ensures Reaches(Put(w, c, Scanning({}, AtName([n], []))), w')
  {
    var v, name := ScanCall(c, [n]), w.jobs[c].name;
    var s1, s2, s3 := AtName([n], []), AtList([n], a.id, []), AtRecord([n], a.id, a.gen + 1, []);
    assert [n][1..] == [];
    assert ScanStep(View(w, name, s1), [n]) == s2 && ScanStep(View(w, name, s2), [n]) == s3;
    assert ScanStep(View(w, name, s3), [n]) == AtName([], []);
    ScanMoves(w, c, {}, s1, [n]);
    ScanMoves(w, c, {}, s2, [n]);
    ScanMoves(w, c, {}, s3, [n]);
    hide SiteNext, Put, Reaches, ScanStep;
    First(Put(w, c, Scanning({}, s3)), v, Put(w, c, Scanning({}, AtName([], []))), w');
    First(Put(w, c, Scanning({}, s2)), v, Put(w, c, Scanning({}, s3)), w');
    First(Put(w, c, Scanning({}, s1)), v, Put(w, c, Scanning({}, s2)), w');
  }

  /** A creation comes in and reads that no machine is saved. */
  lemma ReadsNothing(w: Site, c: Contender, name: string, asked: Option<nat>, listing: seq<string>) returns (w': Site)
    requires c !in w.jobs && c.pid !in w.dead && name in w.locks && PcOf(w.alloc, c).Held?
    requires w.json == map[] && ListsDirectories(w, listing) && |listing| <= 1
    ensures Reaches(w, w')
    ensures w' == w.(jobs := w.jobs[c := Job(name, asked, Scanning({}, NotStarted), {})])
  {
    var w1 := w.(jobs := w.jobs[c := Job(name, asked, Waiting, {})]);
    var w2, w3 := Put(w1, c, Reading(listing, {})), Put(w1, c, Reading([], {}));
    w' := Put(w1, c, Scanning({}, NotStarted));
    assert SiteNext(w, Start(c, name, asked), w1);
    assert SiteNext(w1, Enter(c, listing), w2) by {
      assert View(w1, "", NotStarted) == View(w, "", NotStarted);
      assert w1.json.Keys == {};
    }
    assert SiteNext(w3, Read(c), w') by {
      Moves(w1, c, Reading([], {}), Read(c), Scanning({}, NotStarted));
    }
    OneStep(w3, Read(c), w');
    if listing != [] {
      assert listing[1..] == [];
      Moves(w1, c, Reading(listing, {}), Read(c), Reading([], {}));
      hide SiteNext, Put, Reaches;
      First(w2, Read(c), w3, w');
    }
    hide SiteNext, Put, Reaches;
    First(w1, Enter(c, listing), w2, w');
    First(w, Start(c, name, asked), w1, w');
  }

  /** With no reservation found, it counts what is saved, picks its base, and gets its addresses. */
  lemma PicksAmong(w: Site, c: Contender, listing: seq<string>, base: nat, macs: Macs)
    requires Working(w, c) && ListsDirectories(w, listing) && |listing| <= 1
    requires if w.jobs[c].asked.Some? then w.jobs[c].asked == Some(base) else listing == []
    requires forall n :: n in listing && n in w.json ==> macs.derived !! AllMacs(w.json[n].macs)
    ensures Reaches(Put(w, c, Counting({}, [], listing, {})), Put(w, c, Picked(base, macs)))
  {
    var used, taken := UsedBases(w, listing), UsedMacs(w, listing);
    var p1, p2 := Counting({}, [], listing, {}), Counting({}, [], [], used);
    var p3, p4 := Addressing(base, [], listing, {}), Addressing(base, [], [], taken);
    var w' := Put(w, c, Picked(base, macs));
    NothingReserved();
    assert View(Put(w, c, p2), "", NotStarted) == View(w, "", NotStarted);
    Moves(w, c, p4, Assign(c, macs), Picked(base, macs));
    Moves(w, c, p2, Pick(c, base, listing), p3);
    if listing != [] {
      assert listing[1..] == [];
      Moves(w, c, p3, CountMacs(c), p4);
      Moves(w, c, p1, Count(c), p2);
    }
    hide SiteNext, Put, Reaches;
    OneStep(Put(w, c, p4), Assign(c, macs), w');
    if listing != [] {
      First(Put(w, c, p3), CountMacs(c), Put(w, c, p4), w');
    }
    First(Put(w, c, p2), Pick(c, base, listing), Put(w, c, p3), w');
    if listing != [] {
      First(Put(w, c, p1), Count(c), Put(w, c, p2), w');
    }
  }

  function UsedBases(w: Site, listing: seq<string>): set<nat> {
    if listing != [] && listing[0] in w.json then {} + {w.json[listing[0]].base} else {}
  }

  function UsedMacs(w: Site, listing: seq<string>): set<string> {
    if listing != [] && listing[0] in w.json then {} + AllMacs(w.json[listing[0]].macs) else {}
  }

  lemma NothingReserved()
    ensures ReservedBases([]) == {} && ReservedMacs([]) == {}
  {
  }

  /** It takes its machine's lock in a new directory, and is in flight. */
  lemma TakesMachine(w: Site, c: Contender, b: Contender, texts: seq<string>) returns (w': Site)
    requires Working(w, c) && w.jobs[c].phase.Picked? && Texts(texts) == AllMacs(w.jobs[c].phase.macs)
    requires w.jobs[c].name in w.locks && w.jobs[c].name !in w.json && LockOk(w.locks[w.jobs[c].name], w.dead)
    requires w.locks[w.jobs[c].name].machine.Absent? && PcOf(w.locks[w.jobs[c].name], b).Idle? && b.pid == c.pid
    ensures Reaches(w, w') && c in w'.jobs && w.jobs[c].name in w'.locks
    ensures w'.jobs[c].phase == InFlight(w.jobs[c].phase.base, w.jobs[c].phase.macs, b)
    ensures w' == Put(w, c, w'.jobs[c].phase).(locks := w.locks[w.jobs[c].name := w'.locks[w.jobs[c].name]])
    ensures HoldsAlloc(w'.locks[w.jobs[c].name], b)
  {
    hide Inv, Solo, After, OnlyMoves, SiteNext, Reaches, OwnReserve;
    var n, base, macs := w.jobs[c].name, w.jobs[c].phase.base, w.jobs[c].phase.macs;
    var made := w.locks[n].(machine := Bare);
    LockSteps.StepKeepsInv(w.locks[n], MakeMachine, made);
    assert Open(made);
    var begun, draws := TakesOpen(made, b, Some(Reservation(base, texts)));
    var taken := After(begun, b, draws);
    hide Open;
    var w1 := w.(locks := w.locks[n := made]);
    var w2 := Put(w, c, Trying(base, macs, b)).(locks := w.locks[n := begun]);
    var w3 := w2.(locks := w.locks[n := taken]);
    OneLockMoves(w, n, MakeMachine, made);
    Tries(w, c, b, texts, made, begun, w1, w2);
    Lands(w, c, b, taken, w3);
    w' := Put(w, c, InFlight(base, macs, b)).(locks := w.locks[n := taken]);
    hide Put;
    assert w2.(locks := w2.locks[n := taken]) == w3;
    MachineSolo(w2, n, b, draws);
    Then(w2, w3, w');
    First(w1, Try(c, b, texts), w2, w');
    First(w, MachineMove(n, MakeMachine), w1, w');
  }

  lemma Tries(w: Site, c: Contender, b: Contender, texts: seq<string>, made: State, begun: State, w1: Site, w2: Site)
    requires Working(w, c) && w.jobs[c].phase.Picked? && Texts(texts) == AllMacs(w.jobs[c].phase.macs) && b.pid == c.pid
    requires w.jobs[c].name in w.locks && Next(made, Begin(b, Some(Reservation(w.jobs[c].phase.base, texts))), begun)
    requires w1 == w.(locks := w.locks[w.jobs[c].name := made])
    requires w2 == Put(w, c, Trying(w.jobs[c].phase.base, w.jobs[c].phase.macs, b)).(locks := w.locks[w.jobs[c].name := begun])
    ensures SiteNext(w1, Try(c, b, texts), w2)
  {
    hide Next;
    assert w1.locks[w.jobs[c].name := begun] == w.locks[w.jobs[c].name := begun];
  }

  lemma Lands(w: Site, c: Contender, b: Contender, taken: State, w3: Site)
    requires Working(w, c) && w.jobs[c].phase.Picked? && w.jobs[c].name in w.locks && w.jobs[c].name !in w.json
    requires HoldsAlloc(taken, b)
    requires w3 == Put(w, c, Trying(w.jobs[c].phase.base, w.jobs[c].phase.macs, b)).(locks := w.locks[w.jobs[c].name := taken])
    ensures Reaches(w3, Put(w, c, InFlight(w.jobs[c].phase.base, w.jobs[c].phase.macs, b)).(locks := w.locks[w.jobs[c].name := taken]))
  {
    var base, macs := w.jobs[c].phase.base, w.jobs[c].phase.macs;
    var u := w.(locks := w.locks[w.jobs[c].name := taken]);
    var w4, w5 := Put(u, c, Claimed(base, macs, b)), Put(u, c, InFlight(base, macs, b));
    assert w3 == Put(u, c, Trying(base, macs, b));
    Moves(u, c, Trying(base, macs, b), Got(c), Claimed(base, macs, b));
    Moves(u, c, Claimed(base, macs, b), CheckSaved(c), InFlight(base, macs, b));
    assert w5 == Put(w, c, InFlight(base, macs, b)).(locks := w.locks[w.jobs[c].name := taken]);
    hide SiteNext, Put, Reaches;
    OneStep(w4, CheckSaved(c), w5);
    First(w3, Got(c), w4, w5);
  }

  lemma {:induction false} LeadsKeepsInv(w: Site, vs: seq<Event>, w': Site)
    requires SiteInv(w) && Leads(w, vs, w')
    ensures SiteInv(w')
    decreases |vs|
  {
    hide SiteInv, SiteNext;
    if vs != [] {
      var mid :| SiteNext(w, vs[0], mid) && Leads(mid, vs[1..], w');
      SiteStepKeepsInv(w, vs[0], mid);
      LeadsKeepsInv(mid, vs[1..], w');
    }
  }

  lemma ReachesKeepsInv(w: Site, w': Site)
    requires SiteInv(w) && Reaches(w, w')
    ensures SiteInv(w')
  {
    hide SiteInv;
    var vs :| Leads(w, vs, w');
    LeadsKeepsInv(w, vs, w');
  }

  // ---- Two creations -----------------------------------------------------------------------------

  const FIRST: Contender := Contender(1, 0)
  const FIRST_LOCKER: Contender := Contender(1, 1)
  const SECOND: Contender := Contender(2, 0)
  const SECOND_LOCKER: Contender := Contender(2, 1)

  /** Creation `FIRST` of machine `n` is in flight, still holds the allocation lock, and nothing else
      has happened. */
  ghost predicate OneInFlight(w: Site, n: string, macs: Macs) {
    && w.json == map[] && w.dead == {}
    && w.jobs == map[FIRST := Job(n, None, InFlight(Ports.DEFAULT_PORT_BASE, macs, FIRST_LOCKER), {})]
    && n in w.locks && HoldsAlloc(w.locks[n], FIRST_LOCKER)
    && (forall k :: k in w.locks && k != n ==> Init(w.locks[k]))
    && forall b :: b != FIRST ==> PcOf(w.alloc, b).Idle?
  }

  /** Creation `c`, with nothing saved and no reservation to find, picks what it may. */
  lemma Picks(w: Site, c: Contender, name: string, base: nat, macs: Macs) returns (w': Site)
    requires c !in w.jobs && c.pid !in w.dead && name in w.locks && PcOf(w.alloc, c).Held?
    requires w.json == map[] && ListsDirectories(w, [])
    ensures Reaches(w, w') && w' == w.(jobs := w.jobs[c := Job(name, None, Picked(base, macs), {})])
  {
    hide Reaches, Lists;
    var w1 := ReadsNothing(w, c, name, None, []);
    w' := Put(w1, c, Picked(base, macs));
    assert View(w1, "", NotStarted) == View(w, "", NotStarted) && w1 == Put(w1, c, Scanning({}, NotStarted));
    ScansNothing(w1, c, [], Claim(0, 0, None, Record(0, Token(c, 0), false, None), false));
    PicksAmong(w1, c, [], base, macs);
    Then(w1, Put(w1, c, Counting({}, [], [], {})), w');
    Then(w, w1, w');
  }

  lemma FirstCreation(w: Site, n: string, x: string) returns (w': Site)
    requires SiteInit(w) && n in w.locks
    ensures Reaches(w, w') && w'.locks.Keys == w.locks.Keys && OneInFlight(w', n, Macs({}, {x})) && HoldsAlloc(w'.alloc, FIRST)
  {
    hide SiteInv, Open, Reaches, Inv, LockOk;
    var macs := Macs({}, {x});
    SiteInitInv(w);
    StartsOpen(w, n);
    var w1 := TakesAlloc(w, FIRST);
    assert ListsDirectories(w1, []);
    hide Lists;
    var w2 := Picks(w1, FIRST, n, Ports.DEFAULT_PORT_BASE, macs);
    assert Texts([x]) == AllMacs(macs);
    w' := TakesMachine(w2, FIRST, FIRST_LOCKER, [x]);
    Then(w1, w2, w');
    Then(w, w1, w');
  }

  lemma StartsOpen(w: Site, n: string)
    requires SiteInv(w) && SiteInit(w) && n in w.locks
    ensures Open(w.alloc) && LockOk(w.locks[n], w.dead) && w.alloc.dead == w.dead
  {
    hide Inv;
  }

  /** Creation `SECOND` of machine `m` reads that nothing is saved. */
  lemma SecondReads(w: Site, n: string, m: string, x: string, base: nat) returns (w': Site)
    requires SiteInv(w) && OneInFlight(w, n, Macs({}, {x})) && HoldsAlloc(w.alloc, FIRST) && m in w.locks && m != n
    ensures Reaches(w, w') && w' == w.(alloc := w'.alloc, jobs := w.jobs[SECOND := Job(m, Some(base), Scanning({}, NotStarted), {})])
  {
    hide SiteInv, Open, Reaches, Inv;
    AllocAndMachine(w, n);
    var w1 := ReleasesAlloc(w, FIRST);
    assert PcOf(w.alloc, SECOND).Idle? && ProcOf(w1.alloc, SECOND) == ProcOf(w.alloc, SECOND);
    var w2 := TakesAlloc(w1, SECOND);
    assert ListsDirectories(w2, [n]);
    w' := ReadsNothing(w2, SECOND, m, Some(base), [n]);
    Then(w1, w2, w');
    Then(w, w1, w');
  }

  /** Then machine `n` is saved, and its lock is released. */
  lemma FirstIsSaved(w: Site, n: string, macs: Macs) returns (w': Site)
    requires SiteInv(w) && w.json == map[] && w.dead == {} && FIRST in w.jobs && n in w.locks && HoldsAlloc(w.locks[n], FIRST_LOCKER)
    requires w.jobs[FIRST] == Job(n, None, InFlight(Ports.DEFAULT_PORT_BASE, macs, FIRST_LOCKER), {})
    requires forall c :: c in w.jobs ==> !PastScan(w.jobs[c].phase)
    ensures Reaches(w, w') && n in w'.locks
    ensures w' == w.(locks := w.locks[n := w'.locks[n]], json := map[n := Saved(Ports.DEFAULT_PORT_BASE, true, macs)])
    ensures Marked(w'.locks[n].machine, PcOf(w.locks[n], FIRST_LOCKER).claim)
  {
    hide SiteInv, Reaches, Inv, Marked;
    AllocAndMachine(w, n);
    var w1 := With(w, n, BlockOf(w.jobs[FIRST]));
    assert SiteNext(w, Save(FIRST), w1);
    assert w1.jobs == w.jobs && w1.json == map[n := Saved(Ports.DEFAULT_PORT_BASE, true, macs)];
    hide SiteNext;
    w' := ReleasesMachine(w1, n, FIRST_LOCKER);
    First(w, Save(FIRST), w1, w');
  }

  /** Then `SECOND` scans, counts and picks the base that it was asked for. */
  lemma SecondPicks(w: Site, n: string, a: Claim, base: nat, macs: Macs) returns (w': Site)
    requires Working(w, SECOND) && w.jobs[SECOND].phase == Scanning({}, NotStarted) && w.jobs[SECOND].asked == Some(base)
    requires n in w.json && macs.derived !! AllMacs(w.json[n].macs)
    requires ListsDirectories(w, [n]) && n in w.locks && n != w.jobs[SECOND].name && Marked(w.locks[n].machine, a)
    ensures Reaches(w, w') && w' == Put(w, SECOND, Picked(base, macs))
  {
    hide Reaches, Marked, Lists;
    w' := Put(w, SECOND, Picked(base, macs));
    PutSame(w, SECOND);
    ScansNothing(w, SECOND, [n], a);
    PicksAmong(w, SECOND, [n], base, macs);
    hide Put;
    Then(w, Put(w, SECOND, Counting({}, [], [n], {})), w');
  }

  lemma PutSame(w: Site, c: Contender)
    requires c in w.jobs
    ensures Put(w, c, w.jobs[c].phase) == w
  {
    assert w.jobs[c := w.jobs[c]] == w.jobs;
  }

  /** A base that was asked for, and that overlaps the first block there is: two creations, one after
      the other, the save of the first between the reads of the second, and both have their block. */
  lemma AskedBaseCanOverlap(w: Site, n: string, m: string, x: string, y: string, base: nat)
    requires SiteInit(w) && n in w.locks && m in w.locks && m != n && x != y
    requires Ports.Overlap(base, Ports.DEFAULT_PORT_BASE)
    ensures exists ws, vs, a, b ::
              && SiteRun(ws, vs) && ws[0] == w
              && HasBlock(ws[|vs|], n, a) && HasBlock(ws[|vs|], m, b) && a.automatic && b.base == base
              && Ports.Overlap(a.base, b.base)
  {
    hide SiteInv, Reaches, Marked, Lists, Standing;
    SiteInitInv(w);
    var w1 := FirstCreation(w, n, x);
    ReachesKeepsInv(w, w1);
    var claim := PcOf(w1.locks[n], FIRST_LOCKER).claim;
    var w2 := SecondReads(w1, n, m, x, base);
    ReachesKeepsInv(w1, w2);
    var w3 := FirstIsSaved(w2, n, Macs({}, {x}));
    ReachesKeepsInv(w2, w3);
    OnlyDirectory(w3, n, claim);
    var w4 := SecondPicks(w3, n, claim, base, Macs({}, {y}));
    ReachesKeepsInv(w3, w4);
    AllocAndMachine(w4, m);
    assert Texts([y]) == AllMacs(Macs({}, {y}));
    var w5 := TakesMachine(w4, SECOND, SECOND_LOCKER, [y]);
    ReachesKeepsInv(w4, w5);
    Then(w, w1, w2);
    Then(w, w2, w3);
    Then(w, w3, w4);
    Then(w, w4, w5);
    BothHaveBlocks(w5, n, m);
    hide HasBlock;
    var ws, vs := ReachesByRun(w, w5);
  }

  lemma ReachesByRun(w: Site, w': Site) returns (ws: seq<Site>, vs: seq<Event>)
    requires SiteInit(w) && Reaches(w, w')
    ensures SiteRun(ws, vs) && ws[0] == w && ws[|vs|] == w'
  {
    hide SiteInit, SiteNext;
    vs :| Leads(w, vs, w');
    ws := LeadsIsRun(w, vs, w');
  }

  lemma BothHaveBlocks(w: Site, n: string, m: string)
    requires SiteInv(w) && w.dead == {} && n in w.json && SECOND in w.jobs && m in w.locks && HoldsAlloc(w.locks[m], SECOND_LOCKER)
    requires w.jobs[SECOND].name == m && w.jobs[SECOND].phase.InFlight? && w.jobs[SECOND].phase.locker == SECOND_LOCKER
    ensures HasBlock(w, n, w.json[n]) && HasBlock(w, m, BlockOf(w.jobs[SECOND]))
  {
    hide SiteInv;
    AllocAndMachine(w, m);
    assert Flying(w, SECOND);
  }

  lemma OnlyDirectory(w: Site, n: string, a: Claim)
    requires n in w.locks && Marked(w.locks[n].machine, a) && forall k :: k in w.locks && k != n ==> Init(w.locks[k])
    ensures ListsDirectories(w, [n])
  {
  }

  lemma AllocAndMachine(w: Site, n: string)
    requires SiteInv(w) && n in w.locks
    ensures Inv(w.alloc) && w.alloc.dead == w.dead && LockOk(w.locks[n], w.dead)
    ensures forall b :: HoldsAlloc(w.locks[n], b) && b.pid !in w.dead ==> !w.locks[n].machine.Absent?
  {
    hide ChoiceOk, Apart, SavedByOwner, JobsOk, NoneRemoved, ReserveOk;
    assert LockOk(w.locks[n], w.dead);
    forall b | HoldsAlloc(w.locks[n], b) && b.pid !in w.dead
      ensures !w.locks[n].machine.Absent?
    {
      StandingIsThere(w.locks[n], b);
    }
  }
}
