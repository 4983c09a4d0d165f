/**
 * The reservation scan: one reader goes through every machine's lock, call by call, while the
 * contenders of all of them keep moving.
 */
module LockScan {
  import opened Prelude
  import opened LockModel
  import opened LockInvariant
  import opened LockSteps

  /** A live holder's record, as currentHolder returned it for machine `name`. */
  datatype Found = Found(name: string, holder: Record)

  /** The scan's next call. `todo[0]` is the machine it is looking at. */
  datatype Scan =
    | NotStarted
    | AtName(todo: seq<string>, found: seq<Found>)
    | AtList(todo: seq<string>, id: Id, found: seq<Found>)
    | AtRecord(todo: seq<string>, id: Id, gen: nat, found: seq<Found>)
    | AtPid(todo: seq<string>, record: Record, found: seq<Found>)
    | Finished(found: seq<Found>)

  /** The locks of all machine names that ever occur, the processes, and the scanner. */
  datatype World = World(locks: map<string, State>, dead: set<Pid>, except: Option<string>, scan: Scan)

  datatype Move =
    | LockMove(name: string, step: Label)
    | ProcessDies(pid: Pid)
    | ScanMove(listing: seq<string>)

  /** currentHolder returned undefined for the first machine of `todo`. */
  function NoHolder(todo: seq<string>, found: seq<Found>): Scan
    requires todo != []
  {
    AtName(todo[1..], found)
  }

  /** Only records of a creation carry a reservation. */
  function WithHolder(todo: seq<string>, r: Record, found: seq<Found>): Scan
    requires todo != []
  {
    AtName(todo[1..], if r.reserve.Some? then found + [Found(todo[0], r)] else found)
  }

  /** One call of the scan. Each machine's lock is read in four calls: its id, its listing, its
      top record, and whether the record's process lives. */
  function ScanStep(w: World, listing: seq<string>): Scan
    requires ScanOk(w)
  {
    match w.scan
    case NotStarted => AtName(listing, [])
    case AtName(todo, found) =>
      if todo == [] then Finished(found)
      else if w.except == Some(todo[0]) then AtName(todo[1..], found)
      else
        (match CurrentId(w.locks[todo[0]].machine)
         case None => NoHolder(todo, found)
         case Some(id) => AtList(todo, id, found))
    case AtList(todo, id, found) =>
      var m := w.locks[todo[0]].machine;
      if !m.Locked? || Generations(m.lock, id) == {} then NoHolder(todo, found)
      else AtRecord(todo, id, MaxOf(Generations(m.lock, id)), found)
    case AtRecord(todo, id, gen, found) =>
      (match ReadRecord(w.locks[todo[0]].machine, Name(id, gen))
       case None => AtName(todo, found)
       case Some(r) => if r.released then NoHolder(todo, found) else AtPid(todo, r, found))
    case AtPid(todo, r, found) =>
      if r.pid in w.dead then NoHolder(todo, found) else WithHolder(todo, r, found)
    case Finished(_) => w.scan
  }

  predicate ScanOk(w: World) {
    match w.scan
    case AtName(todo, _) => forall n :: n in todo ==> n in w.locks
    case AtList(todo, _, _) => todo != [] && forall n :: n in todo ==> n in w.locks
    case AtRecord(todo, _, _, _) => todo != [] && forall n :: n in todo ==> n in w.locks
    case AtPid(todo, _, _) => todo != [] && forall n :: n in todo ==> n in w.locks
    case _ => true
  }

  /** A listing of `machines/`: every directory that is there, and nothing else. */
  predicate Lists(w: World, listing: seq<string>) {
    && (forall n :: n in listing ==> n in w.locks && !w.locks[n].machine.Absent?)
    && (forall n :: n in w.locks && !w.locks[n].machine.Absent? ==> n in listing)
  }

  predicate WorldInit(w: World) {
    && (forall n :: n in w.locks ==> Init(w.locks[n]))
    && w.dead == {} && w.scan.NotStarted?
  }

  predicate WorldNext(w: World, v: Move, w': World) {
    match v
    case LockMove(n, l) =>
      && n in w.locks && !l.Crash? && w'.locks.Keys == w.locks.Keys
      && Next(w.locks[n], l, w'.locks[n])
      && w' == w.(locks := w.locks[n := w'.locks[n]])
    case ProcessDies(pid) =>
      && w'.locks.Keys == w.locks.Keys
      && (forall n :: n in w.locks ==> Next(w.locks[n], Crash(pid), w'.locks[n]))
      && w' == w.(locks := w'.locks, dead := w.dead + {pid})
    case ScanMove(listing) =>
      && (w.scan.NotStarted? ==> Lists(w, listing))
      && ScanOk(w)
      && w' == w.(scan := ScanStep(w, listing))
  }

  ghost predicate WorldRun(ws: seq<World>, vs: seq<Move>) {
    && |ws| == |vs| + 1
    && WorldInit(ws[0])
    && forall i {:trigger vs[i]} :: 0 <= i < |vs| ==> WorldNext(ws[i], vs[i], ws[i + 1])
  }

  // ---- Every lock of the world keeps its own invariant --------------------------------------

  ghost predicate WorldInv(w: World) {
    && ScanOk(w)
    && (forall n :: n in w.locks ==> Inv(w.locks[n]) && w.locks[n].dead == w.dead)
  }

  lemma ScanStaysOk(w: World, listing: seq<string>)
    requires ScanOk(w) && (w.scan.NotStarted? ==> Lists(w, listing))
    ensures ScanOk(w.(scan := ScanStep(w, listing)))
  {
  }

  lemma WorldStepKeepsInv(w: World, v: Move, w': World)
    requires WorldInv(w) && WorldNext(w, v, w')
    ensures WorldInv(w') && w'.locks.Keys == w.locks.Keys && w.dead <= w'.dead && w'.except == w.except
  {
    hide Inv;
    match v
    case LockMove(n, l) =>
      StepKeepsInv(w.locks[n], l, w'.locks[n]);
    case ProcessDies(pid) =>
      forall n | n in w.locks
        ensures Inv(w'.locks[n]) && w'.locks[n].dead == w'.dead
      {
        StepKeepsInv(w.locks[n], Crash(pid), w'.locks[n]);
      }
    case ScanMove(listing) =>
      ScanStaysOk(w, listing);
  }

  lemma WorldInitInv(w: World)
    requires WorldInit(w)
    ensures WorldInv(w)
  {
  }

  lemma {:induction false} WorldRunKeepsInv(ws: seq<World>, vs: seq<Move>, i: nat)
    requires WorldRun(ws, vs) && i < |ws|
    ensures WorldInv(ws[i]) && ws[i].locks.Keys == ws[0].locks.Keys && ws[i].except == ws[0].except
  {
    hide WorldInv, WorldInit, WorldNext;
    if i == 0 {
      WorldInitInv(ws[0]);
    } else {
      WorldRunKeepsInv(ws, vs, i - 1);
      assert WorldNext(ws[i - 1], vs[i - 1], ws[i]);
      WorldStepKeepsInv(ws[i - 1], vs[i - 1], ws[i]);
    }
  }

  // ---- A creator that holds its lock throughout is reported ----------------------------------

  /** Contender `c` holds machine `name` with the claim `a`. */
  predicate Holds(w: World, name: string, c: Contender, a: Claim) {
    name in w.locks && Standing(w.locks[name], c) && PcOf(w.locks[name], c).claim == a
  }

  /** The scan has reported the record of `a` for `name`, is reading it now, or will. */
  predicate WillReport(scan: Scan, name: string, a: Claim) {
    match scan
    case NotStarted => false
    case AtName(todo, found) => name in todo || Found(name, a.mine) in found
    case AtList(todo, id, found) =>
      todo != [] && (name in todo[1..] || Found(name, a.mine) in found || (todo[0] == name && id == a.id))
    case AtRecord(todo, id, gen, found) =>
      todo != [] && (name in todo[1..] || Found(name, a.mine) in found || (todo[0] == name && id == a.id && gen == a.gen))
    case AtPid(todo, r, found) =>
      todo != [] && (name in todo[1..] || Found(name, a.mine) in found || (todo[0] == name && r == a.mine))
    case Finished(found) => Found(name, a.mine) in found
  }

  lemma HolderReads(w: World, name: string, c: Contender, a: Claim)
    requires WorldInv(w) && Holds(w, name, c, a)
    ensures var m := w.locks[name].machine;
            && Current(m, a.id) && Generations(m.lock, a.id) != {} && MaxOf(Generations(m.lock, a.id)) == a.gen
            && ReadRecord(m, Name(a.id, a.gen)) == Some(a.mine)
    ensures !a.mine.released && a.mine.pid !in w.dead
  {
    var s := w.locks[name];
    assert Live(s, c) && Shape(s.ids, c, PcOf(s, c)) && Fact(s.machine, s.dead, PcOf(s, c));
    GenerationNames(s.machine.lock, a.id, a.gen);
  }

  lemma ScanKeepsReport(w: World, v: Move, w': World, name: string, c: Contender, a: Claim)
    requires WorldInv(w) && WorldNext(w, v, w') && Holds(w, name, c, a)
    requires a.mine.reserve.Some? && w.except != Some(name)
    requires WillReport(w.scan, name, a) || (w.scan.NotStarted? && v.ScanMove?)
    ensures WillReport(w'.scan, name, a)
  {
    HolderReads(w, name, c, a);
    if v.ScanMove? && !w.scan.NotStarted? && !w.scan.Finished? && w.scan.todo != [] {
      assert name in w.scan.todo ==> name == w.scan.todo[0] || name in w.scan.todo[1..];
    }
  }

  lemma SameClaim(s: State, l: Label, s': State, c: Contender)
    requires Next(s, l, s') && Standing(s, c) && Standing(s', c)
    ensures PcOf(s', c).claim == PcOf(s, c).claim
  {
  }

  lemma HoldsOn(w: World, v: Move, w': World, name: string, c: Contender, a: Claim)
    requires WorldNext(w, v, w') && Holds(w, name, c, a) && name in w'.locks && Standing(w'.locks[name], c)
    ensures Holds(w', name, c, a)
  {
    match v
    case LockMove(n, l) =>
      if n == name {
        SameClaim(w.locks[n], l, w'.locks[n], c);
      }
    case ProcessDies(pid) => SameClaim(w.locks[name], Crash(pid), w'.locks[name], c);
    case ScanMove(_) =>
  }

  lemma ReportStep(ws: seq<World>, vs: seq<Move>, k: nat, name: string, c: Contender, a: Claim)
    requires WorldRun(ws, vs) && k < |vs|
    requires Holds(ws[k], name, c, a) && name in ws[k + 1].locks && Standing(ws[k + 1].locks[name], c)
    requires a.mine.reserve.Some? && ws[0].except != Some(name)
    requires WillReport(ws[k].scan, name, a) || (ws[k].scan.NotStarted? && vs[k].ScanMove?)
    ensures Holds(ws[k + 1], name, c, a) && WillReport(ws[k + 1].scan, name, a)
  {
    WorldRunKeepsInv(ws, vs, k);
    assert WorldNext(ws[k], vs[k], ws[k + 1]);
    ScanKeepsReport(ws[k], vs[k], ws[k + 1], name, c, a);
    HoldsOn(ws[k], vs[k], ws[k + 1], name, c, a);
  }

  /** Contender `c` stands for machine `name` in every state from `b` to `e`. */
  predicate StandsThroughout(ws: seq<World>, b: nat, e: nat, name: string, c: Contender)
    requires e < |ws|
  {
    forall k :: b <= k <= e ==> name in ws[k].locks && Standing(ws[k].locks[name], c)
  }

  lemma {:induction false} ReportFollows(ws: seq<World>, vs: seq<Move>, b: nat, e: nat, name: string, c: Contender, a: Claim)
    requires WorldRun(ws, vs) && b < e < |ws|
    requires ws[b].scan.NotStarted? && vs[b].ScanMove? && ws[0].except != Some(name)
    requires Holds(ws[b], name, c, a) && StandsThroughout(ws, b, e, name, c) && a.mine.reserve.Some?
    ensures Holds(ws[e], name, c, a) && WillReport(ws[e].scan, name, a)
    decreases e
  {
    if b + 1 < e {
      ReportFollows(ws, vs, b, e - 1, name, c, a);
    }
    ReportStep(ws, vs, e - 1, name, c, a);
  }

  /** However the other contenders move, a creator that holds its machine's lock throughout the
      scan has its reservation in the result. */
  lemma HeldReservationIsReported(ws: seq<World>, vs: seq<Move>, b: nat, e: nat, name: string, c: Contender, a: Claim)
    requires WorldRun(ws, vs) && b < e < |ws|
    requires ws[b].scan.NotStarted? && vs[b].ScanMove? && ws[e].scan.Finished?
    requires ws[0].except != Some(name)
    requires Holds(ws[b], name, c, a) && StandsThroughout(ws, b, e, name, c) && a.mine.reserve.Some?
    ensures Found(name, a.mine) in ws[e].scan.found
  {
    ReportFollows(ws, vs, b, e, name, c, a);
  }

  // ---- Nothing is reported for the dead ------------------------------------------------------

  function FoundSoFar(scan: Scan): seq<Found> {
    if scan.NotStarted? then [] else scan.found
  }

  /** The record stood under some name in that machine's directory at some moment since `b`. */
  ghost predicate WasThere(ws: seq<World>, b: nat, k: nat, name: string, r: Record)
    requires k < |ws|
  {
    exists i, n :: b <= i <= k && name in ws[i].locks && ReadRecord(ws[i].locks[name].machine, n) == Some(r)
  }

  ghost predicate FoundOk(ws: seq<World>, b: nat, k: nat, f: Found)
    requires b <= k < |ws|
  {
    && f.holder.pid !in ws[b].dead && f.holder.reserve.Some? && !f.holder.released
    && ws[b].except != Some(f.name)
    && WasThere(ws, b, k, f.name, f.holder)
  }

  ghost predicate ReportsOk(ws: seq<World>, b: nat, k: nat)
    requires b <= k < |ws|
  {
    var scan := ws[k].scan;
    && (forall f :: f in FoundSoFar(scan) ==> FoundOk(ws, b, k, f))
    && (scan.AtList? || scan.AtRecord? || scan.AtPid? ==> scan.todo != [] && ws[b].except != Some(scan.todo[0]))
    && (scan.AtPid? ==> !scan.record.released && WasThere(ws, b, k, scan.todo[0], scan.record))
  }

  lemma WasThereStays(ws: seq<World>, b: nat, k: nat, name: string, r: Record)
    requires k + 1 < |ws| && WasThere(ws, b, k, name, r)
    ensures WasThere(ws, b, k + 1, name, r)
  {
    var i, n :| b <= i <= k && name in ws[i].locks && ReadRecord(ws[i].locks[name].machine, n) == Some(r);
    assert b <= i <= k + 1;
  }

  lemma ReportsStayOk(ws: seq<World>, vs: seq<Move>, b: nat, k: nat)
    requires WorldRun(ws, vs) && b <= k && k + 1 < |ws|
    requires WorldInv(ws[k]) && ws[b].dead <= ws[k].dead && ws[b].except == ws[k].except
    requires ReportsOk(ws, b, k)
    ensures ReportsOk(ws, b, k + 1)
  {
    var w, w' := ws[k], ws[k + 1];
    assert WorldNext(w, vs[k], w');
    forall f | f in FoundSoFar(w.scan)
      ensures FoundOk(ws, b, k + 1, f)
    {
      WasThereStays(ws, b, k, f.name, f.holder);
    }
    if w.scan.AtPid? {
      WasThereStays(ws, b, k, w.scan.todo[0], w.scan.record);
    }
    if w'.scan.AtPid? && !w.scan.AtPid? {
      assert ReadRecord(w.locks[w.scan.todo[0]].machine, Name(w.scan.id, w.scan.gen)) == Some(w'.scan.record);
      assert WasThere(ws, b, k, w.scan.todo[0], w'.scan.record);
      WasThereStays(ws, b, k, w.scan.todo[0], w'.scan.record);
    }
    forall f | f in FoundSoFar(w'.scan)
      ensures FoundOk(ws, b, k + 1, f)
    {
      if f !in FoundSoFar(w.scan) {
        assert w.scan.AtPid? && f == Found(w.scan.todo[0], w.scan.record);
      }
    }
  }

  lemma {:induction false} ReportsOkThroughout(ws: seq<World>, vs: seq<Move>, b: nat, k: nat)
    requires WorldRun(ws, vs) && b <= k < |ws| && ws[b].scan.NotStarted?
    ensures ReportsOk(ws, b, k) && ws[b].dead <= ws[k].dead
    decreases k
  {
    WorldRunKeepsInv(ws, vs, b);
    if b < k {
      ReportsOkThroughout(ws, vs, b, k - 1);
      WorldRunKeepsInv(ws, vs, k - 1);
      ReportsStayOk(ws, vs, b, k - 1);
      assert WorldNext(ws[k - 1], vs[k - 1], ws[k]);
      WorldStepKeepsInv(ws[k - 1], vs[k - 1], ws[k]);
    }
  }

  /** Every reservation in the result was read, during the scan, from an unreleased record in
      that machine's directory, and none is of a process that was dead when the scan began. */
  lemma NoReservationOfTheDead(ws: seq<World>, vs: seq<Move>, b: nat, e: nat, f: Found)
    requires WorldRun(ws, vs) && b <= e < |ws|
    requires ws[b].scan.NotStarted? && ws[e].scan.Finished? && f in ws[e].scan.found
    ensures f.holder.pid !in ws[b].dead
    ensures f.holder.reserve.Some? && !f.holder.released && ws[b].except != Some(f.name)
    ensures WasThere(ws, b, e, f.name, f.holder)
  {
    ReportsOkThroughout(ws, vs, b, e);
    assert f in FoundSoFar(ws[e].scan);
  }
}
