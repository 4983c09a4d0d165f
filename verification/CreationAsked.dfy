/**
 * A base that is asked for: exactly when it is accepted, and which machines it can overlap.
 */
module CreationAsked {
  import opened Prelude
  import opened LockModel
  import opened LockInvariant
  import LockSteps
  import opened LockScan
  import Ports = PortBlocks
  import opened CreationModel
  import opened CreationSteps

  /** From its first read on, creation `c` lives and is choosing. */
  ghost predicate ChoosesFrom(ws: seq<Site>, vs: seq<Event>, c: Contender, e: nat, i: nat) {
    && e < i < |ws| && SiteRun(ws, vs) && vs[e].Enter? && vs[e].c == c
    && forall k :: e < k <= i ==> Working(ws[k], c) && Critical(ws[k].jobs[c].phase)
  }

  /** Creation `c` reads the machine.json of `n`, or finds that there is none. */
  predicate LooksAt(w: Site, v: Event, c: Contender, n: string) {
    v == Read(c) && c in w.jobs && w.jobs[c].phase.Reading? && w.jobs[c].phase.todo != [] && w.jobs[c].phase.todo[0] == n
  }

  /** What it reads there: the base of a machine of another name. */
  predicate Reads(w: Site, v: Event, c: Contender, n: string, base: nat) {
    LooksAt(w, v, c, n) && n in w.json && n != w.jobs[c].name && w.json[n].base == base
  }

  ghost predicate HasRead(ws: seq<Site>, vs: seq<Event>, c: Contender, e: nat, i: nat, n: string, base: nat)
    requires i <= |vs| && i <= |ws|
  {
    exists k :: e < k < i && Reads(ws[k], vs[k], c, n, base)
  }

  /** Machine `n`, not saved yet, is saved. */
  predicate SavesNew(w: Site, v: Event, n: string) {
    v.Save? && v.c in w.jobs && w.jobs[v.c].name == n && n !in w.json
  }

  /** Machine `n` was saved when creation `c` had already looked at it, if it was to look at all. */
  ghost predicate SavedLate(ws: seq<Site>, vs: seq<Event>, c: Contender, e: nat, i: nat, n: string)
    requires i <= |vs| && i <= |ws|
  {
    exists m :: e < m < i && SavesNew(ws[m], vs[m], n) && forall k :: m < k < i ==> !LooksAt(ws[k], vs[k], c, n)
  }

  // ---- What one step does ------------------------------------------------------------------------

  predicate Gathering(phase: Phase) {
    phase.Reading? || phase.Scanning? || phase.Counting?
  }

  /** A step of the creation itself. */
  predicate Own(v: Event, c: Contender) {
    !v.AllocMove? && !v.MachineMove? && !v.Dies? && v.c == c
  }

  /** Nobody else moves it, apart from the machines that it remembers. */
  lemma OthersMove(w: Site, v: Event, w': Site, c: Contender)
    requires SiteNext(w, v, w') && c in w.jobs && !Own(v, c)
    ensures c in w'.jobs && w'.jobs[c] == w.jobs[c].(since := w'.jobs[c].since)
  {
    hide Next, ScanStep, ScanOk, TooEarly, MayPick, MayAssign;
  }

  /** Its name and its wish stay, and it never goes back. */
  lemma JobStays(w: Site, v: Event, w': Site, c: Contender)
    requires SiteNext(w, v, w') && Working(w, c) && Critical(w.jobs[c].phase) && c in w'.jobs
    ensures w'.jobs[c].name == w.jobs[c].name && w'.jobs[c].asked == w.jobs[c].asked
    ensures Gathering(w'.jobs[c].phase) ==> Gathering(w.jobs[c].phase)
    ensures w'.jobs[c].phase.Reading? ==> w.jobs[c].phase.Reading?
  {
    if !Own(v, c) {
      OthersMove(w, v, w', c);
      hide SiteNext;
    }
    hide Next, ScanStep, ScanOk, MayPick, MayAssign, AllocStep, MachineStep, DieStep;
  }

  /** What it has seen grows by what it reads, and by nothing else. */
  lemma SeenGrows(w: Site, v: Event, w': Site, c: Contender)
    requires SiteNext(w, v, w') && Working(w, c) && Gathering(w.jobs[c].phase) && c in w'.jobs && Gathering(w'.jobs[c].phase)
    ensures forall base :: base in w'.jobs[c].phase.seen <==>
              base in w.jobs[c].phase.seen || exists n :: Reads(w, v, c, n, base)
  {
    hide Next, ScanStep, ScanOk, MayPick, MayAssign, AllocStep, MachineStep, DieStep;
    if !Own(v, c) {
      OthersMove(w, v, w', c);
      hide SiteNext;
    } else if v.Read? && w.jobs[c].phase.todo != [] {
      ReadingSees(w, w', c);
      hide Reads;
    } else {
      assert w'.jobs[c].phase.seen == w.jobs[c].phase.seen;
      assert forall n :: !LooksAt(w, v, c, n);
    }
  }

  lemma ReadingSees(w: Site, w': Site, c: Contender)
    requires ReadStep(w, Read(c), w') && w.jobs[c].phase.todo != []
    ensures var (phase, phase', n) := (w.jobs[c].phase, w'.jobs[c].phase, w.jobs[c].phase.todo[0]);
            && phase'.Reading? && phase'.todo == phase.todo[1..]
            && forall base :: base in phase'.seen <==> base in phase.seen || Reads(w, Read(c), c, n, base)
    ensures forall n, base :: Reads(w, Read(c), c, n, base) ==> n == w.jobs[c].phase.todo[0]
  {
  }

  /** While it reads, what is still to read shrinks by what it looks at. */
  lemma ToReadShrinks(w: Site, v: Event, w': Site, c: Contender, n: string)
    requires SiteNext(w, v, w') && Working(w, c) && w.jobs[c].phase.Reading? && c in w'.jobs && Critical(w'.jobs[c].phase)
    requires n in w.jobs[c].phase.todo
    ensures LooksAt(w, v, c, n) || (w'.jobs[c].phase.Reading? && n in w'.jobs[c].phase.todo)
  {
    hide Next, ScanStep, ScanOk, AvoidsAll, AllocStep, MachineStep, DieStep;
    if !Own(v, c) {
      OthersMove(w, v, w', c);
      hide SiteNext;
    } else {
      ReadingSees(w, w', c);
      assert n == w.jobs[c].phase.todo[0] || n in w.jobs[c].phase.todo[1..];
    }
  }

  /** A machine that stays saved keeps its block, and one that was not is saved by its creation. */
  lemma JsonStep(w: Site, v: Event, w': Site, n: string)
    requires SiteInv(w) && SiteNext(w, v, w') && n in w'.json
    ensures n in w.json ==> w'.json[n] == w.json[n]
    ensures n !in w.json ==> SavesNew(w, v, n)
  {
    hide LocksOk, JobsOk, ChoiceOk, Apart, InDirectories, Standing, Next, ScanStep, ScanOk, TooEarly, MayPick, MayAssign;
    if v.Save? {
      assert JobStep(w, v, w');
      SaverFlies(w, v.c, w');
      hide SiteNext, JobStep;
    } else {
      hide SavedByOwner;
    }
  }

  lemma MachineFewerFly(w: Site, n: string, l: Label, w': Site)
    requires JobsOk(w) && MachineStep(w, n, l, w')
    ensures FewerFly(w, w')
  {
    hide LockStep, JobsOk, Standing;
    if l.Remove? {
      WithoutFewer(w, n);
      WithoutJobsOk(w, n);
      StepFewerFly(Without(w, n), n, l, w');
    } else {
      StepFewerFly(w, n, l, w');
    }
  }

  /** Only the last look at machine.json lets a creation take off. */
  lemma TakesOffOnly(w: Site, v: Event, w': Site)
    requires SiteInv(w) && SiteNext(w, v, w') && !v.CheckSaved?
    ensures FewerFly(w, w')
  {
    hide Next, ScanStep, ScanOk, MayPick, MayAssign, ChoiceOk, Apart, SavedByOwner, InDirectories, LocksOk, JobsOk, Standing;
    hide LockStep;
    if v.MachineMove? {
      hide FewerFly;
      MachineFewerFly(w, v.name, v.step, w');
    } else if v.Dies? {
      DieFewerFly(w, v.pid, w');
    } else if v.Try? {
      var n := w.jobs[v.c].name;
      var mid := w.(locks := w.locks[n := w'.locks[n]]);
      TrySplits(w, v.c, v.locker, v.texts, w', mid);
      StepFewerFly(w, n, Begin(v.locker, Some(Reservation(w.jobs[v.c].phase.base, v.texts))), mid);
    }
  }

  lemma LastLook(w: Site, b: Contender, w': Site)
    requires SiteNext(w, CheckSaved(b), w')
    ensures Working(w, b) && Critical(w.jobs[b].phase) && b in w'.jobs && !Critical(w'.jobs[b].phase)
  {
    hide Next, ScanStep, ScanOk, MayPick, MayAssign;
  }

  /** While a creation is choosing, no creation takes its last look. */
  lemma NobodyTakesOff(w: Site, v: Event, w': Site, c: Contender)
    requires LocksOk(w) && JobsOk(w) && SiteNext(w, v, w') && Working(w, c) && Critical(w.jobs[c].phase)
    requires c in w'.jobs && Critical(w'.jobs[c].phase)
    ensures !v.CheckSaved?
  {
    hide SiteNext, LocksOk, LockerOk, ScanOk;
    if v.CheckSaved? {
      LastLook(w, v.c, w');
      assert JobOk(w, c);
      hide JobsOk;
      if v.c != c {
        OnlyOneChooses(w, c, v.c);
      }
    }
  }

  /** The lock that removes a machine in flight is its creation's own. */
  lemma RemoverStandsNot(s: State, b: Contender, s': State, d: Contender)
    requires Inv(s) && Next(s, Remove(b), s')
    ensures !Standing(s', d)
  {
    if Standing(s', d) {
      assert Standing(s, b) && Standing(s, d);
      LockSteps.Exclusive(s, b, d);
    }
  }

  /** So what is in flight and not saved was so before. */
  lemma FlyingBefore(w: Site, v: Event, w': Site, c: Contender, d: Contender)
    requires SiteInv(w) && SiteNext(w, v, w') && Working(w, c) && Critical(w.jobs[c].phase)
    requires c in w'.jobs && Critical(w'.jobs[c].phase) && Flying(w', d) && w'.jobs[d].name !in w'.json
    ensures Flying(w, d) && w.jobs[d].name == w'.jobs[d].name && w.jobs[d].name !in w.json
  {
    hide LocksOk, JobsOk, ChoiceOk, Apart, SavedByOwner, InDirectories, Standing;
    NobodyTakesOff(w, v, w', c);
    TakesOffOnly(w, v, w');
    if w.jobs[d].name in w.json {
      GoesByRemoval(w, v, w', w.jobs[d].name);
      MachineInv(w, w.jobs[d].name);
      hide SiteNext;
      RemoverStandsNot(w.locks[w.jobs[d].name], v.step.c, w'.locks[w.jobs[d].name], w.jobs[d].phase.locker);
    }
  }

  lemma MachineInv(w: Site, n: string)
    requires LocksOk(w) && n in w.locks
    ensures Inv(w.locks[n])
  {
    hide Inv, NoneRemoved;
    assert LockOk(w.locks[n], w.dead);
  }

  /** What is no longer saved was removed by a holder of its lock. */
  lemma GoesByRemoval(w: Site, v: Event, w': Site, n: string)
    requires SiteNext(w, v, w') && n in w.json && n !in w'.json
    ensures v.MachineMove? && v.name == n && v.step.Remove? && n in w.locks && n in w'.locks
    ensures Next(w.locks[n], v.step, w'.locks[n])
  {
    hide Next, ScanStep, ScanOk, MayPick, MayAssign;
  }

  // ---- What holds along the run ------------------------------------------------------------------

  /** The last step before moment `i`. */
  lemma LastStep(ws: seq<Site>, vs: seq<Event>, c: Contender, e: nat, i: nat)
    requires ChoosesFrom(ws, vs, c, e, i) && e + 1 < i
    ensures i < |ws| && i <= |vs| && ChoosesFrom(ws, vs, c, e, i - 1)
    ensures SiteInv(ws[i - 1]) && SiteNext(ws[i - 1], vs[i - 1], ws[i])
    ensures Working(ws[i - 1], c) && Critical(ws[i - 1].jobs[c].phase) && Working(ws[i], c) && Critical(ws[i].jobs[c].phase)
  {
    hide SiteInv, SiteNext, SiteInit, Critical;
    SiteRunKeepsInv(ws, vs, i - 1);
  }

  lemma NowChooses(ws: seq<Site>, vs: seq<Event>, c: Contender, e: nat, i: nat)
    requires ChoosesFrom(ws, vs, c, e, i)
    ensures e < i < |ws| && i <= |vs| && SiteInv(ws[i]) && Working(ws[i], c) && Critical(ws[i].jobs[c].phase)
  {
    hide SiteInv, SiteNext, SiteInit, Critical;
    SiteRunKeepsInv(ws, vs, i);
  }

  /** A name that is in flight and not saved has not been saved since the creation began to read. */
  lemma {:induction false} NeverSavedBefore(ws: seq<Site>, vs: seq<Event>, c: Contender, e: nat, i: nat, d: Contender, k: nat)
    requires ChoosesFrom(ws, vs, c, e, i) && e < k <= i && Flying(ws[i], d) && ws[i].jobs[d].name !in ws[i].json
    ensures ws[i].jobs[d].name !in ws[k].json
    decreases i
  {
    hide ChoosesFrom, SiteInv, SiteNext, Critical, Standing;
    if k < i {
      LastStep(ws, vs, c, e, i);
      FlyingBefore(ws[i - 1], vs[i - 1], ws[i], c, d);
      NeverSavedBefore(ws, vs, c, e, i - 1, d, k);
    }
  }

  lemma SaverIsFlying(w: Site, v: Event, w': Site, n: string)
    requires SiteInv(w) && SiteNext(w, v, w') && SavesNew(w, v, n)
    ensures Flying(w, v.c) && w.jobs[v.c].name == n
  {
    hide SiteInv, Flying;
    assert JobStep(w, v, w');
    SaverFlies(w, v.c, w');
  }

  /** A machine that is saved for the first time was not saved when the creation looked. */
  lemma NewWasNotThere(ws: seq<Site>, vs: seq<Event>, c: Contender, e: nat, m: nat, n: string, k: nat)
    requires ChoosesFrom(ws, vs, c, e, m + 1) && e < k <= m && SavesNew(ws[m], vs[m], n)
    ensures n !in ws[k].json
  {
    hide ChoosesFrom, SiteInv, SiteNext, Critical, Standing;
    LastStep(ws, vs, c, e, m + 1);
    SaverIsFlying(ws[m], vs[m], ws[m + 1], n);
    NeverSavedBefore(ws, vs, c, e, m, vs[m].c, k);
  }

  /** What was saved at one moment and is saved later is the same. */
  lemma {:induction false} SavedStays(ws: seq<Site>, vs: seq<Event>, c: Contender, e: nat, k: nat, i: nat, n: string)
    requires ChoosesFrom(ws, vs, c, e, i) && e < k <= i && n in ws[k].json && n in ws[i].json
    ensures ws[i].json[n] == ws[k].json[n]
    decreases i
  {
    hide ChoosesFrom, SiteInv, SiteNext, Critical, SavesNew;
    if k < i {
      LastStep(ws, vs, c, e, i);
      JsonStep(ws[i - 1], vs[i - 1], ws[i], n);
      if n in ws[i - 1].json {
        SavedStays(ws, vs, c, e, k, i - 1, n);
      } else {
        NewWasNotThere(ws, vs, c, e, i - 1, n, k);
      }
    }
  }

  lemma NothingReadYet(ws: seq<Site>, vs: seq<Event>, c: Contender, e: nat)
    requires ChoosesFrom(ws, vs, c, e, e + 1)
    ensures e + 1 < |ws| && vs[e].Enter? && ws[e + 1].jobs[c].phase == Reading(vs[e].listing, {}) && c in ws[e].jobs
    ensures ListsDirectories(ws[e], vs[e].listing) && ws[e + 1].json == ws[e].json && SiteInv(ws[e])
  {
    SiteRunKeepsInv(ws, vs, e);
    assert SiteNext(ws[e], vs[e], ws[e + 1]);
    hide SiteInv, SiteInit, Critical, Next, ScanStep, ScanOk;
  }

  lemma OneMoreRead(ws: seq<Site>, vs: seq<Event>, c: Contender, e: nat, i: nat, n: string, base: nat)
    requires e + 1 < i <= |vs| && i < |ws|
    ensures HasRead(ws, vs, c, e, i, n, base) <==> HasRead(ws, vs, c, e, i - 1, n, base) || Reads(ws[i - 1], vs[i - 1], c, n, base)
  {
    hide Reads;
  }

  /** What the creation has seen is what it has read. */
  lemma {:induction false} SeenIsRead(ws: seq<Site>, vs: seq<Event>, c: Contender, e: nat, i: nat, base: nat)
    requires ChoosesFrom(ws, vs, c, e, i) && Gathering(ws[i].jobs[c].phase)
    ensures base in ws[i].jobs[c].phase.seen <==> exists n :: HasRead(ws, vs, c, e, i, n, base)
    decreases i
  {
    hide ChoosesFrom, SiteInv, SiteNext, Critical;
    NowChooses(ws, vs, c, e, i);
    if i == e + 1 {
      NothingReadYet(ws, vs, c, e);
    } else {
      LastStep(ws, vs, c, e, i);
      JobStays(ws[i - 1], vs[i - 1], ws[i], c);
      SeenGrows(ws[i - 1], vs[i - 1], ws[i], c);
      SeenIsRead(ws, vs, c, e, i - 1, base);
      hide Reads, HasRead;
      var j, w, v := i - 1, ws[i - 1], vs[i - 1];
      if n :| HasRead(ws, vs, c, e, i, n, base) {
        OneMoreRead(ws, vs, c, e, i, n, base);
      }
      if n :| HasRead(ws, vs, c, e, j, n, base) {
        OneMoreRead(ws, vs, c, e, i, n, base);
      } else if n :| Reads(w, v, c, n, base) {
        OneMoreRead(ws, vs, c, e, i, n, base);
      }
    }
  }

  /** A machine that is saved is still to be read, or was read, or was saved too late for that. */
  ghost predicate Accounted(ws: seq<Site>, vs: seq<Event>, c: Contender, e: nat, i: nat, n: string)
    requires i <= |vs| && i < |ws| && c in ws[i].jobs && n in ws[i].json
  {
    || (ws[i].jobs[c].phase.Reading? && n in ws[i].jobs[c].phase.todo)
    || (exists k :: e < k < i && LooksAt(ws[k], vs[k], c, n) && n in ws[k].json)
    || SavedLate(ws, vs, c, e, i, n)
  }

  lemma OneMoreAccounted(ws: seq<Site>, vs: seq<Event>, c: Contender, e: nat, i: nat, n: string)
    requires e + 1 < i <= |vs| && i < |ws| && SiteNext(ws[i - 1], vs[i - 1], ws[i])
    requires Working(ws[i - 1], c) && c in ws[i].jobs && Critical(ws[i].jobs[c].phase)
    requires n in ws[i - 1].json && n in ws[i].json && Accounted(ws, vs, c, e, i - 1, n)
    ensures Accounted(ws, vs, c, e, i, n)
  {
    hide SiteNext, Critical, LooksAt;
    if LooksAt(ws[i - 1], vs[i - 1], c, n) {
    } else if ws[i - 1].jobs[c].phase.Reading? && n in ws[i - 1].jobs[c].phase.todo {
      ToReadShrinks(ws[i - 1], vs[i - 1], ws[i], c, n);
    }
  }

  lemma SavedIsAccounted(ws: seq<Site>, vs: seq<Event>, c: Contender, e: nat, i: nat, n: string)
    requires ChoosesFrom(ws, vs, c, e, i) && c in ws[i].jobs && n in ws[i].json
    ensures Accounted(ws, vs, c, e, i, n)
    decreases i
  {
    hide ChoosesFrom, SiteInv, SiteNext, Critical, SavesNew, LooksAt;
    NowChooses(ws, vs, c, e, i);
    if i == e + 1 {
      NothingReadYet(ws, vs, c, e);
      AllListed(ws[e], vs[e].listing, n);
    } else {
      LastStep(ws, vs, c, e, i);
      JsonStep(ws[i - 1], vs[i - 1], ws[i], n);
      if n in ws[i - 1].json {
        SavedIsAccounted(ws, vs, c, e, i - 1, n);
        hide Accounted;
        OneMoreAccounted(ws, vs, c, e, i, n);
      } else {
        assert SavesNew(ws[i - 1], vs[i - 1], n);
      }
    }
  }

  lemma AllListed(w: Site, listing: seq<string>, n: string)
    requires SiteInv(w) && ListsDirectories(w, listing) && n in w.json
    ensures n in listing
  {
    hide LocksOk, JobsOk, ChoiceOk, Apart, SavedByOwner;
  }

  /** A saved machine was read by the creation exactly when it was not saved too late for that. */
  lemma ReadUnlessLate(ws: seq<Site>, vs: seq<Event>, c: Contender, e: nat, i: nat, n: string)
    requires ChoosesFrom(ws, vs, c, e, i) && !ws[i].jobs[c].phase.Reading?
    requires n in ws[i].json && n != ws[i].jobs[c].name
    ensures HasRead(ws, vs, c, e, i, n, ws[i].json[n].base) <==> !SavedLate(ws, vs, c, e, i, n)
  {
    hide ChoosesFrom, SiteInv, Critical, SavesNew;
    NowChooses(ws, vs, c, e, i);
    SavedIsAccounted(ws, vs, c, e, i, n);
    if !SavedLate(ws, vs, c, e, i, n) {
      var k :| e < k < i && LooksAt(ws[k], vs[k], c, n) && n in ws[k].json;
      ChoseThen(ws, vs, c, e, k, i);
      SavedStays(ws, vs, c, e, k, i, n);
      assert Reads(ws[k], vs[k], c, n, ws[i].json[n].base);
    } else {
      var m :| e < m < i && SavesNew(ws[m], vs[m], n) && forall k :: m < k < i ==> !LooksAt(ws[k], vs[k], c, n);
      ChoseThen(ws, vs, c, e, m + 1, i);
      forall k | e < k < i
        ensures !Reads(ws[k], vs[k], c, n, ws[i].json[n].base)
      {
        if k <= m {
          NewWasNotThere(ws, vs, c, e, m, n, k);
        }
      }
    }
  }

  /** Earlier it was choosing too, under the same name. */
  lemma {:induction false} ChoseThen(ws: seq<Site>, vs: seq<Event>, c: Contender, e: nat, k: nat, i: nat)
    requires ChoosesFrom(ws, vs, c, e, i) && e < k <= i
    ensures ChoosesFrom(ws, vs, c, e, k) && i < |ws|
    ensures c in ws[k].jobs && c in ws[i].jobs && ws[k].jobs[c].name == ws[i].jobs[c].name && ws[k].jobs[c].asked == ws[i].jobs[c].asked
    decreases i
  {
    hide ChoosesFrom, SiteInv, SiteNext, Critical;
    NowChooses(ws, vs, c, e, i);
    if k < i {
      LastStep(ws, vs, c, e, i);
      JobStays(ws[i - 1], vs[i - 1], ws[i], c);
      ChoseThen(ws, vs, c, e, k, i - 1);
    }
  }

  // ---- Exactly when the base is accepted ----------------------------------------------------------

  /** The creation was asked for a base, and has made all its reads. */
  ghost predicate ReadyToPick(ws: seq<Site>, vs: seq<Event>, c: Contender, e: nat, i: nat, base: nat) {
    && ChoosesFrom(ws, vs, c, e, i)
    && ws[i].jobs[c].asked == Some(base) && ws[i].jobs[c].phase.Counting? && ws[i].jobs[c].phase.left == []
  }

  predicate NoneFound(found: seq<Found>, base: nat) {
    forall f :: f in found && f.holder.reserve.Some? ==> !Ports.Overlap(base, f.holder.reserve.value.portBase)
  }

  lemma AvoidsReserved(found: seq<Found>, base: nat)
    ensures AvoidsAll(base, ReservedBases(found)) <==> NoneFound(found, base)
  {
    hide Ports.Overlap;
    if AvoidsAll(base, ReservedBases(found)) {
      forall f | f in found && f.holder.reserve.Some?
        ensures !Ports.Overlap(base, f.holder.reserve.value.portBase)
      {
        assert f.holder.reserve.value.portBase in ReservedBases(found);
      }
    }
  }

  /** A base that was asked for is accepted exactly when it overlaps neither a base that the creation
      has read nor one in a reservation that its scan has found. */
  lemma AskedBaseAccepted(ws: seq<Site>, vs: seq<Event>, c: Contender, e: nat, i: nat, base: nat)
    requires ReadyToPick(ws, vs, c, e, i, base)
    ensures MayPick(ws[i].jobs[c], base) <==>
              && (forall n, b: nat :: HasRead(ws, vs, c, e, i, n, b) ==> !Ports.Overlap(base, b))
              && NoneFound(ws[i].jobs[c].phase.found, base)
  {
    var phase := ws[i].jobs[c].phase;
    hide ChoosesFrom, HasRead, Ports.Overlap, NoneFound, ReservedBases;
    AvoidsReserved(phase.found, base);
    forall b: nat
      ensures b in phase.seen <==> exists n :: HasRead(ws, vs, c, e, i, n, b)
    {
      SeenIsRead(ws, vs, c, e, i, b);
    }
  }

  /** It is accepted exactly when every saved machine that it overlaps was saved too late to be read,
      none that it overlaps was read and has been removed since, and none was found by the scan. */
  lemma AskedBaseOverlapsExactly(ws: seq<Site>, vs: seq<Event>, c: Contender, e: nat, i: nat, base: nat)
    requires ReadyToPick(ws, vs, c, e, i, base)
    ensures MayPick(ws[i].jobs[c], base) <==>
              && (forall n :: n in ws[i].json && n != ws[i].jobs[c].name && Ports.Overlap(base, ws[i].json[n].base) ==>
                                SavedLate(ws, vs, c, e, i, n))
              && (forall n, b: nat :: HasRead(ws, vs, c, e, i, n, b) && Ports.Overlap(base, b) ==> n in ws[i].json)
              && NoneFound(ws[i].jobs[c].phase.found, base)
  {
    hide ChoosesFrom, HasRead, SavedLate, Ports.Overlap, NoneFound, MayPick, SiteInv, Critical;
    NowChooses(ws, vs, c, e, i);
    AskedBaseAccepted(ws, vs, c, e, i, base);
    forall n | n in ws[i].json && n != ws[i].jobs[c].name
      ensures HasRead(ws, vs, c, e, i, n, ws[i].json[n].base) <==> !SavedLate(ws, vs, c, e, i, n)
    {
      ReadUnlessLate(ws, vs, c, e, i, n);
    }
    forall n, b: nat | HasRead(ws, vs, c, e, i, n, b) && n in ws[i].json
      ensures ws[i].json[n].base == b && n != ws[i].jobs[c].name
    {
      StillAsRead(ws, vs, c, e, i, n, b);
    }
  }

  lemma StillAsRead(ws: seq<Site>, vs: seq<Event>, c: Contender, e: nat, i: nat, n: string, b: nat)
    requires ChoosesFrom(ws, vs, c, e, i) && HasRead(ws, vs, c, e, i, n, b) && n in ws[i].json
    ensures ws[i].json[n].base == b && n != ws[i].jobs[c].name
  {
    hide ChoosesFrom, SiteInv, Critical;
    NowChooses(ws, vs, c, e, i);
    var k :| e < k < i && Reads(ws[k], vs[k], c, n, b);
    ChoseThen(ws, vs, c, e, k, i);
    SavedStays(ws, vs, c, e, k, i, n);
  }

  // ---- From then on ------------------------------------------------------------------------------

  /** Machine `n` is saved while creation `c` is still reading or scanning. */
  predicate SavedInBetween(w: Site, v: Event, c: Contender, n: string) {
    && v.Save? && v.c in w.jobs && w.jobs[v.c].name == n
    && c in w.jobs && (w.jobs[c].phase.Reading? || w.jobs[c].phase.Scanning?)
  }

  lemma SinceStep(w: Site, v: Event, w': Site, c: Contender, n: string)
    requires SiteNext(w, v, w') && Working(w, c) && Critical(w.jobs[c].phase)
    requires c in w'.jobs && n in w'.json && (n in w.json ==> n in w.jobs[c].since)
    ensures n in w'.jobs[c].since || SavedInBetween(w, v, c, n)
  {
    hide Next, ScanStep, ScanOk, TooEarly, MayPick, MayAssign;
  }

  lemma SinceStart(ws: seq<Site>, vs: seq<Event>, c: Contender, e: nat)
    requires ChoosesFrom(ws, vs, c, e, e + 1)
    ensures e + 1 < |ws| && ws[e + 1].jobs[c].since == ws[e + 1].json.Keys
  {
    hide SiteInit, Critical, Next, ScanStep, ScanOk;
    assert SiteNext(ws[e], vs[e], ws[e + 1]);
  }

  lemma {:induction false} SinceFollows(ws: seq<Site>, vs: seq<Event>, c: Contender, e: nat, i: nat, n: string)
    requires ChoosesFrom(ws, vs, c, e, i) && n in ws[i].json
    ensures n in ws[i].jobs[c].since || exists k :: e < k < i && SavedInBetween(ws[k], vs[k], c, n)
    decreases i
  {
    hide ChoosesFrom, SiteInv, SiteNext, Critical, SavedInBetween;
    NowChooses(ws, vs, c, e, i);
    if i == e + 1 {
      SinceStart(ws, vs, c, e);
    } else {
      LastStep(ws, vs, c, e, i);
      if n in ws[i - 1].json {
        SinceFollows(ws, vs, c, e, i - 1, n);
      }
      if !(exists k :: e < k < i - 1 && SavedInBetween(ws[k], vs[k], c, n)) {
        SinceStep(ws[i - 1], vs[i - 1], ws[i], c, n);
      }
    }
  }

  /** Until it takes off, the base overlaps no creation in flight, and no saved machine but one that
      was saved between the first read of the creation and the end of its scan. */
  lemma AskedBaseOverlapsOnly(ws: seq<Site>, vs: seq<Event>, c: Contender, e: nat, i: nat)
    requires ChoosesFrom(ws, vs, c, e, i) && Chosen(ws[i].jobs[c].phase)
    ensures forall b :: Flying(ws[i], b) && ws[i].jobs[b].name != ws[i].jobs[c].name ==>
              !Ports.Overlap(ws[i].jobs[c].phase.base, ws[i].jobs[b].phase.base)
    ensures forall n :: n in ws[i].json && n != ws[i].jobs[c].name
                        && Ports.Overlap(ws[i].jobs[c].phase.base, ws[i].json[n].base) ==>
              ws[i].jobs[c].asked.Some? && exists k :: e < k < i && SavedInBetween(ws[k], vs[k], c, n)
  {
    hide ChoosesFrom, Critical, Apart, SavedByOwner, InDirectories, LocksOk, JobsOk, KnowsAll, Standing, Ports.Overlap;
    hide SavedInBetween;
    NowChooses(ws, vs, c, e, i);
    var w := ws[i];
    assert KnowsAll(w, w.jobs[c]);
    forall b | Flying(w, b) && w.jobs[b].name != w.jobs[c].name
      ensures !Ports.Overlap(w.jobs[c].phase.base, w.jobs[b].phase.base)
    {
      OffDisjoint(w, c, b);
    }
    forall n | n in w.json && n != w.jobs[c].name && Ports.Overlap(w.jobs[c].phase.base, w.json[n].base)
      ensures w.jobs[c].asked.Some? && exists k :: e < k < i && SavedInBetween(ws[k], vs[k], c, n)
    {
      SinceFollows(ws, vs, c, e, i, n);
      OffDisjointSaved(w, c, n);
    }
  }
}
