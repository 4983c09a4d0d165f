/**
 * Every step of creations at the same time keeps the invariant: one live creation chooses at a
 * time, and while it does it knows of every block that is saved or in flight.
 */
module CreationSteps {
  import opened Prelude
  import opened LockModel
  import opened LockInvariant
  import LockSteps
  import opened LockScan
  import Ports = PortBlocks
  import opened CreationModel

  // ---- One lock, one step -------------------------------------------------------------------

  /** What a step leaves of a call: its reservation, its place in the critical section, its claim. */
  lemma LockKeeps(s: State, l: Label, s': State, b: Contender)
    requires Next(s, l, s') && b in s.procs
    ensures b in s'.procs
    ensures !PcOf(s, b).Idle? ==> !PcOf(s', b).Idle? && s'.procs[b].reserve == s.procs[b].reserve
    ensures PcOf(s, b).Held? && !((l.Release? || l.Remove?) && l.c == b) ==> PcOf(s', b) == PcOf(s, b)
    ensures PastHeld(PcOf(s, b)) ==> PastHeld(PcOf(s', b))
    ensures !(l.Remove? && l.c == b) && (HasClaim(PcOf(s, b)) ==> !PcOf(s, b).claim.removed) ==>
              (HasClaim(PcOf(s', b)) ==> !PcOf(s', b).claim.removed)
  {
    if (l.Begin? || l.Turn? || l.Release? || l.Remove?) && l.c == b {
      OwnStepKeeps(s, l, s', b);
    }
  }

  lemma OwnStepKeeps(s: State, l: Label, s': State, b: Contender)
    requires Next(s, l, s') && b in s.procs && (l.Begin? || l.Turn? || l.Release? || l.Remove?) && l.c == b
    ensures b in s'.procs
    ensures !PcOf(s, b).Idle? ==> !PcOf(s', b).Idle? && s'.procs[b].reserve == s.procs[b].reserve
    ensures PcOf(s, b).Held? && !l.Release? && !l.Remove? ==> PcOf(s', b) == PcOf(s, b)
    ensures PastHeld(PcOf(s, b)) ==> PastHeld(PcOf(s', b))
    ensures !l.Remove? && (HasClaim(PcOf(s, b)) ==> !PcOf(s, b).claim.removed) ==>
              (HasClaim(PcOf(s', b)) ==> !PcOf(s', b).claim.removed)
  {
  }

  /** A call that is past the critical section's door never stands again once it does not. */
  lemma StandsLess(s: State, l: Label, s': State, b: Contender)
    requires Next(s, l, s') && b in s.procs && PastHeld(PcOf(s, b)) && Standing(s', b)
    ensures Standing(s, b) && PcOf(s', b).claim == PcOf(s, b).claim
  {
  }

  lemma ReserveStays(s: State, l: Label, s': State)
    requires Next(s, l, s') && ReserveOk(s)
    ensures ReserveOk(s')
  {
    hide Next, HasClaim, PcOf;
    forall b | b in s'.procs
      ensures OwnReserve(s', b)
    {
      assert OwnReserve(s, b);
      OneReserveStays(s, l, s', b);
    }
  }

  lemma TurnReserve(s: State, b: Contender, draw: nat)
    requires b in s.procs && OwnReserve(s, b)
    ensures OwnReserve(Act(s, b, draw), b)
  {
    hide Generations, ReadRecord, CurrentId, TempGone, Unlink;
  }

  lemma OneReserveStays(s: State, l: Label, s': State, b: Contender)
    requires Next(s, l, s') && OwnReserve(s, b)
    ensures OwnReserve(s', b)
  {
    if l.Turn? && l.c == b {
      TurnReserve(s, b, l.draw);
    } else if l.Turn? {
      LockSteps.OthersStay(s, l.c, l.draw, b);
    }
  }

  lemma NoneRemovedStays(s: State, l: Label, s': State)
    requires Next(s, l, s') && NoneRemoved(s) && !l.Remove?
    ensures NoneRemoved(s')
  {
    forall b | b in s'.procs && HasClaim(PcOf(s', b))
      ensures !PcOf(s', b).claim.removed
    {
      OneNotRemoved(s, l, s', b);
    }
  }

  lemma OneNotRemoved(s: State, l: Label, s': State, b: Contender)
    requires Next(s, l, s') && NoneRemoved(s) && !l.Remove? && b in s'.procs && HasClaim(PcOf(s', b))
    ensures !PcOf(s', b).claim.removed
  {
    if b in s.procs {
      LockKeeps(s, l, s', b);
      assert HasClaim(PcOf(s, b)) ==> !PcOf(s, b).claim.removed;
    }
  }

  // ---- What stays true when less is in flight and saved ---------------------------------------

  ghost predicate FewerFly(w: Site, w': Site) {
    forall c :: Flying(w', c) ==>
      && Flying(w, c) && ClaimOf(w', c) == ClaimOf(w, c)
      && w'.jobs[c].name == w.jobs[c].name && BlockOf(w'.jobs[c]) == BlockOf(w.jobs[c])
  }

  predicate FewerSaved(json: map<string, Saved>, json': map<string, Saved>) {
    forall n :: n in json' ==> n in json && json'[n] == json[n]
  }

  lemma FewerApart(w: Site, w': Site)
    requires Apart(w) && SavedByOwner(w) && FewerFly(w, w') && FewerSaved(w.json, w'.json)
    ensures Apart(w') && SavedByOwner(w')
  {
    hide Disjoint, Flying;
  }

  lemma FewerKnown(w: Site, w': Site, phase: Phase, name: string)
    requires KnowsFlying(w, phase, name) && FewerFly(w, w')
    ensures KnowsFlying(w', phase, name)
  {
    hide Knows, ClaimOf, Standing;
    forall b | Flying(w', b) && w'.jobs[b].name != name
      ensures Knows(phase, w'.jobs[b].name, ClaimOf(w', b))
    {
      assert Flying(w, b);
    }
  }

  lemma FewerKnownSaved(json: map<string, Saved>, json': map<string, Saved>, job: Job, job': Job)
    requires KnowsJson(json, job) && FewerSaved(json, json')
    requires job'.since <= job.since && job' == job.(since := job'.since)
    ensures KnowsJson(json', job')
  {
    forall n | n in json' && n != job'.name
      ensures KnowsSaved(job', n, json'[n])
    {
      assert KnowsSaved(job, n, json[n]);
    }
  }

  /** Every creation is where it was, and may have forgotten removed machines. */
  predicate SameJobs(jobs: map<Contender, Job>, jobs': map<Contender, Job>) {
    jobs'.Keys == jobs.Keys
    && forall c :: c in jobs ==> jobs'[c].since <= jobs[c].since && jobs'[c] == jobs[c].(since := jobs'[c].since)
  }

  lemma FewerChoice(w: Site, w': Site)
    requires ChoiceOk(w) && FewerFly(w, w') && FewerSaved(w.json, w'.json) && SameJobs(w.jobs, w'.jobs) && w.dead <= w'.dead
    ensures ChoiceOk(w')
  {
    hide KnowsFlying, KnowsJson, FewerFly, FewerSaved;
    forall c | Working(w', c) && Critical(w'.jobs[c].phase)
      ensures KnowsAll(w', w'.jobs[c])
    {
      assert Working(w, c) && KnowsAll(w, w.jobs[c]);
      FewerKnown(w, w', w.jobs[c].phase, w.jobs[c].name);
      FewerKnownSaved(w.json, w'.json, w.jobs[c], w'.jobs[c]);
    }
  }

  /** What the steps of the locks have in common. */
  lemma FewerKeeps(w: Site, w': Site)
    requires SiteInv(w) && FewerFly(w, w') && FewerSaved(w.json, w'.json) && SameJobs(w.jobs, w'.jobs) && w.dead <= w'.dead
    requires LocksOk(w') && JobsOk(w') && InDirectories(w')
    ensures SiteInv(w')
  {
    hide LocksOk, JobsOk, InDirectories, FewerFly, FewerSaved, SameJobs, Apart, SavedByOwner, ChoiceOk;
    FewerApart(w, w');
    FewerChoice(w, w');
  }

  // ---- Steps of the allocation lock -----------------------------------------------------------

  lemma AllocJobOk(w: Site, l: Label, w': Site, c: Contender)
    requires AllocStep(w, l, w') && c in w.jobs && JobOk(w, c)
    ensures JobOk(w', c)
  {
    hide LockerOk, ScanOk;
    if Critical(w.jobs[c].phase) {
      assert c in w.alloc.procs;
      LockKeeps(w.alloc, l, w'.alloc, c);
    }
  }

  lemma AllocLocksOk(w: Site, l: Label, w': Site)
    requires LocksOk(w) && AllocStep(w, l, w')
    ensures LocksOk(w')
  {
    hide LockOk;
    LockSteps.StepKeepsInv(w.alloc, l, w'.alloc);
    NoneRemovedStays(w.alloc, l, w'.alloc);
    DeadStays(w.alloc, l, w'.alloc);
  }

  lemma DeadStays(s: State, l: Label, s': State)
    requires Next(s, l, s') && !l.Crash?
    ensures s'.dead == s.dead
  {
  }

  /** A step of the allocation lock. */
  lemma AllocKeeps(w: Site, l: Label, w': Site)
    requires SiteInv(w) && AllocStep(w, l, w')
    ensures SiteInv(w')
  {
    assert w'.locks == w.locks && w'.jobs == w.jobs && w'.json == w.json && w'.dead == w.dead;
    AllocLocksOk(w, l, w');
    hide AllocStep, LocksOk, Apart, ChoiceOk, SavedByOwner;
    assert JobsOk(w') by {
      hide JobOk;
      forall c | c in w.jobs
        ensures JobOk(w', c)
      {
        AllocJobOk(w, l, w', c);
      }
    }
    hide JobsOk;
    FewerKeeps(w, w');
  }

  // ---- Steps of a machine lock ----------------------------------------------------------------

  lemma StepLocksOk(w: Site, n: string, l: Label, w': Site)
    requires LocksOk(w) && LockStep(w, n, l, w')
    ensures LocksOk(w')
  {
    assert LockOk(w'.locks[n], w'.dead) by {
      assert LockOk(w.locks[n], w.dead);
      LockSteps.StepKeepsInv(w.locks[n], l, w'.locks[n]);
      ReserveStays(w.locks[n], l, w'.locks[n]);
      DeadStays(w.locks[n], l, w'.locks[n]);
    }
    hide LockOk, Inv, NoneRemoved, Next, TooEarly;
  }

  /** What a step of a machine lock leaves of the creations of that name. */
  lemma LockerStays(s: State, l: Label, s': State, phase: Phase)
    requires HasLocker(phase) && LockerOk(s, phase) && Next(s, l, s')
    requires phase.InFlight? || !((l.Release? || l.Remove?) && l.c == phase.locker)
    ensures LockerOk(s', phase)
  {
    LockKeeps(s, l, s', phase.locker);
  }

  lemma StepJobOk(w: Site, n: string, l: Label, w': Site, c: Contender)
    requires LockStep(w, n, l, w') && c in w.jobs && JobOk(w, c)
    ensures JobOk(w', c)
  {
    hide LockerOk, Next;
    if HasLocker(w.jobs[c].phase) && w.jobs[c].name == n {
      LockerStays(w.locks[n], l, w'.locks[n], w.jobs[c].phase);
    }
  }

  lemma StepFewerFly(w: Site, n: string, l: Label, w': Site)
    requires JobsOk(w) && LockStep(w, n, l, w')
    ensures FewerFly(w, w')
  {
    hide Next, StandingPc, TooEarly;
    forall c | Flying(w', c)
      ensures Flying(w, c) && ClaimOf(w', c) == ClaimOf(w, c)
    {
      assert JobOk(w, c);
      if w.jobs[c].name == n {
        StandsLess(w.locks[n], l, w'.locks[n], w.jobs[c].phase.locker);
      }
    }
  }

  lemma StepInDirectories(w: Site, n: string, l: Label, w': Site)
    requires InDirectories(w) && LockStep(w, n, l, w') && (l.Remove? ==> n !in w.json)
    ensures InDirectories(w')
  {
    if !l.Remove? {
      NeverAbsentAgain(w.locks[n], l, w'.locks[n]);
    }
  }

  /** Only a removal makes a directory go. */
  lemma NeverAbsentAgain(s: State, l: Label, s': State)
    requires Next(s, l, s') && !l.Remove?
    ensures s'.machine.Absent? ==> s.machine.Absent?
  {
  }

  lemma LockStepKeeps(w: Site, n: string, l: Label, w': Site)
    requires SiteInv(w) && LockStep(w, n, l, w') && (l.Remove? ==> n !in w.json)
    ensures SiteInv(w')
  {
    assert w'.jobs == w.jobs && w'.json == w.json && w'.dead == w.dead;
    StepInDirectories(w, n, l, w');
    hide InDirectories, LockStep, Apart, ChoiceOk, SavedByOwner;
    StepFewerFly(w, n, l, w');
    hide FewerFly;
    StepLocksOk(w, n, l, w');
    hide LocksOk;
    assert JobsOk(w') by {
      hide JobOk;
      forall c | c in w.jobs
        ensures JobOk(w', c)
      {
        StepJobOk(w, n, l, w', c);
      }
    }
    hide JobsOk;
    FewerKeeps(w, w');
  }

  lemma WithoutJobsOk(w: Site, n: string)
    requires JobsOk(w)
    ensures JobsOk(Without(w, n))
  {
    hide LockerOk, ScanOk, HoldsAlloc;
    var w' := Without(w, n);
    forall c | c in w'.jobs
      ensures JobOk(w', c)
    {
      assert JobOk(w, c);
    }
  }

  lemma WithoutFewer(w: Site, n: string)
    ensures var w' := Without(w, n);
            FewerFly(w, w') && FewerSaved(w.json, w'.json) && SameJobs(w.jobs, w'.jobs)
  {
    hide Standing;
  }

  lemma WithoutLocksOk(w: Site, n: string)
    requires LocksOk(w) && InDirectories(w)
    ensures LocksOk(Without(w, n)) && InDirectories(Without(w, n))
  {
    hide LockOk, Inv, NoneRemoved;
  }

  lemma WithoutKeeps(w: Site, n: string)
    requires SiteInv(w)
    ensures SiteInv(Without(w, n))
  {
    hide LocksOk, JobsOk, InDirectories, FewerFly, FewerSaved, SameJobs, Apart, ChoiceOk, SavedByOwner;
    WithoutLocksOk(w, n);
    WithoutFewer(w, n);
    WithoutJobsOk(w, n);
    FewerKeeps(w, Without(w, n));
  }

  /** A step of a machine lock, or the removal of a machine. */
  lemma MachineKeeps(w: Site, n: string, l: Label, w': Site)
    requires SiteInv(w) && MachineStep(w, n, l, w')
    ensures SiteInv(w')
  {
    hide SiteInv, LockStep;
    if l.Remove? {
      WithoutKeeps(w, n);
    }
    LockStepKeeps(if l.Remove? then Without(w, n) else w, n, l, w');
  }

  // ---- A process stops ------------------------------------------------------------------------

  lemma DieLocksOk(w: Site, pid: Pid, w': Site)
    requires LocksOk(w) && DieStep(w, pid, w')
    ensures LocksOk(w')
  {
    LockSteps.StepKeepsInv(w.alloc, Crash(pid), w'.alloc);
    assert NoneRemoved(w'.alloc);
    hide Inv, NoneRemoved;
    forall n | n in w'.locks
      ensures LockOk(w'.locks[n], w'.dead)
    {
      assert LockOk(w.locks[n], w.dead);
      LockSteps.StepKeepsInv(w.locks[n], Crash(pid), w'.locks[n]);
      ReserveStays(w.locks[n], Crash(pid), w'.locks[n]);
    }
  }

  lemma DieJobOk(w: Site, pid: Pid, w': Site, c: Contender)
    requires DieStep(w, pid, w') && c in w.jobs && JobOk(w, c)
    ensures JobOk(w', c)
  {
    var n := w.jobs[c].name;
    assert w'.locks[n].procs == w.locks[n].procs && w'.alloc.procs == w.alloc.procs;
    hide Next;
  }

  lemma DieFewerFly(w: Site, pid: Pid, w': Site)
    requires DieStep(w, pid, w')
    ensures FewerFly(w, w')
  {
    assert forall n :: n in w.locks ==> w'.locks[n] == w.locks[n].(dead := w.locks[n].dead + {pid});
    hide Next, StandingPc;
  }

  lemma DieKeeps(w: Site, pid: Pid, w': Site)
    requires SiteInv(w) && DieStep(w, pid, w')
    ensures SiteInv(w')
  {
    assert w'.jobs == w.jobs && w'.json == w.json && w.dead <= w'.dead;
    assert InDirectories(w');
    hide InDirectories, DieStep, Apart, ChoiceOk, SavedByOwner;
    DieLocksOk(w, pid, w');
    DieFewerFly(w, pid, w');
    hide LocksOk, FewerFly;
    assert JobsOk(w') by {
      hide JobOk;
      forall c | c in w.jobs
        ensures JobOk(w', c)
      {
        DieJobOk(w, pid, w', c);
      }
    }
    hide JobsOk;
    FewerKeeps(w, w');
  }

  // ---- A creation chooses ---------------------------------------------------------------------

  /** Two live creations cannot both hold the allocation lock. */
  lemma OneHolder(alloc: State, c: Contender, b: Contender)
    requires Inv(alloc) && c.pid !in alloc.dead && b.pid !in alloc.dead
    requires HoldsAlloc(alloc, c) && HoldsAlloc(alloc, b)
    ensures c == b
  {
    assert c in alloc.procs && b in alloc.procs;
    assert Standing(alloc, c) && Standing(alloc, b);
    LockSteps.Exclusive(alloc, c, b);
  }

  /** While one creation is choosing, no other live one is. */
  lemma OnlyOneChooses(w: Site, c: Contender, b: Contender)
    requires LocksOk(w) && JobsOk(w) && HoldsAlloc(w.alloc, c) && c.pid !in w.dead
    requires Working(w, b) && b != c
    ensures !Critical(w.jobs[b].phase)
  {
    hide LockOk, Inv, LockerOk, ScanOk;
    assert JobOk(w, b);
    if Critical(w.jobs[b].phase) {
      OneHolder(w.alloc, c, b);
    }
  }

  /** The reservation of a creation in flight names its base and its addresses. */
  lemma FlyingReserves(w: Site, c: Contender)
    requires LocksOk(w) && JobsOk(w) && Flying(w, c)
    ensures ClaimOf(w, c).mine.reserve.Some?
    ensures Reserves(ClaimOf(w, c).mine.reserve.value, w.jobs[c].phase.base, w.jobs[c].phase.macs)
  {
    hide Inv, NoneRemoved;
    assert JobOk(w, c) && LockOk(w.locks[w.jobs[c].name], w.dead);
    assert OwnReserve(w.locks[w.jobs[c].name], w.jobs[c].phase.locker);
  }

  /** Only creation `c` moved, and neither it nor anything else took off or was saved. */
  ghost predicate OnlyJob(w: Site, c: Contender, w': Site) {
    && c in w'.jobs && w' == w.(jobs := w.jobs[c := w'.jobs[c]]) && !w'.jobs[c].phase.InFlight?
  }

  /** Its call of the machine lock is nobody else's. */
  predicate OwnLocker(jobs: map<Contender, Job>, c: Contender, job: Job) {
    HasLocker(job.phase) ==>
      forall b :: b in jobs && b != c && jobs[b].name == job.name && HasLocker(jobs[b].phase) ==>
                    jobs[b].phase.locker != job.phase.locker
  }

  lemma OnlyJobJobsOk(w: Site, c: Contender, w': Site)
    requires JobsOk(w) && OnlyJob(w, c, w') && JobOk(w', c) && OwnLocker(w.jobs, c, w'.jobs[c])
    ensures JobsOk(w')
  {
    hide LockerOk, ScanOk, HoldsAlloc;
    forall b | b in w'.jobs
      ensures JobOk(w', b)
    {
      if b != c {
        assert JobOk(w, b);
      }
    }
  }

  lemma OnlyJobChoice(w: Site, c: Contender, w': Site)
    requires ChoiceOk(w) && OnlyJob(w, c, w') && FewerFly(w, w')
    requires Working(w', c) && Critical(w'.jobs[c].phase) ==> KnowsAll(w, w'.jobs[c])
    ensures ChoiceOk(w')
  {
    hide KnowsFlying, KnowsJson, FewerFly;
    forall d | Working(w', d) && Critical(w'.jobs[d].phase)
      ensures KnowsAll(w', w'.jobs[d])
    {
      if d != c {
        assert Working(w, d);
      }
      assert KnowsAll(w, w'.jobs[d]);
      FewerKnown(w, w', w'.jobs[d].phase, w'.jobs[d].name);
    }
  }

  /** Then what is left to show is what `c` itself knows. */
  lemma OnlyJobKeeps(w: Site, c: Contender, w': Site)
    requires SiteInv(w) && OnlyJob(w, c, w') && JobOk(w', c) && OwnLocker(w.jobs, c, w'.jobs[c])
    requires Working(w', c) && Critical(w'.jobs[c].phase) ==> KnowsAll(w, w'.jobs[c])
    ensures SiteInv(w')
  {
    hide LockOk, Inv, NoneRemoved, KnowsAll, Apart, SavedByOwner, ChoiceOk, JobsOk, JobOk, OwnLocker;
    assert FewerFly(w, w') by {
      hide Standing;
    }
    hide FewerFly;
    OnlyJobJobsOk(w, c, w');
    OnlyJobChoice(w, c, w');
    FewerApart(w, w');
  }

  lemma StartKeeps(w: Site, c: Contender, name: string, asked: Option<nat>, w': Site)
    requires SiteInv(w) && JobStep(w, Start(c, name, asked), w')
    ensures SiteInv(w')
  {
    assert OnlyJob(w, c, w') && JobOk(w', c) && OwnLocker(w.jobs, c, w'.jobs[c]) && !Critical(w'.jobs[c].phase);
    hide SiteInv, JobStep, OnlyJob, JobOk, OwnLocker;
    OnlyJobKeeps(w, c, w');
  }

  lemma FailKeeps(w: Site, c: Contender, w': Site)
    requires SiteInv(w) && JobStep(w, Fail(c), w')
    ensures SiteInv(w')
  {
    hide LocksOk, ChoiceOk, Apart, SavedByOwner, InDirectories;
    assert OnlyJob(w, c, w') && !Critical(w'.jobs[c].phase) && OwnLocker(w.jobs, c, w'.jobs[c]);
    assert JobOk(w', c) by {
      assert JobOk(w, c);
    }
    hide SiteInv, JobStep, OnlyJob, JobOk, OwnLocker;
    OnlyJobKeeps(w, c, w');
  }

  // ---- It reads -----------------------------------------------------------------------------

  /** At the door the listing has every saved machine. */
  lemma EnterKnows(w: Site, c: Contender, listing: seq<string>, w': Site)
    requires LocksOk(w) && JobsOk(w) && InDirectories(w) && JobStep(w, Enter(c, listing), w')
    ensures KnowsAll(w, w'.jobs[c])
  {
    hide LockOk, Inv, LockerOk, ScanOk, NoneRemoved, ClaimOf, Standing;
    forall n | n in w.json
      ensures n in listing
    {
      assert n in w.locks && !w.locks[n].machine.Absent?;
    }
    forall b | Flying(w, b)
      ensures Knows(w'.jobs[c].phase, w.jobs[b].name, ClaimOf(w, b))
    {
      FlyingReserves(w, b);
    }
  }

  lemma EnterJobOk(w: Site, c: Contender, listing: seq<string>, w': Site)
    requires LocksOk(w) && JobsOk(w) && JobStep(w, Enter(c, listing), w')
    ensures JobOk(w', c)
  {
    hide LockOk, Inv, LockerOk, ScanOk;
    assert JobOk(w, c) && NoneRemoved(w.alloc);
  }

  lemma EnterKeeps(w: Site, c: Contender, listing: seq<string>, w': Site)
    requires SiteInv(w) && JobStep(w, Enter(c, listing), w')
    ensures SiteInv(w')
  {
    hide LocksOk, JobsOk, InDirectories, Apart, ChoiceOk, SavedByOwner;
    assert OnlyJob(w, c, w') && OwnLocker(w.jobs, c, w'.jobs[c]);
    hide OnlyJob, OwnLocker, JobOk, KnowsAll;
    EnterKnows(w, c, listing, w');
    EnterJobOk(w, c, listing, w');
    hide SiteInv, JobStep, OnlyJob, JobOk, OwnLocker, KnowsAll;
    OnlyJobKeeps(w, c, w');
  }

  /** Reading the saved machines, one by one. */
  lemma ReadKnows(w: Site, c: Contender, w': Site)
    requires ReadStep(w, Read(c), w') && KnowsAll(w, w.jobs[c])
    ensures KnowsAll(w, w'.jobs[c])
  {
    hide Standing, ClaimOf, WillReport, ReservedBases;
    var job := w.jobs[c];
    forall n | n in w.json && n != job.name
      ensures KnowsSaved(w'.jobs[c], n, w.json[n])
    {
      assert KnowsSaved(job, n, w.json[n]);
      if job.phase.todo != [] {
        assert n in job.phase.todo ==> n == job.phase.todo[0] || n in job.phase.todo[1..];
      }
    }
    forall b | Flying(w, b) && w.jobs[b].name != job.name
      ensures Knows(w'.jobs[c].phase, w.jobs[b].name, ClaimOf(w, b))
    {
      assert Knows(job.phase, w.jobs[b].name, ClaimOf(w, b));
    }
  }

  lemma CountKnows(w: Site, c: Contender, w': Site)
    requires ReadStep(w, Count(c), w') && KnowsAll(w, w.jobs[c])
    ensures KnowsAll(w, w'.jobs[c])
  {
    hide Standing, ClaimOf, WillReport, ReservedBases;
    var job := w.jobs[c];
    forall n | n in w.json && n != job.name
      ensures KnowsSaved(w'.jobs[c], n, w.json[n])
    {
      assert KnowsSaved(job, n, w.json[n]);
      assert n in job.phase.left ==> n == job.phase.left[0] || n in job.phase.left[1..];
    }
    forall b | Flying(w, b) && w.jobs[b].name != job.name
      ensures Knows(w'.jobs[c].phase, w.jobs[b].name, ClaimOf(w, b))
    {
      assert Knows(job.phase, w.jobs[b].name, ClaimOf(w, b));
    }
  }

  lemma CountMacsKnows(w: Site, c: Contender, w': Site)
    requires ReadStep(w, CountMacs(c), w') && KnowsAll(w, w.jobs[c])
    ensures KnowsAll(w, w'.jobs[c])
  {
    hide Standing, ClaimOf, WillReport, ReservedMacs, Ports.Overlap;
    var job := w.jobs[c];
    forall n | n in w.json && n != job.name
      ensures KnowsSaved(w'.jobs[c], n, w.json[n])
    {
      assert KnowsSaved(job, n, w.json[n]);
      assert n in job.phase.left ==> n == job.phase.left[0] || n in job.phase.left[1..];
    }
    forall b | Flying(w, b) && w.jobs[b].name != job.name
      ensures Knows(w'.jobs[c].phase, w.jobs[b].name, ClaimOf(w, b))
    {
      assert Knows(job.phase, w.jobs[b].name, ClaimOf(w, b));
    }
  }

  /** A call of the scan keeps its promise to every creation in flight. */
  lemma ScanKnowsOne(w: Site, c: Contender, listing: seq<string>, w': Site, b: Contender)
    requires LocksOk(w) && ReadStep(w, ScanCall(c, listing), w')
    requires Flying(w, b) && w.jobs[b].name != w.jobs[c].name && Knows(w.jobs[c].phase, w.jobs[b].name, ClaimOf(w, b))
    ensures Knows(w'.jobs[c].phase, w.jobs[b].name, ClaimOf(w, b))
  {
    hide Inv, ReserveOk, NoneRemoved, ScanStep, WillReport;
    var job, n := w.jobs[c], w.jobs[b].name;
    var before := View(w, job.name, job.phase.scan);
    if job.phase.scan.Finished? {
      assert WillReport(job.phase.scan, n, ClaimOf(w, b));
      FinishedReport(job.phase.scan, n, ClaimOf(w, b));
    } else {
      var after := View(w, job.name, ScanStep(before, listing));
      assert WorldInv(before) by {
        assert forall n :: n in w.locks ==> LockOk(w.locks[n], w.dead);
      }
      assert Holds(before, n, w.jobs[b].phase.locker, ClaimOf(w, b));
      hide WorldInv, Holds;
      ScanKeepsReport(before, ScanMove(listing), after, n, w.jobs[b].phase.locker, ClaimOf(w, b));
    }
  }

  lemma FinishedReport(scan: Scan, name: string, a: Claim)
    requires scan.Finished? && WillReport(scan, name, a)
    ensures Found(name, a.mine) in scan.found
  {
  }

  lemma ScanKnows(w: Site, c: Contender, listing: seq<string>, w': Site)
    requires LocksOk(w) && InDirectories(w) && ReadStep(w, ScanCall(c, listing), w') && KnowsAll(w, w.jobs[c])
    ensures KnowsAll(w, w'.jobs[c])
  {
    hide LocksOk, Standing, ClaimOf, Knows, ScanStep, ScanOk;
    var job := w.jobs[c];
    forall b | Flying(w, b) && w.jobs[b].name != job.name
      ensures Knows(w'.jobs[c].phase, w.jobs[b].name, ClaimOf(w, b))
    {
      ScanKnowsOne(w, c, listing, w', b);
    }
    forall n | n in w.json && n != job.name
      ensures KnowsSaved(w'.jobs[c], n, w.json[n])
    {
      assert KnowsSaved(job, n, w.json[n]);
      assert n in w.locks && !w.locks[n].machine.Absent?;
    }
  }

  lemma ReaderJobOk(w: Site, v: Event, w': Site, c: Contender)
    requires ReadStep(w, v, w') && (v.Read? || v.ScanCall? || v.Count? || v.CountMacs?) && v.c == c && JobOk(w, c)
    ensures JobOk(w', c)
  {
    hide LockerOk, HoldsAlloc, ScanStep;
    if v.ScanCall? && !w.jobs[c].phase.scan.Finished? {
      ScanStaysOk(View(w, w.jobs[c].name, w.jobs[c].phase.scan), v.listing);
    }
  }

  lemma ReaderMoves(w: Site, v: Event, w': Site) returns (c: Contender)
    requires ReadStep(w, v, w')
    ensures (v.Read? || v.ScanCall? || v.Count? || v.CountMacs?) && v.c == c
    ensures OnlyJob(w, c, w') && OwnLocker(w.jobs, c, w'.jobs[c]) && Working(w, c) && Critical(w.jobs[c].phase)
  {
    hide ScanStep, ScanOk, Lists;
    c := v.c;
  }

  /** A step of a creation that only reads. */
  lemma ReaderKeeps(w: Site, v: Event, w': Site)
    requires SiteInv(w) && ReadStep(w, v, w')
    ensures SiteInv(w')
  {
    hide LocksOk, Apart, SavedByOwner, InDirectories, JobOk, OnlyJob, OwnLocker, KnowsAll, ReadStep;
    var c := ReaderMoves(w, v, w');
    assert JobOk(w, c) && KnowsAll(w, w.jobs[c]);
    hide JobsOk, ChoiceOk;
    match v {
      case Read(_) => ReadKnows(w, c, w');
      case ScanCall(_, listing) => ScanKnows(w, c, listing, w');
      case Count(_) => CountKnows(w, c, w');
      case CountMacs(_) => CountMacsKnows(w, c, w');
      case _ =>
    }
    ReaderJobOk(w, v, w', c);
    hide SiteInv, ReadStep;
    OnlyJobKeeps(w, c, w');
  }

  // ---- It picks a base, and takes its machine's lock ---------------------------------------------

  /** The base avoids every creation in flight, and every saved machine it has to. */
  lemma PickKnows(w: Site, c: Contender, base: nat, listing: seq<string>, w': Site)
    requires InDirectories(w) && JobStep(w, Pick(c, base, listing), w') && KnowsAll(w, w.jobs[c])
    ensures KnowsAll(w, w'.jobs[c])
  {
    hide Standing, Ports.Overlap, ClaimOf, ReservedMacs;
    var job := w.jobs[c];
    forall b | Flying(w, b) && w.jobs[b].name != job.name
      ensures Knows(w'.jobs[c].phase, w.jobs[b].name, ClaimOf(w, b))
    {
      var f := Found(w.jobs[b].name, ClaimOf(w, b).mine);
      assert Knows(job.phase, w.jobs[b].name, ClaimOf(w, b));
      assert f in job.phase.found;
      assert f.holder.reserve.value.portBase in ReservedBases(job.phase.found);
    }
    forall n | n in w.json && n != job.name
      ensures KnowsSaved(w'.jobs[c], n, w.json[n])
    {
      assert KnowsSaved(job, n, w.json[n]);
      assert n in w.locks && !w.locks[n].machine.Absent?;
    }
  }

  lemma PickKeeps(w: Site, c: Contender, base: nat, listing: seq<string>, w': Site)
    requires SiteInv(w) && JobStep(w, Pick(c, base, listing), w')
    ensures SiteInv(w')
  {
    hide LocksOk, Apart, SavedByOwner, InDirectories;
    assert OnlyJob(w, c, w') && OwnLocker(w.jobs, c, w'.jobs[c]);
    assert Working(w, c) && Critical(w.jobs[c].phase);
    assert JobOk(w', c) by {
      assert JobOk(w, c);
    }
    assert KnowsAll(w, w.jobs[c]);
    hide JobOk, OnlyJob, OwnLocker, KnowsAll, JobsOk, ChoiceOk;
    PickKnows(w, c, base, listing, w');
    hide SiteInv, JobStep;
    OnlyJobKeeps(w, c, w');
  }

  /** The derived addresses are none of a creation in flight, and none of a saved machine. */
  lemma AssignKnows(w: Site, c: Contender, macs: Macs, w': Site)
    requires JobStep(w, Assign(c, macs), w') && KnowsAll(w, w.jobs[c])
    ensures KnowsAll(w, w'.jobs[c])
  {
    hide Standing, Ports.Overlap, ClaimOf;
    var job := w.jobs[c];
    forall b | Flying(w, b) && w.jobs[b].name != job.name
      ensures Knows(w'.jobs[c].phase, w.jobs[b].name, ClaimOf(w, b))
    {
      assert Knows(job.phase, w.jobs[b].name, ClaimOf(w, b));
      FoundMacs(job.phase.found, Found(w.jobs[b].name, ClaimOf(w, b).mine));
    }
    hide ReservedMacs;
    forall n | n in w.json && n != job.name
      ensures KnowsSaved(w'.jobs[c], n, w.json[n])
    {
      assert KnowsSaved(job, n, w.json[n]);
    }
  }

  lemma FoundMacs(found: seq<Found>, f: Found)
    requires f in found && f.holder.reserve.Some?
    ensures Texts(f.holder.reserve.value.macs) <= ReservedMacs(found)
  {
  }

  lemma AssignKeeps(w: Site, c: Contender, macs: Macs, w': Site)
    requires SiteInv(w) && JobStep(w, Assign(c, macs), w')
    ensures SiteInv(w')
  {
    hide LocksOk, Apart, SavedByOwner, InDirectories;
    assert OnlyJob(w, c, w') && OwnLocker(w.jobs, c, w'.jobs[c]);
    assert Working(w, c) && Critical(w.jobs[c].phase);
    assert JobOk(w', c) by {
      assert JobOk(w, c);
    }
    assert KnowsAll(w, w.jobs[c]);
    hide JobOk, OnlyJob, OwnLocker, KnowsAll, JobsOk, ChoiceOk;
    AssignKnows(w, c, macs, w');
    hide SiteInv, JobStep;
    OnlyJobKeeps(w, c, w');
  }

  /** Once they are chosen, only the base and the addresses matter. */
  lemma ChosenKnows(w: Site, job: Job, job': Job)
    requires KnowsAll(w, job) && Chosen(job.phase) && Chosen(job'.phase)
    requires job.phase.base == job'.phase.base && job.phase.macs == job'.phase.macs
    requires job' == job.(phase := job'.phase)
    ensures KnowsAll(w, job')
  {
    hide Standing, ClaimOf, Ports.Overlap;
    forall b | Flying(w, b) && w.jobs[b].name != job.name
      ensures Knows(job'.phase, w.jobs[b].name, ClaimOf(w, b))
    {
      assert Knows(job.phase, w.jobs[b].name, ClaimOf(w, b));
    }
    forall n | n in w.json && n != job.name
      ensures KnowsSaved(job', n, w.json[n])
    {
      assert KnowsSaved(job, n, w.json[n]);
    }
  }

  /** A call of the lock that begins is nobody's yet. */
  lemma BeginsOwn(w: Site, c: Contender, b: Contender, texts: seq<string>, w': Site)
    requires JobsOk(w) && JobStep(w, Try(c, b, texts), w')
    ensures OwnLocker(w.jobs, c, w'.jobs[c])
  {
    hide ScanOk, HoldsAlloc;
    forall d | d in w.jobs && d != c && w.jobs[d].name == w.jobs[c].name && HasLocker(w.jobs[d].phase)
      ensures w.jobs[d].phase.locker != b
    {
      assert JobOk(w, d);
      assert PcOf(w.locks[w.jobs[c].name], b).Idle?;
    }
  }

  /** The lock call has begun, and the creation remembers it. */
  lemma TryJobOk(w: Site, c: Contender, b: Contender, texts: seq<string>, w': Site)
    requires JobsOk(w) && JobStep(w, Try(c, b, texts), w')
    ensures JobOk(w', c)
  {
    hide HoldsAlloc, ScanOk;
    assert JobOk(w, c);
    assert w'.locks[w.jobs[c].name].procs[b].pc.EnsureDir?;
  }

  /** It is a step of the machine's lock, and then one of the creation. */
  lemma TrySplits(w: Site, c: Contender, b: Contender, texts: seq<string>, w': Site, w1: Site)
    requires JobStep(w, Try(c, b, texts), w') && w1 == w.(locks := w.locks[w.jobs[c].name := w'.locks[w.jobs[c].name]])
    ensures LockStep(w, w.jobs[c].name, Begin(b, Some(Reservation(w.jobs[c].phase.base, texts))), w1)
    ensures OnlyJob(w1, c, w') && Working(w1, c) && w1.jobs == w.jobs && Chosen(w.jobs[c].phase)
    ensures w'.jobs[c] == w.jobs[c].(phase := Trying(w.jobs[c].phase.base, w.jobs[c].phase.macs, b))
  {
    hide Next;
  }

  lemma TryKeeps(w: Site, c: Contender, b: Contender, texts: seq<string>, w': Site)
    requires SiteInv(w) && JobStep(w, Try(c, b, texts), w')
    ensures SiteInv(w')
  {
    var n := w.jobs[c].name;
    var l := Begin(b, Some(Reservation(w.jobs[c].phase.base, texts)));
    var w1 := w.(locks := w.locks[n := w'.locks[n]]);
    hide LocksOk, JobsOk, InDirectories, Apart, SavedByOwner, LockStep, JobOk, OnlyJob, OwnLocker, KnowsAll;
    TrySplits(w, c, b, texts, w', w1);
    BeginsOwn(w, c, b, texts, w');
    TryJobOk(w, c, b, texts, w');
    hide JobStep;
    LockStepKeeps(w, n, l, w1);
    ChosenKnows(w1, w1.jobs[c], w'.jobs[c]);
    hide SiteInv;
    OnlyJobKeeps(w1, c, w');
  }

  lemma GotJobOk(w: Site, c: Contender, w': Site)
    requires JobsOk(w) && JobStep(w, Got(c), w')
    ensures JobOk(w', c) && OwnLocker(w.jobs, c, w'.jobs[c])
  {
    hide HoldsAlloc, ScanOk;
    assert JobOk(w, c);
  }

  lemma GotKeeps(w: Site, c: Contender, w': Site)
    requires SiteInv(w) && JobStep(w, Got(c), w')
    ensures SiteInv(w')
  {
    hide LocksOk, JobsOk, InDirectories, Apart, SavedByOwner;
    assert OnlyJob(w, c, w') && Working(w, c) && Chosen(w.jobs[c].phase);
    assert w'.jobs[c] == w.jobs[c].(phase := Claimed(w.jobs[c].phase.base, w.jobs[c].phase.macs, w.jobs[c].phase.locker));
    hide JobOk, OnlyJob, OwnLocker, KnowsAll;
    GotJobOk(w, c, w');
    hide JobStep;
    ChosenKnows(w, w.jobs[c], w'.jobs[c]);
    hide SiteInv;
    OnlyJobKeeps(w, c, w');
  }

  // ---- A creation takes off ---------------------------------------------------------------------

  /** Creation `c` goes from holding its machine's lock to being in flight. */
  ghost predicate TakesOff(w: Site, c: Contender, w': Site) {
    && Working(w, c) && w.jobs[c].phase.Claimed? && w.jobs[c].name !in w.json
    && w' == Put(w, c, InFlight(w.jobs[c].phase.base, w.jobs[c].phase.macs, w.jobs[c].phase.locker))
  }

  lemma OffFlying(w: Site, c: Contender, w': Site)
    requires TakesOff(w, c, w')
    ensures forall b :: Flying(w', b) ==>
              b == c || (Flying(w, b) && ClaimOf(w', b) == ClaimOf(w, b) && w'.jobs[b] == w.jobs[b])
  {
    hide Standing;
  }

  lemma OffJobsOk(w: Site, c: Contender, w': Site)
    requires JobsOk(w) && TakesOff(w, c, w')
    ensures JobsOk(w')
  {
    hide ScanOk, HoldsAlloc;
    forall b | b in w'.jobs
      ensures JobOk(w', b)
    {
      assert JobOk(w, b);
    }
  }

  /** Nobody else is choosing when it does. */
  lemma OffChoice(w: Site, c: Contender, w': Site)
    requires LocksOk(w) && JobsOk(w) && TakesOff(w, c, w')
    ensures ChoiceOk(w')
  {
    hide LocksOk, KnowsAll, LockerOk, ScanOk;
    assert JobOk(w, c);
    forall d | Working(w', d) && d != c
      ensures !Critical(w'.jobs[d].phase)
    {
      OnlyOneChooses(w, c, d);
    }
  }

  /** Its block overlaps no block that it had to know of. */
  lemma OffDisjoint(w: Site, c: Contender, b: Contender)
    requires LocksOk(w) && JobsOk(w) && c in w.jobs && Chosen(w.jobs[c].phase) && KnowsAll(w, w.jobs[c])
    requires Flying(w, b) && w.jobs[b].name != w.jobs[c].name
    ensures !Ports.Overlap(w.jobs[c].phase.base, w.jobs[b].phase.base)
    ensures w.jobs[c].phase.macs.derived !! AllMacs(w.jobs[b].phase.macs)
  {
    hide LocksOk, JobsOk, Standing, Ports.Overlap;
    FlyingReserves(w, b);
    assert Knows(w.jobs[c].phase, w.jobs[b].name, ClaimOf(w, b));
  }

  lemma OffDisjointSaved(w: Site, c: Contender, n: string)
    requires c in w.jobs && Chosen(w.jobs[c].phase) && KnowsAll(w, w.jobs[c])
    requires n in w.json && n != w.jobs[c].name
    ensures w.jobs[c].asked.None? || n in w.jobs[c].since ==> !Ports.Overlap(w.jobs[c].phase.base, w.json[n].base)
    ensures w.jobs[c].phase.macs.derived !! AllMacs(w.json[n].macs)
  {
    assert KnowsSaved(w.jobs[c], n, w.json[n]);
  }

  /** The new block is apart from the others. */
  lemma OffNewApart(w: Site, c: Contender, block: Saved)
    requires LocksOk(w) && JobsOk(w) && c in w.jobs && Chosen(w.jobs[c].phase) && KnowsAll(w, w.jobs[c])
    requires block == Saved(w.jobs[c].phase.base, w.jobs[c].asked.None?, w.jobs[c].phase.macs)
    ensures ApartFromSaved(block, w.jobs[c].name, w.json) && ApartFromFlying(block, w.jobs[c].name, w)
  {
    hide LocksOk, JobsOk, Standing, KnowsAll, Ports.Overlap;
    forall b | Flying(w, b) && w.jobs[b].name != w.jobs[c].name
      ensures Disjoint(block, BlockOf(w.jobs[b]))
    {
      OffDisjoint(w, c, b);
    }
    forall n | n in w.json && n != w.jobs[c].name
      ensures Disjoint(block, w.json[n])
    {
      OffDisjointSaved(w, c, n);
    }
  }

  lemma DisjointSymmetric(a: Saved, b: Saved)
    ensures Disjoint(a, b) <==> Disjoint(b, a)
  {
  }

  /** What flew already stays apart, also from the new block. */
  lemma OffOldApart(w: Site, c: Contender, w': Site, d: Contender)
    requires TakesOff(w, c, w') && Apart(w) && Flying(w, d) && d != c
    requires ApartFromFlying(BlockOf(w'.jobs[c]), w.jobs[c].name, w)
    ensures ApartFromFlying(BlockOf(w.jobs[d]), w.jobs[d].name, w')
  {
    hide Standing, Disjoint;
    var block := BlockOf(w.jobs[d]);
    forall b | Flying(w', b) && w'.jobs[b].name != w.jobs[d].name
      ensures Disjoint(block, BlockOf(w'.jobs[b]))
    {
      if b == c {
        DisjointSymmetric(block, BlockOf(w'.jobs[c]));
      } else {
        assert Flying(w, b);
      }
    }
  }

  lemma OffSelfApart(w: Site, c: Contender, w': Site)
    requires TakesOff(w, c, w') && ApartFromFlying(BlockOf(w'.jobs[c]), w.jobs[c].name, w)
    ensures ApartFromFlying(BlockOf(w'.jobs[c]), w.jobs[c].name, w')
  {
    OffFlying(w, c, w');
    hide Standing, Disjoint;
  }

  lemma OffApart(w: Site, c: Contender, w': Site)
    requires LocksOk(w) && JobsOk(w) && Apart(w) && TakesOff(w, c, w') && KnowsAll(w, w.jobs[c])
    ensures Apart(w')
  {
    OffNewApart(w, c, BlockOf(w'.jobs[c]));
    OffFlying(w, c, w');
    OffSelfApart(w, c, w');
    hide LocksOk, JobsOk, Standing, KnowsAll, ApartFromSaved, ApartFromFlying, SavedApart;
    forall d | Flying(w', d)
      ensures ApartFromSaved(BlockOf(w'.jobs[d]), w'.jobs[d].name, w'.json)
      ensures ApartFromFlying(BlockOf(w'.jobs[d]), w'.jobs[d].name, w')
    {
      if d != c {
        OffOldApart(w, c, w', d);
      }
    }
  }

  lemma OffOthers(w: Site, c: Contender, w': Site)
    requires LocksOk(w) && InDirectories(w) && SavedByOwner(w) && TakesOff(w, c, w')
    ensures LocksOk(w') && InDirectories(w') && SavedByOwner(w')
  {
    OffFlying(w, c, w');
    hide LockOk, Inv, NoneRemoved, Standing;
  }

  lemma OffKeeps(w: Site, c: Contender, w': Site)
    requires SiteInv(w) && TakesOff(w, c, w')
    ensures SiteInv(w')
  {
    assert KnowsAll(w, w.jobs[c]) by {
      hide LocksOk, JobsOk, InDirectories, Apart, SavedByOwner, KnowsAll;
    }
    hide LocksOk, InDirectories, JobsOk, Apart, ChoiceOk, SavedByOwner, KnowsAll, TakesOff;
    OffOthers(w, c, w');
    OffJobsOk(w, c, w');
    OffChoice(w, c, w');
    OffApart(w, c, w');
  }

  /** The last look at machine.json: a machine of this name ends the creation. */
  lemma CheckKeeps(w: Site, c: Contender, w': Site)
    requires SiteInv(w) && JobStep(w, CheckSaved(c), w')
    ensures SiteInv(w')
  {
    hide SiteInv;
    if w.jobs[c].name in w.json {
      assert JobStep(w, Fail(c), w');
      hide JobStep;
      FailKeeps(w, c, w');
    } else {
      assert TakesOff(w, c, w');
      hide JobStep;
      OffKeeps(w, c, w');
    }
  }

  // ---- A machine is saved ----------------------------------------------------------------------

  /** Creation `c`, in flight, saves its machine. */
  ghost predicate Saves(w: Site, c: Contender, w': Site) {
    Flying(w, c) && w' == With(w, w.jobs[c].name, BlockOf(w.jobs[c]))
  }

  lemma SaveFewerFly(w: Site, c: Contender, w': Site)
    requires Saves(w, c, w')
    ensures FewerFly(w, w')
  {
    hide Standing;
  }

  lemma SaveLocksOk(w: Site, c: Contender, w': Site)
    requires LocksOk(w) && InDirectories(w) && Saves(w, c, w')
    ensures LocksOk(w') && InDirectories(w')
  {
    var s := w.locks[w.jobs[c].name];
    assert !s.machine.Absent? by {
      assert LockOk(s, w.dead);
      StandingIsThere(s, w.jobs[c].phase.locker);
    }
    hide LockOk, Inv, NoneRemoved, Standing;
  }

  lemma StandingIsThere(s: State, b: Contender)
    requires Inv(s) && Standing(s, b)
    ensures !s.machine.Absent?
  {
    assert Live(s, b) && Fact(s.machine, s.dead, PcOf(s, b));
  }

  lemma SaveJobsOk(w: Site, c: Contender, w': Site)
    requires JobsOk(w) && Saves(w, c, w')
    ensures JobsOk(w')
  {
    hide LockerOk, ScanOk, HoldsAlloc, Standing;
    forall b | b in w'.jobs
      ensures JobOk(w', b)
    {
      assert JobOk(w, b);
    }
  }

  /** Two creations in flight have different names. */
  lemma OneFlies(w: Site, c: Contender, d: Contender)
    requires LocksOk(w) && JobsOk(w) && Flying(w, c) && Flying(w, d) && w.jobs[c].name == w.jobs[d].name
    ensures c == d
  {
    hide JobOk;
    var s := w.locks[w.jobs[c].name];
    assert LockOk(s, w.dead);
    LockSteps.Exclusive(s, w.jobs[c].phase.locker, w.jobs[d].phase.locker);
  }

  lemma SaveByOwner(w: Site, c: Contender, w': Site)
    requires LocksOk(w) && JobsOk(w) && SavedByOwner(w) && Saves(w, c, w')
    ensures SavedByOwner(w')
  {
    SaveFewerFly(w, c, w');
    hide LocksOk, JobsOk, Standing;
    forall d | Flying(w', d) && w'.jobs[d].name in w'.json
      ensures w'.json[w'.jobs[d].name] == BlockOf(w'.jobs[d])
    {
      if w.jobs[d].name == w.jobs[c].name {
        OneFlies(w, c, d);
      }
    }
  }

  /** What was in flight is now saved, and as far apart from the others as before. */
  lemma SaveApart(w: Site, c: Contender, w': Site)
    requires Apart(w) && Saves(w, c, w')
    ensures Apart(w')
  {
    var n, block := w.jobs[c].name, BlockOf(w.jobs[c]);
    SaveFewerFly(w, c, w');
    hide Standing, Disjoint;
    forall m, k | m in w'.json && k in w'.json && m != k
      ensures Disjoint(w'.json[m], w'.json[k])
    {
      DisjointSymmetric(w'.json[m], w'.json[k]);
      if m == n {
        assert Disjoint(block, w.json[k]);
      } else if k == n {
        assert Disjoint(block, w.json[m]);
      }
    }
    forall d | Flying(w', d)
      ensures ApartFromSaved(BlockOf(w'.jobs[d]), w'.jobs[d].name, w'.json)
      ensures ApartFromFlying(BlockOf(w'.jobs[d]), w'.jobs[d].name, w')
    {
      SaveApartOne(w, c, w', d);
    }
  }

  lemma SaveApartOne(w: Site, c: Contender, w': Site, d: Contender)
    requires Apart(w) && Saves(w, c, w') && FewerFly(w, w') && Flying(w', d)
    ensures ApartFromSaved(BlockOf(w'.jobs[d]), w'.jobs[d].name, w'.json)
    ensures ApartFromFlying(BlockOf(w'.jobs[d]), w'.jobs[d].name, w')
  {
    hide Standing, Disjoint;
    assert Flying(w, d);
  }

  /** A creation past its scan knows the block that is being saved, and the others need not. */
  lemma SaveKnowsOne(w: Site, c: Contender, w': Site, d: Contender)
    requires LocksOk(w) && JobsOk(w) && Saves(w, c, w') && d in w.jobs && Critical(w.jobs[d].phase)
    requires w.jobs[d].name != w.jobs[c].name && KnowsFlying(w, w.jobs[d].phase, w.jobs[d].name)
    requires w.jobs[c].name in w.jobs[d].since ==> KnowsBase(w.jobs[d], w.jobs[c].name, w.jobs[c].phase.base)
    ensures KnowsSaved(w'.jobs[d], w.jobs[c].name, BlockOf(w.jobs[c]))
  {
    hide LocksOk, JobsOk, Standing, ClaimOf, Ports.Overlap, WillReport;
    var n, a, phase := w.jobs[c].name, ClaimOf(w, c), w.jobs[d].phase;
    assert Knows(phase, n, a);
    FlyingReserves(w, c);
    if phase.Counting? || phase.Addressing? {
      assert Found(n, a.mine).holder.reserve.value.portBase in ReservedBases(phase.found);
      FoundMacs(phase.found, Found(n, a.mine));
    }
    hide ReservedBases, ReservedMacs, Texts;
  }

  lemma SaveKnows(w: Site, c: Contender, w': Site, d: Contender)
    requires LocksOk(w) && JobsOk(w) && SavedByOwner(w) && Saves(w, c, w')
    requires d in w.jobs && Critical(w.jobs[d].phase) && KnowsAll(w, w.jobs[d])
    ensures KnowsJson(w'.json, w'.jobs[d])
  {
    hide LocksOk, Standing, KnowsFlying;
    var n := w.jobs[c].name;
    assert w.jobs[d].since <= w.json.Keys by {
      assert JobOk(w, d);
    }
    hide JobsOk;
    forall m | m in w'.json && m != w'.jobs[d].name
      ensures KnowsSaved(w'.jobs[d], m, w'.json[m])
    {
      if m in w.json {
        assert KnowsSaved(w.jobs[d], m, w.json[m]);
      }
      if m == n {
        SaveKnowsOne(w, c, w', d);
      } else {
        SinceOthers(w.jobs[d], w'.jobs[d], n, m, w.json[m]);
      }
    }
  }

  lemma SinceOthers(job: Job, job': Job, n: string, m: string, saved: Saved)
    requires job' == job.(since := job'.since) && job'.since <= job.since + {n} && m != n && KnowsSaved(job, m, saved)
    ensures KnowsSaved(job', m, saved)
  {
  }

  lemma SaveChoice(w: Site, c: Contender, w': Site)
    requires LocksOk(w) && JobsOk(w) && SavedByOwner(w) && ChoiceOk(w) && Saves(w, c, w')
    ensures ChoiceOk(w')
  {
    SaveFewerFly(w, c, w');
    hide LocksOk, JobsOk, SavedByOwner, FewerFly, KnowsFlying, KnowsJson;
    forall d | Working(w', d) && Critical(w'.jobs[d].phase)
      ensures KnowsAll(w', w'.jobs[d])
    {
      assert Working(w, d) && w'.jobs[d].phase == w.jobs[d].phase && w'.jobs[d].name == w.jobs[d].name;
      assert KnowsAll(w, w.jobs[d]);
      FewerKnown(w, w', w.jobs[d].phase, w.jobs[d].name);
      SaveKnows(w, c, w', d);
    }
  }

  lemma SaveKeeps(w: Site, c: Contender, w': Site)
    requires SiteInv(w) && Saves(w, c, w')
    ensures SiteInv(w')
  {
    hide LocksOk, InDirectories, JobsOk, Apart, ChoiceOk, SavedByOwner, Saves;
    SaveLocksOk(w, c, w');
    SaveJobsOk(w, c, w');
    SaveByOwner(w, c, w');
    SaveApart(w, c, w');
    SaveChoice(w, c, w');
  }

  // ---- Every run -------------------------------------------------------------------------------

  lemma MoverKeeps(w: Site, v: Event, w': Site)
    requires SiteInv(w) && JobStep(w, v, w')
    ensures SiteInv(w')
  {
    hide SiteInv;
    match v {
      case Start(c, name, asked) => StartKeeps(w, c, name, asked, w');
      case Enter(c, listing) => EnterKeeps(w, c, listing, w');
      case Pick(c, base, listing) => PickKeeps(w, c, base, listing, w');
      case Assign(c, macs) => AssignKeeps(w, c, macs, w');
      case Try(c, b, texts) => TryKeeps(w, c, b, texts, w');
      case Got(c) => GotKeeps(w, c, w');
      case CheckSaved(c) => CheckKeeps(w, c, w');
      case Save(c) => {
        SaverFlies(w, c, w');
        SaveKeeps(w, c, w');
      }
      case Fail(c) => FailKeeps(w, c, w');
      case _ =>
    }
  }

  lemma SaverFlies(w: Site, c: Contender, w': Site)
    requires SiteInv(w) && JobStep(w, Save(c), w')
    ensures Saves(w, c, w')
  {
    hide Inv, NoneRemoved, OwnReserve, ChoiceOk, Apart, SavedByOwner, InDirectories;
    assert JobOk(w, c) && LockOk(w.locks[w.jobs[c].name], w.dead);
  }

  lemma SiteStepKeepsInv(w: Site, v: Event, w': Site)
    requires SiteInv(w) && SiteNext(w, v, w')
    ensures SiteInv(w')
  {
    hide SiteInv, AllocStep, MachineStep, DieStep, ReadStep, JobStep;
    match v {
      case AllocMove(l) => AllocKeeps(w, l, w');
      case MachineMove(n, l) => MachineKeeps(w, n, l, w');
      case Dies(pid) => DieKeeps(w, pid, w');
      case _ =>
        if ReadStep(w, v, w') {
          ReaderKeeps(w, v, w');
        } else {
          MoverKeeps(w, v, w');
        }
    }
  }

  lemma SiteInitInv(w: Site)
    requires SiteInit(w)
    ensures SiteInv(w)
  {
    hide Standing;
  }

  lemma {:induction false} SiteRunKeepsInv(ws: seq<Site>, vs: seq<Event>, i: nat)
    requires SiteRun(ws, vs) && i < |ws|
    ensures SiteInv(ws[i])
  {
    hide SiteInv, SiteNext, SiteInit;
    if i == 0 {
      SiteInitInv(ws[0]);
    } else {
      SiteRunKeepsInv(ws, vs, i - 1);
      assert SiteNext(ws[i - 1], vs[i - 1], ws[i]);
      SiteStepKeepsInv(ws[i - 1], vs[i - 1], ws[i]);
    }
  }
}
