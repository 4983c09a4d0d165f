/**
 * Creating machines at the same time: the allocation lock, the machine locks with the reservation
 * in them, the scan of those, and the saved machines, all moving call by call.
 */
module CreationModel {
  import opened Prelude
  import opened LockModel
  import opened LockInvariant
  import opened LockScan
  import Ports = PortBlocks

  /** The addresses of a machine's NICs: those it was given, and those derived for it. */
  datatype Macs = Macs(given: set<string>, derived: set<string>)

  /** What a `machine.json` says of the port block and the NICs, and whether the block was allocated
      or asked for. */
  datatype Saved = Saved(base: nat, automatic: bool, macs: Macs)

  /** How far claimNewMachine and what follows it have got. `locker` is the call that attempts the
      machine lock. */
  datatype Phase =
    | Waiting
    | Reading(todo: seq<string>, seen: set<nat>)
    | Scanning(seen: set<nat>, scan: Scan)
    | Counting(seen: set<nat>, found: seq<Found>, left: seq<string>, used: set<nat>)
    | Addressing(base: nat, found: seq<Found>, left: seq<string>, taken: set<string>)
    | Picked(base: nat, macs: Macs)
    | Trying(base: nat, macs: Macs, locker: Contender)
    | Claimed(base: nat, macs: Macs, locker: Contender)
    | InFlight(base: nat, macs: Macs, locker: Contender)
    | Failed

  /** A creation of machine `name`; a base of 0 asks for none. `since` remembers, for the statements
      only, the machines that were saved when it began to read or after its scan had ended, and
      have not been removed. */
  datatype Job = Job(name: string, asked: Option<nat>, phase: Phase, since: set<string>)

  /** The locks of all machine names that ever occur, and the allocation lock. */
  datatype Site = Site(alloc: State, locks: map<string, State>, json: map<string, Saved>, dead: set<Pid>,
                       jobs: map<Contender, Job>)

  datatype Event =
    | AllocMove(step: Label)
    | MachineMove(name: string, step: Label)
    | Start(c: Contender, name: string, asked: Option<nat>)
    | Enter(c: Contender, listing: seq<string>)
    | Read(c: Contender)
    | ScanCall(c: Contender, listing: seq<string>)
    | Count(c: Contender)
    | Pick(c: Contender, base: nat, listing: seq<string>)
    | CountMacs(c: Contender)
    | Assign(c: Contender, macs: Macs)
    | Try(c: Contender, locker: Contender, texts: seq<string>)
    | Got(c: Contender)
    | CheckSaved(c: Contender)
    | Save(c: Contender)
    | Fail(c: Contender)
    | Dies(pid: Pid)

  // ---- The steps ---------------------------------------------------------------------------

  function Put(w: Site, c: Contender, phase: Phase): Site
    requires c in w.jobs
  {
    w.(jobs := w.jobs[c := w.jobs[c].(phase := phase)])
  }

  /** The world that the reservation scan of a creation of `name` goes through. */
  function View(w: Site, name: string, scan: Scan): LockScan.World {
    World(w.locks, w.dead, Some(name), scan)
  }

  predicate ListsDirectories(w: Site, listing: seq<string>) {
    Lists(View(w, "", NotStarted), listing)
  }

  predicate Working(w: Site, c: Contender) {
    c in w.jobs && c.pid !in w.dead
  }

  function ReservedBases(found: seq<Found>): set<nat> {
    set f | f in found && f.holder.reserve.Some? :: f.holder.reserve.value.portBase
  }

  function Texts(macs: seq<string>): set<string> {
    set m | m in macs
  }

  function ReservedMacs(found: seq<Found>): set<string> {
    set f, m | f in found && f.holder.reserve.Some? && m in f.holder.reserve.value.macs :: m
  }

  function AllMacs(macs: Macs): set<string> {
    macs.given + macs.derived
  }

  predicate AvoidsAll(base: nat, bases: set<nat>) {
    forall b :: b in bases ==> !Ports.Overlap(base, b)
  }

  /** The phases in which a creation must not let go of a lock. */
  predicate Critical(phase: Phase) {
    phase.Reading? || phase.Scanning? || PastScan(phase)
  }

  predicate Chosen(phase: Phase) {
    phase.Picked? || phase.Trying? || phase.Claimed?
  }

  predicate HasBase(phase: Phase) {
    phase.Addressing? || Chosen(phase)
  }

  predicate PastScan(phase: Phase) {
    phase.Counting? || HasBase(phase)
  }

  predicate HasLocker(phase: Phase) {
    phase.Trying? || phase.Claimed? || phase.InFlight?
  }

  /** A release or a removal that its creation is not ready for. */
  predicate TooEarly(w: Site, name: string, step: Label) {
    (step.Release? || step.Remove?)
    && exists c :: c in w.jobs && w.jobs[c].name == name && (w.jobs[c].phase.Trying? || w.jobs[c].phase.Claimed?)
                   && w.jobs[c].phase.locker == step.c
  }

  predicate AllocStep(w: Site, l: Label, w': Site) {
    && !l.Crash? && !l.Remove? && (l.Begin? ==> l.reserve.None?)
    && (l.Release? ==> l.c in w.jobs ==> !Critical(w.jobs[l.c].phase))
    && Next(w.alloc, l, w'.alloc)
    && w' == w.(alloc := w'.alloc)
  }

  /** The lock of machine `n` takes a step. */
  predicate LockStep(w: Site, n: string, l: Label, w': Site) {
    && n in w.locks && n in w'.locks && !l.Crash? && !TooEarly(w, n, l)
    && Next(w.locks[n], l, w'.locks[n])
    && w' == w.(locks := w.locks[n := w'.locks[n]])
  }

  /** What goes with the directory of machine `n`. */
  function Without(w: Site, n: string): Site {
    w.(json := w.json - {n}, jobs := map c | c in w.jobs :: w.jobs[c].(since := w.jobs[c].since - {n}))
  }

  predicate MachineStep(w: Site, n: string, l: Label, w': Site) {
    && (l.Begin? ==> l.reserve.None?)
    && LockStep(if l.Remove? then Without(w, n) else w, n, l, w')
  }

  /** Machine `n` is saved: creations that are past their scan take note. */
  function With(w: Site, n: string, saved: Saved): Site {
    w.(json := w.json[n := saved],
       jobs := map c | c in w.jobs ::
                 if PastScan(w.jobs[c].phase) then w.jobs[c].(since := w.jobs[c].since + {n}) else w.jobs[c])
  }

  /** What a creation in flight saves. */
  function BlockOf(job: Job): Saved
    requires job.phase.InFlight?
  {
    Saved(job.phase.base, job.asked.None?, job.phase.macs)
  }

  /** The choice of a base: asked for and free of what was seen, or allocated among what is used. */
  predicate MayPick(job: Job, base: nat) {
    && job.phase.Counting? && job.phase.left == []
    && if job.asked.Some? then
         base == job.asked.value && AvoidsAll(base, job.phase.seen + ReservedBases(job.phase.found))
       else AvoidsAll(base, job.phase.used + ReservedBases(job.phase.found))
  }

  /** The derived addresses are none that a saved machine or a reservation has. */
  predicate MayAssign(phase: Phase, macs: Macs) {
    phase.Addressing? && phase.left == [] && macs.derived !! phase.taken + ReservedMacs(phase.found)
  }

  /** The next call of a creation that only reads. */
  predicate ReadStep(w: Site, v: Event, w': Site) {
    match v
    case Read(c) =>
      && Working(w, c) && w.jobs[c].phase.Reading?
      && var job := w.jobs[c];
         w' == Put(w, c, if job.phase.todo == [] then Scanning(job.phase.seen, NotStarted)
                         else
                           var n := job.phase.todo[0];
                           Reading(job.phase.todo[1..],
                                   if n in w.json && n != job.name then job.phase.seen + {w.json[n].base} else job.phase.seen))
    case ScanCall(c, listing) =>
      && Working(w, c) && w.jobs[c].phase.Scanning?
      && var job := w.jobs[c];
         var scan := job.phase.scan;
         && ScanOk(View(w, job.name, scan))
         && (scan.NotStarted? || scan.Finished? ==> ListsDirectories(w, listing))
         && w' == Put(w, c, if scan.Finished? then Counting(job.phase.seen, scan.found, listing, {})
                            else Scanning(job.phase.seen, ScanStep(View(w, job.name, scan), listing)))
    case Count(c) =>
      && Working(w, c) && w.jobs[c].phase.Counting? && w.jobs[c].phase.left != []
      && var job := w.jobs[c];
         var n := job.phase.left[0];
         w' == Put(w, c, Counting(job.phase.seen, job.phase.found, job.phase.left[1..],
                                  if n in w.json then job.phase.used + {w.json[n].base} else job.phase.used))
    case CountMacs(c) =>
      && Working(w, c) && w.jobs[c].phase.Addressing? && w.jobs[c].phase.left != []
      && var phase := w.jobs[c].phase;
         var n := phase.left[0];
         w' == Put(w, c, Addressing(phase.base, phase.found, phase.left[1..],
                                    if n in w.json then phase.taken + AllMacs(w.json[n].macs) else phase.taken))
    case _ => false
  }

  /** The other steps of a creation. */
  predicate JobStep(w: Site, v: Event, w': Site) {
    match v
    case Start(c, name, asked) =>
      && c !in w.jobs && c.pid !in w.dead && name in w.locks
      && w' == w.(jobs := w.jobs[c := Job(name, asked, Waiting, {})])
    case Enter(c, listing) =>
      && Working(w, c) && w.jobs[c].phase.Waiting? && PcOf(w.alloc, c).Held? && ListsDirectories(w, listing)
      && w' == w.(jobs := w.jobs[c := w.jobs[c].(phase := Reading(listing, {}), since := w.json.Keys)])
    case Pick(c, base, listing) =>
      && Working(w, c) && MayPick(w.jobs[c], base) && ListsDirectories(w, listing)
      && w' == Put(w, c, Addressing(base, w.jobs[c].phase.found, listing, {}))
    case Assign(c, macs) =>
      && Working(w, c) && MayAssign(w.jobs[c].phase, macs)
      && w' == Put(w, c, Picked(w.jobs[c].phase.base, macs))
    case Try(c, b, texts) =>
      && Working(w, c) && b.pid == c.pid && w.jobs[c].name in w.locks && w.jobs[c].name in w'.locks
      && var (job, n) := (w.jobs[c], w.jobs[c].name);
         && (job.phase.Picked? || (job.phase.Trying? && PcOf(w.locks[n], job.phase.locker).NotFound?))
         && Texts(texts) == AllMacs(job.phase.macs)
         && Next(w.locks[n], Begin(b, Some(Reservation(job.phase.base, texts))), w'.locks[n])
         && w' == Put(w, c, Trying(job.phase.base, job.phase.macs, b)).(locks := w.locks[n := w'.locks[n]])
    case Got(c) =>
      && Working(w, c) && w.jobs[c].phase.Trying? && w.jobs[c].name in w.locks
      && PcOf(w.locks[w.jobs[c].name], w.jobs[c].phase.locker).Held?
      && w' == Put(w, c, Claimed(w.jobs[c].phase.base, w.jobs[c].phase.macs, w.jobs[c].phase.locker))
    case CheckSaved(c) =>
      && Working(w, c) && w.jobs[c].phase.Claimed?
      && w' == Put(w, c, if w.jobs[c].name in w.json then Failed
                         else InFlight(w.jobs[c].phase.base, w.jobs[c].phase.macs, w.jobs[c].phase.locker))
    case Save(c) =>
      && Working(w, c) && w.jobs[c].phase.InFlight? && w.jobs[c].name in w.locks
      && var pc := PcOf(w.locks[w.jobs[c].name], w.jobs[c].phase.locker);
         && pc.Held? && !pc.claim.removed
         && w' == With(w, w.jobs[c].name, BlockOf(w.jobs[c]))
    case Fail(c) => Working(w, c) && w' == Put(w, c, Failed)
    case _ => false
  }

  predicate DieStep(w: Site, pid: Pid, w': Site) {
    && Next(w.alloc, Crash(pid), w'.alloc)
    && w'.locks.Keys == w.locks.Keys
    && (forall n :: n in w.locks ==> Next(w.locks[n], Crash(pid), w'.locks[n]))
    && w' == w.(alloc := w'.alloc, locks := w'.locks, dead := w.dead + {pid})
  }

  predicate SiteNext(w: Site, v: Event, w': Site) {
    match v
    case AllocMove(l) => AllocStep(w, l, w')
    case MachineMove(n, l) => MachineStep(w, n, l, w')
    case Dies(pid) => DieStep(w, pid, w')
    case _ => ReadStep(w, v, w') || JobStep(w, v, w')
  }

  predicate SiteInit(w: Site) {
    && Init(w.alloc) && (forall n :: n in w.locks ==> Init(w.locks[n]))
    && w.json == map[] && w.dead == {} && w.jobs == map[]
  }

  ghost predicate SiteRun(ws: seq<Site>, vs: seq<Event>) {
    && |ws| == |vs| + 1 && SiteInit(ws[0])
    && forall i {:trigger vs[i]} :: 0 <= i < |vs| ==> SiteNext(ws[i], vs[i], ws[i + 1])
  }

  // ---- Whose blocks count -------------------------------------------------------------------

  /** A creation in flight: its machine lock stands, and no machine of its name was there. */
  predicate Flying(w: Site, c: Contender) {
    && c in w.jobs && w.jobs[c].phase.InFlight? && w.jobs[c].name in w.locks
    && Standing(w.locks[w.jobs[c].name], w.jobs[c].phase.locker)
  }

  /** A saved machine, or a creation in flight, of this name, with this block and these addresses. */
  ghost predicate HasBlock(w: Site, name: string, block: Saved) {
    || (name in w.json && w.json[name] == block)
    || exists c :: Flying(w, c) && w.jobs[c].name == name && BlockOf(w.jobs[c]) == block
  }

  // ---- The invariant ------------------------------------------------------------------------

  /** A claim carries the reservation of its call. */
  predicate OwnReserve(s: State, b: Contender) {
    b in s.procs && HasClaim(PcOf(s, b)) ==> PcOf(s, b).claim.mine.reserve == s.procs[b].reserve
  }

  predicate ReserveOk(s: State) {
    forall b :: b in s.procs ==> OwnReserve(s, b)
  }

  /** Nobody moves the directory of this lock away. */
  predicate NoneRemoved(s: State) {
    forall b :: b in s.procs && HasClaim(PcOf(s, b)) ==> !PcOf(s, b).claim.removed
  }

  ghost predicate LockOk(s: State, dead: set<Pid>) {
    Inv(s) && s.dead == dead && ReserveOk(s)
  }

  ghost predicate LocksOk(w: Site) {
    && Inv(w.alloc) && w.alloc.dead == w.dead && NoneRemoved(w.alloc)
    && forall n :: n in w.locks ==> LockOk(w.locks[n], w.dead)
  }

  /** In the critical section, or on the way out of it. */
  predicate PastHeld(pc: Pc) {
    || pc.Held? || pc.ReleaseRead? || pc.MarkTemp? || pc.MarkLink? || pc.Done?
    || (pc.CollectList? && pc.releasing) || (pc.Collecting? && pc.releasing)
  }

  predicate Reserves(r: Reservation, base: nat, macs: Macs) {
    r.portBase == base && Texts(r.macs) == AllMacs(macs)
  }

  /** Where the call that attempts, or took, the machine lock is. */
  predicate LockerOk(s: State, phase: Phase)
    requires HasLocker(phase)
  {
    var b := phase.locker;
    && b in s.procs && !PcOf(s, b).Idle?
    && s.procs[b].reserve.Some? && Reserves(s.procs[b].reserve.value, phase.base, phase.macs)
    && (!phase.InFlight? && HasClaim(PcOf(s, b)) ==> !PcOf(s, b).claim.removed)
    && (phase.Claimed? ==> PcOf(s, b).Held?)
    && (phase.InFlight? ==> PastHeld(PcOf(s, b)))
  }

  /** The creation holds the allocation lock. */
  predicate HoldsAlloc(alloc: State, c: Contender) {
    PcOf(alloc, c).Held? && !PcOf(alloc, c).claim.removed
  }

  predicate JobOk(w: Site, c: Contender)
    requires c in w.jobs
  {
    var job := w.jobs[c];
    && job.name in w.locks && job.since <= w.json.Keys
    && (Critical(job.phase) ==> HoldsAlloc(w.alloc, c))
    && (job.phase.Scanning? ==> ScanOk(View(w, job.name, job.phase.scan)))
    && (HasLocker(job.phase) ==> LockerOk(w.locks[job.name], job.phase) && job.phase.locker.pid == c.pid)
  }

  /** No two creations of one name share a call of the lock. */
  predicate LockersDiffer(jobs: map<Contender, Job>) {
    forall c, b :: c in jobs && b in jobs && c != b && jobs[c].name == jobs[b].name
                   && HasLocker(jobs[c].phase) && HasLocker(jobs[b].phase) ==>
                   jobs[c].phase.locker != jobs[b].phase.locker
  }

  ghost predicate JobsOk(w: Site) {
    (forall c :: c in w.jobs ==> JobOk(w, c)) && LockersDiffer(w.jobs)
  }

  /** What is saved is in a directory. */
  predicate InDirectories(w: Site) {
    forall n :: n in w.json ==> n in w.locks && !w.locks[n].machine.Absent?
  }

  /** If a name in flight is saved, it was saved by whoever is in flight. */
  ghost predicate SavedByOwner(w: Site) {
    forall c :: Flying(w, c) && w.jobs[c].name in w.json ==> w.json[w.jobs[c].name] == BlockOf(w.jobs[c])
  }

  /** A creation that is choosing knows, or will know, or avoids what another has reserved. */
  predicate Knows(phase: Phase, name: string, a: Claim) {
    && a.mine.reserve.Some?
    && (phase.Scanning? ==> phase.scan.NotStarted? || WillReport(phase.scan, name, a))
    && (phase.Counting? || phase.Addressing? ==> Found(name, a.mine) in phase.found)
    && (HasBase(phase) ==> !Ports.Overlap(phase.base, a.mine.reserve.value.portBase))
    && (Chosen(phase) ==> phase.macs.derived !! Texts(a.mine.reserve.value.macs))
  }

  /** The same of the addresses of a saved machine. */
  predicate KnowsMacs(phase: Phase, name: string, macs: Macs) {
    && (phase.Addressing? ==> name in phase.left || AllMacs(macs) <= phase.taken + ReservedMacs(phase.found))
    && (Chosen(phase) ==> phase.macs.derived !! AllMacs(macs))
  }

  /** And of its block; if the creation's own base is asked for, only of those in `since`. */
  predicate KnowsBase(job: Job, name: string, base: nat) {
    var phase := job.phase;
    if job.asked.Some? then
      name in job.since ==>
        && (phase.Reading? ==> name in phase.todo || base in phase.seen)
        && (phase.Scanning? ==> base in phase.seen)
        && (phase.Counting? ==> base in phase.seen + ReservedBases(phase.found))
        && (HasBase(phase) ==> !Ports.Overlap(phase.base, base))
    else
      && (phase.Counting? ==> name in phase.left || base in phase.used + ReservedBases(phase.found))
      && (HasBase(phase) ==> !Ports.Overlap(phase.base, base))
  }

  predicate KnowsSaved(job: Job, name: string, saved: Saved) {
    KnowsBase(job, name, saved.base) && KnowsMacs(job.phase, name, saved.macs)
  }

  function ClaimOf(w: Site, c: Contender): Claim
    requires Flying(w, c)
  {
    PcOf(w.locks[w.jobs[c].name], w.jobs[c].phase.locker).claim
  }

  ghost predicate KnowsFlying(w: Site, phase: Phase, name: string) {
    forall b :: Flying(w, b) && w.jobs[b].name != name ==> Knows(phase, w.jobs[b].name, ClaimOf(w, b))
  }

  ghost predicate KnowsJson(json: map<string, Saved>, job: Job) {
    forall n :: n in json && n != job.name ==> KnowsSaved(job, n, json[n])
  }

  ghost predicate KnowsAll(w: Site, job: Job) {
    KnowsFlying(w, job.phase, job.name) && KnowsJson(w.json, job)
  }

  ghost predicate ChoiceOk(w: Site) {
    forall c :: Working(w, c) && Critical(w.jobs[c].phase) ==> KnowsAll(w, w.jobs[c])
  }

  /** Two blocks that were both allocated do not overlap, and no derived address is in both. */
  predicate Disjoint(a: Saved, b: Saved) {
    && (a.automatic && b.automatic ==> !Ports.Overlap(a.base, b.base))
    && a.macs.derived !! b.macs.derived
  }

  predicate SavedApart(json: map<string, Saved>) {
    forall m, n :: m in json && n in json && m != n ==> Disjoint(json[m], json[n])
  }

  predicate ApartFromSaved(block: Saved, name: string, json: map<string, Saved>) {
    forall n :: n in json && n != name ==> Disjoint(block, json[n])
  }

  ghost predicate ApartFromFlying(block: Saved, name: string, w: Site) {
    forall b :: Flying(w, b) && w.jobs[b].name != name ==> Disjoint(block, BlockOf(w.jobs[b]))
  }

  /** No two allocated blocks of different names overlap. */
  ghost predicate Apart(w: Site) {
    && SavedApart(w.json)
    && forall c :: Flying(w, c) ==>
         && ApartFromSaved(BlockOf(w.jobs[c]), w.jobs[c].name, w.json)
         && ApartFromFlying(BlockOf(w.jobs[c]), w.jobs[c].name, w)
  }

  ghost predicate SiteInv(w: Site) {
    LocksOk(w) && JobsOk(w) && InDirectories(w) && SavedByOwner(w) && ChoiceOk(w) && Apart(w)
  }
}
