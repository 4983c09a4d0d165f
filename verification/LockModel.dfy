/**
 * The cross-process lock as a transition system: one step per filesystem call.
 *
 * A lock lives in `machines/<name>/.lock/`. The directory holds an `id` file and records
 * named `<id>.<gen>`. Any number of contenders take turns in any order, a process can stop
 * for good between any two calls, and a holder can move the whole machine directory aside.
 *
 * Nothing here is ever re-read or written in one step with something else: a listing, a read
 * of a record, the liveness test, a link and an unlink are separate turns, so every other
 * contender can run in between.
 */
module LockModel {
  import opened Prelude

  type Pid = nat
  type Id = nat

  /** One call of acquireLock by the process `pid`. Several calls can share a process. */
  datatype Contender = Contender(pid: Pid, call: nat)

  /** A UUID drawn for a record: whose it is, and how many that contender had drawn. */
  datatype Token = Token(author: Contender, n: nat)

  datatype Reservation = Reservation(portBase: nat, macs: seq<string>)

  /** What a record file contains. Two records have equal bytes only if these agree. */
  datatype Record = Record(pid: Pid, token: Token, released: bool, reserve: Option<Reservation>)

  /** The file name `<id>.<gen>`. */
  datatype Name = Name(id: Id, gen: nat)

  /** `serial` tells one directory from another at the same path, as an inode would. */
  datatype LockDir = LockDir(serial: nat, id: Option<Id>, records: map<Name, Record>)

  /** `machines/<name>/`, and the `.lock` inside it. */
  datatype Machine = Absent | Bare | Locked(lock: LockDir)

  /** A claim on record `gen` of incarnation `id`, having judged `judged` free. `removed` says
      that the holder has since moved the machine directory aside. */
  datatype Claim = Claim(id: Id, gen: nat, judged: Option<Record>, mine: Record, removed: bool)

  /** Where a contender is: the call it makes next, with what it still remembers. */
  datatype Pc =
    | Idle
    | EnsureDir
    | ReadId
    | IdTemp
    | IdLink(temp: nat)
    | IdReread
    | List(id: Id)
    | Inspect(id: Id, gen: nat)
    | TestPid(id: Id, gen: nat, seen: Record)
    | ClaimTemp(id: Id, gen: nat, judged: Option<Record>)
    | ClaimLink(claim: Claim, temp: nat)
    | Relist(claim: Claim)
    | RereadPred(claim: Claim, isTop: bool)
    | RereadId(claim: Claim)
    | Reject(claim: Claim)
    | CollectList(claim: Claim, releasing: bool)
    | Collecting(claim: Claim, todo: set<nat>, releasing: bool)
    | Held(claim: Claim)
    | ReleaseRead(claim: Claim)
    | MarkTemp(claim: Claim)
    | MarkLink(claim: Claim, temp: nat)
    | Done(claim: Claim)
    | Refused(holder: Record)
    | NotFound

  datatype Proc = Proc(pc: Pc, drawn: nat, reserve: Option<Reservation>)

  /** `ids` are the incarnation ids published so far; `dead` the processes that have stopped. */
  datatype State = State(machine: Machine, ids: set<Id>, serial: nat, procs: map<Contender, Proc>, dead: set<Pid>)

  datatype Label =
    | Begin(c: Contender, reserve: Option<Reservation>)
    | Turn(c: Contender, draw: nat)
    | Release(c: Contender)
    | Remove(c: Contender)
    | MakeMachine
    | Crash(pid: Pid)

  function ProcOf(s: State, c: Contender): Proc {
    if c in s.procs then s.procs[c] else Proc(Idle, 0, None)
  }

  function PcOf(s: State, c: Contender): Pc {
    ProcOf(s, c).pc
  }

  function GoTo(s: State, c: Contender, pc: Pc): State {
    s.(procs := s.procs[c := ProcOf(s, c).(pc := pc)])
  }

  // ---- The directory ---------------------------------------------------------------------

  function CurrentId(m: Machine): Option<Id> {
    if m.Locked? then m.lock.id else None
  }

  function Generations(lock: LockDir, id: Id): set<nat> {
    set n | n in lock.records && n.id == id :: n.gen
  }

  /** What a read of one record finds: nothing when the file or the directory is gone. */
  function ReadRecord(m: Machine, n: Name): Option<Record> {
    if m.Locked? && n in m.lock.records then Some(m.lock.records[n]) else None
  }

  function Unlink(m: Machine, n: Name): Machine {
    if m.Locked? then Locked(m.lock.(records := m.lock.records - {n})) else m
  }

  /** The last call of linkNew: the temp file is in the directory it was written in, so the
      link fails with ENOENT once that directory is gone, even if another has its path. */
  predicate TempGone(m: Machine, temp: nat) {
    !m.Locked? || m.lock.serial != temp
  }

  // ---- One turn of one contender ---------------------------------------------------------

  /** After `collect` returns: into the critical section, or on to the released marker. */
  function AfterCollect(a: Claim, releasing: bool): Pc {
    if releasing then MarkTemp(a) else Held(a)
  }

  /** The next filesystem call of contender `c`. `draw` is the UUID an id link publishes, and
      the next name a directory listing yields to `collect`. */
  function Act(s: State, c: Contender, draw: nat): State {
    var m := s.machine;
    match PcOf(s, c)
    case EnsureDir =>
      if m.Absent? then GoTo(s, c, NotFound)
      else if m.Bare? then
        GoTo(s.(machine := Locked(LockDir(s.serial, None, map[])), serial := s.serial + 1), c, ReadId)
      else GoTo(s, c, ReadId)
    case ReadId =>
      (match CurrentId(m)
       case Some(id) => GoTo(s, c, List(id))
       case None => GoTo(s, c, IdTemp))
    case IdTemp =>
      if m.Locked? then GoTo(s, c, IdLink(m.lock.serial)) else GoTo(s, c, NotFound)
    case IdLink(temp) =>
      if TempGone(m, temp) then GoTo(s, c, NotFound)
      else if m.lock.id.Some? then GoTo(s, c, IdReread)
      else GoTo(s.(machine := Locked(m.lock.(id := Some(draw))), ids := s.ids + {draw}), c, IdReread)
    case IdReread =>
      (match CurrentId(m)
       case Some(id) => GoTo(s, c, List(id))
       case None => GoTo(s, c, NotFound))
    case List(id) =>
      if !m.Locked? then GoTo(s, c, NotFound)
      else
        var gens := Generations(m.lock, id);
        if gens == {} then GoTo(s, c, ClaimTemp(id, 1, None)) else GoTo(s, c, Inspect(id, MaxOf(gens)))
    case Inspect(id, gen) =>
      (match ReadRecord(m, Name(id, gen))
       case None => GoTo(s, c, ReadId)
       case Some(r) => GoTo(s, c, if r.released then ClaimTemp(id, gen + 1, Some(r)) else TestPid(id, gen, r)))
    case TestPid(id, gen, seen) =>
      GoTo(s, c, if seen.pid in s.dead then ClaimTemp(id, gen + 1, Some(seen)) else Refused(seen))
    case ClaimTemp(id, gen, judged) =>
      if !m.Locked? then GoTo(s, c, NotFound)
      else
        var p := ProcOf(s, c);
        var mine := Record(c.pid, Token(c, p.drawn), false, p.reserve);
        var p' := p.(pc := ClaimLink(Claim(id, gen, judged, mine, false), m.lock.serial), drawn := p.drawn + 1);
        s.(procs := s.procs[c := p'])
    case ClaimLink(a, temp) =>
      if TempGone(m, temp) then GoTo(s, c, NotFound)
      else if Name(a.id, a.gen) in m.lock.records then GoTo(s, c, ReadId)
      else GoTo(s.(machine := Locked(m.lock.(records := m.lock.records[Name(a.id, a.gen) := a.mine]))), c, Relist(a))
    case Relist(a) =>
      if !m.Locked? then GoTo(s, c, NotFound)
      else
        var gens := Generations(m.lock, a.id);
        var isTop := forall g :: g in gens ==> g <= a.gen;
        if a.judged.Some? then GoTo(s, c, RereadPred(a, isTop))
        else if isTop && a.gen == 1 && |gens| == 1 then GoTo(s, c, RereadId(a))
        else GoTo(s, c, Reject(a))
    case RereadPred(a, isTop) =>
      GoTo(s, c, if isTop && 0 < a.gen && ReadRecord(m, Name(a.id, a.gen - 1)) == a.judged then RereadId(a) else Reject(a))
    case RereadId(a) =>
      GoTo(s, c, if CurrentId(m) == Some(a.id) then CollectList(a, false) else Reject(a))
    case Reject(a) =>
      GoTo(s.(machine := Unlink(m, Name(a.id, a.gen))), c, ReadId)
    case CollectList(a, releasing) =>
      if !m.Locked? then GoTo(s, c, AfterCollect(a, releasing))
      else GoTo(s, c, Collecting(a, (set g | g in Generations(m.lock, a.id) && g < a.gen), releasing))
    case Collecting(a, todo, releasing) =>
      if todo == {} then GoTo(s, c, AfterCollect(a, releasing))
      else GoTo(s.(machine := Unlink(m, Name(a.id, draw))), c, Collecting(a, todo - {draw}, releasing))
    case ReleaseRead(a) =>
      GoTo(s, c, if ReadRecord(m, Name(a.id, a.gen)) == Some(a.mine) then CollectList(a, true) else Done(a))
    case MarkTemp(a) =>
      if m.Locked? then GoTo(s, c, MarkLink(a, m.lock.serial)) else GoTo(s, c, Done(a))
    case MarkLink(a, temp) =>
      if TempGone(m, temp) || Name(a.id, a.gen + 1) in m.lock.records then GoTo(s, c, Done(a))
      else
        var marker := a.mine.(released := true, reserve := None);
        GoTo(s.(machine := Locked(m.lock.(records := m.lock.records[Name(a.id, a.gen + 1) := marker]))), c, Done(a))
    case _ => s
  }

  /** A turn has a call left to make, a drawn id is new, and `collect` deletes what it listed. */
  predicate CanAct(s: State, c: Contender, draw: nat) {
    var pc := PcOf(s, c);
    && c.pid !in s.dead
    && !pc.Idle? && !pc.Held? && !pc.Done? && !pc.Refused? && !pc.NotFound?
    && (pc.IdLink? ==> draw !in s.ids)
    && (pc.Collecting? && pc.todo != {} ==> draw in pc.todo)
  }

  // ---- The system ------------------------------------------------------------------------

  predicate Init(s: State) {
    s.machine.Absent? && s.ids == {} && s.procs == map[] && s.dead == {}
  }

  /** Every step the system can take. A release() by a contender that has already called it
      changes nothing: the `released` flag is set. */
  predicate Next(s: State, l: Label, s': State) {
    match l
    case Begin(c, reserve) =>
      && c.pid !in s.dead && PcOf(s, c).Idle?
      && s' == s.(procs := s.procs[c := Proc(EnsureDir, ProcOf(s, c).drawn, reserve)])
    case Turn(c, draw) => CanAct(s, c, draw) && s' == Act(s, c, draw)
    case Release(c) =>
      && c.pid !in s.dead
      && s' == (if PcOf(s, c).Held? then GoTo(s, c, ReleaseRead(PcOf(s, c).claim)) else s)
    case Remove(c) =>
      && c.pid !in s.dead && PcOf(s, c).Held? && !PcOf(s, c).claim.removed
      && s' == GoTo(s.(machine := Absent), c, Held(PcOf(s, c).claim.(removed := true)))
    case MakeMachine => s' == (if s.machine.Absent? then s.(machine := Bare) else s)
    case Crash(pid) => s' == s.(dead := s.dead + {pid})
  }

  /** A run: any interleaving from the empty data directory. */
  predicate Run(ss: seq<State>, ls: seq<Label>) {
    && |ss| == |ls| + 1
    && Init(ss[0])
    && forall i {:trigger ls[i]} :: 0 <= i < |ls| ==> Next(ss[i], ls[i], ss[i + 1])
  }

  // ---- What the properties speak of ------------------------------------------------------

  /** Validated, marker not yet published, directory not removed by this holder. */
  predicate StandingPc(pc: Pc) {
    && (pc.CollectList? || pc.Collecting? || pc.Held? || pc.ReleaseRead? || pc.MarkTemp? || pc.MarkLink?)
    && !pc.claim.removed
  }

  predicate Standing(s: State, c: Contender) {
    c.pid !in s.dead && StandingPc(PcOf(s, c))
  }

  /** The highest record number of incarnation `id`, 0 when it has none. */
  function TopOf(m: Machine, id: Id): nat {
    if m.Locked? && Generations(m.lock, id) != {} then MaxOf(Generations(m.lock, id)) else 0
  }
}
