/**
 * The lock's code as it is written, loops, early returns and all, while other contenders move
 * between its calls. Whatever they do, it makes exactly the calls of the transition system; and
 * when nobody interferes, one pass of its loop is enough.
 */
module LockCode {
  import opened Prelude
  import opened LockModel
  import LockInvariant
  import LockSteps

  /** A record as it was read: gone, free to follow, or held by a live process. */
  datatype Inspection = Gone | Free(seen: Record) | Live(holder: Record)

  datatype Top = NoDirectory | NoRecord | Vanished | TopRecord(gen: nat, seen: Inspection)

  datatype LinkResult = Linked | Exists | DirectoryGone

  datatype CheckResult = Stands | Stale | CheckedNothing

  /** claim(): the lock, undefined, or the exception for a directory that is gone. */
  datatype ClaimResult = Won(claim: Claim) | Lost | ClaimMissing

  /** `Legacy` is an old lock file standing in the way, with its holder when that can be read. */
  datatype Outcome = Lock(claim: Claim) | Busy(holder: Record) | Missing | Legacy(claim: Claim, blocker: Option<Record>)

  // ---- What an uninterrupted call does to the directory ------------------------------------

  /** The machine directory once the lock directory is there and has an id. */
  function WithId(m: Machine, serial: nat, newId: Id): Machine {
    match m
    case Absent => Absent
    case Bare => Locked(LockDir(serial, Some(newId), map[]))
    case Locked(lock) => if lock.id.Some? then m else Locked(lock.(id := Some(newId)))
  }

  /** Without the records of one incarnation below a number. */
  function Collected(m: Machine, id: Id, keepFrom: nat): Machine {
    if m.Locked? then
      Locked(m.lock.(records := map n | n in m.lock.records && !(n.id == id && n.gen < keepFrom) :: m.lock.records[n]))
    else m
  }

  function WithRecord(m: Machine, n: Name, r: Record): Machine {
    if m.Locked? then Locked(m.lock.(records := m.lock.records[n := r])) else m
  }

  function TopRecordOf(m: Machine, id: Id): Option<Record> {
    ReadRecord(m, Name(id, TopOf(m, id)))
  }

  predicate TopIsFree(m: Machine, dead: set<Pid>, id: Id) {
    TopRecordOf(m, id).Some? ==> LockInvariant.Free(dead, TopRecordOf(m, id).value)
  }

  /** What a claim above the top would be. */
  function NextClaim(m: Machine, id: Id, c: Contender, drawn: nat, reserve: Option<Reservation>): Claim {
    Claim(id, TopOf(m, id) + 1, TopRecordOf(m, id), Record(c.pid, Token(c, drawn), false, reserve), false)
  }

  function AttemptOutcome(before: Machine, serial: nat, newId: Id, dead: set<Pid>, c: Contender, drawn: nat,
                          reserve: Option<Reservation>): Outcome
  {
    var m := WithId(before, serial, newId);
    if CurrentId(m).None? then Missing
    else
      var id := CurrentId(m).value;
      if TopIsFree(m, dead, id) then Lock(NextClaim(m, id, c, drawn, reserve)) else Busy(TopRecordOf(m, id).value)
  }

  /** The directory afterwards: with a free top, the claim is the only record of its incarnation. */
  function AttemptMachine(before: Machine, serial: nat, newId: Id, dead: set<Pid>, c: Contender, drawn: nat,
                          reserve: Option<Reservation>): Machine
  {
    var m := WithId(before, serial, newId);
    match AttemptOutcome(before, serial, newId, dead, c, drawn, reserve)
    case Lock(a) => Collected(WithRecord(m, Name(a.id, a.gen), a.mine), a.id, a.gen)
    case _ => m
  }

  /** With the released marker above the claim, unless that name is taken. */
  function WithMarker(m: Machine, a: Claim): Machine {
    if m.Locked? && Name(a.id, a.gen + 1) !in m.lock.records then
      WithRecord(m, Name(a.id, a.gen + 1), a.mine.(released := true, reserve := None))
    else m
  }

  // ---- What the others do ------------------------------------------------------------------

  /** The state after a step, when it can be taken. */
  function After(s: State, l: Label): State {
    match l
    case Begin(c, reserve) => s.(procs := s.procs[c := Proc(EnsureDir, ProcOf(s, c).drawn, reserve)])
    case Turn(c, draw) => Act(s, c, draw)
    case Release(c) => if PcOf(s, c).Held? then GoTo(s, c, ReleaseRead(PcOf(s, c).claim)) else s
    case Remove(c) =>
      if PcOf(s, c).Held? then GoTo(s.(machine := Absent), c, Held(PcOf(s, c).claim.(removed := true))) else s
    case MakeMachine => if s.machine.Absent? then s.(machine := Bare) else s
    case Crash(pid) => s.(dead := s.dead + {pid})
  }

  /** A step that is not this contender's, and does not stop its process. */
  predicate OfOthers(l: Label, c: Contender) {
    match l
    case Begin(b, _) => b != c
    case Turn(b, _) => b != c
    case Release(b) => b != c
    case Remove(b) => b != c
    case MakeMachine => true
    case Crash(pid) => pid != c.pid
  }

  lemma OthersLeaveMine(s: State, l: Label, c: Contender)
    requires OfOthers(l, c)
    ensures ProcOf(After(s, l), c) == ProcOf(s, c)
    ensures c.pid !in s.dead ==> c.pid !in After(s, l).dead
  {
  }

  /** One process's calls on one lock. */
  class Process {
    const c: Contender
    const reserve: Option<Reservation>
    const uuid: set<Id> -> Id
    var machine: Machine
    var serial: nat
    var dead: set<Pid>
    var drawn: nat
    var released: bool

    // What the others do before each of the next calls, and the transition system they move in.
    var script: seq<seq<Label>>
    var s: State
    ghost var states: seq<State>
    ghost var labels: seq<Label>

    /** The steps so far, this process's and the others', are steps of the transition system. */
    ghost predicate Traced()
      reads `s, `states, `labels
    {
      && |states| == |labels| + 1 && states[|labels|] == s
      && forall i {:trigger labels[i]} :: 0 <= i < |labels| ==> Next(states[i], labels[i], states[i + 1])
    }

    /** The fields agree with the transition system, in which this process is at `pc`. */
    ghost predicate At(pc: Pc)
      reads `machine, `serial, `dead, `drawn, `s, `states, `labels
    {
      && Traced() && s.machine == machine && s.serial == serial && s.dead == dead && c.pid !in dead
      && ProcOf(s, c) == Proc(pc, drawn, reserve)
      && forall ids :: uuid(ids) !in ids
    }

    /** A call of the lock begins, after any run of the system. */
    constructor (c: Contender, reserve: Option<Reservation>, uuid: set<Id> -> Id, now: State, script: seq<seq<Label>>,
                 ghost past: seq<State>, ghost steps: seq<Label>)
      requires Run(past, steps) && past[|steps|] == now && PcOf(now, c).Idle? && c.pid !in now.dead
      requires forall ids :: uuid(ids) !in ids
      ensures At(EnsureDir) && !released && this.c == c && this.reserve == reserve && this.uuid == uuid && this.script == script
      ensures states == past + [s] && labels == steps + [Begin(c, reserve)]
      ensures machine == now.machine && serial == now.serial && dead == now.dead && drawn == ProcOf(now, c).drawn
    {
      this.c, this.reserve, this.uuid, this.script := c, reserve, uuid, script;
      machine, serial, dead, drawn, released := now.machine, now.serial, now.dead, ProcOf(now, c).drawn, false;
      s := After(now, Begin(c, reserve));
      states := past + [After(now, Begin(c, reserve))];
      labels := steps + [Begin(c, reserve)];
      new;
      assert Next(now, Begin(c, reserve), s);
      forall i {:trigger labels[i]} | 0 <= i < |labels|
        ensures Next(states[i], labels[i], states[i + 1])
      {
        assert i < |steps| ==> Next(past[i], steps[i], past[i + 1]);
      }
    }

    /** One more step of the transition system. */
    method Took(l: Label, s': State)
      requires Traced() && Next(s, l, s')
      modifies `s, `states, `labels
      ensures Traced() && s == s' && old(states) <= states
    {
      s := s';
      states := states + [s'];
      labels := labels + [l];
    }

    method Turn(draw: nat)
      requires Traced() && CanAct(s, c, draw)
      modifies `s, `states, `labels
      ensures Traced() && s == Act(old(s), c, draw) && old(states) <= states
    {
      Took(LockModel.Turn(c, draw), Act(s, c, draw));
    }

    /** The next part of the script, as far as its steps can be taken. */
    method Others(ghost pc: Pc)
      requires At(pc)
      modifies `machine, `serial, `dead, `s, `states, `labels, `script
      ensures At(pc) && old(states) <= states
      ensures script == if old(script) == [] then [] else old(script)[1..]
      ensures old(script) == [] ==> machine == old(machine) && serial == old(serial) && dead == old(dead) && s == old(s)
    {
      if script == [] {
        return;
      }
      var steps := script[0];
      script := script[1..];
      for i := 0 to |steps|
        invariant Traced() && c.pid !in s.dead && ProcOf(s, c) == Proc(pc, drawn, reserve)
        invariant forall ids :: uuid(ids) !in ids
        invariant old(states) <= states && script == old(script)[1..]
      {
        if OfOthers(steps[i], c) && Next(s, steps[i], After(s, steps[i])) {
          OthersLeaveMine(s, steps[i], c);
          Took(steps[i], After(s, steps[i]));
        }
      }
      machine, serial, dead := s.machine, s.serial, s.dead;
    }

    /** Calls have been made: the run is longer, and a nonempty script shorter. */
    twostate predicate Continued()
      reads this
    {
      && old(states) <= states && released == old(released)
      && |script| <= |old(script)| && (old(script) != [] ==> |script| < |old(script)|)
    }

    method EnsureLockDir() returns (there: bool)
      requires At(EnsureDir)
      modifies this
      ensures Continued() && At(if there then ReadId else NotFound) && drawn == old(drawn)
      ensures old(script) == [] ==>
                && there == !old(machine).Absent? && dead == old(dead) && s.ids == old(s).ids
                && machine == if old(machine).Bare? then Locked(LockDir(old(serial), None, map[])) else old(machine)
    {
      hide Traced;
      Others(EnsureDir);
      there := !machine.Absent?;
      if machine.Bare? {
        machine := Locked(LockDir(serial, None, map[]));
        serial := serial + 1;
      }
      Turn(0);
    }

    /** linkNew for the id: a temp file, then an exclusive link. */
    method LinkId() returns (result: LinkResult)
      requires At(IdTemp)
      modifies this
      ensures Continued() && At(if result.DirectoryGone? then NotFound else IdReread) && drawn == old(drawn)
      ensures old(script) == [] ==>
                && (result.DirectoryGone? <==> !old(machine).Locked?) && dead == old(dead)
                && machine == if old(machine).Locked? then WithId(old(machine), 0, uuid(old(s).ids)) else old(machine)
    {
      var temp := WriteIdTemp();
      if temp.None? {
        return DirectoryGone;
      }
      result := PublishId(temp.value);
    }

    method WriteIdTemp() returns (temp: Option<nat>)
      requires At(IdTemp)
      modifies this
      ensures Continued() && At(if temp.Some? then IdLink(temp.value) else NotFound) && drawn == old(drawn)
      ensures old(script) == [] ==>
                && machine == old(machine) && dead == old(dead) && s.ids == old(s).ids
                && temp == if machine.Locked? then Some(machine.lock.serial) else None
    {
      hide Traced;
      Others(IdTemp);
      temp := if machine.Locked? then Some(machine.lock.serial) else None;
      Turn(0);
    }

    method PublishId(temp: nat) returns (result: LinkResult)
      requires At(IdLink(temp))
      modifies this
      ensures Continued() && At(if result.DirectoryGone? then NotFound else IdReread) && drawn == old(drawn)
      ensures old(script) == [] ==>
                && (result.DirectoryGone? <==> TempGone(old(machine), temp)) && dead == old(dead)
                && machine == if result.DirectoryGone? then old(machine) else WithId(old(machine), 0, uuid(old(s).ids))
    {
      hide Traced;
      Others(IdLink(temp));
      if TempGone(machine, temp) {
        result := DirectoryGone;
      } else if machine.lock.id.Some? {
        result := Exists;
      } else {
        result := Linked;
        machine := Locked(machine.lock.(id := Some(uuid(s.ids))));
      }
      Turn(uuid(s.ids));
    }

    /** Reads the id file, before there may be one and again after linking one. */
    method ReadIdFile(again: bool) returns (id: Option<Id>)
      requires At(if again then IdReread else ReadId)
      modifies this
      ensures Continued() && drawn == old(drawn)
      ensures At(if id.Some? then List(id.value) else if again then NotFound else IdTemp)
      ensures old(script) == [] ==>
                machine == old(machine) && dead == old(dead) && s.ids == old(s).ids && id == CurrentId(machine)
    {
      hide Traced;
      Others(if again then IdReread else ReadId);
      id := CurrentId(machine);
      Turn(0);
    }

    /** The id, published if there is none; none at all when the directory is gone. */
    method Incarnation() returns (id: Option<Id>)
      requires At(ReadId)
      modifies this
      ensures Continued() && At(if id.Some? then List(id.value) else NotFound) && drawn == old(drawn)
      ensures old(script) == [] ==>
                && (id.Some? <==> old(machine).Locked?) && dead == old(dead)
                && (id.Some? ==> machine == WithId(old(machine), 0, uuid(old(s).ids)) && id == CurrentId(machine))
                && (id.None? ==> machine == old(machine))
    {
      hide At;
      id := ReadIdFile(false);
      if id.None? {
        var result := LinkId();
        if !result.DirectoryGone? {
          id := ReadIdFile(true);
        }
      }
    }

    method Inspect(n: Name) returns (seen: Inspection)
      requires At(Pc.Inspect(n.id, n.gen))
      modifies this
      ensures Continued() && drawn == old(drawn)
      ensures match seen
              case Gone => At(ReadId)
              case Free(r) => At(ClaimTemp(n.id, n.gen + 1, Some(r))) && LockInvariant.Free(dead, r)
              case Live(r) => At(Refused(r)) && !r.released
      ensures old(script) == [] ==>
                && machine == old(machine) && dead == old(dead)
                && match ReadRecord(machine, n)
                   case None => seen.Gone?
                   case Some(r) => seen == if LockInvariant.Free(dead, r) then Free(r) else Live(r)
    {
      hide At;
      var r := ReadFile(n);
      if r.None? {
        return Gone;
      }
      if r.value.released {
        return Free(r.value);
      }
      var alive := IsAlive(n, r.value);
      return if alive then Live(r.value) else Free(r.value);
    }

    method ReadFile(n: Name) returns (r: Option<Record>)
      requires At(Pc.Inspect(n.id, n.gen))
      modifies this
      ensures Continued() && drawn == old(drawn)
      ensures At(if r.None? then ReadId
                 else if r.value.released then ClaimTemp(n.id, n.gen + 1, r) else TestPid(n.id, n.gen, r.value))
      ensures old(script) == [] ==> machine == old(machine) && dead == old(dead) && r == ReadRecord(machine, n)
    {
      hide Traced;
      Others(Pc.Inspect(n.id, n.gen));
      r := ReadRecord(machine, n);
      Turn(0);
    }

    method IsAlive(n: Name, r: Record) returns (alive: bool)
      requires At(TestPid(n.id, n.gen, r))
      modifies this
      ensures Continued() && drawn == old(drawn) && alive == (r.pid !in dead)
      ensures At(if alive then Refused(r) else ClaimTemp(n.id, n.gen + 1, Some(r)))
      ensures old(script) == [] ==> machine == old(machine) && dead == old(dead)
    {
      hide Traced;
      Others(TestPid(n.id, n.gen, r));
      alive := r.pid !in dead;
      Turn(0);
    }

    method ReadTop(id: Id) returns (top: Top)
      requires At(List(id))
      modifies this
      ensures Continued() && drawn == old(drawn)
      ensures match top
              case NoDirectory => At(NotFound)
              case NoRecord => At(ClaimTemp(id, 1, None))
              case Vanished => At(ReadId)
              case TopRecord(gen, Free(r)) => At(ClaimTemp(id, gen + 1, Some(r)))
              case TopRecord(_, Live(r)) => At(Refused(r))
              case TopRecord(_, Gone) => false
      ensures old(script) == [] && machine.Locked? ==> machine == old(machine) && dead == old(dead) && TopAlone(machine, dead, id, top)
      ensures old(script) == [] && !old(machine).Locked? ==> machine == old(machine) && top.NoDirectory?
      ensures old(script) == [] ==> machine == old(machine)
    {
      hide Traced;
      Others(List(id));
      if !machine.Locked? {
        Turn(0);
        return NoDirectory;
      }
      var gens := Generations(machine.lock, id);
      Turn(0);
      if gens == {} {
        return NoRecord;
      }
      var gen := MaxOf(gens);
      LockInvariant.GenerationNames(machine.lock, id, gen);
      var seen := Inspect(Name(id, gen));
      return if seen.Gone? then Vanished else TopRecord(gen, seen);
    }

    /** The temp file of a record, with a token that has not been drawn before. */
    method WriteTemp(id: Id, gen: nat, judged: Option<Record>) returns (a: Claim, temp: Option<nat>)
      requires At(ClaimTemp(id, gen, judged))
      modifies this
      ensures Continued()
      ensures a == Claim(id, gen, judged, Record(c.pid, Token(c, old(drawn)), false, reserve), false)
      ensures At(if temp.Some? then ClaimLink(a, temp.value) else NotFound)
      ensures old(script) == [] ==>
                && machine == old(machine) && dead == old(dead)
                && temp == if machine.Locked? then Some(machine.lock.serial) else None
    {
      hide Traced;
      Others(ClaimTemp(id, gen, judged));
      a := Claim(id, gen, judged, Record(c.pid, Token(c, drawn), false, reserve), false);
      if machine.Locked? {
        temp := Some(machine.lock.serial);
        drawn := drawn + 1;
      } else {
        temp := None;
      }
      Turn(0);
    }

    /** linkNew for the record above the one judged. */
    method LinkRecord(id: Id, gen: nat, judged: Option<Record>) returns (result: LinkResult, a: Claim)
      requires At(ClaimTemp(id, gen, judged))
      modifies this
      ensures Continued()
      ensures a == Claim(id, gen, judged, Record(c.pid, Token(c, old(drawn)), false, reserve), false)
      ensures At(match result
                 case Linked => Relist(a)
                 case Exists => ReadId
                 case DirectoryGone => NotFound)
      ensures old(script) == [] ==>
                && dead == old(dead) && (result.DirectoryGone? <==> !old(machine).Locked?)
                && (result.Linked? <==> old(machine).Locked? && Name(id, gen) !in old(machine).lock.records)
                && machine == if result.Linked? then WithRecord(old(machine), Name(id, gen), a.mine) else old(machine)
    {
      var temp;
      a, temp := WriteTemp(id, gen, judged);
      if temp.None? {
        return DirectoryGone, a;
      }
      result := LinkClaim(a, temp.value);
    }

    method LinkClaim(a: Claim, temp: nat) returns (result: LinkResult)
      requires At(ClaimLink(a, temp))
      modifies this
      ensures Continued()
      ensures At(match result
                 case Linked => Relist(a)
                 case Exists => ReadId
                 case DirectoryGone => NotFound)
      ensures old(script) == [] ==>
                && dead == old(dead) && (result.DirectoryGone? <==> TempGone(old(machine), temp))
                && (result.Linked? <==> !TempGone(old(machine), temp) && Name(a.id, a.gen) !in old(machine).lock.records)
                && machine == if result.Linked? then WithRecord(old(machine), Name(a.id, a.gen), a.mine) else old(machine)
    {
      hide Traced;
      Others(ClaimLink(a, temp));
      if TempGone(machine, temp) {
        result := DirectoryGone;
      } else if Name(a.id, a.gen) in machine.lock.records {
        result := Exists;
      } else {
        result := Linked;
        machine := WithRecord(machine, Name(a.id, a.gen), a.mine);
      }
      Turn(0);
    }

    method RelistTurn(a: Claim)
      requires At(Relist(a)) && machine.Locked?
      modifies `s, `states, `labels
      ensures var gens := Generations(machine.lock, a.id);
              var isTop := forall g :: g in gens ==> g <= a.gen;
              At(if a.judged.Some? then RereadPred(a, isTop)
                 else if isTop && a.gen == 1 && |gens| == 1 then RereadId(a) else Pc.Reject(a))
      ensures old(states) <= states
    {
      Turn(0);
    }

    method RereadPredTurn(a: Claim, isTop: bool)
      requires At(RereadPred(a, isTop))
      modifies `s, `states, `labels
      ensures At(if isTop && 0 < a.gen && ReadRecord(machine, Name(a.id, a.gen - 1)) == a.judged then RereadId(a)
                 else Pc.Reject(a))
      ensures old(states) <= states
    {
      Turn(0);
    }

    method RereadIdTurn(a: Claim)
      requires At(RereadId(a))
      modifies `s, `states, `labels
      ensures At(if CurrentId(machine) == Some(a.id) then CollectList(a, false) else Pc.Reject(a))
      ensures old(states) <= states
    {
      Turn(0);
    }

    method NoDirectoryTurn(a: Claim)
      requires At(Relist(a)) && !machine.Locked?
      modifies `s, `states, `labels
      ensures At(NotFound) && old(states) <= states
    {
      Turn(0);
    }

    /** Still the top, still behind the record judged, still the same incarnation: three reads,
        each of what is there when it is made. */
    method Check(a: Claim) returns (result: CheckResult)
      requires At(Relist(a))
      modifies this
      ensures Continued() && drawn == old(drawn)
      ensures At(match result
                 case Stands => CollectList(a, false)
                 case Stale => Pc.Reject(a)
                 case CheckedNothing => NotFound)
      ensures old(script) == [] ==>
                && machine == old(machine) && dead == old(dead)
                && (result.Stands? <==> Checked(machine, a)) && (result.CheckedNothing? <==> !machine.Locked?)
    {
      hide At;
      Others(Relist(a));
      if !machine.Locked? {
        NoDirectoryTurn(a);
        return CheckedNothing;
      }
      var gens := Generations(machine.lock, a.id);
      var isTop := forall g :: g in gens ==> g <= a.gen;
      RelistTurn(a);
      var followsJudged := a.gen == 1 && |gens| == 1;
      if a.judged.Some? {
        Others(RereadPred(a, isTop));
        followsJudged := 0 < a.gen && ReadRecord(machine, Name(a.id, a.gen - 1)) == a.judged;
        RereadPredTurn(a, isTop);
      }
      if !isTop || !followsJudged {
        return Stale;
      }
      Others(RereadId(a));
      result := if CurrentId(machine) == Some(a.id) then Stands else Stale;
      RereadIdTurn(a);
    }

    /** The listing that `collect` goes through. */
    method ListTurn(a: Claim, releasing: bool)
      requires At(CollectList(a, releasing))
      modifies `s, `states, `labels
      ensures At(if machine.Locked? then Collecting(a, Below(Generations(machine.lock, a.id), a.gen), releasing)
                 else AfterCollect(a, releasing))
      ensures old(states) <= states
    {
      Turn(0);
    }

    /** One unlink of `collect`. */
    method UnlinkRecord(a: Claim, todo: set<nat>, releasing: bool, gen: nat)
      requires At(Collecting(a, todo, releasing)) && gen in todo
      modifies this
      ensures Continued() && At(Collecting(a, todo - {gen}, releasing)) && drawn == old(drawn)
      ensures old(script) == [] ==> machine == Unlink(old(machine), Name(a.id, gen)) && dead == old(dead)
    {
      hide Traced;
      Others(Collecting(a, todo, releasing));
      machine := Unlink(machine, Name(a.id, gen));
      Turn(gen);
    }

    method CollectedTurn(a: Claim, releasing: bool)
      requires At(Collecting(a, {}, releasing))
      modifies `s, `states, `labels
      ensures At(AfterCollect(a, releasing)) && old(states) <= states
    {
      Turn(0);
    }

    /** Deletes the records below the claim that were listed, in whatever order. */
    method Collect(a: Claim, releasing: bool)
      requires At(CollectList(a, releasing))
      modifies this
      ensures Continued() && At(AfterCollect(a, releasing)) && drawn == old(drawn)
      ensures old(script) == [] ==> machine == Collected(old(machine), a.id, a.gen) && dead == old(dead)
    {
      hide At;
      Others(CollectList(a, releasing));
      ghost var listed := machine;
      ListTurn(a, releasing);
      if !machine.Locked? {
        return;
      }
      var left := Generations(machine.lock, a.id);
      ghost var gens := left;
      NoneCollected(listed, a.id, a.gen);
      while left != {}
        invariant left <= gens && listed.Locked? && drawn == old(drawn) && Continued()
        invariant At(Collecting(a, Below(left, a.gen), releasing))
        invariant old(script) == [] ==> machine == PartCollected(listed, a.id, a.gen, gens - left) && dead == old(dead)
        decreases left
      {
        var gen :| gen in left;
        OneCollected(listed, a.id, a.gen, gens - left, gen);
        assert gens - (left - {gen}) == gens - left + {gen};
        if gen < a.gen {
          UnlinkRecord(a, Below(left, a.gen), releasing, gen);
          assert Below(left, a.gen) - {gen} == Below(left - {gen}, a.gen);
        } else {
          assert Below(left, a.gen) == Below(left - {gen}, a.gen);
        }
        left := left - {gen};
      }
      assert Below(left, a.gen) == {};
      CollectedTurn(a, releasing);
      AllCollected(listed, a.id, a.gen);
      assert gens - left == gens;
    }

    /** A claim that does not stand takes its own record back. */
    method TakeBack(a: Claim)
      requires At(Pc.Reject(a))
      modifies this
      ensures Continued() && At(ReadId) && drawn == old(drawn)
      ensures old(script) == [] ==>
                && dead == old(dead)
                && machine == if old(machine).Locked? then
                                Locked(old(machine).lock.(records := old(machine).lock.records - {Name(a.id, a.gen)}))
                              else old(machine)
    {
      hide Traced;
      Others(Pc.Reject(a));
      machine := Unlink(machine, Name(a.id, a.gen));
      Turn(0);
    }

    /** Publish the record above the one judged, check it, and clean up below it; or take it back. */
    method MakeClaim(id: Id, gen: nat, judged: Option<Record>) returns (result: ClaimResult)
      requires At(ClaimTemp(id, gen, judged))
      modifies this
      ensures Continued()
      ensures At(match result
                 case Won(a) => Held(a)
                 case Lost => ReadId
                 case ClaimMissing => NotFound)
      ensures result.Won? ==> result.claim == Claim(id, gen, judged, Record(c.pid, Token(c, old(drawn)), false, reserve), false)
      ensures old(script) == [] && old(machine).Locked? && Follows(old(machine), id, gen, judged) ==>
                && result.Won? && dead == old(dead)
                && machine == Collected(WithRecord(old(machine), Name(id, gen), result.claim.mine), id, gen)
      ensures old(script) == [] && !old(machine).Locked? ==> result.ClaimMissing?
    {
      hide At;
      ghost var before := machine;
      var linked, a := LinkRecord(id, gen, judged);
      if linked.Exists? {
        if old(script) == [] && before.Locked? && Follows(before, id, gen, judged) {
          NotYetThere(before.lock, id, gen);
        }
        return Lost;
      }
      if linked.DirectoryGone? {
        return ClaimMissing;
      }
      if old(script) == [] && before.Locked? && Follows(before, id, gen, judged) {
        NowChecked(before.lock, id, a, machine);
      }
      var checked := Check(a);
      if checked.CheckedNothing? {
        return ClaimMissing;
      }
      if checked.Stale? {
        TakeBack(a);
        return Lost;
      }
      Collect(a, false);
      return Won(a);
    }

    /** One attempt: it goes round again as long as the top vanishes or the claim is lost. Both
        need somebody else to move, so the loop ends when the script does. A legacy lock file in
        the way gives the lock back. */
    method Attempt(legacy: Option<Option<Record>>) returns (outcome: Outcome)
      requires At(EnsureDir) && !released
      modifies this
      ensures old(states) <= states
      ensures At(match outcome
                 case Missing => NotFound
                 case Busy(r) => Refused(r)
                 case Lock(a) => Held(a)
                 case Legacy(a, _) => Done(a))
      ensures outcome.Legacy? ==> legacy == Some(outcome.blocker)
      ensures outcome.Lock? ==> legacy.None? && !outcome.claim.removed
      ensures old(script) == [] && legacy.None? ==>
                && outcome == AttemptOutcome(old(machine), old(serial), uuid(old(s).ids), old(dead), c, old(drawn), reserve)
                && machine == AttemptMachine(old(machine), old(serial), uuid(old(s).ids), old(dead), c, old(drawn), reserve)
    {
      hide At;
      ghost var alone := script == [] && legacy.None?;
      var there := EnsureLockDir();
      if !there {
        return Missing;
      }
      ghost var ready, ids := machine, s.ids;
      while true
        invariant At(ReadId) && old(states) <= states && !released
        invariant alone ==> script == [] && machine == ready && s.ids == ids && dead == old(dead) && drawn == old(drawn)
        decreases |script|
      {
        var id := Incarnation();
        if id.None? {
          return Missing;
        }
        ghost var named := machine;
        var top := ReadTop(id.value);
        if top.NoDirectory? {
          return Missing;
        }
        if top.TopRecord? && top.seen.Live? {
          return Busy(top.seen.holder);
        }
        if !top.Vanished? {
          if machine.Locked? {
            NoTopWhenEmpty(machine, id.value);
          }
          var judged := if top.TopRecord? then Some(top.seen.seen) else None;
          var result := MakeClaim(id.value, if top.TopRecord? then top.gen + 1 else 1, judged);
          match result {
            case ClaimMissing =>
              return Missing;
            case Won(a) =>
              if legacy.None? {
                return Lock(a);
              }
              Release(a);
              return Legacy(a, legacy.value);
            case Lost =>
          }
        }
      }
    }

    method ReleaseTurn(a: Claim)
      requires At(Held(a))
      modifies `s, `states, `labels
      ensures At(ReleaseRead(a)) && old(states) <= states
    {
      Took(LockModel.Release(c), GoTo(s, c, ReleaseRead(a)));
    }

    method ReleaseReadTurn(a: Claim)
      requires At(ReleaseRead(a))
      modifies `s, `states, `labels
      ensures At(if ReadRecord(machine, Name(a.id, a.gen)) == Some(a.mine) then CollectList(a, true) else Done(a))
      ensures old(states) <= states
    {
      Turn(0);
    }

    /** linkNew for the released marker; a record already there means another has taken over, and
        a directory that is gone that nothing is left to release. */
    method LinkMarker(a: Claim)
      requires At(MarkTemp(a))
      modifies this
      ensures Continued() && At(Done(a)) && drawn == old(drawn)
      ensures old(script) == [] ==> machine == WithMarker(old(machine), a)
    {
      hide Traced;
      Others(MarkTemp(a));
      var temp := if machine.Locked? then Some(machine.lock.serial) else None;
      Turn(0);
      if temp.Some? {
        PublishMarker(a, temp.value);
      }
    }

    method PublishMarker(a: Claim, temp: nat)
      requires At(MarkLink(a, temp))
      modifies this
      ensures Continued() && At(Done(a)) && drawn == old(drawn)
      ensures old(script) == [] && !TempGone(old(machine), temp) ==> machine == WithMarker(old(machine), a)
    {
      hide Traced;
      Others(MarkLink(a, temp));
      if !TempGone(machine, temp) {
        machine := WithMarker(machine, a);
      }
      Turn(0);
    }

    /** The first call gives the lock back; a later one, or one after the directory has gone or
        been replaced, changes nothing. */
    method Release(a: Claim)
      requires !released ==> At(Held(a))
      modifies this
      ensures released && old(states) <= states
      ensures old(released) ==> machine == old(machine) && s == old(s)
      ensures !old(released) ==> At(Done(a))
      ensures !old(released) && old(script) == [] ==>
                machine == if ReadRecord(old(machine), Name(a.id, a.gen)) == Some(a.mine)
                           then WithMarker(Collected(old(machine), a.id, a.gen), a) else old(machine)
    {
      hide At;
      if released {
        return;
      }
      released := true;
      ReleaseTurn(a);
      Others(ReleaseRead(a));
      var own := ReadRecord(machine, Name(a.id, a.gen));
      ReleaseReadTurn(a);
      if own != Some(a.mine) {
        return;
      }
      Collect(a, true);
      LinkMarker(a);
    }
  }

  /** What a claim is checked for once its record is published. */
  predicate Checked(m: Machine, a: Claim) {
    && m.Locked?
    && (forall g :: g in Generations(m.lock, a.id) ==> g <= a.gen)
    && (if a.judged.Some? then 0 < a.gen && ReadRecord(m, Name(a.id, a.gen - 1)) == a.judged
        else a.gen == 1 && |Generations(m.lock, a.id)| == 1)
    && CurrentId(m) == Some(a.id)
  }

  /** The claim above is the next one, and judged the record that is the top, or none. */
  predicate Follows(m: Machine, id: Id, gen: nat, judged: Option<Record>)
    requires m.Locked?
  {
    && m.lock.id == Some(id) && gen == TopOf(m, id) + 1
    && if judged.None? then Generations(m.lock, id) == {} else TopRecordOf(m, id) == judged
  }

  /** What reading the top finds when nobody moves. */
  predicate TopAlone(m: Machine, dead: set<Pid>, id: Id, top: Top)
    requires m.Locked?
  {
    if Generations(m.lock, id) == {} then top.NoRecord?
    else
      var r := TopRecordOf(m, id);
      r.Some? && top == TopRecord(TopOf(m, id), if LockInvariant.Free(dead, r.value) then Free(r.value) else Live(r.value))
  }

  lemma NowChecked(before: LockDir, id: Id, a: Claim, after: Machine)
    requires before.id == Some(id) && a.id == id && a.gen == TopOf(Locked(before), id) + 1
    requires if a.judged.None? then Generations(before, id) == {} else TopRecordOf(Locked(before), id) == a.judged
    requires after == WithRecord(Locked(before), Name(id, a.gen), a.mine)
    ensures Checked(after, a)
  {
    NowOnTop(before, after.lock, id, a.gen, a.mine);
  }

  function Below(gens: set<nat>, keepFrom: nat): set<nat> {
    set g | g in gens && g < keepFrom
  }

  /** Without the records of `done` below `keepFrom`. */
  function PartCollected(m: Machine, id: Id, keepFrom: nat, done: set<nat>): Machine {
    if m.Locked? then
      Locked(m.lock.(records := map n | n in m.lock.records && !(n.id == id && n.gen < keepFrom && n.gen in done)
                                     :: m.lock.records[n]))
    else m
  }

  lemma NoneCollected(m: Machine, id: Id, keepFrom: nat)
    ensures PartCollected(m, id, keepFrom, {}) == m
  {
    if m.Locked? {
      assert PartCollected(m, id, keepFrom, {}).lock.records == m.lock.records;
    }
  }

  lemma OneCollected(m: Machine, id: Id, keepFrom: nat, done: set<nat>, gen: nat)
    ensures PartCollected(m, id, keepFrom, done + {gen})
            == if gen < keepFrom then Unlink(PartCollected(m, id, keepFrom, done), Name(id, gen))
               else PartCollected(m, id, keepFrom, done)
  {
    if m.Locked? {
      var before, after := PartCollected(m, id, keepFrom, done), PartCollected(m, id, keepFrom, done + {gen});
      if gen < keepFrom {
        assert after.lock.records == before.lock.records - {Name(id, gen)};
      } else {
        assert after.lock.records == before.lock.records;
      }
    }
  }

  lemma AllCollected(m: Machine, id: Id, keepFrom: nat)
    ensures m.Locked? ==> PartCollected(m, id, keepFrom, Generations(m.lock, id)) == Collected(m, id, keepFrom)
  {
    if m.Locked? {
      forall n | n in m.lock.records && n.id == id
        ensures n.gen in Generations(m.lock, id)
      {
        LockInvariant.GenerationNames(m.lock, id, n.gen);
      }
      assert PartCollected(m, id, keepFrom, Generations(m.lock, id)).lock.records == Collected(m, id, keepFrom).lock.records;
    }
  }

  lemma NoTopWhenEmpty(m: Machine, id: Id)
    requires m.Locked?
    ensures Generations(m.lock, id) == {} ==> TopOf(m, id) == 0 && TopRecordOf(m, id).None?
  {
    LockInvariant.GenerationNames(m.lock, id, 0);
  }

  lemma NotYetThere(lock: LockDir, id: Id, gen: nat)
    requires gen == TopOf(Locked(lock), id) + 1
    ensures Name(id, gen) !in lock.records
  {
    LockInvariant.GenerationNames(lock, id, gen);
  }

  lemma NowOnTop(before: LockDir, lock: LockDir, id: Id, gen: nat, mine: Record)
    requires gen == TopOf(Locked(before), id) + 1
    requires lock == before.(records := before.records[Name(id, gen) := mine])
    ensures Generations(lock, id) == Generations(before, id) + {gen}
    ensures forall g :: g in Generations(lock, id) ==> g <= gen
    ensures Generations(before, id) == {} ==> gen == 1 && |Generations(lock, id)| == 1
  {
    forall g
      ensures g in Generations(lock, id) <==> g in Generations(before, id) + {gen}
    {
      LockInvariant.GenerationNames(lock, id, g);
      LockInvariant.GenerationNames(before, id, g);
    }
  }

  /** A record put above all others of the incarnation is its top, collected or not. */
  lemma NewTop(m: Machine, id: Id, gen: nat, r: Record, keepFrom: nat)
    requires m.Locked? && TopOf(m, id) < gen && keepFrom <= gen
    ensures var after := Collected(WithRecord(m, Name(id, gen), r), id, keepFrom);
            TopOf(after, id) == gen && TopRecordOf(after, id) == Some(r) && CurrentId(after) == CurrentId(m)
  {
    var after := Collected(WithRecord(m, Name(id, gen), r), id, keepFrom);
    LockInvariant.GenerationNames(after.lock, id, gen);
    forall g | g in Generations(after.lock, id)
      ensures g <= gen
    {
      LockInvariant.GenerationNames(after.lock, id, g);
      LockInvariant.GenerationNames(m.lock, id, g);
    }
  }

  /** After a lock is taken, any other attempt is refused with its record, for as long as its
      process lives; once the process is dead, the next attempt takes the lock over. */
  lemma TakenIsBusyUntilDead(before: Machine, serial: nat, newId: Id, dead: set<Pid>, c: Contender, drawn: nat,
                             reserve: Option<Reservation>, later: set<Pid>, b: Contender, other: nat,
                             wanted: Option<Reservation>)
    requires AttemptOutcome(before, serial, newId, dead, c, drawn, reserve).Lock?
    ensures var a := AttemptOutcome(before, serial, newId, dead, c, drawn, reserve).claim;
            var after := AttemptMachine(before, serial, newId, dead, c, drawn, reserve);
            var next := AttemptOutcome(after, serial, newId, later, b, other, wanted);
            if c.pid in later then next == Lock(NextClaim(after, a.id, b, other, wanted)) && next.claim.gen == a.gen + 1
            else next == Busy(a.mine)
  {
    var m := WithId(before, serial, newId);
    var a := AttemptOutcome(before, serial, newId, dead, c, drawn, reserve).claim;
    NewTop(m, a.id, a.gen, a.mine, a.gen);
  }

  /** Once it has been released, the next attempt takes it, two numbers up. */
  lemma ReleasedIsFree(before: Machine, serial: nat, newId: Id, dead: set<Pid>, c: Contender, drawn: nat,
                       reserve: Option<Reservation>, later: set<Pid>, b: Contender, other: nat, wanted: Option<Reservation>)
    requires AttemptOutcome(before, serial, newId, dead, c, drawn, reserve).Lock?
    ensures var a := AttemptOutcome(before, serial, newId, dead, c, drawn, reserve).claim;
            var taken := AttemptMachine(before, serial, newId, dead, c, drawn, reserve);
            var freed := WithMarker(Collected(taken, a.id, a.gen), a);
            var next := AttemptOutcome(freed, serial, newId, later, b, other, wanted);
            next == Lock(NextClaim(freed, a.id, b, other, wanted)) && next.claim.gen == a.gen + 2
  {
    var m := WithId(before, serial, newId);
    var a := AttemptOutcome(before, serial, newId, dead, c, drawn, reserve).claim;
    var taken := AttemptMachine(before, serial, newId, dead, c, drawn, reserve);
    NewTop(m, a.id, a.gen, a.mine, a.gen);
    assert Collected(taken, a.id, a.gen).lock.records == taken.lock.records;
    assert Collected(taken, a.id, a.gen) == taken;
    NotYetThere(taken.lock, a.id, a.gen + 1);
    NewTop(taken, a.id, a.gen + 1, a.mine.(released := true, reserve := None), 0);
    var freed := WithMarker(taken, a);
    assert Collected(freed, a.id, 0).lock.records == freed.lock.records;
    assert Collected(freed, a.id, 0) == freed;
  }

  lemma {:induction false} StatesKeepInv(states: seq<State>, labels: seq<Label>, i: nat)
    requires |states| == |labels| + 1 && i < |states| && LockInvariant.Inv(states[0])
    requires forall k {:trigger labels[k]} :: 0 <= k < |labels| ==> Next(states[k], labels[k], states[k + 1])
    ensures LockInvariant.Inv(states[i])
  {
    if i > 0 {
      StatesKeepInv(states, labels, i - 1);
      assert Next(states[i - 1], labels[i - 1], states[i]);
      LockSteps.StepKeepsInv(states[i - 1], labels[i - 1], states[i]);
    }
  }

  /** Whatever the others did between its calls: a process whose attempt returned a lock, and that
      has not moved the directory away, is the only one that stands. */
  lemma HeldIsExclusive(p: Process, a: Claim, b: Contender)
    requires p.At(Held(a)) && !a.removed && LockInvariant.Inv(p.states[0])
    requires Standing(p.s, b)
    ensures Standing(p.s, p.c) && b == p.c
  {
    StatesKeepInv(p.states, p.labels, |p.labels|);
    LockSteps.Exclusive(p.s, p.c, b);
  }

  /** One attempt after any run of the system, whatever the others do between its calls: the lock,
      with nobody else standing, or the reason that there is none. */
  method AcquireLockNow(c: Contender, reserve: Option<Reservation>, uuid: set<Id> -> Id, now: State, script: seq<seq<Label>>,
                        legacy: Option<Option<Record>>, ghost past: seq<State>, ghost steps: seq<Label>)
    returns (p: Process, outcome: Outcome)
    requires Run(past, steps) && past[|steps|] == now && PcOf(now, c).Idle? && c.pid !in now.dead
    requires forall ids :: uuid(ids) !in ids
    ensures fresh(p) && p.c == c && past <= p.states
    ensures p.At(match outcome
                 case Missing => NotFound
                 case Busy(r) => Refused(r)
                 case Lock(a) => Held(a)
                 case Legacy(a, _) => Done(a))
    ensures outcome.Lock? ==> forall b :: Standing(p.s, b) <==> b == c
  {
    p := new Process(c, reserve, uuid, now, script, past, steps);
    ghost var start := p.states;
    assert LockInvariant.Inv(start[0]) by {
      LockSteps.RunKeepsInv(past, steps, 0);
    }
    outcome := p.Attempt(legacy);
    if outcome.Lock? {
      assert Standing(p.s, c);
      forall b | Standing(p.s, b)
        ensures b == c
      {
        HeldIsExclusive(p, outcome.claim, b);
      }
    }
  }
}
