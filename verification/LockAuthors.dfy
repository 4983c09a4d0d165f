/**
 * Whose records are in the directory: a live contender has none there but the one it is checking,
 * taking back or standing on, and its released marker.
 */
module LockAuthors {
  import opened Prelude
  import opened LockModel
  import opened LockInvariant
  import opened LockSteps

  function Files(m: Machine): map<Name, Record> {
    if m.Locked? then m.lock.records else map[]
  }

  /** A contender that has published its claim, and has not taken it back. */
  predicate HasPublished(pc: Pc) {
    || pc.Relist? || pc.RereadPred? || pc.RereadId? || pc.Reject?
    || pc.CollectList? || pc.Collecting? || pc.Held? || pc.ReleaseRead? || pc.MarkTemp? || pc.MarkLink? || pc.Done?
  }

  /** The record is the claim's own, or the marker that says that its holder has let go. */
  predicate IsOf(n: Name, r: Record, pc: Pc) {
    HasPublished(pc)
    && (|| (n == Name(pc.claim.id, pc.claim.gen) && r == pc.claim.mine)
        || (pc.Done? && n == Name(pc.claim.id, pc.claim.gen + 1)
            && r == Record(pc.claim.mine.pid, pc.claim.mine.token, true, None)))
  }

  ghost predicate Owned(s: State) {
    forall n :: n in Files(s.machine) && Live(s, Files(s.machine)[n].token.author) ==>
      IsOf(n, Files(s.machine)[n], PcOf(s, Files(s.machine)[n].token.author))
  }

  /** Whoever wrote a record is a contender of this lock. */
  predicate Known(s: State) {
    forall n :: n in Files(s.machine) ==> Files(s.machine)[n].token.author in s.procs
  }

  /** A record that says released reserves nothing. */
  predicate MarkersBare(s: State) {
    forall n :: n in Files(s.machine) && Files(s.machine)[n].released ==> Files(s.machine)[n].reserve.None?
  }

  ghost predicate AuthorInv(s: State) {
    Inv(s) && Owned(s) && Known(s) && MarkersBare(s)
  }

  /** What a step by `c` may do to the records: drop some, and add one of its own. */
  ghost predicate OwnFiles(s: State, c: Contender, s': State) {
    && (forall n :: n in Files(s'.machine) && Files(s'.machine)[n].token.author != c ==>
          n in Files(s.machine) && Files(s'.machine)[n] == Files(s.machine)[n])
    && (forall n :: n in Files(s'.machine) && Files(s'.machine)[n].token.author == c ==>
          c in s'.procs && (Live(s', c) ==> IsOf(n, Files(s'.machine)[n], PcOf(s', c)))
          && (Files(s'.machine)[n].released ==> Files(s'.machine)[n].reserve.None?))
  }

  lemma OwnStepKeeps(s: State, c: Contender, s': State)
    requires Owned(s) && Known(s) && MarkersBare(s) && OwnFiles(s, c, s') && s.dead <= s'.dead && s.procs.Keys <= s'.procs.Keys
    requires forall b :: b != c ==> ProcOf(s', b) == ProcOf(s, b)
    ensures Owned(s') && Known(s') && MarkersBare(s')
  {
    hide IsOf;
  }

  lemma TurnKeepsContenders(s: State, c: Contender, draw: nat)
    ensures Act(s, c, draw).dead == s.dead && s.procs.Keys <= Act(s, c, draw).procs.Keys
  {
    hide Generations, MaxOf, ReadRecord, TempGone, Unlink;
  }

  /** What the actor's own records are after its turn. */
  lemma TurnFiles(s: State, c: Contender, draw: nat)
    requires Inv(s) && Owned(s) && MarkersBare(s) && CanAct(s, c, draw)
    ensures OwnFiles(s, c, Act(s, c, draw))
  {
    var pc := PcOf(s, c);
    assert Shape(s.ids, c, pc);
    hide Inv;
    if !HasPublished(pc) {
      FirstTurns(s, c, draw);
    } else if pc.Reject? {
      RejectTurn(s, c, draw);
    } else if pc.MarkLink? {
      MarkTurn(s, c, draw);
    } else {
      LaterTurns(s, c, draw);
    }
  }

  lemma FirstTurns(s: State, c: Contender, draw: nat)
    requires Owned(s) && CanAct(s, c, draw) && !HasPublished(PcOf(s, c)) && Shape(s.ids, c, PcOf(s, c))
    ensures OwnFiles(s, c, Act(s, c, draw))
  {
    hide Shape, IsOf;
    assert Live(s, c);
    NotYetPublished(s, c);
    if PcOf(s, c).ClaimLink? {
      LinkTurn(s, c, draw);
    } else {
      NoNewFile(s, c, draw);
    }
  }

  lemma NotYetPublished(s: State, c: Contender)
    requires Owned(s) && Live(s, c) && !HasPublished(PcOf(s, c))
    ensures forall n :: n in Files(s.machine) ==> Files(s.machine)[n].token.author != c
  {
  }

  lemma NoNewFile(s: State, c: Contender, draw: nat)
    requires CanAct(s, c, draw) && !HasPublished(PcOf(s, c)) && !PcOf(s, c).ClaimLink?
    ensures Files(Act(s, c, draw).machine) == Files(s.machine)
  {
    hide Generations, MaxOf, ReadRecord;
  }

  lemma LinkTurn(s: State, c: Contender, draw: nat)
    requires CanAct(s, c, draw) && PcOf(s, c).ClaimLink? && Shape(s.ids, c, PcOf(s, c))
    requires forall n :: n in Files(s.machine) ==> Files(s.machine)[n].token.author != c
    ensures OwnFiles(s, c, Act(s, c, draw))
  {
    var a := PcOf(s, c).claim;
    var s' := Act(s, c, draw);
    if Files(s'.machine) != Files(s.machine) {
      assert Files(s'.machine) == Files(s.machine)[Name(a.id, a.gen) := a.mine] && PcOf(s', c) == Relist(a);
    }
  }

  lemma RejectTurn(s: State, c: Contender, draw: nat)
    requires Owned(s) && CanAct(s, c, draw) && PcOf(s, c).Reject?
    ensures OwnFiles(s, c, Act(s, c, draw))
  {
    var s' := Act(s, c, draw);
    forall n | n in Files(s'.machine)
      ensures n in Files(s.machine) && Files(s'.machine)[n] == Files(s.machine)[n] && Files(s.machine)[n].token.author != c
    {
      assert n in Files(s.machine) && n != Name(PcOf(s, c).claim.id, PcOf(s, c).claim.gen);
      assert Live(s, c);
    }
  }

  lemma MarkTurn(s: State, c: Contender, draw: nat)
    requires Owned(s) && MarkersBare(s) && CanAct(s, c, draw) && PcOf(s, c).MarkLink? && Shape(s.ids, c, PcOf(s, c))
    ensures OwnFiles(s, c, Act(s, c, draw))
  {
    var s', a := Act(s, c, draw), PcOf(s, c).claim;
    assert Live(s, c) && PcOf(s', c) == Done(a);
    forall n | n in Files(s'.machine) && n != Name(a.id, a.gen + 1)
      ensures n in Files(s.machine) && Files(s'.machine)[n] == Files(s.machine)[n]
    {
    }
  }

  lemma LaterTurns(s: State, c: Contender, draw: nat)
    requires Owned(s) && MarkersBare(s) && CanAct(s, c, draw)
    requires HasPublished(PcOf(s, c)) && !PcOf(s, c).Reject? && !PcOf(s, c).MarkLink?
    ensures OwnFiles(s, c, Act(s, c, draw))
  {
    hide Generations, MaxOf, ReadRecord;
    var s' := Act(s, c, draw);
    assert Live(s, c);
    assert Files(s'.machine) != map[] ==> HasPublished(PcOf(s', c)) && PcOf(s', c).claim == PcOf(s, c).claim;
    forall n | n in Files(s'.machine)
      ensures n in Files(s.machine) && Files(s'.machine)[n] == Files(s.machine)[n]
    {
    }
  }

  lemma StepKeepsAuthors(s: State, l: Label, s': State)
    requires AuthorInv(s) && Next(s, l, s')
    ensures AuthorInv(s')
  {
    StepKeepsInv(s, l, s');
    match l {
      case Turn(c, draw) => {
        hide Act;
        TurnFiles(s, c, draw);
        TurnKeepsContenders(s, c, draw);
        forall b | b != c
          ensures ProcOf(s', b) == ProcOf(s, b)
        {
          OthersStay(s, c, draw, b);
        }
        hide Inv, OwnFiles, Owned, Known, MarkersBare;
        OwnStepKeeps(s, c, s');
      }
      case _ => CallerKeeps(s, l, s');
    }
  }

  lemma CallerKeeps(s: State, l: Label, s': State)
    requires Owned(s) && Known(s) && MarkersBare(s) && Next(s, l, s') && !l.Turn?
    ensures Owned(s') && Known(s') && MarkersBare(s')
  {
    hide Act;
  }

  lemma InitAuthors(s: State)
    requires Init(s)
    ensures AuthorInv(s)
  {
  }

  lemma {:induction false} RunKeepsAuthors(ss: seq<State>, ls: seq<Label>, i: nat)
    requires Run(ss, ls) && i < |ss|
    ensures AuthorInv(ss[i])
  {
    hide AuthorInv, Init, Next;
    if i == 0 {
      InitAuthors(ss[0]);
    } else {
      RunKeepsAuthors(ss, ls, i - 1);
      assert Next(ss[i - 1], ls[i - 1], ss[i]);
      StepKeepsAuthors(ss[i - 1], ls[i - 1], ss[i]);
    }
  }

  /** In every reachable state, a record whose author's process lives is the claim that the author
      has linked and is checking, is taking back, stands on or has stood on, or its marker. */
  lemma LiveRecordsAreOwned(ss: seq<State>, ls: seq<Label>, i: nat, n: Name)
    requires Run(ss, ls) && i < |ss| && ss[i].machine.Locked? && n in ss[i].machine.lock.records
    requires ss[i].machine.lock.records[n].token.author.pid !in ss[i].dead
    ensures IsOf(n, ss[i].machine.lock.records[n], PcOf(ss[i], ss[i].machine.lock.records[n].token.author))
  {
    RunKeepsAuthors(ss, ls, i);
    assert n in Files(ss[i].machine);
    hide Inv, IsOf;
  }

  /** So a live contender that is not yet past its link, or looks again after a claim that was
      turned away, or was refused, has no record in the directory. */
  lemma NothingLeftBehind(ss: seq<State>, ls: seq<Label>, i: nat, c: Contender, n: Name)
    requires Run(ss, ls) && i < |ss| && c.pid !in ss[i].dead
    requires var pc := PcOf(ss[i], c);
             pc.Idle? || pc.EnsureDir? || pc.ReadId? || pc.IdTemp? || pc.IdLink? || pc.IdReread? || pc.List? || pc.Inspect?
             || pc.TestPid? || pc.ClaimTemp? || pc.ClaimLink? || pc.Refused? || pc.NotFound?
    ensures ss[i].machine.Locked? && n in ss[i].machine.lock.records ==> ss[i].machine.lock.records[n].token.author != c
  {
    if ss[i].machine.Locked? && n in ss[i].machine.lock.records && ss[i].machine.lock.records[n].token.author == c {
      LiveRecordsAreOwned(ss, ls, i, n);
    }
  }

  /** A released marker carries no reservation, so the ports and addresses in it are free. */
  lemma MarkersReserveNothing(ss: seq<State>, ls: seq<Label>, i: nat, n: Name)
    requires Run(ss, ls) && i < |ss| && ss[i].machine.Locked? && n in ss[i].machine.lock.records
    requires ss[i].machine.lock.records[n].released
    ensures ss[i].machine.lock.records[n].reserve.None?
  {
    RunKeepsAuthors(ss, ls, i);
    assert n in Files(ss[i].machine);
    hide Inv;
  }
}
