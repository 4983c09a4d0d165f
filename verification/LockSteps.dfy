/** Every step keeps the invariant, so it holds in every state of every run. */
module LockSteps {
  import opened Prelude
  import opened LockModel
  import opened LockInvariant

  /** A contender that stands holds the top of the current incarnation, under its own record. */
  lemma StandingFacts(s: State, c: Contender)
    requires Inv(s) && Standing(s, c)
    ensures Stands(s.machine, PcOf(s, c).claim) && ClaimOk(c, PcOf(s, c).claim)
    ensures PcOf(s, c).claim.id in s.ids
  {
    assert Shape(s.ids, c, PcOf(s, c)) && Fact(s.machine, s.dead, PcOf(s, c));
  }

  /** Two contenders cannot both stand: their records would be the same file. */
  lemma Exclusive(s: State, c: Contender, b: Contender)
    requires Inv(s) && Standing(s, c) && Standing(s, b)
    ensures c == b
  {
    StandingFacts(s, c);
    StandingFacts(s, b);
  }

  /** The invariant of `s'` from the part about the contender that moved and the rest. */
  lemma Assemble(s: State, c: Contender, s': State)
    requires Inv(s)
    requires s'.procs.Keys == s.procs.Keys + {c} && s'.dead == s.dead && s.ids <= s'.ids
    requires forall b :: b in s.procs && b != c ==> s'.procs[b] == s.procs[b]
    requires DirOk(s') && Shape(s'.ids, c, PcOf(s', c))
    requires Live(s', c) ==> Fact(s'.machine, s'.dead, PcOf(s', c)) && Pair(s'.machine, PcOf(s', c), PcOf(s', c))
    requires forall b :: Live(s, b) && b != c ==> Fact(s'.machine, s'.dead, PcOf(s, b))
    requires forall b :: Live(s, b) && b != c && Live(s', c) ==>
               Pair(s'.machine, PcOf(s', c), PcOf(s, b)) && Pair(s'.machine, PcOf(s, b), PcOf(s', c))
    requires forall b, d :: Live(s, b) && Live(s, d) && b != c && d != c ==>
               Pair(s'.machine, PcOf(s, b), PcOf(s, d))
    ensures Inv(s')
  {
    forall b | b in s'.procs
      ensures Shape(s'.ids, b, PcOf(s', b))
    {
      assert b != c ==> Shape(s.ids, b, PcOf(s, b));
    }
    forall b | Live(s', b)
      ensures Fact(s'.machine, s'.dead, PcOf(s', b))
    {
      assert b != c ==> Live(s, b);
    }
    forall b, d | Live(s', b) && Live(s', d)
      ensures Pair(s'.machine, PcOf(s', b), PcOf(s', d))
    {
      assert b != c ==> Live(s, b);
      assert d != c ==> Live(s, d);
    }
  }

  /** A contender's call moves no other contender. */
  lemma OthersStay(s: State, c: Contender, draw: nat, b: Contender)
    requires b != c
    ensures ProcOf(Act(s, c, draw), b) == ProcOf(s, b)
    ensures b in Act(s, c, draw).procs <==> b in s.procs
  {
    hide Generations, ReadRecord, CurrentId, TempGone, Unlink;
  }

  /** A turn that only reads: the others see the same directory. */
  predicate QuietPc(pc: Pc) {
    pc.ReadId? || pc.IdTemp? || pc.IdReread? || pc.List? || pc.Inspect? || pc.TestPid? || pc.ClaimTemp?
    || pc.Relist? || pc.RereadPred? || pc.RereadId? || pc.CollectList? || pc.ReleaseRead? || pc.MarkTemp?
  }

  lemma QuietDir(s: State, c: Contender, draw: nat)
    requires QuietPc(PcOf(s, c))
    ensures Act(s, c, draw).machine == s.machine
    ensures Act(s, c, draw).ids == s.ids && Act(s, c, draw).serial == s.serial && Act(s, c, draw).dead == s.dead
    ensures Act(s, c, draw).procs == s.procs[c := ProcOf(Act(s, c, draw), c)]
  {
  }

  lemma QuietShape(s: State, c: Contender, draw: nat)
    requires DirOk(s) && Shape(s.ids, c, PcOf(s, c)) && Fact(s.machine, s.dead, PcOf(s, c)) && QuietPc(PcOf(s, c))
    ensures Shape(s.ids, c, PcOf(Act(s, c, draw), c))
  {
    var m := s.machine;
    match PcOf(s, c)
    case List(id) =>
      if m.Locked? && Generations(m.lock, id) != {} {
        assert MaxOf(Generations(m.lock, id)) in Generations(m.lock, id);
      }
    case _ =>
  }

  /** Reading towards a claim: what was listed and read is still so, or the top has moved. */
  lemma JudgingFact(s: State, c: Contender, draw: nat)
    requires Inv(s) && CanAct(s, c, draw) && QuietPc(PcOf(s, c))
    requires !HasClaim(PcOf(s, c))
    ensures Fact(s.machine, s.dead, PcOf(Act(s, c, draw), c))
  {
    var pc := PcOf(s, c);
    assert Shape(s.ids, c, pc) && Fact(s.machine, s.dead, pc);
    if PcId(pc).Some? && s.machine.Locked? {
      TopFacts(s.machine, PcId(pc).value);
    }
  }

  /** Checking a claim: it is turned away only when it is below the top. */
  lemma CheckingFact(s: State, c: Contender, draw: nat)
    requires Inv(s) && CanAct(s, c, draw) && (PcOf(s, c).Relist? || PcOf(s, c).RereadPred? || PcOf(s, c).RereadId?)
    ensures Fact(s.machine, s.dead, PcOf(Act(s, c, draw), c))
  {
    var pc, m := PcOf(s, c), s.machine;
    assert Shape(s.ids, c, pc) && Fact(m, s.dead, pc) && Pair(m, pc, pc);
    if pc.Relist? && m.Locked? {
      TopFacts(m, pc.claim.id);
      if pc.claim.gen == 1 && OwnTop(m, pc.claim) {
        assert Generations(m.lock, pc.claim.id) == {1};
      }
    }
  }

  lemma HoldingFact(s: State, c: Contender, draw: nat)
    requires Inv(s) && CanAct(s, c, draw) && (PcOf(s, c).CollectList? || PcOf(s, c).ReleaseRead? || PcOf(s, c).MarkTemp?)
    ensures Fact(s.machine, s.dead, PcOf(Act(s, c, draw), c))
  {
    assert Shape(s.ids, c, PcOf(s, c)) && Fact(s.machine, s.dead, PcOf(s, c));
  }

  lemma QuietFact(s: State, c: Contender, draw: nat)
    requires Inv(s) && CanAct(s, c, draw) && QuietPc(PcOf(s, c))
    ensures Fact(s.machine, s.dead, PcOf(Act(s, c, draw), c))
  {
    var pc := PcOf(s, c);
    if pc.Relist? || pc.RereadPred? || pc.RereadId? {
      CheckingFact(s, c, draw);
    } else if pc.CollectList? || pc.ReleaseRead? || pc.MarkTemp? {
      HoldingFact(s, c, draw);
    } else {
      JudgingFact(s, c, draw);
    }
  }

  /** Where a reading turn leads, as far as other claims are concerned: to a call that is not
      about an unlink, or on with the same claim. */
  lemma QuietClaim(s: State, c: Contender, draw: nat)
    requires QuietPc(PcOf(s, c))
    ensures var pc, pc' := PcOf(s, c), PcOf(Act(s, c, draw), c);
            && (pc'.Relist? || pc'.RereadPred? || pc'.Reject? ==>
                  (pc.Relist? || pc.RereadPred? || pc.RereadId?) && pc'.claim == pc.claim)
            && (pc'.RereadPred? ==> pc.Relist?) && !pc'.Relist?
            && (pc'.Reject? && pc.RereadId? ==> !Current(s.machine, pc.claim.id))
  {
  }

  /** A reading turn moves a contender towards an unlink only from a claim of the same name. */
  lemma QuietPairs(s: State, c: Contender, draw: nat, b: Contender)
    requires Inv(s) && CanAct(s, c, draw) && QuietPc(PcOf(s, c)) && Live(s, b)
    ensures Pair(s.machine, PcOf(Act(s, c, draw), c), PcOf(s, b))
    ensures Pair(s.machine, PcOf(s, b), PcOf(Act(s, c, draw), c))
  {
    QuietClaim(s, c, draw);
    assert Live(s, c);
    assert Pair(s.machine, PcOf(s, c), PcOf(s, b)) && Pair(s.machine, PcOf(s, b), PcOf(s, c));
  }

  lemma QuietStep(s: State, c: Contender, draw: nat)
    requires Inv(s) && CanAct(s, c, draw) && QuietPc(PcOf(s, c))
    ensures Inv(Act(s, c, draw))
  {
    var s' := Act(s, c, draw);
    assert Live(s, c) && Shape(s.ids, c, PcOf(s, c)) && Fact(s.machine, s.dead, PcOf(s, c));
    QuietDir(s, c, draw);
    QuietShape(s, c, draw);
    QuietFact(s, c, draw);
    forall b | Live(s, b)
      ensures Pair(s.machine, PcOf(s', c), PcOf(s, b)) && Pair(s.machine, PcOf(s, b), PcOf(s', c))
    {
      QuietPairs(s, c, draw, b);
    }
    Assemble(s, c, s');
  }

  // ---- The directory comes and goes ------------------------------------------------------

  /** Nobody stands in a lock directory that has no id yet. */
  lemma NoIdNobody(s: State)
    requires Inv(s) && CurrentId(s.machine).None?
    ensures forall b :: Live(s, b) ==> !StandingPc(PcOf(s, b))
  {
    forall b | Live(s, b)
      ensures !StandingPc(PcOf(s, b))
    {
      assert Fact(s.machine, s.dead, PcOf(s, b));
    }
  }

  /** A change of directory that nobody's remembered id refers to. */
  lemma NewDirectory(s: State, c: Contender, s': State)
    requires Inv(s) && CurrentId(s.machine).None? && Live(s, c)
    requires s'.dead == s.dead && s.ids <= s'.ids && s'.procs == s.procs[c := ProcOf(s', c)]
    requires PcId(PcOf(s', c)).None? && DirOk(s')
    requires forall id :: id in s.ids ==> !Current(s'.machine, id)
    requires s'.machine.Locked? && forall n :: n in s'.machine.lock.records ==> ReadRecord(s.machine, n) == Some(s'.machine.lock.records[n])
    ensures Inv(s')
  {
    NoIdNobody(s);
    forall b | Live(s, b)
      ensures Fact(s'.machine, s'.dead, PcOf(s, b))
      ensures !Unchecked(s'.machine, PcOf(s, b))
    {
      assert Shape(s.ids, b, PcOf(s, b)) && Fact(s.machine, s.dead, PcOf(s, b));
    }
    Assemble(s, c, s');
  }

  lemma EnsureDirStep(s: State, c: Contender, draw: nat)
    requires Inv(s) && CanAct(s, c, draw) && PcOf(s, c).EnsureDir?
    ensures Inv(Act(s, c, draw))
  {
    var s' := Act(s, c, draw);
    assert Live(s, c);
    if s.machine.Bare? {
      NewDirectory(s, c, s');
    } else {
      Assemble(s, c, s');
    }
  }

  lemma IdLinkStep(s: State, c: Contender, draw: nat)
    requires Inv(s) && CanAct(s, c, draw) && PcOf(s, c).IdLink?
    ensures Inv(Act(s, c, draw))
  {
    var s' := Act(s, c, draw);
    assert Live(s, c);
    if s'.machine == s.machine {
      Assemble(s, c, s');
    } else {
      NewDirectory(s, c, s');
    }
  }

  // ---- Publishing a record ---------------------------------------------------------------

  /** The claim's link lands just above a free top, or below the top. */
  lemma ClaimMayLink(s: State, c: Contender, a: Claim)
    requires Inv(s) && Live(s, c) && PcOf(s, c).ClaimLink? && a == PcOf(s, c).claim
    ensures MayLink(s.machine, s.dead, c, Name(a.id, a.gen))
  {
    assert Fact(s.machine, s.dead, PcOf(s, c)) && Shape(s.ids, c, PcOf(s, c));
  }

  /** What everyone else knows survives a link that MayLink allows. */
  lemma LinkOthers(s: State, c: Contender, n: Name, r: Record, m': Machine)
    requires Inv(s) && s.machine.Locked? && n !in s.machine.lock.records && r.token.author == c
    requires MayLink(s.machine, s.dead, c, n)
    requires m' == Locked(s.machine.lock.(records := s.machine.lock.records[n := r]))
    ensures forall b :: Live(s, b) && b != c ==> Fact(m', s.dead, PcOf(s, b))
    ensures forall b, d :: Live(s, b) && Live(s, d) && b != c ==> Pair(m', PcOf(s, b), PcOf(s, d))
  {
    forall b | Live(s, b) && b != c
      ensures Fact(m', s.dead, PcOf(s, b))
    {
      assert Shape(s.ids, b, PcOf(s, b)) && Fact(s.machine, s.dead, PcOf(s, b));
      FactLink(s.machine, s.dead, s.ids, c, n, r, m', b, PcOf(s, b));
    }
    forall b, d | Live(s, b) && Live(s, d) && b != c
      ensures Pair(m', PcOf(s, b), PcOf(s, d))
    {
      assert Shape(s.ids, b, PcOf(s, b)) && Pair(s.machine, PcOf(s, b), PcOf(s, d));
      PairLink(s.machine, s.ids, c, n, r, m', b, PcOf(s, b), PcOf(s, d));
    }
  }

  /** A claim just linked is the top over the record it judged, or it is below the top. */
  lemma ClaimLinked(s: State, c: Contender, a: Claim, m': Machine)
    requires Inv(s) && Live(s, c) && PcOf(s, c).ClaimLink? && a == PcOf(s, c).claim
    requires s.machine.Locked? && Name(a.id, a.gen) !in s.machine.lock.records
    requires m' == Locked(s.machine.lock.(records := s.machine.lock.records[Name(a.id, a.gen) := a.mine]))
    ensures Fact(m', s.dead, Relist(a))
    ensures Unchecked(m', Relist(a)) ==>
              && a.gen == TopOf(s.machine, a.id) + 1
              && ReadRecord(s.machine, Name(a.id, a.gen - 1)) == a.judged && Free(s.dead, a.judged.value)
    ensures Unchecked(m', Relist(a)) ==> ReadRecord(m', Name(a.id, a.gen - 1)) == a.judged
  {
    assert Fact(s.machine, s.dead, PcOf(s, c)) && Shape(s.ids, c, PcOf(s, c));
    LinkTop(s.machine, Name(a.id, a.gen), a.mine, m', a.id);
    TopFacts(s.machine, a.id);
  }

  /** The record a fresh top was judged on is no other live contender's to unlink. */
  lemma JudgedIsSafe(s: State, c: Contender, a: Claim, m': Machine, b: Contender)
    requires Inv(s) && Live(s, c) && PcOf(s, c).ClaimLink? && a == PcOf(s, c).claim
    requires s.machine.Locked? && Name(a.id, a.gen) !in s.machine.lock.records
    requires m' == Locked(s.machine.lock.(records := s.machine.lock.records[Name(a.id, a.gen) := a.mine]))
    requires Live(s, b) && b != c
    ensures Pair(m', Relist(a), PcOf(s, b))
    ensures Pair(m', PcOf(s, b), Relist(a))
  {
    var pb := PcOf(s, b);
    ClaimLinked(s, c, a, m');
    assert Shape(s.ids, b, pb) && Fact(s.machine, s.dead, pb) && Pair(s.machine, pb, PcOf(s, c));
    assert Shape(s.ids, c, PcOf(s, c));
    PairLink(s.machine, s.ids, c, Name(a.id, a.gen), a.mine, m', b, pb, PcOf(s, c));
    if Unchecked(m', Relist(a)) && HasClaim(pb) && pb.claim.id == a.id && pb.claim.gen == a.gen - 1 {
      match pb
      case Relist(_) =>
      case RereadPred(_, _) =>
      case Reject(_) =>
      case _ =>
    }
    if Unchecked(m', pb) {
      LinkTop(s.machine, Name(a.id, a.gen), a.mine, m', pb.claim.id);
    }
  }

  lemma ClaimLinkStep(s: State, c: Contender, draw: nat)
    requires Inv(s) && CanAct(s, c, draw) && PcOf(s, c).ClaimLink?
    ensures Inv(Act(s, c, draw))
  {
    var s' := Act(s, c, draw);
    assert Live(s, c) && Shape(s.ids, c, PcOf(s, c));
    if s'.machine == s.machine && !PcOf(s', c).Relist? {
      Assemble(s, c, s');
    } else {
      ClaimLinksStep(s, c, draw);
    }
  }

  lemma ClaimLinksStep(s: State, c: Contender, draw: nat)
    requires Inv(s) && CanAct(s, c, draw) && PcOf(s, c).ClaimLink?
    requires Act(s, c, draw).machine != s.machine || PcOf(Act(s, c, draw), c).Relist?
    ensures Inv(Act(s, c, draw))
  {
    hide Generations, TopOf, JudgedTop, MayLink;
    var s' := Act(s, c, draw);
    var ClaimLink(a, temp) := PcOf(s, c);
    assert Live(s, c) && Shape(s.ids, c, PcOf(s, c));
    ClaimMayLink(s, c, a);
    LinkOthers(s, c, Name(a.id, a.gen), a.mine, s'.machine);
    ClaimLinked(s, c, a, s'.machine);
    forall b | Live(s, b) && b != c
      ensures Pair(s'.machine, Relist(a), PcOf(s, b)) && Pair(s'.machine, PcOf(s, b), Relist(a))
    {
      JudgedIsSafe(s, c, a, s'.machine, b);
    }
    Assemble(s, c, s');
  }

  lemma MarkLinkStep(s: State, c: Contender, draw: nat)
    requires Inv(s) && CanAct(s, c, draw) && PcOf(s, c).MarkLink?
    ensures Inv(Act(s, c, draw))
  {
    var s' := Act(s, c, draw);
    var MarkLink(a, temp) := PcOf(s, c);
    assert Live(s, c) && Shape(s.ids, c, PcOf(s, c)) && Fact(s.machine, s.dead, PcOf(s, c));
    if s'.machine == s.machine {
      Assemble(s, c, s');
    } else {
      LinkOthers(s, c, Name(a.id, a.gen + 1), a.mine.(released := true, reserve := None), s'.machine);
      Assemble(s, c, s');
    }
  }

  // ---- Deleting records ------------------------------------------------------------------

  /** The name a contender deletes next, if it deletes one. */
  function Deletes(pc: Pc, draw: nat): Option<Name> {
    match pc
    case Reject(a) => Some(Name(a.id, a.gen))
    case Collecting(a, todo, _) => if todo == {} then None else Some(Name(a.id, draw))
    case _ => None
  }

  /** Whatever is deleted by path is below the top of the incarnation in the directory. */
  lemma DeletesBelowTop(s: State, c: Contender, draw: nat, n: Name)
    requires Inv(s) && CanAct(s, c, draw) && Deletes(PcOf(s, c), draw) == Some(n)
    ensures Current(s.machine, n.id) ==> n.gen < TopOf(s.machine, n.id)
  {
    assert Live(s, c) && Shape(s.ids, c, PcOf(s, c)) && Fact(s.machine, s.dead, PcOf(s, c));
  }

  /** Nor is it the record that a claim still being checked was judged on. */
  lemma DeletesNoJudged(s: State, c: Contender, draw: nat, n: Name, b: Contender)
    requires Inv(s) && CanAct(s, c, draw) && Deletes(PcOf(s, c), draw) == Some(n)
    requires Live(s, b) && b != c && Unchecked(s.machine, PcOf(s, b))
    ensures n != Name(PcOf(s, b).claim.id, PcOf(s, b).claim.gen - 1)
  {
    var pc, pb := PcOf(s, c), PcOf(s, b);
    assert Live(s, c) && Pair(s.machine, pb, pc);
    assert Shape(s.ids, c, pc) && Shape(s.ids, b, pb);
    assert Fact(s.machine, s.dead, pc);
  }

  lemma DeleteOthers(s: State, c: Contender, draw: nat, n: Name)
    requires Inv(s) && CanAct(s, c, draw) && Deletes(PcOf(s, c), draw) == Some(n)
    ensures forall b :: Live(s, b) ==> Fact(Unlink(s.machine, n), s.dead, PcOf(s, b))
    ensures forall b, d :: Live(s, b) && Live(s, d) && b != c ==> Pair(Unlink(s.machine, n), PcOf(s, b), PcOf(s, d))
  {
    var m' := Unlink(s.machine, n);
    DeletesBelowTop(s, c, draw, n);
    forall b | Live(s, b)
      ensures Fact(m', s.dead, PcOf(s, b))
    {
      assert Shape(s.ids, b, PcOf(s, b)) && Fact(s.machine, s.dead, PcOf(s, b));
      FactUnlink(s.machine, s.dead, s.ids, n, m', b, PcOf(s, b));
    }
    forall b, d | Live(s, b) && Live(s, d) && b != c
      ensures Pair(m', PcOf(s, b), PcOf(s, d))
    {
      assert Pair(s.machine, PcOf(s, b), PcOf(s, d));
      if Unchecked(s.machine, PcOf(s, b)) {
        DeletesNoJudged(s, c, draw, n, b);
      }
      PairUnlink(s.machine, n, m', PcOf(s, b), PcOf(s, d));
    }
  }

  lemma DeleteStep(s: State, c: Contender, draw: nat)
    requires Inv(s) && CanAct(s, c, draw) && (PcOf(s, c).Reject? || PcOf(s, c).Collecting?)
    ensures Inv(Act(s, c, draw))
  {
    hide Generations, TopOf, JudgedTop, OwnTop;
    var s' := Act(s, c, draw);
    var pc, pc' := PcOf(s, c), PcOf(s', c);
    assert Live(s, c) && Shape(s.ids, c, pc) && Fact(s.machine, s.dead, pc);
    match Deletes(pc, draw) {
      case None => Assemble(s, c, s');
      case Some(n) =>
        DeleteOthers(s, c, draw, n);
        assert s'.machine == Unlink(s.machine, n);
        forall b | Live(s, b) && b != c
          ensures Pair(s'.machine, pc', PcOf(s, b)) && Pair(s'.machine, PcOf(s, b), pc')
        {
          assert Pair(s'.machine, PcOf(s, b), pc);
        }
        Assemble(s, c, s');
    }
  }

  // ---- The other steps -------------------------------------------------------------------

  lemma TurnStep(s: State, c: Contender, draw: nat)
    requires Inv(s) && CanAct(s, c, draw)
    ensures Inv(Act(s, c, draw))
  {
    var pc := PcOf(s, c);
    if QuietPc(pc) {
      QuietStep(s, c, draw);
    } else if pc.EnsureDir? {
      EnsureDirStep(s, c, draw);
    } else if pc.IdLink? {
      IdLinkStep(s, c, draw);
    } else if pc.ClaimLink? {
      ClaimLinkStep(s, c, draw);
    } else if pc.MarkLink? {
      MarkLinkStep(s, c, draw);
    } else {
      DeleteStep(s, c, draw);
    }
  }

  /** A start or a call of release() moves one contender and leaves the directory alone. */
  lemma CallerStep(s: State, l: Label, s': State)
    requires Inv(s) && Next(s, l, s') && (l.Begin? || l.Release?)
    ensures Inv(s')
  {
    hide Generations, TopOf, JudgedTop, OwnTop, ReadRecord;
    if s' != s {
      if l.c in s.procs {
        assert Shape(s.ids, l.c, PcOf(s, l.c)) && Fact(s.machine, s.dead, PcOf(s, l.c));
      }
      forall b | Live(s, b) && b != l.c
        ensures Pair(s.machine, PcOf(s, b), PcOf(s', l.c))
      {
        assert Pair(s.machine, PcOf(s, b), PcOf(s, b));
      }
      Assemble(s, l.c, s');
    }
  }

  /** Only a holder removes the directory, and nobody else stands while it does. */
  lemma RemoveStep(s: State, c: Contender, s': State)
    requires Inv(s) && Next(s, Remove(c), s')
    ensures Inv(s')
  {
    assert Live(s, c) && Shape(s.ids, c, PcOf(s, c));
    forall b | Live(s, b) && b != c
      ensures Fact(s'.machine, s'.dead, PcOf(s, b))
    {
      assert Shape(s.ids, b, PcOf(s, b)) && Fact(s.machine, s.dead, PcOf(s, b));
      if StandingPc(PcOf(s, b)) {
        Exclusive(s, b, c);
      }
    }
    Assemble(s, c, s');
  }

  /** A crash only shrinks the set of the living, and makes more records free. */
  lemma CrashStep(s: State, pid: Pid)
    requires Inv(s)
    ensures Inv(s.(dead := s.dead + {pid}))
  {
    var s' := s.(dead := s.dead + {pid});
    forall c | Live(s', c)
      ensures Fact(s'.machine, s'.dead, PcOf(s', c))
    {
      assert Live(s, c) && Fact(s.machine, s.dead, PcOf(s, c));
    }
    forall c, b | Live(s', c) && Live(s', b)
      ensures Pair(s'.machine, PcOf(s', c), PcOf(s', b))
    {
      assert Live(s, c) && Live(s, b) && Pair(s.machine, PcOf(s, c), PcOf(s, b));
    }
  }

  lemma MakeMachineStep(s: State, s': State)
    requires Inv(s) && Next(s, MakeMachine, s')
    ensures Inv(s')
  {
    if s.machine.Absent? {
      NoIdNobody(s);
      forall c | Live(s', c)
        ensures Fact(s'.machine, s'.dead, PcOf(s', c))
      {
        assert Live(s, c) && Fact(s.machine, s.dead, PcOf(s, c));
      }
    }
  }

  lemma StepKeepsInv(s: State, l: Label, s': State)
    requires Inv(s) && Next(s, l, s')
    ensures Inv(s')
  {
    match l
    case Begin(_, _) => CallerStep(s, l, s');
    case Turn(c, draw) => TurnStep(s, c, draw);
    case Release(_) => CallerStep(s, l, s');
    case Remove(c) => RemoveStep(s, c, s');
    case MakeMachine => MakeMachineStep(s, s');
    case Crash(pid) => CrashStep(s, pid);
  }

  lemma {:induction false} RunKeepsInv(ss: seq<State>, ls: seq<Label>, i: nat)
    requires Run(ss, ls) && i < |ss|
    ensures Inv(ss[i])
  {
    if i > 0 {
      RunKeepsInv(ss, ls, i - 1);
      assert Next(ss[i - 1], ls[i - 1], ss[i]);
      StepKeepsInv(ss[i - 1], ls[i - 1], ss[i]);
    }
  }
}
