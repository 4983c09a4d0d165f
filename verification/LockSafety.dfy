/**
 * What the lock promises, over whole runs: mutual exclusion, a top that only rises and is never
 * lost, and incarnations that cannot reach each other.
 */
module LockSafety {
  import opened Prelude
  import opened LockModel
  import opened LockInvariant
  import opened LockSteps

  /** At most one live contender stands, whatever the interleaving, crashes and removals. */
  lemma MutualExclusion(ss: seq<State>, ls: seq<Label>, i: nat, c: Contender, b: Contender)
    requires Run(ss, ls) && i < |ss|
    requires Standing(ss[i], c) && Standing(ss[i], b)
    ensures c == b
  {
    RunKeepsInv(ss, ls, i);
    Exclusive(ss[i], c, b);
  }

  /** A standing claim is the live top of the directory's own incarnation. */
  lemma StandingIsTop(ss: seq<State>, ls: seq<Label>, i: nat, c: Contender)
    requires Run(ss, ls) && i < |ss| && Standing(ss[i], c)
    ensures Current(ss[i].machine, PcOf(ss[i], c).claim.id)
    ensures OwnTop(ss[i].machine, PcOf(ss[i], c).claim)
    ensures !Free(ss[i].dead, PcOf(ss[i], c).claim.mine)
  {
    RunKeepsInv(ss, ls, i);
    StandingFacts(ss[i], c);
  }

  // ---- The top ---------------------------------------------------------------------------

  lemma DeleteKeepsTop(s: State, c: Contender, draw: nat, n: Name, id: Id)
    requires Inv(s) && CanAct(s, c, draw) && Deletes(PcOf(s, c), draw) == Some(n) && Current(s.machine, id)
    ensures TopOf(Unlink(s.machine, n), id) == TopOf(s.machine, id)
    ensures ReadRecord(Unlink(s.machine, n), Name(id, TopOf(s.machine, id))) == ReadRecord(s.machine, Name(id, TopOf(s.machine, id)))
  {
    DeletesBelowTop(s, c, draw, n);
    UnlinkTop(s.machine, n, Unlink(s.machine, n), id);
  }

  /** One step that stays in incarnation `id`: its top does not fall, and the record that was
      the top is still there with the same bytes. */
  lemma StepTop(s: State, l: Label, s': State, id: Id)
    requires Inv(s) && Next(s, l, s') && Current(s.machine, id) && Current(s'.machine, id)
    ensures TopOf(s.machine, id) <= TopOf(s'.machine, id)
    ensures TopOf(s.machine, id) != 0 ==>
              ReadRecord(s'.machine, Name(id, TopOf(s.machine, id))) == ReadRecord(s.machine, Name(id, TopOf(s.machine, id)))
  {
    if l.Turn? && s'.machine != s.machine {
      TopFacts(s.machine, id);
      match PcOf(s, l.c)
      case ClaimLink(a, _) => LinkTop(s.machine, Name(a.id, a.gen), a.mine, s'.machine, id);
      case MarkLink(a, _) =>
        LinkTop(s.machine, Name(a.id, a.gen + 1), a.mine.(released := true, reserve := None), s'.machine, id);
      case Reject(a) => DeleteKeepsTop(s, l.c, l.draw, Name(a.id, a.gen), id);
      case Collecting(a, _, _) => DeleteKeepsTop(s, l.c, l.draw, Name(a.id, l.draw), id);
      case _ =>
    }
  }

  /** An id that is not in the directory any more never comes back. */
  lemma StepRetired(s: State, l: Label, s': State, id: Id)
    requires Inv(s) && Next(s, l, s') && id in s.ids && !Current(s.machine, id)
    ensures id in s'.ids && !Current(s'.machine, id)
  {
    hide Inv, Generations, ReadRecord;
  }

  lemma {:induction false} RetiredForever(ss: seq<State>, ls: seq<Label>, i: nat, j: nat, id: Id)
    requires Run(ss, ls) && i <= j < |ss|
    requires id in ss[i].ids && !Current(ss[i].machine, id)
    ensures id in ss[j].ids && !Current(ss[j].machine, id)
    decreases j
  {
    if i < j {
      RetiredForever(ss, ls, i, j - 1, id);
      RunKeepsInv(ss, ls, j - 1);
      assert Next(ss[j - 1], ls[j - 1], ss[j]);
      StepRetired(ss[j - 1], ls[j - 1], ss[j], id);
    }
  }

  /** Between two moments of one incarnation, every moment is of that incarnation. */
  lemma SameIncarnation(ss: seq<State>, ls: seq<Label>, i: nat, k: nat, j: nat, id: Id)
    requires Run(ss, ls) && i <= k <= j < |ss|
    requires Current(ss[i].machine, id) && Current(ss[j].machine, id)
    ensures Current(ss[k].machine, id)
  {
    RunKeepsInv(ss, ls, i);
    IdsGrow(ss, ls, i, k);
    if !Current(ss[k].machine, id) {
      RetiredForever(ss, ls, k, j, id);
    }
  }

  lemma {:induction false} IdsGrow(ss: seq<State>, ls: seq<Label>, i: nat, j: nat)
    requires Run(ss, ls) && i <= j < |ss|
    ensures ss[i].ids <= ss[j].ids
    decreases j
  {
    if i < j {
      IdsGrow(ss, ls, i, j - 1);
      assert Next(ss[j - 1], ls[j - 1], ss[j]);
    }
  }

  /** Within one incarnation the top never falls, and while it is the top a record is neither
      unlinked nor replaced. */
  lemma {:induction false} TopStability(ss: seq<State>, ls: seq<Label>, i: nat, j: nat, id: Id)
    requires Run(ss, ls) && i <= j < |ss|
    requires Current(ss[i].machine, id) && Current(ss[j].machine, id)
    ensures TopOf(ss[i].machine, id) <= TopOf(ss[j].machine, id)
    ensures TopOf(ss[i].machine, id) == TopOf(ss[j].machine, id) != 0 ==>
              ReadRecord(ss[i].machine, Name(id, TopOf(ss[i].machine, id)))
              == ReadRecord(ss[j].machine, Name(id, TopOf(ss[j].machine, id)))
    decreases j
  {
    if i < j {
      SameIncarnation(ss, ls, i, j - 1, j, id);
      TopStability(ss, ls, i, j - 1, id);
      RunKeepsInv(ss, ls, j - 1);
      assert Next(ss[j - 1], ls[j - 1], ss[j]);
      StepTop(ss[j - 1], ls[j - 1], ss[j], id);
    }
  }

  /** How a record can go from one state of a run to the next: with its whole directory, moved
      by the contender that stands, or by a delete of its path, and then it is below the top. It
      is never overwritten. */
  lemma RecordsGoFromBelow(ss: seq<State>, ls: seq<Label>, i: nat, n: Name)
    requires Run(ss, ls) && i < |ls|
    requires ReadRecord(ss[i].machine, n).Some? && ReadRecord(ss[i + 1].machine, n) != ReadRecord(ss[i].machine, n)
    ensures ReadRecord(ss[i + 1].machine, n).None?
    ensures (ls[i].Remove? && Standing(ss[i], ls[i].c))
            || (ls[i].Turn? && Deletes(PcOf(ss[i], ls[i].c), ls[i].draw) == Some(n)
                && (Current(ss[i].machine, n.id) ==> n.gen < TopOf(ss[i].machine, n.id)))
  {
    RunKeepsInv(ss, ls, i);
    assert Next(ss[i], ls[i], ss[i + 1]);
    if ls[i].Turn? {
      var pc := PcOf(ss[i], ls[i].c);
      assert pc.Reject? || pc.Collecting?;
      DeletesBelowTop(ss[i], ls[i].c, ls[i].draw, n);
    }
  }

  // ---- Incarnations ----------------------------------------------------------------------

  predicate StepOf(l: Label, c: Contender) {
    (l.Turn? || l.Release? || l.Remove?) && l.c == c
  }

  /** A contender that holds an id reaches only records of that id, and never the id file. */
  lemma StepStaysInIncarnation(s: State, l: Label, s': State, c: Contender, id: Id)
    requires Inv(s) && Next(s, l, s') && StepOf(l, c) && PcId(PcOf(s, c)) == Some(id)
    requires !Current(s.machine, id)
    ensures CurrentId(s'.machine) == CurrentId(s.machine)
    ensures forall n: Name :: n.id != id ==> ReadRecord(s'.machine, n) == ReadRecord(s.machine, n)
    ensures !Standing(s', c)
  {
    StrayNeverStands(s, l, s', c, id);
    hide Inv;
    if l.Turn? {
      StrayWrites(s, c, l.draw, id);
    }
  }

  lemma StrayWrites(s: State, c: Contender, draw: nat, id: Id)
    requires CanAct(s, c, draw) && PcId(PcOf(s, c)) == Some(id)
    ensures CurrentId(Act(s, c, draw).machine) == CurrentId(s.machine)
    ensures forall n: Name :: n.id != id ==> ReadRecord(Act(s, c, draw).machine, n) == ReadRecord(s.machine, n)
  {
    hide Generations, MaxOf;
  }

  /** Its claim does not stand, and no call of its can make it. */
  lemma StrayNeverStands(s: State, l: Label, s': State, c: Contender, id: Id)
    requires Inv(s) && Next(s, l, s') && StepOf(l, c) && PcId(PcOf(s, c)) == Some(id) && !Current(s.machine, id)
    ensures !Standing(s', c) && !l.Remove?
  {
    assert Live(s, c) && Fact(s.machine, s.dead, PcOf(s, c));
    StrayStandsNot(s.machine, s.dead, PcOf(s, c));
    hide Inv, Fact;
    if l.Turn? {
      StrayTurn(s, c, l.draw);
    }
  }

  lemma StrayStandsNot(m: Machine, dead: set<Pid>, pc: Pc)
    requires Fact(m, dead, pc) && PcId(pc).Some? && !Current(m, PcId(pc).value)
    ensures !StandingPc(pc)
  {
  }

  lemma StrayTurn(s: State, c: Contender, draw: nat)
    requires CanAct(s, c, draw) && !StandingPc(PcOf(s, c))
    requires PcId(PcOf(s, c)).Some? && !Current(s.machine, PcId(PcOf(s, c)).value)
    ensures !StandingPc(PcOf(Act(s, c, draw), c))
  {
    hide Generations, MaxOf, ReadRecord, Unlink, TempGone;
  }

  /** Once incarnation `id` is gone, a contender that still holds it can never stand again, and
      none of its links, cleanups, collects or releases changes the id file or any record of
      another incarnation. */
  lemma IncarnationIsolation(ss: seq<State>, ls: seq<Label>, i: nat, k: nat, c: Contender, id: Id)
    requires Run(ss, ls) && i <= k < |ls|
    requires id in ss[i].ids && !Current(ss[i].machine, id)
    requires PcId(PcOf(ss[k], c)) == Some(id)
    ensures !Standing(ss[k], c)
    ensures StepOf(ls[k], c) ==>
              && !Standing(ss[k + 1], c)
              && CurrentId(ss[k + 1].machine) == CurrentId(ss[k].machine)
              && (forall n: Name :: n.id != id ==> ReadRecord(ss[k + 1].machine, n) == ReadRecord(ss[k].machine, n))
  {
    RetiredForever(ss, ls, i, k, id);
    RunKeepsInv(ss, ls, k);
    assert Live(ss[k], c) ==> Fact(ss[k].machine, ss[k].dead, PcOf(ss[k], c));
    assert Next(ss[k], ls[k], ss[k + 1]);
    if StepOf(ls[k], c) {
      StepStaysInIncarnation(ss[k], ls[k], ss[k + 1], c, id);
    }
  }

  predicate Departed(pc: Pc) {
    (pc.Held? || pc.ReleaseRead? || pc.Done?) && pc.claim.removed
  }

  /** What a departed holder still does: read its own record's path, find nothing, and stop. */
  lemma DepartedStep(s: State, l: Label, s': State, c: Contender)
    requires Inv(s) && Next(s, l, s') && Departed(PcOf(s, c))
    ensures Departed(PcOf(s', c))
    ensures StepOf(l, c) ==> s'.machine == s.machine
  {
    var pc := PcOf(s, c);
    assert Live(s, c) ==> Fact(s.machine, s.dead, pc);
    assert Live(s, c) && pc.ReleaseRead? ==> ReadRecord(s.machine, Name(pc.claim.id, pc.claim.gen)) != Some(pc.claim.mine);
    hide Inv, Fact, ReadRecord;
    if l.Turn? {
      if l.c == c {
        assert pc.ReleaseRead?;
      } else {
        OthersStay(s, l.c, l.draw, c);
      }
      hide Act;
    }
  }

  lemma {:induction false} DepartedForever(ss: seq<State>, ls: seq<Label>, i: nat, k: nat, c: Contender)
    requires Run(ss, ls) && i < k < |ss| && ls[i] == Remove(c)
    ensures Departed(PcOf(ss[k], c))
    decreases k
  {
    RunKeepsInv(ss, ls, k - 1);
    assert Next(ss[k - 1], ls[k - 1], ss[k]);
    if i + 1 < k {
      DepartedForever(ss, ls, i, k - 1, c);
      DepartedStep(ss[k - 1], ls[k - 1], ss[k], c);
    }
  }

  /** A holder that removed the directory changes nothing on disk from then on, however late
      and however often it calls release(). */
  lemma LateRelease(ss: seq<State>, ls: seq<Label>, i: nat, k: nat, c: Contender)
    requires Run(ss, ls) && i < k < |ls| && ls[i] == Remove(c) && StepOf(ls[k], c)
    ensures ss[k + 1].machine == ss[k].machine && !Standing(ss[k + 1], c)
  {
    DepartedForever(ss, ls, i, k, c);
    RunKeepsInv(ss, ls, k);
    assert Next(ss[k], ls[k], ss[k + 1]);
    DepartedStep(ss[k], ls[k], ss[k + 1], c);
  }
}
