/**
 * Why the attempt loop goes round again: only because somebody else moved the lock on.
 */
module LockProgress {
  import opened Prelude
  import opened LockModel
  import opened LockInvariant
  import opened LockSteps
  import opened LockSafety

  // ---- Why a pass can fail ---------------------------------------------------------------

  /** Between the listing that starts a pass and the end of the pass. */
  predicate InPass(pc: Pc) {
    pc.Inspect? || pc.TestPid? || pc.ClaimTemp? || pc.ClaimLink? || pc.Relist? || pc.RereadPred? || pc.RereadId? || pc.Reject?
  }

  /** The record number this pass is after: one above the top it listed. */
  function Target(pc: Pc): nat
    requires InPass(pc)
  {
    if pc.Inspect? || pc.TestPid? then pc.gen + 1 else if pc.ClaimTemp? then pc.gen else pc.claim.gen
  }

  predicate Published(pc: Pc) {
    pc.Relist? || pc.RereadPred? || pc.RereadId?
  }

  /** Contender `c` is in a pass that listed `g` as the top, and nobody else has raised it. */
  predicate Undisturbed(s: State, c: Contender, id: Id, g: nat) {
    var pc := PcOf(s, c);
    && InPass(pc) && !pc.Reject? && PcId(pc) == Some(id) && Target(pc) == g + 1
    && TopOf(s.machine, id) == (if Published(pc) then g + 1 else g)
  }

  lemma ListingStartsPass(s: State, c: Contender, draw: nat, id: Id)
    requires Inv(s) && CanAct(s, c, draw) && PcOf(s, c) == List(id) && Current(s.machine, id)
    ensures Undisturbed(Act(s, c, draw), c, id, TopOf(s.machine, id))
  {
    TopFacts(s.machine, id);
    if Generations(s.machine.lock, id) != {} {
      assert MaxOf(Generations(s.machine.lock, id)) in Generations(s.machine.lock, id);
    }
  }

  /** A turn of an undisturbed pass does not end it: nothing it read has changed. */
  lemma OwnTurnGoesOn(s: State, c: Contender, draw: nat, id: Id, g: nat)
    requires Inv(s) && CanAct(s, c, draw) && Undisturbed(s, c, id, g) && Current(s.machine, id)
    ensures !PcOf(Act(s, c, draw), c).ReadId?
    ensures InPass(PcOf(Act(s, c, draw), c)) ==> Undisturbed(Act(s, c, draw), c, id, g)
  {
    var pc := PcOf(s, c);
    if pc.ClaimLink? {
      TopFacts(s.machine, id);
      OwnLinkGoesOn(s, c, draw);
    } else if Published(pc) {
      OwnCheckGoesOn(s, c, draw, id, g);
    } else {
      OwnReadGoesOn(s, c, draw, id, g);
    }
  }

  lemma OwnReadGoesOn(s: State, c: Contender, draw: nat, id: Id, g: nat)
    requires Inv(s) && CanAct(s, c, draw) && Undisturbed(s, c, id, g) && Current(s.machine, id)
    requires var pc := PcOf(s, c); pc.Inspect? || pc.TestPid? || pc.ClaimTemp?
    ensures !PcOf(Act(s, c, draw), c).ReadId?
    ensures InPass(PcOf(Act(s, c, draw), c)) ==> Undisturbed(Act(s, c, draw), c, id, g)
  {
    assert Live(s, c) && Shape(s.ids, c, PcOf(s, c));
    TopFacts(s.machine, id);
  }

  /** The checks never turn away the top. */
  lemma OwnCheckGoesOn(s: State, c: Contender, draw: nat, id: Id, g: nat)
    requires Inv(s) && CanAct(s, c, draw) && Undisturbed(s, c, id, g) && Current(s.machine, id)
    requires Published(PcOf(s, c))
    ensures !PcOf(Act(s, c, draw), c).ReadId?
    ensures InPass(PcOf(Act(s, c, draw), c)) ==> Undisturbed(Act(s, c, draw), c, id, g)
  {
    CheckingFact(s, c, draw);
    QuietDir(s, c, draw);
  }

  lemma OwnLinkGoesOn(s: State, c: Contender, draw: nat)
    requires CanAct(s, c, draw) && PcOf(s, c).ClaimLink?
    ensures var pc', id := PcOf(Act(s, c, draw), c), PcOf(s, c).claim.id;
            pc'.Relist? ==> TopOf(Act(s, c, draw).machine, id)
                            == if TopOf(s.machine, id) < pc'.claim.gen then pc'.claim.gen else TopOf(s.machine, id)
  {
    var a, m := PcOf(s, c).claim, s.machine;
    if !TempGone(m, PcOf(s, c).temp) && Name(a.id, a.gen) !in m.lock.records {
      LinkTop(m, Name(a.id, a.gen), a.mine, Act(s, c, draw).machine, a.id);
    }
  }

  /** Somebody else published the next record of incarnation `id` in step `k`. */
  predicate RaisedByAnother(ss: seq<State>, ls: seq<Label>, k: nat, c: Contender, id: Id)
    requires |ss| == |ls| + 1 && k < |ls|
  {
    !StepOf(ls[k], c) && TopOf(ss[k].machine, id) < TopOf(ss[k + 1].machine, id)
  }

  /** One step of a pass that nobody interferes with. */
  lemma PassStep(ss: seq<State>, ls: seq<Label>, k: nat, c: Contender, id: Id, g: nat)
    requires Run(ss, ls) && k < |ls|
    requires Current(ss[k].machine, id) && Current(ss[k + 1].machine, id)
    requires Undisturbed(ss[k], c, id, g) && InPass(PcOf(ss[k + 1], c))
    requires !RaisedByAnother(ss, ls, k, c, id)
    ensures Undisturbed(ss[k + 1], c, id, g)
  {
    RunKeepsInv(ss, ls, k);
    assert Next(ss[k], ls[k], ss[k + 1]);
    if ls[k].Turn? && ls[k].c == c {
      OwnTurnGoesOn(ss[k], c, ls[k].draw, id, g);
    } else {
      StepTop(ss[k], ls[k], ss[k + 1], id);
      OthersLeaveMe(ss[k], ls[k], ss[k + 1], c);
    }
  }

  lemma OthersLeaveMe(s: State, l: Label, s': State, c: Contender)
    requires Next(s, l, s') && InPass(PcOf(s, c)) && !(l.Turn? && l.c == c)
    ensures PcOf(s', c) == PcOf(s, c)
    ensures (l.Release? || l.Remove?) && l.c == c ==> s' == s
  {
  }

  lemma PassBegins(ss: seq<State>, ls: seq<Label>, i: nat, c: Contender, id: Id)
    requires Run(ss, ls) && i < |ls|
    requires ls[i].Turn? && ls[i].c == c && PcOf(ss[i], c) == List(id) && Current(ss[i].machine, id)
    ensures Undisturbed(ss[i + 1], c, id, TopOf(ss[i].machine, id))
  {
    RunKeepsInv(ss, ls, i);
    assert Next(ss[i], ls[i], ss[i + 1]);
    ListingStartsPass(ss[i], c, ls[i].draw, id);
  }

  /** At step `k` of the pass, the incarnation is not the one it read, or is raised by another. */
  predicate Interferes(ss: seq<State>, ls: seq<Label>, i: nat, k: nat, j: nat, c: Contender, id: Id)
    requires |ss| == |ls| + 1 && j < |ss|
  {
    i <= k <= j && (!Current(ss[k].machine, id) || (k < j && RaisedByAnother(ss, ls, k, c, id)))
  }

  /** The pass that listed at step `i` is undisturbed at step `j`, or something interfered. */
  lemma {:induction false} FindInterference(ss: seq<State>, ls: seq<Label>, i: nat, j: nat, c: Contender, id: Id)
    returns (k: nat)
    requires Run(ss, ls) && i < j < |ss|
    requires ls[i].Turn? && ls[i].c == c && PcOf(ss[i], c) == List(id)
    requires forall n :: i < n <= j ==> InPass(PcOf(ss[n], c))
    ensures Undisturbed(ss[j], c, id, TopOf(ss[i].machine, id)) || Interferes(ss, ls, i, k, j, c, id)
    decreases j
  {
    hide InPass, Next;
    k := j;
    if Current(ss[j].machine, id) {
      if j == i + 1 {
        k := i;
        if Current(ss[i].machine, id) {
          PassBegins(ss, ls, i, c, id);
        }
      } else {
        k := FindInterference(ss, ls, i, j - 1, c, id);
        if !Interferes(ss, ls, i, k, j - 1, c, id) {
          k := j - 1;
          if Current(ss[k].machine, id) && !RaisedByAnother(ss, ls, k, c, id) {
            PassStep(ss, ls, k, c, id, TopOf(ss[i].machine, id));
          }
        }
      }
    }
  }

  /** The loop goes round again only if, since this pass, the incarnation is no longer the one
      it read, or another contender has raised the top. */
  lemma RepeatsOnlyAfterInterference(ss: seq<State>, ls: seq<Label>, i: nat, j: nat, c: Contender, id: Id)
    requires Run(ss, ls) && i < j < |ls|
    requires ls[i].Turn? && ls[i].c == c && PcOf(ss[i], c) == List(id)
    requires forall k :: i < k <= j ==> InPass(PcOf(ss[k], c))
    requires StepOf(ls[j], c) && PcOf(ss[j + 1], c).ReadId?
    ensures exists k :: Interferes(ss, ls, i, k, j, c, id)
  {
    var k := FindInterference(ss, ls, i, j, c, id);
    if !Current(ss[j].machine, id) {
      assert Interferes(ss, ls, i, j, j, c, id);
    } else if !Interferes(ss, ls, i, k, j, c, id) {
      PassGoesOn(ss, ls, j, c, id, TopOf(ss[i].machine, id));
    }
  }

  lemma PassGoesOn(ss: seq<State>, ls: seq<Label>, j: nat, c: Contender, id: Id, g: nat)
    requires Run(ss, ls) && j < |ls| && StepOf(ls[j], c) && Undisturbed(ss[j], c, id, g) && Current(ss[j].machine, id)
    ensures !PcOf(ss[j + 1], c).ReadId?
  {
    RunKeepsInv(ss, ls, j);
    assert Next(ss[j], ls[j], ss[j + 1]);
    if ls[j].Turn? {
      OwnTurnGoesOn(ss[j], c, ls[j].draw, id, g);
    }
  }
}
