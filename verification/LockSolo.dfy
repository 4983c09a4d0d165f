/**
 * A contender alone, from its first call to the lock, and from its release to a top that is free
 * for the next one: there are calls that lead there.
 */
module LockSolo {
  import opened Prelude
  import opened LockModel
  import opened LockInvariant
  import opened LockSteps
  import opened LockAlone

  /** The state after these calls of contender `c`. */
  function After(s: State, c: Contender, draws: seq<nat>): State
    decreases |draws|
  {
    if draws == [] then s else After(Act(s, c, draws[0]), c, draws[1..])
  }

  predicate Solo(s: State, c: Contender, draws: seq<nat>)
    decreases |draws|
  {
    draws == [] || (CanAct(s, c, draws[0]) && Solo(Act(s, c, draws[0]), c, draws[1..]))
  }

  /** Nobody else moves or stops. */
  ghost predicate OnlyMoves(s: State, c: Contender, s': State) {
    s'.dead == s.dead && forall b :: b != c ==> ProcOf(s', b) == ProcOf(s, b)
  }

  lemma OneMoves(s: State, c: Contender, draw: nat)
    ensures OnlyMoves(s, c, Act(s, c, draw))
  {
    hide Act;
    OwnTurnKillsNobody(s, c, draw);
    forall b | b != c
      ensures ProcOf(Act(s, c, draw), b) == ProcOf(s, b)
    {
      OthersStay(s, c, draw, b);
    }
  }

  lemma FirstCall(s: State, c: Contender, draw: nat, rest: seq<nat>)
    requires CanAct(s, c, draw) && Solo(Act(s, c, draw), c, rest)
    ensures Solo(s, c, [draw] + rest) && After(s, c, [draw] + rest) == After(Act(s, c, draw), c, rest)
  {
    hide Act, CanAct;
    assert ([draw] + rest)[1..] == rest;
  }

  lemma {:induction false} SoloMoves(s: State, c: Contender, draws: seq<nat>)
    requires Inv(s) && Solo(s, c, draws)
    ensures Inv(After(s, c, draws)) && OnlyMoves(s, c, After(s, c, draws))
    decreases |draws|
  {
    hide Act, CanAct, Inv;
    if draws != [] {
      TurnStep(s, c, draws[0]);
      OneMoves(s, c, draws[0]);
      SoloMoves(Act(s, c, draws[0]), c, draws[1..]);
    }
  }

  /** An attempt that nothing hinders ends with the lock. */
  lemma {:induction false} TakesAlone(s: State, c: Contender) returns (draws: seq<nat>)
    requires Inv(s) && WillWin(s, c)
    ensures Solo(s, c, draws) && PcOf(After(s, c, draws), c).Held? && !PcOf(After(s, c, draws), c).claim.removed
    decreases Left(s, c)
  {
    hide Act, CanAct, Inv, Left;
    CanGoOn(s, c);
    if PcOf(s, c).Held? {
      draws := [];
    } else {
      var draw :| CanAct(s, c, draw);
      TurnStep(s, c, draw);
      WinsOn(s, c, draw);
      LeftFalls(s, c, draw);
      hide WillWin;
      var rest := TakesAlone(Act(s, c, draw), c);
      FirstCall(s, c, draw, rest);
      draws := [draw] + rest;
    }
  }

  // ---- A release ---------------------------------------------------------------------------------

  /** The holder is on its way to the marker. */
  predicate Releasing(s: State, c: Contender) {
    var (pc, m) := (PcOf(s, c), s.machine);
    && c in s.procs && c.pid !in s.dead
    && (pc.ReleaseRead? || (pc.CollectList? && pc.releasing) || (pc.Collecting? && pc.releasing) || pc.MarkTemp? || pc.MarkLink?)
    && !pc.claim.removed
    && (pc.MarkLink? ==> !TempGone(m, pc.temp))
  }

  /** The marker above the claim is the top. */
  predicate Marked(m: Machine, a: Claim) {
    && Current(m, a.id) && TopOf(m, a.id) == a.gen + 1
    && ReadRecord(m, Name(a.id, a.gen + 1)).Some? && ReadRecord(m, Name(a.id, a.gen + 1)).value.released
  }

  lemma ReleasesOn(s: State, c: Contender, draw: nat)
    requires Inv(s) && CanAct(s, c, draw) && Releasing(s, c) && !PcOf(s, c).MarkLink?
    ensures Releasing(Act(s, c, draw), c) && PcOf(Act(s, c, draw), c).claim == PcOf(s, c).claim
  {
    assert Fact(s.machine, s.dead, PcOf(s, c));
    hide Inv, Generations, TopOf, OwnTop;
  }

  lemma MarksNow(s: State, c: Contender, draw: nat)
    requires Inv(s) && CanAct(s, c, draw) && Releasing(s, c) && PcOf(s, c).MarkLink?
    ensures PcOf(Act(s, c, draw), c).Done? && Marked(Act(s, c, draw).machine, PcOf(s, c).claim)
  {
    var m, a := s.machine, PcOf(s, c).claim;
    assert Fact(m, s.dead, PcOf(s, c));
    hide Inv;
    TopFacts(m, a.id);
    LinkTop(m, Name(a.id, a.gen + 1), a.mine.(released := true, reserve := None), Act(s, c, draw).machine, a.id);
  }

  /** A release that nobody disturbs ends with the marker at the top. */
  lemma {:induction false} ReleasesAlone(s: State, c: Contender) returns (draws: seq<nat>)
    requires Inv(s) && Releasing(s, c)
    ensures Solo(s, c, draws) && PcOf(After(s, c, draws), c).Done? && Marked(After(s, c, draws).machine, PcOf(s, c).claim)
    decreases Left(s, c)
  {
    hide Act, CanAct, Inv, Left, Marked;
    CanGoOn(s, c);
    var draw :| CanAct(s, c, draw);
    if PcOf(s, c).MarkLink? {
      MarksNow(s, c, draw);
      FirstCall(s, c, draw, []);
      draws := [draw] + [];
    } else {
      TurnStep(s, c, draw);
      ReleasesOn(s, c, draw);
      LeftFalls(s, c, draw);
      var rest := ReleasesAlone(Act(s, c, draw), c);
      FirstCall(s, c, draw, rest);
      draws := [draw] + rest;
    }
  }
}
