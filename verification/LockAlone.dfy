/**
 * A contender left alone at any call, after any interference: it ends, after a bounded number of
 * calls and at most one more pass, and over a free top it ends with the lock.
 */
module LockAlone {
  import opened Prelude
  import opened LockModel
  import opened LockInvariant
  import opened LockSteps
  import opened LockProgress

  /** A stretch in which only contender `c` takes turns. */
  predicate Alone(ss: seq<State>, ls: seq<Label>, c: Contender) {
    && |ss| == |ls| + 1
    && forall i {:trigger ls[i]} :: 0 <= i < |ls| ==> ls[i].Turn? && ls[i].c == c && Next(ss[i], ls[i], ss[i + 1])
  }

  // ---- How many calls are left -------------------------------------------------------------

  function Records(m: Machine): nat {
    if m.Locked? then |m.lock.records| else 0
  }

  /** The calls of a pass from here, if it is not rejected. */
  function Rank(s: State, c: Contender): nat {
    var n := Records(s.machine);
    match PcOf(s, c)
    case EnsureDir => n + 20
    case ReadId => n + 19
    case IdTemp => n + 18
    case IdLink(_) => n + 17
    case IdReread => n + 16
    case List(_) => n + 15
    case Inspect(_, _) => n + 14
    case TestPid(_, _, _) => n + 13
    case ClaimTemp(_, _, _) => n + 12
    case ClaimLink(_, _) => n + 11
    case Relist(_) => n + 9
    case RereadPred(_, _) => n + 8
    case RereadId(_) => n + 7
    case Reject(_) => n + 6
    case ReleaseRead(_) => n + 7
    case CollectList(_, _) => n + 6
    case Collecting(_, todo, _) => |todo| + 4
    case MarkTemp(_) => 3
    case MarkLink(_, _) => 2
    case _ => 0
  }

  /** What the contender remembers of its pass is still so: the pass will not be rejected. */
  predicate Sure(s: State, c: Contender) {
    var pc, m := PcOf(s, c), s.machine;
    && (pc.List? ==> m.Locked? ==> Current(m, pc.id))
    && (InPass(pc) ==>
          && PcId(pc).Some? && Current(m, PcId(pc).value)
          && var t := TopOf(m, PcId(pc).value);
             if Published(pc) then t > 0 && Undisturbed(s, c, PcId(pc).value, t - 1)
             else Undisturbed(s, c, PcId(pc).value, t))
  }

  /** The pass it is in, and one more if this one may be rejected. */
  function Left(s: State, c: Contender): nat {
    Rank(s, c) + if Sure(s, c) then 0 else 20
  }

  lemma OwnTurnKeepsId(s: State, c: Contender, draw: nat, id: Id)
    requires CanAct(s, c, draw) && Current(s.machine, id)
    ensures Current(Act(s, c, draw).machine, id)
  {
  }

  /** Once sure, alone, it stays sure, and never goes round again. */
  lemma SureStays(s: State, c: Contender, draw: nat)
    requires Inv(s) && CanAct(s, c, draw) && Sure(s, c)
    ensures Sure(Act(s, c, draw), c)
    ensures PcOf(Act(s, c, draw), c).ReadId? ==> PcOf(s, c).EnsureDir?
  {
    var pc := PcOf(s, c);
    if InPass(pc) {
      SurePassStays(s, c, draw);
    } else if pc.List? && s.machine.Locked? {
      ListingStartsPass(s, c, draw, pc.id);
      ListingIsSure(s, c, draw);
    } else {
      SureOutsidePass(s, c, draw);
    }
  }

  lemma SureOutsidePass(s: State, c: Contender, draw: nat)
    requires CanAct(s, c, draw) && !InPass(PcOf(s, c)) && (PcOf(s, c).List? ==> !s.machine.Locked?)
    ensures Sure(Act(s, c, draw), c)
    ensures PcOf(Act(s, c, draw), c).ReadId? ==> PcOf(s, c).EnsureDir?
  {
    hide Undisturbed;
  }

  lemma ListingIsSure(s: State, c: Contender, draw: nat)
    requires CanAct(s, c, draw) && PcOf(s, c).List? && s.machine.Locked? && Current(s.machine, PcOf(s, c).id)
    requires Undisturbed(Act(s, c, draw), c, PcOf(s, c).id, TopOf(s.machine, PcOf(s, c).id))
    ensures Sure(Act(s, c, draw), c)
    ensures !PcOf(Act(s, c, draw), c).ReadId?
  {
  }

  lemma SurePassStays(s: State, c: Contender, draw: nat)
    requires Inv(s) && CanAct(s, c, draw) && Sure(s, c) && InPass(PcOf(s, c))
    ensures Sure(Act(s, c, draw), c) && !PcOf(Act(s, c, draw), c).ReadId?
  {
    var pc := PcOf(s, c);
    var id := PcId(pc).value;
    var g := if Published(pc) then TopOf(s.machine, id) - 1 else TopOf(s.machine, id);
    OwnTurnGoesOn(s, c, draw, id, g);
    OwnTurnKeepsId(s, c, draw, id);
    StillInPass(s, c, draw, id, g);
  }

  /** After one turn of an undisturbed pass, it is over or is still of the same incarnation. */
  lemma StillInPass(s: State, c: Contender, draw: nat, id: Id, g: nat)
    requires CanAct(s, c, draw) && InPass(PcOf(s, c)) && PcId(PcOf(s, c)) == Some(id)
    requires Current(Act(s, c, draw).machine, id) && !PcOf(Act(s, c, draw), c).ReadId?
    requires InPass(PcOf(Act(s, c, draw), c)) ==> Undisturbed(Act(s, c, draw), c, id, g)
    ensures Sure(Act(s, c, draw), c)
  {
  }

  /** Every turn is one call fewer to go. */
  lemma LeftFalls(s: State, c: Contender, draw: nat)
    requires Inv(s) && CanAct(s, c, draw)
    ensures Left(Act(s, c, draw), c) < Left(s, c)
  {
    RankFalls(s, c, draw);
    if Sure(s, c) {
      SureStays(s, c, draw);
    }
    assert PcOf(Act(s, c, draw), c).ReadId? ==> Sure(Act(s, c, draw), c);
    hide Rank, Sure, Act;
  }

  /** The turn did not go round again, and fewer calls of the pass are left; or it did. */
  predicate Nearer(s: State, c: Contender, s': State) {
    if PcOf(s', c).ReadId? && !PcOf(s, c).EnsureDir? then Rank(s', c) < Rank(s, c) + 20 else Rank(s', c) < Rank(s, c)
  }

  lemma RankFalls(s: State, c: Contender, draw: nat)
    requires CanAct(s, c, draw)
    ensures Nearer(s, c, Act(s, c, draw))
  {
    var pc := PcOf(s, c);
    if pc.Reject? || pc.Collecting? {
      RankFallsDeleting(s, c, draw);
    } else if pc.CollectList? || pc.ReleaseRead? || pc.MarkTemp? || pc.MarkLink? {
      RankFallsEnding(s, c, draw);
    } else if pc.ClaimTemp? || pc.ClaimLink? || pc.Relist? || pc.RereadPred? || pc.RereadId? {
      RankFallsClaiming(s, c, draw);
    } else {
      RankFallsReading(s, c, draw);
    }
  }

  lemma RankFallsReading(s: State, c: Contender, draw: nat)
    requires CanAct(s, c, draw)
    requires var pc := PcOf(s, c);
             pc.EnsureDir? || pc.ReadId? || pc.IdTemp? || pc.IdLink? || pc.IdReread? || pc.List? || pc.Inspect? || pc.TestPid?
    ensures Nearer(s, c, Act(s, c, draw))
  {
  }

  lemma RankFallsClaiming(s: State, c: Contender, draw: nat)
    requires CanAct(s, c, draw)
    requires var pc := PcOf(s, c); pc.ClaimTemp? || pc.ClaimLink? || pc.Relist? || pc.RereadPred? || pc.RereadId?
    ensures Nearer(s, c, Act(s, c, draw))
  {
    hide Generations, ReadRecord, CurrentId;
    var pc, m := PcOf(s, c), s.machine;
    if pc.ClaimLink? && m.Locked? {
      OneMoreRecord(m.lock.records, Name(pc.claim.id, pc.claim.gen), pc.claim.mine);
    }
  }

  lemma RankFallsDeleting(s: State, c: Contender, draw: nat)
    requires CanAct(s, c, draw)
    requires var pc := PcOf(s, c); pc.Reject? || pc.Collecting?
    ensures Nearer(s, c, Act(s, c, draw))
  {
    hide Generations, ReadRecord, CurrentId;
    var pc, m := PcOf(s, c), s.machine;
    if pc.Collecting? {
      RankFallsCollecting(s, c, draw);
    } else if m.Locked? {
      KeysAtMost(m.lock.records, Name(pc.claim.id, pc.claim.gen));
    }
  }

  lemma RankFallsCollecting(s: State, c: Contender, draw: nat)
    requires CanAct(s, c, draw) && PcOf(s, c).Collecting?
    ensures Nearer(s, c, Act(s, c, draw))
  {
    hide Generations, ReadRecord, CurrentId, Unlink;
  }

  lemma RankFallsEnding(s: State, c: Contender, draw: nat)
    requires CanAct(s, c, draw)
    requires var pc := PcOf(s, c); pc.CollectList? || pc.ReleaseRead? || pc.MarkTemp? || pc.MarkLink?
    ensures Nearer(s, c, Act(s, c, draw))
  {
    hide ReadRecord, CurrentId;
    var pc, m := PcOf(s, c), s.machine;
    if pc.CollectList? && m.Locked? {
      ListedAtMost(m.lock, pc.claim.id, pc.claim.gen);
    }
  }

  lemma OneMoreRecord(records: map<Name, Record>, n: Name, r: Record)
    ensures |records[n := r]| <= |records| + 1
  {
    assert records[n := r].Keys == records.Keys + {n};
    assert |records[n := r]| == |records[n := r].Keys| && |records| == |records.Keys|;
  }

  lemma KeysAtMost(records: map<Name, Record>, n: Name)
    ensures |records - {n}| <= |records|
  {
    var fewer := records - {n};
    assert fewer.Keys <= records.Keys;
    assert records.Keys == fewer.Keys + (records.Keys - fewer.Keys);
    assert |fewer| == |fewer.Keys| && |records| == |records.Keys|;
  }

  /** No more numbers are listed than there are records. */
  lemma ListedAtMost(lock: LockDir, id: Id, keepFrom: nat)
    ensures |set g | g in Generations(lock, id) && g < keepFrom| <= |lock.records|
  {
    var listed := set g | g in Generations(lock, id) && g < keepFrom;
    var names := set g | g in listed :: Name(id, g);
    NamesOfNumbers(listed, id);
    forall n | n in names
      ensures n in lock.records.Keys
    {
      GenerationNames(lock, id, n.gen);
    }
    assert lock.records.Keys == names + (lock.records.Keys - names);
    assert |lock.records| == |lock.records.Keys|;
  }

  lemma {:induction false} NamesOfNumbers(gens: set<nat>, id: Id)
    ensures |set g | g in gens :: Name(id, g)| == |gens|
    decreases |gens|
  {
    if gens != {} {
      var g :| g in gens;
      var rest := gens - {g};
      NamesOfNumbers(rest, id);
      var names, others := set k | k in gens :: Name(id, k), set k | k in rest :: Name(id, k);
      assert names == others + {Name(id, g)};
    }
  }

  /** It can always make a call, until its attempt or its release is over. */
  lemma CanGoOn(s: State, c: Contender)
    requires c.pid !in s.dead
    ensures (exists draw :: CanAct(s, c, draw))
            <==> var pc := PcOf(s, c); !pc.Idle? && !pc.Held? && !pc.Done? && !pc.Refused? && !pc.NotFound?
  {
    var pc := PcOf(s, c);
    if !pc.Idle? && !pc.Held? && !pc.Done? && !pc.Refused? && !pc.NotFound? {
      var draw := 0;
      if pc.IdLink? && s.ids != {} {
        draw := MaxOf(s.ids) + 1;
      } else if pc.Collecting? && pc.todo != {} {
        draw :| draw in pc.todo;
      }
      assert CanAct(s, c, draw);
    }
  }

  lemma AloneActs(ss: seq<State>, ls: seq<Label>, c: Contender, k: nat)
    requires Alone(ss, ls, c) && k < |ls|
    ensures CanAct(ss[k], c, ls[k].draw) && ss[k + 1] == Act(ss[k], c, ls[k].draw)
  {
    hide Act, CanAct;
    assert Next(ss[k], ls[k], ss[k + 1]);
  }

  lemma {:induction false} AloneInv(ss: seq<State>, ls: seq<Label>, c: Contender, k: nat)
    requires Alone(ss, ls, c) && Inv(ss[0]) && k < |ss|
    ensures Inv(ss[k]) && ss[k].dead == ss[0].dead
  {
    hide Act, CanAct, Inv;
    if k > 0 {
      AloneInv(ss, ls, c, k - 1);
      AloneActs(ss, ls, c, k - 1);
      TurnStep(ss[k - 1], c, ls[k - 1].draw);
      OwnTurnKillsNobody(ss[k - 1], c, ls[k - 1].draw);
    }
  }

  lemma {:induction false} AloneLeft(ss: seq<State>, ls: seq<Label>, c: Contender, k: nat)
    requires Alone(ss, ls, c) && Inv(ss[0]) && k < |ss|
    ensures Left(ss[k], c) + k <= Left(ss[0], c)
  {
    hide Act, CanAct, Inv, Left;
    if k > 0 {
      AloneLeft(ss, ls, c, k - 1);
      AloneInv(ss, ls, c, k - 1);
      AloneActs(ss, ls, c, k - 1);
      LeftFalls(ss[k - 1], c, ls[k - 1].draw);
    }
  }

  lemma OwnTurnKillsNobody(s: State, c: Contender, draw: nat)
    ensures Act(s, c, draw).dead == s.dead
  {
  }

  /** From any reachable state: a live contender left alone at any call ends its attempt or its
      release within `Left` calls, and until then always has a next one. */
  lemma LeftAloneEnds(past: seq<State>, pls: seq<Label>, ss: seq<State>, ls: seq<Label>, c: Contender)
    requires Run(past, pls) && Alone(ss, ls, c) && ss[0] == past[|pls|] && c.pid !in ss[0].dead
    ensures |ls| <= Left(ss[0], c) <= Records(ss[0].machine) + 40 + (if PcOf(ss[0], c).Collecting? then |PcOf(ss[0], c).todo| else 0)
    ensures var pc := PcOf(ss[|ls|], c);
            pc.Idle? || pc.Held? || pc.Done? || pc.Refused? || pc.NotFound? || exists draw :: CanAct(ss[|ls|], c, draw)
  {
    RunKeepsInv(past, pls, |pls|);
    AloneInv(ss, ls, c, |ls|);
    AloneLeft(ss, ls, c, |ls|);
    CanGoOn(ss[|ls|], c);
  }

  // ---- With the lock -----------------------------------------------------------------------

  predicate FreeTop(m: Machine, dead: set<Pid>, id: Id) {
    TopOf(m, id) == 0
    || (var top := ReadRecord(m, Name(id, TopOf(m, id))); top.Some? && Free(dead, top.value))
  }

  predicate HoldsTop(m: Machine, pc: Pc) {
    (Published(pc) || pc.CollectList? || pc.Collecting? || pc.Held?) && Current(m, pc.claim.id) && OwnTop(m, pc.claim)
  }

  /** Nobody else's live record is the top. */
  predicate Clear(s: State, c: Contender) {
    CurrentId(s.machine).Some? ==>
      FreeTop(s.machine, s.dead, CurrentId(s.machine).value) || HoldsTop(s.machine, PcOf(s, c))
  }

  /** The directory it works in is there, and what it has read or is about to read of the top is
      no live holder's record. */
  predicate Unhindered(s: State, c: Contender) {
    var pc, m := PcOf(s, c), s.machine;
    && (m.Locked? || (pc.EnsureDir? && m.Bare?))
    && (pc.IdReread? ==> CurrentId(m).Some?)
    && (pc.IdLink? || pc.ClaimLink? ==> !TempGone(m, pc.temp))
    && (pc.List? ==> FreeTop(m, s.dead, pc.id))
    && (pc.Inspect? ==> var r := ReadRecord(m, Name(pc.id, pc.gen)); r.None? || Free(s.dead, r.value))
    && (pc.TestPid? ==> pc.seen.pid in s.dead)
    && (pc.CollectList? || pc.Collecting? ==> !pc.releasing)
    && (pc.Held? ==> !pc.claim.removed)
    && !pc.Idle? && !pc.ReleaseRead? && !pc.MarkTemp? && !pc.MarkLink? && !pc.Done? && !pc.Refused? && !pc.NotFound?
  }

  ghost predicate WillWin(s: State, c: Contender) {
    Live(s, c) && Unhindered(s, c) && Clear(s, c)
  }

  /** A fresh id has no records under it. */
  lemma NothingUnder(s: State, draw: nat)
    requires Inv(s) && s.machine.Locked? && draw !in s.ids
    ensures TopOf(Locked(s.machine.lock.(id := Some(draw))), draw) == 0
  {
    assert Generations(s.machine.lock.(id := Some(draw)), draw) == {};
  }

  lemma WinsReading(s: State, c: Contender, draw: nat)
    requires Inv(s) && CanAct(s, c, draw) && WillWin(s, c)
    requires var pc := PcOf(s, c); pc.EnsureDir? || pc.ReadId? || pc.IdTemp? || pc.IdReread?
    ensures WillWin(Act(s, c, draw), c)
  {
  }

  lemma WinsJudging(s: State, c: Contender, draw: nat)
    requires CanAct(s, c, draw) && WillWin(s, c)
    requires var pc := PcOf(s, c); pc.Inspect? || pc.TestPid? || pc.ClaimTemp?
    ensures WillWin(Act(s, c, draw), c)
  {
  }

  lemma WinsOpening(s: State, c: Contender, draw: nat)
    requires Inv(s) && CanAct(s, c, draw) && WillWin(s, c)
    requires PcOf(s, c).IdLink? || PcOf(s, c).List?
    ensures WillWin(Act(s, c, draw), c)
  {
    if PcOf(s, c).IdLink? {
      NothingUnder(s, draw);
    } else {
      var id := PcOf(s, c).id;
      TopFacts(s.machine, id);
      if Generations(s.machine.lock, id) != {} {
        GenerationNames(s.machine.lock, id, MaxOf(Generations(s.machine.lock, id)));
      }
    }
  }

  lemma WinsPublishing(s: State, c: Contender, draw: nat)
    requires Inv(s) && CanAct(s, c, draw) && WillWin(s, c) && PcOf(s, c).ClaimLink?
    ensures WillWin(Act(s, c, draw), c)
  {
    var a, m := PcOf(s, c).claim, s.machine;
    assert Shape(s.ids, c, PcOf(s, c)) && Fact(m, s.dead, PcOf(s, c));
    if Name(a.id, a.gen) !in m.lock.records {
      var after := Act(s, c, draw).machine;
      LinkTop(m, Name(a.id, a.gen), a.mine, after, a.id);
      if CurrentId(m).Some? {
        LinkTop(m, Name(a.id, a.gen), a.mine, after, CurrentId(m).value);
        TopFacts(m, CurrentId(m).value);
      }
    }
  }

  /** A published top is checked through; another claim is taken back, below a free top. */
  lemma WinsChecking(s: State, c: Contender, draw: nat)
    requires Inv(s) && CanAct(s, c, draw) && WillWin(s, c) && Published(PcOf(s, c))
    ensures WillWin(Act(s, c, draw), c)
  {
    var pc, m := PcOf(s, c), s.machine;
    assert Shape(s.ids, c, pc) && Fact(m, s.dead, pc);
    if Current(m, pc.claim.id) && OwnTop(m, pc.claim) {
      assert Sure(s, c);
      SurePassStays(s, c, draw);
      OwnTopPasses(s, c, draw);
    } else {
      StaleIsChecked(s, c, draw);
    }
  }

  lemma OwnTopPasses(s: State, c: Contender, draw: nat)
    requires CanAct(s, c, draw) && WillWin(s, c) && Published(PcOf(s, c))
    requires HoldsTop(s.machine, PcOf(s, c)) && Sure(Act(s, c, draw), c)
    ensures WillWin(Act(s, c, draw), c)
  {
  }

  lemma StaleIsChecked(s: State, c: Contender, draw: nat)
    requires CanAct(s, c, draw) && WillWin(s, c) && Published(PcOf(s, c))
    requires !HoldsTop(s.machine, PcOf(s, c)) && Fact(s.machine, s.dead, PcOf(s, c))
    ensures WillWin(Act(s, c, draw), c)
  {
  }

  lemma WinsDeleting(s: State, c: Contender, draw: nat)
    requires Inv(s) && CanAct(s, c, draw) && WillWin(s, c)
    requires PcOf(s, c).Reject? || PcOf(s, c).CollectList? || PcOf(s, c).Collecting?
    ensures WillWin(Act(s, c, draw), c)
  {
    var pc, m := PcOf(s, c), s.machine;
    assert Shape(s.ids, c, pc) && Fact(m, s.dead, pc);
    if Deletes(pc, draw).Some? {
      var n := Deletes(pc, draw).value;
      DeletesBelowTop(s, c, draw, n);
      if CurrentId(m).Some? {
        UnlinkTop(m, n, Unlink(m, n), CurrentId(m).value);
      }
    }
  }

  lemma WinsOn(s: State, c: Contender, draw: nat)
    requires Inv(s) && CanAct(s, c, draw) && WillWin(s, c)
    ensures WillWin(Act(s, c, draw), c)
  {
    var pc := PcOf(s, c);
    if pc.IdLink? || pc.List? {
      WinsOpening(s, c, draw);
    } else if pc.ClaimLink? {
      WinsPublishing(s, c, draw);
    } else if Published(pc) {
      WinsChecking(s, c, draw);
    } else if pc.Reject? || pc.CollectList? || pc.Collecting? {
      WinsDeleting(s, c, draw);
    } else if pc.Inspect? || pc.TestPid? || pc.ClaimTemp? {
      WinsJudging(s, c, draw);
    } else {
      WinsReading(s, c, draw);
    }
  }

  lemma {:induction false} AloneWins(ss: seq<State>, ls: seq<Label>, c: Contender, k: nat)
    requires Alone(ss, ls, c) && Inv(ss[0]) && WillWin(ss[0], c) && k < |ss|
    ensures WillWin(ss[k], c)
  {
    hide Act, CanAct, Inv, WillWin;
    if k > 0 {
      AloneWins(ss, ls, c, k - 1);
      AloneInv(ss, ls, c, k - 1);
      AloneActs(ss, ls, c, k - 1);
      WinsOn(ss[k - 1], c, ls[k - 1].draw);
    }
  }

  lemma {:induction false} AloneSure(ss: seq<State>, ls: seq<Label>, c: Contender, i: nat, k: nat)
    requires Alone(ss, ls, c) && Inv(ss[0]) && 0 < i <= k < |ss| && PcOf(ss[i], c).ReadId?
    ensures Sure(ss[k], c) && !PcOf(ss[k], c).EnsureDir? && (i < k ==> !PcOf(ss[k], c).ReadId?)
  {
    if i < k {
      hide Act, CanAct, Inv, Sure;
      AloneSure(ss, ls, c, i, k - 1);
      AloneInv(ss, ls, c, k - 1);
      AloneActs(ss, ls, c, k - 1);
      SureStays(ss[k - 1], c, ls[k - 1].draw);
      NeverOpensAgain(ss[k - 1], c, ls[k - 1].draw);
    }
  }

  lemma NeverOpensAgain(s: State, c: Contender, draw: nat)
    requires CanAct(s, c, draw)
    ensures !PcOf(Act(s, c, draw), c).EnsureDir?
  {
  }

  /** From any reachable state: a live contender left alone at any call of its attempt, with no
      live holder's record at the top or in its hands and with its directory still there, holds
      the lock after at most `Left` calls, having started over at most once. */
  lemma LeftAloneAcquires(past: seq<State>, pls: seq<Label>, ss: seq<State>, ls: seq<Label>, c: Contender)
    requires Run(past, pls) && Alone(ss, ls, c) && ss[0] == past[|pls|] && WillWin(ss[0], c)
    ensures |ls| <= Left(ss[0], c)
    ensures (Standing(ss[|ls|], c) && PcOf(ss[|ls|], c).Held?) || exists draw :: CanAct(ss[|ls|], c, draw)
    ensures forall i, j :: 0 < i < j < |ss| && PcOf(ss[i], c).ReadId? ==> !PcOf(ss[j], c).ReadId?
  {
    RunKeepsInv(past, pls, |pls|);
    AloneLeft(ss, ls, c, |ls|);
    AloneWins(ss, ls, c, |ls|);
    CanGoOn(ss[|ls|], c);
    forall i, j | 0 < i < j < |ss| && PcOf(ss[i], c).ReadId?
      ensures !PcOf(ss[j], c).ReadId?
    {
      AloneSure(ss, ls, c, i, j);
    }
  }

  lemma {:induction false} AloneStaysSure(ss: seq<State>, ls: seq<Label>, c: Contender, k: nat)
    requires Alone(ss, ls, c) && Inv(ss[0]) && PcOf(ss[0], c).EnsureDir? && k < |ss|
    ensures Sure(ss[k], c) && (0 < k ==> !PcOf(ss[k], c).EnsureDir?) && (1 < k ==> !PcOf(ss[k], c).ReadId?)
  {
    if k > 0 {
      hide Act, CanAct, Inv, Sure;
      AloneStaysSure(ss, ls, c, k - 1);
      AloneInv(ss, ls, c, k - 1);
      AloneActs(ss, ls, c, k - 1);
      SureStays(ss[k - 1], c, ls[k - 1].draw);
      NeverOpensAgain(ss[k - 1], c, ls[k - 1].draw);
    }
  }

  /** A new attempt, alone, over a top that is free, whatever crashed before: one pass. */
  lemma AloneAcquires(past: seq<State>, pls: seq<Label>, ss: seq<State>, ls: seq<Label>, c: Contender)
    requires Run(past, pls) && Alone(ss, ls, c) && ss[0] == past[|pls|]
    requires c.pid !in ss[0].dead && PcOf(ss[0], c).EnsureDir? && !ss[0].machine.Absent?
    requires CurrentId(ss[0].machine).Some? ==> FreeTop(ss[0].machine, ss[0].dead, CurrentId(ss[0].machine).value)
    ensures |ls| <= Records(ss[0].machine) + 20
    ensures (Standing(ss[|ls|], c) && PcOf(ss[|ls|], c).Held?) || exists draw :: CanAct(ss[|ls|], c, draw)
    ensures forall k :: 1 < k < |ss| ==> !PcOf(ss[k], c).ReadId?
  {
    RunKeepsInv(past, pls, |pls|);
    LeftAloneAcquires(past, pls, ss, ls, c);
    forall k | 1 < k < |ss|
      ensures !PcOf(ss[k], c).ReadId?
    {
      AloneStaysSure(ss, ls, c, k);
    }
  }
}
