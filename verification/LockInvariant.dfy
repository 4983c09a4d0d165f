/**
 * The invariant of the lock protocol, and its proof: every step of every contender keeps it.
 *
 * The linearization point is the successful link of the record just above the top. A record
 * linked anywhere else is below the top for good, and everything a contender deletes by path
 * is below the top when it is deleted.
 */
module LockInvariant {
  import opened Prelude
  import opened LockModel

  predicate Free(dead: set<Pid>, r: Record) {
    r.released || r.pid in dead
  }

  predicate Current(m: Machine, id: Id) {
    CurrentId(m) == Some(id)
  }

  /** The claim's own record is the highest of its incarnation. */
  predicate OwnTop(m: Machine, a: Claim) {
    TopOf(m, a.id) == a.gen && ReadRecord(m, Name(a.id, a.gen)) == Some(a.mine)
  }

  /** A contender about to publish record `gen`: if nothing was published since its listing,
      the top is exactly the record it judged, and that record is free. */
  predicate JudgedTop(m: Machine, dead: set<Pid>, id: Id, gen: nat, judged: Option<Record>) {
    && gen <= TopOf(m, id) + 1
    && (gen == TopOf(m, id) + 1 && judged.Some? ==>
          ReadRecord(m, Name(id, gen - 1)) == judged && Free(dead, judged.value))
  }

  // ---- The parts of the invariant --------------------------------------------------------

  predicate DirOk(s: State) {
    s.machine.Locked? ==>
      && s.machine.lock.serial < s.serial
      && (s.machine.lock.id.Some? ==> s.machine.lock.id.value in s.ids)
      && (forall n :: n in s.machine.lock.records ==> n.id in s.ids && 1 <= n.gen)
  }

  function PcId(pc: Pc): Option<Id> {
    match pc
    case List(id) => Some(id)
    case Inspect(id, _) => Some(id)
    case TestPid(id, _, _) => Some(id)
    case ClaimTemp(id, _, _) => Some(id)
    case _ => if HasClaim(pc) then Some(pc.claim.id) else None
  }

  predicate HasClaim(pc: Pc) {
    pc.ClaimLink? || pc.Relist? || pc.RereadPred? || pc.RereadId? || pc.Reject? || pc.CollectList? || pc.Collecting?
    || pc.Held? || pc.ReleaseRead? || pc.MarkTemp? || pc.MarkLink? || pc.Done?
  }

  predicate ClaimOk(c: Contender, a: Claim) {
    && a.mine.pid == c.pid && a.mine.token.author == c && !a.mine.released
    && 1 <= a.gen
    && (a.judged.None? <==> a.gen == 1)
  }

  /** What a contender remembers is well formed, whether or not it is still alive. */
  predicate Shape(ids: set<Id>, c: Contender, pc: Pc) {
    && (PcId(pc).Some? ==> PcId(pc).value in ids)
    && (HasClaim(pc) ==> ClaimOk(c, pc.claim) && (pc.claim.removed ==> pc.Held? || pc.ReleaseRead? || pc.Done?))
    && (pc.Inspect? ==> 1 <= pc.gen)
    && (pc.TestPid? ==> 1 <= pc.gen && !pc.seen.released)
    && (pc.ClaimTemp? ==> 1 <= pc.gen && (pc.judged.None? <==> pc.gen == 1))
    && (pc.RereadPred? ==> pc.claim.judged.Some?)
    && (pc.Collecting? ==> forall g :: g in pc.todo ==> g < pc.claim.gen)
  }

  /** What is true of the directory while a live contender is at `pc`. */
  predicate Fact(m: Machine, dead: set<Pid>, pc: Pc) {
    match pc
    case Inspect(id, gen) => Current(m, id) ==> gen <= TopOf(m, id)
    case TestPid(id, gen, seen) =>
      Current(m, id) ==>
        && gen <= TopOf(m, id)
        && (gen == TopOf(m, id) ==> ReadRecord(m, Name(id, gen)) == Some(seen))
    case ClaimTemp(id, gen, judged) => Current(m, id) ==> JudgedTop(m, dead, id, gen, judged)
    case ClaimLink(a, _) => Current(m, a.id) ==> JudgedTop(m, dead, a.id, a.gen, a.judged)
    case Relist(a) => Current(m, a.id) ==> a.gen < TopOf(m, a.id) || OwnTop(m, a)
    case RereadPred(a, isTop) => Current(m, a.id) ==> if isTop then OwnTop(m, a) else a.gen < TopOf(m, a.id)
    case RereadId(a) => Current(m, a.id) ==> OwnTop(m, a)
    case Reject(a) => Current(m, a.id) ==> a.gen < TopOf(m, a.id)
    case CollectList(a, _) => Stands(m, a)
    case Collecting(a, _, _) => Stands(m, a)
    case Held(a) => if a.removed then Away(m, a) else Stands(m, a)
    case ReleaseRead(a) => if a.removed then Away(m, a) else Stands(m, a)
    case MarkTemp(a) => Stands(m, a)
    case MarkLink(a, _) => Stands(m, a)
    case _ => true
  }

  predicate Stands(m: Machine, a: Claim) {
    Current(m, a.id) && OwnTop(m, a)
  }

  /** The directory this claim held is gone, and no directory at its path has its record. */
  predicate Away(m: Machine, a: Claim) {
    !Current(m, a.id) && ReadRecord(m, Name(a.id, a.gen)) != Some(a.mine)
  }

  /** A claim that is the top and still to be checked against the record it judged. */
  predicate Unchecked(m: Machine, pc: Pc) {
    (pc.Relist? || pc.RereadPred?) && Current(m, pc.claim.id) && OwnTop(m, pc.claim) && pc.claim.judged.Some?
    && 1 <= pc.claim.gen
  }

  /** The judged record is still there, and nobody is on the way to unlinking its name. */
  predicate Pair(m: Machine, pc: Pc, other: Pc) {
    Unchecked(m, pc) ==>
      && ReadRecord(m, Name(pc.claim.id, pc.claim.gen - 1)) == pc.claim.judged
      && (other.Relist? || other.RereadPred? || other.Reject? ==>
            other.claim.id != pc.claim.id || other.claim.gen != pc.claim.gen - 1)
  }

  predicate Live(s: State, c: Contender) {
    c in s.procs && c.pid !in s.dead
  }

  ghost predicate Inv(s: State) {
    && DirOk(s)
    && (forall c :: c in s.procs ==> Shape(s.ids, c, PcOf(s, c)))
    && (forall c :: Live(s, c) ==> Fact(s.machine, s.dead, PcOf(s, c)))
    && (forall c, b :: Live(s, c) && Live(s, b) ==> Pair(s.machine, PcOf(s, c), PcOf(s, b)))
  }

  // ---- The top record --------------------------------------------------------------------

  lemma GenerationNames(lock: LockDir, id: Id, g: nat)
    ensures g in Generations(lock, id) <==> Name(id, g) in lock.records
  {
    if g in Generations(lock, id) {
      var n :| n in lock.records && n.id == id && n.gen == g;
      assert n == Name(id, g);
    }
  }

  lemma TopFacts(m: Machine, id: Id)
    requires m.Locked?
    ensures forall n :: n in m.lock.records && n.id == id ==> n.gen <= TopOf(m, id)
    ensures TopOf(m, id) != 0 ==> Name(id, TopOf(m, id)) in m.lock.records
  {
    var gens := Generations(m.lock, id);
    forall n | n in m.lock.records && n.id == id
      ensures n.gen <= TopOf(m, id)
    {
      assert n.gen in gens;
    }
    if TopOf(m, id) != 0 {
      assert TopOf(m, id) in gens;
    }
  }

  lemma TopIs(m: Machine, id: Id, t: nat)
    requires m.Locked?
    requires Name(id, t) in m.lock.records
    requires forall n :: n in m.lock.records && n.id == id ==> n.gen <= t
    ensures TopOf(m, id) == t
  {
    assert Name(id, t).gen in Generations(m.lock, id);
  }

  /** Publishing a record raises the top of its own incarnation only. */
  lemma LinkTop(m: Machine, n: Name, r: Record, m': Machine, id: Id)
    requires m.Locked? && n !in m.lock.records
    requires m' == Locked(m.lock.(records := m.lock.records[n := r]))
    ensures TopOf(m', id) == if id == n.id && TopOf(m, id) < n.gen then n.gen else TopOf(m, id)
    ensures CurrentId(m') == CurrentId(m)
    ensures forall k :: k != n ==> ReadRecord(m', k) == ReadRecord(m, k)
  {
    TopFacts(m, id);
    TopFacts(m', id);
    if id == n.id && TopOf(m, id) < n.gen {
      TopIs(m', id, n.gen);
    } else if TopOf(m, id) != 0 {
      TopIs(m', id, TopOf(m, id));
    }
  }

  /** Unlinking a record below the top of its incarnation leaves every top where it was. */
  lemma UnlinkTop(m: Machine, n: Name, m': Machine, id: Id)
    requires m' == Unlink(m, n)
    requires id == n.id ==> n.gen < TopOf(m, id)
    ensures TopOf(m', id) == TopOf(m, id)
    ensures CurrentId(m') == CurrentId(m)
    ensures forall k :: k != n ==> ReadRecord(m', k) == ReadRecord(m, k)
  {
    if m.Locked? {
      TopFacts(m, id);
      TopFacts(m', id);
      if TopOf(m, id) != 0 {
        TopIs(m', id, TopOf(m, id));
      }
    }
  }

  // ---- What a change of the directory leaves true of everyone else ------------------------

  /** A record that may be published: anywhere outside the current incarnation, below its top,
      or just above a top that is free or the publisher's own. */
  predicate MayLink(m: Machine, dead: set<Pid>, c: Contender, n: Name) {
    Current(m, n.id) ==>
      || n.gen <= TopOf(m, n.id)
      || (n.gen == TopOf(m, n.id) + 1
          && (TopOf(m, n.id) == 0
              || (var top := ReadRecord(m, Name(n.id, TopOf(m, n.id)));
                  top.Some? && (Free(dead, top.value) || top.value.token.author == c))))
  }

  /** The top of a live contender is nobody else's to step over: its record is not free. */
  lemma OwnTopLink(m: Machine, dead: set<Pid>, c: Contender, n: Name, r: Record, m': Machine, b: Contender, a: Claim)
    requires m.Locked? && n !in m.lock.records && MayLink(m, dead, c, n)
    requires m' == Locked(m.lock.(records := m.lock.records[n := r]))
    requires b != c && b.pid !in dead && ClaimOk(b, a) && Current(m, a.id) && OwnTop(m, a)
    ensures Current(m', a.id) && OwnTop(m', a)
  {
    LinkTop(m, n, r, m', a.id);
  }

  lemma JudgedTopLink(m: Machine, dead: set<Pid>, n: Name, r: Record, m': Machine, id: Id, gen: nat, judged: Option<Record>)
    requires m.Locked? && n !in m.lock.records
    requires m' == Locked(m.lock.(records := m.lock.records[n := r]))
    requires JudgedTop(m, dead, id, gen, judged)
    ensures JudgedTop(m', dead, id, gen, judged)
  {
    LinkTop(m, n, r, m', id);
  }

  lemma FactLink(m: Machine, dead: set<Pid>, ids: set<Id>, c: Contender, n: Name, r: Record, m': Machine,
                 b: Contender, pc: Pc)
    requires m.Locked? && n !in m.lock.records && MayLink(m, dead, c, n) && r.token.author == c
    requires m' == Locked(m.lock.(records := m.lock.records[n := r]))
    requires b != c && b.pid !in dead && Shape(ids, b, pc) && Fact(m, dead, pc)
    ensures Fact(m', dead, pc)
  {
    if PcId(pc).Some? {
      LinkTop(m, n, r, m', PcId(pc).value);
    }
    if HasClaim(pc) && Current(m, pc.claim.id) && OwnTop(m, pc.claim) {
      OwnTopLink(m, dead, c, n, r, m', b, pc.claim);
    }
    if pc.ClaimLink? && Current(m, pc.claim.id) {
      JudgedTopLink(m, dead, n, r, m', pc.claim.id, pc.claim.gen, pc.claim.judged);
    }
    if pc.ClaimTemp? && Current(m, pc.id) {
      JudgedTopLink(m, dead, n, r, m', pc.id, pc.gen, pc.judged);
    }
  }

  lemma FactUnlink(m: Machine, dead: set<Pid>, ids: set<Id>, n: Name, m': Machine, b: Contender, pc: Pc)
    requires m' == Unlink(m, n)
    requires Current(m, n.id) ==> n.gen < TopOf(m, n.id)
    requires Shape(ids, b, pc) && Fact(m, dead, pc)
    ensures Fact(m', dead, pc)
  {
    if PcId(pc).Some? && (PcId(pc).value != n.id || Current(m, n.id)) {
      UnlinkTop(m, n, m', PcId(pc).value);
    }
  }

  lemma PairLink(m: Machine, ids: set<Id>, c: Contender, n: Name, r: Record, m': Machine,
                 b: Contender, pc: Pc, other: Pc)
    requires m.Locked? && n !in m.lock.records && r.token.author == c
    requires m' == Locked(m.lock.(records := m.lock.records[n := r]))
    requires b != c && Shape(ids, b, pc) && Pair(m, pc, other)
    ensures Pair(m', pc, other)
  {
    if Unchecked(m', pc) {
      LinkTop(m, n, r, m', pc.claim.id);
    }
  }

  lemma PairUnlink(m: Machine, n: Name, m': Machine, pc: Pc, other: Pc)
    requires m' == Unlink(m, n)
    requires Current(m, n.id) ==> n.gen < TopOf(m, n.id)
    requires Unchecked(m, pc) ==> n != Name(pc.claim.id, pc.claim.gen - 1)
    requires Pair(m, pc, other)
    ensures Pair(m', pc, other)
  {
    if (pc.Relist? || pc.RereadPred?) && Current(m, pc.claim.id) {
      UnlinkTop(m, n, m', pc.claim.id);
    }
  }
}
