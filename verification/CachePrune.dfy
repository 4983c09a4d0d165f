/**
 * The cache retention policy: which entries are never touched, the order the others go in, and
 * when the size-cap and reclaim phases stop, whatever deletes fail.
 */
module CachePrune {
  import opened Prelude
  import Sorting

  /** A version as the given comparison ranks it; texts of equal rank can differ. */
  datatype Version = Unknown | Known(text: string, rank: int)

  datatype Entry = Entry(basename: string, partial: bool, version: Version, size: nat, mtime: int, inUse: bool)

  datatype Options = Options(
    maxSize: Option<nat>,
    maxAge: Option<int>,
    olderThan: Option<Version>,
    protect: set<Version>,
    reclaim: Option<nat>,
    skipRecent: Option<int>,
    skip: set<string>,
    dryRun: bool)

  datatype Result = Result(evicted: seq<Entry>, kept: seq<Entry>, failed: seq<Entry>, freed: nat)

  /** The given total preorder, with unknown versions least. */
  function CompareVersions(a: Version, b: Version): int {
    if a == b then 0
    else if a.Unknown? then -1
    else if b.Unknown? then 1
    else a.rank - b.rank
  }

  function Size(es: seq<Entry>): nat {
    if es == [] then 0 else es[0].size + Size(es[1..])
  }

  predicate Untouchable(opts: Options, now: int, e: Entry) {
    || e.inUse
    || e.version in opts.protect
    || e.basename in opts.skip
    || (opts.skipRecent.Some? && now - e.mtime < opts.skipRecent.value)
  }

  // ---- The order -------------------------------------------------------------------------

  /** The comparator of the sort: interrupted downloads, then oldest version, then oldest use. */
  function Compare(a: Entry, b: Entry): int {
    if a.partial != b.partial then (if a.partial then -1 else 1)
    else if CompareVersions(a.version, b.version) != 0 then CompareVersions(a.version, b.version)
    else a.mtime - b.mtime
  }

  predicate Sorted(es: seq<Entry>) {
    forall i, j :: 0 <= i < j < |es| ==> Compare(es[i], es[j]) <= 0
  }

  /** Interrupted downloads first; among equals there the unknown versions, then by version; and
      among equals there by last use. */
  predicate GoesBefore(a: Entry, b: Entry) {
    && (b.partial ==> a.partial)
    && (a.partial == b.partial ==>
          && (b.version.Unknown? ==> a.version.Unknown?)
          && (a.version.Known? && b.version.Known? ==> a.version.rank <= b.version.rank)
          && (a.version == b.version || (a.version.Known? && b.version.Known? && a.version.rank == b.version.rank) ==>
                a.mtime <= b.mtime))
  }

  predicate InEvictionOrder(es: seq<Entry>) {
    forall i, j :: 0 <= i < j < |es| ==> GoesBefore(es[i], es[j])
  }

  lemma SortedIsEvictionOrder(es: seq<Entry>)
    ensures Sorted(es) <==> InEvictionOrder(es)
  {
    forall a: Entry, b: Entry
      ensures Compare(a, b) <= 0 <==> GoesBefore(a, b)
    {
    }
  }

  function SortEntries(es: seq<Entry>): seq<Entry> {
    Sorting.Sort(es, Compare)
  }

  lemma SortSorts(es: seq<Entry>)
    ensures Sorted(SortEntries(es))
  {
    assert Sorting.Orders(Compare);
    Sorting.SortSorts(es, Compare);
  }

  lemma SortKeeps(es: seq<Entry>)
    ensures multiset(SortEntries(es)) == multiset(es)
  {
    Sorting.SortKeeps(es, Compare);
  }

  // ---- What is evicted -------------------------------------------------------------------

  /** Deletes done and deletes failed so far. */
  datatype Plan = Plan(evicted: seq<Entry>, failed: seq<Entry>)

  /** `stuck` are the entries whose delete fails. */
  function Evict(p: Plan, e: Entry, stuck: set<Entry>): Plan {
    if e in stuck then p.(failed := p.failed + [e]) else p.(evicted := p.evicted + [e])
  }

  function EvictAll(p: Plan, es: seq<Entry>, stuck: set<Entry>): Plan
    decreases |es|
  {
    if es == [] then p else EvictAll(Evict(p, es[0], stuck), es[1..], stuck)
  }

  /** The three questions asked of every entry. */
  datatype Rule = IsUntouchable | IsOlder | IsAged

  predicate Meets(opts: Options, now: int, rule: Rule, e: Entry) {
    match rule
    case IsUntouchable => Untouchable(opts, now, e)
    case IsOlder => opts.olderThan.Some? && !e.version.Unknown? && CompareVersions(e.version, opts.olderThan.value) < 0
    case IsAged => opts.maxAge.Some? && now - e.mtime > opts.maxAge.value
  }

  /** The entries for which the answer is `want`, in their order. */
  function Select(opts: Options, now: int, es: seq<Entry>, rule: Rule, want: bool): seq<Entry> {
    if es == [] then []
    else (if Meets(opts, now, rule, es[0]) == want then [es[0]] else []) + Select(opts, now, es[1..], rule, want)
  }

  /** Evict from the front while what is left on disk is over the cap. A failed delete frees
      nothing, so it does not lower the total. */
  function CapPhase(p: Plan, es: seq<Entry>, total: int, cap: nat, stuck: set<Entry>): (Plan, seq<Entry>)
    decreases |es|
  {
    if total <= cap || es == [] then (p, es)
    else CapPhase(Evict(p, es[0], stuck), es[1..], if es[0] in stuck then total else total - es[0].size, cap, stuck)
  }

  function ReclaimPhase(p: Plan, es: seq<Entry>, target: nat, stuck: set<Entry>): (Plan, seq<Entry>)
    decreases |es|
  {
    if target <= Size(p.evicted) || es == [] then (p, es)
    else ReclaimPhase(Evict(p, es[0], stuck), es[1..], target, stuck)
  }

  function Protected(opts: Options, now: int, inventory: seq<Entry>): seq<Entry> {
    Select(opts, now, inventory, IsUntouchable, true)
  }

  function Candidates(opts: Options, now: int, inventory: seq<Entry>): seq<Entry> {
    SortEntries(Select(opts, now, inventory, IsUntouchable, false))
  }

  /** The version threshold and then the age threshold: what they leave, and what they evict. */
  function Thresholds(opts: Options, now: int, candidates: seq<Entry>, stuck: set<Entry>): (seq<Entry>, Plan) {
    var young := Select(opts, now, candidates, IsOlder, false);
    (Select(opts, now, young, IsAged, false),
     EvictAll(EvictAll(Plan([], []), Select(opts, now, candidates, IsOlder, true), stuck),
              Select(opts, now, young, IsAged, true), stuck))
  }

  /** The candidates that the thresholds leave, in order. */
  function Remaining(opts: Options, now: int, inventory: seq<Entry>): seq<Entry> {
    Thresholds(opts, now, Candidates(opts, now, inventory), {}).0
  }

  function AfterThresholds(opts: Options, now: int, inventory: seq<Entry>, stuck: set<Entry>): Plan {
    Thresholds(opts, now, Candidates(opts, now, inventory), stuck).1
  }

  /** The size-cap phase, counting what is protected, what is left and what is stuck. */
  function LimitTo(opts: Options, untouched: seq<Entry>, p: Plan, es: seq<Entry>, stuck: set<Entry>): (Plan, seq<Entry>) {
    if opts.maxSize.None? then (p, es)
    else CapPhase(p, es, Size(untouched) + Size(es) + Size(p.failed), opts.maxSize.value, stuck)
  }

  function ReclaimTo(opts: Options, p: Plan, es: seq<Entry>, stuck: set<Entry>): (Plan, seq<Entry>) {
    if opts.reclaim.None? then (p, es) else ReclaimPhase(p, es, opts.reclaim.value, stuck)
  }

  function AfterCap(opts: Options, now: int, inventory: seq<Entry>, stuck: set<Entry>): (Plan, seq<Entry>) {
    LimitTo(opts, Protected(opts, now, inventory), AfterThresholds(opts, now, inventory, stuck),
            Remaining(opts, now, inventory), stuck)
  }

  function AfterReclaim(opts: Options, now: int, inventory: seq<Entry>, stuck: set<Entry>): (Plan, seq<Entry>) {
    var (p, es) := AfterCap(opts, now, inventory, stuck);
    ReclaimTo(opts, p, es, stuck)
  }

  /** A dry run deletes nothing, so no delete of it fails. */
  function Failing(opts: Options, stuck: set<Entry>): set<Entry> {
    if opts.dryRun then {} else stuck
  }

  function Prune(opts: Options, now: int, inventory: seq<Entry>, stuck: set<Entry>): Result {
    var (p, es) := AfterReclaim(opts, now, inventory, Failing(opts, stuck));
    Result(p.evicted, Protected(opts, now, inventory) + es, p.failed, Size(p.evicted))
  }

  // ---- The code --------------------------------------------------------------------------

  lemma {:induction false} SizeMore(es: seq<Entry>, e: Entry)
    ensures Size(es + [e]) == Size(es) + e.size
  {
    if es == [] {
      assert (es + [e])[1..] == [];
    } else {
      SizeMore(es[1..], e);
      assert (es + [e])[1..] == es[1..] + [e];
    }
  }

  lemma {:induction false} SelectMore(opts: Options, now: int, es: seq<Entry>, e: Entry, rule: Rule, want: bool)
    ensures Select(opts, now, es + [e], rule, want)
            == if Meets(opts, now, rule, e) == want then Select(opts, now, es, rule, want) + [e]
               else Select(opts, now, es, rule, want)
    decreases |es|
  {
    hide Meets;
    if es == [] {
      assert (es + [e])[1..] == [];
    } else {
      SelectMore(opts, now, es[1..], e, rule, want);
      assert (es + [e])[1..] == es[1..] + [e];
    }
  }

  lemma {:induction false} EvictMore(p: Plan, es: seq<Entry>, e: Entry, stuck: set<Entry>)
    ensures EvictAll(p, es + [e], stuck) == Evict(EvictAll(p, es, stuck), e, stuck)
    decreases |es|
  {
    if es == [] {
      assert (es + [e])[1..] == [];
    } else {
      EvictMore(Evict(p, es[0], stuck), es[1..], e, stuck);
      assert (es + [e])[1..] == es[1..] + [e];
    }
  }

  lemma NothingSelected(opts: Options, now: int, rule: Rule, want: bool)
    ensures Select(opts, now, [], rule, want) == []
  {
  }

  lemma NothingEvicted(p: Plan, stuck: set<Entry>)
    ensures EvictAll(p, [], stuck) == p
  {
  }

  method TotalSize(es: seq<Entry>) returns (total: nat)
    ensures total == Size(es)
  {
    total := 0;
    for i := 0 to |es|
      invariant total == Size(es[..i])
    {
      SizeMore(es[..i], es[i]);
      assert es[..i + 1] == es[..i] + [es[i]];
      total := total + es[i].size;
    }
    assert es[..|es|] == es;
  }

  /** One pruning: what has been deleted and what could not be. */
  class Pruning {
    const opts: Options
    const now: int
    const stuck: set<Entry>
    var evicted: seq<Entry>
    var failed: seq<Entry>

    constructor (opts: Options, now: int, stuck: set<Entry>)
      ensures this.opts == opts && this.now == now && this.stuck == stuck && Done() == Plan([], [])
    {
      this.opts, this.now, this.stuck := opts, now, stuck;
      evicted, failed := [], [];
    }

    ghost function Done(): Plan
      reads this
    {
      Plan(evicted, failed)
    }

    /** True when the entry is gone, or in a dry run would be. */
    method TryEvict(e: Entry) returns (gone: bool)
      modifies this
      ensures Done() == Evict(old(Done()), e, Failing(opts, stuck)) && gone == (e !in Failing(opts, stuck))
    {
      if !opts.dryRun && e in stuck {
        failed := failed + [e];
        return false;
      }
      evicted := evicted + [e];
      return true;
    }

    /** One pass over the candidates, for one threshold. */
    method EvictWhere(es: seq<Entry>, rule: Rule) returns (remaining: seq<Entry>)
      modifies this
      ensures remaining == Select(opts, now, es, rule, false)
      ensures Done() == EvictAll(old(Done()), Select(opts, now, es, rule, true), Failing(opts, stuck))
    {
      hide Select, EvictAll, Evict, Meets;
      NothingSelected(opts, now, rule, true);
      NothingSelected(opts, now, rule, false);
      NothingEvicted(Done(), Failing(opts, stuck));
      remaining := [];
      for i := 0 to |es|
        invariant remaining == Select(opts, now, es[..i], rule, false)
        invariant Done() == EvictAll(old(Done()), Select(opts, now, es[..i], rule, true), Failing(opts, stuck))
      {
        SelectMore(opts, now, es[..i], es[i], rule, true);
        SelectMore(opts, now, es[..i], es[i], rule, false);
        EvictMore(old(Done()), Select(opts, now, es[..i], rule, true), es[i], Failing(opts, stuck));
        assert es[..i + 1] == es[..i] + [es[i]];
        if Meets(opts, now, rule, es[i]) {
          var _ := TryEvict(es[i]);
        } else {
          remaining := remaining + [es[i]];
        }
      }
      assert es[..|es|] == es;
    }

    method EvictToCap(es: seq<Entry>, onDisk: nat, cap: nat) returns (kept: seq<Entry>)
      modifies this
      ensures (Done(), kept) == CapPhase(old(Done()), es, onDisk, cap, Failing(opts, stuck))
    {
      kept := es;
      var total: int := onDisk;
      while total > cap && kept != []
        invariant CapPhase(Done(), kept, total, cap, Failing(opts, stuck))
                  == CapPhase(old(Done()), es, onDisk, cap, Failing(opts, stuck))
        decreases |kept|
      {
        var victim := kept[0];
        kept := kept[1..];
        var gone := TryEvict(victim);
        if gone {
          total := total - victim.size;
        }
      }
    }

    method EvictToTarget(es: seq<Entry>, target: nat) returns (kept: seq<Entry>)
      modifies this
      ensures (Done(), kept) == ReclaimPhase(old(Done()), es, target, Failing(opts, stuck))
    {
      kept := es;
      var freed := TotalSize(evicted);
      while freed < target && kept != []
        invariant freed == Size(evicted)
        invariant ReclaimPhase(Done(), kept, target, Failing(opts, stuck))
                  == ReclaimPhase(old(Done()), es, target, Failing(opts, stuck))
        decreases |kept|
      {
        var victim := kept[0];
        kept := kept[1..];
        var _ := TryEvict(victim);
        freed := TotalSize(evicted);
      }
    }
  }

  /** The entries nothing may delete, and the others. */
  method Partition(opts: Options, now: int, inventory: seq<Entry>) returns (untouched: seq<Entry>, others: seq<Entry>)
    ensures untouched == Protected(opts, now, inventory)
    ensures others == Select(opts, now, inventory, IsUntouchable, false)
  {
    hide Select, Untouchable;
    NothingSelected(opts, now, IsUntouchable, true);
    NothingSelected(opts, now, IsUntouchable, false);
    untouched, others := [], [];
    for i := 0 to |inventory|
      invariant untouched == Protected(opts, now, inventory[..i])
      invariant others == Select(opts, now, inventory[..i], IsUntouchable, false)
    {
      SelectMore(opts, now, inventory[..i], inventory[i], IsUntouchable, true);
      SelectMore(opts, now, inventory[..i], inventory[i], IsUntouchable, false);
      assert inventory[..i + 1] == inventory[..i] + [inventory[i]];
      if Untouchable(opts, now, inventory[i]) {
        untouched := untouched + [inventory[i]];
      } else {
        others := others + [inventory[i]];
      }
    }
    assert inventory[..|inventory|] == inventory;
  }

  method PruneCache(opts: Options, now: int, inventory: seq<Entry>, stuck: set<Entry>) returns (result: Result)
    ensures result == Prune(opts, now, inventory, stuck)
  {
    var untouched, others := Partition(opts, now, inventory);
    var pruning := new Pruning(opts, now, stuck);
    var keptSoFar := PassThresholds(pruning, SortEntries(others));
    assert keptSoFar == Remaining(opts, now, inventory);
    assert pruning.Done() == AfterThresholds(opts, now, inventory, Failing(opts, stuck));
    keptSoFar := LimitSize(pruning, untouched, keptSoFar);
    assert (pruning.Done(), keptSoFar) == AfterCap(opts, now, inventory, Failing(opts, stuck));
    keptSoFar := Reclaim(pruning, keptSoFar);
    var freed := TotalSize(pruning.evicted);
    result := Result(pruning.evicted, untouched + keptSoFar, pruning.failed, freed);
  }

  method PassThresholds(pruning: Pruning, candidates: seq<Entry>) returns (kept: seq<Entry>)
    requires pruning.Done() == Plan([], [])
    modifies pruning
    ensures (kept, pruning.Done()) == Thresholds(pruning.opts, pruning.now, candidates, Failing(pruning.opts, pruning.stuck))
  {
    kept := pruning.EvictWhere(candidates, IsOlder);
    kept := pruning.EvictWhere(kept, IsAged);
  }

  method Reclaim(pruning: Pruning, es: seq<Entry>) returns (kept: seq<Entry>)
    modifies pruning
    ensures (pruning.Done(), kept) == ReclaimTo(pruning.opts, old(pruning.Done()), es, Failing(pruning.opts, pruning.stuck))
  {
    kept := es;
    if pruning.opts.reclaim.Some? {
      kept := pruning.EvictToTarget(es, pruning.opts.reclaim.value);
    }
  }

  /** The size-cap phase counts what is protected, what is left and what could not be deleted. */
  method LimitSize(pruning: Pruning, untouched: seq<Entry>, es: seq<Entry>) returns (kept: seq<Entry>)
    modifies pruning
    ensures (pruning.Done(), kept)
            == LimitTo(pruning.opts, untouched, old(pruning.Done()), es, Failing(pruning.opts, pruning.stuck))
  {
    kept := es;
    if pruning.opts.maxSize.Some? {
      var protectedBytes := TotalSize(untouched);
      var candidateBytes := TotalSize(es);
      var failedBytes := TotalSize(pruning.failed);
      kept := pruning.EvictToCap(es, protectedBytes + candidateBytes + failedBytes, pruning.opts.maxSize.value);
    }
  }

  // ---- Conservation and safety -----------------------------------------------------------

  function All(p: Plan): multiset<Entry> {
    multiset(p.evicted) + multiset(p.failed)
  }

  /** Everything a phase has to account for: deleted, stuck, and not yet processed. */
  function Accounted(p: Plan, es: seq<Entry>): multiset<Entry> {
    All(p) + multiset(es)
  }

  lemma {:induction false} EvictAllConserves(p: Plan, es: seq<Entry>, stuck: set<Entry>)
    ensures All(EvictAll(p, es, stuck)) == All(p) + multiset(es)
    decreases |es|
  {
    if es != [] {
      EvictAllConserves(Evict(p, es[0], stuck), es[1..], stuck);
      assert es == [es[0]] + es[1..];
    }
  }

  lemma {:induction false} SelectConserves(opts: Options, now: int, es: seq<Entry>, rule: Rule)
    ensures multiset(Select(opts, now, es, rule, true)) + multiset(Select(opts, now, es, rule, false)) == multiset(es)
    decreases |es|
  {
    hide Meets;
    if es != [] {
      SelectConserves(opts, now, es[1..], rule);
      var with, without := Select(opts, now, es[1..], rule, true), Select(opts, now, es[1..], rule, false);
      assert es == [es[0]] + es[1..];
      if Meets(opts, now, rule, es[0]) {
        assert Select(opts, now, es, rule, true) == [es[0]] + with && Select(opts, now, es, rule, false) == [] + without;
      } else {
        assert Select(opts, now, es, rule, true) == [] + with && Select(opts, now, es, rule, false) == [es[0]] + without;
      }
    }
  }

  lemma {:induction false} SelectMeets(opts: Options, now: int, es: seq<Entry>, rule: Rule, want: bool)
    ensures forall e :: e in Select(opts, now, es, rule, want) ==> e in es && Meets(opts, now, rule, e) == want
    decreases |es|
  {
    if es != [] {
      SelectMeets(opts, now, es[1..], rule, want);
    }
  }

  /** The size-cap phase works off the front of its list: what it processed and what it left. */
  lemma {:induction false} CapPhaseSplits(p: Plan, es: seq<Entry>, total: int, cap: nat, stuck: set<Entry>) returns (k: nat)
    ensures k <= |es| && CapPhase(p, es, total, cap, stuck) == (EvictAll(p, es[..k], stuck), es[k..])
    ensures k == |es| || total - Size(EvictAll(p, es[..k], stuck).evicted) + Size(p.evicted) <= cap
    ensures forall j :: 0 <= j < k ==> total - Size(EvictAll(p, es[..j], stuck).evicted) + Size(p.evicted) > cap
    decreases |es|
  {
    if total <= cap || es == [] {
      k := 0;
      assert es[..0] == [];
    } else {
      var p' := Evict(p, es[0], stuck);
      SizeMore(p.evicted, es[0]);
      var n := CapPhaseSplits(p', es[1..], if es[0] in stuck then total else total - es[0].size, cap, stuck);
      k := n + 1;
      forall j | 1 <= j <= k
        ensures EvictAll(p, es[..j], stuck) == EvictAll(p', es[1..][..j - 1], stuck)
      {
        assert es[..j][1..] == es[1..][..j - 1];
      }
      assert es[..0] == [];
    }
  }

  lemma {:induction false} ReclaimPhaseSplits(p: Plan, es: seq<Entry>, target: nat, stuck: set<Entry>) returns (k: nat)
    ensures k <= |es| && ReclaimPhase(p, es, target, stuck) == (EvictAll(p, es[..k], stuck), es[k..])
    ensures k == |es| || target <= Size(EvictAll(p, es[..k], stuck).evicted)
    ensures forall j :: 0 <= j < k ==> Size(EvictAll(p, es[..j], stuck).evicted) < target
    decreases |es|
  {
    if target <= Size(p.evicted) || es == [] {
      k := 0;
      assert es[..0] == [];
    } else {
      var p' := Evict(p, es[0], stuck);
      var n := ReclaimPhaseSplits(p', es[1..], target, stuck);
      k := n + 1;
      forall j | 1 <= j <= k
        ensures EvictAll(p, es[..j], stuck) == EvictAll(p', es[1..][..j - 1], stuck)
      {
        assert es[..j][1..] == es[1..][..j - 1];
      }
      assert es[..0] == [];
    }
  }

  lemma SplitConserves(p: Plan, es: seq<Entry>, k: nat, stuck: set<Entry>)
    requires k <= |es|
    ensures Accounted(EvictAll(p, es[..k], stuck), es[k..]) == Accounted(p, es)
  {
    EvictAllConserves(p, es[..k], stuck);
    assert es == es[..k] + es[k..];
  }

  lemma AllParts(p: Plan, e: Entry)
    ensures e in All(p) <==> e in p.evicted || e in p.failed
  {
    assert e in p.evicted <==> multiset(p.evicted)[e] > 0;
    assert e in p.failed <==> multiset(p.failed)[e] > 0;
  }

  lemma ThresholdsConserve(opts: Options, now: int, candidates: seq<Entry>, stuck: set<Entry>)
    ensures var (es, p) := Thresholds(opts, now, candidates, stuck); Accounted(p, es) == multiset(candidates)
  {
    var young, old' := Select(opts, now, candidates, IsOlder, false), Select(opts, now, candidates, IsOlder, true);
    SelectConserves(opts, now, candidates, IsOlder);
    SelectConserves(opts, now, young, IsAged);
    EvictAllConserves(Plan([], []), old', stuck);
    EvictAllConserves(EvictAll(Plan([], []), old', stuck), Select(opts, now, young, IsAged, true), stuck);
  }

  lemma LimitConserves(opts: Options, untouched: seq<Entry>, p: Plan, es: seq<Entry>, stuck: set<Entry>)
    ensures var (q, left) := LimitTo(opts, untouched, p, es, stuck);
            Accounted(q, left) == Accounted(p, es) && forall e :: e in left ==> e in es
  {
    if opts.maxSize.Some? {
      var k := CapPhaseSplits(p, es, Size(untouched) + Size(es) + Size(p.failed), opts.maxSize.value, stuck);
      SplitConserves(p, es, k, stuck);
    }
  }

  lemma ReclaimConserves(opts: Options, p: Plan, es: seq<Entry>, stuck: set<Entry>)
    ensures var (q, left) := ReclaimTo(opts, p, es, stuck);
            Accounted(q, left) == Accounted(p, es) && forall e :: e in left ==> e in es
  {
    if opts.reclaim.Some? {
      var k := ReclaimPhaseSplits(p, es, opts.reclaim.value, stuck);
      SplitConserves(p, es, k, stuck);
    }
  }

  lemma LaterPhasesConserve(opts: Options, untouched: seq<Entry>, p: Plan, es: seq<Entry>, stuck: set<Entry>)
    ensures var (q, left) := LimitTo(opts, untouched, p, es, stuck);
            var (r, kept) := ReclaimTo(opts, q, left, stuck);
            Accounted(r, kept) == Accounted(p, es) && forall e :: e in kept ==> e in es
  {
    LimitConserves(opts, untouched, p, es, stuck);
    var (q, left) := LimitTo(opts, untouched, p, es, stuck);
    ReclaimConserves(opts, q, left, stuck);
  }

  /** Through all phases, what is deleted, stuck or left is what the candidates were. */
  lemma PhasesConserve(opts: Options, now: int, inventory: seq<Entry>, stuck: set<Entry>)
    ensures var (p, es) := AfterReclaim(opts, now, inventory, stuck);
            && Accounted(p, es) == multiset(Candidates(opts, now, inventory))
            && forall e :: e in es ==> e in Remaining(opts, now, inventory)
  {
    ThresholdsConserve(opts, now, Candidates(opts, now, inventory), stuck);
    LaterPhasesConserve(opts, Protected(opts, now, inventory), AfterThresholds(opts, now, inventory, stuck),
                        Remaining(opts, now, inventory), stuck);
  }

  /** Evicted, kept and failed partition the inventory, whatever the options and the deletes. */
  lemma PruneConserves(opts: Options, now: int, inventory: seq<Entry>, stuck: set<Entry>)
    ensures var r := Prune(opts, now, inventory, stuck);
            && multiset(r.evicted) + multiset(r.failed) + multiset(r.kept) == multiset(inventory)
            && r.freed == Size(r.evicted)
  {
    PhasesConserve(opts, now, inventory, Failing(opts, stuck));
    SelectConserves(opts, now, inventory, IsUntouchable);
    SortKeeps(Select(opts, now, inventory, IsUntouchable, false));
  }

  /** An entry in use, of a protected version, skipped or recently used is kept, and is never
      even tried. */
  lemma PruneSafe(opts: Options, now: int, inventory: seq<Entry>, stuck: set<Entry>, e: Entry)
    requires e in inventory
    requires e.inUse || e.version in opts.protect || e.basename in opts.skip
             || (opts.skipRecent.Some? && now - e.mtime < opts.skipRecent.value)
    ensures var r := Prune(opts, now, inventory, stuck);
            e !in r.evicted && e !in r.failed && multiset(r.kept)[e] == multiset(inventory)[e]
  {
    var (p, es) := AfterReclaim(opts, now, inventory, Failing(opts, stuck));
    var others := Select(opts, now, inventory, IsUntouchable, false);
    PruneConserves(opts, now, inventory, stuck);
    PhasesConserve(opts, now, inventory, Failing(opts, stuck));
    SortKeeps(others);
    SelectMeets(opts, now, inventory, IsUntouchable, false);
    assert e !in multiset(others);
    AllParts(p, e);
    assert All(p)[e] == 0;
    assert multiset(p.evicted)[e] == 0 && multiset(p.failed)[e] == 0;
  }

  lemma KeptMeetsNoRule(opts: Options, now: int, inventory: seq<Entry>, stuck: set<Entry>, e: Entry)
    requires e in Prune(opts, now, inventory, stuck).kept && !Untouchable(opts, now, e)
    ensures !Meets(opts, now, IsOlder, e) && !Meets(opts, now, IsAged, e)
  {
    PhasesConserve(opts, now, inventory, Failing(opts, stuck));
    SelectMeets(opts, now, inventory, IsUntouchable, true);
    var candidates := Candidates(opts, now, inventory);
    SelectMeets(opts, now, candidates, IsOlder, false);
    SelectMeets(opts, now, Select(opts, now, candidates, IsOlder, false), IsAged, false);
  }

  /** Nothing that may be deleted and is past a threshold is kept. */
  lemma ThresholdsApply(opts: Options, now: int, inventory: seq<Entry>, stuck: set<Entry>, e: Entry)
    requires e in Prune(opts, now, inventory, stuck).kept && !Untouchable(opts, now, e)
    ensures opts.olderThan.Some? && e.version.Known? ==> CompareVersions(e.version, opts.olderThan.value) >= 0
    ensures opts.maxAge.Some? ==> now - e.mtime <= opts.maxAge.value
  {
    hide Prune, Untouchable;
    KeptMeetsNoRule(opts, now, inventory, stuck, e);
  }

  // ---- Order and bounds ------------------------------------------------------------------

  lemma {:induction false} SelectSorted(opts: Options, now: int, es: seq<Entry>, rule: Rule, want: bool)
    requires Sorted(es)
    ensures Sorted(Select(opts, now, es, rule, want))
    decreases |es|
  {
    if es != [] {
      var rest := Select(opts, now, es[1..], rule, want);
      SelectSorted(opts, now, es[1..], rule, want);
      SelectMeets(opts, now, es[1..], rule, want);
      forall j | 0 <= j < |rest|
        ensures Compare(es[0], rest[j]) <= 0
      {
        assert rest[j] in rest;
      }
    }
  }

  /** The list that the later phases work off the front of is in eviction order. */
  lemma RemainingSorted(opts: Options, now: int, inventory: seq<Entry>)
    ensures Sorted(Remaining(opts, now, inventory)) && InEvictionOrder(Remaining(opts, now, inventory))
  {
    var candidates := Candidates(opts, now, inventory);
    SortSorts(Select(opts, now, inventory, IsUntouchable, false));
    SelectSorted(opts, now, candidates, IsOlder, false);
    SelectSorted(opts, now, Select(opts, now, candidates, IsOlder, false), IsAged, false);
    SortedIsEvictionOrder(Remaining(opts, now, inventory));
  }

  lemma {:induction false} EvictAllSizes(p: Plan, es: seq<Entry>, stuck: set<Entry>)
    ensures Size(EvictAll(p, es, stuck).evicted) + Size(EvictAll(p, es, stuck).failed)
            == Size(p.evicted) + Size(p.failed) + Size(es)
    decreases |es|
  {
    if es != [] {
      SizeMore(p.evicted, es[0]);
      SizeMore(p.failed, es[0]);
      EvictAllSizes(Evict(p, es[0], stuck), es[1..], stuck);
    }
  }

  lemma {:induction false} SizeSplits(es: seq<Entry>, k: nat)
    requires k <= |es|
    ensures Size(es) == Size(es[..k]) + Size(es[k..])
    decreases k
  {
    if k > 0 {
      SizeSplits(es, k - 1);
      SizeMore(es[..k - 1], es[k - 1]);
      assert es[..k] == es[..k - 1] + [es[k - 1]];
      assert es[k - 1..][1..] == es[k..];
    } else {
      assert es[..0] == [] && es[0..] == es;
    }
  }

  /** The bytes left when the first `k` of `es` have been processed: protected, still to
      process, and not deletable. */
  function OnDisk(untouched: seq<Entry>, p: Plan, es: seq<Entry>, k: nat, stuck: set<Entry>): nat
    requires k <= |es|
  {
    Size(untouched) + Size(es[k..]) + Size(EvictAll(p, es[..k], stuck).failed)
  }

  /** The size-cap phase processes exactly the shortest prefix of the ordered list that brings
      the bytes on disk to the cap, or all of it. */
  lemma CapIsShortestPrefix(opts: Options, now: int, inventory: seq<Entry>, stuck: set<Entry>) returns (k: nat)
    requires opts.maxSize.Some?
    ensures var untouched, p := Protected(opts, now, inventory), AfterThresholds(opts, now, inventory, stuck);
            var es := Remaining(opts, now, inventory);
            && k <= |es| && InEvictionOrder(es)
            && AfterCap(opts, now, inventory, stuck) == (EvictAll(p, es[..k], stuck), es[k..])
            && (k == |es| || OnDisk(untouched, p, es, k, stuck) <= opts.maxSize.value)
            && (forall j :: 0 <= j < k ==> OnDisk(untouched, p, es, j, stuck) > opts.maxSize.value)
  {
    var untouched, p := Protected(opts, now, inventory), AfterThresholds(opts, now, inventory, stuck);
    var es := Remaining(opts, now, inventory);
    RemainingSorted(opts, now, inventory);
    k := CapPhaseSplits(p, es, Size(untouched) + Size(es) + Size(p.failed), opts.maxSize.value, stuck);
    forall j | 0 <= j <= k
      ensures OnDisk(untouched, p, es, j, stuck)
              == Size(untouched) + Size(es) + Size(p.failed) - Size(EvictAll(p, es[..j], stuck).evicted) + Size(p.evicted)
    {
      EvictAllSizes(p, es[..j], stuck);
      SizeSplits(es, j);
    }
  }

  /** The reclaim phase goes on from there, over the shortest prefix that has the target gone. */
  lemma ReclaimIsShortestPrefix(opts: Options, now: int, inventory: seq<Entry>, stuck: set<Entry>) returns (k: nat)
    requires opts.reclaim.Some?
    ensures var (p, es) := AfterCap(opts, now, inventory, stuck);
            && k <= |es|
            && AfterReclaim(opts, now, inventory, stuck) == (EvictAll(p, es[..k], stuck), es[k..])
            && (k == |es| || opts.reclaim.value <= Size(EvictAll(p, es[..k], stuck).evicted))
            && (forall j :: 0 <= j < k ==> Size(EvictAll(p, es[..j], stuck).evicted) < opts.reclaim.value)
  {
    var (p, es) := AfterCap(opts, now, inventory, stuck);
    k := ReclaimPhaseSplits(p, es, opts.reclaim.value, stuck);
  }

  // ---- The whole result ------------------------------------------------------------------

  /** Not in use, not of a protected version, not skipped, and not used recently. */
  predicate MayGo(opts: Options, now: int, e: Entry) {
    && !e.inUse && e.version !in opts.protect && e.basename !in opts.skip
    && (opts.skipRecent.None? || now - e.mtime >= opts.skipRecent.value)
  }

  /** Of a known version below the one asked for, or unused for longer than the age asked for. */
  predicate Condemned(opts: Options, now: int, e: Entry) {
    || (opts.olderThan.Some? && opts.olderThan.value.Known? && e.version.Known?
        && e.version.rank < opts.olderThan.value.rank)
    || (opts.maxAge.Some? && now - e.mtime > opts.maxAge.value)
  }

  /** The bytes that deleting `es` frees when the deletes of `failing` fail. */
  function Freed(es: seq<Entry>, failing: set<Entry>): nat {
    if es == [] then 0 else (if es[0] in failing then 0 else es[0].size) + Freed(es[1..], failing)
  }

  predicate InCap(opts: Options, inventory: seq<Entry>, es: seq<Entry>, failing: set<Entry>) {
    opts.maxSize.Some? ==> Freed(inventory, {}) - Freed(es, failing) <= opts.maxSize.value
  }

  predicate Reclaimed(opts: Options, es: seq<Entry>, failing: set<Entry>) {
    opts.reclaim.Some? ==> Freed(es, failing) >= opts.reclaim.value
  }

  /** Deleting `es` brings the inventory to the cap and frees what is asked for. */
  predicate Enough(opts: Options, inventory: seq<Entry>, es: seq<Entry>, failing: set<Entry>) {
    InCap(opts, inventory, es, failing) && Reclaimed(opts, es, failing)
  }

  lemma {:induction false} SelectCounts(opts: Options, now: int, es: seq<Entry>, rule: Rule, want: bool, e: Entry)
    ensures multiset(Select(opts, now, es, rule, want))[e]
            == if Meets(opts, now, rule, e) == want then multiset(es)[e] else 0
    decreases |es|
  {
    hide Meets;
    if es != [] {
      SelectCounts(opts, now, es[1..], rule, want, e);
      assert es == [es[0]] + es[1..];
    }
  }

  lemma {:induction false} EvictAllInTwo(p: Plan, a: seq<Entry>, b: seq<Entry>, failing: set<Entry>)
    ensures EvictAll(EvictAll(p, a, failing), b, failing) == EvictAll(p, a + b, failing)
    decreases |a|
  {
    if a == [] {
      assert a + b == b;
    } else {
      EvictAllInTwo(Evict(p, a[0], failing), a[1..], b, failing);
      assert (a + b)[1..] == a[1..] + b;
    }
  }

  lemma {:induction false} EvictAllCounts(p: Plan, es: seq<Entry>, failing: set<Entry>, e: Entry)
    ensures var q := EvictAll(p, es, failing);
            && multiset(q.evicted)[e] == multiset(p.evicted)[e] + (if e in failing then 0 else multiset(es)[e])
            && multiset(q.failed)[e] == multiset(p.failed)[e] + (if e in failing then multiset(es)[e] else 0)
    decreases |es|
  {
    if es != [] {
      EvictAllCounts(Evict(p, es[0], failing), es[1..], failing, e);
      assert es == [es[0]] + es[1..];
    }
  }

  lemma {:induction false} EvictAllFrees(p: Plan, es: seq<Entry>, failing: set<Entry>)
    ensures Size(EvictAll(p, es, failing).evicted) == Size(p.evicted) + Freed(es, failing)
    decreases |es|
  {
    if es != [] {
      SizeMore(p.evicted, es[0]);
      EvictAllFrees(Evict(p, es[0], failing), es[1..], failing);
    }
  }

  lemma {:induction false} FreedByAll(es: seq<Entry>)
    ensures Freed(es, {}) == Size(es)
  {
    if es != [] {
      FreedByAll(es[1..]);
    }
  }

  lemma {:induction false} FreedOfTwo(a: seq<Entry>, b: seq<Entry>, failing: set<Entry>)
    ensures Freed(a + b, failing) == Freed(a, failing) + Freed(b, failing)
  {
    if a == [] {
      assert a + b == b;
    } else {
      FreedOfTwo(a[1..], b, failing);
      assert (a + b)[1..] == a[1..] + b;
    }
  }

  lemma SizeWithout(es: seq<Entry>, i: nat)
    requires i < |es|
    ensures Size(es) == es[i].size + Size(es[..i] + es[i + 1..])
  {
    SizeSplits(es, i);
    var without := es[..i] + es[i + 1..];
    SizeSplits(without, i);
    assert without[..i] == es[..i] && without[i..] == es[i + 1..] && es[i..][1..] == es[i + 1..];
  }

  lemma CountsWithout(es: seq<Entry>, i: nat)
    requires i < |es|
    ensures multiset(es[..i] + es[i + 1..]) == multiset(es) - multiset{es[i]}
  {
    assert es == es[..i] + [es[i]] + es[i + 1..];
  }

  lemma PlaceOfFirst(a: seq<Entry>, b: seq<Entry>) returns (i: nat)
    requires a != [] && multiset(a) == multiset(b)
    ensures i < |b| && b[i] == a[0] && multiset(a[1..]) == multiset(b[..i] + b[i + 1..])
  {
    assert a == [a[0]] + a[1..];
    assert a[0] in multiset(b);
    i :| 0 <= i < |b| && b[i] == a[0];
    CountsWithout(b, i);
  }

  /** The bytes do not depend on the order. */
  lemma {:induction false} SizeOfSame(a: seq<Entry>, b: seq<Entry>)
    requires multiset(a) == multiset(b)
    ensures Size(a) == Size(b)
    decreases |a|
  {
    if a == [] {
      assert |multiset(b)| == 0;
      assert b == [];
    } else {
      var i := PlaceOfFirst(a, b);
      SizeWithout(b, i);
      SizeOfSame(a[1..], b[..i] + b[i + 1..]);
    }
  }

  lemma {:induction false} SizeOfTwo(a: seq<Entry>, b: seq<Entry>)
    ensures Size(a + b) == Size(a) + Size(b)
  {
    SizeSplits(a + b, |a|);
    assert (a + b)[..|a|] == a && (a + b)[|a|..] == b;
  }

  /** What the two thresholds condemn, in the order in which it is deleted. */
  ghost function Past(opts: Options, now: int, inventory: seq<Entry>): seq<Entry> {
    var candidates := Candidates(opts, now, inventory);
    Select(opts, now, candidates, IsOlder, true)
    + Select(opts, now, Select(opts, now, candidates, IsOlder, false), IsAged, true)
  }

  lemma PastCounts(opts: Options, now: int, inventory: seq<Entry>, e: Entry)
    ensures multiset(Protected(opts, now, inventory))[e] == if MayGo(opts, now, e) then 0 else multiset(inventory)[e]
    ensures multiset(Past(opts, now, inventory))[e]
            == if MayGo(opts, now, e) && Condemned(opts, now, e) then multiset(inventory)[e] else 0
    ensures multiset(Remaining(opts, now, inventory))[e]
            == if MayGo(opts, now, e) && !Condemned(opts, now, e) then multiset(inventory)[e] else 0
  {
    hide Select;
    var candidates := Candidates(opts, now, inventory);
    var young := Select(opts, now, candidates, IsOlder, false);
    SelectCounts(opts, now, inventory, IsUntouchable, true, e);
    SelectCounts(opts, now, inventory, IsUntouchable, false, e);
    SortKeeps(Select(opts, now, inventory, IsUntouchable, false));
    SelectCounts(opts, now, candidates, IsOlder, true, e);
    SelectCounts(opts, now, candidates, IsOlder, false, e);
    SelectCounts(opts, now, young, IsAged, true, e);
    SelectCounts(opts, now, young, IsAged, false, e);
  }

  lemma AllThere(opts: Options, now: int, inventory: seq<Entry>)
    ensures Size(inventory)
            == Size(Protected(opts, now, inventory)) + Size(Past(opts, now, inventory)) + Size(Remaining(opts, now, inventory))
  {
    hide Protected, Past, Remaining, MayGo, Condemned, Size;
    var a, b, c := Protected(opts, now, inventory), Past(opts, now, inventory), Remaining(opts, now, inventory);
    forall e: Entry
      ensures multiset(a + b + c)[e] == multiset(inventory)[e]
    {
      PastCounts(opts, now, inventory, e);
    }
    SizeOfSame(a + b + c, inventory);
    SizeOfTwo(a, b);
    SizeOfTwo(a + b, c);
  }

  lemma OnDiskIs(opts: Options, now: int, inventory: seq<Entry>, j: nat, failing: set<Entry>)
    requires j <= |Remaining(opts, now, inventory)|
    ensures var past, rest := Past(opts, now, inventory), Remaining(opts, now, inventory);
            var p := EvictAll(Plan([], []), past, failing);
            && Size(EvictAll(p, rest[..j], failing).evicted) == Freed(past + rest[..j], failing)
            && OnDisk(Protected(opts, now, inventory), p, rest, j, failing)
               == Size(inventory) - Freed(past + rest[..j], failing)
  {
    hide Select, Past, Remaining, Protected, Freed, EvictAll;
    var start, past, rest := Plan([], []), Past(opts, now, inventory), Remaining(opts, now, inventory);
    NoBytes();
    EvictAllInTwo(start, past, rest[..j], failing);
    EvictAllSizes(start, past + rest[..j], failing);
    EvictAllFrees(start, past + rest[..j], failing);
    SizeOfTwo(past, rest[..j]);
    SizeSplits(rest, j);
    AllThere(opts, now, inventory);
  }

  lemma CapPart(opts: Options, now: int, inventory: seq<Entry>, failing: set<Entry>) returns (k: nat)
    ensures var past, rest := Past(opts, now, inventory), Remaining(opts, now, inventory);
            && k <= |rest|
            && AfterCap(opts, now, inventory, failing) == (EvictAll(Plan([], []), past + rest[..k], failing), rest[k..])
            && (k == |rest| || InCap(opts, inventory, past + rest[..k], failing))
            && forall j :: 0 <= j < k ==> !InCap(opts, inventory, past + rest[..j], failing)
  {
    hide Select, Size, Freed, EvictAll, CapPhase, Remaining, Protected, Past, AfterThresholds;
    var start, past, rest := Plan([], []), Past(opts, now, inventory), Remaining(opts, now, inventory);
    var p := EvictAll(start, past, failing);
    PastIsFirst(opts, now, inventory, failing);
    if opts.maxSize.Some? {
      k := CapIsShortestPrefix(opts, now, inventory, failing);
      FreedByAll(inventory);
      forall j | 0 <= j <= k
        ensures OnDisk(Protected(opts, now, inventory), p, rest, j, failing)
                == Freed(inventory, {}) - Freed(past + rest[..j], failing)
      {
        OnDiskIs(opts, now, inventory, j, failing);
      }
    } else {
      k := 0;
      NothingEvicted(p, failing);
      assert rest[..0] == [] && rest[0..] == rest;
    }
    EvictAllInTwo(start, past, rest[..k], failing);
  }

  lemma PastIsFirst(opts: Options, now: int, inventory: seq<Entry>, failing: set<Entry>)
    ensures AfterThresholds(opts, now, inventory, failing) == EvictAll(Plan([], []), Past(opts, now, inventory), failing)
  {
    hide Select, EvictAll, Candidates;
    var candidates := Candidates(opts, now, inventory);
    EvictAllInTwo(Plan([], []), Select(opts, now, candidates, IsOlder, true),
                  Select(opts, now, Select(opts, now, candidates, IsOlder, false), IsAged, true), failing);
  }

  lemma ReclaimPart(opts: Options, now: int, inventory: seq<Entry>, failing: set<Entry>, done: seq<Entry>, es: seq<Entry>)
    returns (k: nat)
    requires AfterCap(opts, now, inventory, failing) == (EvictAll(Plan([], []), done, failing), es)
    ensures k <= |es|
    ensures AfterReclaim(opts, now, inventory, failing) == (EvictAll(Plan([], []), done + es[..k], failing), es[k..])
    ensures k == |es| || Reclaimed(opts, done + es[..k], failing)
    ensures forall j :: 0 <= j < k ==> !Reclaimed(opts, done + es[..j], failing)
  {
    hide Size, Freed, EvictAll, ReclaimPhase, AfterCap;
    var start := Plan([], []);
    var p := EvictAll(start, done, failing);
    if opts.reclaim.Some? {
      k := ReclaimIsShortestPrefix(opts, now, inventory, failing);
      forall j | 0 <= j <= k
        ensures EvictAll(p, es[..j], failing) == EvictAll(start, done + es[..j], failing)
        ensures Size(EvictAll(p, es[..j], failing).evicted) == Freed(done + es[..j], failing)
      {
        EvictAllInTwo(start, done, es[..j], failing);
        NoBytes();
        EvictAllFrees(start, done + es[..j], failing);
      }
    } else {
      k := 0;
      assert done + es[..0] == done && es[0..] == es;
    }
  }

  lemma NoBytes()
    ensures Size([]) == 0
  {
  }

  /** Both later phases work off the front of the same list, so what is deleted or tried is what the
      thresholds condemn and then the shortest prefix of the rest that is enough for both, or all. */
  lemma ShortestPrefix(opts: Options, now: int, inventory: seq<Entry>, failing: set<Entry>) returns (k: nat)
    ensures var past, rest := Past(opts, now, inventory), Remaining(opts, now, inventory);
            && k <= |rest|
            && AfterReclaim(opts, now, inventory, failing) == (EvictAll(Plan([], []), past + rest[..k], failing), rest[k..])
            && (k == |rest| || Enough(opts, inventory, past + rest[..k], failing))
            && forall j :: 0 <= j < k ==> !Enough(opts, inventory, past + rest[..j], failing)
  {
    hide EvictAll, AfterCap, AfterReclaim, Past, Remaining, Freed;
    var past, rest := Past(opts, now, inventory), Remaining(opts, now, inventory);
    var first := CapPart(opts, now, inventory, failing);
    var more := ReclaimPart(opts, now, inventory, failing, past + rest[..first], rest[first..]);
    k := first + more;
    forall j | 0 <= j <= more
      ensures past + rest[..first] + rest[first..][..j] == past + rest[..first + j]
      ensures Freed(past + rest[..first], failing) <= Freed(past + rest[..first + j], failing)
    {
      assert rest[..first] + rest[first..][..j] == rest[..first + j];
      FreedOfTwo(past + rest[..first], rest[first..][..j], failing);
    }
    assert rest[first..][more..] == rest[k..];
    forall j | 0 <= j < k
      ensures !Enough(opts, inventory, past + rest[..j], failing)
    {
      if j >= first {
        var after := j - first;
        assert !Reclaimed(opts, past + rest[..first] + rest[first..][..after], failing);
        assert first + after == j;
      }
    }
  }

  /** Every entry of the inventory is deleted, tried in vain or kept, and which of these it is
      follows from the options: what may not go is kept; what may go and is past a threshold goes;
      and of the rest, in eviction order, the shortest prefix goes that brings the disk to the cap
      and frees what is asked for, or all of it. */
  lemma PruneExactly(opts: Options, now: int, inventory: seq<Entry>, stuck: set<Entry>)
    returns (condemned: seq<Entry>, rest: seq<Entry>, k: nat)
    ensures forall e :: multiset(condemned)[e]
              == if MayGo(opts, now, e) && Condemned(opts, now, e) then multiset(inventory)[e] else 0
    ensures forall e :: multiset(rest)[e]
              == if MayGo(opts, now, e) && !Condemned(opts, now, e) then multiset(inventory)[e] else 0
    ensures InEvictionOrder(rest) && k <= |rest|
    ensures var failing := if opts.dryRun then {} else stuck;
            && (k == |rest| || Enough(opts, inventory, condemned + rest[..k], failing))
            && (forall j :: 0 <= j < k ==> !Enough(opts, inventory, condemned + rest[..j], failing))
            && Prune(opts, now, inventory, stuck).freed == Freed(condemned + rest[..k], failing)
    ensures var failing := if opts.dryRun then {} else stuck;
            var result := Prune(opts, now, inventory, stuck);
            forall e ::
              && multiset(result.evicted)[e] == (if e in failing then 0 else multiset(condemned + rest[..k])[e])
              && multiset(result.failed)[e] == (if e in failing then multiset(condemned + rest[..k])[e] else 0)
              && multiset(result.kept)[e]
                 == (if MayGo(opts, now, e) then 0 else multiset(inventory)[e]) + multiset(rest[k..])[e]
  {
    hide Past, Remaining, MayGo, Condemned, Enough, Freed, EvictAll, AfterReclaim, InEvictionOrder, Protected;
    var failing := Failing(opts, stuck);
    condemned, rest := Past(opts, now, inventory), Remaining(opts, now, inventory);
    k := ShortestPrefix(opts, now, inventory, failing);
    RemainingSorted(opts, now, inventory);
    forall e: Entry
      ensures multiset(condemned)[e]
              == if MayGo(opts, now, e) && Condemned(opts, now, e) then multiset(inventory)[e] else 0
      ensures multiset(rest)[e]
              == if MayGo(opts, now, e) && !Condemned(opts, now, e) then multiset(inventory)[e] else 0
      ensures multiset(Protected(opts, now, inventory))[e] == if MayGo(opts, now, e) then 0 else multiset(inventory)[e]
    {
      PastCounts(opts, now, inventory, e);
    }
    var start := Plan([], []);
    EvictAllFrees(start, condemned + rest[..k], failing);
    NoBytes();
    forall e: Entry
      ensures var q := EvictAll(start, condemned + rest[..k], failing);
              && multiset(q.evicted)[e] == (if e in failing then 0 else multiset(condemned + rest[..k])[e])
              && multiset(q.failed)[e] == (if e in failing then multiset(condemned + rest[..k])[e] else 0)
    {
      EvictAllCounts(start, condemned + rest[..k], failing, e);
    }
  }

  /** Without a cap and without a reclaim target, exactly the entries that may go and are past a
      threshold are deleted or tried. */
  lemma ThresholdsExactly(opts: Options, now: int, inventory: seq<Entry>, stuck: set<Entry>, e: Entry)
    requires opts.maxSize.None? && opts.reclaim.None? && e in inventory
    ensures var result := Prune(opts, now, inventory, stuck);
            e in result.evicted + result.failed
            <==> && !e.inUse && e.version !in opts.protect && e.basename !in opts.skip
                 && (opts.skipRecent.None? || now - e.mtime >= opts.skipRecent.value)
                 && (|| (opts.olderThan.Some? && opts.olderThan.value.Known? && e.version.Known?
                         && e.version.rank < opts.olderThan.value.rank)
                     || (opts.maxAge.Some? && now - e.mtime > opts.maxAge.value))
  {
    hide Prune;
    var condemned, rest, k := PruneExactly(opts, now, inventory, stuck);
    assert k == 0;
    assert condemned + rest[..0] == condemned;
    var result := Prune(opts, now, inventory, stuck);
    assert multiset(inventory)[e] > 0;
    assert e in result.evicted <==> multiset(result.evicted)[e] > 0;
    assert e in result.failed <==> multiset(result.failed)[e] > 0;
  }

  // ---- Dry runs --------------------------------------------------------------------------

  lemma {:induction false} SelectIgnoresDryRun(opts: Options, now: int, es: seq<Entry>, rule: Rule, want: bool, dry: bool)
    ensures Select(opts.(dryRun := dry), now, es, rule, want) == Select(opts, now, es, rule, want)
    decreases |es|
  {
    if es != [] {
      SelectIgnoresDryRun(opts, now, es[1..], rule, want, dry);
    }
  }

  lemma ThresholdsIgnoreDryRun(opts: Options, now: int, candidates: seq<Entry>, stuck: set<Entry>, dry: bool)
    ensures Thresholds(opts.(dryRun := dry), now, candidates, stuck) == Thresholds(opts, now, candidates, stuck)
  {
    SelectIgnoresDryRun(opts, now, candidates, IsOlder, true, dry);
    SelectIgnoresDryRun(opts, now, candidates, IsOlder, false, dry);
    SelectIgnoresDryRun(opts, now, Select(opts, now, candidates, IsOlder, false), IsAged, true, dry);
    SelectIgnoresDryRun(opts, now, Select(opts, now, candidates, IsOlder, false), IsAged, false, dry);
  }

  /** A dry run gives the plan that a real run has when no delete fails. */
  lemma DryRunIsThePlan(opts: Options, now: int, inventory: seq<Entry>, stuck: set<Entry>)
    requires !opts.dryRun
    ensures Prune(opts.(dryRun := true), now, inventory, stuck) == Prune(opts, now, inventory, {})
  {
    var dry := opts.(dryRun := true);
    SelectIgnoresDryRun(opts, now, inventory, IsUntouchable, true, true);
    SelectIgnoresDryRun(opts, now, inventory, IsUntouchable, false, true);
    ThresholdsIgnoreDryRun(opts, now, Candidates(opts, now, inventory), {}, true);
    assert AfterCap(dry, now, inventory, {}) == AfterCap(opts, now, inventory, {});
  }
}
