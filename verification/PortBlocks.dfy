/**
 * Port blocks for new machines: the next base is the least one whose block is free, and every
 * probed base avoids every used block.
 */
module PortBlocks {
  import opened Prelude
  import Sorting
  import opened Text

  const PORTS_PER_BLOCK: int := 10
  const DEFAULT_PORT_BASE: int := 9100
  const MAX_ATTEMPTS: nat := 20

  predicate Overlap(a: int, b: int) {
    -PORTS_PER_BLOCK < a - b < PORTS_PER_BLOCK
  }

  predicate InBlock(port: int, base: int) {
    base <= port < base + PORTS_PER_BLOCK
  }

  /** Two bases overlap exactly when their ten-port blocks share a port. */
  lemma OverlapSharesPort(a: int, b: int)
    ensures Overlap(a, b) <==> exists port :: InBlock(port, a) && InBlock(port, b)
  {
    if Overlap(a, b) {
      var port := if a < b then b else a;
      assert InBlock(port, a) && InBlock(port, b);
    }
  }

  predicate Avoids(base: int, used: seq<int>) {
    forall u :: u in used ==> !Overlap(base, u)
  }

  // ---- The next free base ----------------------------------------------------------------

  function Difference(a: int, b: int): int {
    a - b
  }

  function SortAscending(xs: seq<int>): (sorted: seq<int>)
    ensures forall x :: x in sorted <==> x in xs
    ensures forall i, j :: 0 <= i < j < |sorted| ==> sorted[i] <= sorted[j]
  {
    assert Sorting.Orders(Difference);
    Sorting.SortSorts(xs, Difference);
    Sorting.SortKeeps(xs, Difference);
    var sorted := Sorting.Sort(xs, Difference);
    assert forall i, j :: 0 <= i < j < |sorted| ==> Difference(sorted[i], sorted[j]) <= 0;
    sorted
  }

  /** The least base at or above `from` whose block is free. */
  ghost predicate LeastFree(from: int, used: seq<int>, base: int) {
    && from <= base && Avoids(base, used)
    && forall b :: from <= b < base ==> !Avoids(b, used)
  }

  lemma AvoidsMore(base: int, xs: seq<int>, x: int)
    ensures Avoids(base, xs + [x]) <==> Avoids(base, xs) && !Overlap(base, x)
  {
    if Avoids(base, xs + [x]) {
      assert x in xs + [x];
      forall u | u in xs
        ensures !Overlap(base, u)
      {
        assert u in xs + [x];
      }
    }
  }

  method NextUnusedBase(from: int, usedBases: seq<int>) returns (base: int)
    ensures LeastFree(from, usedBases, base)
  {
    base := from;
    var sorted := SortAscending(usedBases);
    for i := 0 to |sorted|
      invariant LeastFree(from, sorted[..i], base)
    {
      ghost var before, seen := sorted[..i], sorted[..i + 1];
      assert seen == before + [sorted[i]];
      if Overlap(base, sorted[i]) {
        base := sorted[i] + PORTS_PER_BLOCK;
      }
      AvoidsMore(base, before, sorted[i]);
      forall b | from <= b < base
        ensures !Avoids(b, seen)
      {
        AvoidsMore(b, before, sorted[i]);
      }
    }
    assert sorted[..|sorted|] == sorted;
    forall b
      ensures Avoids(b, sorted) <==> Avoids(b, usedBases)
    {
    }
  }

  method AllocatePortBlock(usedBases: seq<int>, requested: Option<int>) returns (base: int)
    ensures requested.Some? ==> base == requested.value
    ensures requested.None? ==> LeastFree(9100, usedBases, base)
  {
    if requested.Some? {
      base := requested.value;
    } else {
      base := NextUnusedBase(DEFAULT_PORT_BASE, usedBases);
    }
  }

  // ---- Probing ---------------------------------------------------------------------------

  /** The bases probed, in order: after a conflict, the least free base a block further on. */
  ghost predicate ProbedInOrder(probed: seq<int>, usedBases: seq<int>) {
    forall i :: 1 <= i < |probed| ==> LeastFree(probed[i - 1] + PORTS_PER_BLOCK, usedBases, probed[i])
  }

  /** `conflicts[i]` says whether the i-th block probed has a port in use. The probes are
      returned too: they are what the search did. */
  method FindAvailablePortBlock(usedBases: seq<int>, startBase: Option<int>, conflicts: seq<bool>)
    returns (found: Option<int>, probed: seq<int>)
    requires |conflicts| == MAX_ATTEMPTS
    ensures 1 <= |probed| <= 20 && ProbedInOrder(probed, usedBases)
    ensures if startBase.Some? then probed[0] == startBase.value else LeastFree(9100, usedBases, probed[0])
    ensures forall i :: 0 <= i < |probed| - 1 ==> conflicts[i]
    ensures found == if conflicts[|probed| - 1] then None else Some(probed[|probed| - 1])
    ensures found.None? ==> |probed| == 20
  {
    var base := AllocatePortBlock(usedBases, startBase);
    probed := [];
    for attempt := 0 to MAX_ATTEMPTS
      invariant |probed| == attempt && ProbedInOrder(probed, usedBases)
      invariant attempt > 0 ==> LeastFree(probed[attempt - 1] + PORTS_PER_BLOCK, usedBases, base)
      invariant var first := if attempt == 0 then base else probed[0];
                if startBase.Some? then first == startBase.value else LeastFree(DEFAULT_PORT_BASE, usedBases, first)
      invariant forall i :: 0 <= i < attempt ==> conflicts[i]
    {
      probed := probed + [base];
      if !conflicts[attempt] {
        return Some(base), probed;
      }
      base := NextUnusedBase(base + PORTS_PER_BLOCK, usedBases);
    }
    found := None;
  }

  /** With no start base every probed base avoids all used blocks, and no two probed blocks
      overlap; with one, that holds of every probe after the first. */
  lemma {:induction false} ProbesAvoidUsed(probed: seq<int>, usedBases: seq<int>, i: nat, j: nat)
    requires ProbedInOrder(probed, usedBases) && i < j < |probed|
    ensures Avoids(probed[j], usedBases)
    ensures probed[i] + PORTS_PER_BLOCK <= probed[j] && !Overlap(probed[i], probed[j])
    decreases j
  {
    assert LeastFree(probed[j - 1] + PORTS_PER_BLOCK, usedBases, probed[j]);
    if i < j - 1 {
      ProbesAvoidUsed(probed, usedBases, i, j - 1);
    }
  }

  /** One allocation after another, each found with the earlier ones among the used bases. */
  ghost predicate Allocations(used: seq<int>, bases: seq<int>) {
    forall i :: 0 <= i < |bases| ==> Avoids(bases[i], used + bases[..i])
  }

  method AllocateInTurn(used: seq<int>, conflicts: seq<seq<bool>>) returns (bases: seq<int>)
    requires forall i :: 0 <= i < |conflicts| ==> |conflicts[i]| == MAX_ATTEMPTS
    ensures Allocations(used, bases)
  {
    bases := [];
    for i := 0 to |conflicts|
      invariant Allocations(used, bases)
    {
      var found, probed := FindAvailablePortBlock(used + bases, None, conflicts[i]);
      if found.Some? {
        if |probed| > 1 {
          ProbesAvoidUsed(probed, used + bases, 0, |probed| - 1);
        }
        assert (bases + [found.value])[..|bases|] == bases;
        assert forall k :: 0 <= k < |bases| ==> (bases + [found.value])[..k] == bases[..k];
        bases := bases + [found.value];
      }
    }
  }

  /** So any sequence of such allocations is pairwise disjoint, and disjoint from what was used. */
  lemma AllocationsDisjoint(used: seq<int>, bases: seq<int>, i: nat, j: nat)
    requires Allocations(used, bases) && i < j < |bases|
    ensures !Overlap(bases[i], bases[j]) && Avoids(bases[i], used)
  {
    assert Avoids(bases[j], used + bases[..j]);
    assert bases[..j][i] in used + bases[..j];
    assert Avoids(bases[i], used + bases[..i]);
  }

  // ---- Ports of a block ------------------------------------------------------------------

  datatype Mapping = Mapping(host: int, guest: int, proto: string)

  datatype Service = Service(name: string, offset: nat, guest: int, proto: string)

  const SERVICES: seq<Service> := [
    Service("http", 0, 80, "tcp"), Service("https", 1, 443, "tcp"), Service("ssh", 2, 22, "tcp"),
    Service("api", 3, 8728, "tcp"), Service("api-ssl", 4, 8729, "tcp"), Service("winbox", 5, 8291, "tcp")]

  /** A requested extra port: it may have no name, and no host port or port 0. */
  datatype Extra = Extra(name: string, host: Option<int>, guest: int, proto: string)

  predicate Automatic(extra: Extra) {
    extra.host.None? || extra.host.value == 0
  }

  /** Extras without a host port of their own start behind the services. */
  function ExtraHost(base: int, extras: seq<Extra>, i: nat): int
    requires i < |extras|
  {
    if Automatic(extras[i]) then base + |SERVICES| + i else extras[i].host.value
  }

  function ExtraName(extras: seq<Extra>, i: nat): string
    requires i < |extras|
  {
    if extras[i].name == "" then "custom-" + DecimalText(i) else extras[i].name
  }

  /** The mapping of a name: the last extra called so, or else a service not excluded. Assigning
      to `__proto__` of a record object makes no entry. */
  function PortOf(base: int, excluded: set<string>, services: nat, extras: seq<Extra>, count: nat, name: string): Option<Mapping>
    requires services <= |SERVICES| && count <= |extras|
    decreases count, services
  {
    if name == "__proto__" then None
    else if count > 0 then
      if ExtraName(extras, count - 1) == name then Some(Mapping(ExtraHost(base, extras, count - 1), extras[count - 1].guest, extras[count - 1].proto))
      else PortOf(base, excluded, services, extras, count - 1, name)
    else if services == 0 then None
    else if SERVICES[services - 1].name == name && name !in excluded then
      Some(Mapping(base + SERVICES[services - 1].offset, SERVICES[services - 1].guest, SERVICES[services - 1].proto))
    else PortOf(base, excluded, services - 1, extras, 0, name)
  }

  /** The record holds exactly these mappings. */
  ghost predicate Maps(mappings: map<string, Mapping>, base: int, excluded: set<string>, services: nat, extras: seq<Extra>, count: nat)
    requires services <= |SERVICES| && count <= |extras|
  {
    forall name :: PortOf(base, excluded, services, extras, count, name)
                   == if name in mappings then Some(mappings[name]) else None
  }

  /** The services not excluded, then the extras; a later entry replaces one of the same name. */
  method BuildPortMappings(base: int, excluded: set<string>, extras: seq<Extra>) returns (mappings: map<string, Mapping>)
    ensures Maps(mappings, base, excluded, |SERVICES|, extras, |extras|)
  {
    mappings := map[];
    for k := 0 to |SERVICES|
      invariant Maps(mappings, base, excluded, k, extras, 0)
    {
      if SERVICES[k].name !in excluded {
        mappings := mappings[SERVICES[k].name := Mapping(base + SERVICES[k].offset, SERVICES[k].guest, SERVICES[k].proto)];
      }
    }
    for i := 0 to |extras|
      invariant Maps(mappings, base, excluded, |SERVICES|, extras, i)
    {
      if ExtraName(extras, i) != "__proto__" {
        mappings := mappings[ExtraName(extras, i) := Mapping(ExtraHost(base, extras, i), extras[i].guest, extras[i].proto)];
      }
    }
  }

  /** Extra `i` is the last of the first `count` with this name, its own or `custom-` and its number. */
  predicate LastCalled(extras: seq<Extra>, count: nat, i: nat, name: string)
    requires count <= |extras|
  {
    && i < count
    && name == (if extras[i].name != "" then extras[i].name else "custom-" + DecimalText(i))
    && forall j: nat :: i < j < count ==> name != (if extras[j].name != "" then extras[j].name else "custom-" + DecimalText(j))
  }

  /** The six services: offset in the block and guest port. */
  predicate ServiceAt(name: string, offset: int, guest: int) {
    || (name == "http" && offset == 0 && guest == 80)
    || (name == "https" && offset == 1 && guest == 443)
    || (name == "ssh" && offset == 2 && guest == 22)
    || (name == "api" && offset == 3 && guest == 8728)
    || (name == "api-ssl" && offset == 4 && guest == 8729)
    || (name == "winbox" && offset == 5 && guest == 8291)
  }

  lemma OneExtraMore(base: int, excluded: set<string>, extras: seq<Extra>, count: nat, name: string)
    requires count < |extras| && name != "__proto__"
    ensures PortOf(base, excluded, |SERVICES|, extras, count + 1, name)
            == if ExtraName(extras, count) == name then
                 Some(Mapping(if extras[count].host.None? || extras[count].host.value == 0 then base + 6 + count
                              else extras[count].host.value,
                              extras[count].guest, extras[count].proto))
               else PortOf(base, excluded, |SERVICES|, extras, count, name)
  {
  }

  lemma {:induction false} LastExtra(base: int, excluded: set<string>, extras: seq<Extra>, count: nat, name: string)
    requires count <= |extras| && name != "__proto__"
    ensures forall i: nat :: LastCalled(extras, count, i, name) ==>
              PortOf(base, excluded, |SERVICES|, extras, count, name)
              == Some(Mapping(if extras[i].host.None? || extras[i].host.value == 0 then base + 6 + i else extras[i].host.value,
                              extras[i].guest, extras[i].proto))
    ensures (forall i: nat :: !LastCalled(extras, count, i, name)) ==>
              PortOf(base, excluded, |SERVICES|, extras, count, name) == PortOf(base, excluded, |SERVICES|, extras, 0, name)
    decreases count
  {
    hide PortOf, SERVICES, DecimalText;
    if count > 0 {
      var last := count - 1;
      OneExtraMore(base, excluded, extras, last, name);
      if ExtraName(extras, last) == name {
        assert LastCalled(extras, count, last, name);
      } else {
        LastExtra(base, excluded, extras, last, name);
        assert forall i: nat :: LastCalled(extras, count, i, name) <==> LastCalled(extras, last, i, name);
      }
    }
  }

  /** What each name maps to: the last extra called so, on its own host port or the one six and its
      number behind the base; without one, its service unless excluded; and otherwise nothing. */
  lemma PortsByName(mappings: map<string, Mapping>, base: int, excluded: set<string>, extras: seq<Extra>, name: string)
    requires Maps(mappings, base, excluded, |SERVICES|, extras, |extras|) && name != "__proto__"
    ensures forall i: nat :: LastCalled(extras, |extras|, i, name) ==>
              name in mappings && mappings[name]
              == Mapping(if extras[i].host.None? || extras[i].host.value == 0 then base + 6 + i else extras[i].host.value,
                         extras[i].guest, extras[i].proto)
    ensures (forall i: nat :: !LastCalled(extras, |extras|, i, name)) ==>
              && (name in mappings <==>
                    name !in excluded && name in {"http", "https", "ssh", "api", "api-ssl", "winbox"})
              && forall offset: int, guest: int :: name in mappings && ServiceAt(name, offset, guest) ==>
                   mappings[name] == Mapping(base + offset, guest, "tcp")
  {
    hide PortOf;
    LastExtra(base, excluded, extras, |extras|, name);
    assert PortOf(base, excluded, |SERVICES|, extras, |extras|, name)
           == if name in mappings then Some(mappings[name]) else None;
    ServicePorts(base, excluded, extras, name);
  }

  lemma ServicePorts(base: int, excluded: set<string>, extras: seq<Extra>, name: string)
    requires name != "__proto__"
    ensures var port := PortOf(base, excluded, |SERVICES|, extras, 0, name);
            && (port.Some? <==> name !in excluded && name in {"http", "https", "ssh", "api", "api-ssl", "winbox"})
            && forall offset: int, guest: int :: port.Some? && ServiceAt(name, offset, guest) ==>
                 port == Some(Mapping(base + offset, guest, "tcp"))
  {
    assert PortOf(base, excluded, 4, extras, 0, name).Some? || PortOf(base, excluded, 4, extras, 0, name).None?;
    assert PortOf(base, excluded, 2, extras, 0, name).Some? || PortOf(base, excluded, 2, extras, 0, name).None?;
  }

  /** The automatic host ports stay inside the machine's own block exactly when no extra behind
      the fourth leaves its host port to be chosen. */
  lemma AutomaticPortsInBlock(base: int, extras: seq<Extra>)
    ensures (forall i: nat :: i < |extras| && Automatic(extras[i]) ==> InBlock(ExtraHost(base, extras, i), base))
            <==> (forall i: nat :: 4 <= i < |extras| ==> !Automatic(extras[i]))
  {
    forall i: nat | i < |extras| && Automatic(extras[i])
      ensures InBlock(ExtraHost(base, extras, i), base) <==> i < 4
    {
    }
  }

  /** Five automatic extras: the fifth gets the first port of the next block. */
  lemma FifthAutomaticPortLeavesBlock(base: int)
    ensures var extra := Extra("", None, 80, "tcp");
            var extras := [extra, extra, extra, extra, extra];
            ExtraHost(base, extras, 4) == base + PORTS_PER_BLOCK && !InBlock(ExtraHost(base, extras, 4), base)
  {
  }
}
