/**
 * MAC addresses for the NICs of a new machine: given addresses stay, the others are derived from
 * the machine's name, the NIC's index and a salt, and no two are the same.
 */
module MacAddresses {
  import opened Prelude

  class Nic {
    var mac: Option<string>

    constructor (mac: Option<string>)
      ensures this.mac == mac
    {
      this.mac := mac;
    }
  }

  /** The address of a NIC index and a salt: a hash of them and of the machine's name. */
  type Derive = (nat, nat) -> string

  /** A hash gives some text for every index and salt. It may give only finitely many. */
  ghost predicate GivesText(derive: Derive) {
    forall i, salt :: derive(i, salt) != ""
  }

  predicate HasMac(mac: Option<string>) {
    mac.Some? && mac.value != ""
  }

  function Addresses(macs: seq<Option<string>>): set<string> {
    set mac | mac in macs && HasMac(mac) :: mac.value
  }

  // ---- The salt that is found ------------------------------------------------------------

  /** Every address that index `i` can get is used: the search for a salt does not end. */
  ghost predicate Exhausted(derive: Derive, i: nat, used: set<string>) {
    forall salt :: derive(i, salt) in used
  }

  ghost predicate FirstUnused(derive: Derive, i: nat, used: set<string>, salt: nat) {
    derive(i, salt) !in used && forall s :: 0 <= s < salt ==> derive(i, s) in used
  }

  lemma {:induction false} FindFirstUnused(derive: Derive, i: nat, used: set<string>, from: nat) returns (salt: nat)
    requires derive(i, from) !in used
    ensures FirstUnused(derive, i, used, salt)
    decreases from
  {
    if s :| 0 <= s < from && derive(i, s) !in used {
      salt := FindFirstUnused(derive, i, used, s);
    } else {
      salt := from;
    }
  }

  ghost function Salt(derive: Derive, i: nat, used: set<string>): (salt: nat)
    requires !Exhausted(derive, i, used)
    ensures FirstUnused(derive, i, used, salt)
  {
    var from :| derive(i, from) !in used;
    assert exists salt: nat :: FirstUnused(derive, i, used, salt) by {
      var salt := FindFirstUnused(derive, i, used, from);
    }
    var salt: nat :| FirstUnused(derive, i, used, salt);
    salt
  }

  // ---- The assignment --------------------------------------------------------------------

  /** The addresses after the first `k` NICs, or none if one of them is left waiting. */
  ghost function Assigned(macs: seq<Option<string>>, taken: set<string>, derive: Derive, k: nat): (r: Option<seq<Option<string>>>)
    requires k <= |macs|
    ensures r.Some? ==> |r.value| == |macs| && r.value[k..] == macs[k..]
  {
    if k == 0 then Some(macs)
    else
      match Assigned(macs, taken, derive, k - 1)
      case None => None
      case Some(p) =>
        var used := taken + Addresses(p);
        if HasMac(macs[k - 1]) then Some(p)
        else if Exhausted(derive, k - 1, used) then None
        else Some(p[k - 1 := Some(derive(k - 1, Salt(derive, k - 1, used)))])
  }

  ghost function Result(macs: seq<Option<string>>, taken: set<string>, derive: Derive): Option<seq<Option<string>>> {
    Assigned(macs, taken, derive, |macs|)
  }

  lemma AddressesOfUpdate(macs: seq<Option<string>>, i: nat, mac: string)
    requires i < |macs| && !HasMac(macs[i]) && mac != ""
    ensures Addresses(macs[i := Some(mac)]) == Addresses(macs) + {mac}
  {
    var after := macs[i := Some(mac)];
    assert after[i] in after;
    forall m | m in macs && HasMac(m)
      ensures m in after
    {
      var j :| 0 <= j < |macs| && macs[j] == m;
      assert after[j] == m;
    }
  }

  /** Given addresses stay; every other is derived, is not taken, and no two NICs share it. */
  lemma {:induction false} AssignedApart(macs: seq<Option<string>>, taken: set<string>, derive: Derive, k: nat)
    requires k <= |macs| && GivesText(derive) && Assigned(macs, taken, derive, k).Some?
    ensures var p := Assigned(macs, taken, derive, k).value;
            && (forall i :: 0 <= i < |macs| && HasMac(macs[i]) ==> p[i] == macs[i])
            && (forall i :: 0 <= i < k ==> HasMac(p[i]))
            && (forall i :: 0 <= i < k && !HasMac(macs[i]) ==> p[i].value !in taken && exists salt :: p[i].value == derive(i, salt))
            && (forall i, j :: 0 <= i < k && 0 <= j < |macs| && i != j && !HasMac(macs[i]) ==> p[i] != p[j])
  {
    if k > 0 {
      AssignedApart(macs, taken, derive, k - 1);
      var before := Assigned(macs, taken, derive, k - 1).value;
      assert before[k - 1] == macs[k - 1] by {
        assert before[k - 1..][0] == macs[k - 1..][0];
      }
      if !HasMac(macs[k - 1]) {
        forall j | 0 <= j < |macs| && HasMac(before[j])
          ensures before[j].value in Addresses(before)
        {
          assert before[j] in before;
        }
      }
    }
  }

  /** `mac` is taken, given to a NIC, or was assigned to one before NIC `i`. */
  predicate InUseBefore(macs: seq<Option<string>>, taken: set<string>, p: seq<Option<string>>, i: nat, mac: string)
    requires |p| == |macs|
  {
    mac in taken || exists j :: 0 <= j < |macs| && (j < i || HasMac(macs[j])) && p[j] == Some(mac)
  }

  /** Each address derived is the one of the least salt whose address was not in use then. */
  lemma {:induction false} LeastSalt(macs: seq<Option<string>>, taken: set<string>, derive: Derive, k: nat, i: nat)
    returns (salt: nat)
    requires i < k <= |macs| && !HasMac(macs[i]) && GivesText(derive) && Assigned(macs, taken, derive, k).Some?
    ensures var p := Assigned(macs, taken, derive, k).value;
            p[i] == Some(derive(i, salt)) && forall s :: 0 <= s < salt ==> InUseBefore(macs, taken, p, i, derive(i, s))
    decreases k
  {
    var last := k - 1;
    var before := Assigned(macs, taken, derive, last).value;
    var p := Assigned(macs, taken, derive, k).value;
    AssignedApart(macs, taken, derive, last);
    assert before[last] == macs[last] by {
      assert before[last..][0] == macs[last..][0];
    }
    if i < last {
      salt := LeastSalt(macs, taken, derive, last, i);
      assert forall j :: 0 <= j < |macs| && j != last ==> p[j] == before[j];
      forall s | 0 <= s < salt
        ensures InUseBefore(macs, taken, p, i, derive(i, s))
      {
        assert InUseBefore(macs, taken, before, i, derive(i, s));
      }
    } else {
      var used := taken + Addresses(before);
      salt := Salt(derive, i, used);
      forall s | 0 <= s < salt
        ensures InUseBefore(macs, taken, p, i, derive(i, s))
      {
        var mac := derive(i, s);
        if mac !in taken {
          assert mac in Addresses(before);
          var j :| 0 <= j < |before| && before[j] == Some(mac) && HasMac(before[j]);
          OnlyEarlierOrGiven(macs, taken, derive, last, j);
        }
      }
    }
  }

  lemma OnlyEarlierOrGiven(macs: seq<Option<string>>, taken: set<string>, derive: Derive, k: nat, j: nat)
    requires k <= |macs| && j < |macs| && Assigned(macs, taken, derive, k).Some?
    requires HasMac(Assigned(macs, taken, derive, k).value[j])
    ensures j < k || HasMac(macs[j])
  {
    if j >= k {
      var p := Assigned(macs, taken, derive, k).value;
      assert p[j] == p[k..][j - k] && macs[j] == macs[k..][j - k];
    }
  }

  /** NIC `i` gets its turn, and every address of its index is taken, given to another NIC, or
      assigned to an earlier one. */
  ghost predicate WaitsAt(macs: seq<Option<string>>, taken: set<string>, derive: Derive, i: nat)
    requires i < |macs|
  {
    && !HasMac(macs[i]) && Assigned(macs, taken, derive, i).Some?
    && Exhausted(derive, i, taken + Addresses(Assigned(macs, taken, derive, i).value))
  }

  ghost predicate SomeWaits(macs: seq<Option<string>>, taken: set<string>, derive: Derive, k: nat)
    requires k <= |macs|
  {
    exists i: nat :: i < k && WaitsAt(macs, taken, derive, i)
  }

  lemma OneMoreWaits(macs: seq<Option<string>>, taken: set<string>, derive: Derive, k: nat)
    requires 0 < k <= |macs|
    ensures SomeWaits(macs, taken, derive, k) <==> SomeWaits(macs, taken, derive, k - 1) || WaitsAt(macs, taken, derive, k - 1)
  {
    hide WaitsAt;
  }

  /** The assignment does not end exactly when some NIC is left waiting. */
  lemma {:induction false} WaitsExactlyWhenExhausted(macs: seq<Option<string>>, taken: set<string>, derive: Derive, k: nat)
    requires k <= |macs|
    ensures Assigned(macs, taken, derive, k).None? <==> SomeWaits(macs, taken, derive, k)
  {
    if k > 0 {
      WaitsExactlyWhenExhausted(macs, taken, derive, k - 1);
      OneMoreNic(macs, taken, derive, k);
      OneMoreWaits(macs, taken, derive, k);
      hide WaitsAt, SomeWaits, Assigned;
    }
  }

  lemma OneMoreNic(macs: seq<Option<string>>, taken: set<string>, derive: Derive, k: nat)
    requires 0 < k <= |macs|
    ensures Assigned(macs, taken, derive, k).None?
            <==> Assigned(macs, taken, derive, k - 1).None? || WaitsAt(macs, taken, derive, k - 1)
  {
    hide Exhausted, Addresses;
  }

  lemma {:induction false} AllGivenSoFar(macs: seq<Option<string>>, taken: set<string>, derive: Derive, k: nat)
    requires k <= |macs| && forall j :: 0 <= j < k ==> HasMac(macs[j])
    ensures Assigned(macs, taken, derive, k) == Some(macs)
  {
    if k > 0 {
      AllGivenSoFar(macs, taken, derive, k - 1);
    }
  }

  /** NICs that have an address change nothing. */
  lemma {:induction false} AllGivenAfter(macs: seq<Option<string>>, taken: set<string>, derive: Derive, i: nat, k: nat)
    requires i <= k <= |macs| && forall j :: i <= j < k ==> HasMac(macs[j])
    ensures Assigned(macs, taken, derive, k) == Assigned(macs, taken, derive, i)
  {
    if i < k {
      AllGivenAfter(macs, taken, derive, i, k - 1);
    }
  }

  /** If only one NIC has no address, it is left waiting exactly when every address of its index is
      taken or given to another NIC. */
  lemma OneNicWaits(macs: seq<Option<string>>, taken: set<string>, derive: Derive, i: nat)
    requires i < |macs| && forall j :: 0 <= j < |macs| ==> (HasMac(macs[j]) <==> j != i)
    ensures Result(macs, taken, derive).None? <==> Exhausted(derive, i, taken + Addresses(macs))
  {
    AllGivenSoFar(macs, taken, derive, i);
    AllGivenAfter(macs, taken, derive, i + 1, |macs|);
  }

  /** Whatever the hash: one NIC, and its every address is taken. A hash has finitely many. */
  lemma AllTakenLeavesWaiting(taken: set<string>, derive: Derive)
    requires forall salt :: derive(0, salt) in taken
    ensures Result([None], taken, derive).None?
  {
    OneNicWaits([None], taken, derive, 0);
    assert forall salt :: derive(0, salt) in taken + Addresses([None]);
  }

  lemma {:induction false} AddressesAtMost(macs: seq<Option<string>>)
    ensures |Addresses(macs)| <= |macs|
  {
    if macs != [] {
      var rest, last := macs[..|macs| - 1], macs[|macs| - 1];
      AddressesAtMost(rest);
      assert macs == rest + [last];
      assert Addresses(macs) == Addresses(rest) + if HasMac(last) then {last.value} else {};
    }
  }

  lemma SubsetAtMost(a: set<string>, b: set<string>)
    requires a <= b
    ensures |a| <= |b|
  {
    assert b == a + (b - a);
  }

  /** The addresses of index `i` under the first `n` salts. */
  function Reach(derive: Derive, i: nat, n: nat): set<string> {
    set salt | 0 <= salt < n :: derive(i, salt)
  }

  /** No NIC waits when every index reaches more addresses than are taken or belong to NICs. */
  lemma {:induction false} EnoughAddresses(macs: seq<Option<string>>, taken: set<string>, derive: Derive, n: nat, k: nat)
    requires k <= |macs|
    requires forall i: nat :: i < |macs| && !HasMac(macs[i]) ==> |Reach(derive, i, n)| > |taken| + |macs|
    ensures Assigned(macs, taken, derive, k).Some?
  {
    if k > 0 {
      EnoughAddresses(macs, taken, derive, n, k - 1);
      var p := Assigned(macs, taken, derive, k - 1).value;
      if !HasMac(macs[k - 1]) && Exhausted(derive, k - 1, taken + Addresses(p)) {
        AddressesAtMost(p);
        SubsetAtMost(Reach(derive, k - 1, n), taken + Addresses(p));
        assert false;
      }
    }
  }

  /** Assigning again changes nothing, whatever has been taken since. */
  lemma AssigningAgain(macs: seq<Option<string>>, taken: set<string>, derive: Derive, later: set<string>)
    requires GivesText(derive) && Result(macs, taken, derive).Some?
    ensures Result(Result(macs, taken, derive).value, later, derive) == Result(macs, taken, derive)
  {
    AssignedApart(macs, taken, derive, |macs|);
    var out := Result(macs, taken, derive).value;
    AllGivenSoFar(out, later, derive, |out|);
  }

  // ---- The code --------------------------------------------------------------------------

  predicate Different(nics: seq<Nic>) {
    forall i, j :: 0 <= i < j < |nics| ==> nics[i] != nics[j]
  }

  ghost function Macs(nics: seq<Nic>): (macs: seq<Option<string>>)
    reads nics
    ensures |macs| == |nics| && forall i :: 0 <= i < |nics| ==> macs[i] == nics[i].mac
  {
    seq(|nics|, i requires 0 <= i < |nics| reads nics => nics[i].mac)
  }

  /** Runs to its end exactly when no NIC is left waiting. */
  method AssignMacs(nics: seq<Nic>, taken: set<string>, derive: Derive)
    requires Different(nics) && GivesText(derive)
    requires Result(Macs(nics), taken, derive).Some?
    modifies nics
    ensures Some(Macs(nics)) == Result(old(Macs(nics)), taken, derive)
  {
    hide Addresses, Exhausted, Assigned, Macs, Salt;
    ghost var macs := Macs(nics);
    var used := taken;
    assert macs[..0] == [];
    NoAddresses();
    for i := 0 to |nics|
      invariant Macs(nics) == macs
      invariant used == taken + Addresses(macs[..i])
    {
      AddressesNext(macs, i);
      if HasMac(nics[i].mac) {
        used := used + {nics[i].mac.value};
      }
    }
    assert macs[..|nics|] == macs;
    AssignedNone(macs, taken, derive);
    for i := 0 to |nics|
      invariant Some(Macs(nics)) == Assigned(macs, taken, derive, i)
      invariant used == taken + Addresses(Macs(nics))
    {
      ghost var before := Macs(nics);
      StillAssigned(macs, taken, derive, i + 1);
      NotYetReached(macs, taken, derive, i);
      AssignedNext(macs, taken, derive, i);
      if !HasMac(nics[i].mac) {
        var mac := UnusedMac(derive, i, used);
        used := used + {mac};
        nics[i].mac := Some(mac);
        AddressesOfUpdate(before, i, mac);
        assert Macs(nics) == before[i := Some(mac)];
      }
    }
  }

  lemma NoAddresses()
    ensures Addresses([]) == {}
  {
  }

  lemma AddressesNext(macs: seq<Option<string>>, i: nat)
    requires i < |macs|
    ensures Addresses(macs[..i + 1]) == Addresses(macs[..i]) + if HasMac(macs[i]) then {macs[i].value} else {}
  {
    assert macs[..i + 1] == macs[..i] + [macs[i]];
  }

  lemma AssignedNone(macs: seq<Option<string>>, taken: set<string>, derive: Derive)
    ensures Assigned(macs, taken, derive, 0) == Some(macs)
  {
  }

  /** One NIC more, where none is left waiting. */
  lemma AssignedNext(macs: seq<Option<string>>, taken: set<string>, derive: Derive, i: nat)
    requires i < |macs| && Assigned(macs, taken, derive, i + 1).Some?
    ensures Assigned(macs, taken, derive, i).Some?
    ensures var p := Assigned(macs, taken, derive, i).value;
            if HasMac(macs[i]) then Assigned(macs, taken, derive, i + 1) == Some(p)
            else
              && !Exhausted(derive, i, taken + Addresses(p))
              && Assigned(macs, taken, derive, i + 1) == Some(p[i := Some(derive(i, Salt(derive, i, taken + Addresses(p))))])
  {
    hide Exhausted, Addresses, HasMac;
  }

  /** Salt after salt until the address is unused. */
  method UnusedMac(derive: Derive, i: nat, used: set<string>) returns (mac: string)
    requires !Exhausted(derive, i, used)
    ensures mac == derive(i, Salt(derive, i, used))
  {
    ghost var first := Salt(derive, i, used);
    var salt := 0;
    mac := derive(i, salt);
    while mac in used
      invariant salt <= first && mac == derive(i, salt)
      decreases first - salt
    {
      salt := salt + 1;
      mac := derive(i, salt);
    }
  }

  lemma NotYetReached(macs: seq<Option<string>>, taken: set<string>, derive: Derive, i: nat)
    requires i < |macs| && Assigned(macs, taken, derive, i).Some?
    ensures Assigned(macs, taken, derive, i).value[i] == macs[i]
  {
    var p := Assigned(macs, taken, derive, i).value;
    assert p[i..][0] == macs[i..][0];
  }

  lemma {:induction false} StillAssigned(macs: seq<Option<string>>, taken: set<string>, derive: Derive, k: nat)
    requires k <= |macs| && Result(macs, taken, derive).Some?
    ensures Assigned(macs, taken, derive, k).Some?
    decreases |macs| - k
  {
    if k < |macs| {
      StillAssigned(macs, taken, derive, k + 1);
    }
  }
}
