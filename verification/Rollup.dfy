/**
 * The tested-versions rollup: which version a run is credited for, and folding run files into
 * the latest result of each version and platform.
 */
module Rollup {
  import opened Prelude
  import opened Text
  import opened Names

  datatype Suite = Suite(runId: string, ts: string, platform: string, scope: string, conclusion: string, target: string)

  /** One record of a run file; a boot's version may be missing. */
  datatype Record = Boot(version: Option<string>) | SuiteRecord(suite: Suite) | Other

  datatype Entry = Entry(runId: string, date: string, conclusion: string)

  type Rollup = map<string, map<string, Entry>>

  // ---- The version a run tested ----------------------------------------------------------

  /** The text after a leading number. */
  function AfterNumber(s: string): Option<string> {
    if s == "" || !IsDigit(s[0]) then None
    else if AfterNumber(s[1..]).Some? then AfterNumber(s[1..])
    else Some(s[1..])
  }

  predicate IsNumber(s: string) {
    AfterNumber(s) == Some("")
  }

  predicate Prerelease(s: string) {
    s == "" || ("beta" <= s && IsNumber(s[4..])) || ("rc" <= s && IsNumber(s[2..]))
  }

  /** 7.22.1, 7.24beta2, 7.24rc1: anything else names a channel. */
  predicate VersionShape(s: string) {
    && AfterNumber(s).Some? && "." <= AfterNumber(s).value
    && var minor := AfterNumber(AfterNumber(s).value[1..]);
       minor.Some?
       && (Prerelease(minor.value)
           || ("." <= minor.value && AfterNumber(minor.value[1..]).Some? && Prerelease(AfterNumber(minor.value[1..]).value)))
  }

  /** Two or three numbers between dots, perhaps a pre-release number. */
  ghost predicate IsVersion(s: string, major: string, minor: string, patch: string, pre: string) {
    && AllDigits(major) && AllDigits(minor)
    && (patch == "" || ("." <= patch && AllDigits(patch[1..])))
    && (pre == "" || ("beta" <= pre && AllDigits(pre[4..])) || ("rc" <= pre && AllDigits(pre[2..])))
    && s == major + ("." + minor + (patch + pre))
  }

  /** The leading number is all the leading digits. */
  lemma {:induction false} AfterDigits(digits: string, rest: string)
    requires AllDigits(digits) && (rest == "" || !IsDigit(rest[0]))
    ensures AfterNumber(digits + rest) == Some(rest)
  {
    var s := digits + rest;
    assert s[0] == digits[0] && digits[0] in digits && s[1..] == digits[1..] + rest;
    if |digits| > 1 {
      AfterDigits(digits[1..], rest);
    } else {
      assert s[1..] == rest;
    }
  }

  lemma {:induction false} NumberAndRest(s: string) returns (digits: string)
    requires AfterNumber(s).Some?
    ensures AllDigits(digits) && s == digits + AfterNumber(s).value
  {
    if AfterNumber(s[1..]).Some? {
      digits := NumberAndRest(s[1..]);
      digits := [s[0]] + digits;
    } else {
      digits := [s[0]];
    }
  }

  lemma NumberIsDigits(s: string)
    ensures IsNumber(s) <==> AllDigits(s)
  {
    if AllDigits(s) {
      AfterDigits(s, "");
      assert s + "" == s;
    }
    if IsNumber(s) {
      var digits := NumberAndRest(s);
      assert s == digits;
    }
  }

  lemma PrereleaseText(pre: string)
    ensures Prerelease(pre) <==> pre == "" || ("beta" <= pre && AllDigits(pre[4..])) || ("rc" <= pre && AllDigits(pre[2..]))
    ensures Prerelease(pre) && pre != "" ==> !IsDigit(pre[0]) && pre[0] != '.'
  {
    if "beta" <= pre {
      NumberIsDigits(pre[4..]);
      assert pre[0] == 'b';
    }
    if "rc" <= pre {
      NumberIsDigits(pre[2..]);
      assert pre[0] == 'r';
    }
  }

  /** A version-shaped target is recognised, whatever its parts. */
  lemma VersionIsShaped(s: string, major: string, minor: string, patch: string, pre: string)
    requires IsVersion(s, major, minor, patch, pre)
    ensures VersionShape(s)
  {
    PrereleaseText(pre);
    var tail := patch + pre;
    var afterMajor := "." + minor + tail;
    AfterDigits(major, afterMajor);
    assert afterMajor[1..] == minor + tail;
    if patch == "" {
      assert tail == pre;
      AfterDigits(minor, tail);
    } else {
      assert tail[0] == '.' && tail[1..] == patch[1..] + pre;
      AfterDigits(minor, tail);
      AfterDigits(patch[1..], pre);
    }
  }

  /** And nothing else is. */
  lemma ShapedIsVersion(s: string) returns (major: string, minor: string, patch: string, pre: string)
    requires VersionShape(s)
    ensures IsVersion(s, major, minor, patch, pre)
  {
    hide AfterNumber, AllDigits, Prerelease;
    major := NumberAndRest(s);
    var afterMajor := AfterNumber(s).value;
    minor := NumberAndRest(afterMajor[1..]);
    var tail := AfterNumber(afterMajor[1..]).value;
    patch, pre := PatchAndPre(tail);
    assert afterMajor == "." + (minor + tail);
  }

  /** What follows the minor number. */
  lemma PatchAndPre(tail: string) returns (patch: string, pre: string)
    requires Prerelease(tail) || ("." <= tail && AfterNumber(tail[1..]).Some? && Prerelease(AfterNumber(tail[1..]).value))
    ensures tail == patch + pre && (patch == "" || ("." <= patch && AllDigits(patch[1..])))
    ensures pre == "" || ("beta" <= pre && AllDigits(pre[4..])) || ("rc" <= pre && AllDigits(pre[2..]))
  {
    hide AfterNumber, AllDigits, Prerelease;
    if Prerelease(tail) {
      patch, pre := "", tail;
    } else {
      var digits := NumberAndRest(tail[1..]);
      patch, pre := "." + digits, AfterNumber(tail[1..]).value;
      assert tail == "." + tail[1..] && patch[1..] == digits;
    }
    PrereleaseText(pre);
  }

  function FirstSuite(records: seq<Record>): Option<Suite> {
    if records == [] then None
    else if records[0].SuiteRecord? then Some(records[0].suite)
    else FirstSuite(records[1..])
  }

  /** The versions a run booted, in order. */
  function Boots(records: seq<Record>): seq<string> {
    if records == [] then []
    else
      var last := records[|records| - 1];
      Boots(records[..|records| - 1])
      + if last.Boot? && last.version.Some? && last.version.value != "" then [last.version.value] else []
  }

  function Times(boots: seq<string>, version: string): nat {
    multiset(boots)[version]
  }

  /** Booted at least as often as any other version, and before those booted as often. */
  ghost predicate Modal(boots: seq<string>, version: string) {
    exists i :: FirstMost(boots, version, i)
  }

  ghost predicate FirstMost(boots: seq<string>, version: string, i: int) {
    && 0 <= i < |boots| && boots[i] == version && version !in boots[..i]
    && (forall other :: other in boots ==> Times(boots, other) <= Times(boots, version))
    && (forall j :: 0 <= j < i ==> Times(boots, boots[j]) < Times(boots, version))
  }

  lemma ModalUnique(boots: seq<string>, a: string, b: string)
    requires Modal(boots, a) && Modal(boots, b)
    ensures a == b
  {
    var i :| FirstMost(boots, a, i);
    var j :| FirstMost(boots, b, j);
    assert boots[i] in boots && boots[j] in boots;
  }

  /** The version a run is credited for. */
  ghost function TargetVersion(records: seq<Record>): Option<string> {
    var suite := FirstSuite(records);
    if suite.None? then None
    else if VersionShape(suite.value.target) then Some(suite.value.target)
    else if version :| Modal(Boots(records), version) then Some(version)
    else None
  }

  lemma TargetOfChannel(records: seq<Record>, version: Option<string>)
    requires FirstSuite(records).Some? && !VersionShape(FirstSuite(records).value.target)
    requires if Boots(records) == [] then version.None? else version.Some? && Modal(Boots(records), version.value)
    ensures TargetVersion(records) == version
  {
    var boots := Boots(records);
    if chosen :| Modal(boots, chosen) {
      if boots != [] {
        ModalUnique(boots, chosen, version.value);
      }
    }
  }

  /** A channel run is credited for the modal boot version, the first booted on ties; a run
      without boots for none. */
  method ResolvedTargetVersion(records: seq<Record>) returns (version: Option<string>)
    ensures version == TargetVersion(records)
    ensures FirstSuite(records).Some? && !VersionShape(FirstSuite(records).value.target) ==>
              if Boots(records) == [] then version.None?
              else version.Some? && Modal(Boots(records), version.value)
  {
    var suite := FirstSuite(records);
    if suite.None? {
      return None;
    }
    if VersionShape(suite.value.target) {
      return Some(suite.value.target);
    }
    var keys, counts := CountBoots(records);
    version := MostCounted(Boots(records), keys, counts);
    TargetOfChannel(records, version);
  }

  /** The boots counted by version; the keys are in the order of first boots. */
  ghost predicate Counted(boots: seq<string>, keys: seq<string>, counts: map<string, nat>) {
    && (forall k :: k in keys <==> k in boots)
    && (forall k :: k in counts <==> k in boots)
    && (forall k :: k in counts ==> counts[k] == Times(boots, k))
    && KeepsFirsts(boots, keys)
  }

  lemma NothingBooted()
    ensures Counted([], [], map[])
  {
    assert FirstsAt([], [], []);
  }

  method CountBoots(records: seq<Record>) returns (keys: seq<string>, counts: map<string, nat>)
    ensures Counted(Boots(records), keys, counts)
  {
    hide Counted;
    NothingBooted();
    keys, counts := [], map[];
    for i := 0 to |records|
      invariant Counted(Boots(records[..i]), keys, counts)
    {
      assert records[..i + 1][..i] == records[..i];
      var r := records[i];
      if r.Boot? && r.version.Some? && r.version.value != "" {
        var v := r.version.value;
        CountedSnoc(Boots(records[..i]), keys, counts, v);
        if v in counts {
          counts := counts[v := counts[v] + 1];
        } else {
          counts := counts[v := 1];
          keys := keys + [v];
        }
      } else {
        assert Boots(records[..i + 1]) == Boots(records[..i]);
      }
    }
    assert records[..|records|] == records;
  }

  lemma CountedSnoc(boots: seq<string>, keys: seq<string>, counts: map<string, nat>, v: string)
    requires Counted(boots, keys, counts)
    ensures v in counts ==> Counted(boots + [v], keys, counts[v := counts[v] + 1])
    ensures v !in counts ==> Counted(boots + [v], keys + [v], counts[v := 1])
  {
    var after := boots + [v];
    assert forall k :: Times(after, k) == Times(boots, k) + if k == v then 1 else 0;
    KeepsFirstsSnoc(boots, keys, v);
    hide KeepsFirsts;
  }

  method MostCounted(ghost boots: seq<string>, keys: seq<string>, counts: map<string, nat>) returns (best: Option<string>)
    requires Counted(boots, keys, counts)
    ensures boots == [] ==> best.None?
    ensures boots != [] ==> best.Some? && Modal(boots, best.value)
  {
    best := None;
    var bestCount := 0;
    ghost var bestAt := 0;
    for i := 0 to |keys|
      invariant bestAt <= i && (best.None? ==> i == 0 && bestCount == 0)
      invariant best.Some? ==> bestAt < i && best.value == keys[bestAt] && bestCount == Times(boots, best.value)
      invariant forall j :: 0 <= j < i ==> Times(boots, keys[j]) <= bestCount
      invariant forall j :: 0 <= j < bestAt ==> Times(boots, keys[j]) < bestCount
    {
      assert keys[i] in keys && keys[i] in counts;
      if counts[keys[i]] > bestCount {
        best := Some(keys[i]);
        bestCount := counts[keys[i]];
        bestAt := i;
      }
    }
    if boots != [] {
      assert boots[0] in keys;
      MostIsModal(boots, keys, bestAt);
    }
  }

  lemma MostIsModal(boots: seq<string>, keys: seq<string>, k: nat)
    requires k < |keys| && KeepsFirsts(boots, keys) && forall x :: x in keys <==> x in boots
    requires forall j :: 0 <= j < |keys| ==> Times(boots, keys[j]) <= Times(boots, keys[k])
    requires forall j :: 0 <= j < k ==> Times(boots, keys[j]) < Times(boots, keys[k])
    ensures Modal(boots, keys[k])
  {
    var at :| FirstsAt(boots, keys, at);
    forall other | other in boots
      ensures Times(boots, other) <= Times(boots, keys[k])
    {
      var j :| 0 <= j < |keys| && keys[j] == other;
    }
    forall b | 0 <= b < at[k]
      ensures Times(boots, boots[b]) < Times(boots, keys[k])
    {
      assert boots[b] in boots;
      var j :| 0 <= j < |keys| && keys[j] == boots[b];
      forall c | 0 <= c < at[j]
        ensures boots[c] in boots[..at[j]]
      {
        assert boots[..at[j]][c] == boots[c];
      }
      assert at[j] <= b;
    }
    assert FirstMost(boots, keys[k], at[k]);
  }

  // ---- Folding ---------------------------------------------------------------------------

  datatype Credit = Credit(version: string, platform: string, entry: Entry)

  /** What a run file counts for: one version and platform, and only in a full run. */
  ghost function CreditOf(records: seq<Record>): Option<Credit> {
    var suite := FirstSuite(records);
    if suite.None? || suite.value.scope != "full" then None
    else
      var version := TargetVersion(records);
      if version.None? || version.value == "" then None
      else Some(Credit(version.value, suite.value.platform,
                       Entry(suite.value.runId, suite.value.ts, suite.value.conclusion)))
  }

  function Lookup(tested: Rollup, version: string, platform: string): Option<Entry> {
    if version in tested && platform in tested[version] then Some(tested[version][platform]) else None
  }

  /** Every listed version has a platform. */
  ghost predicate Tidy(tested: Rollup) {
    forall v :: v in tested ==> tested[v] != map[]
  }

  /** The entry a credit leaves in place of the one before. */
  function Newer(prior: Option<Entry>, entry: Entry): Entry {
    if prior.None? || AtMost(prior.value.date, entry.date) then entry else prior.value
  }

  ghost function Fold(tested: Rollup, records: seq<Record>): Rollup {
    match CreditOf(records)
    case None => tested
    case Some(c) =>
      var platforms := if c.version in tested then tested[c.version] else map[];
      tested[c.version := platforms[c.platform := Newer(Lookup(tested, c.version, c.platform), c.entry)]]
  }

  lemma FoldedEntry(tested: Rollup, records: seq<Record>, v: string, p: string)
    ensures Lookup(Fold(tested, records), v, p)
            == var credit := CreditOf(records);
               if credit.Some? && credit.value.version == v && credit.value.platform == p
               then Some(Newer(Lookup(tested, v, p), credit.value.entry))
               else Lookup(tested, v, p)
  {
  }

  /** A file is for a version and platform if it is of a full run of that platform whose target
      resolves to that version. */
  ghost predicate IsFor(records: seq<Record>, v: string, p: string) {
    var suite := FirstSuite(records);
    suite.Some? && suite.value.scope == "full" && suite.value.platform == p && v != "" && TargetVersion(records) == Some(v)
  }

  /** Record `i` is the first of a suite. */
  predicate FirstSuiteAt(records: seq<Record>, i: nat) {
    i < |records| && records[i].SuiteRecord? && forall j :: 0 <= j < i ==> !records[j].SuiteRecord?
  }

  /** The boots with a version are the records at these places, and no others. */
  predicate BootsAt(records: seq<Record>, at: seq<nat>, boots: seq<string>) {
    && |at| == |boots| && (forall j, k :: 0 <= j < k < |at| ==> at[j] < at[k])
    && (forall j :: 0 <= j < |at| ==> at[j] < |records| && records[at[j]] == Boot(Some(boots[j])) && boots[j] != "")
    && (forall n: nat :: n < |records| && records[n].Boot? && records[n].version.Some? && records[n].version.value != "" ==>
          n in at)
  }

  lemma {:induction false} SuiteFound(records: seq<Record>)
    ensures FirstSuite(records) == None <==> forall i :: 0 <= i < |records| ==> !records[i].SuiteRecord?
    ensures forall i: nat :: FirstSuiteAt(records, i) ==> FirstSuite(records) == Some(records[i].suite)
    ensures FirstSuite(records).Some? ==> exists i: nat :: FirstSuiteAt(records, i)
  {
    if records != [] {
      SuiteFound(records[1..]);
      assert forall i :: 1 <= i < |records| ==> records[i] == records[1..][i - 1];
      if records[0].SuiteRecord? {
        assert FirstSuiteAt(records, 0);
      } else {
        forall i: nat | FirstSuiteAt(records, i)
          ensures FirstSuite(records) == Some(records[i].suite)
        {
          var j: nat := i - 1;
          assert FirstSuiteAt(records[1..], j);
        }
        if j: nat :| FirstSuiteAt(records[1..], j) {
          assert FirstSuiteAt(records, j + 1);
        }
      }
    }
  }

  lemma {:induction false} BootsFound(records: seq<Record>) returns (at: seq<nat>)
    ensures BootsAt(records, at, Boots(records))
  {
    at := [];
    if records != [] {
      var n := |records| - 1;
      var last := records[n];
      at := BootsFound(records[..n]);
      BootsAtSnoc(records[..n], last, at, Boots(records[..n]));
      assert records[..n] + [last] == records;
      if last.Boot? && last.version.Some? && last.version.value != "" {
        at := at + [n];
      } else {
        assert Boots(records[..n]) + [] == Boots(records[..n]);
      }
    }
  }

  lemma BootsAtSnoc(records: seq<Record>, last: Record, at: seq<nat>, boots: seq<string>)
    requires BootsAt(records, at, boots)
    ensures if last.Boot? && last.version.Some? && last.version.value != ""
            then BootsAt(records + [last], at + [|records|], boots + [last.version.value])
            else BootsAt(records + [last], at, boots)
  {
    if last.Boot? && last.version.Some? && last.version.value != "" {
      var all := at + [|records|];
      forall n: nat | n < |records| + 1 && (records + [last])[n].Boot? && (records + [last])[n].version.Some?
                      && (records + [last])[n].version.value != ""
        ensures n in all
      {
        if n < |records| {
          assert (records + [last])[n] == records[n] && n in at;
        } else {
          assert all[|at|] == n;
        }
      }
    }
  }

  /** The `k`-th boot is the first of the versions that were booted most often. */
  predicate MostBooted(boots: seq<string>, version: string, k: nat) {
    && k < |boots| && boots[k] == version
    && (forall j :: 0 <= j < |boots| ==> multiset(boots)[boots[j]] <= multiset(boots)[version])
    && (forall j :: 0 <= j < k ==> multiset(boots)[boots[j]] < multiset(boots)[version])
  }

  ghost predicate CountsFor(suite: Suite, boots: seq<string>, v: string, p: string) {
    && suite.scope == "full" && suite.platform == p
    && if exists major, minor, patch, pre :: IsVersion(suite.target, major, minor, patch, pre) then v == suite.target
       else exists k: nat :: MostBooted(boots, v, k)
  }

  /** Which version and platform a file is for, from its records: those of its first suite, which
      must be a full run; the version is the target if that has the parts of one, and otherwise the
      version booted most often, the first of several. */
  lemma ForExactly(records: seq<Record>, v: string, p: string) returns (at: seq<nat>, boots: seq<string>)
    ensures BootsAt(records, at, boots)
    ensures IsFor(records, v, p)
            <==> v != "" && exists i: nat :: FirstSuiteAt(records, i) && CountsFor(records[i].suite, boots, v, p)
  {
    hide IsVersion, VersionShape, BootsAt, FirstSuite, Boots;
    at := BootsFound(records);
    boots := Boots(records);
    SuiteFound(records);
    if FirstSuite(records).Some? {
      var target := FirstSuite(records).value.target;
      ShapeIsVersion(target);
      ModalIs(boots, v);
      TargetIs(records, v);
    }
  }

  lemma ShapeIsVersion(s: string)
    ensures VersionShape(s) <==> exists major, minor, patch, pre :: IsVersion(s, major, minor, patch, pre)
  {
    hide IsVersion, VersionShape;
    if VersionShape(s) {
      var major, minor, patch, pre := ShapedIsVersion(s);
    }
    if major, minor, patch, pre :| IsVersion(s, major, minor, patch, pre) {
      VersionIsShaped(s, major, minor, patch, pre);
    }
  }

  lemma TargetIs(records: seq<Record>, v: string)
    requires FirstSuite(records).Some?
    ensures var target := FirstSuite(records).value.target;
            TargetVersion(records) == Some(v) <==> if VersionShape(target) then v == target else Modal(Boots(records), v)
  {
    hide VersionShape, Modal, Boots, FirstSuite;
    if !VersionShape(FirstSuite(records).value.target) && Modal(Boots(records), v) {
      var version :| Modal(Boots(records), version) && TargetVersion(records) == Some(version);
      ModalUnique(Boots(records), v, version);
    }
  }

  lemma ModalIs(boots: seq<string>, v: string)
    ensures Modal(boots, v) <==> exists k: nat :: MostBooted(boots, v, k)
  {
    if k: nat :| MostBooted(boots, v, k) {
      assert FirstMost(boots, v, k);
    }
    if k: nat :| FirstMost(boots, v, k) {
      assert MostBooted(boots, v, k);
    }
  }

  /** A file moves an entry exactly when it is for it and not older, and then to its own result;
      so no entry ever goes back in time, or away. */
  lemma FoldMoves(tested: Rollup, records: seq<Record>, v: string, p: string)
    ensures var before, after := Lookup(tested, v, p), Lookup(Fold(tested, records), v, p);
            && (before.Some? ==> after.Some? && AtMost(before.value.date, after.value.date))
            && if IsFor(records, v, p) && (before.None? || AtMost(before.value.date, FirstSuite(records).value.ts)) then
                 var suite := FirstSuite(records).value;
                 after == Some(Entry(suite.runId, suite.ts, suite.conclusion))
               else after == before
  {
    FoldedEntry(tested, records, v, p);
    if Lookup(tested, v, p).Some? {
      AtMostTotal(Lookup(tested, v, p).value.date, Lookup(tested, v, p).value.date);
    }
  }

  method FoldTestedVersions(tested: Rollup, records: seq<Record>) returns (after: Rollup)
    ensures after == Fold(tested, records)
  {
    var suite := FirstSuite(records);
    if suite.None? || suite.value.scope != "full" {
      return tested;
    }
    var version := ResolvedTargetVersion(records);
    if version.None? || version.value == "" {
      return tested;
    }
    ghost var credit := Credit(version.value, suite.value.platform,
                               Entry(suite.value.runId, suite.value.ts, suite.value.conclusion));
    assert CreditOf(records) == Some(credit);
    var platforms: map<string, Entry> := if version.value in tested then tested[version.value] else map[];
    if suite.value.platform !in platforms || AtMost(platforms[suite.value.platform].date, suite.value.ts) {
      platforms := platforms[suite.value.platform := Entry(suite.value.runId, suite.value.ts, suite.value.conclusion)];
    }
    after := tested[version.value := platforms];
    assert after[version.value] == Fold(tested, records)[version.value];
  }

  ghost function FoldAll(tested: Rollup, files: seq<seq<Record>>): Rollup {
    if files == [] then tested else Fold(FoldAll(tested, files[..|files| - 1]), files[|files| - 1])
  }

  /** The rollup is rebuilt from nothing, or the new files are folded into the earlier one. */
  method FoldFiles(tested: Rollup, files: seq<seq<Record>>) returns (after: Rollup)
    ensures after == FoldAll(tested, files)
  {
    after := tested;
    for i := 0 to |files|
      invariant after == FoldAll(tested, files[..i])
    {
      assert files[..i + 1][..i] == files[..i];
      after := FoldTestedVersions(after, files[i]);
    }
    assert files[..|files|] == files;
  }

  /** The results the rollup could hold for a version and platform. */
  ghost predicate Candidate(tested: Rollup, files: seq<seq<Record>>, v: string, p: string, entry: Entry) {
    Lookup(tested, v, p) == Some(entry) || exists f :: f in files && CreditOf(f) == Some(Credit(v, p, entry))
  }

  /** It holds one of the latest of them, if there is any. */
  ghost predicate Latest(tested: Rollup, files: seq<seq<Record>>, v: string, p: string, held: Option<Entry>) {
    if held.None? then forall e :: !Candidate(tested, files, v, p, e)
    else
      && Candidate(tested, files, v, p, held.value)
      && forall e :: Candidate(tested, files, v, p, e) ==> AtMost(e.date, held.value.date)
  }

  lemma {:induction false} FoldHoldsLatest(tested: Rollup, files: seq<seq<Record>>, v: string, p: string)
    ensures Latest(tested, files, v, p, Lookup(FoldAll(tested, files), v, p))
  {
    if files == [] {
      if Lookup(tested, v, p).Some? {
        AtMostTotal(Lookup(tested, v, p).value.date, Lookup(tested, v, p).value.date);
      }
    } else {
      var earlier, last := files[..|files| - 1], files[|files| - 1];
      assert files == earlier + [last];
      FoldHoldsLatest(tested, earlier, v, p);
      FoldedEntry(FoldAll(tested, earlier), last, v, p);
      LatestSnoc(tested, earlier, last, v, p, Lookup(FoldAll(tested, earlier), v, p));
    }
  }

  lemma LatestSnoc(tested: Rollup, files: seq<seq<Record>>, last: seq<Record>, v: string, p: string, held: Option<Entry>)
    requires Latest(tested, files, v, p, held)
    ensures Latest(tested, files + [last], v, p,
                   if CreditOf(last).Some? && CreditOf(last).value.version == v && CreditOf(last).value.platform == p
                   then Some(Newer(held, CreditOf(last).value.entry)) else held)
  {
    var all, credit := files + [last], CreditOf(last);
    forall e
      ensures Candidate(tested, all, v, p, e) <==> Candidate(tested, files, v, p, e) || credit == Some(Credit(v, p, e))
    {
      if f :| f in all && CreditOf(f) == Some(Credit(v, p, e)) {
        assert f in files || f == last;
      }
      if f :| f in files && CreditOf(f) == Some(Credit(v, p, e)) {
        assert f in all;
      }
      assert last in all;
    }
    if credit.Some? && credit.value.version == v && credit.value.platform == p {
      var entry := credit.value.entry;
      AtMostTotal(entry.date, entry.date);
      if held.Some? {
        AtMostTotal(held.value.date, entry.date);
        forall e | Candidate(tested, files, v, p, e)
          ensures AtMost(e.date, Newer(held, entry).date)
        {
          if AtMost(held.value.date, entry.date) {
            AtMostTransitive(e.date, held.value.date, entry.date);
          }
        }
      }
    }
  }

  /** No two different results of one version and platform have the same timestamp. */
  ghost predicate DistinctTimes(tested: Rollup, files: seq<seq<Record>>) {
    forall v, p, a, b :: Candidate(tested, files, v, p, a) && Candidate(tested, files, v, p, b) && a.date == b.date ==> a == b
  }

  /** The same files in any order, each any number of times, onto the same earlier rollup, give
      the same rollup: the latest result of every version and platform. */
  lemma OrderDoesNotMatter(tested: Rollup, a: seq<seq<Record>>, b: seq<seq<Record>>)
    requires Tidy(tested) && DistinctTimes(tested, a)
    requires forall f :: f in a <==> f in b
    ensures FoldAll(tested, a) == FoldAll(tested, b)
  {
    forall v, p
      ensures Lookup(FoldAll(tested, a), v, p) == Lookup(FoldAll(tested, b), v, p)
    {
      SameLookup(tested, a, b, v, p);
    }
    StaysTidy(tested, a);
    StaysTidy(tested, b);
    SameRollup(FoldAll(tested, a), FoldAll(tested, b));
  }

  lemma SameLookup(tested: Rollup, a: seq<seq<Record>>, b: seq<seq<Record>>, v: string, p: string)
    requires DistinctTimes(tested, a) && forall f :: f in a <==> f in b
    ensures Lookup(FoldAll(tested, a), v, p) == Lookup(FoldAll(tested, b), v, p)
  {
    FoldHoldsLatest(tested, a, v, p);
    FoldHoldsLatest(tested, b, v, p);
    assert forall e :: Candidate(tested, a, v, p, e) <==> Candidate(tested, b, v, p, e);
    var x, y := Lookup(FoldAll(tested, a), v, p), Lookup(FoldAll(tested, b), v, p);
    if x.Some? && y.Some? {
      AtMostTotal(x.value.date, y.value.date);
    }
  }

  lemma {:induction false} StaysTidy(tested: Rollup, files: seq<seq<Record>>)
    requires Tidy(tested)
    ensures Tidy(FoldAll(tested, files))
  {
    if files != [] {
      StaysTidy(tested, files[..|files| - 1]);
      var before, credit := FoldAll(tested, files[..|files| - 1]), CreditOf(files[|files| - 1]);
      if credit.Some? {
        var c := credit.value;
        assert c.platform in FoldAll(tested, files)[c.version];
      }
    }
  }

  lemma SameRollup(a: Rollup, b: Rollup)
    requires Tidy(a) && Tidy(b)
    requires forall v, p :: Lookup(a, v, p) == Lookup(b, v, p)
    ensures a == b
  {
    forall v
      ensures v in a ==> v in b && a[v] == b[v]
      ensures v in b ==> v in a
    {
      SameVersion(a, b, v);
      SameVersion(b, a, v);
    }
  }

  lemma SameVersion(a: Rollup, b: Rollup, v: string)
    requires Tidy(a) && Tidy(b)
    requires forall p :: Lookup(a, v, p) == Lookup(b, v, p)
    ensures v in a ==> v in b && a[v] == b[v]
  {
    if v in a {
      var p :| p in a[v];
      assert Lookup(a, v, p).Some?;
      assert Lookup(b, v, p).Some?;
      forall q
        ensures q in a[v] <==> q in b[v]
        ensures q in a[v] ==> a[v][q] == b[v][q]
      {
        assert Lookup(a, v, q) == Lookup(b, v, q);
      }
    }
  }

  /** Folding more files onto the rollup of earlier ones is folding them all at once. */
  lemma {:induction false} OntoEarlier(tested: Rollup, earlier: seq<seq<Record>>, later: seq<seq<Record>>)
    ensures FoldAll(FoldAll(tested, earlier), later) == FoldAll(tested, earlier + later)
  {
    if later == [] {
      assert earlier + later == earlier;
    } else {
      OntoEarlier(tested, earlier, later[..|later| - 1]);
      var all := earlier + later;
      assert all[..|all| - 1] == earlier + later[..|later| - 1];
    }
  }
}
