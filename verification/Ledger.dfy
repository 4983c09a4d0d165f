/**
 * The plan guard and the leg ledger: what became of every planned leg of a run.
 */
module Ledger {
  import opened Prelude
  import opened Names

  datatype PlannedLeg = PlannedLeg(id: string, title: string, target: string, resolved: Option<string>)

  datatype Checkpoint = Checkpoint(status: string, planned: seq<string>, records: seq<CheckpointRecord>, current: Option<string>)

  datatype CheckpointRecord = CheckpointRecord(file: string, ts: string)

  /** The times are in milliseconds, as the dates of the jobs API are read. */
  datatype Job = Job(status: string, conclusion: Option<string>, started: Option<int>, completed: Option<int>, steps: seq<Step>)

  datatype Step = Step(name: string, status: string, started: bool)

  datatype Terminal = Complete | RunnerLost | AttemptedIncomplete | NotStarted

  /** Why a leg got its terminal state. */
  datatype Why =
    | RecordArrived
    | StepLeftRunning(step: string)
    | NeverClosedJobOpen
    | NeverClosedNoJob
    | CloseFailed
    | ClosedWithoutRecord
    | JobEnded(how: string)
    | NothingFound

  datatype Entry = Entry(platform: string, target: string, resolved: Option<string>, terminal: Terminal,
                         lastFile: Option<string>, currentFile: Option<string>,
                         filesReported: Option<nat>, filesPlanned: Option<nat>, lastCheckpoint: Option<string>,
                         stalledStep: Option<string>, jobConclusion: Option<string>, jobElapsed: Option<int>, jobMatched: bool,
                         why: Why)

  /** The identity a leg is reconciled under. */
  function PlannedLegKey(leg: PlannedLeg): string {
    leg.id + "|" + if leg.resolved.Some? then leg.resolved.value else leg.target
  }

  // ---- The plan guard --------------------------------------------------------------------

  datatype Duplicate = Duplicate(platform: string, resolved: string, targets: seq<string>)

  /** The legs of one identity, in dispatch order. */
  function Group(legs: seq<PlannedLeg>, key: string): seq<PlannedLeg> {
    if legs == [] then []
    else
      var last := legs[|legs| - 1];
      Group(legs[..|legs| - 1], key) + if PlannedLegKey(last) == key then [last] else []
  }

  function Targets(legs: seq<PlannedLeg>): seq<string> {
    seq(|legs|, i requires 0 <= i < |legs| => legs[i].target)
  }

  function AsDuplicate(group: seq<PlannedLeg>): Duplicate
    requires group != []
  {
    Duplicate(group[0].id, if group[0].resolved.Some? then group[0].resolved.value else group[0].target, Targets(group))
  }

  function LegKeys(legs: seq<PlannedLeg>): set<string> {
    set leg | leg in legs :: PlannedLegKey(leg)
  }

  predicate DistinctKeys(legs: seq<PlannedLeg>) {
    forall i, j :: 0 <= i < j < |legs| ==> PlannedLegKey(legs[i]) != PlannedLegKey(legs[j])
  }

  /** The duplicates among the keys of a sorted list. */
  function DuplicatesAmong(legs: seq<PlannedLeg>, keys: seq<string>): seq<Duplicate> {
    if keys == [] then []
    else
      var group := Group(legs, keys[|keys| - 1]);
      DuplicatesAmong(legs, keys[..|keys| - 1]) + if |group| < 2 then [] else [AsDuplicate(group)]
  }

  method FindDuplicateLegs(legs: seq<PlannedLeg>) returns (out: seq<Duplicate>)
    ensures out == DuplicatesAmong(legs, Sorted(LegKeys(legs)))
    ensures out == [] <==> DistinctKeys(legs)
  {
    hide Group, AsDuplicate, PlannedLegKey, DistinctKeys, LegKeys;
    var groups := GroupLegs(legs);
    var keys := SortNames(groups.Keys);
    out := [];
    for i := 0 to |keys|
      invariant out == DuplicatesAmong(legs, keys[..i])
    {
      assert keys[..i + 1][..i] == keys[..i];
      assert keys[i] in keys && keys[i] in groups;
      var group := groups[keys[i]];
      if |group| >= 2 {
        out := out + [AsDuplicate(group)];
      }
    }
    assert keys[..|keys|] == keys;
    NoneExactlyWhenDistinct(legs, keys);
  }

  method GroupLegs(legs: seq<PlannedLeg>) returns (groups: map<string, seq<PlannedLeg>>)
    ensures groups.Keys == LegKeys(legs)
    ensures forall key :: key in groups ==> groups[key] == Group(legs, key)
  {
    hide Group;
    groups := map[];
    for i := 0 to |legs|
      invariant groups.Keys == LegKeys(legs[..i])
      invariant forall key :: key in groups ==> groups[key] == Group(legs[..i], key)
    {
      var leg, key := legs[i], PlannedLegKey(legs[i]);
      GroupSnoc(legs[..i], leg);
      assert legs[..i + 1] == legs[..i] + [leg];
      if key !in groups {
        NoGroup(legs[..i], key);
      }
      groups := groups[key := if key in groups then groups[key] + [leg] else [leg]];
    }
    assert legs[..|legs|] == legs;
  }

  lemma GroupSnoc(legs: seq<PlannedLeg>, leg: PlannedLeg)
    ensures LegKeys(legs + [leg]) == LegKeys(legs) + {PlannedLegKey(leg)}
    ensures forall key :: Group(legs + [leg], key) == Group(legs, key) + if PlannedLegKey(leg) == key then [leg] else []
  {
    assert (legs + [leg])[..|legs|] == legs;
    assert leg in legs + [leg];
  }

  lemma {:induction false} NoGroup(legs: seq<PlannedLeg>, key: string)
    requires key !in LegKeys(legs)
    ensures Group(legs, key) == []
  {
    if legs != [] {
      assert legs[|legs| - 1] in legs;
      assert forall leg :: leg in legs[..|legs| - 1] ==> leg in legs;
      NoGroup(legs[..|legs| - 1], key);
    }
  }

  /** A group holds exactly the legs of its identity, in order. */
  lemma {:induction false} GroupSize(legs: seq<PlannedLeg>, key: string)
    ensures |Group(legs, key)| >= 2 <==> exists i, j :: 0 <= i < j < |legs| && PlannedLegKey(legs[i]) == key == PlannedLegKey(legs[j])
    ensures |Group(legs, key)| >= 1 <==> exists i :: 0 <= i < |legs| && PlannedLegKey(legs[i]) == key
  {
    if legs != [] {
      var n := |legs| - 1;
      GroupSize(legs[..n], key);
      assert forall i :: 0 <= i < n ==> legs[..n][i] == legs[i];
      if PlannedLegKey(legs[n]) == key && |Group(legs[..n], key)| >= 1 {
        var i :| 0 <= i < n && PlannedLegKey(legs[..n][i]) == key;
        assert PlannedLegKey(legs[i]) == key == PlannedLegKey(legs[n]);
      }
      if i :| 0 <= i < |legs| && PlannedLegKey(legs[i]) == key {
        assert i == n || PlannedLegKey(legs[..n][i]) == key;
      }
      if i, j :| 0 <= i < j < |legs| && PlannedLegKey(legs[i]) == key == PlannedLegKey(legs[j]) {
        assert PlannedLegKey(legs[..n][i]) == key;
        assert j == n || PlannedLegKey(legs[..n][j]) == key;
      }
    }
  }

  lemma {:induction false} DuplicatesEmpty(legs: seq<PlannedLeg>, keys: seq<string>)
    ensures DuplicatesAmong(legs, keys) == [] <==> forall i :: 0 <= i < |keys| ==> |Group(legs, keys[i])| < 2
  {
    hide Group, AsDuplicate;
    if keys != [] {
      var n := |keys| - 1;
      DuplicatesEmpty(legs, keys[..n]);
      assert forall i :: 0 <= i < n ==> keys[..n][i] == keys[i];
      assert DuplicatesAmong(legs, keys) == [] <==> DuplicatesAmong(legs, keys[..n]) == [] && |Group(legs, keys[n])| < 2;
    }
  }

  lemma NoneExactlyWhenDistinct(legs: seq<PlannedLeg>, keys: seq<string>)
    requires forall k :: k in keys <==> k in LegKeys(legs)
    ensures DuplicatesAmong(legs, keys) == [] <==> DistinctKeys(legs)
  {
    DuplicatesEmpty(legs, keys);
    forall k
      ensures |Group(legs, k)| >= 2
              <==> exists i, j :: 0 <= i < j < |legs| && PlannedLegKey(legs[i]) == k == PlannedLegKey(legs[j])
    {
      GroupSize(legs, k);
    }
    if i, j :| 0 <= i < j < |legs| && PlannedLegKey(legs[i]) == PlannedLegKey(legs[j]) {
      assert legs[i] in legs && PlannedLegKey(legs[i]) in keys;
    }
  }

  /** The identity of a leg, written out. */
  function Identity(leg: PlannedLeg): string {
    match leg.resolved
    case Some(resolved) => leg.id + "|" + resolved
    case None => leg.id + "|" + leg.target
  }

  lemma IdentityIsKey(leg: PlannedLeg)
    ensures Identity(leg) == PlannedLegKey(leg)
  {
  }

  /** The places of all legs of an identity, in dispatch order. */
  predicate PlacesOf(legs: seq<PlannedLeg>, key: string, at: seq<nat>) {
    && (forall i, j :: 0 <= i < j < |at| ==> at[i] < at[j])
    && (forall i :: 0 <= i < |at| ==> at[i] < |legs| && Identity(legs[at[i]]) == key)
    && (forall n :: 0 <= n < |legs| && Identity(legs[n]) == key ==> n in at)
  }

  lemma PlacesSnoc(legs: seq<PlannedLeg>, leg: PlannedLeg, key: string, at: seq<nat>)
    requires PlacesOf(legs, key, at)
    ensures PlacesOf(legs + [leg], key, if Identity(leg) == key then at + [|legs|] else at)
  {
    hide Identity;
    var more := legs + [leg];
    var all := if Identity(leg) == key then at + [|legs|] else at;
    forall n | 0 <= n < |more| && Identity(more[n]) == key
      ensures n in all
    {
      if n < |legs| {
        assert more[n] == legs[n] && n in at;
      } else {
        assert all[|at|] == n;
      }
    }
  }

  predicate Picks(legs: seq<PlannedLeg>, at: seq<nat>, group: seq<PlannedLeg>) {
    |group| == |at| && forall i :: 0 <= i < |at| ==> at[i] < |legs| && group[i] == legs[at[i]]
  }

  lemma PicksSnoc(legs: seq<PlannedLeg>, leg: PlannedLeg, at: seq<nat>, group: seq<PlannedLeg>)
    requires Picks(legs, at, group)
    ensures Picks(legs + [leg], at, group) && Picks(legs + [leg], at + [|legs|], group + [leg])
  {
  }

  /** A group holds exactly the legs of its identity, in order. */
  lemma {:induction false} GroupAt(legs: seq<PlannedLeg>, key: string) returns (at: seq<nat>)
    ensures PlacesOf(legs, key, at) && Picks(legs, at, Group(legs, key))
  {
    hide Identity, PlannedLegKey, Group, Picks, PlacesOf;
    if legs == [] {
      at := NoPlaces(key);
    } else {
      var init, last := legs[..|legs| - 1], legs[|legs| - 1];
      assert init + [last] == legs;
      at := GroupAt(init, key);
      PlacesSnoc(init, last, key, at);
      PicksSnoc(init, last, at, Group(init, key));
      GroupSnoc(init, last);
      IdentityIsKey(last);
      if Identity(last) == key {
        at := at + [|init|];
      } else {
        assert Group(init, key) + [] == Group(init, key);
      }
    }
  }

  lemma NoPlaces(key: string) returns (at: seq<nat>)
    ensures PlacesOf([], key, at) && Picks([], at, Group([], key))
  {
    at := [];
  }

  function KeyOf(duplicate: Duplicate): string {
    duplicate.platform + "|" + duplicate.resolved
  }

  function KeysOf(out: seq<Duplicate>): seq<string> {
    seq(|out|, i requires 0 <= i < |out| => KeyOf(out[i]))
  }

  /** The duplicates stand under the keys whose groups have at least two legs. */
  lemma {:induction false} DuplicatesOfKeys(legs: seq<PlannedLeg>, keys: seq<string>)
    requires Ordered(keys)
    ensures var out := DuplicatesAmong(legs, keys);
            && Ordered(KeysOf(out))
            && (forall key :: key in KeysOf(out) <==> key in keys && |Group(legs, key)| >= 2)
            && (forall i :: 0 <= i < |out| ==> Group(legs, KeyOf(out[i])) != [] && out[i] == AsDuplicate(Group(legs, KeyOf(out[i]))))
  {
    hide Group, AsDuplicate, KeyOf, AtMost;
    if keys != [] {
      var n := |keys| - 1;
      var before := DuplicatesAmong(legs, keys[..n]);
      DuplicatesOfKeys(legs, keys[..n]);
      assert keys == keys[..n] + [keys[n]];
      var group := Group(legs, keys[n]);
      if |group| >= 2 {
        KeyOfGroup(legs, keys[n]);
        assert KeysOf(before + [AsDuplicate(group)]) == KeysOf(before) + [keys[n]];
        OrderedSnoc(keys, KeysOf(before));
      } else {
        assert before + [] == before;
      }
    }
  }

  /** Names from an ordered list without its last, in order, with that last behind them. */
  lemma OrderedSnoc(keys: seq<string>, some: seq<string>)
    requires keys != [] && Ordered(keys) && Ordered(some)
    requires forall key :: key in some ==> key in keys[..|keys| - 1]
    ensures Ordered(some + [keys[|keys| - 1]])
  {
    hide AtMost;
    var last := keys[|keys| - 1];
    forall i | 0 <= i < |some|
      ensures AtMost(some[i], last) && some[i] != last
    {
      assert some[i] in some;
      var k :| 0 <= k < |keys| - 1 && keys[..|keys| - 1][k] == some[i];
      assert keys[k] == some[i];
    }
  }

  lemma KeyOfGroup(legs: seq<PlannedLeg>, key: string)
    requires Group(legs, key) != []
    ensures KeyOf(AsDuplicate(Group(legs, key))) == key
  {
    hide Group;
    var at := GroupAt(legs, key);
  }

  /** What the guard reports: in order of identity, one entry for each identity that several legs
      share, naming the targets of exactly those legs in dispatch order. */
  lemma DuplicatesAre(legs: seq<PlannedLeg>, key: string) returns (at: seq<nat>)
    ensures var out := DuplicatesAmong(legs, Sorted(LegKeys(legs)));
            && PlacesOf(legs, key, at)
            && (forall i, j :: 0 <= i < j < |out| ==> AtMost(KeyOf(out[i]), KeyOf(out[j])) && KeyOf(out[i]) != KeyOf(out[j]))
            && ((exists i :: 0 <= i < |out| && KeyOf(out[i]) == key) <==> |at| >= 2)
            && (forall i :: 0 <= i < |out| && KeyOf(out[i]) == key ==>
                  && out[i].platform == legs[at[0]].id
                  && out[i].resolved == (match legs[at[0]].resolved case Some(resolved) => resolved case None => legs[at[0]].target)
                  && |out[i].targets| == |at|
                  && forall n :: 0 <= n < |at| ==> out[i].targets[n] == legs[at[n]].target)
  {
    hide Group, DuplicatesAmong, KeyOf, AtMost, PlacesOf, Identity, PlannedLegKey;
    var keys := Sorted(LegKeys(legs));
    var out := DuplicatesAmong(legs, keys);
    DuplicatesOfKeys(legs, keys);
    at := GroupAt(legs, key);
    forall i, j | 0 <= i < j < |out|
      ensures AtMost(KeyOf(out[i]), KeyOf(out[j])) && KeyOf(out[i]) != KeyOf(out[j])
    {
      assert AtMost(KeysOf(out)[i], KeysOf(out)[j]) && KeysOf(out)[i] != KeysOf(out)[j];
    }
    SharedIsListed(legs, key, at);
    if |at| >= 2 {
      var i :| 0 <= i < |out| && KeysOf(out)[i] == key;
      assert KeyOf(out[i]) == key;
    }
    forall i | 0 <= i < |out| && KeyOf(out[i]) == key
      ensures |at| >= 2
    {
      assert KeysOf(out)[i] == key;
    }
  }

  lemma SharedIsListed(legs: seq<PlannedLeg>, key: string, at: seq<nat>)
    requires PlacesOf(legs, key, at)
    ensures at != [] ==> key in Sorted(LegKeys(legs))
  {
    hide Identity, PlannedLegKey;
    if at != [] {
      assert legs[at[0]] in legs;
      IdentityIsKey(legs[at[0]]);
    }
  }

  // ---- Classifying a leg -----------------------------------------------------------------

  /** The first step that started and did not complete. */
  function StalledStep(steps: seq<Step>): Option<string> {
    if steps == [] then None
    else if steps[0].status != "completed" && steps[0].started then Some(steps[0].name)
    else StalledStep(steps[1..])
  }

  predicate JobOver(job: Option<Job>) {
    job.Some? && job.value.status == "completed"
  }

  /** The job is over with a step still running. */
  predicate Stalled(job: Option<Job>) {
    JobOver(job) && StalledStep(job.value.steps).Some? && StalledStep(job.value.steps).value != ""
  }

  /** The checkpoint was never closed, and no finished job contradicts it. */
  predicate NeverClosed(checkpoint: Option<Checkpoint>, job: Option<Job>) {
    checkpoint.Some? && checkpoint.value.status == "in_progress" && !JobOver(job)
  }

  /** `Math.round` of the seconds between two times: halves are rounded up. */
  function Seconds(from: int, to: int): int {
    (to - from + 500) / 1000
  }

  method ClassifyLeg(leg: PlannedLeg, completed: set<string>, checkpoints: map<string, Checkpoint>, jobs: map<string, Job>)
    returns (entry: Entry)
    ensures entry == Classified(leg, completed, checkpoints, jobs)
  {
    hide PlannedLegKey, StalledStep, Seconds, Holds;
    var key := PlannedLegKey(leg);
    var cp := if key in checkpoints then Some(checkpoints[key]) else None;
    var job := if key in jobs then Some(jobs[key]) else None;
    entry := Entry(leg.id, leg.target, leg.resolved, NotStarted, None, None, None, None, None, None, None, None, job.Some?,
                   NothingFound);
    if cp.Some? {
      var records := cp.value.records;
      entry := entry.(filesReported := Some(|records|), filesPlanned := Some(|cp.value.planned|));
      if records != [] {
        entry := entry.(lastFile := Some(records[|records| - 1].file), lastCheckpoint := Some(records[|records| - 1].ts));
      }
      entry := entry.(currentFile := cp.value.current);
    }
    if job.Some? {
      entry := entry.(jobConclusion := job.value.conclusion);
      if job.value.started.Some? && job.value.completed.Some? {
        entry := entry.(jobElapsed := Some(Seconds(job.value.started.value, job.value.completed.value)));
      }
      entry := entry.(stalledStep := StalledStep(job.value.steps));
    }
    if key in completed {
      return entry.(terminal := Complete, why := RecordArrived);
    }
    if job.Some? && job.value.status == "completed" && entry.stalledStep.Some? && entry.stalledStep.value != "" {
      return entry.(terminal := RunnerLost, why := StepLeftRunning(entry.stalledStep.value));
    }
    if cp.Some? && cp.value.status == "in_progress" && (job.None? || job.value.status != "completed") {
      return entry.(terminal := RunnerLost, why := if job.Some? then NeverClosedJobOpen else NeverClosedNoJob);
    }
    if cp.Some? {
      return entry.(terminal := AttemptedIncomplete,
                    why := if cp.value.status == "in_progress" then CloseFailed else ClosedWithoutRecord);
    }
    if job.Some? {
      return entry.(terminal := AttemptedIncomplete,
                    why := JobEnded(if job.value.conclusion.Some? then job.value.conclusion.value else job.value.status));
    }
  }

  /** A reason, and the terminal state it belongs to. */
  function TerminalFor(why: Why): Terminal {
    match why
    case RecordArrived => Complete
    case StepLeftRunning(_) => RunnerLost
    case NeverClosedJobOpen => RunnerLost
    case NeverClosedNoJob => RunnerLost
    case NothingFound => NotStarted
    case _ => AttemptedIncomplete
  }

  /** Which reason holds: the record decides, then the job's steps, then the checkpoint, and the
      jobs API wins over a checkpoint that was never closed. */
  predicate Holds(why: Why, key: string, completed: set<string>, cp: Option<Checkpoint>, job: Option<Job>) {
    match why
    case RecordArrived => key in completed
    case StepLeftRunning(step) => key !in completed && Stalled(job) && step == StalledStep(job.value.steps).value
    case NeverClosedJobOpen => key !in completed && !Stalled(job) && NeverClosed(cp, job) && job.Some?
    case NeverClosedNoJob => key !in completed && NeverClosed(cp, job) && job.None?
    case CloseFailed => key !in completed && !Stalled(job) && cp.Some? && cp.value.status == "in_progress" && JobOver(job)
    case ClosedWithoutRecord => key !in completed && !Stalled(job) && cp.Some? && cp.value.status != "in_progress"
    case JobEnded(how) =>
      key !in completed && !Stalled(job) && cp.None? && job.Some?
      && how == (if job.value.conclusion.Some? then job.value.conclusion.value else job.value.status)
    case NothingFound => key !in completed && cp.None? && job.None?
  }

  function WhyOf(key: string, completed: set<string>, cp: Option<Checkpoint>, job: Option<Job>): (why: Why)
    ensures forall w :: Holds(w, key, completed, cp, job) <==> w == why
  {
    if key in completed then RecordArrived
    else if Stalled(job) then StepLeftRunning(StalledStep(job.value.steps).value)
    else if NeverClosed(cp, job) then if job.Some? then NeverClosedJobOpen else NeverClosedNoJob
    else if cp.Some? then if cp.value.status == "in_progress" then CloseFailed else ClosedWithoutRecord
    else if job.Some? then JobEnded(if job.value.conclusion.Some? then job.value.conclusion.value else job.value.status)
    else NothingFound
  }

  function Classified(leg: PlannedLeg, completed: set<string>, checkpoints: map<string, Checkpoint>, jobs: map<string, Job>): Entry {
    var key := PlannedLegKey(leg);
    var cp := if key in checkpoints then Some(checkpoints[key]) else None;
    var job := if key in jobs then Some(jobs[key]) else None;
    var last := if cp.Some? && cp.value.records != [] then Some(cp.value.records[|cp.value.records| - 1]) else None;
    var why := WhyOf(key, completed, cp, job);
    Entry(leg.id, leg.target, leg.resolved, TerminalFor(why),
          if last.Some? then Some(last.value.file) else None,
          if cp.Some? then cp.value.current else None,
          if cp.Some? then Some(|cp.value.records|) else None,
          if cp.Some? then Some(|cp.value.planned|) else None,
          if last.Some? then Some(last.value.ts) else None,
          if job.Some? then StalledStep(job.value.steps) else None,
          if job.Some? then job.value.conclusion else None,
          if job.Some? && job.value.started.Some? && job.value.completed.Some? then
            Some(Seconds(job.value.started.value, job.value.completed.value)) else None,
          job.Some?, why)
  }

  // ---- What an entry says ----------------------------------------------------------------

  /** Step `i` is the first that started and is not completed. */
  predicate FirstLeftRunning(steps: seq<Step>, i: nat) {
    && i < |steps| && steps[i].started && steps[i].status != "completed"
    && forall j :: 0 <= j < i ==> steps[j].status == "completed" || !steps[j].started
  }

  lemma {:induction false} StalledIsFirst(steps: seq<Step>)
    ensures StalledStep(steps) == None <==> forall i :: 0 <= i < |steps| ==> steps[i].status == "completed" || !steps[i].started
    ensures forall i: nat :: FirstLeftRunning(steps, i) ==> StalledStep(steps) == Some(steps[i].name)
  {
    if steps != [] {
      StalledIsFirst(steps[1..]);
      assert forall i :: 1 <= i < |steps| ==> steps[i] == steps[1..][i - 1];
      forall i: nat | FirstLeftRunning(steps, i)
        ensures StalledStep(steps) == Some(steps[i].name)
      {
        if i > 0 {
          var j: nat := i - 1;
          assert steps[1..][j] == steps[i];
          assert FirstLeftRunning(steps[1..], j);
        }
      }
    }
  }

  /** What an entry says of the leg and of its checkpoint: the last file reported and its time, the
      file it was in, and how many were reported and planned. */
  lemma CheckpointReported(leg: PlannedLeg, completed: set<string>, checkpoints: map<string, Checkpoint>, jobs: map<string, Job>)
    ensures var entry, key := Classified(leg, completed, checkpoints, jobs), Identity(leg);
            && entry.platform == leg.id && entry.target == leg.target && entry.resolved == leg.resolved
            && (key !in checkpoints ==>
                  && entry.lastFile == None && entry.lastCheckpoint == None && entry.currentFile == None
                  && entry.filesReported == None && entry.filesPlanned == None)
            && (key in checkpoints ==>
                  var cp := checkpoints[key];
                  && entry.filesReported == Some(|cp.records|) && entry.filesPlanned == Some(|cp.planned|)
                  && entry.currentFile == cp.current
                  && (cp.records == [] ==> entry.lastFile == None && entry.lastCheckpoint == None)
                  && (cp.records != [] ==>
                        var last := cp.records[|cp.records| - 1];
                        entry.lastFile == Some(last.file) && entry.lastCheckpoint == Some(last.ts)))
  {
    hide WhyOf, StalledStep, Seconds;
    assert Identity(leg) == PlannedLegKey(leg);
  }

  /** What an entry says of its job: the conclusion, the whole seconds nearest to its length, and
      the first step it left running. */
  lemma JobReported(leg: PlannedLeg, completed: set<string>, checkpoints: map<string, Checkpoint>, jobs: map<string, Job>)
    ensures var entry, key := Classified(leg, completed, checkpoints, jobs), Identity(leg);
            && (entry.jobMatched <==> key in jobs)
            && (key !in jobs ==> entry.jobConclusion == None && entry.jobElapsed == None && entry.stalledStep == None)
            && (key in jobs ==>
                  var job := jobs[key];
                  && entry.jobConclusion == job.conclusion
                  && (entry.jobElapsed.Some? <==> job.started.Some? && job.completed.Some?)
                  && (entry.jobElapsed.Some? ==>
                        -500 <= job.completed.value - job.started.value - 1000 * entry.jobElapsed.value < 500)
                  && (entry.stalledStep == None
                      <==> forall i :: 0 <= i < |job.steps| ==> job.steps[i].status == "completed" || !job.steps[i].started)
                  && forall i: nat :: FirstLeftRunning(job.steps, i) ==> entry.stalledStep == Some(job.steps[i].name))
  {
    hide WhyOf, StalledStep, FirstLeftRunning;
    assert Identity(leg) == PlannedLegKey(leg);
    if Identity(leg) in jobs {
      StalledIsFirst(jobs[Identity(leg)].steps);
    }
  }

  /** The terminal state and the reason, from the record, the checkpoint and the job: a record
      makes a leg complete; a finished job with a step left running, or an open checkpoint that no
      finished job contradicts, means that the runner was lost; with no trace of it at all the leg
      never started; and everything else was attempted and is incomplete. */
  lemma TerminalMeans(leg: PlannedLeg, completed: set<string>, checkpoints: map<string, Checkpoint>, jobs: map<string, Job>)
    ensures var entry, key := Classified(leg, completed, checkpoints, jobs), Identity(leg);
            var over := key in jobs && jobs[key].status == "completed";
            var left := over && entry.stalledStep.Some? && entry.stalledStep.value != "";
            var open := key in checkpoints && checkpoints[key].status == "in_progress";
            var missing := key !in completed;
            && (entry.terminal == Complete <==> !missing)
            && (entry.terminal == RunnerLost <==> missing && (left || (open && !over)))
            && (entry.terminal == NotStarted <==> missing && key !in checkpoints && key !in jobs)
            && (entry.why == RecordArrived <==> entry.terminal == Complete)
            && (entry.why.StepLeftRunning? <==> missing && left)
            && (entry.why.StepLeftRunning? ==> Some(entry.why.step) == entry.stalledStep)
            && (entry.why == NeverClosedJobOpen <==> missing && open && !over && key in jobs)
            && (entry.why == NeverClosedNoJob <==> missing && open && key !in jobs)
            && (entry.why == CloseFailed <==> missing && open && over && !left)
            && (entry.why == ClosedWithoutRecord <==> missing && key in checkpoints && !open && !left)
            && (entry.why.JobEnded? <==> missing && key !in checkpoints && key in jobs && !left)
            && (entry.why.JobEnded? ==>
                  entry.why.how == match jobs[key].conclusion case Some(conclusion) => conclusion case None => jobs[key].status)
            && (entry.why == NothingFound <==> entry.terminal == NotStarted)
  {
    hide StalledStep, Seconds;
    assert Identity(leg) == PlannedLegKey(leg);
  }

  // ---- The ledger of a run ---------------------------------------------------------------

  datatype RunLedger = RunLedger(planned: nat, complete: nat, incomplete: map<string, Entry>)

  method BuildRunLedger(planned: seq<PlannedLeg>, completed: set<string>, checkpoints: map<string, Checkpoint>,
                        jobs: map<string, Job>)
    returns (ledger: RunLedger)
    ensures ledger == LedgerOf(planned, completed, checkpoints, jobs)
  {
    var complete := 0;
    var incomplete: map<string, Entry> := map[];
    for i := 0 to |planned|
      invariant RunLedger(i, complete, incomplete) == LedgerOf(planned[..i], completed, checkpoints, jobs)
    {
      assert planned[..i + 1][..i] == planned[..i];
      var entry := ClassifyLeg(planned[i], completed, checkpoints, jobs);
      if entry.terminal == Complete {
        complete := complete + 1;
      } else {
        incomplete := incomplete[PlannedLegKey(planned[i]) := entry];
      }
    }
    assert planned[..|planned|] == planned;
    return RunLedger(|planned|, complete, incomplete);
  }

  function LedgerOf(planned: seq<PlannedLeg>, completed: set<string>, checkpoints: map<string, Checkpoint>,
                    jobs: map<string, Job>): RunLedger
  {
    if planned == [] then RunLedger(0, 0, map[])
    else
      var before, leg := LedgerOf(planned[..|planned| - 1], completed, checkpoints, jobs), planned[|planned| - 1];
      var entry := Classified(leg, completed, checkpoints, jobs);
      if entry.terminal == Complete then RunLedger(before.planned + 1, before.complete + 1, before.incomplete)
      else RunLedger(before.planned + 1, before.complete, before.incomplete[PlannedLegKey(leg) := entry])
  }

  /** The legs without a metrics record. */
  function Missing(planned: seq<PlannedLeg>, completed: set<string>): (missing: seq<PlannedLeg>)
    ensures forall leg :: leg in missing <==> leg in planned && PlannedLegKey(leg) !in completed
  {
    if planned == [] then []
    else
      var last := planned[|planned| - 1];
      assert planned == planned[..|planned| - 1] + [last];
      Missing(planned[..|planned| - 1], completed) + if PlannedLegKey(last) in completed then [] else [last]
  }

  lemma {:induction false} LedgerLists(planned: seq<PlannedLeg>, completed: set<string>,
                                       checkpoints: map<string, Checkpoint>, jobs: map<string, Job>)
    ensures var ledger := LedgerOf(planned, completed, checkpoints, jobs);
            && ledger.planned == |planned|
            && ledger.complete == |planned| - |Missing(planned, completed)|
            && ledger.incomplete.Keys == LegKeys(Missing(planned, completed))
  {
    hide PlannedLegKey, Classified;
    if planned != [] {
      var leg := planned[|planned| - 1];
      LedgerLists(planned[..|planned| - 1], completed, checkpoints, jobs);
      CompleteExactlyWithRecord(leg, completed, checkpoints, jobs);
      if PlannedLegKey(leg) !in completed {
        GroupSnoc(Missing(planned[..|planned| - 1], completed), leg);
      }
    }
  }

  /** A leg is complete exactly when its key has a metrics record, whatever the instruments say. */
  lemma CompleteExactlyWithRecord(leg: PlannedLeg, completed: set<string>, checkpoints: map<string, Checkpoint>,
                                  jobs: map<string, Job>)
    ensures Classified(leg, completed, checkpoints, jobs).terminal == Complete <==> PlannedLegKey(leg) in completed
  {
  }

  /** There are as many keys as legs exactly when the keys are distinct. */
  lemma {:induction false} KeyCount(legs: seq<PlannedLeg>)
    ensures |LegKeys(legs)| <= |legs|
    ensures |LegKeys(legs)| == |legs| <==> DistinctKeys(legs)
  {
    if legs != [] {
      var earlier, leg := legs[..|legs| - 1], legs[|legs| - 1];
      assert legs == earlier + [leg];
      KeyCount(earlier);
      GroupSnoc(earlier, leg);
      DistinctSnoc(earlier, leg);
    }
  }

  /** A leg is listed exactly when its key has no metrics record, whatever the checkpoints and
      jobs say; the counts balance exactly when no two legs without a record share a key. */
  lemma LedgerAccounts(planned: seq<PlannedLeg>, completed: set<string>,
                       checkpoints: map<string, Checkpoint>, jobs: map<string, Job>)
    ensures var ledger := LedgerOf(planned, completed, checkpoints, jobs);
            && ledger.planned == |planned|
            && ledger.complete == |planned| - |Missing(planned, completed)|
            && ledger.incomplete.Keys == LegKeys(planned) - completed
            && ledger.complete + |ledger.incomplete| <= ledger.planned
            && (ledger.complete + |ledger.incomplete| == ledger.planned <==> DistinctKeys(Missing(planned, completed)))
  {
    LedgerLists(planned, completed, checkpoints, jobs);
    KeyCount(Missing(planned, completed));
    MissingKeys(planned, completed);
    var ledger := LedgerOf(planned, completed, checkpoints, jobs);
    assert |ledger.incomplete| == |ledger.incomplete.Keys|;
  }

  /** Under a key stands the entry of the last leg with that key. */
  lemma {:induction false} LastLegIsListed(planned: seq<PlannedLeg>, completed: set<string>,
                                           checkpoints: map<string, Checkpoint>, jobs: map<string, Job>, i: nat)
    requires i < |planned| && Identity(planned[i]) !in completed
    requires forall j :: i < j < |planned| ==> Identity(planned[j]) != Identity(planned[i])
    ensures var listed, key := LedgerOf(planned, completed, checkpoints, jobs).incomplete, Identity(planned[i]);
            key in listed && listed[key] == Classified(planned[i], completed, checkpoints, jobs)
    decreases |planned|
  {
    hide Identity, PlannedLegKey, Classified;
    var n := |planned| - 1;
    CompleteExactlyWithRecord(planned[n], completed, checkpoints, jobs);
    IdentityIsKey(planned[n]);
    if i < n {
      assert forall j :: 0 <= j < n ==> planned[..n][j] == planned[j];
      LastLegIsListed(planned[..n], completed, checkpoints, jobs, i);
    }
  }

  /** Two legs of one identity and no record: planned 2, complete 0, and one entry. */
  lemma SharedIdentityUnbalances(leg: PlannedLeg, other: PlannedLeg)
    requires PlannedLegKey(leg) == PlannedLegKey(other)
    ensures var ledger := LedgerOf([leg, other], {}, map[], map[]);
            ledger.planned == 2 && ledger.complete == 0 && ledger.incomplete.Keys == {PlannedLegKey(leg)}
  {
    hide PlannedLegKey, Classified, LedgerOf, Missing, DistinctKeys;
    var legs := [leg, other];
    LedgerAccounts(legs, {}, map[], map[]);
    NoneMissing(legs, {});
    assert legs[0] in legs;
    assert LegKeys(legs) - {} == {PlannedLegKey(leg)};
  }

  lemma {:induction false} NoneMissing(planned: seq<PlannedLeg>, completed: set<string>)
    requires forall leg :: leg in planned ==> PlannedLegKey(leg) !in completed
    ensures Missing(planned, completed) == planned
  {
    hide PlannedLegKey;
    if planned != [] {
      var rest, last := planned[..|planned| - 1], planned[|planned| - 1];
      assert planned == rest + [last];
      assert last in planned;
      NoneMissing(rest, completed);
    }
  }

  /** As in a dispatch of `stable` and `7.25` when stable is 7.25. */
  lemma StableTwice()
    ensures var stable := PlannedLeg("linux", "stable", "stable", Some("7.25"));
            var pinned := PlannedLeg("linux", "7.25", "7.25", None);
            LedgerOf([stable, pinned], {}, map[], map[]).incomplete.Keys == {"linux|7.25"}
  {
    hide LedgerOf;
    var stable := PlannedLeg("linux", "stable", "stable", Some("7.25"));
    var pinned := PlannedLeg("linux", "7.25", "7.25", None);
    assert "linux" + "|" + "7.25" == "linux|7.25";
    SharedIdentityUnbalances(stable, pinned);
  }

  lemma MissingKeys(planned: seq<PlannedLeg>, completed: set<string>)
    ensures LegKeys(Missing(planned, completed)) == LegKeys(planned) - completed
  {
  }

  lemma DistinctSnoc(legs: seq<PlannedLeg>, last: PlannedLeg)
    ensures DistinctKeys(legs + [last]) <==> DistinctKeys(legs) && PlannedLegKey(last) !in LegKeys(legs)
  {
    var all := legs + [last];
    if DistinctKeys(all) {
      forall i, j | 0 <= i < j < |legs|
        ensures PlannedLegKey(legs[i]) != PlannedLegKey(legs[j])
      {
        assert all[i] == legs[i] && all[j] == legs[j];
      }
      forall leg | leg in legs
        ensures PlannedLegKey(leg) != PlannedLegKey(last)
      {
        var i :| 0 <= i < |legs| && legs[i] == leg;
        assert all[i] == leg && all[|legs|] == last;
      }
    }
  }

  /** A plan the guard lets through: every leg is accounted for exactly once, by its own entry. */
  lemma PlanIsConserved(planned: seq<PlannedLeg>, completed: set<string>, checkpoints: map<string, Checkpoint>,
                        jobs: map<string, Job>)
    requires DuplicatesAmong(planned, Sorted(LegKeys(planned))) == []
    ensures var ledger := LedgerOf(planned, completed, checkpoints, jobs);
            && ledger.planned == |planned| == ledger.complete + |ledger.incomplete|
            && forall leg :: leg in planned ==>
                 if PlannedLegKey(leg) in completed then PlannedLegKey(leg) !in ledger.incomplete
                 else PlannedLegKey(leg) in ledger.incomplete
                      && ledger.incomplete[PlannedLegKey(leg)] == Classified(leg, completed, checkpoints, jobs)
  {
    NoneExactlyWhenDistinct(planned, Sorted(LegKeys(planned)));
    LedgerAccounts(planned, completed, checkpoints, jobs);
    DistinctMissing(planned, completed);
    forall i | 0 <= i < |planned| && PlannedLegKey(planned[i]) !in completed
      ensures PlannedLegKey(planned[i]) in LedgerOf(planned, completed, checkpoints, jobs).incomplete
      ensures LedgerOf(planned, completed, checkpoints, jobs).incomplete[PlannedLegKey(planned[i])]
              == Classified(planned[i], completed, checkpoints, jobs)
    {
      OwnEntry(planned, completed, checkpoints, jobs, i);
    }
  }

  lemma {:induction false} DistinctMissing(planned: seq<PlannedLeg>, completed: set<string>)
    requires DistinctKeys(planned)
    ensures DistinctKeys(Missing(planned, completed))
  {
    if planned != [] {
      var earlier, leg := planned[..|planned| - 1], planned[|planned| - 1];
      assert planned == earlier + [leg];
      DistinctSnoc(earlier, leg);
      DistinctMissing(earlier, completed);
      MissingKeys(earlier, completed);
      DistinctSnoc(Missing(earlier, completed), leg);
    }
  }

  lemma {:induction false} OwnEntry(planned: seq<PlannedLeg>, completed: set<string>, checkpoints: map<string, Checkpoint>,
                                    jobs: map<string, Job>, i: nat)
    requires DistinctKeys(planned) && i < |planned| && PlannedLegKey(planned[i]) !in completed
    ensures var ledger := LedgerOf(planned, completed, checkpoints, jobs);
            && PlannedLegKey(planned[i]) in ledger.incomplete
            && ledger.incomplete[PlannedLegKey(planned[i])] == Classified(planned[i], completed, checkpoints, jobs)
  {
    var n := |planned| - 1;
    if i < n {
      assert planned[..n][i] == planned[i];
      OwnEntry(planned[..n], completed, checkpoints, jobs, i);
    }
  }

  // ---- Folding ledgers of runs -----------------------------------------------------------

  function FoldLedgerInto(existing: map<string, RunLedger>, runId: string, ledger: RunLedger): map<string, RunLedger> {
    existing[runId := ledger]
  }

  /** The ledgers of runs that land one after the other. */
  function FoldLedgers(existing: map<string, RunLedger>, runs: seq<(string, RunLedger)>): map<string, RunLedger> {
    if runs == [] then existing
    else
      var last := runs[|runs| - 1];
      FoldLedgerInto(FoldLedgers(existing, runs[..|runs| - 1]), last.0, last.1)
  }

  predicate DistinctRuns(runs: seq<(string, RunLedger)>) {
    forall i, j :: 0 <= i < j < |runs| ==> runs[i].0 != runs[j].0
  }

  predicate Lands(runs: seq<(string, RunLedger)>, runId: string) {
    exists r :: r in runs && r.0 == runId
  }

  /** Every run that landed has its own verdict, and every other run's is as it was. */
  lemma {:induction false} EveryRunLands(existing: map<string, RunLedger>, runs: seq<(string, RunLedger)>)
    requires DistinctRuns(runs)
    ensures var after := FoldLedgers(existing, runs);
            && (forall r :: r in runs ==> r.0 in after && after[r.0] == r.1)
            && (forall runId :: !Lands(runs, runId) ==>
                  (runId in after <==> runId in existing) && (runId in existing ==> after[runId] == existing[runId]))
  {
    if runs != [] {
      var earlier, last := runs[..|runs| - 1], runs[|runs| - 1];
      EveryRunLands(existing, earlier);
      assert runs == earlier + [last];
      forall runId | !Lands(runs, runId)
        ensures runId != last.0 && !Lands(earlier, runId)
      {
        assert last in runs;
        assert forall r :: r in earlier ==> r in runs;
      }
    }
  }

  /** A fold lost to another run and done again on top of it: in whatever order runs land,
      the file is the same. */
  lemma LandingOrderDoesNotMatter(existing: map<string, RunLedger>, a: seq<(string, RunLedger)>, b: seq<(string, RunLedger)>)
    requires DistinctRuns(a) && DistinctRuns(b) && forall r :: r in a <==> r in b
    ensures FoldLedgers(existing, a) == FoldLedgers(existing, b)
  {
    EveryRunLands(existing, a);
    EveryRunLands(existing, b);
    var x, y := FoldLedgers(existing, a), FoldLedgers(existing, b);
    forall runId
      ensures runId in x <==> runId in y
      ensures runId in x ==> x[runId] == y[runId]
    {
      if Lands(a, runId) {
        var r :| r in a && r.0 == runId;
        assert r in b;
      } else {
        assert !Lands(b, runId);
      }
    }
  }
}
