/**
 * Flag suggestions: the rolling-row edit distance is the Levenshtein distance, which is the
 * least number of single-character edits and a metric, and the suggestion is the first
 * nearest known flag when that one is near enough.
 */
module EditDistance {
  import opened Prelude

  function Min(x: nat, y: nat): nat {
    if x <= y then x else y
  }

  function Cost(x: char, y: char): nat {
    if x == y then 0 else 1
  }

  /** The Levenshtein recurrence on the last characters. */
  function Distance(a: string, b: string): nat
    decreases |a| + |b|
  {
    if a == [] then |b|
    else if b == [] then |a|
    else
      var a', b' := a[..|a| - 1], b[..|b| - 1];
      Min(Min(Distance(a', b) + 1, Distance(a, b') + 1), Distance(a', b') + Cost(a[|a| - 1], b[|b| - 1]))
  }

  // ---- The rolling row -------------------------------------------------------------------

  lemma DistanceStep(a: string, b: string)
    requires a != [] && b != []
    ensures var a', b' := a[..|a| - 1], b[..|b| - 1];
            Distance(a, b)
            == Min(Min(Distance(a', b) + 1, Distance(a, b') + 1), Distance(a', b') + Cost(a[|a| - 1], b[|b| - 1]))
  {
  }

  lemma DistanceEdge(a: string, b: string)
    ensures a == [] ==> Distance(a, b) == |b|
    ensures b == [] ==> Distance(a, b) == |a|
  {
  }

  /** The distance of two prefixes, from those of the prefixes one character shorter. */
  lemma Cell(a: string, b: string, i: nat, j: nat)
    requires 0 < i <= |a| && 0 < j <= |b|
    ensures Distance(a[..i], b[..j])
            == Min(Min(Distance(a[..i - 1], b[..j]) + 1, Distance(a[..i], b[..j - 1]) + 1),
                   Distance(a[..i - 1], b[..j - 1]) + Cost(a[i - 1], b[j - 1]))
  {
    hide Distance, Min, Cost;
    DistanceStep(a[..i], b[..j]);
    assert a[..i][..i - 1] == a[..i - 1];
    assert b[..j][..j - 1] == b[..j - 1];
  }

  /** Row `i`, up to column `n`: the distances of the first `i` characters to prefixes of `b`. */
  ghost predicate IsRow(row: array<nat>, a: string, i: nat, b: string, n: nat)
    requires i <= |a| && n <= |b| + 1 && n <= row.Length
    reads row
  {
    forall j :: 0 <= j < n ==> row[j] == Distance(a[..i], b[..j])
  }

  method ComputeDistance(a: string, b: string) returns (d: nat)
    ensures d == Distance(a, b)
  {
    hide Distance, Cost, Min;
    var previous := new nat[|b| + 1](j => j);
    forall j | 0 <= j <= |b|
      ensures Distance(a[..0], b[..j]) == j
    {
      DistanceEdge(a[..0], b[..j]);
    }
    for i := 1 to |a| + 1
      invariant previous.Length == |b| + 1 && IsRow(previous, a, i - 1, b, |b| + 1)
    {
      var current := new nat[|b| + 1](j => if j == 0 then i else 0);
      DistanceEdge(a[..i], b[..0]);
      for j := 1 to |b| + 1
        invariant IsRow(previous, a, i - 1, b, |b| + 1)
        invariant IsRow(current, a, i, b, j)
      {
        Cell(a, b, i, j);
        current[j] := Min(Min(previous[j] + 1, current[j - 1] + 1), previous[j - 1] + Cost(a[i - 1], b[j - 1]));
      }
      previous := current;
    }
    assert a[..|a|] == a && b[..|b|] == b;
    d := previous[|b|];
  }

  // ---- A metric --------------------------------------------------------------------------

  lemma {:induction false} LengthBounds(a: string, b: string)
    ensures Distance(a, b) <= |a| + |b|
    ensures |b| <= |a| + Distance(a, b) && |a| <= |b| + Distance(a, b)
    decreases |a| + |b|
  {
    if a != [] && b != [] {
      LengthBounds(a[..|a| - 1], b);
      LengthBounds(a, b[..|b| - 1]);
      LengthBounds(a[..|a| - 1], b[..|b| - 1]);
    }
  }

  lemma {:induction false} Symmetric(a: string, b: string)
    ensures Distance(a, b) == Distance(b, a)
    decreases |a| + |b|
  {
    if a != [] && b != [] {
      Symmetric(a[..|a| - 1], b);
      Symmetric(a, b[..|b| - 1]);
      Symmetric(a[..|a| - 1], b[..|b| - 1]);
    }
  }

  lemma {:induction false} ZeroIffEqual(a: string, b: string)
    ensures Distance(a, b) == 0 <==> a == b
    decreases |a| + |b|
  {
    if a != [] && b != [] {
      var a', b' := a[..|a| - 1], b[..|b| - 1];
      ZeroIffEqual(a', b');
      assert a == a' + [a[|a| - 1]] && b == b' + [b[|b| - 1]];
    }
  }

  lemma {:induction false} Triangle(a: string, b: string, c: string)
    ensures Distance(a, c) <= Distance(a, b) + Distance(b, c)
    decreases |a| + |b| + |c|
  {
    if a == [] || b == [] || c == [] {
      LengthBounds(a, c);
      LengthBounds(a, b);
      LengthBounds(b, c);
    } else {
      var a', b', c' := a[..|a| - 1], b[..|b| - 1], c[..|c| - 1];
      Triangle(a', b, c);
      Triangle(a, b, c');
      Triangle(a, b', c);
      Triangle(a, b', c');
      Triangle(a', b', c);
      Triangle(a', b', c');
    }
  }

  // ---- The least number of edits ---------------------------------------------------------

  /** One insertion, deletion or substitution turns `x` into `y`. */
  ghost predicate OneEdit(x: string, y: string) {
    exists p: string, u: string, v: string, q: string :: Edit(x, y, p, u, v, q)
  }

  predicate Edit(x: string, y: string, p: string, u: string, v: string, q: string) {
    |u| <= 1 && |v| <= 1 && x == p + u + q && y == p + v + q
  }

  /** A list of strings, each one edit from the next. */
  ghost predicate Edits(ss: seq<string>) {
    forall i :: 0 <= i < |ss| - 1 ==> OneEdit(ss[i], ss[i + 1])
  }

  lemma {:induction false} CommonSuffix(x: string, y: string, q: string)
    ensures Distance(x + q, y + q) <= Distance(x, y)
    decreases |q|
  {
    if q == [] {
      assert x + q == x && y + q == y;
    } else {
      var q' := q[..|q| - 1];
      CommonSuffix(x, y, q');
      assert (x + q)[..|x + q| - 1] == x + q' && (y + q)[..|y + q| - 1] == y + q';
    }
  }

  lemma OneEditIsOne(x: string, y: string)
    requires OneEdit(x, y)
    ensures Distance(x, y) <= 1
  {
    var p, u, v, q :| Edit(x, y, p, u, v, q);
    ZeroIffEqual(p, p);
    assert (p + u)[..|p|] == p && (p + v)[..|p|] == p;
    assert Distance(p + u, p + v) <= 1 by {
      if u == [] {
        assert p + u == p;
      }
      if v == [] {
        assert p + v == p;
      }
      if p == [] {
        assert p + u == u && p + v == v;
      }
    }
    CommonSuffix(p + u, p + v, q);
  }

  /** No list of edits is shorter than the distance between its ends. */
  lemma {:induction false} NoShorter(ss: seq<string>)
    requires ss != [] && Edits(ss)
    ensures Distance(ss[0], ss[|ss| - 1]) <= |ss| - 1
  {
    if |ss| == 1 {
      ZeroIffEqual(ss[0], ss[0]);
    } else {
      var rest := ss[1..];
      forall i | 0 <= i < |rest| - 1
        ensures OneEdit(rest[i], rest[i + 1])
      {
        assert OneEdit(ss[i + 1], ss[i + 2]);
      }
      NoShorter(rest);
      OneEditIsOne(ss[0], ss[1]);
      Triangle(ss[0], ss[1], ss[|ss| - 1]);
    }
  }

  /** Appending a character to every string of a list of edits leaves a list of edits. */
  lemma Appended(ss: seq<string>, x: char) returns (tt: seq<string>)
    requires Edits(ss)
    ensures |tt| == |ss| && Edits(tt) && forall i :: 0 <= i < |ss| ==> tt[i] == ss[i] + [x]
  {
    tt := seq(|ss|, i requires 0 <= i < |ss| => ss[i] + [x]);
    forall i | 0 <= i < |tt| - 1
      ensures OneEdit(tt[i], tt[i + 1])
    {
      var p, u, v, q :| Edit(ss[i], ss[i + 1], p, u, v, q);
      assert Edit(tt[i], tt[i + 1], p, u, v, q + [x]);
    }
  }

  lemma OneMore(ss: seq<string>, y: string)
    requires ss != [] && Edits(ss) && OneEdit(ss[|ss| - 1], y)
    ensures Edits(ss + [y])
  {
    forall i | 0 <= i < |ss + [y]| - 1
      ensures OneEdit((ss + [y])[i], (ss + [y])[i + 1])
    {
      if i < |ss| - 1 {
        assert OneEdit(ss[i], ss[i + 1]);
      }
    }
  }

  lemma OneLess(ss: seq<string>, x: string)
    requires ss != [] && Edits(ss) && OneEdit(x, ss[0])
    ensures Edits([x] + ss)
  {
    forall i | 0 <= i < |[x] + ss| - 1
      ensures OneEdit(([x] + ss)[i], ([x] + ss)[i + 1])
    {
      if i > 0 {
        assert OneEdit(ss[i - 1], ss[i]);
      }
    }
  }

  /** A list of edits from `a` to `b` with as many edits as their distance. */
  ghost predicate Exact(ss: seq<string>, a: string, b: string) {
    ss != [] && Edits(ss) && ss[0] == a && ss[|ss| - 1] == b && |ss| == Distance(a, b) + 1
  }

  lemma ThenInsert(ss: seq<string>, a: string, b: string)
    requires b != [] && Exact(ss, a, b[..|b| - 1]) && Distance(a, b) == Distance(a, b[..|b| - 1]) + 1
    ensures Exact(ss + [b], a, b)
  {
    assert Edit(b[..|b| - 1], b, b[..|b| - 1], [], [b[|b| - 1]], []);
    OneMore(ss, b);
  }

  lemma DeleteFirst(ss: seq<string>, a: string, b: string)
    requires a != [] && Exact(ss, a[..|a| - 1], b) && Distance(a, b) == Distance(a[..|a| - 1], b) + 1
    ensures Exact([a] + ss, a, b)
  {
    assert Edit(a, a[..|a| - 1], a[..|a| - 1], [a[|a| - 1]], [], []);
    OneLess(ss, a);
  }

  lemma SubstituteFirst(inner: seq<string>, a: string, b: string) returns (ss: seq<string>)
    requires a != [] && b != [] && Exact(inner, a[..|a| - 1], b[..|b| - 1])
    requires Distance(a, b) == Distance(a[..|a| - 1], b[..|b| - 1]) + Cost(a[|a| - 1], b[|b| - 1])
    ensures Exact(ss, a, b)
  {
    var x, y := a[|a| - 1], b[|b| - 1];
    ss := Appended(inner, y);
    assert a == a[..|a| - 1] + [x] && b == b[..|b| - 1] + [y];
    if x != y {
      assert Edit(a, ss[0], a[..|a| - 1], [x], [y], []);
      OneLess(ss, a);
      ss := [a] + ss;
    }
  }

  /** And some list of edits is exactly as long. */
  lemma {:induction false} SomeExactly(a: string, b: string) returns (ss: seq<string>)
    ensures Exact(ss, a, b)
    decreases |a| + |b|
  {
    if a == [] && b == [] {
      ss := [a];
    } else if b != [] && Distance(a, b) == Distance(a, b[..|b| - 1]) + 1 {
      var inner := SomeExactly(a, b[..|b| - 1]);
      ThenInsert(inner, a, b);
      ss := inner + [b];
    } else if a != [] && Distance(a, b) == Distance(a[..|a| - 1], b) + 1 {
      var inner := SomeExactly(a[..|a| - 1], b);
      DeleteFirst(inner, a, b);
      ss := [a] + inner;
    } else {
      var inner := SomeExactly(a[..|a| - 1], b[..|b| - 1]);
      ss := SubstituteFirst(inner, a, b);
    }
  }

  // ---- The suggestion --------------------------------------------------------------------

  /** How far a suggestion may be: a third of the name's length, and at least one edit. */
  function Tolerance(name: string): nat {
    if |name| / 3 < 1 then 1 else |name| / 3
  }

  /** `known[k]` is nearest to `name`, and everything before it is farther. */
  ghost predicate FirstNearest(name: string, known: seq<string>, k: nat) {
    && k < |known|
    && (forall j :: 0 <= j < |known| ==> Distance(name, known[k]) <= Distance(name, known[j]))
    && (forall j :: 0 <= j < k ==> Distance(name, known[k]) < Distance(name, known[j]))
  }

  method SuggestFlag(name: string, known: seq<string>) returns (best: Option<string>)
    ensures best.Some?
            <==> exists j :: 0 <= j < |known| && Distance(name, known[j]) <= if |name| < 6 then 1 else |name| / 3
    ensures best.Some? ==> exists k: nat :: FirstNearest(name, known, k) && best.value == known[k]
  {
    best := None;
    var bestDistance := 0;
    ghost var at := 0;
    for i := 0 to |known|
      invariant best.None? <==> i == 0
      invariant best.Some? ==> bestDistance == Distance(name, best.value)
      invariant best.Some? ==> at < i && FirstNearest(name, known[..i], at) && best.value == known[at]
    {
      var candidate := known[i];
      var d := ComputeDistance(name, candidate);
      assert known[..i + 1] == known[..i] + [candidate];
      if best.None? || d < bestDistance {
        bestDistance := d;
        best := Some(candidate);
        at := i;
      }
    }
    assert known[..|known|] == known;
    if best.Some? && Tolerance(name) < bestDistance {
      best := None;
    }
  }
}
