/** A stable insertion sort for any comparison, as `Array.prototype.sort` orders an array. */
module Sorting {

  /** Negative, zero or positive for less, equal or greater. */
  type Comparison<!T> = (T, T) -> int

  /** A comparison that orders: reversed it has the other sign, and it is transitive. */
  ghost predicate Orders<T(!new)>(compare: Comparison<T>) {
    && (forall a, b :: compare(a, b) < 0 <==> compare(b, a) > 0)
    && (forall a, b, c :: compare(a, b) <= 0 && compare(b, c) <= 0 ==> compare(a, c) <= 0)
  }

  ghost predicate Sorted<T>(xs: seq<T>, compare: Comparison<T>) {
    forall i, j :: 0 <= i < j < |xs| ==> compare(xs[i], xs[j]) <= 0
  }

  /** Behind every element that does not come after `x`. */
  function Insert<T>(x: T, xs: seq<T>, compare: Comparison<T>): seq<T> {
    if xs == [] || compare(x, xs[0]) < 0 then [x] + xs else [xs[0]] + Insert(x, xs[1..], compare)
  }

  function Sort<T>(xs: seq<T>, compare: Comparison<T>): seq<T> {
    if xs == [] then [] else Insert(xs[|xs| - 1], Sort(xs[..|xs| - 1], compare), compare)
  }

  lemma {:induction false} InsertKeeps<T>(x: T, xs: seq<T>, compare: Comparison<T>)
    ensures multiset(Insert(x, xs, compare)) == multiset{x} + multiset(xs)
    ensures forall y :: y in Insert(x, xs, compare) <==> y == x || y in xs
  {
    if xs != [] && compare(x, xs[0]) >= 0 {
      InsertKeeps(x, xs[1..], compare);
      assert xs == [xs[0]] + xs[1..];
    }
  }

  lemma {:induction false} InsertSorts<T(!new)>(x: T, xs: seq<T>, compare: Comparison<T>)
    requires Orders(compare) && Sorted(xs, compare)
    ensures Sorted(Insert(x, xs, compare), compare)
  {
    if xs == [] {
    } else if compare(x, xs[0]) < 0 {
      forall j | 0 <= j < |xs|
        ensures compare(x, xs[j]) <= 0
      {
        assert j == 0 || compare(xs[0], xs[j]) <= 0;
      }
    } else {
      InsertSorts(x, xs[1..], compare);
      InsertKeeps(x, xs[1..], compare);
      var rest := Insert(x, xs[1..], compare);
      assert Insert(x, xs, compare) == [xs[0]] + rest;
      hide Insert;
      forall j | 0 <= j < |rest|
        ensures compare(xs[0], rest[j]) <= 0
      {
        assert rest[j] in rest;
        if rest[j] != x {
          var k :| 0 <= k < |xs[1..]| && xs[1..][k] == rest[j];
          assert compare(xs[0], xs[k + 1]) <= 0;
        } else {
          assert compare(xs[0], x) <= 0;
        }
      }
    }
  }

  lemma {:induction false} SortSorts<T(!new)>(xs: seq<T>, compare: Comparison<T>)
    requires Orders(compare)
    ensures Sorted(Sort(xs, compare), compare)
  {
    if xs != [] {
      SortSorts(xs[..|xs| - 1], compare);
      InsertSorts(xs[|xs| - 1], Sort(xs[..|xs| - 1], compare), compare);
    }
  }

  lemma {:induction false} SortKeeps<T>(xs: seq<T>, compare: Comparison<T>)
    ensures multiset(Sort(xs, compare)) == multiset(xs)
    ensures forall y :: y in Sort(xs, compare) <==> y in xs
  {
    hide Insert;
    if xs != [] {
      var rest, last := xs[..|xs| - 1], xs[|xs| - 1];
      SortKeeps(rest, compare);
      InsertKeeps(last, Sort(rest, compare), compare);
      assert xs == rest + [last];
    }
  }

  /** The elements of `xs` that compare as equal to `e`, in their order. */
  function Ties<T>(xs: seq<T>, e: T, compare: Comparison<T>): seq<T> {
    if xs == [] then [] else (if compare(xs[0], e) == 0 then [xs[0]] else []) + Ties(xs[1..], e, compare)
  }

  lemma {:induction false} TiesSnoc<T>(xs: seq<T>, x: T, e: T, compare: Comparison<T>)
    ensures Ties(xs + [x], e, compare) == Ties(xs, e, compare) + if compare(x, e) == 0 then [x] else []
  {
    if xs == [] {
      assert (xs + [x])[1..] == [];
    } else {
      TiesSnoc(xs[1..], x, e, compare);
      assert (xs + [x])[1..] == xs[1..] + [x];
    }
  }

  /** An element goes behind all that it ties with. */
  lemma {:induction false} InsertBehindTies<T(!new)>(x: T, xs: seq<T>, e: T, compare: Comparison<T>)
    requires Orders(compare) && Sorted(xs, compare)
    ensures Ties(Insert(x, xs, compare), e, compare) == Ties(xs, e, compare) + if compare(x, e) == 0 then [x] else []
  {
    SortedTail(xs, compare);
    if xs != [] && compare(x, xs[0]) < 0 && compare(x, e) == 0 {
      NoTies(x, xs, e, compare);
    }
    hide Orders, Sorted;
    if xs == [] {
      assert [x][1..] == [];
    } else if compare(x, xs[0]) < 0 {
      assert ([x] + xs)[1..] == xs;
    } else {
      InsertBehindTies(x, xs[1..], e, compare);
      assert ([xs[0]] + Insert(x, xs[1..], compare))[1..] == Insert(x, xs[1..], compare);
    }
  }

  lemma SortedTail<T>(xs: seq<T>, compare: Comparison<T>)
    requires Sorted(xs, compare)
    ensures xs != [] ==> Sorted(xs[1..], compare)
  {
  }

  lemma StrictlyBehind<T(!new)>(a: T, e: T, x: T, compare: Comparison<T>)
    requires Orders(compare) && compare(x, a) < 0 && compare(x, e) == 0
    ensures compare(a, e) > 0
  {
    assert compare(e, x) <= 0 && compare(a, x) > 0;
  }

  lemma {:induction false} NoTies<T(!new)>(x: T, xs: seq<T>, e: T, compare: Comparison<T>)
    requires Orders(compare) && Sorted(xs, compare) && xs != []
    requires compare(x, xs[0]) < 0 && compare(x, e) == 0
    ensures Ties(xs, e, compare) == []
  {
    StrictlyBehind(xs[0], e, x, compare);
    if |xs| > 1 {
      assert compare(xs[0], xs[1]) <= 0;
      assert compare(x, xs[1]) < 0;
      NoTies(x, xs[1..], e, compare);
    }
  }

  /** Elements that tie stay in the order they were in. */
  lemma {:induction false} SortIsStable<T(!new)>(xs: seq<T>, e: T, compare: Comparison<T>)
    requires Orders(compare)
    ensures Ties(Sort(xs, compare), e, compare) == Ties(xs, e, compare)
  {
    hide Orders, Sorted, Insert, Ties;
    if xs != [] {
      var rest, last := xs[..|xs| - 1], xs[|xs| - 1];
      SortIsStable(rest, e, compare);
      SortSorts(rest, compare);
      InsertBehindTies(last, Sort(rest, compare), e, compare);
      TiesSnoc(rest, last, e, compare);
      assert xs == rest + [last];
    }
  }
}
