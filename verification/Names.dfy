/** Normalised names, lists of them, and lists in sorted order. */
module Names {
  import opened Prelude
  import Sorting
  import opened Text

  // ---- Trimming and lower case -----------------------------------------------------------

  predicate IsSpace(c: char) {
    var n := c as int;
    || 0x9 <= n <= 0xD || n == 0x20 || n == 0xA0 || n == 0x1680 || 0x2000 <= n <= 0x200A
    || n == 0x2028 || n == 0x2029 || n == 0x202F || n == 0x205F || n == 0x3000 || n == 0xFEFF
  }

  function TrimStart(s: string): string {
    if s != "" && IsSpace(s[0]) then TrimStart(s[1..]) else s
  }

  function TrimEnd(s: string): string {
    if s != "" && IsSpace(s[|s| - 1]) then TrimEnd(s[..|s| - 1]) else s
  }

  function Trim(s: string): string {
    TrimEnd(TrimStart(s))
  }

  predicate Trimmed(s: string) {
    s == "" || (!IsSpace(s[0]) && !IsSpace(s[|s| - 1]))
  }

  function LowerChar(c: char): char {
    if 'A' <= c <= 'Z' then (c as int + 32) as char else c
  }

  function Lower(s: string): (lower: string)
    ensures |lower| == |s|
  {
    seq(|s|, i requires 0 <= i < |s| => LowerChar(s[i]))
  }

  function Norm(value: string): string {
    Lower(Trim(value))
  }

  lemma {:induction false} TrimStartPart(s: string)
    ensures var t := TrimStart(s);
            && |t| <= |s| && t == s[|s| - |t|..]
            && (t == "" || !IsSpace(t[0]))
  {
    if s != "" && IsSpace(s[0]) {
      TrimStartPart(s[1..]);
    }
  }

  lemma {:induction false} TrimEndPart(s: string)
    ensures var t := TrimEnd(s);
            && |t| <= |s| && t == s[..|t|]
            && (t == "" || !IsSpace(t[|t| - 1]))
  {
    if s != "" && IsSpace(s[|s| - 1]) {
      TrimEndPart(s[..|s| - 1]);
    }
  }

  /** Trimming leaves a trimmed part of the text. */
  lemma TrimPart(s: string)
    ensures Trimmed(Trim(s)) && |Trim(s)| <= |s|
    ensures forall c :: c in Trim(s) ==> c in s
  {
    TrimStartPart(s);
    TrimEndPart(TrimStart(s));
  }

  /** A normal form is normal already, and it has no comma the text did not have. */
  lemma NormIsNormal(s: string)
    ensures Norm(Norm(s)) == Norm(s) && Trim(Norm(s)) == Norm(s) && |Norm(s)| <= |s|
    ensures ',' !in s ==> ',' !in Norm(s)
  {
    TrimPart(s);
    var t := Norm(s);
    assert Trimmed(t);
    assert Trim(t) == t;
    assert Lower(t) == t;
    if ',' in t {
      var i :| 0 <= i < |t| && t[i] == ',';
      assert Trim(s)[i] == ',';
    }
  }

  predicate Small(c: char) {
    'a' <= c <= 'z' || c == '-' || c == ':'
  }

  /** Text of small letters, dashes and colons is its own normal form. */
  lemma SmallIsNormal(s: string)
    requires forall i :: 0 <= i < |s| ==> Small(s[i])
    ensures Trim(s) == s && Norm(s) == s
  {
    assert Trimmed(s);
    assert TrimStart(s) == s;
    assert Lower(s) == s;
  }

  lemma NormOfTrim(s: string)
    ensures Norm(Trim(s)) == Norm(s)
  {
    TrimPart(s);
    assert Trim(Trim(s)) == Trim(s);
  }

  // ---- What a normal form means ------------------------------------------------------------

  /** The letter, or its capital. */
  predicate SameLetter(c: char, small: char) {
    c == small || ('a' <= small <= 'z' && c as int + 32 == small as int)
  }

  predicate SpellsAt(value: string, word: string, i: nat, j: nat) {
    && i <= j <= |value| && j - i == |word|
    && (forall k :: 0 <= k < |word| ==> SameLetter(value[i + k], word[k]))
    && (forall k :: 0 <= k < i ==> IsSpace(value[k]))
    && (forall k :: j <= k < |value| ==> IsSpace(value[k]))
  }

  /** The word, in small or capital letters, with blanks around it. */
  ghost predicate Spells(value: string, word: string) {
    exists i: nat, j: nat :: SpellsAt(value, word, i, j)
  }

  /** No blanks around it, and no capital letters. */
  predicate InSmall(word: string) {
    Trimmed(word) && forall k :: 0 <= k < |word| ==> !('A' <= word[k] <= 'Z')
  }

  lemma {:induction false} TrimStartSplits(s: string)
    ensures |TrimStart(s)| <= |s| && s[|s| - |TrimStart(s)|..] == TrimStart(s)
    ensures forall k :: 0 <= k < |s| - |TrimStart(s)| ==> IsSpace(s[k])
  {
    if s != "" && IsSpace(s[0]) {
      TrimStartSplits(s[1..]);
      assert forall k :: 1 <= k < |s| - |TrimStart(s)| ==> s[k] == s[1..][k - 1];
    }
  }

  lemma {:induction false} TrimEndSplits(s: string)
    ensures |TrimEnd(s)| <= |s| && s[..|TrimEnd(s)|] == TrimEnd(s)
    ensures forall k :: |TrimEnd(s)| <= k < |s| ==> IsSpace(s[k])
  {
    if s != "" && IsSpace(s[|s| - 1]) {
      TrimEndSplits(s[..|s| - 1]);
    }
  }

  lemma {:induction false} TrimStartDrops(s: string, i: nat)
    requires i <= |s| && (forall k :: 0 <= k < i ==> IsSpace(s[k])) && (i == |s| || !IsSpace(s[i]))
    ensures TrimStart(s) == s[i..]
    decreases i
  {
    if i > 0 {
      TrimStartDrops(s[1..], i - 1);
      assert s[1..][i - 1..] == s[i..];
    }
  }

  lemma {:induction false} TrimEndDrops(s: string, j: nat)
    requires j <= |s| && (forall k :: j <= k < |s| ==> IsSpace(s[k])) && (j == 0 || !IsSpace(s[j - 1]))
    ensures TrimEnd(s) == s[..j]
    decreases |s|
  {
    if j < |s| {
      TrimEndDrops(s[..|s| - 1], j);
      assert s[..|s| - 1][..j] == s[..j];
    }
  }

  /** A value has a word as its normal form exactly when it spells that word. */
  lemma NormSpells(value: string, word: string)
    requires InSmall(word)
    ensures Norm(value) == word <==> Spells(value, word)
  {
    hide TrimStart, TrimEnd;
    if Norm(value) == word {
      TrimStartSplits(value);
      TrimEndSplits(TrimStart(value));
      var i := |value| - |TrimStart(value)|;
      assert forall k :: 0 <= k < |TrimStart(value)| ==> value[i + k] == TrimStart(value)[k];
      forall k | i + |word| <= k < |value|
        ensures IsSpace(value[k])
      {
        assert IsSpace(TrimStart(value)[k - i]);
      }
      assert SpellsAt(value, word, i, i + |word|);
    }
    if i, j :| 0 <= i && 0 <= j && SpellsAt(value, word, i, j) {
      SpelledIsNormal(value, word, i, j);
    }
  }

  lemma SpelledIsNormal(value: string, word: string, i: nat, j: nat)
    requires InSmall(word) && SpellsAt(value, word, i, j)
    ensures Norm(value) == word
  {
    hide TrimStart, TrimEnd;
    if word == "" {
      TrimStartDrops(value, |value|);
      TrimEndDrops("", 0);
    } else {
      assert SameLetter(value[i], word[0]) && SameLetter(value[i + (|word| - 1)], word[|word| - 1]);
      TrimStartDrops(value, i);
      TrimEndDrops(value[i..], |word|);
      assert Trim(value) == value[i..][..|word|] == value[i..j];
    }
  }

  /** What is its own normal form has no blanks around it and no capitals. */
  lemma NormalIsSmall(word: string)
    requires Norm(word) == word
    ensures InSmall(word)
  {
    TrimPart(word);
    NormIsNormal(word);
    forall k | 0 <= k < |word|
      ensures !('A' <= word[k] <= 'Z')
    {
      assert word[k] == LowerChar(Trim(word)[k]);
    }
  }

  // ---- Comma lists -----------------------------------------------------------------------

  /** The comma-separated pieces of every item. */
  function Pieces(items: seq<string>): seq<string> {
    if items == [] then [] else Split(items[0], ",") + Pieces(items[1..])
  }

  /** The names a list asks for. */
  function NamesIn(items: seq<string>): set<string> {
    set p | p in Pieces(items) && Norm(p) != "" :: Norm(p)
  }

  /** A name as the lists hold it. */
  predicate Clean(name: string) {
    name != "" && Norm(name) == name && Trim(name) == name && ',' !in name
  }

  /** The first of each of equal entries. */
  function Distinct(items: seq<string>): (r: seq<string>)
    ensures forall x :: x in r <==> x in items
    ensures NoRepeats(r)
  {
    if items == [] then []
    else
      var before := Distinct(items[..|items| - 1]);
      assert items == items[..|items| - 1] + [items[|items| - 1]];
      if items[|items| - 1] in before then before else before + [items[|items| - 1]]
  }

  predicate NoRepeats(items: seq<string>) {
    forall i, j :: 0 <= i < j < |items| ==> items[i] != items[j]
  }

  /** The entries of `r` are first occurrences in `items`, in their order. */
  ghost predicate KeepsFirsts(items: seq<string>, r: seq<string>) {
    exists at :: FirstsAt(items, r, at)
  }

  ghost predicate FirstsAt(items: seq<string>, r: seq<string>, at: seq<int>) {
    && |at| == |r|
    && (forall i :: 0 <= i < |r| ==> 0 <= at[i] < |items| && items[at[i]] == r[i] && r[i] !in items[..at[i]])
    && (forall i, j :: 0 <= i < j < |r| ==> at[i] < at[j])
  }

  lemma KeepsFirstsSnoc(items: seq<string>, r: seq<string>, x: string)
    requires KeepsFirsts(items, r)
    ensures KeepsFirsts(items + [x], r)
    ensures x !in items ==> KeepsFirsts(items + [x], r + [x])
  {
    var after := items + [x];
    var at :| FirstsAt(items, r, at);
    assert forall i :: 0 <= i <= |items| ==> after[..i] == items[..i];
    assert FirstsAt(after, r, at);
    if x !in items {
      assert FirstsAt(after, r + [x], at + [|items|]);
    }
  }

  /** Removing repeats keeps the first of each, in order. */
  lemma {:induction false} DistinctKeepsFirsts(items: seq<string>)
    ensures KeepsFirsts(items, Distinct(items))
  {
    if items == [] {
      assert FirstsAt([], [], []);
    } else {
      var before, last := items[..|items| - 1], items[|items| - 1];
      DistinctKeepsFirsts(before);
      KeepsFirstsSnoc(before, Distinct(before), last);
      assert items == before + [last];
    }
  }

  lemma {:induction false} SplitHasNoComma(s: string)
    ensures forall p :: p in Split(s, ",") ==> ',' !in p
    decreases |s|
  {
    match IndexOf(s, ",")
    case None => NotFound(s, ',');
    case Some(i) =>
      IndexInside(s, ",");
      FoundFirst(s, ',');
      SplitHasNoComma(s[i + 1..]);
  }

  lemma {:induction false} NotFound(s: string, c: char)
    requires IndexOf(s, [c]).None?
    ensures c !in s
  {
    if s != "" {
      assert s == [s[0]] + s[1..];
      NotFound(s[1..], c);
    }
  }

  lemma {:induction false} FoundFirst(s: string, c: char)
    requires IndexOf(s, [c]).Some?
    ensures IndexOf(s, [c]).value < |s| && c !in s[..IndexOf(s, [c]).value]
  {
    if !([c] <= s) {
      FoundFirst(s[1..], c);
      var i := IndexOf(s, [c]).value;
      assert s[..i] == [s[0]] + s[1..][..i - 1];
    }
  }

  lemma {:induction false} PiecesHaveNoComma(items: seq<string>)
    ensures forall p :: p in Pieces(items) ==> ',' !in p
  {
    if items != [] {
      SplitHasNoComma(items[0]);
      PiecesHaveNoComma(items[1..]);
    }
  }

  /** Every name a list asks for is clean. */
  lemma NamesAreClean(items: seq<string>)
    ensures forall n :: n in NamesIn(items) ==> Clean(n)
  {
    PiecesHaveNoComma(items);
    forall p | p in Pieces(items) && Norm(p) != ""
      ensures Clean(Norm(p))
    {
      NormIsNormal(p);
    }
  }

  /** Items without commas are their own pieces. */
  lemma {:induction false} PiecesOfPlain(items: seq<string>)
    requires forall n :: n in items ==> ',' !in n
    ensures Pieces(items) == items
  {
    if items != [] {
      IndexOfAbsent(items[0], ',');
      assert Split(items[0], ",") == [items[0]];
      PiecesOfPlain(items[1..]);
      assert items == [items[0]] + items[1..];
    }
  }

  /** A list of clean names asks for those names. */
  lemma NamesOfClean(items: seq<string>)
    requires forall n :: n in items ==> Clean(n)
    ensures NamesIn(items) == set n | n in items
  {
    PiecesOfPlain(items);
  }

  // ---- Sorted lists ----------------------------------------------------------------------

  /** The order of strings. */
  predicate AtMost(a: string, b: string) {
    a == "" || (b != "" && (a[0] < b[0] || (a[0] == b[0] && AtMost(a[1..], b[1..]))))
  }

  lemma {:induction false} AtMostTotal(a: string, b: string)
    ensures AtMost(a, b) || AtMost(b, a)
    ensures AtMost(a, b) && AtMost(b, a) ==> a == b
  {
    if a != "" && b != "" {
      AtMostTotal(a[1..], b[1..]);
      assert a == [a[0]] + a[1..] && b == [b[0]] + b[1..];
    }
  }

  lemma {:induction false} AtMostTransitive(a: string, b: string, c: string)
    requires AtMost(a, b) && AtMost(b, c)
    ensures AtMost(a, c)
  {
    if a != "" && a[0] == b[0] && b[0] == c[0] {
      AtMostTransitive(a[1..], b[1..], c[1..]);
    }
  }

  /** The same up to position `k`, where the first ends or has the smaller character. */
  predicate FirstBy(a: string, b: string, k: nat) {
    && k <= |a| && k <= |b| && (forall j :: 0 <= j < k ==> a[j] == b[j])
    && (k == |a| || (k < |b| && a[k] < b[k]))
  }

  lemma {:induction false} AtMostIsFirst(a: string, b: string)
    ensures AtMost(a, b) <==> exists k: nat :: FirstBy(a, b, k)
  {
    if AtMost(a, b) {
      var k := FirstWhere(a, b);
    }
    if k: nat :| FirstBy(a, b, k) {
      FirstIsAtMost(a, b, k);
    }
  }

  lemma {:induction false} FirstWhere(a: string, b: string) returns (k: nat)
    requires AtMost(a, b)
    ensures FirstBy(a, b, k)
  {
    k := 0;
    if a != "" && a[0] == b[0] {
      var i := FirstWhere(a[1..], b[1..]);
      k := i + 1;
      assert forall j :: 1 <= j < k ==> a[j] == a[1..][j - 1] && b[j] == b[1..][j - 1];
    }
  }

  lemma {:induction false} FirstIsAtMost(a: string, b: string, k: nat)
    requires FirstBy(a, b, k)
    ensures AtMost(a, b)
    decreases k
  {
    if k > 0 {
      FirstIsAtMost(a[1..], b[1..], k - 1);
    }
  }

  predicate Ordered(s: seq<string>) {
    forall i, j :: 0 <= i < j < |s| ==> AtMost(s[i], s[j]) && s[i] != s[j]
  }

  function Order(a: string, b: string): int {
    if a == b then 0 else if AtMost(a, b) then -1 else 1
  }

  function Insert(x: string, s: seq<string>): (r: seq<string>)
    ensures forall y :: y in r <==> y == x || y in s
  {
    Sorting.InsertKeeps(x, s, Order);
    Sorting.Insert(x, s, Order)
  }

  lemma {:induction false} InsertOrdered(x: string, s: seq<string>)
    requires Ordered(s) && x !in s
    ensures Ordered(Insert(x, s))
  {
    if s != [] {
      AtMostTotal(x, s[0]);
      if AtMost(x, s[0]) {
        forall j | 0 <= j < |s|
          ensures AtMost(x, s[j])
        {
          if j > 0 {
            AtMostTransitive(x, s[0], s[j]);
          }
        }
      } else {
        InsertOrdered(x, s[1..]);
        var rest := Insert(x, s[1..]);
        forall j | 0 <= j < |rest|
          ensures AtMost(s[0], rest[j]) && s[0] != rest[j]
        {
          assert rest[j] in rest;
          if rest[j] != x {
            var k :| 0 <= k < |s[1..]| && s[1..][k] == rest[j];
            assert s[k + 1] == rest[j];
          }
        }
      }
    }
  }

  /** The names of a set in order. */
  ghost function Sorted(names: set<string>): (r: seq<string>)
    ensures Ordered(r) && forall n :: n in r <==> n in names
  {
    if names == {} then []
    else
      var x :| x in names;
      var rest := Sorted(names - {x});
      InsertOrdered(x, rest);
      Insert(x, rest)
  }

  /** There is only one ordered list of the same names. */
  lemma {:induction false} OrderedUnique(a: seq<string>, b: seq<string>)
    requires Ordered(a) && Ordered(b) && forall n :: n in a <==> n in b
    ensures a == b
  {
    if a == [] || b == [] {
      SomeName(a);
      SomeName(b);
    } else {
      assert a[0] in b && b[0] in a;
      AtMostTotal(a[0], b[0]);
      assert AtMost(a[0], b[0]) by {
        var i :| 0 <= i < |a| && a[i] == b[0];
        if i == 0 {
          AtMostTotal(a[0], a[0]);
        }
      }
      assert AtMost(b[0], a[0]) by {
        var i :| 0 <= i < |b| && b[i] == a[0];
        if i == 0 {
          AtMostTotal(b[0], b[0]);
        }
      }
      TailNames(a);
      TailNames(b);
      OrderedUnique(a[1..], b[1..]);
      assert a == [a[0]] + a[1..] && b == [b[0]] + b[1..];
    }
  }

  lemma SomeName(a: seq<string>)
    ensures a == [] || exists n :: n in a
  {
    if a != [] {
      assert a[0] in a;
    }
  }

  lemma TailNames(a: seq<string>)
    requires Ordered(a) && a != []
    ensures forall n :: n in a[1..] <==> n in a && n != a[0]
  {
    forall n | n in a[1..]
      ensures n in a && n != a[0]
    {
      var i :| 0 <= i < |a[1..]| && a[1..][i] == n;
      assert a[i + 1] == n;
    }
    assert a == [a[0]] + a[1..];
  }

  method SortNames(names: set<string>) returns (r: seq<string>)
    ensures r == Sorted(names)
  {
    r := [];
    var left := names;
    while left != {}
      invariant left <= names && Ordered(r) && forall n :: n in r <==> n in names - left
      decreases left
    {
      var x :| x in left;
      InsertOrdered(x, r);
      r := Insert(x, r);
      left := left - {x};
    }
    OrderedUnique(r, Sorted(names));
  }
}
