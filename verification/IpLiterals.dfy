/**
 * IP literals and CIDR blocks: every way of writing a 128-bit address reads back as that
 * address, and a host is in a block exactly when it agrees with the base on the prefix bits.
 */
module IpLiterals {
  import opened Prelude
  import opened Text

  // ---- IPv4 ------------------------------------------------------------------------------

  predicate IsOctet(part: string) {
    AllDigits(part) && Decimal(part) <= 255
  }

  /** The value of dotted parts, most significant first. */
  function OctetsValue(parts: seq<string>): nat {
    if parts == [] then 0 else OctetsValue(parts[..|parts| - 1]) * 256 + Decimal(parts[|parts| - 1])
  }

  function Ipv4(s: string): Option<nat> {
    var parts := Split(s, ".");
    if |parts| == 4 && forall p :: p in parts ==> IsOctet(p) then Some(OctetsValue(parts)) else None
  }

  method ParseIpv4(s: string) returns (value: Option<nat>)
    ensures value == Ipv4(s)
  {
    var parts := Split(s, ".");
    if |parts| != 4 {
      return None;
    }
    var n := 0;
    for i := 0 to |parts|
      invariant forall p :: p in parts[..i] ==> IsOctet(p)
      invariant n == OctetsValue(parts[..i])
    {
      assert parts[i] in parts;
      if !AllDigits(parts[i]) {
        return None;
      }
      var b := Decimal(parts[i]);
      if b > 255 {
        return None;
      }
      assert parts[..i + 1] == parts[..i] + [parts[i]];
      n := n * 256 + b;
    }
    assert parts[..|parts|] == parts;
    return Some(n);
  }

  lemma {:induction false} OctetsBound(parts: seq<string>)
    requires forall p :: p in parts ==> IsOctet(p)
    ensures OctetsValue(parts) < Pow2(8 * |parts|)
  {
    if parts != [] {
      assert parts[|parts| - 1] in parts;
      OctetsBound(parts[..|parts| - 1]);
      Pow2Octet(8 * (|parts| - 1));
    }
  }

  lemma OctetsSnoc(parts: seq<string>, last: string)
    ensures OctetsValue(parts + [last]) == OctetsValue(parts) * 256 + Decimal(last)
  {
    assert (parts + [last])[..|parts|] == parts;
  }

  /** Four octets in decimal between dots. */
  function Quad(a: nat, b: nat, c: nat, d: nat): seq<string> {
    [] + [DecimalText(a)] + [DecimalText(b)] + [DecimalText(c)] + [DecimalText(d)]
  }

  /** Every 32-bit value is read back from its dotted quad. */
  lemma EveryQuad(a: nat, b: nat, c: nat, d: nat)
    requires a < 256 && b < 256 && c < 256 && d < 256
    ensures Ipv4(Join(Quad(a, b, c, d), ".")) == Some(a * 0x100_0000 + b * 0x1_0000 + c * 256 + d)
  {
    OctetText(a);
    OctetText(b);
    OctetText(c);
    OctetText(d);
    SplitJoin(Quad(a, b, c, d), '.');
    QuadValue(a, b, c, d);
  }

  lemma QuadValue(a: nat, b: nat, c: nat, d: nat)
    requires a < 256 && b < 256 && c < 256 && d < 256
    ensures OctetsValue(Quad(a, b, c, d)) == a * 0x100_0000 + b * 0x1_0000 + c * 256 + d
  {
    OctetText(a);
    OctetText(b);
    OctetText(c);
    OctetText(d);
    var one := [] + [DecimalText(a)];
    var two := one + [DecimalText(b)];
    var three := two + [DecimalText(c)];
    OctetsSnoc([], DecimalText(a));
    OctetsSnoc(one, DecimalText(b));
    OctetsSnoc(two, DecimalText(c));
    OctetsSnoc(three, DecimalText(d));
  }

  lemma OctetText(n: nat)
    requires n < 256
    ensures IsOctet(DecimalText(n)) && Decimal(DecimalText(n)) == n && '.' !in DecimalText(n)
  {
    DecimalTextReadsBack(n);
  }

  // ---- IPv6 ------------------------------------------------------------------------------

  predicate IsHexDigit(c: char) {
    '0' <= c <= '9' || 'a' <= c <= 'f' || 'A' <= c <= 'F'
  }

  function HexDigit(c: char): (d: nat)
    ensures d < 16
  {
    if '0' <= c <= '9' then c as int - '0' as int
    else if 'a' <= c <= 'f' then c as int - 'a' as int + 10
    else if 'A' <= c <= 'F' then c as int - 'A' as int + 10
    else 0
  }

  predicate IsGroup(g: string) {
    1 <= |g| <= 4 && forall c :: c in g ==> IsHexDigit(c)
  }

  function HexValue(g: string): nat {
    if g == "" then 0 else HexValue(g[..|g| - 1]) * 16 + HexDigit(g[|g| - 1])
  }

  /** One side of the address: no groups when it is empty, else all of them valid. */
  function Groups(side: string): Option<seq<nat>> {
    if side == "" then Some([])
    else
      var parts := Split(side, ":");
      if forall p :: p in parts ==> IsGroup(p) then Some(GroupValues(parts)) else None
  }

  function GroupValues(parts: seq<string>): (values: seq<nat>)
    ensures |values| == |parts| && forall i :: 0 <= i < |parts| ==> values[i] == HexValue(parts[i])
  {
    seq(|parts|, i requires 0 <= i < |parts| => HexValue(parts[i]))
  }

  /** The value of 16-bit groups, most significant first. */
  function GroupsValue(groups: seq<nat>): nat {
    if groups == [] then 0 else GroupsValue(groups[..|groups| - 1]) * 0x1_0000 + groups[|groups| - 1]
  }

  /** All groups fit in 16 bits. */
  predicate Words(groups: seq<nat>) {
    forall i :: 0 <= i < |groups| ==> groups[i] < 0x1_0000
  }

  function Zeros(n: nat): seq<nat> {
    seq(n, _ => 0)
  }

  function Ipv6(s: string): Option<nat> {
    match AllEight(Split(s, "::"))
    case None => None
    case Some(groups) => Some(GroupsValue(groups))
  }

  /** The eight groups, from the texts around the double colon if there is one. */
  function AllEight(halves: seq<string>): Option<seq<nat>>
    requires halves != []
  {
    if |halves| > 2 then None
    else
      var left := Groups(halves[0]);
      var right := if |halves| == 2 then Groups(halves[1]) else Some([]);
      if left.None? || right.None? then None
      else if |halves| == 1 && |left.value| != 8 then None
      else if |halves| == 2 && |left.value| + |right.value| > 7 then None
      else Some(Filled(left.value, right.value))
  }

  function Filled(left: seq<nat>, right: seq<nat>): (groups: seq<nat>)
    requires |left| + |right| <= 8
    ensures |groups| == 8
  {
    left + Zeros(8 - |left| - |right|) + right
  }

  method ParseGroups(side: string) returns (groups: Option<seq<nat>>)
    ensures groups == Groups(side)
  {
    if side == "" {
      return Some([]);
    }
    var parts := Split(side, ":");
    var out: seq<nat> := [];
    for i := 0 to |parts|
      invariant forall p :: p in parts[..i] ==> IsGroup(p)
      invariant out == GroupValues(parts[..i])
    {
      assert parts[i] in parts;
      if !IsGroup(parts[i]) {
        return None;
      }
      assert parts[..i + 1] == parts[..i] + [parts[i]];
      out := out + [HexValue(parts[i])];
    }
    assert parts[..|parts|] == parts;
    return Some(out);
  }

  method ParseIpv6(s: string) returns (value: Option<nat>)
    ensures value == Ipv6(s)
  {
    var halves := Split(s, "::");
    if |halves| > 2 {
      return None;
    }
    var left := ParseGroups(halves[0]);
    var right: Option<seq<nat>> := Some([]);
    if |halves| == 2 {
      right := ParseGroups(halves[1]);
    }
    if left.None? || right.None? {
      return None;
    }
    if |halves| == 1 && |left.value| != 8 {
      return None;
    }
    if |halves| == 2 && |left.value| + |right.value| > 7 {
      return None;
    }
    var groups := Filled(left.value, right.value);
    var n := 0;
    for i := 0 to |groups|
      invariant n == GroupsValue(groups[..i])
    {
      assert groups[..i + 1] == groups[..i] + [groups[i]];
      n := n * 0x1_0000 + groups[i];
    }
    assert groups[..|groups|] == groups;
    return Some(n);
  }

  // ---- Reading back what was written -----------------------------------------------------

  /** A text of hexadecimal groups between single colons. */
  predicate AllGroups(parts: seq<string>) {
    forall p :: p in parts ==> IsGroup(p)
  }

  lemma GroupsOfJoined(parts: seq<string>)
    requires AllGroups(parts)
    ensures Groups(Join(parts, ":")) == Some(GroupValues(parts))
  {
    if parts != [] {
      assert parts[0] in parts;
      JoinedNonempty(parts);
      SplitJoin(parts, ':');
    }
  }

  lemma JoinedNonempty(parts: seq<string>)
    requires parts != [] && IsGroup(parts[0])
    ensures Join(parts, ":") != ""
  {
  }

  /** Every colon has a character other than a colon on both sides. */
  predicate SingleColons(s: string) {
    forall i :: 0 <= i < |s| && s[i] == ':' ==> 0 < i < |s| - 1 && s[i - 1] != ':' && s[i + 1] != ':'
  }

  lemma GroupHasNoColon(g: string)
    requires IsGroup(g)
    ensures forall i :: 0 <= i < |g| ==> g[i] != ':'
  {
    forall i | 0 <= i < |g|
      ensures g[i] != ':'
    {
      assert g[i] in g;
    }
  }

  lemma {:induction false} JoinedSingleColons(parts: seq<string>)
    requires AllGroups(parts)
    ensures SingleColons(Join(parts, ":"))
    ensures parts != [] ==> Join(parts, ":") != "" && Join(parts, ":")[0] != ':'
  {
    if parts != [] {
      assert parts[0] in parts;
      GroupHasNoColon(parts[0]);
    }
    if |parts| > 1 {
      JoinedSingleColons(parts[1..]);
      ColonBetween(parts[0], Join(parts[1..], ":"));
    }
  }

  lemma ColonBetween(first: string, rest: string)
    requires first != "" && forall i :: 0 <= i < |first| ==> first[i] != ':'
    requires rest != "" && rest[0] != ':' && SingleColons(rest)
    ensures SingleColons(first + ":" + rest)
  {
    var s, n := first + ":" + rest, |first|;
    forall i | 0 <= i < |s| && s[i] == ':'
      ensures 0 < i < |s| - 1 && s[i - 1] != ':' && s[i + 1] != ':'
    {
      if n < i {
        var k := i - n - 1;
        assert rest[k] == ':';
        assert s[i + 1] == rest[k + 1] && s[i - 1] == rest[k - 1];
      }
    }
  }

  lemma {:induction false} NoDoubleColon(s: string)
    requires forall i :: 0 < i < |s| && s[i] == ':' ==> s[i - 1] != ':'
    ensures IndexOf(s, "::").None?
  {
    assert "::"[0] == ':' && "::"[1] == ':';
    if s != "" {
      NoDoubleColon(s[1..]);
    }
  }

  lemma {:induction false} FirstDoubleColon(a: string, b: string)
    requires a == "" || a[|a| - 1] != ':'
    requires forall i :: 0 < i < |a| && a[i] == ':' ==> a[i - 1] != ':'
    ensures IndexOf(a + "::" + b, "::") == Some(|a|)
  {
    var s := a + "::" + b;
    assert "::"[0] == ':' && "::"[1] == ':';
    if a == "" {
      assert "::" <= s;
    } else {
      assert s[0] == a[0] && (|a| > 1 ==> s[1] == a[1]);
      assert s[1..] == a[1..] + "::" + b;
      FirstDoubleColon(a[1..], b);
    }
  }

  /** All eight groups written out, in any case and with any leading zeros. */
  lemma FullFormReadsBack(parts: seq<string>)
    requires |parts| == 8 && AllGroups(parts)
    ensures Ipv6(Join(parts, ":")) == Some(GroupsValue(GroupValues(parts)))
  {
    var s := Join(parts, ":");
    JoinedSingleColons(parts);
    NoDoubleColon(s);
    GroupsOfJoined(parts);
    assert Filled(GroupValues(parts), []) == GroupValues(parts);
  }

  lemma SplitAtDoubleColon(a: string, b: string)
    requires SingleColons(a) && SingleColons(b)
    ensures Split(a + "::" + b, "::") == [a, b]
  {
    FirstDoubleColon(a, b);
    NoDoubleColon(b);
    var s := a + "::" + b;
    assert s[..|a|] == a && s[|a| + 2..] == b;
  }

  /** At least one group left out between two colons: those are the zero groups. */
  lemma CompressedFormReadsBack(left: seq<string>, right: seq<string>)
    requires |left| + |right| <= 7 && AllGroups(left) && AllGroups(right)
    ensures Ipv6(Join(left, ":") + "::" + Join(right, ":"))
            == Some(GroupsValue(Filled(GroupValues(left), GroupValues(right))))
  {
    JoinedSingleColons(left);
    JoinedSingleColons(right);
    var a, b := Join(left, ":"), Join(right, ":");
    SplitAtDoubleColon(a, b);
    GroupsOfJoined(left);
    GroupsOfJoined(right);
    TwoHalves(a, b, GroupValues(left), GroupValues(right));
  }

  lemma TwoHalves(a: string, b: string, left: seq<nat>, right: seq<nat>)
    requires Groups(a) == Some(left) && Groups(b) == Some(right) && |left| + |right| <= 7
    ensures AllEight([a, b]) == Some(Filled(left, right))
  {
  }

  /** Nothing else is read: a parsed text is one of the two forms. */
  lemma OnlyTheseForms(s: string)
    requires Ipv6(s).Some?
    ensures || (exists parts :: |parts| == 8 && AllGroups(parts) && s == Join(parts, ":"))
            || (exists left, right :: |left| + |right| <= 7 && AllGroups(left) && AllGroups(right)
                                      && s == Join(left, ":") + "::" + Join(right, ":"))
  {
    var halves := Split(s, "::");
    JoinSplit(s, "::");
    var left := GroupTextsOf(halves[0]);
    if |halves| == 1 {
      assert |left| == 8 && AllGroups(left) && s == Join(left, ":");
    } else {
      var right := GroupTextsOf(halves[1]);
      assert s == halves[0] + "::" + halves[1];
    }
  }

  lemma GroupTextsOf(side: string) returns (parts: seq<string>)
    requires Groups(side).Some?
    ensures AllGroups(parts) && side == Join(parts, ":") && |parts| == |Groups(side).value|
  {
    if side == "" {
      parts := [];
    } else {
      parts := Split(side, ":");
      JoinSplit(side, ":");
    }
  }

  // ---- The texts of a value --------------------------------------------------------------

  function HexChar(d: nat): char
    requires d < 16
  {
    "0123456789abcdef"[d]
  }

  /** A 16-bit group without leading zeros. */
  function GroupText(v: nat): string
    requires v < 0x1_0000
  {
    if v < 16 then [HexChar(v)] else GroupText(v / 16) + [HexChar(v % 16)]
  }

  lemma HexCharDigit(d: nat)
    requires d < 16
    ensures IsHexDigit(HexChar(d)) && HexDigit(HexChar(d)) == d
  {
  }

  lemma {:induction false} GroupTextReadsBack(v: nat, digits: nat)
    requires v < 0x1_0000
    requires 1 <= digits <= 4 && v < (match digits case 1 => 16 case 2 => 256 case 3 => 4096 case _ => 0x1_0000)
    ensures |GroupText(v)| <= digits && IsGroup(GroupText(v)) && HexValue(GroupText(v)) == v
    decreases digits
  {
    HexCharDigit(v % 16);
    if v < 16 {
      assert GroupText(v)[..0] == "";
    } else {
      GroupTextReadsBack(v / 16, digits - 1);
      var g := GroupText(v);
      assert g[..|g| - 1] == GroupText(v / 16);
    }
  }

  /** The 16-bit groups of a value. */
  function GroupsOf(n: nat, count: nat): (groups: seq<nat>)
    ensures |groups| == count && Words(groups)
  {
    if count == 0 then [] else GroupsOf(n / 0x1_0000, count - 1) + [n % 0x1_0000]
  }

  lemma {:induction false} GroupsOfValue(n: nat, count: nat)
    requires n < Pow2(16 * count)
    ensures GroupsValue(GroupsOf(n, count)) == n
  {
    if count > 0 {
      Pow2Group(16 * (count - 1));
      GroupsOfValue(n / 0x1_0000, count - 1);
      var groups := GroupsOf(n, count);
      assert groups[..|groups| - 1] == GroupsOf(n / 0x1_0000, count - 1);
    }
  }

  function GroupTexts(groups: seq<nat>): (texts: seq<string>)
    requires Words(groups)
    ensures |texts| == |groups| && forall i :: 0 <= i < |groups| ==> texts[i] == GroupText(groups[i])
  {
    seq(|groups|, i requires 0 <= i < |groups| => GroupText(groups[i]))
  }

  lemma GroupTextsReadBack(groups: seq<nat>)
    requires Words(groups)
    ensures AllGroups(GroupTexts(groups)) && GroupValues(GroupTexts(groups)) == groups
  {
    var texts := GroupTexts(groups);
    forall i | 0 <= i < |groups|
      ensures IsGroup(texts[i]) && HexValue(texts[i]) == groups[i]
    {
      GroupTextReadsBack(groups[i], 4);
    }
  }

  /** For every 128-bit value: its eight groups read back as the value. */
  lemma EveryValueFull(n: nat)
    requires n < Pow2(128)
    ensures Ipv6(Join(GroupTexts(GroupsOf(n, 8)), ":")) == Some(n)
  {
    GroupsOfValue(n, 8);
    GroupTextsReadBack(GroupsOf(n, 8));
    FullFormReadsBack(GroupTexts(GroupsOf(n, 8)));
  }

  /** And so does every text with one run of its zero groups replaced by `::`. */
  lemma EveryValueCompressed(n: nat, i: nat, j: nat)
    requires n < Pow2(128) && i < j <= 8
    requires forall k :: i <= k < j ==> GroupsOf(n, 8)[k] == 0
    ensures var groups := GroupsOf(n, 8);
            Ipv6(Join(GroupTexts(groups[..i]), ":") + "::" + Join(GroupTexts(groups[j..]), ":")) == Some(n)
  {
    GroupsOfValue(n, 8);
    CompressedGroups(GroupsOf(n, 8), i, j);
  }

  lemma CompressedGroups(groups: seq<nat>, i: nat, j: nat)
    requires |groups| == 8 && Words(groups) && i < j <= 8
    requires forall k :: i <= k < j ==> groups[k] == 0
    ensures Ipv6(Join(GroupTexts(groups[..i]), ":") + "::" + Join(GroupTexts(groups[j..]), ":"))
            == Some(GroupsValue(groups))
  {
    var left, right := groups[..i], groups[j..];
    GroupTextsReadBack(left);
    GroupTextsReadBack(right);
    assert Filled(left, right) == groups;
    CompressedFormReadsBack(GroupTexts(left), GroupTexts(right));
  }

  // ---- CIDR blocks -----------------------------------------------------------------------

  function Pow2(n: nat): (p: nat)
    ensures p > 0
  {
    if n == 0 then 1 else 2 * Pow2(n - 1)
  }

  lemma Pow2Double(n: nat)
    ensures Pow2(n + 1) == 2 * Pow2(n)
  {
  }

  lemma Pow2Nibble(n: nat)
    ensures Pow2(n + 4) == 16 * Pow2(n)
  {
    hide Pow2;
    Pow2Double(n);
    Pow2Double(n + 1);
    Pow2Double(n + 2);
    Pow2Double(n + 3);
  }

  lemma Pow2Octet(n: nat)
    ensures Pow2(n + 8) == 256 * Pow2(n)
  {
    hide Pow2;
    Pow2Nibble(n);
    Pow2Nibble(n + 4);
  }

  lemma Pow2Group(n: nat)
    ensures Pow2(n + 16) == 0x1_0000 * Pow2(n)
  {
    hide Pow2;
    Pow2Octet(n);
    Pow2Octet(n + 8);
  }

  /** The number shifted right by `k` bits. */
  function ShiftRight(n: nat, k: nat): nat {
    if k == 0 then n else ShiftRight(n / 2, k - 1)
  }

  /** Bit `i` of a number, bit 0 being the lowest. */
  function Bit(n: nat, i: nat): nat {
    if i == 0 then n % 2 else Bit(n / 2, i - 1)
  }

  /** The two numbers agree on the first `prefix` of their `width` bits. */
  ghost predicate SamePrefix(a: nat, b: nat, width: nat, prefix: nat)
    requires prefix <= width
  {
    forall i :: width - prefix <= i < width ==> Bit(a, i) == Bit(b, i)
  }

  lemma {:induction false} ShiftStep(n: nat, i: nat)
    ensures ShiftRight(n, i) == 2 * ShiftRight(n, i + 1) + Bit(n, i)
    decreases i
  {
    if i > 0 {
      ShiftStep(n / 2, i - 1);
    }
  }

  lemma {:induction false} ShiftedOut(n: nat, width: nat)
    requires n < Pow2(width)
    ensures ShiftRight(n, width) == 0
    decreases width
  {
    if width > 0 {
      ShiftedOut(n / 2, width - 1);
    }
  }

  lemma BitIsBit(n: nat, i: nat)
    ensures Bit(n, i) < 2
    decreases i
  {
    if i > 0 {
      BitIsBit(n / 2, i - 1);
    }
  }

  /** Shifting the low bits out of both leaves equal numbers exactly when the high bits agree. */
  lemma {:induction false} ShiftsAgree(a: nat, b: nat, width: nat, prefix: nat)
    requires prefix <= width && a < Pow2(width) && b < Pow2(width)
    ensures ShiftRight(a, width - prefix) == ShiftRight(b, width - prefix) <==> SamePrefix(a, b, width, prefix)
    decreases prefix
  {
    var shift := width - prefix;
    if prefix > 0 {
      ShiftsAgree(a, b, width, prefix - 1);
      ShiftStep(a, shift);
      ShiftStep(b, shift);
      BitIsBit(a, shift);
      BitIsBit(b, shift);
      assert SamePrefix(a, b, width, prefix) <==> SamePrefix(a, b, width, prefix - 1) && Bit(a, shift) == Bit(b, shift);
    } else {
      ShiftedOut(a, width);
      ShiftedOut(b, width);
    }
  }

  lemma {:induction false} GroupsBound(groups: seq<nat>)
    requires Words(groups)
    ensures GroupsValue(groups) < Pow2(16 * |groups|)
  {
    if groups != [] {
      GroupsBound(groups[..|groups| - 1]);
      Pow2Group(16 * (|groups| - 1));
    }
  }

  lemma {:induction false} HexBound(g: string, digits: nat)
    requires |g| <= digits <= 4
    ensures HexValue(g) < (match digits case 0 => 1 case 1 => 16 case 2 => 256 case 3 => 4096 case _ => 0x1_0000)
    decreases digits
  {
    if g != "" {
      HexBound(g[..|g| - 1], digits - 1);
    }
  }

  lemma Ipv4Bound(s: string)
    requires Ipv4(s).Some?
    ensures Ipv4(s).value < Pow2(32)
  {
    OctetsBound(Split(s, "."));
  }

  /** A parsed IPv6 literal is a 128-bit number. */
  lemma Ipv6Bound(s: string)
    requires Ipv6(s).Some?
    ensures Ipv6(s).value < Pow2(128)
  {
    var halves := Split(s, "::");
    SideBound(halves[0]);
    if |halves| == 2 {
      SideBound(halves[1]);
    }
    GroupsBound(AllEight(halves).value);
  }

  lemma SideBound(side: string)
    requires Groups(side).Some?
    ensures Words(Groups(side).value)
  {
    if side != "" {
      var parts := Split(side, ":");
      forall i | 0 <= i < |parts|
        ensures GroupValues(parts)[i] < 0x1_0000
      {
        assert parts[i] in parts;
        HexBound(parts[i], 4);
      }
    }
  }

  /** Both are addresses, and their first `prefix` bits agree. */
  ghost predicate Matches(host: Option<nat>, base: Option<nat>, width: nat, prefix: nat) {
    prefix <= width && host.Some? && base.Some? && SamePrefix(host.value, base.value, width, prefix)
  }

  /** The block test: an address of the base's family that agrees with the base on the first
      `prefix` bits, from prefix 0 (where a 32-bit shift would do nothing) up to full length. */
  method InCidrBlock(host: string, base: string, prefixText: string) returns (inside: bool)
    ensures inside <==> AllDigits(prefixText)
                        && if ':' in base then Matches(Ipv6(host), Ipv6(base), 128, Decimal(prefixText))
                           else Matches(Ipv4(host), Ipv4(base), 32, Decimal(prefixText))
  {
    if !AllDigits(prefixText) {
      return false;
    }
    if ':' in base {
      inside := InIpv6Block(host, base, Decimal(prefixText));
    } else {
      inside := InIpv4Block(host, base, Decimal(prefixText));
    }
  }

  method InIpv6Block(host: string, base: string, prefix: nat) returns (inside: bool)
    ensures inside <==> Matches(Ipv6(host), Ipv6(base), 128, prefix)
  {
    if prefix > 128 {
      return false;
    }
    var hostNum := ParseIpv6(host);
    var baseNum := ParseIpv6(base);
    if hostNum.None? || baseNum.None? {
      return false;
    }
    Ipv6Bound(host);
    Ipv6Bound(base);
    ShiftsAgree(hostNum.value, baseNum.value, 128, prefix);
    return ShiftRight(hostNum.value, 128 - prefix) == ShiftRight(baseNum.value, 128 - prefix);
  }

  method InIpv4Block(host: string, base: string, prefix: nat) returns (inside: bool)
    ensures inside <==> Matches(Ipv4(host), Ipv4(base), 32, prefix)
  {
    if prefix > 32 {
      return false;
    }
    var hostNum := ParseIpv4(host);
    var baseNum := ParseIpv4(base);
    if hostNum.None? || baseNum.None? {
      return false;
    }
    Ipv4Bound(host);
    Ipv4Bound(base);
    ShiftsAgree(hostNum.value, baseNum.value, 32, prefix);
    return prefix == 0 || ShiftRight(hostNum.value, 32 - prefix) == ShiftRight(baseNum.value, 32 - prefix);
  }
}
