/**
 * The RouterOS API wire format: length prefixes, words, sentences, and a parser that is run
 * again on everything received so far whenever a chunk arrives.
 */
module ApiCodec {
  import opened Prelude
  import Text

  type Byte = b: int | 0 <= b < 256
  type Word = seq<Byte>
  type Sentence = seq<Word>

  const MAX_LENGTH: nat := 0x1_0000_0000

  // ---- The length prefix -----------------------------------------------------------------

  /** What the shifts see: `>>` and `>>>` first take a number modulo 2^32. */
  function Word32(n: nat): nat {
    n % MAX_LENGTH
  }

  /** One to five bytes. The tag bits are clear in the length's top byte, so `|` is `+`. */
  function EncodeLength(n: nat): seq<Byte> {
    var w := Word32(n);
    if n < 0x80 then [n]
    else if n < 0x4000 then [w / 0x100 + 0x80, w % 256]
    else if n < 0x20_0000 then [w / 0x1_0000 + 0xc0, w / 0x100 % 256, w % 256]
    else if n < 0x1000_0000 then [w / 0x100_0000 + 0xe0, w / 0x1_0000 % 256, w / 0x100 % 256, w % 256]
    else [0xf0, w / 0x100_0000 % 256, w / 0x1_0000 % 256, w / 0x100 % 256, w % 256]
  }

  datatype Prefix = Prefix(length: nat, size: nat)

  /** The size of a length prefix, from the tag bits of its first byte. */
  function PrefixSize(first: Byte): nat {
    if first < 0x80 then 1 else if first < 0xc0 then 2 else if first < 0xe0 then 3 else if first < 0xf0 then 4 else 5
  }

  /** The length bits of a prefix's first byte: what is left when its tag bits are cleared. */
  function LengthBits(first: Byte): nat {
    if first < 0x80 then first
    else if first < 0xc0 then first - 0x80
    else if first < 0xe0 then first - 0xc0
    else if first < 0xf0 then first - 0xe0
    else 0
  }

  function BigEndian(high: nat, bytes: seq<Byte>): nat
    decreases |bytes|
  {
    if bytes == [] then high else BigEndian(high * 256 + bytes[0], bytes[1..])
  }

  /** The length prefix at the start of `buf`, if all of it is there. */
  function DecodeLength(buf: seq<Byte>): (prefix: Option<Prefix>)
    ensures prefix.Some? ==> 1 <= prefix.value.size <= |buf|
  {
    if buf == [] || |buf| < PrefixSize(buf[0]) then None
    else Some(Prefix(BigEndian(LengthBits(buf[0]), buf[1..PrefixSize(buf[0])]), PrefixSize(buf[0])))
  }

  lemma {:induction false} BigEndianSnoc(high: nat, bytes: seq<Byte>, b: Byte)
    ensures BigEndian(high, bytes + [b]) == BigEndian(high, bytes) * 256 + b
    decreases |bytes|
  {
    if bytes == [] {
      assert BigEndian(high * 256 + b, []) == high * 256 + b;
      assert (bytes + [b])[1..] == [];
    } else {
      BigEndianSnoc(high * 256 + bytes[0], bytes[1..], b);
      assert (bytes + [b])[1..] == bytes[1..] + [b];
    }
  }

  method ReadLength(buf: array<Byte>, offset: nat) returns (prefix: Option<Prefix>)
    requires offset <= buf.Length
    ensures prefix == DecodeLength(buf[offset..])
  {
    if offset == buf.Length {
      return None;
    }
    var first := buf[offset];
    var size := PrefixSize(first);
    if buf.Length < offset + size {
      return None;
    }
    var length: nat := LengthBits(first);
    for i := 1 to size
      invariant length == BigEndian(LengthBits(first), buf[offset + 1..offset + i])
    {
      BigEndianSnoc(LengthBits(first), buf[offset + 1..offset + i], buf[offset + i]);
      assert buf[offset + 1..offset + i + 1] == buf[offset + 1..offset + i] + [buf[offset + i]];
      length := length * 256 + buf[offset + i];
    }
    assert buf[offset..][1..size] == buf[offset + 1..offset + size];
    return Some(Prefix(length, size));
  }

  lemma BigEndian1(high: nat, a: Byte)
    ensures BigEndian(high, [a]) == high * 256 + a
  {
    assert [a][1..] == [];
  }

  lemma BigEndian2(high: nat, a: Byte, b: Byte)
    ensures BigEndian(high, [a, b]) == (high * 256 + a) * 256 + b
  {
    BigEndian1(high, a);
    BigEndianSnoc(high, [a], b);
    assert [a, b] == [a] + [b];
  }

  lemma BigEndian3(high: nat, a: Byte, b: Byte, c: Byte)
    ensures BigEndian(high, [a, b, c]) == ((high * 256 + a) * 256 + b) * 256 + c
  {
    BigEndian2(high, a, b);
    BigEndianSnoc(high, [a, b], c);
    assert [a, b, c] == [a, b] + [c];
  }

  lemma BigEndian4(high: nat, a: Byte, b: Byte, c: Byte, d: Byte)
    ensures BigEndian(high, [a, b, c, d]) == (((high * 256 + a) * 256 + b) * 256 + c) * 256 + d
  {
    BigEndian3(high, a, b, c);
    BigEndianSnoc(high, [a, b, c], d);
    assert [a, b, c, d] == [a, b, c] + [d];
  }

  /** The four bytes of a number below 2^32. */
  lemma Digits(x: nat)
    requires x < MAX_LENGTH
    ensures x == x / 0x100 * 256 + x % 256
    ensures x / 0x100 == x / 0x1_0000 * 256 + x / 0x100 % 256
    ensures x / 0x1_0000 == x / 0x100_0000 * 256 + x / 0x1_0000 % 256
    ensures x / 0x100_0000 == x / 0x100_0000 % 256
  {
    QuotientOfQuotient(x, 0x100);
    QuotientOfQuotient(x, 0x1_0000);
  }

  lemma QuotientOfQuotient(x: nat, n: nat)
    requires n == 0x100 || n == 0x1_0000
    ensures x / n / 256 == x / (n * 256)
  {
  }

  /** The length bits of the first byte with the other bytes behind them are the length. */
  ghost predicate CodeIs(code: seq<Byte>, n: nat) {
    code != [] && PrefixSize(code[0]) == |code| && BigEndian(LengthBits(code[0]), code[1..]) == n
  }

  lemma Code1(n: nat)
    requires n < 0x80
    ensures CodeIs([n], n)
  {
    assert [n as Byte][1..] == [];
  }

  lemma Code2(n: nat)
    requires 0x80 <= n < 0x4000
    ensures CodeIs([n / 0x100 + 0x80, n % 256], n)
  {
    BigEndian1(n / 0x100, n % 256);
    assert [n / 0x100 + 0x80, n % 256][1..] == [n % 256];
  }

  lemma Code3(n: nat)
    requires 0x4000 <= n < 0x20_0000
    ensures CodeIs([n / 0x1_0000 + 0xc0, n / 0x100 % 256, n % 256], n)
  {
    BigEndian2(n / 0x1_0000, n / 0x100 % 256, n % 256);
    Digits(n);
    assert [n / 0x1_0000 + 0xc0, n / 0x100 % 256, n % 256][1..] == [n / 0x100 % 256, n % 256];
  }

  lemma Code4(n: nat)
    requires 0x20_0000 <= n < 0x1000_0000
    ensures CodeIs([n / 0x100_0000 + 0xe0, n / 0x1_0000 % 256, n / 0x100 % 256, n % 256], n)
  {
    BigEndian3(n / 0x100_0000, n / 0x1_0000 % 256, n / 0x100 % 256, n % 256);
    Digits(n);
    assert [n / 0x100_0000 + 0xe0, n / 0x1_0000 % 256, n / 0x100 % 256, n % 256][1..]
           == [n / 0x1_0000 % 256, n / 0x100 % 256, n % 256];
  }

  lemma Code5(w: nat)
    requires w < MAX_LENGTH
    ensures CodeIs([0xf0, w / 0x100_0000 % 256, w / 0x1_0000 % 256, w / 0x100 % 256, w % 256], w)
  {
    BigEndian4(0, w / 0x100_0000 % 256, w / 0x1_0000 % 256, w / 0x100 % 256, w % 256);
    Digits(w);
    assert [0xf0, w / 0x100_0000 % 256, w / 0x1_0000 % 256, w / 0x100 % 256, w % 256][1..]
           == [w / 0x100_0000 % 256, w / 0x1_0000 % 256, w / 0x100 % 256, w % 256];
  }

  lemma FitsWord(n: nat)
    ensures Word32(n) < MAX_LENGTH && (n < MAX_LENGTH ==> Word32(n) == n)
  {
  }

  lemma CodeValue(n: nat)
    ensures CodeIs(EncodeLength(n), Word32(n))
  {
    hide CodeIs, Word32;
    FitsWord(n);
    if n < 0x80 {
      Code1(n);
    } else if n < 0x4000 {
      Code2(n);
    } else if n < 0x20_0000 {
      Code3(n);
    } else if n < 0x1000_0000 {
      Code4(n);
    } else {
      Code5(Word32(n));
    }
  }

  /** The bytes of a length: the shortest of the five forms that holds it, told apart by the top
      bits of the first byte, with the remaining bits as the length, highest byte first. */
  lemma LengthBytes(n: nat)
    requires n < 0x1_0000_0000
    ensures var c := EncodeLength(n);
            && (n < 0x80 <==> |c| == 1) && (0x80 <= n < 0x4000 <==> |c| == 2) && (0x4000 <= n < 0x20_0000 <==> |c| == 3)
            && (0x20_0000 <= n < 0x1000_0000 <==> |c| == 4) && (0x1000_0000 <= n <==> |c| == 5)
            && (|c| == 1 ==> (c[0] as int) / 0x80 == 0 && (c[0] as int) % 0x80 == n)
            && (|c| == 2 ==> (c[0] as int) / 0x40 == 2 && (c[0] as int) % 0x40 * 0x100 + (c[1] as int) == n)
            && (|c| == 3 ==> (c[0] as int) / 0x20 == 6 && (c[0] as int) % 0x20 * 0x1_0000 + (c[1] as int) * 0x100 + c[2] == n)
            && (|c| == 4 ==> (c[0] as int) / 0x10 == 14
                             && (c[0] as int) % 0x10 * 0x100_0000 + (c[1] as int) * 0x1_0000 + (c[2] as int) * 0x100 + c[3] == n)
            && (|c| == 5 ==> c[0] == 0xf0 && (c[1] as int) * 0x100_0000 + (c[2] as int) * 0x1_0000 + (c[3] as int) * 0x100 + c[4] == n)
  {
    FitsWord(n);
    Digits(n);
  }

  /** Any prefix that is read, the shortest form or not: its size by the first byte, and its value
      by the bits behind the tag, highest byte first. */
  lemma PrefixBytes(buf: seq<Byte>)
    ensures DecodeLength(buf) == None
            <==> buf == [] || (buf[0] >= 0x80 && |buf| < 2) || (buf[0] >= 0xc0 && |buf| < 3)
                 || (buf[0] >= 0xe0 && |buf| < 4) || (buf[0] >= 0xf0 && |buf| < 5)
    ensures DecodeLength(buf).Some? ==>
              var prefix := DecodeLength(buf).value;
              && (buf[0] < 0x80 ==> prefix == Prefix(buf[0], 1))
              && (0x80 <= buf[0] < 0xc0 ==> prefix == Prefix((buf[0] as int - 0x80) * 0x100 + buf[1], 2))
              && (0xc0 <= buf[0] < 0xe0 ==>
                    prefix == Prefix((buf[0] as int - 0xc0) * 0x1_0000 + (buf[1] as int) * 0x100 + buf[2], 3))
              && (0xe0 <= buf[0] < 0xf0 ==>
                    prefix == Prefix((buf[0] as int - 0xe0) * 0x100_0000 + (buf[1] as int) * 0x1_0000
                                     + (buf[2] as int) * 0x100 + buf[3], 4))
              && (0xf0 <= buf[0] ==>
                    prefix == Prefix((buf[1] as int) * 0x100_0000 + (buf[2] as int) * 0x1_0000
                                     + (buf[3] as int) * 0x100 + buf[4], 5))
  {
    hide BigEndian;
    if DecodeLength(buf).Some? {
      var high, size := LengthBits(buf[0]), PrefixSize(buf[0]);
      if size == 1 {
        BigEndian0(high);
        assert buf[1..1] == [];
      } else if size == 2 {
        BigEndian1(high, buf[1]);
        assert buf[1..2] == [buf[1]];
      } else if size == 3 {
        BigEndian2(high, buf[1], buf[2]);
        assert buf[1..3] == [buf[1], buf[2]];
      } else if size == 4 {
        BigEndian3(high, buf[1], buf[2], buf[3]);
        assert buf[1..4] == [buf[1], buf[2], buf[3]];
      } else {
        BigEndian4(high, buf[1], buf[2], buf[3], buf[4]);
        assert buf[1..5] == [buf[1], buf[2], buf[3], buf[4]];
      }
    }
  }

  lemma BigEndian0(high: nat)
    ensures BigEndian(high, []) == high
  {
  }

  /** Whatever follows, what is decoded is the length modulo 2^32, and the prefix's own size. */
  lemma LengthModulo(n: nat, rest: seq<Byte>)
    ensures DecodeLength(EncodeLength(n) + rest) == Some(Prefix(n % MAX_LENGTH, |EncodeLength(n)|))
  {
    CodeValue(n);
    var code := EncodeLength(n);
    assert (code + rest)[1..|code|] == code[1..];
  }

  /** Decoding inverts encoding exactly for the lengths below 2^32. */
  lemma LengthRoundTrip(n: nat, rest: seq<Byte>)
    ensures DecodeLength(EncodeLength(n) + rest) == Some(Prefix(n, |EncodeLength(n)|)) <==> n < MAX_LENGTH
  {
    LengthModulo(n, rest);
  }

  // ---- Sentences -------------------------------------------------------------------------

  function EncodeWords(words: Sentence): seq<Byte> {
    if words == [] then [] else EncodeLength(|words[0]|) + words[0] + EncodeWords(words[1..])
  }

  function EncodeSentence(words: Sentence): seq<Byte> {
    EncodeWords(words) + [0]
  }

  function EncodeAll(sentences: seq<Sentence>): seq<Byte> {
    if sentences == [] then [] else EncodeSentence(sentences[0]) + EncodeAll(sentences[1..])
  }

  function Flatten(parts: seq<seq<Byte>>): seq<Byte> {
    if parts == [] then [] else Flatten(parts[..|parts| - 1]) + parts[|parts| - 1]
  }

  lemma FlattenMore(parts: seq<seq<Byte>>, part: seq<Byte>)
    ensures Flatten(parts + [part]) == Flatten(parts) + part
  {
    assert (parts + [part])[..|parts|] == parts;
  }

  lemma {:induction false} EncodeWordsSnoc(words: Sentence, word: Word)
    ensures EncodeWords(words + [word]) == EncodeWords(words) + EncodeLength(|word|) + word
    decreases |words|
  {
    if words == [] {
      assert words + [word] == [word] && [word][1..] == [];
    } else {
      EncodeWordsSnoc(words[1..], word);
      assert (words + [word])[1..] == words[1..] + [word];
    }
  }

  lemma {:induction false} FlattenPrefix(parts: seq<seq<Byte>>, k: nat)
    requires k <= |parts|
    ensures |Flatten(parts[..k])| <= |Flatten(parts)|
    decreases |parts| - k
  {
    if k == |parts| {
      assert parts[..k] == parts;
    } else {
      FlattenMore(parts[..k], parts[k]);
      assert parts[..k + 1] == parts[..k] + [parts[k]];
      FlattenPrefix(parts, k + 1);
    }
  }

  /** The length prefix and the bytes of each word, and a zero byte at the end. */
  method Parts(words: Sentence) returns (parts: seq<seq<Byte>>)
    ensures Flatten(parts) == EncodeSentence(words)
  {
    parts := [];
    for i := 0 to |words|
      invariant Flatten(parts) == EncodeWords(words[..i])
    {
      FlattenMore(parts, EncodeLength(|words[i]|));
      FlattenMore(parts + [EncodeLength(|words[i]|)], words[i]);
      EncodeWordsSnoc(words[..i], words[i]);
      assert words[..i + 1] == words[..i] + [words[i]];
      parts := parts + [EncodeLength(|words[i]|)] + [words[i]];
    }
    assert words[..|words|] == words;
    FlattenMore(parts, [0]);
    parts := parts + [[0]];
  }

  method TotalLength(parts: seq<seq<Byte>>) returns (total: nat)
    ensures total == |Flatten(parts)|
  {
    total := 0;
    for i := 0 to |parts|
      invariant total == |Flatten(parts[..i])|
    {
      assert parts[..i + 1] == parts[..i] + [parts[i]];
      FlattenMore(parts[..i], parts[i]);
      total := total + |parts[i]|;
    }
    assert parts[..|parts|] == parts;
  }

  /** The parts are collected, their total length is allocated, and each is copied behind the
      one before it. */
  method WriteSentence(words: Sentence) returns (out: array<Byte>)
    ensures fresh(out) && out[..] == EncodeSentence(words)
  {
    var parts := Parts(words);
    var total := TotalLength(parts);
    out := new Byte[total];
    var offset := 0;
    for i := 0 to |parts|
      invariant offset == |Flatten(parts[..i])| <= out.Length == |Flatten(parts)|
      invariant out[..offset] == Flatten(parts[..i])
    {
      assert parts[..i + 1] == parts[..i] + [parts[i]];
      FlattenMore(parts[..i], parts[i]);
      FlattenPrefix(parts, i + 1);
      CopyInto(out, offset, parts[i]);
      offset := offset + |parts[i]|;
    }
    assert parts[..|parts|] == parts;
  }

  /** Uint8Array.set: the bytes before and behind the part stay as they are. */
  method CopyInto(out: array<Byte>, offset: nat, part: seq<Byte>)
    requires offset + |part| <= out.Length
    modifies out
    ensures out[..offset + |part|] == old(out[..offset]) + part
    ensures out[offset + |part|..] == old(out[offset + |part|..])
  {
    forall k | 0 <= k < |part| {
      out[offset + k] := part[k];
    }
  }

  /** The first word of `buf` with the number of bytes it takes, if all of it is there. */
  function NextWord(buf: seq<Byte>): (next: Option<(Word, nat)>)
    ensures next.Some? ==> 1 <= next.value.1 <= |buf|
  {
    match DecodeLength(buf)
    case None => None
    case Some(p) =>
      if |buf| < p.size + p.length then None else Some((buf[p.size..p.size + p.length], p.size + p.length))
  }

  /** The complete sentences of `buf`, the first of them going on from `words`. */
  function Parse(words: Sentence, buf: seq<Byte>): seq<Sentence>
    decreases |buf|
  {
    match NextWord(buf)
    case None => []
    case Some((word, used)) =>
      if word == [] then [words] + Parse([], buf[used..]) else Parse(words + [word], buf[used..])
  }

  lemma SliceOfSlice(buf: seq<Byte>, offset: nat, m: nat, n: nat)
    requires offset <= |buf| && m <= n && offset + n <= |buf|
    ensures buf[offset..][m..n] == buf[offset + m..offset + n]
    ensures buf[offset..][n..] == buf[offset + n..]
  {
  }

  lemma WordRead(sentences: seq<Sentence>, words: Sentence, rest: seq<Byte>, word: Word, used: nat)
    requires NextWord(rest) == Some((word, used))
    ensures sentences + Parse(words, rest)
            == if word == [] then sentences + [words] + Parse([], rest[used..])
               else sentences + Parse(words + [word], rest[used..])
  {
    hide NextWord;
  }

  lemma WordThere(rest: seq<Byte>, size: nat, length: nat)
    requires DecodeLength(rest) == Some(Prefix(length, size)) && size + length <= |rest|
    ensures NextWord(rest) == Some((rest[size..size + length], size + length))
  {
  }

  lemma WordMissing(words: Sentence, rest: seq<Byte>)
    requires DecodeLength(rest).None? || |rest| < DecodeLength(rest).value.size + DecodeLength(rest).value.length
    ensures Parse(words, rest) == []
  {
  }

  method ParseSentences(buf: array<Byte>) returns (sentences: seq<Sentence>)
    ensures sentences == Parse([], buf[..])
  {
    hide Parse, NextWord, DecodeLength;
    sentences := [];
    var words: Sentence := [];
    var offset := 0;
    ghost var rest, all := buf[..], Parse([], buf[..]);
    while offset < buf.Length
      invariant offset <= buf.Length && rest == buf[offset..]
      invariant sentences + Parse(words, rest) == all
    {
      var prefix := ReadLength(buf, offset);
      if prefix.None? || buf.Length < offset + prefix.value.size + prefix.value.length {
        WordMissing(words, rest);
        break;
      }
      var size, length := prefix.value.size, prefix.value.length;
      SliceOfSlice(buf[..], offset, size, size + length);
      WordThere(rest, size, length);
      ghost var word := rest[size..size + length];
      WordRead(sentences, words, rest, word, size + length);
      rest := rest[size + length..];
      offset := offset + size;
      if length == 0 {
        sentences := sentences + [words];
        words := [];
      } else {
        assert buf[offset..offset + length] == word;
        words := words + [buf[offset..offset + length]];
        offset := offset + length;
      }
    }
    if offset == buf.Length {
      NothingLeft(words);
    }
  }

  lemma NothingLeft(words: Sentence)
    ensures Parse(words, []) == []
  {
  }

  // ---- Round trip ------------------------------------------------------------------------

  /** The lengths the format can carry. */
  predicate Encodable(words: Sentence) {
    forall i :: 0 <= i < |words| ==> |words[i]| < MAX_LENGTH
  }

  predicate NoEmptyWord(words: Sentence) {
    forall i :: 0 <= i < |words| ==> words[i] != []
  }

  lemma NextOfEncoded(word: Word, rest: seq<Byte>)
    requires |word| < MAX_LENGTH
    ensures var code := EncodeLength(|word|) + word;
            NextWord(code + rest) == Some((word, |code|)) && (code + rest)[|code|..] == rest
  {
    hide EncodeLength, DecodeLength;
    var code := EncodeLength(|word|);
    LengthModulo(|word|, word + rest);
    assert code + word + rest == code + (word + rest);
  }

  lemma NoWordCode()
    ensures EncodeLength(0) == [0]
  {
  }

  /** How a word list is cut at its empty words: an empty word on the wire ends a sentence. */
  function CutAtEmpty(words: Sentence, more: Sentence): seq<Sentence>
    decreases |more|
  {
    if more == [] then [words]
    else if more[0] == [] then [words] + CutAtEmpty([], more[1..])
    else CutAtEmpty(words + [more[0]], more[1..])
  }

  lemma {:induction false} ParseEncoded(words: Sentence, more: Sentence, rest: seq<Byte>)
    requires Encodable(more)
    ensures Parse(words, EncodeSentence(more) + rest) == CutAtEmpty(words, more) + Parse([], rest)
    decreases |more|
  {
    hide NextWord, EncodeLength;
    if more == [] {
      NextOfEncoded([], rest);
      NoWordCode();
      assert EncodeSentence(more) + rest == EncodeLength(0) + [] + rest;
    } else {
      var tail := EncodeSentence(more[1..]) + rest;
      NextOfEncoded(more[0], tail);
      assert EncodeSentence(more) + rest == EncodeLength(|more[0]|) + more[0] + tail;
      if more[0] == [] {
        ParseEncoded([], more[1..], rest);
      } else {
        ParseEncoded(words + [more[0]], more[1..], rest);
      }
    }
  }

  lemma {:induction false} CutCount(words: Sentence, more: Sentence)
    ensures |CutAtEmpty(words, more)| >= 1
    ensures CutAtEmpty(words, more) == [words + more] <==> NoEmptyWord(more)
    decreases |more|
  {
    if more == [] {
      assert words + more == words;
    } else if more[0] == [] {
      CutCount([], more[1..]);
      assert |CutAtEmpty(words, more)| >= 2;
    } else {
      CutCount(words + [more[0]], more[1..]);
      assert words + [more[0]] + more[1..] == words + more;
      assert NoEmptyWord(more[1..]) ==> NoEmptyWord(more) by {
        assert more == [more[0]] + more[1..];
      }
      assert NoEmptyWord(more) ==> NoEmptyWord(more[1..]);
    }
  }

  /** A sentence survives the wire exactly when it has no empty word. */
  lemma SentenceRoundTrip(words: Sentence, rest: seq<Byte>)
    requires Encodable(words)
    ensures Parse([], EncodeSentence(words) + rest) == [words] + Parse([], rest) <==> NoEmptyWord(words)
  {
    ParseEncoded([], words, rest);
    CutCount([], words);
    assert [] + words == words;
    var cut, tail := CutAtEmpty([], words), Parse([], rest);
    if cut + tail == [words] + tail {
      assert |cut| == 1 && cut[0] == (cut + tail)[0] == words;
    }
  }

  /** Any encoded sentences, then any tail: exactly those sentences, then the tail's own. */
  lemma {:induction false} StreamRoundTrip(sentences: seq<Sentence>, tail: seq<Byte>)
    requires forall i :: 0 <= i < |sentences| ==> Encodable(sentences[i]) && NoEmptyWord(sentences[i])
    ensures Parse([], EncodeAll(sentences) + tail) == sentences + Parse([], tail)
    decreases |sentences|
  {
    hide Parse, EncodeSentence;
    if sentences == [] {
      assert EncodeAll(sentences) + tail == tail;
    } else {
      var rest := EncodeAll(sentences[1..]) + tail;
      assert EncodeAll(sentences) + tail == EncodeSentence(sentences[0]) + rest;
      StreamRoundTrip(sentences[1..], tail);
      FirstOfStream(sentences[0], sentences[1..], rest, Parse([], tail));
    }
  }

  lemma FirstOfStream(first: Sentence, others: seq<Sentence>, rest: seq<Byte>, after: seq<Sentence>)
    requires Encodable(first) && NoEmptyWord(first) && Parse([], rest) == others + after
    ensures Parse([], EncodeSentence(first) + rest) == [first] + others + after
  {
    hide Parse, EncodeSentence;
    SentenceRoundTrip(first, rest);
  }

  // ---- Streaming -------------------------------------------------------------------------

  /** A word that is there stays there, with the same bytes, whatever is received after it. */
  lemma NextWordGrows(p: seq<Byte>, q: seq<Byte>)
    requires NextWord(p).Some?
    ensures NextWord(p + q) == NextWord(p)
    ensures (p + q)[NextWord(p).value.1..] == p[NextWord(p).value.1..] + q
  {
    var size := PrefixSize(p[0]);
    assert (p + q)[1..size] == p[1..size];
    var n := DecodeLength(p).value.length;
    assert (p + q)[size..size + n] == p[size..size + n];
  }

  /** For arbitrary bytes, the parse of a prefix is a prefix of the parse of the whole. */
  lemma {:induction false} ParseGrows(words: Sentence, p: seq<Byte>, q: seq<Byte>)
    ensures Parse(words, p) <= Parse(words, p + q)
    decreases |p|
  {
    match NextWord(p)
    case None =>
    case Some((word, used)) =>
      NextWordGrows(p, q);
      if word == [] {
        ParseGrows([], p[used..], q);
      } else {
        ParseGrows(words + [word], p[used..], q);
      }
  }

  lemma TakeSlice(buf: seq<Byte>, n: nat, i: nat, j: nat)
    requires i <= j <= n <= |buf|
    ensures buf[..n][i..j] == buf[i..j]
  {
  }

  /** Cut behind it, a word is still there. */
  lemma NextWordOfCut(buf: seq<Byte>, n: nat)
    requires NextWord(buf).Some? && NextWord(buf).value.1 <= n <= |buf|
    ensures NextWord(buf[..n]) == NextWord(buf)
    ensures buf[..n][NextWord(buf).value.1..] == buf[NextWord(buf).value.1..][..n - NextWord(buf).value.1]
  {
    var size, used := PrefixSize(buf[0]), NextWord(buf).value.1;
    TakeSlice(buf, n, 1, size);
    TakeSlice(buf, n, size, used);
  }

  /** Where to cut the bytes so that exactly the first `k` sentences are complete. */
  lemma {:induction false} CutAfter(words: Sentence, buf: seq<Byte>, k: nat) returns (n: nat)
    requires k <= |Parse(words, buf)|
    ensures n <= |buf| && Parse(words, buf[..n]) == Parse(words, buf)[..k]
    decreases |buf|
  {
    hide NextWord;
    if k == 0 {
      n := 0;
      assert buf[..0] == [];
    } else {
      var (word, used) := NextWord(buf).value;
      if word == [] {
        var m := CutAfter([], buf[used..], k - 1);
        n := used + m;
        NextWordOfCut(buf, n);
        assert Parse(words, buf[..n]) == [words] + Parse([], buf[used..])[..k - 1];
      } else {
        var m := CutAfter(words + [word], buf[used..], k);
        n := used + m;
        NextWordOfCut(buf, n);
      }
    }
  }

  // ---- The login reply -------------------------------------------------------------------

  datatype LoginResult = LoggedIn | Trap(message: seq<Byte>) | Fatal(message: seq<Byte>)

  function Ascii(s: string): seq<Byte>
    requires forall i :: 0 <= i < |s| ==> s[i] < 128 as char
  {
    seq(|s|, i requires 0 <= i < |s| => s[i] as int)
  }

  function FirstMessage(words: Sentence): Option<seq<Byte>> {
    if words == [] then None
    else if Ascii("=message=") <= words[0] then Some(words[0][|Ascii("=message=")|..])
    else FirstMessage(words[1..])
  }

  function MessageOf(sentence: Sentence): seq<Byte> {
    match FirstMessage(sentence)
    case Some(m) => m
    case None => if sentence == [] then [] else Text.Join(sentence[1..], Ascii(" "))
  }

  predicate Is(sentence: Sentence, reply: string)
    requires forall i :: 0 <= i < |reply| ==> reply[i] < 128 as char
  {
    sentence != [] && sentence[0] == Ascii(reply)
  }

  /** The first sentence that is this reply. */
  function Find(sentences: seq<Sentence>, reply: string): Option<Sentence>
    requires forall i :: 0 <= i < |reply| ==> reply[i] < 128 as char
  {
    if sentences == [] then None
    else if Is(sentences[0], reply) then Some(sentences[0])
    else Find(sentences[1..], reply)
  }

  /** What the sentences say, None while the login is still unanswered. */
  function Classify(sentences: seq<Sentence>): Option<LoginResult> {
    match Find(sentences, "!fatal")
    case Some(fatal) => Some(Fatal(MessageOf(fatal)))
    case None =>
      if Find(sentences, "!done").None? then None
      else
        match Find(sentences, "!trap")
        case Some(trap) => Some(Trap(MessageOf(trap)))
        case None => Some(LoggedIn)
  }

  /** The first of the sentences that are this reply. */
  ghost predicate First(sentences: seq<Sentence>, reply: string, sentence: Sentence)
    requires forall i :: 0 <= i < |reply| ==> reply[i] < 128 as char
  {
    exists k :: 0 <= k < |sentences| && sentences[k] == sentence && Is(sentence, reply)
                && forall j :: 0 <= j < k ==> !Is(sentences[j], reply)
  }

  lemma {:induction false} FindIsFirst(sentences: seq<Sentence>, reply: string)
    requires forall i :: 0 <= i < |reply| ==> reply[i] < 128 as char
    ensures match Find(sentences, reply)
            case Some(sentence) => First(sentences, reply, sentence)
            case None => forall k :: 0 <= k < |sentences| ==> !Is(sentences[k], reply)
  {
    if sentences != [] && !Is(sentences[0], reply) {
      FindIsFirst(sentences[1..], reply);
      assert forall k :: 1 <= k < |sentences| ==> sentences[k] == sentences[1..][k - 1];
      if Find(sentences, reply).Some? {
        var sentence := Find(sentences, reply).value;
        var k :| 0 <= k < |sentences| - 1 && sentences[1..][k] == sentence
                 && forall j :: 0 <= j < k ==> !Is(sentences[1..][j], reply);
        assert sentences[k + 1] == sentence;
        assert forall j :: 0 <= j < k + 1 ==> !Is(sentences[j], reply);
      }
    }
  }

  ghost predicate Says(sentences: seq<Sentence>, reply: string)
    requires forall i :: 0 <= i < |reply| ==> reply[i] < 128 as char
  {
    exists k :: 0 <= k < |sentences| && Is(sentences[k], reply)
  }

  /** What an answer means: a fatal reply ends the session whatever else was said; otherwise the
      login is answered by a done, and refused exactly if there was a trap. */
  lemma ClassifyAnswers(sentences: seq<Sentence>)
    ensures Classify(sentences).None? <==> !Says(sentences, "!fatal") && !Says(sentences, "!done")
    ensures Classify(sentences) == Some(LoggedIn)
            <==> !Says(sentences, "!fatal") && Says(sentences, "!done") && !Says(sentences, "!trap")
    ensures forall fatal :: First(sentences, "!fatal", fatal) ==> Classify(sentences) == Some(Fatal(MessageOf(fatal)))
    ensures forall trap :: First(sentences, "!trap", trap) && !Says(sentences, "!fatal") && Says(sentences, "!done") ==>
              Classify(sentences) == Some(Trap(MessageOf(trap)))
  {
    hide Is, MessageOf, Find;
    FindIsFirst(sentences, "!fatal");
    FindIsFirst(sentences, "!done");
    FindIsFirst(sentences, "!trap");
  }

  /** The message a sentence carries: what follows `=message=` in the first word that starts so,
      and without such a word everything behind the reply word, joined with blanks. */
  ghost predicate Tells(sentence: Sentence, message: seq<Byte>) {
    || (exists k :: 0 <= k < |sentence| && sentence[k] == Ascii("=message=") + message
                    && forall j :: 0 <= j < k ==> !(Ascii("=message=") <= sentence[j]))
    || (sentence != [] && message == Text.Join(sentence[1..], Ascii(" "))
        && forall j :: 0 <= j < |sentence| ==> !(Ascii("=message=") <= sentence[j]))
  }

  /** Word `k` is the first that starts with `=message=`. */
  ghost predicate FirstMark(words: Sentence, k: nat) {
    k < |words| && Ascii("=message=") <= words[k] && forall j :: 0 <= j < k ==> !(Ascii("=message=") <= words[j])
  }

  lemma {:induction false} FindMark(words: Sentence) returns (k: nat)
    ensures match FirstMessage(words)
            case Some(m) => FirstMark(words, k) && words[k] == Ascii("=message=") + m
            case None => forall j :: 0 <= j < |words| ==> !(Ascii("=message=") <= words[j])
  {
    hide Ascii;
    k := 0;
    if words != [] {
      var mark := Ascii("=message=");
      if mark <= words[0] {
        assert words[0] == mark + words[0][|mark|..];
      } else {
        var i := FindMark(words[1..]);
        assert forall j :: 1 <= j < |words| ==> words[j] == words[1..][j - 1];
        k := i + 1;
      }
    }
  }

  lemma FirstMessageIs(words: Sentence, message: seq<Byte>)
    ensures FirstMessage(words) == Some(message)
            <==> exists k :: 0 <= k < |words| && words[k] == Ascii("=message=") + message
                             && forall j :: 0 <= j < k ==> !(Ascii("=message=") <= words[j])
    ensures FirstMessage(words) == None <==> forall j :: 0 <= j < |words| ==> !(Ascii("=message=") <= words[j])
  {
    hide Ascii, FirstMessage;
    var mark := Ascii("=message=");
    var at := FindMark(words);
    if k :| 0 <= k < |words| && words[k] == mark + message && forall j :: 0 <= j < k ==> !(mark <= words[j]) {
      assert mark <= words[k];
      assert k == at;
      assert (mark + message)[|mark|..] == message;
      assert (mark + FirstMessage(words).value)[|mark|..] == FirstMessage(words).value;
    }
  }

  lemma MessageTold(sentence: Sentence, message: seq<Byte>)
    requires sentence != []
    ensures MessageOf(sentence) == message <==> Tells(sentence, message)
  {
    hide Ascii, FirstMessage;
    FirstMessageIs(sentence, message);
    match FirstMessage(sentence)
    case Some(m) => FirstMessageIs(sentence, m);
    case None =>
  }

  /** Sentence `i` is the first whose first word is `reply`. */
  ghost predicate FirstThat(sentences: seq<Sentence>, i: nat, reply: Word) {
    && i < |sentences| && sentences[i] != [] && sentences[i][0] == reply
    && forall j :: 0 <= j < i && sentences[j] != [] ==> sentences[j][0] != reply
  }

  ghost predicate Hears(sentences: seq<Sentence>, reply: Word) {
    exists i :: 0 <= i < |sentences| && sentences[i] != [] && sentences[i][0] == reply
  }

  lemma FoundIs(sentences: seq<Sentence>, reply: string, message: seq<Byte>)
    requires forall i :: 0 <= i < |reply| ==> reply[i] < 128 as char
    ensures Find(sentences, reply).Some? <==> Hears(sentences, Ascii(reply))
    ensures Find(sentences, reply).Some? && MessageOf(Find(sentences, reply).value) == message
            <==> exists i: nat :: FirstThat(sentences, i, Ascii(reply)) && Tells(sentences[i], message)
  {
    hide Find, MessageOf, Tells, Ascii;
    FindIsFirst(sentences, reply);
    if Find(sentences, reply).Some? {
      var sentence := Find(sentences, reply).value;
      MessageTold(sentence, message);
      var k: nat :| k < |sentences| && sentences[k] == sentence && Is(sentence, reply)
                    && forall j :: 0 <= j < k ==> !Is(sentences[j], reply);
      assert FirstThat(sentences, k, Ascii(reply));
      assert forall i: nat :: FirstThat(sentences, i, Ascii(reply)) ==> i == k;
    }
  }

  /** The whole answer, with its message, from the words of the sentences. */
  lemma AnswerExactly(sentences: seq<Sentence>, message: seq<Byte>)
    ensures Classify(sentences) == None
            <==> !Hears(sentences, Ascii("!fatal")) && !Hears(sentences, Ascii("!done"))
    ensures Classify(sentences) == Some(LoggedIn)
            <==> !Hears(sentences, Ascii("!fatal")) && Hears(sentences, Ascii("!done")) && !Hears(sentences, Ascii("!trap"))
    ensures Classify(sentences) == Some(Fatal(message))
            <==> exists i: nat :: FirstThat(sentences, i, Ascii("!fatal")) && Tells(sentences[i], message)
    ensures Classify(sentences) == Some(Trap(message))
            <==> && !Hears(sentences, Ascii("!fatal")) && Hears(sentences, Ascii("!done"))
                 && exists i: nat :: FirstThat(sentences, i, Ascii("!trap")) && Tells(sentences[i], message)
  {
    hide Find, MessageOf, Tells, Ascii, Hears, FirstThat;
    FoundIs(sentences, "!fatal", message);
    FoundIs(sentences, "!done", message);
    FoundIs(sentences, "!trap", message);
  }

  /** One login: the bytes received so far, and the outcome once there is one. */
  class Login {
    var received: array<Byte>
    var outcome: Option<LoginResult>

    constructor ()
      ensures fresh(received) && received[..] == [] && outcome == None
    {
      received := new Byte[0];
      outcome := None;
    }

    /** A chunk is appended and everything received is parsed again, until the login settles. */
    method OnData(chunk: seq<Byte>)
      modifies this
      ensures received[..] == old(received[..]) + chunk
      ensures outcome == if old(outcome).Some? then old(outcome) else Classify(Parse([], old(received[..]) + chunk))
    {
      hide Parse, Classify;
      var length := received.Length;
      var next := new Byte[length + |chunk|];
      forall k | 0 <= k < length {
        next[k] := received[k];
      }
      forall k | 0 <= k < |chunk| {
        next[length + k] := chunk[k];
      }
      assert next[..] == received[..] + chunk;
      received := next;
      var sentences := ParseSentences(received);
      var result := Classify(sentences);
      if outcome.None? {
        outcome := result;
      }
    }
  }

  function Concat(chunks: seq<seq<Byte>>): seq<Byte> {
    if chunks == [] then [] else chunks[0] + Concat(chunks[1..])
  }

  /** The outcome after these chunks: OnData once for each, `before` being what had come first. */
  function Outcome(before: seq<Byte>, outcome: Option<LoginResult>, chunks: seq<seq<Byte>>): Option<LoginResult>
    decreases |chunks|
  {
    if chunks == [] then outcome
    else
      var now := before + chunks[0];
      Outcome(now, if outcome.Some? then outcome else Classify(Parse([], now)), chunks[1..])
  }

  method RunLogin(chunks: seq<seq<Byte>>) returns (outcome: Option<LoginResult>)
    ensures outcome == Outcome([], None, chunks)
  {
    var login := new Login();
    for i := 0 to |chunks|
      invariant fresh(login)
      invariant Outcome(login.received[..], login.outcome, chunks[i..]) == Outcome([], None, chunks)
    {
      assert chunks[i..][1..] == chunks[i + 1..];
      login.OnData(chunks[i]);
    }
    outcome := login.outcome;
  }

  /** Every stage of the reply at which there is an answer has the final answer. */
  predicate Settled(sentences: seq<Sentence>) {
    forall k :: 0 <= k <= |sentences| && Classify(sentences[..k]).Some? ==> Classify(sentences[..k]) == Classify(sentences)
  }

  lemma {:induction false} OutcomeOfSettled(before: seq<Byte>, outcome: Option<LoginResult>, chunks: seq<seq<Byte>>, all: seq<Byte>)
    requires all == before + Concat(chunks) && Settled(Parse([], all))
    requires outcome == Classify(Parse([], before)) || (outcome.Some? && outcome == Classify(Parse([], all)))
    ensures Outcome(before, outcome, chunks) == Classify(Parse([], all))
    decreases |chunks|
  {
    ParseGrows([], before, Concat(chunks));
    assert Parse([], before) == Parse([], all)[..|Parse([], before)|];
    if chunks == [] {
      assert all == before;
    } else {
      var now := before + chunks[0];
      assert all == now + Concat(chunks[1..]);
      ParseGrows([], now, Concat(chunks[1..]));
      OutcomeOfSettled(now, if outcome.Some? then outcome else Classify(Parse([], now)), chunks[1..], all);
    }
  }

  ghost predicate SameForEveryChunking(all: seq<Byte>) {
    forall chunks: seq<seq<Byte>> | Concat(chunks) == all && chunks != [] ::
      Outcome([], None, chunks) == Classify(Parse([], all))
  }

  lemma TwoChunks(all: seq<Byte>, n: nat)
    requires n <= |all|
    ensures Concat([all[..n], all[n..]]) == all
    ensures Outcome([], None, [all[..n], all[n..]])
            == if Classify(Parse([], all[..n])).Some? then Classify(Parse([], all[..n])) else Classify(Parse([], all))
  {
    hide Parse, Classify, Outcome;
    var first, second := all[..n], all[n..];
    assert first + second == all && [] + first == first;
    assert [first, second] == [first] + [second] && [second] == [second] + [];
    assert Concat([second]) == second + [] == second;
    assert Concat([first, second]) == first + second by {
      assert [first, second][1..] == [second];
    }
    OutcomeStep([], None, first, [second]);
    OutcomeStep(first, Classify(Parse([], first)), second, []);
    OutcomeDone(all, if Classify(Parse([], first)).Some? then Classify(Parse([], first)) else Classify(Parse([], all)));
  }

  lemma OutcomeStep(before: seq<Byte>, outcome: Option<LoginResult>, chunk: seq<Byte>, more: seq<seq<Byte>>)
    ensures Outcome(before, outcome, [chunk] + more)
            == Outcome(before + chunk, if outcome.Some? then outcome else Classify(Parse([], before + chunk)), more)
  {
    hide Parse, Classify;
    assert ([chunk] + more)[1..] == more;
  }

  lemma OutcomeDone(before: seq<Byte>, outcome: Option<LoginResult>)
    ensures Outcome(before, outcome, []) == outcome
  {
  }

  predicate Final(sentence: Sentence) {
    Is(sentence, "!done") || Is(sentence, "!fatal")
  }

  /** If the reply first ends with a done, there is no fatal in it, and a trap either stands before
      that done or nowhere. */
  ghost predicate AnswersOnce(sentences: seq<Sentence>) {
    forall k :: 0 <= k < |sentences| && Is(sentences[k], "!done") && NoneFinal(sentences[..k]) ==>
      !Says(sentences, "!fatal") && (Says(sentences[..k], "!trap") || !Says(sentences, "!trap"))
  }

  ghost predicate NoneFinal(sentences: seq<Sentence>) {
    forall j :: 0 <= j < |sentences| ==> !Final(sentences[j])
  }

  lemma OneReply(sentence: Sentence)
    ensures Is(sentence, "!done") ==> !Is(sentence, "!fatal") && !Is(sentence, "!trap")
    ensures Is(sentence, "!fatal") ==> !Is(sentence, "!trap")
  {
    assert |Ascii("!done")| == 5 && |Ascii("!fatal")| == 6 && |Ascii("!trap")| == 5;
    assert Ascii("!done")[1] != Ascii("!trap")[1];
  }

  lemma SaysOfPrefix(sentences: seq<Sentence>, n: nat, reply: string)
    requires n <= |sentences| && forall i :: 0 <= i < |reply| ==> reply[i] < 128 as char
    ensures Says(sentences[..n], reply) ==> Says(sentences, reply)
    ensures forall s :: First(sentences[..n], reply, s) ==> First(sentences, reply, s)
  {
    hide Is;
    if Says(sentences[..n], reply) {
      var k :| 0 <= k < n && Is(sentences[..n][k], reply);
      assert Is(sentences[k], reply);
    }
    forall s | First(sentences[..n], reply, s)
      ensures First(sentences, reply, s)
    {
      var k :| 0 <= k < n && sentences[..n][k] == s && Is(s, reply) && forall j :: 0 <= j < k ==> !Is(sentences[..n][j], reply);
      assert sentences[k] == s && forall j :: 0 <= j < k ==> !Is(sentences[..n][j], reply) && sentences[..n][j] == sentences[j];
    }
  }

  lemma {:induction false} FirstFinal(sentences: seq<Sentence>) returns (k: nat)
    requires exists j :: 0 <= j < |sentences| && Final(sentences[j])
    ensures k < |sentences| && Final(sentences[k]) && NoneFinal(sentences[..k])
  {
    hide Final;
    k := 0;
    while !Final(sentences[k])
      invariant k < |sentences| && NoneFinal(sentences[..k])
      invariant exists j :: k <= j < |sentences| && Final(sentences[j])
      decreases |sentences| - k
    {
      k := k + 1;
    }
  }

  /** A prefix that answers, of sentences that answer once, answers as the whole. */
  lemma AnswerStays(sentences: seq<Sentence>, n: nat)
    requires AnswersOnce(sentences) && n <= |sentences| && Classify(sentences[..n]).Some?
    ensures Classify(sentences[..n]) == Classify(sentences)
  {
    var prefix := sentences[..n];
    ClassifyAnswers(prefix);
    ClassifyAnswers(sentences);
    SaysOfPrefix(sentences, n, "!fatal");
    SaysOfPrefix(sentences, n, "!done");
    SaysOfPrefix(sentences, n, "!trap");
    FindIsFirst(prefix, "!fatal");
    FindIsFirst(prefix, "!trap");
    hide Is, Classify, First, Find, MessageOf;
    if Says(prefix, "!fatal") {
      SomeFirst(prefix, "!fatal");
    } else {
      AnsweredByDone(sentences, n);
      if Says(prefix, "!trap") {
        SomeFirst(prefix, "!trap");
      }
    }
  }

  lemma SomeFirst(sentences: seq<Sentence>, reply: string)
    requires (forall i :: 0 <= i < |reply| ==> reply[i] < 128 as char) && Says(sentences, reply)
    ensures exists s :: First(sentences, reply, s)
  {
    FindIsFirst(sentences, reply);
    assert First(sentences, reply, Find(sentences, reply).value);
  }

  lemma AnsweredByDone(sentences: seq<Sentence>, n: nat)
    requires AnswersOnce(sentences) && n <= |sentences|
    requires Says(sentences[..n], "!done") && !Says(sentences[..n], "!fatal")
    ensures !Says(sentences, "!fatal") && (Says(sentences, "!trap") ==> Says(sentences[..n], "!trap"))
  {
    var prefix := sentences[..n];
    var j :| 0 <= j < |prefix| && Is(prefix[j], "!done");
    assert Final(prefix[j]);
    var k := FirstFinal(prefix);
    assert prefix[..k] == sentences[..k] && prefix[k] == sentences[k];
    assert Is(sentences[k], "!done");
    if Says(sentences[..k], "!trap") {
      SaysOfPrefix(prefix, k, "!trap");
    }
  }

  /** The converse: another answer later is another answer for an early cut. */
  lemma SettledAnswersOnce(sentences: seq<Sentence>)
    requires Settled(sentences)
    ensures AnswersOnce(sentences)
  {
    forall k | 0 <= k < |sentences| && Is(sentences[k], "!done") && NoneFinal(sentences[..k])
      ensures !Says(sentences, "!fatal") && (Says(sentences[..k], "!trap") || !Says(sentences, "!trap"))
    {
      DoneFirst(sentences, k);
      ClassifyAnswers(sentences[..k + 1]);
      ClassifyAnswers(sentences);
      assert Classify(sentences[..k + 1]) == Classify(sentences);
      hide Classify, First, Is;
      if Says(sentences, "!fatal") {
        SomeFirst(sentences, "!fatal");
        if Says(sentences[..k + 1], "!trap") {
          SomeFirst(sentences[..k + 1], "!trap");
        }
      }
    }
  }

  lemma DoneFirst(sentences: seq<Sentence>, k: nat)
    requires k < |sentences| && Is(sentences[k], "!done") && NoneFinal(sentences[..k])
    ensures Says(sentences[..k + 1], "!done") && !Says(sentences[..k + 1], "!fatal")
    ensures Says(sentences[..k + 1], "!trap") ==> Says(sentences[..k], "!trap")
  {
    var prefix := sentences[..k + 1];
    OneReply(sentences[k]);
    assert prefix[k] == sentences[k];
    forall j | 0 <= j < k
      ensures prefix[j] == sentences[..k][j] && !Final(prefix[j])
    {
    }
  }

  lemma SettledExactly(sentences: seq<Sentence>)
    ensures Settled(sentences) <==> AnswersOnce(sentences)
  {
    hide Classify, AnswersOnce;
    if AnswersOnce(sentences) {
      forall k | 0 <= k <= |sentences| && Classify(sentences[..k]).Some?
        ensures Classify(sentences[..k]) == Classify(sentences)
      {
        AnswerStays(sentences, k);
      }
    }
    if Settled(sentences) {
      SettledAnswersOnce(sentences);
    }
  }

  /** The outcome is the same for every way of cutting the bytes into chunks exactly when the
      reply answers once. */
  lemma ChunkingIrrelevant(all: seq<Byte>)
    ensures SameForEveryChunking(all) <==> AnswersOnce(Parse([], all))
  {
    hide AnswersOnce;
    var sentences := Parse([], all);
    SettledExactly(sentences);
    if Settled(sentences) {
      forall chunks: seq<seq<Byte>> | Concat(chunks) == all && chunks != []
        ensures Outcome([], None, chunks) == Classify(sentences)
      {
        assert Parse([], []) == [];
        OutcomeOfSettled([], None, chunks, all);
      }
    }
    if SameForEveryChunking(all) {
      forall k | 0 <= k <= |sentences| && Classify(sentences[..k]).Some?
        ensures Classify(sentences[..k]) == Classify(sentences)
      {
        var n := CutAfter([], all, k);
        TwoChunks(all, n);
      }
    }
  }

  /** A done and then a trap: cut between them the login succeeds, in one chunk it is refused. */
  lemma DoneThenTrap()
    ensures var done, trap := [Ascii("!done")], [Ascii("!trap")];
            var first, second := EncodeSentence(done), EncodeSentence(trap);
            && Outcome([], None, [first, second]) == Some(LoggedIn)
            && Outcome([], None, [first + second]) == Some(Trap([]))
  {
    var done, trap := [Ascii("!done")], [Ascii("!trap")];
    var first, second := EncodeSentence(done), EncodeSentence(trap);
    var all := first + second;
    TwoReplies(done, trap);
    DoneAndTrap(done, trap);
    hide Parse, Classify, Outcome, EncodeSentence;
    TwoChunks(all, |first|);
    OneChunk(all);
    assert all[..|first|] == first && all[|first|..] == second;
  }

  lemma DoneAndTrap(done: Sentence, trap: Sentence)
    requires done == [Ascii("!done")] && trap == [Ascii("!trap")]
    ensures Classify([done]) == Some(LoggedIn) && Classify([done, trap]) == Some(Trap([]))
  {
    OneReply(done);
    OneReply(trap);
    assert Is(done, "!done") && Is(trap, "!trap");
    TrapWithoutMessage(trap);
    hide Is, MessageOf;
    var both := [done, trap];
    assert both[1..] == [trap] && [done][1..] == [] && [trap][1..] == [];
    assert Find([], "!trap").None? && Find([], "!fatal").None?;
    assert Find([trap], "!trap") == Some(trap) && Find([trap], "!fatal").None?;
    assert Find(both, "!done") == Some(done) && Find(both, "!fatal").None? && Find(both, "!trap") == Some(trap);
    assert Find([done], "!done") == Some(done) && Find([done], "!fatal").None? && Find([done], "!trap").None?;
  }

  lemma TrapWithoutMessage(trap: Sentence)
    requires trap == [Ascii("!trap")]
    ensures MessageOf(trap) == []
  {
    assert |Ascii("=message=")| == 9 && |trap[0]| == 5;
    assert trap[1..] == [];
    assert FirstMessage(trap[1..]) == None;
  }

  lemma OneChunk(all: seq<Byte>)
    ensures Outcome([], None, [all]) == Classify(Parse([], all))
  {
    hide Parse, Classify;
    assert [] + all == all;
    OutcomeStep([], None, all, []);
    OutcomeDone(all, Classify(Parse([], all)));
    assert [all] == [all] + [];
  }

  /** Two short sentences on the wire, and the first of them alone. */
  lemma TwoReplies(a: Sentence, b: Sentence)
    requires Encodable(a) && NoEmptyWord(a) && Encodable(b) && NoEmptyWord(b)
    ensures Parse([], EncodeSentence(a)) == [a] && Parse([], EncodeSentence(a) + EncodeSentence(b)) == [a, b]
  {
    hide NextWord, EncodeLength;
    var x, y := EncodeSentence(a), EncodeSentence(b);
    SentenceRoundTrip(a, []);
    SentenceRoundTrip(a, y);
    SentenceRoundTrip(b, []);
    NothingLeft([]);
    assert x + [] == x && y + [] == y;
  }

  /** A sentence with an empty word comes back as two. */
  lemma EmptyWordSplits()
    ensures var word: Word := [33]; var sentence: Sentence := [word, [], word];
            Parse([], EncodeSentence(sentence)) == [[word], [word]] && !NoEmptyWord(sentence)
  {
    var word: Word := [33];
    var sentence: Sentence := [word, [], word];
    ParseEncoded([], sentence, []);
    NothingLeft([]);
    assert EncodeSentence(sentence) + [] == EncodeSentence(sentence);
    hide Parse, EncodeSentence;
    assert sentence[1] == [];
    assert sentence[1..] == [[], word] && sentence[1..][1..] == [word] && sentence[1..][1..][1..] == [];
    assert [] + [word] == [word];
    assert [word][1..] == [];
    assert CutAtEmpty([], [word]) == CutAtEmpty([word], []) == [[word]];
    assert CutAtEmpty([word], sentence[1..]) == [[word]] + CutAtEmpty([], sentence[1..][1..]);
    assert CutAtEmpty([], sentence) == CutAtEmpty([] + [word], sentence[1..]);
  }

  /** No sentence before the last one ends the reply. */
  ghost predicate EndsOnce(sentences: seq<Sentence>) {
    forall i :: 0 <= i < |sentences| - 1 ==> !Final(sentences[i])
  }

  lemma LastFinalAnswersOnce(sentences: seq<Sentence>)
    requires EndsOnce(sentences)
    ensures AnswersOnce(sentences)
  {
    hide Is;
    forall k | 0 <= k < |sentences| && Is(sentences[k], "!done") && NoneFinal(sentences[..k])
      ensures !Says(sentences, "!fatal") && (Says(sentences[..k], "!trap") || !Says(sentences, "!trap"))
    {
      assert Final(sentences[k]);
      DoneFirst(sentences, k);
      assert sentences[..k + 1] == sentences;
    }
  }

  /** A reply whose only `!done` or `!fatal` is its last sentence comes out the same for every
      chunking. */
  lemma LoginIgnoresChunking(all: seq<Byte>, chunks: seq<seq<Byte>>)
    requires Concat(chunks) == all && chunks != []
    requires EndsOnce(Parse([], all))
    ensures Outcome([], None, chunks) == Classify(Parse([], all))
  {
    LastFinalAnswersOnce(Parse([], all));
    ChunkingIrrelevant(all);
  }
}
