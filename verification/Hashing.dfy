/** The chunk hash, its injectivity in single bytes, and its hexadecimal form. */
module Hashing {
  import opened Prelude
  import opened Types

  const FNV_PRIME: nat := 0x100000001b3
  const FNV_INVERSE: nat := 0xce965057aff6957b
  const OFFSET_A: U64 := 0xcbf29ce484222325
  const OFFSET_B: U64 := 0x84222325cafe0001

  // ---------------------------------------------------------------- one mixing step

  /** Exclusive or of the low `width` bits. */
  function XorBits(a: nat, b: nat, width: nat): (r: nat)
    ensures r < Pow2(width)
  {
    if width == 0 then 0 else
    (if a % 2 == b % 2 then 0 else 1) + 2 * XorBits(a / 2, b / 2, width - 1)
  }

  function Pow2(k: nat): nat {
    if k == 0 then 1 else 2 * Pow2(k - 1)
  }

  lemma XorBitsParts(a: nat, b: nat, width: nat)
    requires width > 0
    ensures XorBits(a, b, width) % 2 == if a % 2 == b % 2 then 0 else 1
    ensures XorBits(a, b, width) / 2 == XorBits(a / 2, b / 2, width - 1)
  {
  }

  lemma {:induction false} XorBitsTwice(a: nat, b: nat, width: nat)
    requires a < Pow2(width)
    ensures XorBits(XorBits(a, b, width), b, width) == a
  {
    if width == 0 {
    } else {
      XorBitsTwice(a / 2, b / 2, width - 1);
      XorBitsParts(a, b, width);
      XorBitsParts(XorBits(a, b, width), b, width);
    }
  }

  lemma Pow2Eight()
    ensures Pow2(8) == 256
  {
    assert Pow2(4) == 16;
  }

  /** `state ^ byte`: only the low byte of the state changes. */
  function XorByte(state: U64, byte: Byte): (r: U64) {
    Pow2Eight();
    256 * (state / 256) + XorBits(state % 256, byte, 8)
  }

  lemma XorByteTwice(state: U64, byte: Byte)
    ensures XorByte(XorByte(state, byte), byte) == state
  {
    hide XorBits;
    Pow2Eight();
    XorBitsTwice(state % 256, byte, 8);
    var low := XorBits(state % 256, byte, 8);
    assert XorByte(state, byte) == 256 * (state / 256) + low;
    assert XorByte(state, byte) / 256 == state / 256 && XorByte(state, byte) % 256 == low;
  }

  function MixStep(state: U64, byte: Byte): U64 {
    XorByte(state, byte) * FNV_PRIME % TWO_64
  }

  function UnmixStep(state: U64, byte: Byte): U64 {
    XorByte(state * FNV_INVERSE % TWO_64, byte)
  }

  lemma RemainderOfMultiple(x: U64, n: int)
    ensures (x + n * 0x1_0000_0000_0000_0000) % 0x1_0000_0000_0000_0000 == x
  {
  }

  /** The prime and its inverse multiply to 1 modulo 2^64. */
  lemma MultiplyThenDivide(x: U64)
    ensures x * FNV_PRIME % TWO_64 * FNV_INVERSE % TWO_64 == x
    ensures x * FNV_INVERSE % TWO_64 * FNV_PRIME % TWO_64 == x
  {
    assert 0x100000001b3 * 0xce965057aff6957b == 1 + 887285111055 * 0x1_0000_0000_0000_0000;
    var k := x * 0x100000001b3 / 0x1_0000_0000_0000_0000;
    var l := x * 0xce965057aff6957b / 0x1_0000_0000_0000_0000;
    RemainderOfMultiple(x, x * 887285111055 - k * 0xce965057aff6957b);
    RemainderOfMultiple(x, x * 887285111055 - l * 0x100000001b3);
  }

  /** A step is a bijection on the 64-bit states: `UnmixStep` is its two-sided inverse. */
  lemma MixStepBijective(state: U64, byte: Byte)
    ensures UnmixStep(MixStep(state, byte), byte) == state
    ensures MixStep(UnmixStep(state, byte), byte) == state
  {
    MultiplyThenDivide(XorByte(state, byte));
    XorByteTwice(state, byte);
    MultiplyThenDivide(state);
    XorByteTwice(state * FNV_INVERSE % TWO_64, byte);
  }

  // ---------------------------------------------------------------- mixing a string

  function Mix(state: U64, bytes: Text): U64
    decreases |bytes|
  {
    if bytes == [] then state else Mix(MixStep(state, bytes[0]), bytes[1..])
  }

  function Unmix(state: U64, bytes: Text): U64 {
    if bytes == [] then state else UnmixStep(Unmix(state, bytes[1..]), bytes[0])
  }

  method MixLoop(start: U64, bytes: Text) returns (state: U64)
    ensures state == Mix(start, bytes)
  {
    state := start;
    for i := 0 to |bytes|
      invariant state == Mix(start, bytes[..i])
    {
      MixConcat(start, bytes[..i], [bytes[i]]);
      assert bytes[..i + 1] == bytes[..i] + [bytes[i]];
      state := XorByte(state, bytes[i]);
      state := state * FNV_PRIME % TWO_64;
      assert Mix(MixStep(Mix(start, bytes[..i]), bytes[i]), []) == state;
    }
    assert bytes[..|bytes|] == bytes;
  }

  /** Mixing is a homomorphism from concatenation to composition. */
  lemma {:induction false} MixConcat(state: U64, u: Text, v: Text)
    ensures Mix(state, u + v) == Mix(Mix(state, u), v)
    decreases |u|
  {
    if u == [] {
      assert u + v == v;
    } else {
      MixConcat(MixStep(state, u[0]), u[1..], v);
      assert (u + v)[1..] == u[1..] + v;
    }
  }

  /** For fixed bytes, `Mix` is a bijection on the 64-bit states. */
  lemma {:induction false} MixBijective(state: U64, bytes: Text)
    ensures Unmix(Mix(state, bytes), bytes) == state
    ensures Mix(Unmix(state, bytes), bytes) == state
    decreases |bytes|
  {
    if bytes == [] {
    } else {
      MixBijective(MixStep(state, bytes[0]), bytes[1..]);
      MixStepBijective(state, bytes[0]);
      MixBijective(state, bytes[1..]);
      MixStepBijective(Unmix(state, bytes[1..]), bytes[0]);
    }
  }

  /** Same length, and different at exactly one position. */
  ghost predicate OneByteApart(u: Text, v: Text) {
    && |u| == |v|
    && exists k :: 0 <= k < |u| && ApartAt(u, v, k)
  }

  ghost predicate ApartAt(u: Text, v: Text, k: nat)
    requires k < |u| == |v|
  {
    u[k] != v[k] && u[..k] == v[..k] && u[k + 1..] == v[k + 1..]
  }

  lemma OneByteApartWithin(before: Text, u: Text, v: Text, after: Text)
    requires OneByteApart(u, v)
    ensures OneByteApart(before + u + after, before + v + after)
  {
    var k :| 0 <= k < |u| && ApartAt(u, v, k);
    var u', v', k' := before + u + after, before + v + after, |before| + k;
    assert u'[..k'] == before + u[..k] && v'[..k'] == before + v[..k];
    assert u'[k' + 1..] == u[k + 1..] + after && v'[k' + 1..] == v[k + 1..] + after;
    assert ApartAt(u', v', k');
  }

  /** From one state, strings that differ in exactly one byte never mix to the same state. */
  lemma MixSeparates(state: U64, u: Text, v: Text)
    requires OneByteApart(u, v)
    ensures Mix(state, u) != Mix(state, v)
  {
    var k :| 0 <= k < |u| && ApartAt(u, v, k);
    var tail := u[k + 1..];
    var before := Mix(state, u[..k]);
    assert u == u[..k] + ([u[k]] + tail) && v == u[..k] + ([v[k]] + tail);
    MixConcat(state, u[..k], [u[k]] + tail);
    MixConcat(state, u[..k], [v[k]] + tail);
    assert Mix(state, u) == Mix(MixStep(before, u[k]), tail) by { assert ([u[k]] + tail)[1..] == tail; }
    assert Mix(state, v) == Mix(MixStep(before, v[k]), tail) by { assert ([v[k]] + tail)[1..] == tail; }
    if Mix(state, u) == Mix(state, v) {
      MixBijective(MixStep(before, u[k]), tail);
      MixBijective(MixStep(before, v[k]), tail);
      MixStepDeterminesByte(before, u[k], v[k]);
    }
  }

  lemma {:induction false} XorBitsCancel(a: nat, b: nat, c: nat, width: nat)
    requires b < Pow2(width) && c < Pow2(width)
    requires XorBits(a, b, width) == XorBits(a, c, width)
    ensures b == c
  {
    if width == 0 {
    } else {
      XorBitsParts(a, b, width);
      XorBitsParts(a, c, width);
      XorBitsCancel(a / 2, b / 2, c / 2, width - 1);
    }
  }

  lemma MixStepDeterminesByte(state: U64, b: Byte, c: Byte)
    requires MixStep(state, b) == MixStep(state, c)
    ensures b == c
  {
    MultiplyThenDivide(XorByte(state, b));
    MultiplyThenDivide(XorByte(state, c));
    Pow2Eight();
    XorBitsCancel(state % 256, b, c, 8);
  }

  // ---------------------------------------------------------------- the chunk hash

  /** The byte stream the two main states absorb: each chunk behind its 8-byte index. */
  function Stream(chunks: seq<Text>): Text {
    if chunks == [] then [] else
    var last := |chunks| - 1;
    Stream(chunks[..last]) + (Word(last) + chunks[last])
  }

  function FourWords(a: U64, b: U64, c: U64, d: U64): (h: Hash)
    ensures h[..8] == Word(a)
  {
    Word(a) + Word(b) + Word(c) + Word(d)
  }

  function HashOf(chunks: seq<Text>): Hash {
    var stateA := Mix(OFFSET_A, Stream(chunks));
    var stateB := Mix(OFFSET_B, Stream(chunks));
    FourWords(stateA, stateB, Mix(stateA, Word(stateB)), Mix(stateB, Word(stateA)))
  }

  method HashChunks(chunks: seq<Text>) returns (out: Hash)
    ensures out == HashOf(chunks)
  {
    var stateA := OFFSET_A;
    var stateB := OFFSET_B;
    for idx := 0 to |chunks|
      invariant stateA == Mix(OFFSET_A, Stream(chunks[..idx]))
      invariant stateB == Mix(OFFSET_B, Stream(chunks[..idx]))
    {
      ghost var done := chunks[..idx];
      var idxHash := Word(idx);
      MixConcat(OFFSET_A, Stream(done), idxHash + chunks[idx]);
      MixConcat(OFFSET_B, Stream(done), idxHash + chunks[idx]);
      MixConcat(stateA, idxHash, chunks[idx]);
      MixConcat(stateB, idxHash, chunks[idx]);
      assert chunks[..idx + 1][..idx] == done;
      stateA := MixLoop(stateA, idxHash);
      stateB := MixLoop(stateB, idxHash);
      stateA := MixLoop(stateA, chunks[idx]);
      stateB := MixLoop(stateB, chunks[idx]);
    }
    assert chunks[..|chunks|] == chunks;
    var stateC := MixLoop(stateA, Word(stateB));
    var stateD := MixLoop(stateB, Word(stateA));
    out := FourWords(stateA, stateB, stateC, stateD);
  }

  /** Chunk lists of one shape whose only difference is one byte of chunk `i`. */
  ghost predicate ChunksOneByteApart(a: seq<Text>, b: seq<Text>, i: nat) {
    && i < |a| == |b|
    && OneByteApart(a[i], b[i])
    && forall j :: 0 <= j < |a| && j != i ==> a[j] == b[j]
  }

  /** The stream up to and including the index of the last chunk. */
  function StreamBeforeLast(chunks: seq<Text>): Text
    requires chunks != []
  {
    Stream(chunks[..|chunks| - 1]) + Word(|chunks| - 1)
  }

  lemma StreamSplit(chunks: seq<Text>)
    requires chunks != []
    ensures Stream(chunks) == StreamBeforeLast(chunks) + chunks[|chunks| - 1] + []
    ensures Stream(chunks) == [] + Stream(chunks[..|chunks| - 1]) + (Word(|chunks| - 1) + chunks[|chunks| - 1])
  {
    hide Word;
    var last := |chunks| - 1;
    Assoc(Stream(chunks[..last]), Word(last), chunks[last]);
    EmptyUnit(Stream(chunks));
    EmptyUnit(Stream(chunks[..last]));
  }

  lemma {:induction false} StreamOneByteApart(a: seq<Text>, b: seq<Text>, i: nat)
    requires ChunksOneByteApart(a, b, i)
    ensures OneByteApart(Stream(a), Stream(b))
  {
    hide OneByteApart;
    var last := |a| - 1;
    StreamSplit(a);
    StreamSplit(b);
    if i == last {
      assert a[..last] == b[..last];
      hide Stream;
      OneByteApartWithin(StreamBeforeLast(a), a[i], b[i], []);
    } else {
      StreamOneByteApart(a[..last], b[..last], i);
      hide Stream;
      OneByteApartWithin([], Stream(a[..last]), Stream(b[..last]), Word(last) + a[last]);
    }
  }

  lemma WordInjective(a: U64, b: U64)
    requires Word(a) == Word(b)
    ensures a == b
  {
    Pow256Eight();
    LeRoundTrip(a, 8);
    LeRoundTrip(b, 8);
  }

  lemma HashHead(chunks: seq<Text>)
    ensures HashOf(chunks)[..8] == Word(Mix(OFFSET_A, Stream(chunks)))
  {
  }

  /** The hash never collides on two chunk lists of equal shape that differ in exactly one byte. */
  lemma HashSeparates(a: seq<Text>, b: seq<Text>, i: nat)
    requires ChunksOneByteApart(a, b, i)
    ensures HashOf(a) != HashOf(b)
  {
    StreamOneByteApart(a, b, i);
    MixSeparates(OFFSET_A, Stream(a), Stream(b));
    if HashOf(a) == HashOf(b) {
      HashHead(a);
      HashHead(b);
      WordInjective(Mix(OFFSET_A, Stream(a)), Mix(OFFSET_A, Stream(b)));
    }
  }

  // ---------------------------------------------------------------- hexadecimal

  /** The code of a lower-case hexadecimal digit. */
  function HexDigit(n: nat): Byte
    requires n < 16
  {
    if n < 10 then 48 + n else 87 + n
  }

  function HexText(bs: Text): Text {
    if bs == [] then [] else [HexDigit(bs[0] / 16), HexDigit(bs[0] % 16)] + HexText(bs[1..])
  }

  function HexValue(c: Byte): (v: Option<nat>)
    ensures v.Some? ==> v.value < 16
  {
    if 48 <= c <= 57 then Some(c - 48)
    else if 97 <= c <= 102 then Some(c - 87)
    else if 65 <= c <= 70 then Some(c - 55)
    else None
  }

  predicate IsHash(hex: Text) {
    |hex| == 64 && forall i :: 0 <= i < |hex| ==> HexValue(hex[i]).Some?
  }

  /** `A`..`F` to `a`..`f`; other bytes are unchanged. */
  function LowerCase(hex: Text): Text {
    seq(|hex|, i requires 0 <= i < |hex| => if 65 <= hex[i] <= 70 then hex[i] + 32 else hex[i])
  }

  function ParsePairs(hex: Text): (r: Option<Text>)
    requires |hex| % 2 == 0
    ensures r.Some? ==> 2 * |r.value| == |hex|
    ensures r.Some? <==> forall i :: 0 <= i < |hex| ==> HexValue(hex[i]).Some?
  {
    if hex == [] then Some([]) else
    var front := |hex| - 2;
    assert forall i :: 0 <= i < front ==> hex[i] == hex[..front][i];
    var bytes :- ParsePairs(hex[..front]);
    var hi :- HexValue(hex[front]);
    var lo :- HexValue(hex[front + 1]);
    Some(bytes + [16 * hi + lo])
  }

  function ParseHash(hex: Text): (r: Option<Hash>)
    ensures r.Some? <==> IsHash(hex)
  {
    if |hex| != 2 * HASH_LEN then None else
    var bytes :- ParsePairs(hex);
    Some(bytes)
  }

  method HashHexToBytes(hex: Text) returns (r: Option<Hash>)
    ensures r == ParseHash(hex)
  {
    if |hex| != 2 * HASH_LEN {
      return None;
    }
    var out: Text := [];
    var i := 0;
    while i < |hex|
      invariant 0 <= i <= |hex| && i % 2 == 0
      invariant ParsePairs(hex[..i]) == Some(out)
    {
      assert hex[..i + 2][..i] == hex[..i];
      assert hex[i] == hex[..i + 2][i] && hex[i + 1] == hex[..i + 2][i + 1];
      var hi := HexValue(hex[i]);
      if hi.None? {
        assert !IsHash(hex);
        return None;
      }
      var lo := HexValue(hex[i + 1]);
      if lo.None? {
        assert !IsHash(hex);
        return None;
      }
      out := out + [16 * hi.value + lo.value];
      i := i + 2;
    }
    assert hex[..|hex|] == hex;
    r := Some(out);
  }

  lemma {:induction false} HexTextSnoc(bs: Text, b: Byte)
    ensures HexText(bs + [b]) == HexText(bs) + [HexDigit(b / 16), HexDigit(b % 16)]
  {
    if bs == [] {
      assert HexText([b]) == [HexDigit(b / 16), HexDigit(b % 16)] + HexText([]);
    } else {
      HexTextSnoc(bs[1..], b);
      assert (bs + [b])[1..] == bs[1..] + [b];
    }
  }

  lemma {:induction false} ParsePairsOfHex(bs: Text)
    ensures |HexText(bs)| == 2 * |bs|
    ensures ParsePairs(HexText(bs)) == Some(bs)
  {
    if bs != [] {
      var last := |bs| - 1;
      var front, b := bs[..last], bs[last];
      ParsePairsOfHex(front);
      HexTextSnoc(front, b);
      assert bs == front + [b];
      var hex := HexText(bs);
      assert hex[..2 * last] == HexText(front);
      assert hex[2 * last] == HexDigit(b / 16) && hex[2 * last + 1] == HexDigit(b % 16);
      assert HexValue(hex[2 * last]) == Some(b / 16) && HexValue(hex[2 * last + 1]) == Some(b % 16);
    } else {
      assert HexText(bs) == [];
    }
  }

  /** Parsing undoes printing. */
  lemma HexRoundTrip(h: Hash)
    ensures |HexText(h)| == 64 && ParseHash(HexText(h)) == Some(h)
  {
    ParsePairsOfHex(h);
  }

  lemma DigitOfValue(c: Byte)
    requires HexValue(c).Some?
    ensures LowerCase([c]) == [HexDigit(HexValue(c).value)]
  {
  }

  lemma LowerCaseConcat(u: Text, v: Text)
    ensures LowerCase(u + v) == LowerCase(u) + LowerCase(v)
  {
  }

  lemma {:induction false} HexOfParsedPairs(hex: Text)
    requires |hex| % 2 == 0 && ParsePairs(hex).Some?
    ensures HexText(ParsePairs(hex).value) == LowerCase(hex)
  {
    if hex == [] {
    } else {
      var front := |hex| - 2;
      var before, c, d := hex[..front], hex[front], hex[front + 1];
      assert ParsePairs(before).Some? && HexValue(c).Some? && HexValue(d).Some?;
      HexOfParsedPairs(before);
      ParsedPairPrints(ParsePairs(before).value, before, c, d);
      assert hex == before + ([c] + [d]);
    }
  }

  lemma ParsedPairPrints(bytes: Text, before: Text, c: Byte, d: Byte)
    requires HexText(bytes) == LowerCase(before)
    requires HexValue(c).Some? && HexValue(d).Some?
    ensures HexText(bytes + [16 * HexValue(c).value + HexValue(d).value]) == LowerCase(before + ([c] + [d]))
  {
    hide LowerCase, HexText;
    var hi, lo := HexValue(c).value, HexValue(d).value;
    HexTextSnoc(bytes, 16 * hi + lo);
    assert (16 * hi + lo) / 16 == hi && (16 * hi + lo) % 16 == lo;
    DigitOfValue(c);
    DigitOfValue(d);
    LowerCaseConcat([c], [d]);
    LowerCaseConcat(before, [c] + [d]);
  }

  /** Printing undoes parsing up to letter case: the accepted spellings of a hash differ only in case. */
  lemma ParsedHashPrints(hex: Text)
    requires IsHash(hex)
    ensures HexText(ParseHash(hex).value) == LowerCase(hex)
  {
    HexOfParsedPairs(hex);
  }
}
