/** The encodings and the hash byte by byte, and the numbers that `f64` patterns stand for. */
module Layout {
  import opened Prelude
  import opened Types
  import opened Hashing

  // ---------------------------------------------------------------- numbers as bytes

  /** Byte `k` of a 64-bit number is its digit `k` to the base 256, the least significant first. */
  lemma {:induction false} ByteOf(n: nat, width: nat, k: nat)
    requires k < width
    ensures Pow256(k) > 0 && LeBytes(n, width)[k] == n / Pow256(k) % 256
  {
    if k == 0 {
      assert n / Pow256(0) == n;
    } else {
      ByteOf(n / 256, width - 1, k - 1);
      DivideTwice(n, Pow256(k - 1));
    }
  }

  lemma DivideTwice(n: nat, p: nat)
    requires p > 0
    ensures n / 256 / p == n / (256 * p)
  {
    var q, r := n / 256 / p, n / 256 % p;
    var a := n % 256;
    assert n == 256 * (p * q + r) + a;
    assert 256 * (p * q + r) == (256 * p) * q + 256 * r;
    QuotientIs(n, 256 * p, q, 256 * r + a);
  }

  lemma QuotientIs(n: nat, d: nat, q: nat, rest: nat)
    requires d > 0 && n == d * q + rest && rest < d
    ensures n / d == q
  {
    var m := q - n / d;
    assert n == d * (n / d) + n % d;
    assert d * m == d * q - d * (n / d);
    SmallMultiple(d, m);
  }

  lemma SmallMultiple(d: nat, m: int)
    requires d > 0 && -1 * d < d * m < d
    ensures m == 0
  {
    Multiples(d, m);
  }

  lemma Multiples(d: nat, m: int)
    ensures m >= 1 ==> d * m >= d
    ensures m <= -1 ==> d * m <= -1 * d
  {
    assert d * (m - 1) == d * m - d && d * (m + 1) == d * m + d;
  }

  function Prefixed(t: Text): Text {
    Word(|t|) + t
  }

  function Listed(ts: seq<Text>): Text {
    Word(|ts|) + Joined(ts)
  }

  function Joined(ts: seq<Text>): Text {
    if ts == [] then [] else Prefixed(ts[0]) + Joined(ts[1..])
  }

  lemma {:induction false} JoinedIsBody(ts: seq<Text>)
    ensures TextsBody(ts) == Joined(ts)
  {
    if ts == [] {
    } else {
      JoinedIsBody(ts[1..]);
      assert TextBytes(ts[0]) == Prefixed(ts[0]);
    }
  }

  /** A coordinate: frame, interval, centre, radius, uncertainty, attestations. */
  lemma CoordLayout(c: SpacetimeCoord)
    ensures CoordBytes(c)
         == Prefixed(c.frameId)
            + (Word(I64Bits(c.timeInterval.tMin)) + (Word(I64Bits(c.timeInterval.tMax))
            + (Word(c.positionRegion.x) + (Word(c.positionRegion.y) + (Word(c.positionRegion.z)
            + (Word(c.positionRegion.radiusLy) + (Word(c.uncertainty) + Listed(c.attestation))))))))
  {
    JoinedIsBody(c.attestation);
    assert TextBytes(c.frameId) == Prefixed(c.frameId);
    assert TextsBytes(c.attestation) == Listed(c.attestation);
    hide Word, TextBytes, TextsBytes, Prefixed, Listed;
    var ws := CoordWords(c);
    assert ws == [ws[0], ws[1], ws[2], ws[3], ws[4], ws[5], ws[6]];
    WordsFront(ws, TextsBytes(c.attestation));
    WordsFront(ws[1..], TextsBytes(c.attestation));
    WordsFront(ws[2..], TextsBytes(c.attestation));
    WordsFront(ws[3..], TextsBytes(c.attestation));
    WordsFront(ws[4..], TextsBytes(c.attestation));
    WordsFront(ws[5..], TextsBytes(c.attestation));
    WordsFront(ws[6..], TextsBytes(c.attestation));
    WordsEnd(TextsBytes(c.attestation));
    hide WordsBytes;
    assert ws[1..][1..] == ws[2..] && ws[2..][1..] == ws[3..] && ws[3..][1..] == ws[4..];
    assert ws[4..][1..] == ws[5..] && ws[5..][1..] == ws[6..] && ws[6..][1..] == [];
  }

  lemma WordsFront(ws: seq<U64>, rest: Text)
    requires ws != []
    ensures WordsBytes(ws) + rest == Word(ws[0]) + (WordsBytes(ws[1..]) + rest)
  {
    Assoc(Word(ws[0]), WordsBytes(ws[1..]), rest);
  }

  lemma WordsEnd(rest: Text)
    ensures WordsBytes([]) + rest == rest
  {
  }

  /** An event: four names, payload hash, coordinate, sequence number, dependencies, signatures. */
  lemma EventLayoutExact(e: Event)
    ensures EventBytes(e)
         == (Prefixed(e.eventId) + (Prefixed(e.actorId) + (Prefixed(e.domainId) + Prefixed(e.kind))))
            + (e.payloadHash + (CoordBytes(e.coord)
            + (Word(e.localSequence) + (Listed(e.causalDependencies) + Listed(e.signatures)))))
  {
    JoinedIsBody(e.causalDependencies);
    JoinedIsBody(e.signatures);
    JoinedIsBody(EventNames(e));
    hide Word, TextBytes, CoordBytes, TextsBody;
    FourNames(e.eventId, e.actorId, e.domainId, e.kind);
  }

  lemma FourNames(a: Text, b: Text, c: Text, d: Text)
    ensures Joined([a, b, c, d]) == Prefixed(a) + (Prefixed(b) + (Prefixed(c) + Prefixed(d)))
  {
    hide Prefixed;
    assert [a, b, c, d][1..] == [b, c, d] && [b, c, d][1..] == [c, d] && [c, d][1..] == [d] && [d][1..] == [];
    assert Joined([d]) == Prefixed(d) + [] == Prefixed(d);
    assert Joined([c, d]) == Prefixed(c) + Joined([d]);
    assert Joined([b, c, d]) == Prefixed(b) + Joined([c, d]);
  }

  // ---------------------------------------------------------------- the hash

  /** One byte of mixing: exclusive or on the low byte, then the multiplier, modulo 2^64. */
  lemma MixOneByte(state: U64, byte: Byte)
    ensures Mix(state, [byte])
         == (state - state % 256 + XorBits(state % 256, byte, 8)) * 0x100000001b3 % 0x1_0000_0000_0000_0000
  {
    assert [byte][..0] == [] && [byte][1..] == [];
  }

  /** The stream that is hashed: every chunk behind its index, in eight bytes. */
  lemma StreamGrows(chunks: seq<Text>, chunk: Text)
    ensures Stream([]) == [] && Stream(chunks + [chunk]) == Stream(chunks) + (Word(|chunks|) + chunk)
  {
    assert (chunks + [chunk])[..|chunks|] == chunks;
  }

  /** The four words of a hash: two states from two starting values, and each one mixed with the other. */
  lemma HashWords(chunks: seq<Text>)
    ensures var a := Mix(0xcbf29ce484222325, Stream(chunks));
            var b := Mix(0x84222325cafe0001, Stream(chunks));
            HashOf(chunks) == Word(a) + Word(b) + Word(Mix(a, Word(b))) + Word(Mix(b, Word(a)))
  {
  }

  /** Lower-case digits, two for each byte, the high half first. */
  lemma HexGrows(bs: Text, b: Byte)
    ensures HexText([]) == [] && HexText(bs + [b]) == HexText(bs) + [DigitAt(b / 16), DigitAt(b % 16)]
  {
    HexTextSnoc(bs, b);
    HalfDigits(b / 16);
    HalfDigits(b % 16);
  }

  lemma HalfDigits(n: nat)
    requires n < 16
    ensures HexDigit(n) == DigitAt(n)
  {
  }

  const DIGITS: string := "0123456789abcdef"

  function DigitAt(n: nat): int
    requires n < 16
  {
    DIGITS[n] as int
  }

  // ---------------------------------------------------------------- `f64`

  lemma {:induction false} PowStep(k: int)
    ensures RealPow2(k + 1) == 2.0 * RealPow2(k)
  {
    if k < 0 {
      assert RealPow2(k) == RealPow2(k + 1) / 2.0;
    }
  }

  /**
   * The patterns in order: zero, one, the sign bit, a step of the exponent, and halfway to the next power of two. A
   * pattern with every exponent bit set is not finite.
   */
  lemma FloatValues(f: F64)
    ensures Real(0) == 0.0 && Real(0x3FF0_0000_0000_0000) == 1.0
    ensures f < 0x8000_0000_0000_0000 ==> Real(f + 0x8000_0000_0000_0000) == 0.0 - Real(f)
    ensures var exponent := f / 0x10_0000_0000_0000 % 2048;
            && (IsFinite(f) <==> exponent != 2047)
            && (1 <= exponent < 2046 && f < 0x8000_0000_0000_0000 ==>
                  Real(f + 0x10_0000_0000_0000) == 2.0 * Real(f))
  {
    hide RealPow2;
    FloatZeroOne();
    if f < 0x8000_0000_0000_0000 {
      FloatSign(f);
      FloatDoubles(f);
    }
  }

  lemma FloatZeroOne()
    ensures Real(0) == 0.0 && Real(0x3FF0_0000_0000_0000) == 1.0
  {
    assert BiasedExponent(0) == 0;
    var none := 0.0 / RealPow2(52);
    assert none == 0.0;
    assert none * RealPow2(-1022) == 0.0;
    assert BiasedExponent(0x3FF0_0000_0000_0000) == 1023;
    assert RealPow2(0) == 1.0;
    hide RealPow2;
    assert (0x3FF0_0000_0000_0000 % 0x10_0000_0000_0000) as real / RealPow2(52) == none;
    assert (1.0 + none) * RealPow2(0) == 1.0;
  }

  lemma FloatSign(f: F64)
    requires f < 0x8000_0000_0000_0000
    ensures Real(f + 0x8000_0000_0000_0000) == 0.0 - Real(f)
  {
    hide RealPow2;
    assert (f + 0x8000_0000_0000_0000) / 0x10_0000_0000_0000 == f / 0x10_0000_0000_0000 + 2048;
    assert (f + 0x8000_0000_0000_0000) % 0x10_0000_0000_0000 == f % 0x10_0000_0000_0000;
  }

  function Fraction(f: F64): real {
    (f % 0x10_0000_0000_0000) as real / RealPow2(52)
  }

  lemma NormalValue(f: F64)
    requires f < 0x8000_0000_0000_0000 && 1 <= f / 0x10_0000_0000_0000 % 2048 < 2047
    ensures Real(f) == (1.0 + Fraction(f)) * RealPow2(f / 0x10_0000_0000_0000 % 2048 - 1023)
  {
    hide RealPow2;
  }

  lemma Twice(factor: real, power: real)
    ensures factor * (2.0 * power) == 2.0 * (factor * power)
  {
  }

  lemma NextExponent(f: F64)
    requires f < 0x8000_0000_0000_0000 && f / 0x10_0000_0000_0000 % 2048 < 2047
    ensures f + 0x10_0000_0000_0000 < 0x8000_0000_0000_0000
    ensures (f + 0x10_0000_0000_0000) / 0x10_0000_0000_0000 % 2048 == f / 0x10_0000_0000_0000 % 2048 + 1
    ensures Fraction(f + 0x10_0000_0000_0000) == Fraction(f)
  {
    hide RealPow2;
    assert (f + 0x10_0000_0000_0000) / 0x10_0000_0000_0000 == f / 0x10_0000_0000_0000 + 1;
  }

  lemma FloatDoubles(f: F64)
    requires f < 0x8000_0000_0000_0000
    ensures var exponent := f / 0x10_0000_0000_0000 % 2048;
            1 <= exponent < 2046 ==> Real(f + 0x10_0000_0000_0000) == 2.0 * Real(f)
  {
    var exponent := f / 0x10_0000_0000_0000 % 2048;
    if 1 <= exponent < 2046 {
      NextExponent(f);
      NormalValue(f);
      NormalValue(f + 0x10_0000_0000_0000);
      hide Real, Fraction;
      PowStep(exponent - 1023);
      hide RealPow2;
      Twice(1.0 + Fraction(f), RealPow2(exponent - 1023));
    }
  }
}
