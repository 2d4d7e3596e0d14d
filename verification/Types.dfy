/** Coordinates and events, and their canonical byte encodings. */
module Types {
  import opened Prelude

  const HASH_LEN: nat := 32

  type Hash = h: seq<Byte> | |h| == HASH_LEN witness seq(HASH_LEN, _ => 0)

  const ZERO_HASH: Hash := [
    0, 0, 0, 0, 0, 0, 0, 0, 0, 0, 0, 0, 0, 0, 0, 0,
    0, 0, 0, 0, 0, 0, 0, 0, 0, 0, 0, 0, 0, 0, 0, 0]

  /** An `f64`, as its 64-bit pattern. */
  type F64 = U64

  function BiasedExponent(f: F64): nat {
    f / 0x10_0000_0000_0000 % 2048
  }

  predicate IsFinite(f: F64) {
    BiasedExponent(f) != 2047
  }

  function RealPow2(k: int): (r: real)
    ensures r > 0.0
    decreases if k < 0 then -k else k
  {
    if k == 0 then 1.0 else if k > 0 then 2.0 * RealPow2(k - 1) else RealPow2(k + 1) / 2.0
  }

  /** The real number a finite `f64` pattern stands for; infinities and NaNs read as 0. */
  function Real(f: F64): real {
    var exponent := BiasedExponent(f);
    var fraction := (f % 0x10_0000_0000_0000) as real / RealPow2(52);
    var magnitude :=
      if exponent == 2047 then 0.0
      else if exponent == 0 then fraction * RealPow2(-1022)
      else (1.0 + fraction) * RealPow2(exponent - 1023);
    if f >= TWO_63 then -magnitude else magnitude
  }

  datatype TimeInterval = TimeInterval(tMin: I64, tMax: I64) {
    predicate IsValid() {
      tMin <= tMax
    }
  }

  datatype Region3D = Region3D(x: F64, y: F64, z: F64, radiusLy: F64) {
    predicate IsValid() {
      IsFinite(radiusLy) && Real(radiusLy) >= 0.0
    }
  }

  datatype SpacetimeCoord = SpacetimeCoord(
    frameId: Text,
    timeInterval: TimeInterval,
    positionRegion: Region3D,
    uncertainty: F64,
    attestation: seq<Text>)
  {
    predicate IsValid() {
      && timeInterval.IsValid()
      && positionRegion.IsValid()
      && IsFinite(uncertainty)
      && Real(uncertainty) >= 0.0
    }
  }

  datatype Event = Event(
    eventId: Text,
    actorId: Text,
    domainId: Text,
    kind: Text,
    payloadHash: Hash,
    coord: SpacetimeCoord,
    localSequence: nat,
    causalDependencies: seq<Text>,
    signatures: seq<Text>)

  // ---------------------------------------------------------------- little-endian words

  /** The low `width` bytes of `n`, least significant first. */
  function LeBytes(n: nat, width: nat): (bs: Text)
    ensures |bs| == width
  {
    if width == 0 then [] else [n % 256] + LeBytes(n / 256, width - 1)
  }

  function LeValue(bs: Text): nat {
    if bs == [] then 0 else bs[0] + 256 * LeValue(bs[1..])
  }

  /** `to_le_bytes` of a 64-bit quantity; a longer number is cut to its low 64 bits. */
  function Word(n: nat): (bs: Text)
    ensures |bs| == 8
  {
    LeBytes(n, 8)
  }

  /** The unsigned reading of an `i64`. */
  function I64Bits(t: I64): U64 {
    if t < 0 then t + TWO_64 else t
  }

  function Pow256(k: nat): nat {
    if k == 0 then 1 else 256 * Pow256(k - 1)
  }

  lemma Pow256Eight()
    ensures Pow256(8) == TWO_64
  {
    assert Pow256(2) == 0x1_0000;
    assert Pow256(4) == 0x1_0000_0000;
    assert Pow256(6) == 0x1_0000_0000_0000;
  }

  lemma {:induction false} LeRoundTrip(n: nat, width: nat)
    requires n < Pow256(width)
    ensures LeValue(LeBytes(n, width)) == n
  {
    if width == 0 {
    } else {
      LeRoundTrip(n / 256, width - 1);
      assert LeBytes(n, width)[1..] == LeBytes(n / 256, width - 1);
    }
  }

  lemma {:induction false} LeValueBytes(bs: Text)
    ensures LeValue(bs) < Pow256(|bs|)
    ensures LeBytes(LeValue(bs), |bs|) == bs
  {
    if bs == [] {
    } else {
      LeValueBytes(bs[1..]);
      assert LeValue(bs) / 256 == LeValue(bs[1..]);
    }
  }

  // ---------------------------------------------------------------- encoders

  function TextBytes(t: Text): Text {
    Word(|t|) + t
  }

  function TextsBody(ts: seq<Text>): Text {
    if ts == [] then [] else TextBytes(ts[0]) + TextsBody(ts[1..])
  }

  function TextsBytes(ts: seq<Text>): Text {
    Word(|ts|) + TextsBody(ts)
  }

  function WordsBytes(ws: seq<U64>): Text {
    if ws == [] then [] else Word(ws[0]) + WordsBytes(ws[1..])
  }

  function CoordWords(c: SpacetimeCoord): seq<U64> {
    [I64Bits(c.timeInterval.tMin), I64Bits(c.timeInterval.tMax),
     c.positionRegion.x, c.positionRegion.y, c.positionRegion.z,
     c.positionRegion.radiusLy, c.uncertainty]
  }

  function CoordBytes(c: SpacetimeCoord): Text {
    TextBytes(c.frameId) + (WordsBytes(CoordWords(c)) + TextsBytes(c.attestation))
  }

  function EventNames(e: Event): seq<Text> {
    [e.eventId, e.actorId, e.domainId, e.kind]
  }

  /** What follows the coordinate in an event's encoding. */
  datatype EventTail = EventTail(localSequence: U64, causalDependencies: seq<Text>, signatures: seq<Text>)

  function TailBytes(tail: EventTail): Text {
    Word(tail.localSequence) + (TextsBytes(tail.causalDependencies) + TextsBytes(tail.signatures))
  }

  function TailOf(e: Event): EventTail
    requires e.localSequence < TWO_64
  {
    EventTail(e.localSequence, e.causalDependencies, e.signatures)
  }

  function EventBytes(e: Event): Text {
    TextsBody(EventNames(e)) + (e.payloadHash + (CoordBytes(e.coord)
      + (Word(e.localSequence) + (TextsBytes(e.causalDependencies) + TextsBytes(e.signatures)))))
  }

  lemma {:induction false} TextsBodySnoc(ts: seq<Text>, t: Text)
    ensures TextsBody(ts + [t]) == TextsBody(ts) + TextBytes(t)
  {
    if ts == [] {
      assert TextsBody([t]) == TextBytes(t) + TextsBody([]);
    } else {
      TextsBodySnoc(ts[1..], t);
      assert (ts + [t])[1..] == ts[1..] + [t];
    }
  }

  /** One pass of the encoders' list loops. */
  method AppendTexts(out0: Text, ts: seq<Text>) returns (out: Text)
    ensures out == out0 + TextsBytes(ts)
  {
    out := out0 + Word(|ts|);
    ghost var header := out;
    for i := 0 to |ts|
      invariant out == header + TextsBody(ts[..i])
    {
      TextsBodySnoc(ts[..i], ts[i]);
      assert ts[..i + 1] == ts[..i] + [ts[i]];
      out := out + Word(|ts[i]|);
      out := out + ts[i];
    }
    assert ts[..|ts|] == ts;
  }

  method EncodeBytes(c: SpacetimeCoord) returns (out: Text)
    ensures out == CoordBytes(c)
  {
    hide Word, TextsBytes;
    out := Word(|c.frameId|);
    out := out + c.frameId;
    ghost var frame := out;
    out := out + Word(I64Bits(c.timeInterval.tMin));
    out := out + Word(I64Bits(c.timeInterval.tMax));
    ghost var ws: seq<U64> := [I64Bits(c.timeInterval.tMin), I64Bits(c.timeInterval.tMax)];
    assert out == frame + WordsBytes(ws) by {
      WordsSnoc([], ws[0]);
      WordsSnoc([ws[0]], ws[1]);
      assert [] + [ws[0]] == [ws[0]] && [ws[0]] + [ws[1]] == ws;
      Assoc(frame, Word(ws[0]), Word(ws[1]));
      EmptyUnit(Word(ws[0]));
    }
    var center: seq<U64> := [c.positionRegion.x, c.positionRegion.y, c.positionRegion.z];
    for i := 0 to |center|
      invariant out == frame + WordsBytes(ws + center[..i])
    {
      assert ws + center[..i + 1] == (ws + center[..i]) + [center[i]];
      WordsSnoc(ws + center[..i], center[i]);
      Assoc(frame, WordsBytes(ws + center[..i]), Word(center[i]));
      out := out + Word(center[i]);
    }
    assert center[..|center|] == center;
    ws := ws + center;
    out := out + Word(c.positionRegion.radiusLy);
    WordsSnoc(ws, c.positionRegion.radiusLy);
    Assoc(frame, WordsBytes(ws), Word(c.positionRegion.radiusLy));
    ws := ws + [c.positionRegion.radiusLy];
    out := out + Word(c.uncertainty);
    WordsSnoc(ws, c.uncertainty);
    Assoc(frame, WordsBytes(ws), Word(c.uncertainty));
    assert ws + [c.uncertainty] == CoordWords(c);
    Assoc(frame, WordsBytes(CoordWords(c)), TextsBytes(c.attestation));
    out := AppendTexts(out, c.attestation);
  }

  lemma {:induction false} WordsSnoc(ws: seq<U64>, w: U64)
    ensures WordsBytes(ws + [w]) == WordsBytes(ws) + Word(w)
  {
    if ws == [] {
      assert WordsBytes([w]) == Word(w) + WordsBytes([]);
    } else {
      WordsSnoc(ws[1..], w);
      assert (ws + [w])[1..] == ws[1..] + [w];
    }
  }

  /** The four names of an event, appended one by one. */
  method AppendNames(e: Event) returns (out: Text)
    ensures out == TextsBody(EventNames(e))
  {
    hide Word;
    var names := EventNames(e);
    out := [];
    for i := 0 to |names|
      invariant out == TextsBody(names[..i])
    {
      assert names[..i + 1] == names[..i] + [names[i]];
      TextsBodySnoc(names[..i], names[i]);
      Assoc(out, Word(|names[i]|), names[i]);
      out := out + Word(|names[i]|);
      out := out + names[i];
    }
    assert names[..|names|] == names;
  }

  method CanonicalBytes(e: Event) returns (out: Text)
    ensures out == EventBytes(e)
  {
    hide Word, TextsBytes, CoordBytes, TextsBody;
    out := AppendNames(e);
    out := out + e.payloadHash;
    var coord := EncodeBytes(e.coord);
    out := out + coord;
    out := out + Word(e.localSequence);
    out := AppendTexts(out, e.causalDependencies);
    out := AppendTexts(out, e.signatures);
    var names, word := TextsBody(EventNames(e)), Word(e.localSequence);
    var dependencies, signatures := TextsBytes(e.causalDependencies), TextsBytes(e.signatures);
    Assoc(names, e.payloadHash, coord);
    Assoc(names, e.payloadHash + coord, word);
    Assoc(names, e.payloadHash + coord + word, dependencies);
    Assoc(names, e.payloadHash + coord + word + dependencies, signatures);
    Assoc(e.payloadHash, coord, word);
    Assoc(e.payloadHash, coord + word, dependencies);
    Assoc(e.payloadHash, coord + word + dependencies, signatures);
    Assoc(coord, word, dependencies);
    Assoc(coord, word + dependencies, signatures);
    Assoc(word, dependencies, signatures);
  }

  // ---------------------------------------------------------------- a decoder

  function TakeBytes(n: nat, bs: Text): Option<(Text, Text)> {
    if |bs| < n then None else Some((bs[..n], bs[n..]))
  }

  function TakeWord(bs: Text): Option<(U64, Text)> {
    if |bs| < 8 then None else
    LeValueBytes(bs[..8]);
    Pow256Eight();
    Some((LeValue(bs[..8]), bs[8..]))
  }

  function TakeWords(n: nat, bs: Text): (r: Option<(seq<U64>, Text)>)
    ensures r.Some? ==> |r.value.0| == n
  {
    if n == 0 then Some(([], bs)) else
    var (w, more) :- TakeWord(bs);
    var (ws, rest) :- TakeWords(n - 1, more);
    Some(([w] + ws, rest))
  }

  function TakeText(bs: Text): Option<(Text, Text)> {
    var (n, rest) :- TakeWord(bs);
    TakeBytes(n, rest)
  }

  function TakeTextsBody(n: nat, bs: Text): (r: Option<(seq<Text>, Text)>)
    ensures r.Some? ==> |r.value.0| == n
  {
    if n == 0 then Some(([], bs)) else
    var (t, more) :- TakeText(bs);
    var (ts, rest) :- TakeTextsBody(n - 1, more);
    Some(([t] + ts, rest))
  }

  function TakeTexts(bs: Text): Option<(seq<Text>, Text)> {
    var (n, rest) :- TakeWord(bs);
    TakeTextsBody(n, rest)
  }

  function SignedBits(w: U64): I64 {
    if w >= TWO_63 then w - TWO_64 else w
  }

  function DecodeCoord(bs: Text): Option<(SpacetimeCoord, Text)> {
    var (frameId, afterFrame) :- TakeText(bs);
    var (ws, afterWords) :- TakeWords(7, afterFrame);
    var (attestation, rest) :- TakeTexts(afterWords);
    Some((SpacetimeCoord(frameId,
                         TimeInterval(SignedBits(ws[0]), SignedBits(ws[1])),
                         Region3D(ws[2], ws[3], ws[4], ws[5]),
                         ws[6],
                         attestation), rest))
  }

  function DecodeTail(bs: Text): Option<(EventTail, Text)> {
    var (sequence, afterSequence) :- TakeWord(bs);
    var (dependencies, afterDependencies) :- TakeTexts(afterSequence);
    var (signatures, rest) :- TakeTexts(afterDependencies);
    Some((EventTail(sequence, dependencies, signatures), rest))
  }

  function Assemble(names: seq<Text>, payload: Hash, coord: SpacetimeCoord, tail: EventTail): (e: Event)
    requires |names| == 4
    ensures EventNames(e) == names && e.payloadHash == payload && e.coord == coord
    ensures e.localSequence < TWO_64 && TailOf(e) == tail
  {
    Event(names[0], names[1], names[2], names[3], payload, coord,
          tail.localSequence, tail.causalDependencies, tail.signatures)
  }

  function DecodeEvent(bs: Text): Option<(Event, Text)> {
    var (names, afterNames) :- TakeTextsBody(4, bs);
    var (payload, afterPayload) :- TakeBytes(HASH_LEN, afterNames);
    var (coord, afterCoord) :- DecodeCoord(afterPayload);
    var (tail, rest) :- DecodeTail(afterCoord);
    Some((Assemble(names, payload, coord, tail), rest))
  }

  // ---------------------------------------------------------------- encode then decode

  /** Every length fits the 64-bit header that announces it, as it does for any Rust `Vec` or `String`. */
  ghost predicate Sized(ts: seq<Text>) {
    && |ts| < TWO_64
    && forall t :: t in ts ==> |t| < TWO_64
  }

  ghost predicate SizedCoord(c: SpacetimeCoord) {
    |c.frameId| < TWO_64 && Sized(c.attestation)
  }

  ghost predicate SizedEvent(e: Event) {
    && Sized(EventNames(e)) && SizedCoord(e.coord) && e.localSequence < TWO_64
    && Sized(e.causalDependencies) && Sized(e.signatures)
  }

  lemma TakeWordOfWord(n: U64, rest: Text)
    ensures TakeWord(Word(n) + rest) == Some((n, rest))
  {
    Pow256Eight();
    LeRoundTrip(n, 8);
    assert (Word(n) + rest)[..8] == Word(n);
    assert (Word(n) + rest)[8..] == rest;
  }

  lemma TakeTextOfText(t: Text, rest: Text)
    requires |t| < TWO_64
    ensures TakeText(TextBytes(t) + rest) == Some((t, rest))
  {
    assert TextBytes(t) + rest == Word(|t|) + (t + rest);
    TakeWordOfWord(|t|, t + rest);
    assert (t + rest)[..|t|] == t;
    assert (t + rest)[|t|..] == rest;
  }

  lemma {:induction false} TakeBodyOfBody(ts: seq<Text>, rest: Text)
    requires Sized(ts)
    ensures TakeTextsBody(|ts|, TextsBody(ts) + rest) == Some((ts, rest))
  {
    if ts == [] {
      assert TextsBody(ts) + rest == rest;
    } else {
      var more := TextsBody(ts[1..]) + rest;
      assert TextsBody(ts) + rest == TextBytes(ts[0]) + more;
      TakeTextOfText(ts[0], more);
      TakeBodyOfBody(ts[1..], rest);
      assert [ts[0]] + ts[1..] == ts;
    }
  }

  lemma TakeTextsOfTexts(ts: seq<Text>, rest: Text)
    requires Sized(ts)
    ensures TakeTexts(TextsBytes(ts) + rest) == Some((ts, rest))
  {
    assert TextsBytes(ts) + rest == Word(|ts|) + (TextsBody(ts) + rest);
    TakeWordOfWord(|ts|, TextsBody(ts) + rest);
    TakeBodyOfBody(ts, rest);
  }

  lemma {:induction false} TakeWordsOfWords(ws: seq<U64>, rest: Text)
    ensures TakeWords(|ws|, WordsBytes(ws) + rest) == Some((ws, rest))
  {
    if ws == [] {
      assert WordsBytes(ws) + rest == rest;
    } else {
      var more := WordsBytes(ws[1..]) + rest;
      assert WordsBytes(ws) + rest == Word(ws[0]) + more;
      TakeWordOfWord(ws[0], more);
      TakeWordsOfWords(ws[1..], rest);
      assert [ws[0]] + ws[1..] == ws;
    }
  }

  lemma BitsOfSigned(t: I64)
    ensures SignedBits(I64Bits(t)) == t
  {
  }

  lemma CoordRoundTrip(c: SpacetimeCoord, rest: Text)
    requires SizedCoord(c)
    ensures DecodeCoord(CoordBytes(c) + rest) == Some((c, rest))
  {
    var afterWords := TextsBytes(c.attestation) + rest;
    var afterFrame := WordsBytes(CoordWords(c)) + afterWords;
    TakeTextOfText(c.frameId, afterFrame);
    TakeWordsOfWords(CoordWords(c), afterWords);
    TakeTextsOfTexts(c.attestation, rest);
    hide TakeText, TakeWords, TakeTexts, TextBytes, WordsBytes, TextsBytes, SignedBits, I64Bits;
    Assoc(WordsBytes(CoordWords(c)), TextsBytes(c.attestation), rest);
    Assoc(TextBytes(c.frameId), WordsBytes(CoordWords(c)) + TextsBytes(c.attestation), rest);
    BitsOfSigned(c.timeInterval.tMin);
    BitsOfSigned(c.timeInterval.tMax);
  }

  lemma TailRoundTrip(tail: EventTail, rest: Text)
    requires Sized(tail.causalDependencies) && Sized(tail.signatures)
    ensures DecodeTail(TailBytes(tail) + rest) == Some((tail, rest))
  {
    var afterDependencies := TextsBytes(tail.signatures) + rest;
    var afterSequence := TextsBytes(tail.causalDependencies) + afterDependencies;
    assert TailBytes(tail) + rest == Word(tail.localSequence) + afterSequence;
    TakeWordOfWord(tail.localSequence, afterSequence);
    TakeTextsOfTexts(tail.causalDependencies, afterDependencies);
    TakeTextsOfTexts(tail.signatures, rest);
  }

  lemma EventLayout(e: Event, rest: Text)
    requires e.localSequence < TWO_64
    ensures EventBytes(e) + rest
         == TextsBody(EventNames(e)) + (e.payloadHash + (CoordBytes(e.coord) + (TailBytes(TailOf(e)) + rest)))
  {
    Reassociate(TextsBody(EventNames(e)), e.payloadHash, CoordBytes(e.coord), TailBytes(TailOf(e)), rest);
  }

  lemma Reassociate(a: Text, b: Text, c: Text, d: Text, rest: Text)
    ensures a + (b + (c + d)) + rest == a + (b + (c + (d + rest)))
  {
  }

  /** Decoding an encoded event gives back the event and exactly the bytes that followed it. */
  lemma EventRoundTrip(e: Event, rest: Text)
    requires SizedEvent(e)
    ensures DecodeEvent(EventBytes(e) + rest) == Some((e, rest))
  {
    var afterCoord := TailBytes(TailOf(e)) + rest;
    var afterPayload := CoordBytes(e.coord) + afterCoord;
    var afterNames := e.payloadHash + afterPayload;
    EventLayout(e, rest);
    TakeBodyOfBody(EventNames(e), afterNames);
    assert afterNames[..HASH_LEN] == e.payloadHash && afterNames[HASH_LEN..] == afterPayload;
    CoordRoundTrip(e.coord, afterCoord);
    TailRoundTrip(TailOf(e), rest);
  }

  /** No encoding is a prefix of another: a byte stream splits into events in at most one way. */
  lemma EventEncodingInjective(e1: Event, rest1: Text, e2: Event, rest2: Text)
    requires SizedEvent(e1) && SizedEvent(e2)
    requires EventBytes(e1) + rest1 == EventBytes(e2) + rest2
    ensures e1 == e2 && rest1 == rest2
  {
    EventRoundTrip(e1, rest1);
    EventRoundTrip(e2, rest2);
  }

  // ---------------------------------------------------------------- decode then encode

  lemma WordOfTaken(bs: Text)
    requires TakeWord(bs).Some?
    ensures var (n, rest) := TakeWord(bs).value; Word(n) + rest == bs
  {
    LeValueBytes(bs[..8]);
  }

  lemma TextOfTaken(bs: Text)
    requires TakeText(bs).Some?
    ensures var (t, rest) := TakeText(bs).value; TextBytes(t) + rest == bs && |t| < TWO_64
  {
    WordOfTaken(bs);
    hide Word, TakeWord;
    var (n, more) := TakeWord(bs).value;
    var (t, rest) := TakeText(bs).value;
    assert t + rest == more;
    Assoc(Word(n), t, rest);
  }

  lemma {:induction false} BodyOfTaken(n: nat, bs: Text)
    requires TakeTextsBody(n, bs).Some?
    ensures var (ts, rest) := TakeTextsBody(n, bs).value;
            TextsBody(ts) + rest == bs && forall t :: t in ts ==> |t| < TWO_64
  {
    hide TextBytes, TakeText;
    var (ts, rest) := TakeTextsBody(n, bs).value;
    if n == 0 {
      EmptyUnit(bs);
    } else {
      TextOfTaken(bs);
      var (t, more) := TakeText(bs).value;
      BodyOfTaken(n - 1, more);
      assert ts[0] == t && ts[1..] == TakeTextsBody(n - 1, more).value.0;
      Assoc(TextBytes(t), TextsBody(ts[1..]), rest);
    }
  }

  lemma TextsOfTaken(bs: Text)
    requires TakeTexts(bs).Some?
    ensures var (ts, rest) := TakeTexts(bs).value; TextsBytes(ts) + rest == bs && Sized(ts)
  {
    hide Word, TakeWord, TextsBody, TakeTextsBody;
    WordOfTaken(bs);
    var (n, more) := TakeWord(bs).value;
    BodyOfTaken(n, more);
    var (ts, rest) := TakeTexts(bs).value;
    Assoc(Word(n), TextsBody(ts), rest);
  }

  lemma {:induction false} WordsOfTaken(n: nat, bs: Text)
    requires TakeWords(n, bs).Some?
    ensures var (ws, rest) := TakeWords(n, bs).value; WordsBytes(ws) + rest == bs
  {
    hide Word, TakeWord;
    var (ws, rest) := TakeWords(n, bs).value;
    if n == 0 {
      EmptyUnit(bs);
    } else {
      WordOfTaken(bs);
      var (w, more) := TakeWord(bs).value;
      WordsOfTaken(n - 1, more);
      assert ws[0] == w && ws[1..] == TakeWords(n - 1, more).value.0;
      Assoc(Word(w), WordsBytes(ws[1..]), rest);
    }
  }

  lemma SignedBitsBack(w: U64)
    ensures I64Bits(SignedBits(w)) == w
  {
  }

  lemma CoordOfDecoded(bs: Text)
    requires DecodeCoord(bs).Some?
    ensures var (c, rest) := DecodeCoord(bs).value; CoordBytes(c) + rest == bs && SizedCoord(c)
  {
    TextOfTaken(bs);
    var (frameId, afterFrame) := TakeText(bs).value;
    WordsOfTaken(7, afterFrame);
    var (ws, afterWords) := TakeWords(7, afterFrame).value;
    TextsOfTaken(afterWords);
    hide TakeText, TakeWords, TakeTexts, TextBytes, WordsBytes, TextsBytes, SignedBits, I64Bits;
    var (c, rest) := DecodeCoord(bs).value;
    SignedBitsBack(ws[0]);
    SignedBitsBack(ws[1]);
    assert CoordWords(c) == ws;
    Assoc(WordsBytes(ws), TextsBytes(c.attestation), rest);
    Assoc(TextBytes(frameId), WordsBytes(ws) + TextsBytes(c.attestation), rest);
  }

  lemma TailOfDecoded(bs: Text)
    requires DecodeTail(bs).Some?
    ensures var (tail, rest) := DecodeTail(bs).value;
            TailBytes(tail) + rest == bs && Sized(tail.causalDependencies) && Sized(tail.signatures)
  {
    var (tail, rest) := DecodeTail(bs).value;
    WordOfTaken(bs);
    var (sequence, afterSequence) := TakeWord(bs).value;
    TextsOfTaken(afterSequence);
    var (dependencies, afterDependencies) := TakeTexts(afterSequence).value;
    TextsOfTaken(afterDependencies);
    assert TailBytes(tail) + rest
        == Word(sequence) + (TextsBytes(dependencies) + (TextsBytes(tail.signatures) + rest));
  }

  /** The decoder accepts nothing but encodings: what it reads, encoded again, is what it consumed. */
  lemma EventOfDecoded(bs: Text)
    requires DecodeEvent(bs).Some?
    ensures var (e, rest) := DecodeEvent(bs).value; EventBytes(e) + rest == bs && SizedEvent(e)
  {
    hide TakeTextsBody, DecodeCoord, DecodeTail, TextsBody, CoordBytes, TailBytes, EventBytes, EventNames, Assemble;
    BodyOfTaken(4, bs);
    var (names, afterNames) := TakeTextsBody(4, bs).value;
    var (payload, afterPayload) := TakeBytes(HASH_LEN, afterNames).value;
    CoordOfDecoded(afterPayload);
    var (coord, afterCoord) := DecodeCoord(afterPayload).value;
    TailOfDecoded(afterCoord);
    var (tail, rest) := DecodeTail(afterCoord).value;
    var e := Assemble(names, payload, coord, tail);
    assert DecodeEvent(bs) == Some((e, rest));
    EventLayout(e, rest);
    assert payload + afterPayload == afterNames;
    hide DecodeEvent, TakeBytes;
  }
}
