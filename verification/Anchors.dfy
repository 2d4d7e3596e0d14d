/** What one trusted anchor does to the sync states, read off its text. */
module Anchors {
  import opened Prelude
  import opened Order
  import opened Client
  import opened Settlement
  import opened Sync
  import opened LockIds

  /** Texts, none of them with a colon in it. */
  ghost predicate Plain(parts: seq<Text>) {
    forall i :: 0 <= i < |parts| ==> COLON !in parts[i]
  }

  lemma {:induction false} SplitPlain(t: Text)
    requires COLON !in t
    ensures SplitColon(t) == [t]
  {
    if t == [] {
    } else {
      assert COLON !in t[1..];
      SplitPlain(t[1..]);
      assert [t[0]] + t[1..] == t;
    }
  }

  lemma {:induction false} SplitFirst(t: Text, rest: Text)
    requires COLON !in t
    ensures SplitColon(t + ([COLON] + rest)) == [t] + SplitColon(rest)
  {
    if t == [] {
      assert t + ([COLON] + rest) == [COLON] + rest;
      SplitAtColon(rest);
    } else {
      var tail := t[1..];
      assert COLON !in tail;
      SplitFirst(tail, rest);
      assert t + ([COLON] + rest) == [t[0]] + (tail + ([COLON] + rest));
      SplitLetter(t[0], tail + ([COLON] + rest));
      assert [t[0]] + tail == t;
      assert ([tail] + SplitColon(rest))[1..] == SplitColon(rest);
    }
  }

  /** Splitting undoes joining with colons. */
  lemma {:induction false} SplitOfJoin(parts: seq<Text>)
    requires |parts| >= 1 && Plain(parts)
    ensures SplitColon(JoinColon(parts)) == parts
    decreases |parts|
  {
    if |parts| == 1 {
      SplitPlain(parts[0]);
    } else {
      SplitOfJoin(parts[1..]);
      SplitFirst(parts[0], JoinColon(parts[1..]));
      assert parts[0] + [COLON] + JoinColon(parts[1..]) == parts[0] + ([COLON] + JoinColon(parts[1..]));
      assert parts == [parts[0]] + parts[1..];
    }
  }

  // ---------------------------------------------------------------- numbers

  ghost predicate AllDigits(t: Text) {
    forall i :: 0 <= i < |t| ==> 48 <= t[i] <= 57
  }

  lemma {:induction false} DigitsExact(t: Text)
    ensures DigitsValue(t).Some? <==> AllDigits(t)
  {
    if t == [] {
    } else {
      var last := |t| - 1;
      DigitsExact(t[..last]);
      assert t == t[..last] + [t[last]];
    }
  }

  lemma {:induction false} LeadingZero(t: Text)
    ensures DigitsValue([48] + t) == DigitsValue(t)
  {
    if t == [] {
      assert ([48] + t)[..0] == [];
    } else {
      var last := |t| - 1;
      LeadingZero(t[..last]);
      assert ([48] + t)[..last + 1] == [48] + t[..last];
    }
  }

  lemma {:induction false} DecimalNonEmpty(n: nat)
    ensures DecimalText(n) != [] && AllDigits(DecimalText(n))
  {
    if n < 10 {
    } else {
      DecimalNonEmpty(n / 10);
    }
  }

  const PLUS: Byte := 43
  const MINUS: Byte := 45

  /** The digits are the number in decimal, with any number of zeros in front. */
  ghost predicate Writes(digits: Text, n: nat) {
    exists zeros: nat :: digits == Zeros(zeros) + DecimalText(n)
  }

  /** The text is the number in decimal, plain or signed. */
  ghost predicate Prints(t: Text, n: int) {
    exists digits, m: nat :: Writes(digits, m) && PrintsAs(t, n, digits, m)
  }

  ghost predicate PrintsAs(t: Text, n: int, digits: Text, m: nat) {
    (n == m && (t == digits || t == [PLUS] + digits)) || (n + m == 0 && t == [MINUS] + digits)
  }

  function Zeros(n: nat): Text {
    if n == 0 then [] else [48] + Zeros(n - 1)
  }

  lemma {:induction false} ZerosFirst(zeros: nat, n: nat)
    ensures DigitsValue(Zeros(zeros) + DecimalText(n)) == Some(n)
    ensures Zeros(zeros) + DecimalText(n) != []
  {
    if zeros == 0 {
      DecimalRoundTrip(n);
      DecimalNonEmpty(n);
      assert Zeros(0) + DecimalText(n) == DecimalText(n);
    } else {
      ZerosFirst(zeros - 1, n);
      var rest := Zeros(zeros - 1) + DecimalText(n);
      LeadingZero(rest);
      assert Zeros(zeros) == [48] + Zeros(zeros - 1);
      hide Zeros, DecimalText, DigitsValue;
      assert Zeros(zeros) + DecimalText(n) == [48] + rest;
    }
  }

  lemma WrittenDigits(digits: Text, n: nat)
    requires Writes(digits, n)
    ensures DigitsValue(digits) == Some(n) && digits != [] && 48 <= digits[0] <= 57
  {
    var zeros: nat :| digits == Zeros(zeros) + DecimalText(n);
    ZerosFirst(zeros, n);
    hide Zeros, DecimalText;
    DigitsExact(digits);
  }

  /** Every string of digits is zeros and a number in decimal. */
  lemma {:induction false} DigitsPrint(t: Text) returns (zeros: nat, n: nat)
    requires t != [] && AllDigits(t)
    ensures t == Zeros(zeros) + DecimalText(n)
  {
    var last := |t| - 1;
    if last == 0 {
      zeros, n := 0, t[0] - 48;
      assert t == [t[0]];
    } else {
      var z, m := DigitsPrint(t[..last]);
      if m == 0 {
        zeros, n := z + 1, t[last] - 48;
        ZerosEnd(z);
        assert DecimalText(0) == [48];
        assert t == t[..last] + [t[last]];
        assert DecimalText(n) == [t[last]];
      } else {
        zeros, n := z, 10 * m + (t[last] - 48);
        assert n / 10 == m && n % 10 == t[last] - 48;
        assert DecimalText(n) == DecimalText(m) + [t[last]];
        assert t == t[..last] + [t[last]];
      }
    }
  }

  lemma {:induction false} ZerosEnd(z: nat)
    ensures Zeros(z) + [48] == Zeros(z + 1)
  {
    if z == 0 {
    } else {
      ZerosEnd(z - 1);
      assert Zeros(z) + [48] == [48] + (Zeros(z - 1) + [48]);
    }
  }

  /** A text reads as a 64-bit number exactly when it prints it. */
  lemma NumberExact(t: Text, n: int)
    requires -TWO_63 <= n < TWO_63
    ensures ParseI64(t) == Some(n) <==> Prints(t, n)
  {
    if ParseI64(t) == Some(n) {
      var signed := t != [] && (t[0] == PLUS || t[0] == MINUS);
      var digits := if signed then t[1..] else t;
      DigitsExact(digits);
      var zeros, m := DigitsPrint(digits);
      ZerosFirst(zeros, m);
      assert signed ==> t == [t[0]] + digits;
      hide DecimalText, Zeros, DigitsValue;
      assert Writes(digits, m);
      assert PrintsAs(t, n, digits, m);
    }
    if Prints(t, n) {
      PrintedNumber(t, n);
    }
  }

  lemma UnsignedNumber(digits: Text, m: nat)
    requires DigitsValue(digits) == Some(m) && digits != [] && 48 <= digits[0] <= 57
    ensures ParseI64(digits) == if m < TWO_63 then Some(m) else None
  {
    hide DigitsValue;
  }

  lemma SignedNumber(sign: Byte, digits: Text, m: nat)
    requires DigitsValue(digits) == Some(m) && digits != [] && (sign == PLUS || sign == MINUS)
    ensures sign == PLUS && m < TWO_63 ==> ParseI64([sign] + digits) == Some(m)
    ensures sign == MINUS && m <= TWO_63 ==> ParseI64([sign] + digits) == Some(0 - m)
  {
    hide DigitsValue;
    assert ([sign] + digits)[1..] == digits;
  }

  lemma PrintedNumber(t: Text, n: int)
    requires -TWO_63 <= n < TWO_63 && Prints(t, n)
    ensures ParseI64(t) == Some(n)
  {
    hide Writes, DigitsValue, ParseI64;
    var digits, m: nat :| Writes(digits, m) && PrintsAs(t, n, digits, m);
    WrittenDigits(digits, m);
    UnsignedNumber(digits, m);
    SignedNumber(PLUS, digits, m);
    SignedNumber(MINUS, digits, m);
  }

  lemma NoNumber(t: Text)
    ensures ParseI64(t).None? <==> forall n :: Prints(t, n) ==> !(-TWO_63 <= n < TWO_63)
  {
    if ParseI64(t).Some? {
      NumberExact(t, ParseI64(t).value);
    } else {
      forall n | Prints(t, n) ensures !(-TWO_63 <= n < TWO_63) {
        if -TWO_63 <= n < TWO_63 {
          NumberExact(t, n);
        }
      }
    }
  }

  // ---------------------------------------------------------------- one anchor

  /** The sync state `b` is `a` with the checkpoint added, if it is new, and last trusted. */
  ghost predicate Trusts(a: SyncState, b: SyncState, checkpointId: Text) {
    && b.domain == a.domain
    && b.frontier == (if checkpointId in a.frontier then a.frontier else a.frontier + [checkpointId])
    && b.lastTrusted == Some(checkpointId)
  }

  /** Only the domain `d` trusts the checkpoint, and no other sync state changes. */
  ghost predicate TrustedIn(a: map<Text, SyncState>, b: map<Text, SyncState>, d: Text, checkpointId: Text) {
    && d in a && b.Keys == a.Keys
    && Trusts(a[d], b[d], checkpointId)
    && forall e :: e in a && e != d ==> b[e] == a[e]
  }

  lemma {:induction false} OneAnchor(sync: map<Text, SyncState>, anchor: Text)
    ensures SortedSet([anchor]) == [anchor]
    ensures var parsed := ParseTrustedAnchor(sync.Keys, anchor);
            AnchorsApplied(sync, [anchor]) == if parsed.Rejected? then (sync, false)
                                              else (AnchorApplied(sync, parsed), true)
  {
    SortedUnique(SortedSet([anchor]), [anchor]);
    assert [anchor][1..] == [];
  }

  lemma OneAnchorResynced(s: ClientState, anchor: Text, order: seq<Text>)
    ensures var (s', r) := Resynced(s, [anchor], order);
            var parsed := ParseTrustedAnchor(s.sync.Keys, anchor);
            && (r.Success? <==> !parsed.Rejected?)
            && s'.sync == if parsed.Rejected? then s.sync else AnchorApplied(s.sync, parsed)
  {
    OneAnchor(s.sync, anchor);
    hide SortedSet, AnchorsApplied, AllReplayLogged, ParseTrustedAnchor, AnchorApplied;
    ReplayKeeps(s.(sync := AnchorsApplied(s.sync, [anchor]).0), order);
  }

  function NumberedAnchor(d: Text, height: Text, between: seq<Text>, id: Text): Text {
    JoinColon([d, height] + between + [id])
  }

  /**
   * `domain:height:id`, with or without more parts before the id: the domain trusts the id, and its watermark rises to
   * the height, if that is a number. The parts between height and id are ignored.
   */
  lemma NumberedAnchorTrusted(s: ClientState, d: Text, height: Text, between: seq<Text>, id: Text, order: seq<Text>)
    requires d in s.sync && Plain([d, height] + between + [id])
    ensures var (s', r) := Resynced(s, [NumberedAnchor(d, height, between, id)], order);
            && r.Success? && TrustedIn(s.sync, s'.sync, d, id)
            && (forall n :: -TWO_63 <= n < TWO_63 && Prints(height, n) ==>
                  s'.sync[d].watermark == if n > s.sync[d].watermark then n else s.sync[d].watermark)
            && ((forall n :: Prints(height, n) ==> !(-TWO_63 <= n < TWO_63)) ==>
                  s'.sync[d].watermark == s.sync[d].watermark)
  {
    var anchor := NumberedAnchor(d, height, between, id);
    NumberedParts(s.sync.Keys, d, height, between, id);
    hide NumberedAnchor, ParseTrustedAnchor, Resynced;
    OneAnchorResynced(s, anchor, order);
    NoNumber(height);
    forall n | -TWO_63 <= n < TWO_63 && Prints(height, n) ensures ParseI64(height) == Some(n) {
      NumberExact(height, n);
    }
    hide Prints, ParseI64;
  }

  lemma NumberedParts(known: set<Text>, d: Text, height: Text, between: seq<Text>, id: Text)
    requires d in known && Plain([d, height] + between + [id])
    ensures ParseTrustedAnchor(known, NumberedAnchor(d, height, between, id)) == At(d, id, ParseI64(height))
  {
    hide ParseI64, JoinColon, SplitColon;
    SplitOfJoin([d, height] + between + [id]);
  }

  /** `domain:id` with the domain known: the domain trusts the id, and no watermark moves. */
  lemma PlainAnchorTrusted(s: ClientState, d: Text, id: Text, order: seq<Text>)
    requires d in s.sync && Plain([d, id])
    ensures var (s', r) := Resynced(s, [JoinColon([d, id])], order);
            && r.Success? && TrustedIn(s.sync, s'.sync, d, id) && s'.sync[d].watermark == s.sync[d].watermark
  {
    SplitOfJoin([d, id]);
    OneAnchorResynced(s, JoinColon([d, id]), order);
    hide Resynced, JoinColon;
  }

  /** The whole anchor is trusted in every domain, and no watermark moves. */
  ghost predicate TrustedWhole(s: ClientState, anchor: Text, order: seq<Text>) {
    var (s', r) := Resynced(s, [anchor], order);
    && r.Success? && s'.sync.Keys == s.sync.Keys
    && forall d :: d in s.sync ==> Trusts(s.sync[d], s'.sync[d], anchor)
                                   && s'.sync[d].watermark == s.sync[d].watermark
  }

  lemma WholeAnchorTrusted(s: ClientState, anchor: Text, order: seq<Text>)
    requires COLON !in anchor
             || exists first, second :: Plain([first, second]) && first !in s.sync
                                        && anchor == JoinColon([first, second])
    ensures TrustedWhole(s, anchor, order)
  {
    WholeParts(s.sync.Keys, anchor);
    hide Resynced, ParseTrustedAnchor;
    OneAnchorResynced(s, anchor, order);
  }

  lemma WholeParts(known: set<Text>, anchor: Text)
    requires COLON !in anchor
             || exists first, second :: Plain([first, second]) && first !in known
                                        && anchor == JoinColon([first, second])
    ensures ParseTrustedAnchor(known, anchor) == Everywhere(anchor)
  {
    hide ParseI64, SplitColon;
    if COLON !in anchor {
      SplitPlain(anchor);
    } else {
      var first, second :| Plain([first, second]) && first !in known && anchor == JoinColon([first, second]);
      SplitOfJoin([first, second]);
    }
  }

  /** Three parts or more whose first is no known domain: an error, and nothing is trusted. */
  lemma UnknownAnchorRejected(s: ClientState, parts: seq<Text>, order: seq<Text>)
    requires |parts| >= 3 && Plain(parts) && parts[0] !in s.sync
    ensures Resynced(s, [JoinColon(parts)], order) == (s, Failure(NotFound))
  {
    SplitOfJoin(parts);
    OneAnchor(s.sync, JoinColon(parts));
    hide SortedSet, AnchorsApplied, JoinColon;
  }

  /** Every text is such an anchor: its parts, none with a colon, joined by colons. */
  lemma EveryAnchorHasParts(anchor: Text) returns (parts: seq<Text>)
    ensures |parts| >= 1 && Plain(parts) && anchor == JoinColon(parts)
  {
    parts := SplitColon(anchor);
    SplitJoins(anchor);
  }

  // ---------------------------------------------------------------- the count of domains

  /** The anchors of a resync reach the domains that hear something of them. */
  lemma {:induction false} ReachedDomains(sync: map<Text, SyncState>, anchors: seq<Text>)
    requires AllAccepted(sync.Keys, anchors) && forall d :: d in sync ==> sync[d].domain == d
    ensures forall d :: d in AllReached(sync, anchors) <==> d in sync && Heard(sync.Keys, d, anchors) != []
    decreases |anchors|
  {
    hide ParseTrustedAnchor;
    if anchors == [] {
    } else {
      var last := |anchors| - 1;
      var front, next := anchors[..last], anchors[last];
      assert forall i :: 0 <= i < last ==> front[i] == anchors[i];
      ReachedDomains(sync, front);
      assert anchors == front + [next];
      forall d ensures d in AllReached(sync, anchors) <==> d in sync && Heard(sync.Keys, d, anchors) != [] {
        HeardMore(sync.Keys, d, front, next);
      }
    }
  }

  lemma {:induction false} HeardMore(known: set<Text>, d: Text, anchors: seq<Text>, next: Text)
    ensures Heard(known, d, anchors + [next]) == Heard(known, d, anchors) + Heard(known, d, [next])
    decreases |anchors|
  {
    hide ParseTrustedAnchor;
    if anchors == [] {
      assert anchors + [next] == [next];
    } else {
      HeardMore(known, d, anchors[1..], next);
      assert (anchors + [next])[1..] == anchors[1..] + [next];
    }
  }

  /** What an accepted resync reports: replays, no conflicts, and how many domains heard an anchor. */
  lemma ResyncReports(s: ClientState, anchors: seq<Text>, order: seq<Text>)
    requires Resynced(s, anchors, order).1.Success? && forall d :: d in s.sync ==> s.sync[d].domain == d
    ensures var unique, r := SortedSet(anchors), Resynced(s, anchors, order).1.value;
            && r.reconciled == |order| && r.conflicts == 0
            && r.syncedDomains == |set d | d in s.sync && Heard(s.sync.Keys, d, unique) != []|
  {
    var unique := SortedSet(anchors);
    var k := AnchorsUpToRejected(s.sync, unique);
    assert unique[..k] == unique;
    ReachedDomains(s.sync, unique);
    assert AllReached(s.sync, unique) == set d | d in s.sync && Heard(s.sync.Keys, d, unique) != [];
  }
}
