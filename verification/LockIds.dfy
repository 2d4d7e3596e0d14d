/** When two locks get one claim id, and the conflict that follows. */
module LockIds {
  import opened Prelude
  import opened Types
  import opened Causal
  import opened Ledger
  import opened Client
  import opened Settlement
  import opened Sync
  import opened Runs

  /** Printing a number and reading its digits gives the number back, and there is no colon among them. */
  lemma {:induction false} DecimalRoundTrip(n: nat)
    ensures DigitsValue(DecimalText(n)) == Some(n) && COLON !in DecimalText(n)
  {
    var digits := DecimalText(n);
    var last := |digits| - 1;
    if n < 10 {
      assert digits[..last] == [];
    } else {
      DecimalRoundTrip(n / 10);
      assert digits[..last] == DecimalText(n / 10);
    }
  }

  /** What follows the names in a claim id, behind a colon. */
  function Tail(amount: U64, lock: Text): Text {
    DecimalText(amount) + ([COLON] + lock)
  }

  function Names(origin: Text, remote: Text, asset: Text): Text {
    origin + ([COLON] + (remote + ([COLON] + asset)))
  }

  lemma LockIdLayout(origin: Text, remote: Text, asset: Text, amount: U64, lock: Text)
    ensures LockClaimId(origin, remote, asset, amount, lock)
         == Ascii("claim:") + (Names(origin, remote, asset) + ([COLON] + Tail(amount, lock)))
    ensures LockClaimId(origin, remote, asset, amount, lock)
         == Ascii("claim:") + (origin + ([COLON] + (remote + ([COLON]
            + (asset + ([COLON] + (DecimalText(amount) + ([COLON] + lock))))))))
  {
    assert Ascii(":") == [COLON];
  }

  lemma CancelLeft(u: Text, v: Text, w: Text)
    requires u + v == u + w
    ensures v == w
  {
    assert (u + v)[|u|..] == v && (u + w)[|u|..] == w;
  }

  /** A part without colons ends at the first colon. */
  lemma CancelPart(u: Text, v: Text, u': Text, v': Text)
    requires COLON !in u && COLON !in u' && u + ([COLON] + v) == u' + ([COLON] + v')
    ensures u == u' && v == v'
  {
    var t := u + ([COLON] + v);
    assert t[|u|] == COLON && t[|u'|] == COLON;
    assert forall k :: 0 <= k < |u| ==> t[k] == u[k] != COLON;
    assert forall k :: 0 <= k < |u'| ==> t[k] == u'[k] != COLON;
    assert t[..|u|] == u && t[..|u'|] == u' && t[|u| + 1..] == v && t[|u'| + 1..] == v';
  }

  /** Among names without colons the id determines the whole lock. */
  lemma LockIdsApart(origin: Text, remote: Text, asset: Text, amount: U64, lock: Text,
                     origin': Text, remote': Text, asset': Text, amount': U64, lock': Text)
    requires COLON !in origin + remote + asset && COLON !in origin' + remote' + asset'
    requires LockClaimId(origin, remote, asset, amount, lock) == LockClaimId(origin', remote', asset', amount', lock')
    ensures origin == origin' && remote == remote' && asset == asset' && amount == amount' && lock == lock'
  {
    LockIdLayout(origin, remote, asset, amount, lock);
    LockIdLayout(origin', remote', asset', amount', lock');
    DecimalRoundTrip(amount);
    DecimalRoundTrip(amount');
    hide LockClaimId, DecimalText, Ascii, DigitsValue;
    var rest3, rest3' := DecimalText(amount) + ([COLON] + lock), DecimalText(amount') + ([COLON] + lock');
    var rest2, rest2' := asset + ([COLON] + rest3), asset' + ([COLON] + rest3');
    var rest1, rest1' := remote + ([COLON] + rest2), remote' + ([COLON] + rest2');
    CancelLeft(Ascii("claim:"), origin + ([COLON] + rest1), origin' + ([COLON] + rest1'));
    CancelPart(origin, rest1, origin', rest1');
    CancelPart(remote, rest2, remote', rest2');
    CancelPart(asset, rest3, asset', rest3');
    CancelPart(DecimalText(amount), lock, DecimalText(amount'), lock');
  }

  lemma ColonsOfNames(origin: Text, remote: Text, asset: Text)
    ensures multiset(Names(origin, remote, asset))[COLON] == 2 + multiset(origin + remote + asset)[COLON]
  {
  }

  /** The id reads in two ways: a lock event id has a number between colons, or before its first one. */
  ghost predicate HasAmount(lock: Text) {
    || (exists m: U64, rest :: lock == Tail(m, rest))
    || (exists first, m: U64, rest :: lock == first + ([COLON] + Tail(m, rest)))
  }

  ghost predicate SameId(origin: Text, remote: Text, asset: Text, amount: U64, lock: Text,
                         origin': Text, remote': Text, asset': Text, amount': U64, lock': Text) {
    && LockClaimId(origin, remote, asset, amount, lock) == LockClaimId(origin', remote', asset', amount', lock')
    && !(origin == origin' && remote == remote' && asset == asset' && amount == amount' && lock == lock')
  }

  /**
   * Another lock has the claim id of this one exactly when one of this one's names contains a colon, or its event id
   * has an amount in it, set off by colons.
   */
  lemma LockIdSharedExact(origin: Text, remote: Text, asset: Text, amount: U64, lock: Text)
    ensures (exists origin', remote', asset', amount': U64, lock' ::
               SameId(origin, remote, asset, amount, lock, origin', remote', asset', amount', lock'))
       <==> COLON in origin + remote + asset || HasAmount(lock)
  {
    hide LockClaimId, SameId, HasAmount;
    if COLON in origin + remote + asset {
      SharedByColon(origin, remote, asset, amount, lock);
    }
    if HasAmount(lock) {
      SharedByAmount(origin, remote, asset, amount, lock);
    }
    if COLON !in origin + remote + asset {
      forall origin', remote', asset', amount': U64, lock' |
        SameId(origin, remote, asset, amount, lock, origin', remote', asset', amount', lock')
        ensures HasAmount(lock)
      {
        OnlyByAmount(origin, remote, asset, amount, lock, origin', remote', asset', amount', lock');
      }
    }
  }

  lemma SharedByColon(origin: Text, remote: Text, asset: Text, amount: U64, lock: Text)
    requires COLON in origin + remote + asset
    ensures exists origin', remote', asset', amount': U64, lock' ::
              SameId(origin, remote, asset, amount, lock, origin', remote', asset', amount', lock')
  {
    var origin', remote', asset' := OtherNames(origin, remote, asset);
    LockIdLayout(origin, remote, asset, amount, lock);
    LockIdLayout(origin', remote', asset', amount, lock);
    hide LockClaimId, Names;
    assert SameId(origin, remote, asset, amount, lock, origin', remote', asset', amount, lock);
  }

  /** The amount in the event id may as well be the lock's own, and what stands before it part of the asset's name. */
  lemma SharedByAmount(origin: Text, remote: Text, asset: Text, amount: U64, lock: Text)
    requires HasAmount(lock)
    ensures exists origin', remote', asset', amount': U64, lock' ::
              SameId(origin, remote, asset, amount, lock, origin', remote', asset', amount', lock')
  {
    if m: U64, rest :| lock == Tail(m, rest) {
      LongerAsset(origin, remote, asset, DecimalText(amount), amount, lock, m, rest);
    } else {
      var first, m: U64, rest :| lock == first + ([COLON] + Tail(m, rest));
      LongerAsset(origin, remote, asset, DecimalText(amount) + ([COLON] + first), amount, lock, m, rest);
    }
  }

  lemma LongerAsset(origin: Text, remote: Text, asset: Text, part: Text, amount: U64, lock: Text, m: U64, rest: Text)
    requires Tail(amount, lock) == part + ([COLON] + Tail(m, rest))
    ensures SameId(origin, remote, asset, amount, lock, origin, remote, asset + ([COLON] + part), m, rest)
  {
    var asset' := asset + ([COLON] + part);
    LockIdLayout(origin, remote, asset, amount, lock);
    LockIdLayout(origin, remote, asset', m, rest);
    NamesExtend(origin, remote, asset, [COLON] + part);
    hide LockClaimId, Tail, Ascii, DecimalText, Names;
    AssocBehind(Names(origin, remote, asset), [COLON], part, [COLON] + Tail(m, rest));
    assert |asset'| > |asset|;
  }

  lemma NamesExtend(origin: Text, remote: Text, asset: Text, more: Text)
    ensures Names(origin, remote, asset + more) == Names(origin, remote, asset) + more
  {
  }

  lemma AssocBehind(a: Text, b: Text, c: Text, d: Text)
    ensures a + (b + (c + d)) == (a + (b + c)) + d
  {
  }

  lemma OnlyByAmount(origin: Text, remote: Text, asset: Text, amount: U64, lock: Text,
                     origin': Text, remote': Text, asset': Text, amount': U64, lock': Text)
    requires COLON !in origin + remote + asset
    requires SameId(origin, remote, asset, amount, lock, origin', remote', asset', amount', lock')
    ensures HasAmount(lock)
  {
    var names, names' := Names(origin, remote, asset), Names(origin', remote', asset');
    var tail, tail' := Tail(amount, lock), Tail(amount', lock');
    SameText(origin, remote, asset, amount, lock, origin', remote', asset', amount', lock');
    ColonsOfNames(origin, remote, asset);
    ColonsOfNames(origin', remote', asset');
    assert COLON !in multiset(origin + remote + asset);
    assert COLON in origin' + remote' + asset' by {
      if COLON !in origin' + remote' + asset' {
        LockIdsApart(origin, remote, asset, amount, lock, origin', remote', asset', amount', lock');
      }
    }
    assert COLON in multiset(origin' + remote' + asset');
    hide LockClaimId, Names, Tail, SameId, HasAmount;
    var part := LongerNames(names, tail, names', tail');
    TailWithin(amount, lock, part, amount', lock');
  }

  lemma SameText(origin: Text, remote: Text, asset: Text, amount: U64, lock: Text,
                 origin': Text, remote': Text, asset': Text, amount': U64, lock': Text)
    requires SameId(origin, remote, asset, amount, lock, origin', remote', asset', amount', lock')
    ensures Names(origin, remote, asset) + ([COLON] + Tail(amount, lock))
         == Names(origin', remote', asset') + ([COLON] + Tail(amount', lock'))
  {
    LockIdLayout(origin, remote, asset, amount, lock);
    LockIdLayout(origin', remote', asset', amount', lock');
    hide LockClaimId, Names, Tail, Ascii;
    CancelLeft(Ascii("claim:"), Names(origin, remote, asset) + ([COLON] + Tail(amount, lock)),
               Names(origin', remote', asset') + ([COLON] + Tail(amount', lock')));
  }

  /** Of two ways to cut a text at a colon, the one with more colons in front has the longer front. */
  lemma LongerNames(u: Text, v: Text, u': Text, v': Text) returns (part: Text)
    requires u + ([COLON] + v) == u' + ([COLON] + v') && multiset(u)[COLON] < multiset(u')[COLON]
    ensures u' == u + ([COLON] + part) && v == part + ([COLON] + v')
  {
    var t := u + ([COLON] + v);
    assert t[..|u|] == u && t[..|u'|] == u';
    LongerHasMore(u, u', t);
    assert t[|u|] == COLON;
    part := u'[|u| + 1..];
    assert u' == u + ([COLON] + part) by {
      assert u'[..|u|] == u && u'[|u|] == COLON;
    }
    AssocBehind(u, [COLON], part, [COLON] + v');
    CancelLeft(u, [COLON] + v, [COLON] + (part + ([COLON] + v')));
    CancelLeft([COLON], v, part + ([COLON] + v'));
  }

  lemma LongerHasMore(u: Text, u': Text, t: Text)
    requires u <= t && u' <= t
    ensures |u'| <= |u| ==> multiset(u')[COLON] <= multiset(u)[COLON]
  {
    if |u'| <= |u| {
      assert u == u' + u[|u'|..];
      assert multiset(u) == multiset(u') + multiset(u[|u'|..]);
    }
  }

  lemma TailWithin(amount: U64, lock: Text, part: Text, m: U64, rest: Text)
    requires Tail(amount, lock) == part + ([COLON] + Tail(m, rest))
    ensures HasAmount(lock)
  {
    DecimalRoundTrip(amount);
    hide DecimalText, DigitsValue;
    if COLON !in part {
      CancelPart(DecimalText(amount), lock, part, Tail(m, rest));
    } else {
      var u, first := CutAtColon(part);
      assert u + ([COLON] + (first + ([COLON] + Tail(m, rest)))) == part + ([COLON] + Tail(m, rest));
      CancelPart(DecimalText(amount), lock, u, first + ([COLON] + Tail(m, rest)));
    }
  }

  lemma {:induction false} CutAtColon(t: Text) returns (before: Text, after: Text)
    requires COLON in t
    ensures t == before + ([COLON] + after) && COLON !in before
  {
    if t[0] == COLON {
      before, after := [], t[1..];
    } else {
      before, after := CutAtColon(t[1..]);
      before := [t[0]] + before;
    }
  }

  /** A colon inside one name may as well separate two. */
  lemma OtherNames(origin: Text, remote: Text, asset: Text) returns (origin': Text, remote': Text, asset': Text)
    requires COLON in origin + remote + asset
    ensures Names(origin', remote', asset') == Names(origin, remote, asset)
    ensures !(origin' == origin && remote' == remote && asset' == asset)
  {
    if COLON in origin {
      var x, y := CutAtColon(origin);
      origin', remote', asset' := x, y + ([COLON] + remote), asset;
    } else if COLON in remote {
      var x, y := CutAtColon(remote);
      origin', remote', asset' := origin + ([COLON] + x), y, asset;
      assert |origin'| > |origin|;
    } else {
      var x, y := CutAtColon(asset);
      origin', remote', asset' := origin, remote + ([COLON] + x), y;
      assert |remote'| > |remote|;
    }
  }

  // ---------------------------------------------------------------- the conflict

  function PlainTx(d: Text): Transaction {
    Transaction(d, Transfer, [], ZERO_HASH, AtOrigin(0, 0), [], [])
  }

  /** A transaction id that has the amount 5 and another event's id in it. */
  function LongTxId(d: Text, tx: Text, u: Text): Text {
    tx + ([COLON] + Tail(5, EventIdOf(d, u)))
  }

  /** An asset name that has the amount 1 and the beginning of an event id in it. */
  function LongAsset(d: Text, asset: Text, tx: Text): Text {
    asset + ([COLON] + Tail(1, EventIdOf(d, tx)))
  }

  lemma LongIdsMeet(d: Text, remote: Text, asset: Text, tx: Text, u: Text)
    ensures LockClaimId(d, remote, asset, 1, EventIdOf(d, LongTxId(d, tx, u)))
         == LockClaimId(d, remote, LongAsset(d, asset, tx), 5, EventIdOf(d, u))
  {
    var first, lock := EventIdOf(d, tx), EventIdOf(d, u);
    assert EventIdOf(d, LongTxId(d, tx, u)) == first + ([COLON] + Tail(5, lock));
    hide EventIdOf, LongTxId, DecimalText;
    var part := DecimalText(1) + ([COLON] + first);
    assert Tail(1, first + ([COLON] + Tail(5, lock))) == part + ([COLON] + Tail(5, lock));
    LongerAsset(d, remote, asset, part, 1, first + ([COLON] + Tail(5, lock)), 5, lock);
  }

  /** A client with two events in one domain, and a claim locked on the second. */
  function ClashRun(d: Text, remote: Text, asset: Text, tx: Text, u: Text): seq<Step> {
    [AddDomain(d), SubmitTx(d, u, PlainTx(d)), SubmitTx(d, LongTxId(d, tx, u), PlainTx(d)),
     Lock(EventIdOf(d, LongTxId(d, tx, u)), d, remote, asset, 1, AtOrigin(0, 0), 0)]
  }

  lemma EventAdded(s: ClientState, d: Text, txId: Text)
    requires d in s.domains && s.domains[d].domainId == d && !HasEvent(s.domains[d].eventLog, EventIdOf(d, txId))
    ensures var s' := TxSubmitted(s, d, txId, PlainTx(d)).0;
            && d in s'.domains && s'.domains[d].domainId == d && s' == s.(domains := s'.domains)
            && |s'.domains[d].eventLog| == |s.domains[d].eventLog| + 1
            && s.domains[d].eventLog <= s'.domains[d].eventLog
            && var event := s'.domains[d].eventLog[|s.domains[d].eventLog|];
               event.eventId == EventIdOf(d, txId) && event.causalDependencies == []
  {
    AtOriginPlace(0, 0);
    hide EventIdOf, KindName, AtOrigin, HasEvent;
  }

  lemma EventIdsDiffer(d: Text, a: Text, b: Text)
    requires |a| != |b|
    ensures EventIdOf(d, a) != EventIdOf(d, b)
  {
  }

  lemma TwoEvents(s: ClientState, d: Text, a: Text, b: Text)
    requires s.domains == map[] && |a| != |b|
    ensures var s' := TxSubmitted(TxSubmitted(DomainAdded(s, d).0, d, a, PlainTx(d)).0, d, b, PlainTx(d)).0;
            && d in s'.domains && s'.claims == s.claims && s'.policy == s.policy
            && var log := s'.domains[d].eventLog;
               && |log| == 2 && log[0].eventId == EventIdOf(d, a) && log[1].eventId == EventIdOf(d, b)
               && log[0].causalDependencies == [] && log[1].causalDependencies == []
               && GetEvent(log, EventIdOf(d, a)) == Some(log[0]) && GetEvent(log, EventIdOf(d, b)) == Some(log[1])
  {
    EventIdsDiffer(d, a, b);
    hide EventIdOf, TxSubmitted, PlainTx;
    var s0 := DomainAdded(s, d).0;
    EventAdded(s0, d, a);
    var s1 := TxSubmitted(s0, d, a, PlainTx(d)).0;
    EventAdded(s1, d, b);
    var log := TxSubmitted(s1, d, b, PlainTx(d)).0.domains[d].eventLog;
    assert log[0] == s1.domains[d].eventLog[0];
    assert log[1..][0] == log[1];
  }

  lemma LockOpens(s: ClientState, d: Text, remote: Text, asset: Text, amount: U64, lock: Text)
    requires s.claims == map[] && d != remote && d in s.domains && amount > 0
    requires var found := GetEvent(s.domains[d].eventLog, lock); found.Some? && found.value.causalDependencies == []
    ensures var (s', r) := LockedForExport(s, lock, d, remote, asset, amount, AtOrigin(0, 0), 0);
            && r.Success? && s'.domains == s.domains && s'.policy == s.policy
            && s'.claims == map[LockClaimId(d, remote, asset, amount, lock) := r.value]
            && r.value.lockEventId == lock
  {
    hide LockClaimId, LightconePossible, LockCheckpointFor, AtOrigin;
  }

  lemma LockClashes(s: ClientState, d: Text, remote: Text, asset: Text, amount: U64, lock: Text, id: Text,
                    claim: SettlementClaim)
    requires d != remote && d in s.domains && amount > 0
    requires var found := GetEvent(s.domains[d].eventLog, lock); found.Some? && found.value.causalDependencies == []
    requires s.claims == map[id := claim] && claim.lockEventId != lock
    requires id == LockClaimId(d, remote, asset, amount, lock)
    ensures !LockInUse(s.claims, lock, d)
    ensures LockedForExport(s, lock, d, remote, asset, amount, AtOrigin(0, 0), 0).1 == Failure(Conflict)
  {
    hide LockClaimId, LightconePossible, LockCheckpointFor, AtOrigin;
  }

  /**
   * Of two locks that share an id the second is refused, although its own event is free: a client that would have
   * accepted it before the first one no longer does.
   */
  lemma SharedIdConflict(s: ClientState, d: Text, remote: Text, asset: Text, tx: Text, u: Text)
    requires s.domains == map[] && s.claims == map[] && d != remote
    ensures var lock, other := EventIdOf(d, u), LongAsset(d, asset, tx);
            var before := Run(s, ClashRun(d, remote, asset, tx, u)[..3]);
            var after := Run(s, ClashRun(d, remote, asset, tx, u));
            && LockedForExport(before, lock, d, remote, other, 5, AtOrigin(0, 0), 0).1.Success?
            && !LockInUse(after.claims, lock, d)
            && LockedForExport(after, lock, d, remote, other, 5, AtOrigin(0, 0), 0).1 == Failure(Conflict)
  {
    var long, other := LongTxId(d, tx, u), LongAsset(d, asset, tx);
    var lock, first := EventIdOf(d, u), EventIdOf(d, long);
    assert |long| > |u|;
    EventIdsDiffer(d, u, long);
    LongIdsMeet(d, remote, asset, tx, u);
    ClashSteps(s, d, remote, asset, tx, u);
    hide Run, ClashRun, LongTxId, LongAsset, EventIdOf, LockClaimId, TxSubmitted, DomainAdded, LockedForExport,
         GetEvent, LockInUse, AtOrigin;
    TwoEvents(s, d, u, long);
    var before := Run(s, ClashRun(d, remote, asset, tx, u)[..3]);
    LockOpens(before, d, remote, other, 5, lock);
    LockOpens(before, d, remote, asset, 1, first);
    var (after, r) := LockedForExport(before, first, d, remote, asset, 1, AtOrigin(0, 0), 0);
    LockClashes(after, d, remote, other, 5, lock, LockClaimId(d, remote, asset, 1, first), r.value);
  }

  lemma ClashSteps(s: ClientState, d: Text, remote: Text, asset: Text, tx: Text, u: Text)
    ensures var long := LongTxId(d, tx, u);
            var before := TxSubmitted(TxSubmitted(DomainAdded(s, d).0, d, u, PlainTx(d)).0, d, long, PlainTx(d)).0;
            && Run(s, ClashRun(d, remote, asset, tx, u)[..3]) == before
            && Run(s, ClashRun(d, remote, asset, tx, u))
               == LockedForExport(before, EventIdOf(d, long), d, remote, asset, 1, AtOrigin(0, 0), 0).0
  {
    hide Run, DomainAdded, TxSubmitted, LockedForExport, PlainTx, LongTxId, EventIdOf, AtOrigin;
    var a, b, c := AddDomain(d), SubmitTx(d, u, PlainTx(d)), SubmitTx(d, LongTxId(d, tx, u), PlainTx(d));
    var lock := Lock(EventIdOf(d, LongTxId(d, tx, u)), d, remote, asset, 1, AtOrigin(0, 0), 0);
    RunOfThree(s, a, b, c);
    assert ClashRun(d, remote, asset, tx, u) == [a, b, c] + [lock];
    assert ClashRun(d, remote, asset, tx, u)[..3] == [a, b, c];
    RunMore(s, [a, b, c], lock);
  }
}
