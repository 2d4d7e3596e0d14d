/** Which locks that the client could accept, on events that its ledgers could hold, share an id. */
module LockClashes {
  import opened Prelude
  import opened Ledger
  import opened Settlement
  import opened Sync
  import opened LockIds

  /** A lock of another event, or with other terms, that could be accepted too, and has the id of this one. */
  ghost predicate Clashes(origin: Text, remote: Text, asset: Text, amount: U64, tx: Text,
                          origin': Text, remote': Text, asset': Text, amount': U64, tx': Text) {
    && origin' != remote' && amount' > 0
    && SameId(origin, remote, asset, amount, EventIdOf(origin, tx),
              origin', remote', asset', amount', EventIdOf(origin', tx'))
  }

  /**
   * The remote name has a colon, and is not just the origin's name and one more part, unless the transaction's id
   * goes on after the origin's name too.
   */
  predicate RemoteSplits(origin: Text, remote: Text, tx: Text) {
    var own := origin + [COLON];
    COLON in remote && (own <= tx || !(own <= remote && COLON !in remote[|own|..]))
  }

  /** Within the event's id there are an amount and the id of another event of the same domain. */
  ghost predicate HoldsEvent(origin: Text, tx: Text) {
    exists first, m: U64, u :: m > 0 && EventIdOf(origin, tx) == first + ([COLON] + Tail(m, EventIdOf(origin, u)))
  }

  /**
   * An acceptable lock on a logged event has its id in common with another acceptable lock on a loggable event exactly
   * when its origin or its asset has a colon in the name, its remote domain has one that can separate names, or the
   * id of its event holds an amount and another event.
   */
  lemma LockClashExact(origin: Text, remote: Text, asset: Text, amount: U64, tx: Text)
    requires origin != remote && amount > 0
    ensures (exists origin', remote', asset', amount': U64, tx' ::
               Clashes(origin, remote, asset, amount, tx, origin', remote', asset', amount', tx'))
       <==> COLON in origin || COLON in asset || RemoteSplits(origin, remote, tx) || HoldsEvent(origin, tx)
  {
    hide Clashes, RemoteSplits, HoldsEvent;
    if COLON in origin {
      ClashByOrigin(origin, remote, asset, amount, tx);
    } else if COLON in asset {
      ClashByAsset(origin, remote, asset, amount, tx);
    } else if RemoteSplits(origin, remote, tx) {
      ClashByRemote(origin, remote, asset, amount, tx);
    } else if HoldsEvent(origin, tx) {
      ClashByEvent(origin, remote, asset, amount, tx);
    } else {
      forall origin', remote', asset', amount': U64, tx'
        ensures !Clashes(origin, remote, asset, amount, tx, origin', remote', asset', amount', tx')
      {
        if Clashes(origin, remote, asset, amount, tx, origin', remote', asset', amount', tx') {
          OnlyByEvent(origin, remote, asset, amount, tx, origin', remote', asset', amount', tx');
        }
      }
    }
  }

  // ---------------------------------------------------------------- other readings

  lemma Another(origin: Text, remote: Text, asset: Text, amount: U64, tx: Text,
                origin': Text, remote': Text, asset': Text, tx': Text)
    requires origin' != remote' && amount > 0
    requires Names(origin, remote, asset) == Names(origin', remote', asset')
    requires EventIdOf(origin, tx) == EventIdOf(origin', tx')
    requires origin != origin' || remote != remote' || asset != asset'
    ensures Clashes(origin, remote, asset, amount, tx, origin', remote', asset', amount, tx')
  {
    LockIdLayout(origin, remote, asset, amount, EventIdOf(origin, tx));
    LockIdLayout(origin', remote', asset', amount, EventIdOf(origin', tx'));
    hide LockClaimId, Names, EventIdOf, Tail;
  }

  /** A domain's name may as well end at a colon in it, and the rest begin the transaction's id. */
  lemma EventIdShifts(x: Text, y: Text, tx: Text)
    ensures EventIdOf(x + ([COLON] + y), tx) == EventIdOf(x, y + ([COLON] + tx))
  {
    assert Ascii(":") == [COLON];
  }

  lemma ClashByOrigin(origin: Text, remote: Text, asset: Text, amount: U64, tx: Text)
    requires COLON in origin && amount > 0
    ensures exists origin', remote', asset', amount': U64, tx' ::
              Clashes(origin, remote, asset, amount, tx, origin', remote', asset', amount', tx')
  {
    var x, y := CutAtColon(origin);
    EventIdShifts(x, y, tx);
    assert |x| < |origin|;
    var long := y + ([COLON] + remote);
    assert long[|y|] == COLON;
    hide EventIdOf, Clashes;
    assert Names(origin, remote, asset) == Names(x, long, asset);
    Another(origin, remote, asset, amount, tx, x, long, asset, y + ([COLON] + tx));
  }

  lemma ClashByAsset(origin: Text, remote: Text, asset: Text, amount: U64, tx: Text)
    requires COLON !in origin && COLON in asset && amount > 0
    ensures exists origin', remote', asset', amount': U64, tx' ::
              Clashes(origin, remote, asset, amount, tx, origin', remote', asset', amount', tx')
  {
    var x, y := CutAtColon(asset);
    var remote' := remote + ([COLON] + x);
    assert remote'[|remote|] == COLON;
    assert |y| < |asset|;
    hide EventIdOf, Clashes;
    assert Names(origin, remote, asset) == Names(origin, remote', y);
    Another(origin, remote, asset, amount, tx, origin, remote', y, tx);
  }

  lemma ClashByRemote(origin: Text, remote: Text, asset: Text, amount: U64, tx: Text)
    requires COLON !in origin && RemoteSplits(origin, remote, tx) && amount > 0
    ensures exists origin', remote', asset', amount': U64, tx' ::
              Clashes(origin, remote, asset, amount, tx, origin', remote', asset', amount', tx')
  {
    var x, y := CutAtColon(remote);
    assert |x| < |remote|;
    if x != origin {
      ShorterRemote(origin, remote, asset, amount, tx, x, y);
    } else if COLON in y {
      var y1, y2 := CutAtColon(y);
      var x' := x + ([COLON] + y1);
      assert x'[|x|] == COLON;
      assert remote == x' + ([COLON] + y2);
      ShorterRemote(origin, remote, asset, amount, tx, x', y2);
    } else {
      assert remote[|origin + [COLON]|..] == y;
      var u := tx[|origin + [COLON]|..];
      assert tx == origin + ([COLON] + u);
      LongerOrigin(origin, y, asset, amount, u);
    }
  }

  lemma ShorterRemote(origin: Text, remote: Text, asset: Text, amount: U64, tx: Text, x: Text, y: Text)
    requires remote == x + ([COLON] + y) && x != origin && amount > 0
    ensures Clashes(origin, remote, asset, amount, tx, origin, x, y + ([COLON] + asset), amount, tx)
  {
    assert |x| < |remote|;
    assert Names(origin, remote, asset) == Names(origin, x, y + ([COLON] + asset));
    Another(origin, remote, asset, amount, tx, origin, x, y + ([COLON] + asset), tx);
  }

  lemma LongerOrigin(origin: Text, y: Text, asset: Text, amount: U64, u: Text)
    requires COLON !in y && amount > 0
    ensures Clashes(origin, origin + ([COLON] + y), asset, amount, origin + ([COLON] + u),
                    origin + ([COLON] + origin), y, asset, amount, u)
  {
    var origin' := origin + ([COLON] + origin);
    assert origin'[|origin|] == COLON && |origin'| > |origin|;
    EventIdShifts(origin, origin, u);
    assert Names(origin, origin + ([COLON] + y), asset) == Names(origin', y, asset);
    hide EventIdOf, Names;
    Another(origin, origin + ([COLON] + y), asset, amount, origin + ([COLON] + u), origin', y, asset, u);
  }

  lemma ClashByEvent(origin: Text, remote: Text, asset: Text, amount: U64, tx: Text)
    requires origin != remote && HoldsEvent(origin, tx)
    ensures exists origin', remote', asset', amount': U64, tx' ::
              Clashes(origin, remote, asset, amount, tx, origin', remote', asset', amount', tx')
  {
    hide EventIdOf, Tail, SameId;
    var first, m: U64, u :| m > 0 && EventIdOf(origin, tx) == first + ([COLON] + Tail(m, EventIdOf(origin, u)));
    var part := DecimalText(amount) + ([COLON] + first);
    TailGrows(amount, first, [COLON] + Tail(m, EventIdOf(origin, u)));
    LongerAsset(origin, remote, asset, part, amount, EventIdOf(origin, tx), m, EventIdOf(origin, u));
    assert Clashes(origin, remote, asset, amount, tx, origin, remote, asset + ([COLON] + part), m, u);
  }

  lemma TailGrows(amount: U64, first: Text, more: Text)
    ensures Tail(amount, first + more) == (DecimalText(amount) + ([COLON] + first)) + more
  {
  }

  // ---------------------------------------------------------------- no other readings

  lemma OnlyByEvent(origin: Text, remote: Text, asset: Text, amount: U64, tx: Text,
                    origin': Text, remote': Text, asset': Text, amount': U64, tx': Text)
    requires origin != remote && COLON !in origin && COLON !in asset && !RemoteSplits(origin, remote, tx)
    requires Clashes(origin, remote, asset, amount, tx, origin', remote', asset', amount', tx')
    ensures HoldsEvent(origin, tx)
  {
    var names, names' := Names(origin, remote, asset), Names(origin', remote', asset');
    var event, event' := EventIdOf(origin, tx), EventIdOf(origin', tx');
    SameText(origin, remote, asset, amount, event, origin', remote', asset', amount', event');
    MoreColons(origin, remote, asset, amount, tx, origin', remote', asset', amount', tx');
    hide RemoteSplits, SameId;
    var part := LongerNames(names, Tail(amount, event), names', Tail(amount', event'));
    var first := EventWithin(origin, tx, amount, part, amount', event');
    var z := OriginGoesOn(origin, remote + ([COLON] + asset), part, origin', remote' + ([COLON] + asset'));
    hide EventIdOf, Tail, Names, HoldsEvent;
    if origin' != origin {
      EventIdShifts(origin, z, tx');
      Holds(origin, tx, first, amount', z + ([COLON] + tx'));
    } else {
      Holds(origin, tx, first, amount', tx');
    }
  }

  lemma Holds(origin: Text, tx: Text, first: Text, m: U64, u: Text)
    requires m > 0 && EventIdOf(origin, tx) == first + ([COLON] + Tail(m, EventIdOf(origin, u)))
    ensures HoldsEvent(origin, tx)
  {
    hide EventIdOf, Tail;
  }

  /** The id of an event does not begin with an amount, so what comes before the amount is a part of it. */
  lemma EventWithin(origin: Text, tx: Text, amount: U64, part: Text, m: U64, rest: Text) returns (first: Text)
    requires Tail(amount, EventIdOf(origin, tx)) == part + ([COLON] + Tail(m, rest))
    ensures EventIdOf(origin, tx) == first + ([COLON] + Tail(m, rest))
  {
    var event := EventIdOf(origin, tx);
    DecimalRoundTrip(amount);
    FirstDigit(m);
    assert event[0] == Ascii("ev:")[0] == 101 && Tail(m, rest)[0] == DecimalText(m)[0];
    assert COLON in part by {
      if COLON !in part {
        CancelPart(DecimalText(amount), event, part, Tail(m, rest));
      }
    }
    hide DecimalText, DigitsValue, EventIdOf;
    var u, v := CutAtColon(part);
    first := v;
    assert u + ([COLON] + (first + ([COLON] + Tail(m, rest)))) == part + ([COLON] + Tail(m, rest));
    CancelPart(DecimalText(amount), event, u, first + ([COLON] + Tail(m, rest)));
  }

  lemma {:induction false} FirstDigit(n: nat)
    ensures DecimalText(n) != [] && 48 <= DecimalText(n)[0] <= 57
  {
    if n < 10 {
    } else {
      FirstDigit(n / 10);
    }
  }

  /** A name without a colon that begins the same text as a longer one is followed by a colon there. */
  lemma OriginGoesOn(origin: Text, rest: Text, part: Text, origin': Text, rest': Text) returns (z: Text)
    requires COLON !in origin
    requires origin' + ([COLON] + rest') == (origin + ([COLON] + rest)) + ([COLON] + part)
    ensures origin' == origin || origin' == origin + ([COLON] + z)
  {
    assert origin + ([COLON] + (rest + ([COLON] + part))) == (origin + ([COLON] + rest)) + ([COLON] + part);
    z := FirstPart(origin, rest + ([COLON] + part), origin', rest');
  }

  lemma FirstPart(u: Text, v: Text, u': Text, v': Text) returns (z: Text)
    requires COLON !in u && u + ([COLON] + v) == u' + ([COLON] + v')
    ensures u' == u || u' == u + ([COLON] + z)
  {
    if COLON in u' {
      var x, y := CutAtColon(u');
      assert x + ([COLON] + (y + ([COLON] + v'))) == u' + ([COLON] + v');
      CancelPart(u, v, x, y + ([COLON] + v'));
      z := y;
    } else {
      CancelPart(u, v, u', v');
      z := [];
    }
  }

  // ---------------------------------------------------------------- counting colons

  /** The other lock's names have more colons in them. */
  lemma MoreColons(origin: Text, remote: Text, asset: Text, amount: U64, tx: Text,
                   origin': Text, remote': Text, asset': Text, amount': U64, tx': Text)
    requires origin != remote && COLON !in origin && COLON !in asset && !RemoteSplits(origin, remote, tx)
    requires Clashes(origin, remote, asset, amount, tx, origin', remote', asset', amount', tx')
    ensures multiset(Names(origin, remote, asset))[COLON] < multiset(Names(origin', remote', asset'))[COLON]
  {
    ColonsOfNames(origin, remote, asset);
    ColonsOfNames(origin', remote', asset');
    hide Names;
    if COLON !in remote {
      NotAllPlain(origin, remote, asset, amount, tx, origin', remote', asset', amount', tx');
      assert COLON !in multiset(origin + remote + asset) && COLON in multiset(origin' + remote' + asset');
    } else {
      var own := origin + [COLON];
      var y := remote[|own|..];
      assert remote == origin + ([COLON] + y);
      TwoMore(origin, y, asset, amount, tx, origin', remote', asset', amount', tx');
      OneColon(origin, y, asset);
    }
  }

  lemma NotAllPlain(origin: Text, remote: Text, asset: Text, amount: U64, tx: Text,
                    origin': Text, remote': Text, asset': Text, amount': U64, tx': Text)
    requires COLON !in origin + remote + asset
    requires Clashes(origin, remote, asset, amount, tx, origin', remote', asset', amount', tx')
    ensures COLON in origin' + remote' + asset'
  {
    if COLON !in origin' + remote' + asset' {
      LockIdsApart(origin, remote, asset, amount, EventIdOf(origin, tx),
                   origin', remote', asset', amount', EventIdOf(origin', tx'));
    }
  }

  lemma OneColon(origin: Text, y: Text, asset: Text)
    requires COLON !in origin && COLON !in y && COLON !in asset
    ensures multiset(origin + (origin + ([COLON] + y)) + asset)[COLON] == 1
  {
  }

  lemma TwoMore(origin: Text, y: Text, asset: Text, amount: U64, tx: Text,
                origin': Text, remote': Text, asset': Text, amount': U64, tx': Text)
    requires COLON !in origin && COLON !in y && COLON !in asset && !(origin + [COLON] <= tx)
    requires Clashes(origin, origin + ([COLON] + y), asset, amount, tx, origin', remote', asset', amount', tx')
    ensures multiset(origin' + remote' + asset')[COLON] >= 2
  {
    var remote, names: Text := origin + ([COLON] + y), origin' + remote' + asset';
    var event, event' := EventIdOf(origin, tx), EventIdOf(origin', tx');
    SameText(origin, remote, asset, amount, event, origin', remote', asset', amount', event');
    var tail, tail' := Tail(amount, event), Tail(amount', event');
    assert COLON in names by {
      if COLON !in names {
        PlainReading(origin, y, asset, tail, origin', remote', asset', tail');
      }
    }
    assert multiset(names)[COLON] != 1 by {
      if multiset(names)[COLON] == 1 {
        OneColonReading(origin, y, asset, amount, tx, origin', remote', asset', amount', tx');
      }
    }
    assert COLON in multiset(names);
  }

  /** Read without colons in the names, the text has the origin's own name for the remote domain. */
  lemma PlainReading(origin: Text, y: Text, asset: Text, tail: Text,
                     origin': Text, remote': Text, asset': Text, tail': Text)
    requires COLON !in origin && COLON !in origin' + remote' + asset'
    requires Names(origin, origin + ([COLON] + y), asset) + ([COLON] + tail)
          == Names(origin', remote', asset') + ([COLON] + tail')
    ensures origin' == origin && remote' == origin
  {
    var rest := y + ([COLON] + (asset + ([COLON] + tail)));
    var rest' := asset' + ([COLON] + tail');
    assert origin + ([COLON] + (origin + ([COLON] + rest)))
        == Names(origin, origin + ([COLON] + y), asset) + ([COLON] + tail);
    assert origin' + ([COLON] + (remote' + ([COLON] + rest'))) == Names(origin', remote', asset') + ([COLON] + tail');
    hide Names;
    CancelPart(origin, origin + ([COLON] + rest), origin', remote' + ([COLON] + rest'));
    CancelPart(origin, rest, remote', rest');
  }

  /** Of two ways to cut a text at a colon, those with equally many colons in front are one. */
  lemma SameCut(u: Text, v: Text, u': Text, v': Text)
    requires u + ([COLON] + v) == u' + ([COLON] + v') && multiset(u)[COLON] == multiset(u')[COLON]
    ensures u == u' && v == v'
  {
    var t := u + ([COLON] + v);
    assert t[..|u|] == u && t[..|u'|] == u' && t[|u|] == COLON && t[|u'|] == COLON;
    LongerHasMore(u + [COLON], u', t);
    LongerHasMore(u' + [COLON], u, t);
    LongerHasMore(u, u' + [COLON], t);
    LongerHasMore(u', u + [COLON], t);
    assert t[|u| + 1..] == v && t[|u'| + 1..] == v';
  }

  lemma OneColonReading(origin: Text, y: Text, asset: Text, amount: U64, tx: Text,
                        origin': Text, remote': Text, asset': Text, amount': U64, tx': Text)
    requires COLON !in origin && COLON !in y && COLON !in asset
    requires multiset(origin' + remote' + asset')[COLON] == 1
    requires Clashes(origin, origin + ([COLON] + y), asset, amount, tx, origin', remote', asset', amount', tx')
    ensures origin + [COLON] <= tx
  {
    var remote := origin + ([COLON] + y);
    var event, event' := EventIdOf(origin, tx), EventIdOf(origin', tx');
    SameText(origin, remote, asset, amount, event, origin', remote', asset', amount', event');
    ColonsOfNames(origin, remote, asset);
    ColonsOfNames(origin', remote', asset');
    OneColon(origin, y, asset);
    SameCut(Names(origin, remote, asset), Tail(amount, event), Names(origin', remote', asset'), Tail(amount', event'));
    SameTail(amount, event, amount', event');
    SameNamesReading(origin, y, asset, origin', remote', asset');
    assert origin' == origin + ([COLON] + origin);
    EventIdShifts(origin, origin, tx');
    SameTx(origin, tx, origin + ([COLON] + tx'));
  }

  lemma SameTail(amount: U64, lock: Text, amount': U64, lock': Text)
    requires Tail(amount, lock) == Tail(amount', lock')
    ensures amount == amount' && lock == lock'
  {
    DecimalRoundTrip(amount);
    DecimalRoundTrip(amount');
    hide DecimalText, DigitsValue;
    CancelPart(DecimalText(amount), lock, DecimalText(amount'), lock');
  }

  lemma SameTx(origin: Text, a: Text, b: Text)
    requires EventIdOf(origin, a) == EventIdOf(origin, b)
    ensures a == b
  {
    CancelLeft(Ascii("ev:") + origin + Ascii(":"), a, b);
  }

  /** The names `o`, `o:y` and an asset, with their one colon elsewhere. */
  lemma SameNamesReading(origin: Text, y: Text, asset: Text, origin': Text, remote': Text, asset': Text)
    requires COLON !in origin && COLON !in y && COLON !in asset
    requires multiset(origin' + remote' + asset')[COLON] == 1
    requires Names(origin, origin + ([COLON] + y), asset) == Names(origin', remote', asset')
    ensures || (origin' == origin && remote' == origin)
            || (origin' == origin && remote' == origin + ([COLON] + y) && asset' == asset)
            || origin' == origin + ([COLON] + origin)
  {
    var rest := y + ([COLON] + asset);
    assert Names(origin, origin + ([COLON] + y), asset) == origin + ([COLON] + (origin + ([COLON] + rest)));
    assert Names(origin', remote', asset') == origin' + ([COLON] + (remote' + ([COLON] + asset')));
    hide Names;
    if COLON in origin' {
      ColonInOrigin(origin, rest, origin', remote', asset');
    } else {
      CancelPart(origin, origin + ([COLON] + rest), origin', remote' + ([COLON] + asset'));
      if COLON in remote' {
        ColonInRemote(origin, y, asset, origin', remote', asset');
      } else {
        CancelPart(origin, rest, remote', asset');
      }
    }
  }

  lemma ColonInOrigin(origin: Text, rest: Text, origin': Text, remote': Text, asset': Text)
    requires COLON !in origin && COLON in origin' && multiset(origin' + remote' + asset')[COLON] == 1
    requires origin + ([COLON] + (origin + ([COLON] + rest)))
          == origin' + ([COLON] + (remote' + ([COLON] + asset')))
    ensures origin' == origin + ([COLON] + origin)
  {
    var names' := remote' + ([COLON] + asset');
    var x, z := CutAtColon(origin');
    assert x + ([COLON] + z) + (remote' + asset') == origin' + remote' + asset';
    PlainRest(x, z, remote' + asset');
    AssocBehind(x, [COLON], z, [COLON] + names');
    assert x + ([COLON] + (z + ([COLON] + names'))) == origin' + ([COLON] + names');
    CancelPart(origin, origin + ([COLON] + rest), x, z + ([COLON] + names'));
    CancelPart(origin, rest, z, names');
  }

  lemma ColonInRemote(origin: Text, y: Text, asset: Text, origin': Text, remote': Text, asset': Text)
    requires COLON !in origin && COLON !in y && COLON !in asset
    requires COLON in remote' && multiset(origin' + remote' + asset')[COLON] == 1
    requires origin + ([COLON] + (y + ([COLON] + asset))) == remote' + ([COLON] + asset')
    ensures remote' == origin + ([COLON] + y) && asset' == asset
  {
    var x, z := CutAtColon(remote');
    var all, other: Text := origin' + remote' + asset', x + ([COLON] + z) + (asset' + origin');
    assert multiset(all) == multiset(origin') + multiset(remote') + multiset(asset');
    assert multiset(other) == multiset(remote') + (multiset(asset') + multiset(origin'));
    PlainRest(x, z, asset' + origin');
    AssocBehind(x, [COLON], z, [COLON] + asset');
    assert x + ([COLON] + (z + ([COLON] + asset'))) == remote' + ([COLON] + asset');
    CancelPart(origin, y + ([COLON] + asset), x, z + ([COLON] + asset'));
    CancelPart(y, asset, z, asset');
  }

  lemma PlainRest(x: Text, z: Text, more: Text)
    requires multiset(x + ([COLON] + z) + more)[COLON] == 1
    ensures COLON !in z && COLON !in more
  {
    assert multiset(x + ([COLON] + z) + more) == multiset(x) + multiset{COLON} + multiset(z) + multiset(more);
    assert COLON in z ==> COLON in multiset(z);
    assert COLON in more ==> COLON in multiset(more);
  }
}
