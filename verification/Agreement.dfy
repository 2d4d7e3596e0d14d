/** What passing the simulator's checks means, and what it means for a schedule. */
module Agreement {
  import opened Sorting
  import opened Scheduler
  import opened Verifier

  // ---------------------------------------------------------------- what the checks are for

  ghost predicate DistinctIds(events: seq<SimEvent>) {
    forall i, j :: 0 <= i < j < |events| ==> events[i].eventId != events[j].eventId
  }

  ghost predicate Known(events: seq<SimEvent>, id: string) {
    exists i :: 0 <= i < |events| && events[i].eventId == id
  }

  /** The message goes from event `a` to event `b`. */
  ghost predicate Joins(events: seq<SimEvent>, m: Message, a: SimEvent, b: SimEvent) {
    a in events && b in events && a.eventId == m.fromEvent && b.eventId == m.toEvent
  }

  /** The delay is at least the distance rounded to whole years, halves up, and a negative one towards zero. */
  ghost predicate Covers(delay: int, distance: real) {
    if distance >= -0.5 then delay as real > distance - 0.5 else delay as real >= distance + 0.5
  }

  /** Between domains a known distance apart, the delay covers that distance and is within the bound;
    * between domains of unknown distance the route has the least number of hops. */
  ghost predicate CanTravel(events: seq<SimEvent>, context: ScenarioContext, m: Message) {
    forall a, b :: Joins(events, m, a, b) && a.domainId != b.domainId ==>
      var pair := (a.domainId, b.domainId);
      var delay := m.receiveTime - m.sendTime;
      if pair in context.distancesLy
      then Covers(delay, context.distancesLy[pair])
           && (context.maxDelay.AtMost? ==> delay as real <= context.maxDelay.years)
      else |m.route| >= context.routeMinHops
  }

  ghost predicate WellRouted(events: seq<SimEvent>, context: ScenarioContext, m: Message) {
    && |m.antiReplayNonce| >= context.minNonceChars
    && (m.route == [] || |m.route| >= context.routeMinHops)
    && (context.maxRouteHops > 0 ==> |m.route| <= context.maxRouteHops)
    && (m.fromEvent == "" || Known(events, m.fromEvent))
    && (m.toEvent == "" || Known(events, m.toEvent))
  }

  /** The window is one of the domain's offline times. */
  ghost predicate OfflineIn(context: ScenarioContext, domain: string, w: OfflineWindow) {
    domain in context.offlineWindows && w in context.offlineWindows[domain]
  }

  /** Neither end's domain is offline when the message is sent, or when it is received. */
  ghost predicate AvoidsWindows(events: seq<SimEvent>, context: ScenarioContext, m: Message) {
    forall a, b, w :: Joins(events, m, a, b) && (OfflineIn(context, a.domainId, w) || OfflineIn(context, b.domainId, w))
                      ==> Outside(m.sendTime, w) && Outside(m.receiveTime, w)
  }

  ghost predicate Outside(time: int, w: OfflineWindow) {
    time < w.start || w.end < time
  }

  ghost predicate Observed(stage: string) {
    stage == "remote-observed" || stage == "remote_observed"
  }

  ghost predicate Credited(stage: string) {
    stage == "provisional-credit" || stage == "provisionally_credited"
  }

  ghost predicate Final(stage: string) {
    || stage == "interstellar-settlement-finality" || stage == "interstellar-settled"
    || stage == "bilateral-finality" || stage == "bilateral-finalized"
  }

  ghost predicate ClaimSound(c: SimClaim) {
    && c.amount > 0 && c.originDomain != c.remoteDomain && c.horizonYears > 0
    && (Observed(c.finalityStage) || Credited(c.finalityStage) || Final(c.finalityStage))
    && (c.lightconeStatus == "valid" || c.lightconeStatus == "unknown"
        || c.lightconeStatus == "invalid" || c.lightconeStatus == "stale")
    && (Credited(c.finalityStage) || Final(c.finalityStage) ==> c.lightconeStatus == "valid")
    && (Final(c.finalityStage) ==> c.lockCheckpoint != "")
  }

  /** No lock event backs two claims that are both past observation. */
  ghost predicate OneAcceptedPerLock(claims: seq<SimClaim>) {
    forall i, j :: 0 <= i < j < |claims| && claims[i].lockEventId == claims[j].lockEventId
                   ==> Observed(claims[i].finalityStage) || Observed(claims[j].finalityStage)
  }

  ghost predicate Contested(claims: seq<SimClaim>, lock: string) {
    exists i, j :: 0 <= i < j < |claims| && claims[i].lockEventId == lock && claims[j].lockEventId == lock
  }

  /** The two are one word, written in letters of either case. */
  ghost predicate Spells(text: string, word: string) {
    && |text| == |word|
    && forall i :: 0 <= i < |word| ==>
         text[i] == word[i] || ('a' <= word[i] <= 'z' && text[i] as int == word[i] as int - 32)
  }

  ghost predicate ExpectationMet(claims: seq<SimClaim>, tokens: seq<string>) {
    |tokens| == 2 ==>
      var kind := tokens[0];
      && (Spells(kind, "no_offline_violation") || Spells(kind, "offline_violation") ==>
            exists c :: c in claims && c.claimId == tokens[1])
      && (Spells(kind, "no_conflict") ==> !Contested(claims, tokens[1]))
      && (Spells(kind, "conflict") ==> Contested(claims, tokens[1]))
  }

  ghost predicate Consistent(events: seq<SimEvent>, messages: seq<Message>, claims: seq<SimClaim>,
                             context: ScenarioContext) {
    && DistinctIds(events)
    && (forall e, d :: e in events && d in e.causalDependencies ==> Known(events, d))
    && (forall m :: m in messages ==> m.sendTime <= m.receiveTime)
    && (forall m :: m in messages ==> CanTravel(events, context, m))
    && (forall m :: m in messages ==> WellRouted(events, context, m))
    && (forall m :: m in messages ==> AvoidsWindows(events, context, m))
    && NoReplays(messages)
    && OneAcceptedPerLock(claims)
    && (forall c :: c in claims ==> ClaimSound(c))
    && (forall tokens :: tokens in context.expectations ==> ExpectationMet(claims, tokens))
  }

  // ---------------------------------------------------------------- check by check

  lemma {:induction false} IndexMeaning(events: seq<SimEvent>)
    ensures forall k :: k in Index(events) <==> Known(events, k)
    ensures forall k :: k in Index(events) ==> Index(events)[k] in events && Index(events)[k].eventId == k
  {
    if events == [] {
    } else {
      var last := |events| - 1;
      var front, e := events[..last], events[last];
      IndexMeaning(front);
      forall k ensures Known(events, k) <==> Known(front, k) || k == e.eventId {
        if Known(front, k) {
          var i :| 0 <= i < |front| && front[i].eventId == k;
          assert events[i].eventId == k;
        }
        if Known(events, k) {
          var i :| 0 <= i < |events| && events[i].eventId == k;
          assert i < last ==> front[i].eventId == k;
        }
        assert events[last] == e;
      }
    }
  }

  lemma {:induction false} UniqueIdsMeaning(events: seq<SimEvent>)
    ensures UniqueIds(events).Holds? <==> DistinctIds(events)
  {
    if events == [] {
    } else {
      var last := |events| - 1;
      var front, e := events[..last], events[last];
      UniqueIdsMeaning(front);
      IndexMeaning(front);
      if DistinctIds(events) {
        assert DistinctIds(front);
        assert !Known(front, e.eventId);
      }
      if DistinctIds(front) && !Known(front, e.eventId) {
        forall i, j | 0 <= i < j < |events| ensures events[i].eventId != events[j].eventId {
          assert events[i] == front[i];
          assert j < last ==> events[j] == front[j];
        }
      }
    }
  }

  /** With distinct ids, the dictionary finds the one event of an id. */
  lemma IndexFinds(events: seq<SimEvent>, e: SimEvent)
    requires DistinctIds(events) && e in events
    ensures e.eventId in Index(events) && Index(events)[e.eventId] == e
  {
    IndexMeaning(events);
    var i :| 0 <= i < |events| && events[i] == e;
    assert Known(events, e.eventId);
    var found := Index(events)[e.eventId];
    var j :| 0 <= j < |events| && events[j] == found;
    assert i < j || j < i || i == j;
  }

  lemma DependenciesMeaning(events: seq<SimEvent>)
    ensures First(events, EventCheck(Index(events))).Holds?
            <==> forall e, d :: e in events && d in e.causalDependencies ==> Known(events, d)
  {
    var index := Index(events);
    IndexMeaning(events);
    FirstMeaning(events, EventCheck(index));
    forall e ensures EventCheck(index)(e).Holds? <==> forall d :: d in e.causalDependencies ==> d in index {
      FirstMeaning(e.causalDependencies, DependencyCheck(index, e));
    }
  }

  lemma TimesMeaning(messages: seq<Message>)
    ensures First(messages, TimesCheck()).Holds? <==> forall m :: m in messages ==> m.sendTime <= m.receiveTime
    ensures First(messages, TimesCheck()).Fails? ==> First(messages, TimesCheck()).failure.ReceivedBeforeSent?
  {
    FirstMeaning(messages, TimesCheck());
  }

  lemma LightconeMeaning(events: seq<SimEvent>, context: ScenarioContext, m: Message)
    requires DistinctIds(events)
    ensures LightconeFault(Index(events), context, m).Holds? <==> CanTravel(events, context, m)
  {
    hide Truncate, Covers;
    var index := Index(events);
    JoinsFound(events, m);
    hide Index, DistinctIds, Joins;
    if m.fromEvent in index && m.toEvent in index {
      var pair := (index[m.fromEvent].domainId, index[m.toEvent].domainId);
      if pair in context.distancesLy {
        TruncateCovers(m.receiveTime - m.sendTime, context.distancesLy[pair]);
      }
    }
  }

  lemma TruncateCovers(delay: int, distance: real)
    ensures delay >= Truncate(distance + 0.5) <==> Covers(delay, distance)
  {
    var x := distance + 0.5;
    if x >= 0.0 {
      assert x.Floor as real <= x < x.Floor as real + 1.0;
    } else {
      assert (-x).Floor as real <= -x < (-x).Floor as real + 1.0;
    }
  }

  lemma RouteMeaning(events: seq<SimEvent>, context: ScenarioContext, m: Message)
    ensures RouteFault(Index(events), context, m).Holds? <==> WellRouted(events, context, m)
  {
    IndexMeaning(events);
  }

  lemma {:induction false} KeyCountAtMost(ms: seq<Message>)
    ensures |ReplayKeys(ms)| <= |ms|
  {
    hide Seen;
    if ms == [] {
    } else {
      hide ReplayKeys;
      var last := |ms| - 1;
      KeyCountAtMost(ms[..last]);
      ReplayKeysSnoc(ms[..last], ms[last]);
      assert ms == ms[..last] + [ms[last]];
    }
  }

  /** Counting distinct keys finds a collision exactly when two messages share a route and nonce. */
  lemma CollisionMeaning(ms: seq<Message>)
    ensures CollisionVerdict(ms).Holds? <==> NoReplays(ms)
  {
    ReplaysOnFields(ms);
    if DistinctReplayKeys(ms) {
      DistinctCount(ms);
    } else {
      var i, j :| 0 <= i < j < |ms| && ReplayKeyOf(ms[i]) == ReplayKeyOf(ms[j]);
      var rest := ms[..j] + ms[j + 1..];
      KeyCountAtMost(rest);
      assert ReplayKeys(ms) == ReplayKeys(rest) by {
        assert rest[i] == ms[i];
        forall m | m in ms ensures ReplayKeyOf(m) in ReplayKeys(rest) {
          var k :| 0 <= k < |ms| && ms[k] == m;
          assert k < j ==> rest[k] == m;
          assert k > j ==> rest[k - 1] == m;
          assert rest[i] in rest;
        }
        assert forall m :: m in rest ==> m in ms;
      }
    }
  }

  lemma SelectLast<T>(items: seq<T>, wanted: T -> bool)
    requires items != []
    ensures var last := |items| - 1;
            |Select(items, wanted)| == |Select(items[..last], wanted)| + if wanted(items[last]) then 1 else 0
  {
  }

  lemma {:induction false} SelectSome<T>(items: seq<T>, wanted: T -> bool)
    ensures |Select(items, wanted)| > 0 <==> exists i :: 0 <= i < |items| && wanted(items[i])
  {
    if items == [] {
    } else {
      var last := |items| - 1;
      var front := items[..last];
      SelectSome(front, wanted);
      SelectLast(items, wanted);
      hide Select;
      assert forall i :: 0 <= i < last ==> front[i] == items[i];
      if i :| 0 <= i < |items| && wanted(items[i]) {
        assert i < last ==> wanted(front[i]);
      }
    }
  }

  lemma {:induction false} SelectSeveral<T>(items: seq<T>, wanted: T -> bool)
    ensures |Select(items, wanted)| > 1
            <==> exists i, j :: 0 <= i < j < |items| && wanted(items[i]) && wanted(items[j])
  {
    if items == [] {
    } else {
      var last := |items| - 1;
      var front := items[..last];
      SelectSeveral(front, wanted);
      SelectSome(front, wanted);
      SelectLast(items, wanted);
      hide Select;
      if i, j :| 0 <= i < j < |front| && wanted(front[i]) && wanted(front[j]) {
        assert wanted(items[i]) && wanted(items[j]);
      }
      if i :| 0 <= i < last && wanted(front[i]) {
        assert wanted(items[i]);
      }
      if i, j :| 0 <= i < j < |items| && wanted(items[i]) && wanted(items[j]) {
        assert wanted(front[i]) && (j < last ==> wanted(front[j]));
      }
    }
  }

  function Accepted(lock: string): SimClaim -> bool {
    (c: SimClaim) => c.lockEventId == lock && !RemoteObserved(c)
  }

  lemma {:induction false} SelectTwice(claims: seq<SimClaim>, lock: string)
    ensures Select(Select(claims, OnLock(lock)), PastObservation()) == Select(claims, Accepted(lock))
  {
    if claims == [] {
    } else {
      var last := |claims| - 1;
      SelectTwice(claims[..last], lock);
      var s := Select(claims[..last], OnLock(lock));
      assert (s + [claims[last]])[..|s|] == s;
      assert s + [] == s;
    }
  }

  lemma {:induction false} LocksMeaning(claims: seq<SimClaim>)
    ensures forall l :: l in Locks(claims) <==> exists i :: 0 <= i < |claims| && claims[i].lockEventId == l
  {
    if claims == [] {
    } else {
      var last := |claims| - 1;
      var front := claims[..last];
      LocksMeaning(front);
      forall l ensures l in Locks(claims) <==> exists i :: 0 <= i < |claims| && claims[i].lockEventId == l {
        if i :| 0 <= i < last && claims[i].lockEventId == l {
          assert front[i].lockEventId == l;
        }
        if l in Locks(front) {
          var i :| 0 <= i < |front| && front[i].lockEventId == l;
          assert claims[i].lockEventId == l;
        }
      }
    }
  }

  ghost predicate Uncontested(claims: seq<SimClaim>, lock: string) {
    forall i, j :: 0 <= i < j < |claims| && claims[i].lockEventId == lock && claims[j].lockEventId == lock
                   ==> Observed(claims[i].finalityStage) || Observed(claims[j].finalityStage)
  }

  lemma UncontestedExact(claims: seq<SimClaim>, lock: string)
    ensures ConflictCheck(claims)(lock).Holds? <==> Uncontested(claims, lock)
  {
    SelectTwice(claims, lock);
    SelectSeveral(claims, Accepted(lock));
    hide Select;
    assert forall c: SimClaim :: Accepted(lock)(c) <==> c.lockEventId == lock && !Observed(c.finalityStage);
  }

  lemma OneAcceptedByLock(claims: seq<SimClaim>)
    ensures OneAcceptedPerLock(claims) <==> forall lock :: lock in Locks(claims) ==> Uncontested(claims, lock)
  {
    LocksMeaning(claims);
    hide Locks, Observed;
    if forall lock :: lock in Locks(claims) ==> Uncontested(claims, lock) {
      forall i, j | 0 <= i < j < |claims| && claims[i].lockEventId == claims[j].lockEventId
        ensures Observed(claims[i].finalityStage) || Observed(claims[j].finalityStage)
      {
        assert Uncontested(claims, claims[i].lockEventId);
      }
    }
  }

  lemma ConflictsMeaning(claims: seq<SimClaim>)
    ensures First(Locks(claims), ConflictCheck(claims)).Holds? <==> OneAcceptedPerLock(claims)
  {
    FirstMeaning(Locks(claims), ConflictCheck(claims));
    OneAcceptedByLock(claims);
    hide First, Locks, ConflictCheck, Uncontested, OneAcceptedPerLock;
    forall lock ensures ConflictCheck(claims)(lock).Holds? <==> Uncontested(claims, lock) {
      UncontestedExact(claims, lock);
    }
  }

  lemma ClaimsMeaning(claims: seq<SimClaim>)
    ensures First(claims, PartiesCheck()).Holds? && First(claims, ClaimCheck()).Holds?
            <==> forall c :: c in claims ==> ClaimSound(c)
  {
    FirstMeaning(claims, PartiesCheck());
    FirstMeaning(claims, ClaimCheck());
    forall c ensures PartiesCheck()(c).Holds? && ClaimCheck()(c).Holds? <==> ClaimSound(c) {
    }
  }

  lemma OfflineMeaning(events: seq<SimEvent>, context: ScenarioContext, ms: seq<Message>, v: Verdict)
    requires DistinctIds(events) && OfflineVerdict(Index(events), context, ms, v)
    ensures v.Holds? <==> forall m :: m in ms ==> AvoidsWindows(events, context, m)
  {
    var index := Index(events);
    forall m ensures Online(index, context, m) <==> AvoidsWindows(events, context, m) {
      OnlineMeaning(events, context, m);
    }
    if v.Fails? {
      var i :| 0 <= i < |ms| && OfflineFault(index, context, ms[i], v);
      assert !Online(index, context, ms[i]);
      assert ms[i] in ms;
    }
  }

  ghost predicate ClearIn(context: ScenarioContext, d: string, m: Message) {
    forall w :: OfflineIn(context, d, w) ==> Outside(m.sendTime, w) && Outside(m.receiveTime, w)
  }

  lemma DomainClear(context: ScenarioContext, m: Message, d: string)
    ensures DomainVerdict(context, m, d).Holds? <==> ClearIn(context, d, m)
  {
    FirstMeaning(WindowsOf(context, d), WindowCheck(m, d));
    assert forall w :: OfflineIn(context, d, w) <==> w in WindowsOf(context, d);
  }

  /** With distinct ids, the events a message joins are the two that the dictionary finds. */
  lemma JoinsFound(events: seq<SimEvent>, m: Message)
    requires DistinctIds(events)
    ensures var index := Index(events);
            && (forall a, b :: Joins(events, m, a, b) ==> m.fromEvent in index && index[m.fromEvent] == a
                                                          && m.toEvent in index && index[m.toEvent] == b)
            && (m.fromEvent in index && m.toEvent in index ==>
                  Joins(events, m, index[m.fromEvent], index[m.toEvent]))
  {
    var index := Index(events);
    IndexMeaning(events);
    forall a, b | Joins(events, m, a, b) ensures m.fromEvent in index && index[m.fromEvent] == a
                                              && m.toEvent in index && index[m.toEvent] == b {
      IndexFinds(events, a);
      IndexFinds(events, b);
    }
  }

  lemma AvoidsExact(events: seq<SimEvent>, context: ScenarioContext, m: Message)
    requires DistinctIds(events)
    ensures var index := Index(events);
            AvoidsWindows(events, context, m) <==>
            (m.fromEvent in index && m.toEvent in index ==>
               ClearIn(context, index[m.fromEvent].domainId, m) && ClearIn(context, index[m.toEvent].domainId, m))
  {
    JoinsFound(events, m);
    hide Index, Joins, OfflineIn, Outside, DistinctIds;
  }

  lemma OnlineMeaning(events: seq<SimEvent>, context: ScenarioContext, m: Message)
    requires DistinctIds(events)
    ensures Online(Index(events), context, m) <==> AvoidsWindows(events, context, m)
  {
    AvoidsExact(events, context, m);
    hide Index, AvoidsWindows, DomainVerdict, ClearIn, DistinctIds;
    forall d ensures DomainVerdict(context, m, d).Holds? <==> ClearIn(context, d, m) {
      DomainClear(context, m, d);
    }
    var index := Index(events);
    if m.fromEvent in index && m.toEvent in index {
      var a, b := index[m.fromEvent], index[m.toEvent];
      assert EndDomains(index, m) == {a.domainId, b.domainId};
      assert a.domainId in EndDomains(index, m) && b.domainId in EndDomains(index, m);
    }
  }

  lemma SpellsWord(text: string, word: string)
    requires forall i :: 0 <= i < |word| ==> 'a' <= word[i] <= 'z' || word[i] == '_'
    ensures Lower(text) == word <==> Spells(text, word)
  {
    var lower := Lower(text);
    if lower == word {
      forall i | 0 <= i < |word|
        ensures text[i] == word[i] || ('a' <= word[i] <= 'z' && text[i] as int == word[i] as int - 32)
      {
        assert lower[i] == LowerChar(text[i]);
      }
    }
    if Spells(text, word) {
      forall i | 0 <= i < |word| ensures lower[i] == word[i] {
        assert lower[i] == LowerChar(text[i]);
      }
      assert lower == word;
    }
  }

  lemma SpellsByLower(text: string)
    ensures Lower(text) == "no_offline_violation" <==> Spells(text, "no_offline_violation")
    ensures Lower(text) == "offline_violation" <==> Spells(text, "offline_violation")
    ensures Lower(text) == "no_conflict" <==> Spells(text, "no_conflict")
    ensures Lower(text) == "conflict" <==> Spells(text, "conflict")
  {
    hide Lower, Spells;
    SpellsWord(text, "no_offline_violation");
    SpellsWord(text, "offline_violation");
    SpellsWord(text, "no_conflict");
    SpellsWord(text, "conflict");
  }

  lemma ExpectationMeaning(claims: seq<SimClaim>, tokens: seq<string>)
    ensures ExpectationFault(claims, tokens).Holds? <==> ExpectationMet(claims, tokens)
  {
    if |tokens| == 2 {
      SpellsByLower(tokens[0]);
      hide Spells, Lower;
      SelectSeveral(claims, OnLock(tokens[1]));
      assert Contested(claims, tokens[1]) <==> |Select(claims, OnLock(tokens[1]))| > 1;
      assert (exists i :: 0 <= i < |claims| && claims[i].claimId == tokens[1])
        <==> exists c :: c in claims && c.claimId == tokens[1];
    }
  }

  // ---------------------------------------------------------------- the whole verdict

  lemma EarlyMeaning(events: seq<SimEvent>, messages: seq<Message>, claims: seq<SimClaim>, context: ScenarioContext)
    ensures EarlyVerdict(events, messages, claims, context).Holds? <==>
      && DistinctIds(events)
      && (forall e, d :: e in events && d in e.causalDependencies ==> Known(events, d))
      && (forall m :: m in messages ==> m.sendTime <= m.receiveTime)
      && (forall m :: m in messages ==> CanTravel(events, context, m))
      && (forall m :: m in messages ==> WellRouted(events, context, m))
      && NoReplays(messages)
      && OneAcceptedPerLock(claims)
      && (forall c :: c in claims ==> ClaimSound(c))
  {
    UniqueIdsMeaning(events);
    if DistinctIds(events) {
      var index := Index(events);
      DependenciesMeaning(events);
      TimesMeaning(messages);
      FirstMeaning(messages, LightconeCheck(index, context));
      FirstMeaning(messages, RouteCheck(index, context));
      forall m ensures LightconeCheck(index, context)(m).Holds? <==> CanTravel(events, context, m) {
        LightconeMeaning(events, context, m);
      }
      forall m ensures RouteCheck(index, context)(m).Holds? <==> WellRouted(events, context, m) {
        RouteMeaning(events, context, m);
      }
      CollisionMeaning(messages);
      ConflictsMeaning(claims);
      ClaimsMeaning(claims);
      hide CanTravel, WellRouted, ClaimSound, First, NoReplays, OneAcceptedPerLock, Known;
    }
  }

  /** The checks pass exactly on the consistent scenarios. */
  lemma PassesIffConsistent(events: seq<SimEvent>, messages: seq<Message>, claims: seq<SimClaim>,
                            context: ScenarioContext,
                            v: Verdict)
    requires IsVerdict(events, messages, claims, context, v)
    ensures v.Holds? <==> Consistent(events, messages, claims, context)
  {
    EarlyMeaning(events, messages, claims, context);
    var early := EarlyVerdict(events, messages, claims, context);
    hide EarlyVerdict;
    if early.Holds? {
      var offline :| OfflineVerdict(Index(events), context, messages, offline)
                     && v == Then(offline, First(context.expectations, ExpectationCheck(claims)));
      OfflineMeaning(events, context, messages, offline);
      FirstMeaning(context.expectations, ExpectationCheck(claims));
      forall tokens ensures ExpectationCheck(claims)(tokens).Holds? <==> ExpectationMet(claims, tokens) {
        ExpectationMeaning(claims, tokens);
      }
    }
  }

  // ---------------------------------------------------------------- checks that cannot fail

  /** The second comparison of a message's times never fails, nor does the second look at the event ids. */
  lemma DeadChecks(events: seq<SimEvent>, messages: seq<Message>, claims: seq<SimClaim>, context: ScenarioContext,
                   v: Verdict)
    requires IsVerdict(events, messages, claims, context, v) && v.Fails?
    ensures !v.failure.InvalidTimeWindow?
    ensures v.failure.DuplicateEventId? <==> !DistinctIds(events)
  {
    Sources(events, messages, claims, context, v);
    UniqueIdsMeaning(events);
    UniqueIdsFailure(events);
    TimesMeaning(messages);
  }

  lemma UniqueIdsFailure(events: seq<SimEvent>)
    ensures UniqueIds(events).Fails? ==> UniqueIds(events).failure.DuplicateEventId?
  {
  }

  datatype Source = Ids | Dependencies | Times | Lightcone | Routes | Collision | Finality | Offline | Expectations

  /** The check a failure comes from. */
  function SourceOf(f: Failure): Source {
    match f
    case DuplicateEventId(_) => Ids
    case UnknownDependency(_, _) => Dependencies
    case ReceivedBeforeSent(_) | InvalidTimeWindow(_) => Times
    case RouteTooShortForUnknownPair(_) | CannotCross(_) | DelayBoundExceeded(_) => Lightcone
    case NonceTooShort(_) | RouteHops(_) | MaxRouteHops(_) | UnknownFromEvent(_) | UnknownToEvent(_) => Routes
    case AntiReplayCollision => Collision
    case OfflineWindowTouched(_, _, _) => Offline
    case UnknownClaim(_) | FoundConflict(_) | ExpectedConflict(_) => Expectations
    case _ => Finality
  }

  ghost predicate From(v: Verdict, s: Source) {
    v.Fails? ==> SourceOf(v.failure) == s
  }

  lemma FirstFrom<T>(items: seq<T>, check: T -> Verdict, s: Source)
    requires forall x :: From(check(x), s)
    ensures From(First(items, check), s)
  {
    FirstMeaning(items, check);
  }

  lemma EventSources(events: seq<SimEvent>, index: map<string, SimEvent>)
    ensures From(UniqueIds(events), Ids)
    ensures From(First(events, EventCheck(index)), Dependencies)
  {
    UniqueIdsFailure(events);
    forall e ensures From(EventCheck(index)(e), Dependencies) {
      FirstFrom(e.causalDependencies, DependencyCheck(index, e), Dependencies);
    }
    FirstFrom(events, EventCheck(index), Dependencies);
  }

  lemma MessageSources(messages: seq<Message>, index: map<string, SimEvent>, context: ScenarioContext)
    ensures From(First(messages, TimesCheck()), Times)
    ensures From(First(messages, LightconeCheck(index, context)), Lightcone)
    ensures From(First(messages, RouteCheck(index, context)), Routes)
    ensures From(CollisionVerdict(messages), Collision)
  {
    FirstFrom(messages, TimesCheck(), Times);
    FirstFrom(messages, LightconeCheck(index, context), Lightcone);
    FirstFrom(messages, RouteCheck(index, context), Routes);
  }

  lemma ClaimFrom(c: SimClaim)
    ensures From(ClaimFault(c), Finality)
  {
    hide ALLOWED_FINALITY_STAGES, HIGH_FINALITY, SETTLED_FINALITY, ALLOWED_LIGHTCONE_STATUS;
  }

  lemma LockFrom(claims: seq<SimClaim>, lock: string)
    ensures From(ConflictCheck(claims)(lock), Finality)
  {
    hide Select;
  }

  lemma ClaimSources(claims: seq<SimClaim>)
    ensures From(First(Locks(claims), ConflictCheck(claims)), Finality)
    ensures From(First(claims, PartiesCheck()), Finality)
    ensures From(First(claims, ClaimCheck()), Finality)
  {
    forall c ensures From(PartiesCheck()(c), Finality) {
    }
    hide From;
    FirstFrom(claims, PartiesCheck(), Finality);
    forall lock ensures From(ConflictCheck(claims)(lock), Finality) {
      LockFrom(claims, lock);
    }
    FirstFrom(Locks(claims), ConflictCheck(claims), Finality);
    forall c ensures From(ClaimCheck()(c), Finality) {
      ClaimFrom(c);
    }
    hide ClaimFault;
    FirstFrom(claims, ClaimCheck(), Finality);
  }

  lemma LateSources(events: seq<SimEvent>, messages: seq<Message>, claims: seq<SimClaim>, context: ScenarioContext,
                    v: Verdict)
    requires OfflineVerdict(Index(events), context, messages, v)
    ensures From(v, Offline)
    ensures From(First(context.expectations, ExpectationCheck(claims)), Expectations)
  {
    hide First, Index, Select, Lower, Touches;
    FirstFrom(context.expectations, ExpectationCheck(claims), Expectations);
    forall m, d ensures From(DomainVerdict(context, m, d), Offline) {
      FirstFrom(WindowsOf(context, d), WindowCheck(m, d), Offline);
    }
  }

  /** Each kind of failure is raised by one check, on the evidence that check looks at. */
  lemma Sources(events: seq<SimEvent>, messages: seq<Message>, claims: seq<SimClaim>, context: ScenarioContext,
                v: Verdict)
    requires IsVerdict(events, messages, claims, context, v) && v.Fails?
    ensures SourceOf(v.failure).Ids? ==> v == UniqueIds(events)
    ensures SourceOf(v.failure).Times? ==> v == First(messages, TimesCheck())
    ensures SourceOf(v.failure).Lightcone? ==> v == First(messages, LightconeCheck(Index(events), context))
    ensures SourceOf(v.failure).Routes? ==> v == First(messages, RouteCheck(Index(events), context))
    ensures SourceOf(v.failure).Collision? ==> v == CollisionVerdict(messages)
  {
    hide First, Index, UniqueIds, CollisionVerdict, SourceOf, OfflineVerdict, TimesCheck, LightconeCheck, RouteCheck;
    EventSources(events, Index(events));
    MessageSources(messages, Index(events), context);
    ClaimSources(claims);
    if EarlyVerdict(events, messages, claims, context).Holds? {
      var offline :| OfflineVerdict(Index(events), context, messages, offline)
                     && v == Then(offline, First(context.expectations, ExpectationCheck(claims)));
      LateSources(events, messages, claims, context, offline);
    }
  }

  // ---------------------------------------------------------------- scheduler and verifier

  lemma {:induction false} CountersMeaning(context: ScenarioContext, ms: seq<Message>)
    ensures RouteViolations(context, ms) == 0 <==> forall m :: m in ms ==> !RouteTooLong(context, m)
    ensures DelayViolations(context, ms) == 0 <==> forall m :: m in ms ==> !DelayTooLong(context, m)
  {
    if ms == [] {
    } else {
      var last := |ms| - 1;
      CountersMeaning(context, ms[..last]);
      assert ms == ms[..last] + [ms[last]];
    }
  }

  /** On a schedule the collision check cannot fail, whatever the scenario. */
  lemma ScheduleNeverCollides(events: seq<SimEvent>, ms: seq<Message>, claims: seq<SimClaim>, context: ScenarioContext,
                              v: Verdict)
    requires IsVerdict(events, Scheduled(ms), claims, context, v)
    ensures v != Fails(AntiReplayCollision)
  {
    ScheduledIsSchedule(ms);
    CollisionMeaning(Scheduled(ms));
    hide IsVerdict, Scheduled, IsSchedule, CollisionVerdict;
    if v.Fails? {
      Sources(events, Scheduled(ms), claims, context, v);
    }
  }

  /** The verifier's findings and the scheduler's counters, over the same messages. */
  lemma CountersAgree(events: seq<SimEvent>, ms: seq<Message>, claims: seq<SimClaim>, context: ScenarioContext,
                      v: Verdict)
    requires IsVerdict(events, ms, claims, context, v)
    ensures v.Holds? ==> RouteViolations(context, ms) == 0
    ensures v.Fails? && v.failure.MaxRouteHops? ==> RouteViolations(context, ms) > 0
    ensures v.Fails? && v.failure.DelayBoundExceeded? ==> DelayViolations(context, ms) > 0
  {
    hide IsVerdict, First, Index, RouteViolations, DelayViolations;
    CountersMeaning(context, ms);
    PassesIffConsistent(events, ms, claims, context, v);
    if v.Fails? {
      Sources(events, ms, claims, context, v);
      BoundsBroken(ms, Index(events), context);
    } else {
      assert forall m :: m in ms ==> WellRouted(events, context, m);
    }
  }

  lemma BoundsBroken(ms: seq<Message>, index: map<string, SimEvent>, context: ScenarioContext)
    ensures forall id :: First(ms, LightconeCheck(index, context)) == Fails(DelayBoundExceeded(id))
                         ==> exists m :: m in ms && DelayTooLong(context, m)
    ensures forall id :: First(ms, RouteCheck(index, context)) == Fails(MaxRouteHops(id))
                         ==> exists m :: m in ms && RouteTooLong(context, m)
  {
    FirstMeaning(ms, LightconeCheck(index, context));
    FirstMeaning(ms, RouteCheck(index, context));
  }

  /** The message joins events of two domains a known distance apart, the only ones whose delay the verifier bounds. */
  ghost predicate Bounded(events: seq<SimEvent>, context: ScenarioContext, m: Message) {
    exists a, b :: Joins(events, m, a, b) && a.domainId != b.domainId && (a.domainId, b.domainId) in context.distancesLy
  }

  /** A passing scenario has no delay counted as too long exactly when none is among the messages left unbounded. */
  lemma PassingDelays(events: seq<SimEvent>, ms: seq<Message>, claims: seq<SimClaim>, context: ScenarioContext)
    requires Consistent(events, ms, claims, context)
    ensures DelayViolations(context, ms) == 0 <==>
            forall m :: m in ms && !Bounded(events, context, m) ==> !DelayTooLong(context, m)
    ensures forall m :: m in ms && Bounded(events, context, m) ==> !DelayTooLong(context, m)
  {
    CountersMeaning(context, ms);
    forall m | m in ms && Bounded(events, context, m) ensures !DelayTooLong(context, m) {
      assert CanTravel(events, context, m);
    }
  }

  // ---------------------------------------------------------------- checking before or after scheduling

  lemma KeptByPermutation(events: seq<SimEvent>, es: seq<SimEvent>, messages: seq<Message>, ms: seq<Message>,
                          claims: seq<SimClaim>, context: ScenarioContext)
    requires multiset(events) == multiset(es) && multiset(messages) == multiset(ms)
    requires Consistent(events, messages, claims, context)
    ensures Consistent(es, ms, claims, context)
  {
    SameElements(events, es);
    SameElements(messages, ms);
    DistinctPermuted(events, es, (e: SimEvent) => e.eventId);
    DistinctByMultiset(messages, ms);
    forall id | Known(events, id) ensures Known(es, id) {
      var i :| 0 <= i < |events| && events[i].eventId == id;
      assert events[i] in es;
    }
    hide DelayTooLong, Touches, ClaimSound, OneAcceptedPerLock, ExpectationMet, Known;
    assert forall m, a, b :: Joins(events, m, a, b) <==> Joins(es, m, a, b);
    hide Joins;
    forall m | m in ms
      ensures CanTravel(es, context, m) && WellRouted(es, context, m) && AvoidsWindows(es, context, m)
    {
      assert m in messages;
      assert CanTravel(events, context, m) && WellRouted(events, context, m) && AvoidsWindows(events, context, m);
    }
  }

  lemma NothingDropped(ms: seq<Message>)
    ensures |Scheduled(ms)| == |ms| <==> NoReplays(ms)
    ensures NoReplays(ms) ==> multiset(Scheduled(ms)) == multiset(ms)
  {
    KeptCount(ms);
    CollisionMeaning(ms);
    ReplaysOnFields(ms);
    if DistinctReplayKeys(ms) {
      var sent := SortedBy(ms, SendKey);
      SortSorts(ms, SendKey);
      DistinctByMultiset(ms, sent);
      DedupedKeepsDistinct(sent);
      SortSorts(sent, ReceiveKey);
    }
  }

  /** A scenario is consistent as listed exactly when it is as scheduled and the scheduler dropped nothing. */
  lemma ConsistentBeforeAndAfter(events: seq<SimEvent>, ms: seq<Message>, claims: seq<SimClaim>,
                                 context: ScenarioContext)
    ensures Consistent(events, ms, claims, context)
            <==> Consistent(SortedBy(events, EventKey), Scheduled(ms), claims, context) && |Scheduled(ms)| == |ms|
  {
    var es, out := SortedBy(events, EventKey), Scheduled(ms);
    SortSorts(events, EventKey);
    NothingDropped(ms);
    if Consistent(events, ms, claims, context) {
      KeptByPermutation(events, es, ms, out, claims, context);
    }
    if Consistent(es, out, claims, context) && |out| == |ms| {
      KeptByPermutation(es, events, out, ms, claims, context);
    }
  }

  /** The simulator's command: schedule a scenario, then check the schedule. */
  method Simulate(context: ScenarioContext, claims: seq<SimClaim>) returns (result: SimulationResult, v: Verdict)
    ensures IsSchedule(context.messages, result.messages)
    ensures v != Fails(AntiReplayCollision)
    ensures v.Holds? ==> result.routeViolations == 0
    ensures v.Holds? ==>
              (result.delayViolations == 0 <==>
               forall m :: m in result.messages && !Bounded(result.events, context, m) ==> !DelayTooLong(context, m))
    ensures v.Holds? ==> OneAcceptedPerLock(claims)
    ensures v.Fails? && v.failure.MaxRouteHops? ==> result.routeViolations > 0
    ensures v.Fails? && v.failure.DelayBoundExceeded? ==> result.delayViolations > 0
    ensures v.Holds? && !result.droppedReplays <==> Consistent(context.events, context.messages, claims, context)
  {
    result := Run(context);
    v := VerifyInvariants(result.events, result.messages, claims, context);
    ScheduledIsSchedule(context.messages);
    ScheduleNeverCollides(result.events, context.messages, claims, context, v);
    CountersAgree(result.events, result.messages, claims, context, v);
    PassesIffConsistent(result.events, result.messages, claims, context, v);
    ConsistentBeforeAndAfter(context.events, context.messages, claims, context);
    if v.Holds? {
      PassingDelays(result.events, result.messages, claims, context);
    }
  }

  // ---------------------------------------------------------------- where the two differ

  /** A scenario of one message under a delay bound. */
  function OneMessage(events: seq<SimEvent>, m: Message, bound: nat): ScenarioContext {
    ScenarioContext(events, [m], [], map[], 1, 8, 0, AtMost(bound as real), map[])
  }

  lemma OneMessageTooLong(events: seq<SimEvent>, m: Message, bound: nat)
    requires m.receiveTime - m.sendTime == bound + 1
    ensures DelayTooLong(OneMessage(events, m, bound), m)
    ensures DelayViolations(OneMessage(events, m, bound), [m]) == 1
  {
    assert [m][..0] == [];
  }

  /** A message over `bound` by one year, through one relay. */
  function LateMessage(from: string, to: string, bound: nat): Message {
    Message("m", from, to, "", ["d"], "12345678", 0, bound + 1, [])
  }

  /** Within one domain the verifier allows a delay that the scheduler counts as too long. */
  lemma LongDelayInOneDomain(claims: seq<SimClaim>, bound: nat)
    requires OneAcceptedPerLock(claims) && forall c :: c in claims ==> ClaimSound(c)
    ensures var events, m := [SimEvent("e", "a", "d", 0, 0, [])], LateMessage("e", "e", bound);
            var context := OneMessage(events, m, bound);
            Consistent(events, [m], claims, context) && DelayViolations(context, [m]) == 1
  {
    var e, m := SimEvent("e", "a", "d", 0, 0, []), LateMessage("e", "e", bound);
    OneMessageTooLong([e], m, bound);
    assert [e][0].eventId == "e";
    assert Known([e], "e");
  }

  /** So it does between two domains whose distance the scenario does not give. */
  lemma LongDelayAtUnknownDistance(claims: seq<SimClaim>, bound: nat)
    requires OneAcceptedPerLock(claims) && forall c :: c in claims ==> ClaimSound(c)
    ensures var events := [SimEvent("e", "a", "d", 0, 0, []), SimEvent("f", "a", "g", 0, 0, [])];
            var m := LateMessage("e", "f", bound);
            var context := OneMessage(events, m, bound);
            Consistent(events, [m], claims, context) && DelayViolations(context, [m]) == 1
  {
    var events := [SimEvent("e", "a", "d", 0, 0, []), SimEvent("f", "a", "g", 0, 0, [])];
    OneMessageTooLong(events, LateMessage("e", "f", bound), bound);
    assert events[0].eventId == "e" && events[1].eventId == "f";
    assert Known(events, "e") && Known(events, "f");
  }

  /** And so it does for a message that names no events. */
  lemma LongDelayWithoutEvents(claims: seq<SimClaim>, bound: nat)
    requires OneAcceptedPerLock(claims) && forall c :: c in claims ==> ClaimSound(c)
    ensures var m := LateMessage("", "", bound);
            var context := OneMessage([], m, bound);
            Consistent([], [m], claims, context) && DelayViolations(context, [m]) == 1
  {
    OneMessageTooLong([], LateMessage("", "", bound), bound);
  }
}
