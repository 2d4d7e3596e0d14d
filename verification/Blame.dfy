/** What a failed check says: the fault it names is there, and nothing the verifier looks at earlier is at fault. */
module Blame {
  import opened Scheduler
  import opened Verifier
  import opened Agreement

  // ---------------------------------------------------------------- faults, on the fields

  ghost predicate KnownDependencies(events: seq<SimEvent>, e: SimEvent) {
    forall d :: d in e.causalDependencies ==> Known(events, d)
  }

  /** The event's first unknown dependency. */
  ghost predicate DependencyFault(events: seq<SimEvent>, e: SimEvent, d: string) {
    exists i :: 0 <= i < |e.causalDependencies| && e.causalDependencies[i] == d && !Known(events, d)
                && forall j :: 0 <= j < i ==> Known(events, e.causalDependencies[j])
  }

  /** Why the message cannot have travelled between two domains. */
  ghost predicate TravelFault(f: Failure, events: seq<SimEvent>, context: ScenarioContext, m: Message) {
    exists a, b :: Joins(events, m, a, b) && TravelFaultBetween(f, context, m, a, b)
  }

  ghost predicate TravelFaultBetween(f: Failure, context: ScenarioContext, m: Message, a: SimEvent, b: SimEvent) {
    var pair, delay := (a.domainId, b.domainId), m.receiveTime - m.sendTime;
    && a.domainId != b.domainId
    && if pair !in context.distancesLy then
         f == RouteTooShortForUnknownPair(m.msgId) && |m.route| < context.routeMinHops
       else if !Covers(delay, context.distancesLy[pair]) then f == CannotCross(m.msgId)
       else f == DelayBoundExceeded(m.msgId) && context.maxDelay.AtMost? && delay as real > context.maxDelay.years
  }

  /** The first thing wrong with the message's nonce, route or events. */
  ghost predicate RoutingFault(f: Failure, events: seq<SimEvent>, context: ScenarioContext, m: Message) {
    if |m.antiReplayNonce| < context.minNonceChars then f == NonceTooShort(m.msgId)
    else if m.route != [] && |m.route| < context.routeMinHops then f == RouteHops(m.msgId)
    else if context.maxRouteHops > 0 && |m.route| > context.maxRouteHops then f == MaxRouteHops(m.msgId)
    else if m.fromEvent != "" && !Known(events, m.fromEvent) then f == UnknownFromEvent(m.msgId)
    else f == UnknownToEvent(m.msgId) && m.toEvent != "" && !Known(events, m.toEvent)
  }

  ghost predicate PartiesFine(c: SimClaim) {
    c.amount > 0 && c.originDomain != c.remoteDomain
  }

  ghost predicate PartiesFault(f: Failure, c: SimClaim) {
    if c.amount <= 0 then f == NonPositiveAmount(c.claimId)
    else f == SameDomains(c.claimId) && c.originDomain == c.remoteDomain
  }

  ghost predicate StageFine(c: SimClaim) {
    ClaimSound(c.(amount := 1, originDomain := "", remoteDomain := "-"))
  }

  /** The first thing wrong with the claim's stage, status, horizon or checkpoint. */
  ghost predicate StageFault(f: Failure, c: SimClaim) {
    var stage, status := c.finalityStage, c.lightconeStatus;
    if !Observed(stage) && !Credited(stage) && !Final(stage) then f == UnsupportedStage(c.claimId)
    else if status != "valid" && status != "unknown" && status != "invalid" && status != "stale" then
      f == UnsupportedLightcone(c.claimId)
    else if c.horizonYears <= 0 then f == NonPositiveHorizon(c.claimId)
    else if !Observed(stage) && status != "valid" then f == StagedWithoutLightcone(c.claimId)
    else f == NoCheckpoint(c.claimId) && Final(stage) && c.lockCheckpoint == ""
  }

  ghost predicate WindowFault(f: Failure, events: seq<SimEvent>, context: ScenarioContext, m: Message) {
    f.OfflineWindowTouched? && f.msgId == m.msgId
    && OfflineIn(context, f.domainId, f.window)
    && (!Outside(m.sendTime, f.window) || !Outside(m.receiveTime, f.window))
    && exists a, b :: Joins(events, m, a, b) && (f.domainId == a.domainId || f.domainId == b.domainId)
  }

  ghost predicate ExpectationBlame(f: Failure, claims: seq<SimClaim>, tokens: seq<string>) {
    && |tokens| == 2
    && if Spells(tokens[0], "no_offline_violation") || Spells(tokens[0], "offline_violation") then
         f == UnknownClaim(tokens[1]) && forall c :: c in claims ==> c.claimId != tokens[1]
       else if Spells(tokens[0], "no_conflict") then f == FoundConflict(tokens[1]) && Contested(claims, tokens[1])
       else Spells(tokens[0], "conflict") && f == ExpectedConflict(tokens[1]) && !Contested(claims, tokens[1])
  }

  // ---------------------------------------------------------------- one item at a time

  lemma TravelBlame(events: seq<SimEvent>, context: ScenarioContext, m: Message)
    requires DistinctIds(events) && LightconeFault(Index(events), context, m).Fails?
    ensures TravelFault(LightconeFault(Index(events), context, m).failure, events, context, m)
  {
    IndexMeaning(events);
    hide Index, Truncate, Covers;
    var index := Index(events);
    var a, b := index[m.fromEvent], index[m.toEvent];
    var pair := (a.domainId, b.domainId);
    if pair in context.distancesLy {
      TruncateCovers(m.receiveTime - m.sendTime, context.distancesLy[pair]);
    }
    assert Joins(events, m, a, b);
    assert TravelFaultBetween(LightconeFault(index, context, m).failure, context, m, a, b);
  }

  lemma RoutingBlame(events: seq<SimEvent>, context: ScenarioContext, m: Message)
    requires RouteFault(Index(events), context, m).Fails?
    ensures RoutingFault(RouteFault(Index(events), context, m).failure, events, context, m)
  {
    IndexMeaning(events);
    hide Index;
  }

  lemma StageBlame(c: SimClaim)
    ensures ClaimFault(c).Holds? <==> StageFine(c)
    ensures ClaimFault(c).Fails? ==> StageFault(ClaimFault(c).failure, c)
  {
  }

  lemma ExpectationBlamed(claims: seq<SimClaim>, tokens: seq<string>)
    requires ExpectationFault(claims, tokens).Fails?
    ensures ExpectationBlame(ExpectationFault(claims, tokens).failure, claims, tokens)
  {
    SpellsByLower(tokens[0]);
    hide Spells, Lower;
    SelectSeveral(claims, OnLock(tokens[1]));
    assert Contested(claims, tokens[1]) <==> |Select(claims, OnLock(tokens[1]))| > 1;
    assert (exists i :: 0 <= i < |claims| && claims[i].claimId == tokens[1])
      <==> exists c :: c in claims && c.claimId == tokens[1];
  }

  // ---------------------------------------------------------------- the first of many

  lemma {:induction false} RepeatedId(events: seq<SimEvent>)
    requires UniqueIds(events).Fails?
    ensures exists j :: 0 <= j < |events| && DistinctIds(events[..j]) && Known(events[..j], events[j].eventId)
                        && UniqueIds(events) == Fails(DuplicateEventId(events[j].eventId))
  {
    var last := |events| - 1;
    if UniqueIds(events[..last]).Fails? {
      RepeatedId(events[..last]);
      var j :| 0 <= j < last && DistinctIds(events[..last][..j])
               && Known(events[..last][..j], events[..last][j].eventId)
               && UniqueIds(events[..last]) == Fails(DuplicateEventId(events[..last][j].eventId));
      assert events[..last][..j] == events[..j];
    } else {
      UniqueIdsMeaning(events[..last]);
      IndexMeaning(events[..last]);
    }
  }

  lemma DependencyBlame(events: seq<SimEvent>, e: SimEvent)
    ensures var v := EventCheck(Index(events))(e);
            && (v.Holds? <==> KnownDependencies(events, e))
            && (v.Fails? ==> exists d :: DependencyFault(events, e, d) && v == Fails(UnknownDependency(e.eventId, d)))
  {
    var index, ds := Index(events), e.causalDependencies;
    var check := DependencyCheck(index, e);
    IndexMeaning(events);
    FirstMeaning(ds, check);
    hide Index, Known;
    if First(ds, check).Fails? {
      var k :| 0 <= k < |ds| && check(ds[k]) == First(ds, check) && forall j :: 0 <= j < k ==> check(ds[j]).Holds?;
      hide First;
      assert DependencyFault(events, e, ds[k]);
    }
  }

  /** The event is the first with an unknown dependency, `d`. */
  ghost predicate FirstUnknown(events: seq<SimEvent>, i: nat, d: string)
    requires i < |events|
  {
    DependencyFault(events, events[i], d) && forall j :: 0 <= j < i ==> KnownDependencies(events, events[j])
  }

  lemma UnknownDependencyBlame(events: seq<SimEvent>, v: Verdict)
    requires v == First(events, EventCheck(Index(events))) && v.Fails?
    ensures exists i, d :: 0 <= i < |events| && FirstUnknown(events, i, d)
                           && v == Fails(UnknownDependency(events[i].eventId, d))
  {
    var check := EventCheck(Index(events));
    FirstMeaning(events, check);
    var i :| 0 <= i < |events| && check(events[i]) == v && forall j :: 0 <= j < i ==> check(events[j]).Holds?;
    hide First, Index, EventCheck, DependencyFault, KnownDependencies;
    DependencyBlame(events, events[i]);
    var d :| DependencyFault(events, events[i], d) && v == Fails(UnknownDependency(events[i].eventId, d));
    forall j | 0 <= j < i ensures KnownDependencies(events, events[j]) {
      DependencyBlame(events, events[j]);
    }
    assert FirstUnknown(events, i, d);
  }

  lemma TimesBlame(messages: seq<Message>, v: Verdict)
    requires v == First(messages, TimesCheck()) && v.Fails?
    ensures exists i :: 0 <= i < |messages| && v == Fails(ReceivedBeforeSent(messages[i].msgId))
                        && messages[i].receiveTime < messages[i].sendTime
                        && forall j :: 0 <= j < i ==> messages[j].sendTime <= messages[j].receiveTime
  {
    FirstMeaning(messages, TimesCheck());
  }

  lemma FirstTravelBlame(events: seq<SimEvent>, messages: seq<Message>, context: ScenarioContext, v: Verdict)
    requires DistinctIds(events) && v == First(messages, LightconeCheck(Index(events), context)) && v.Fails?
    ensures exists i :: 0 <= i < |messages| && TravelFault(v.failure, events, context, messages[i])
                        && forall j :: 0 <= j < i ==> CanTravel(events, context, messages[j])
  {
    var check := LightconeCheck(Index(events), context);
    FirstMeaning(messages, check);
    var i :| 0 <= i < |messages| && check(messages[i]) == v && forall j :: 0 <= j < i ==> check(messages[j]).Holds?;
    hide TravelFault, CanTravel, LightconeFault, Index, First, DistinctIds;
    TravelBlame(events, context, messages[i]);
    forall j | 0 <= j < i ensures CanTravel(events, context, messages[j]) {
      LightconeMeaning(events, context, messages[j]);
    }
  }

  lemma FirstRoutingBlame(events: seq<SimEvent>, messages: seq<Message>, context: ScenarioContext, v: Verdict)
    requires v == First(messages, RouteCheck(Index(events), context)) && v.Fails?
    ensures exists i :: 0 <= i < |messages| && RoutingFault(v.failure, events, context, messages[i])
                        && forall j :: 0 <= j < i ==> WellRouted(events, context, messages[j])
  {
    var check := RouteCheck(Index(events), context);
    FirstMeaning(messages, check);
    var i :| 0 <= i < |messages| && check(messages[i]) == v && forall j :: 0 <= j < i ==> check(messages[j]).Holds?;
    hide RoutingFault, WellRouted, RouteFault, Index, First;
    RoutingBlame(events, context, messages[i]);
    forall j | 0 <= j < i ensures WellRouted(events, context, messages[j]) {
      RouteMeaning(events, context, messages[j]);
    }
  }

  lemma FirstPartiesBlame(claims: seq<SimClaim>, v: Verdict)
    requires v == First(claims, PartiesCheck()) && v.Fails?
    ensures exists i :: 0 <= i < |claims| && PartiesFault(v.failure, claims[i])
                        && forall j :: 0 <= j < i ==> PartiesFine(claims[j])
  {
    FirstMeaning(claims, PartiesCheck());
  }

  lemma FirstStageBlame(claims: seq<SimClaim>, v: Verdict)
    requires v == First(claims, ClaimCheck()) && v.Fails?
    ensures exists i :: 0 <= i < |claims| && StageFault(v.failure, claims[i])
                        && forall j :: 0 <= j < i ==> StageFine(claims[j])
  {
    FirstMeaning(claims, ClaimCheck());
    var i :| 0 <= i < |claims| && ClaimCheck()(claims[i]) == v
             && forall j :: 0 <= j < i ==> ClaimCheck()(claims[j]).Holds?;
    hide StageFault, StageFine, ClaimFault, First;
    StageBlame(claims[i]);
    forall j | 0 <= j < i ensures StageFine(claims[j]) {
      StageBlame(claims[j]);
    }
  }

  // ---------------------------------------------------------------- contested locks

  /** The positions, in order, of the items selected. */
  lemma {:induction false} Positions<T>(items: seq<T>, wanted: T -> bool) returns (at: seq<int>)
    ensures |at| == |Select(items, wanted)|
    ensures forall x :: 0 <= x < |at| ==> 0 <= at[x] < |items| && Select(items, wanted)[x] == items[at[x]]
    ensures forall x, y :: 0 <= x < y < |at| ==> at[x] < at[y]
    ensures forall k :: 0 <= k < |items| ==> (wanted(items[k]) <==> k in at)
  {
    at := [];
    if items == [] {
    } else {
      var last := |items| - 1;
      var front := items[..last];
      at := Positions(front, wanted);
      assert forall k :: 0 <= k < last ==> front[k] == items[k];
      if wanted(items[last]) {
        at := at + [last];
      }
    }
  }

  /** The claims past observation on one lock event, by id, in order. */
  ghost predicate ListsAccepted(claims: seq<SimClaim>, lock: string, ids: seq<string>) {
    exists at: seq<int> ::
      && |at| == |ids|
      && (forall x :: 0 <= x < |at| ==> 0 <= at[x] < |claims| && ids[x] == claims[at[x]].claimId)
      && (forall x, y :: 0 <= x < y < |at| ==> at[x] < at[y])
      && (forall k :: 0 <= k < |claims| ==>
            (k in at <==> claims[k].lockEventId == lock && !Observed(claims[k].finalityStage)))
  }

  lemma ConflictBlame(claims: seq<SimClaim>, lock: string)
    requires ConflictCheck(claims)(lock).Fails?
    ensures exists ids :: ConflictCheck(claims)(lock) == Fails(ConflictingClaims(lock, ids)) && |ids| > 1
                          && ListsAccepted(claims, lock, ids)
  {
    SelectTwice(claims, lock);
    var at := Positions(claims, Accepted(lock));
    var ids := ClaimIds(Select(claims, Accepted(lock)));
    hide Select;
    assert forall k :: 0 <= k < |claims| ==>
        (Accepted(lock)(claims[k]) <==> claims[k].lockEventId == lock && !Observed(claims[k].finalityStage));
    assert ListsAccepted(claims, lock, ids);
  }

  /** Every lock is met once, and in the order in which the claims first name them. */
  lemma {:induction false} LocksInOrder(claims: seq<SimClaim>)
    ensures forall x, y :: 0 <= x < y < |Locks(claims)| ==> FirstBefore(claims, Locks(claims)[x], Locks(claims)[y])
  {
    if claims == [] {
    } else {
      var last := |claims| - 1;
      var front, locks := claims[..last], Locks(claims);
      LocksInOrder(front);
      LocksMeaning(front);
      assert forall i :: 0 <= i < last ==> front[i] == claims[i];
      forall x, y | 0 <= x < y < |locks| ensures FirstBefore(claims, locks[x], locks[y]) {
        if y < |Locks(front)| {
          assert FirstBefore(front, Locks(front)[x], Locks(front)[y]);
          var i :| 0 <= i < |front| && front[i].lockEventId == locks[x]
                   && forall j :: 0 <= j <= i ==> front[j].lockEventId != locks[y];
          assert claims[i].lockEventId == locks[x];
        } else {
          assert locks[x] in Locks(front);
          var i :| 0 <= i < |front| && front[i].lockEventId == locks[x];
          assert forall j :: 0 <= j <= i ==> front[j].lockEventId != locks[y];
          assert claims[i].lockEventId == locks[x];
        }
      }
    }
  }

  /** Some claim on lock `a` comes before every claim on lock `b`. */
  ghost predicate FirstBefore(claims: seq<SimClaim>, a: string, b: string) {
    exists i :: 0 <= i < |claims| && claims[i].lockEventId == a
                && forall j :: 0 <= j <= i ==> claims[j].lockEventId != b
  }

  /** Every other contested lock is first named later. */
  ghost predicate FirstContested(claims: seq<SimClaim>, lock: string) {
    forall c :: c in claims && c.lockEventId != lock
                ==> Uncontested(claims, c.lockEventId) || FirstBefore(claims, lock, c.lockEventId)
  }

  lemma ContestedInOrder(claims: seq<SimClaim>, x: nat)
    requires x < |Locks(claims)|
    requires forall y :: 0 <= y < x ==> ConflictCheck(claims)(Locks(claims)[y]).Holds?
    ensures FirstContested(claims, Locks(claims)[x])
  {
    var locks := Locks(claims);
    LocksInOrder(claims);
    LocksMeaning(claims);
    hide Locks, FirstBefore, Uncontested, ConflictCheck;
    forall c | c in claims && c.lockEventId != locks[x]
      ensures Uncontested(claims, c.lockEventId) || FirstBefore(claims, locks[x], c.lockEventId)
    {
      var i :| 0 <= i < |claims| && claims[i] == c;
      assert c.lockEventId in locks;
      var y :| 0 <= y < |locks| && locks[y] == c.lockEventId;
      if y < x {
        UncontestedExact(claims, locks[y]);
      }
    }
  }

  lemma FirstConflictBlame(claims: seq<SimClaim>, v: Verdict)
    requires v == First(Locks(claims), ConflictCheck(claims)) && v.Fails?
    ensures exists lock, ids :: v == Fails(ConflictingClaims(lock, ids)) && |ids| > 1
                                && ListsAccepted(claims, lock, ids) && FirstContested(claims, lock)
  {
    var locks, check := Locks(claims), ConflictCheck(claims);
    FirstMeaning(locks, check);
    var x :| 0 <= x < |locks| && check(locks[x]) == v && forall y :: 0 <= y < x ==> check(locks[y]).Holds?;
    hide Locks, First, ListsAccepted, FirstContested, ConflictCheck;
    ConflictBlame(claims, locks[x]);
    ContestedInOrder(claims, x);
  }

  // ---------------------------------------------------------------- the whole verdict

  ghost predicate EventsFine(events: seq<SimEvent>) {
    DistinctIds(events) && forall e :: e in events ==> KnownDependencies(events, e)
  }

  ghost predicate TimesFine(messages: seq<Message>) {
    forall m :: m in messages ==> m.sendTime <= m.receiveTime
  }

  ghost predicate TravelFine(events: seq<SimEvent>, messages: seq<Message>, context: ScenarioContext) {
    forall m :: m in messages ==> CanTravel(events, context, m)
  }

  ghost predicate RoutesFine(events: seq<SimEvent>, messages: seq<Message>, context: ScenarioContext) {
    forall m :: m in messages ==> WellRouted(events, context, m)
  }

  ghost predicate WindowsFine(events: seq<SimEvent>, messages: seq<Message>, context: ScenarioContext) {
    forall m :: m in messages ==> AvoidsWindows(events, context, m)
  }

  ghost predicate ClaimsFine(claims: seq<SimClaim>) {
    OneAcceptedPerLock(claims) && forall c :: c in claims ==> ClaimSound(c)
  }

  ghost predicate IdsBlame(f: Failure, events: seq<SimEvent>) {
    exists j :: 0 <= j < |events| && DistinctIds(events[..j]) && Known(events[..j], events[j].eventId)
                && f == DuplicateEventId(events[j].eventId)
  }

  ghost predicate DependenciesBlame(f: Failure, events: seq<SimEvent>) {
    exists i, d :: 0 <= i < |events| && FirstUnknown(events, i, d) && f == UnknownDependency(events[i].eventId, d)
  }

  ghost predicate TimesBlamed(f: Failure, messages: seq<Message>) {
    exists i :: 0 <= i < |messages| && f == ReceivedBeforeSent(messages[i].msgId)
                && messages[i].receiveTime < messages[i].sendTime
                && forall j :: 0 <= j < i ==> messages[j].sendTime <= messages[j].receiveTime
  }

  ghost predicate TravelBlamed(f: Failure, events: seq<SimEvent>, messages: seq<Message>, context: ScenarioContext) {
    exists i :: 0 <= i < |messages| && TravelFault(f, events, context, messages[i])
                && forall j :: 0 <= j < i ==> CanTravel(events, context, messages[j])
  }

  ghost predicate RoutingBlamed(f: Failure, events: seq<SimEvent>, messages: seq<Message>, context: ScenarioContext) {
    exists i :: 0 <= i < |messages| && RoutingFault(f, events, context, messages[i])
                && forall j :: 0 <= j < i ==> WellRouted(events, context, messages[j])
  }

  /** Contested locks first, then the parties of every claim, then its stage. */
  ghost predicate FinalityBlamed(f: Failure, claims: seq<SimClaim>) {
    if !OneAcceptedPerLock(claims) then
      exists lock, ids :: f == ConflictingClaims(lock, ids) && |ids| > 1
                          && ListsAccepted(claims, lock, ids) && FirstContested(claims, lock)
    else if exists c :: c in claims && !PartiesFine(c) then
      exists i :: 0 <= i < |claims| && PartiesFault(f, claims[i])
                  && forall j :: 0 <= j < i ==> PartiesFine(claims[j])
    else
      exists i :: 0 <= i < |claims| && StageFault(f, claims[i])
                  && forall j :: 0 <= j < i ==> StageFine(claims[j])
  }

  ghost predicate OfflineBlamed(f: Failure, events: seq<SimEvent>, messages: seq<Message>, context: ScenarioContext) {
    exists i :: 0 <= i < |messages| && WindowFault(f, events, context, messages[i])
                && forall j :: 0 <= j < i ==> AvoidsWindows(events, context, messages[j])
  }

  ghost predicate ExpectationsBlamed(f: Failure, claims: seq<SimClaim>, context: ScenarioContext) {
    exists i :: 0 <= i < |context.expectations| && ExpectationBlame(f, claims, context.expectations[i])
                && forall j :: 0 <= j < i ==> ExpectationMet(claims, context.expectations[j])
  }

  /** The failure is the first fault that there is, in the order in which the checks are made. */
  ghost predicate FirstFault(f: Failure, events: seq<SimEvent>, messages: seq<Message>, claims: seq<SimClaim>,
                             context: ScenarioContext) {
    if !DistinctIds(events) then IdsBlame(f, events)
    else if !EventsFine(events) then DependenciesBlame(f, events)
    else if !TimesFine(messages) then TimesBlamed(f, messages)
    else if !TravelFine(events, messages, context) then TravelBlamed(f, events, messages, context)
    else if !RoutesFine(events, messages, context) then RoutingBlamed(f, events, messages, context)
    else if !NoReplays(messages) then f == AntiReplayCollision
    else if !ClaimsFine(claims) then FinalityBlamed(f, claims)
    else if !WindowsFine(events, messages, context) then OfflineBlamed(f, events, messages, context)
    else ExpectationsBlamed(f, claims, context)
  }

  lemma EventVerdicts(events: seq<SimEvent>)
    ensures var u, d := UniqueIds(events), First(events, EventCheck(Index(events)));
            && (u.Fails? ==> !DistinctIds(events) && IdsBlame(u.failure, events))
            && (u.Holds? ==> DistinctIds(events))
            && (u.Holds? && d.Fails? ==> !EventsFine(events) && DependenciesBlame(d.failure, events))
            && (u.Holds? && d.Holds? ==> EventsFine(events))
  {
    UniqueIdsMeaning(events);
    DependenciesMeaning(events);
    var u, d := UniqueIds(events), First(events, EventCheck(Index(events)));
    hide First, Index, UniqueIds;
    if u.Fails? {
      RepeatedId(events);
    }
    if d.Fails? {
      UnknownDependencyBlame(events, d);
    }
  }

  lemma MessageVerdicts(events: seq<SimEvent>, messages: seq<Message>, context: ScenarioContext)
    requires DistinctIds(events)
    ensures var t, l, r := First(messages, TimesCheck()), First(messages, LightconeCheck(Index(events), context)),
                           First(messages, RouteCheck(Index(events), context));
            && (t.Fails? ==> !TimesFine(messages) && TimesBlamed(t.failure, messages))
            && (t.Holds? ==> TimesFine(messages))
            && (l.Fails? ==> !TravelFine(events, messages, context)
                             && TravelBlamed(l.failure, events, messages, context))
            && (l.Holds? ==> TravelFine(events, messages, context))
            && (r.Fails? ==> !RoutesFine(events, messages, context)
                             && RoutingBlamed(r.failure, events, messages, context))
            && (r.Holds? ==> RoutesFine(events, messages, context))
  {
    hide First, Index, TimesFine, TravelFine, RoutesFine, TimesBlamed, TravelBlamed, RoutingBlamed, DistinctIds;
    TimesVerdict(messages);
    TravelVerdict(events, messages, context);
    RoutesVerdict(events, messages, context);
  }

  lemma TimesVerdict(messages: seq<Message>)
    ensures var t := First(messages, TimesCheck());
            if t.Fails? then !TimesFine(messages) && TimesBlamed(t.failure, messages) else TimesFine(messages)
  {
    TimesMeaning(messages);
    if First(messages, TimesCheck()).Fails? {
      TimesBlame(messages, First(messages, TimesCheck()));
    }
  }

  lemma TravelVerdict(events: seq<SimEvent>, messages: seq<Message>, context: ScenarioContext)
    requires DistinctIds(events)
    ensures var l := First(messages, LightconeCheck(Index(events), context));
            if l.Fails?
            then !TravelFine(events, messages, context) && TravelBlamed(l.failure, events, messages, context)
            else TravelFine(events, messages, context)
  {
    var check := LightconeCheck(Index(events), context);
    FirstMeaning(messages, check);
    hide CanTravel, LightconeFault, TravelFault, Index, DistinctIds;
    forall m ensures check(m).Holds? <==> CanTravel(events, context, m) {
      LightconeMeaning(events, context, m);
    }
    if First(messages, check).Fails? {
      FirstTravelBlame(events, messages, context, First(messages, check));
    }
  }

  lemma RoutesVerdict(events: seq<SimEvent>, messages: seq<Message>, context: ScenarioContext)
    ensures var r := First(messages, RouteCheck(Index(events), context));
            if r.Fails?
            then !RoutesFine(events, messages, context) && RoutingBlamed(r.failure, events, messages, context)
            else RoutesFine(events, messages, context)
  {
    var check := RouteCheck(Index(events), context);
    FirstMeaning(messages, check);
    hide WellRouted, RouteFault, RoutingFault, Index;
    forall m ensures check(m).Holds? <==> WellRouted(events, context, m) {
      RouteMeaning(events, context, m);
    }
    if First(messages, check).Fails? {
      FirstRoutingBlame(events, messages, context, First(messages, check));
    }
  }

  lemma FinalityVerdict(claims: seq<SimClaim>)
    ensures var c, p, t := First(Locks(claims), ConflictCheck(claims)), First(claims, PartiesCheck()),
                           First(claims, ClaimCheck());
            var v := Then(Then(c, p), t);
            if v.Fails? then !ClaimsFine(claims) && FinalityBlamed(v.failure, claims) else ClaimsFine(claims)
  {
    var c, p := First(Locks(claims), ConflictCheck(claims)), First(claims, PartiesCheck());
    var t := First(claims, ClaimCheck());
    ConflictsMeaning(claims);
    ClaimsMeaning(claims);
    PartiesVerdict(claims);
    hide First, ClaimSound, PartiesFine, StageFine, PartiesFault, StageFault, ListsAccepted, FirstContested,
         OneAcceptedPerLock, Locks, ConflictCheck;
    if c.Fails? {
      FirstConflictBlame(claims, c);
    } else if p.Fails? {
      FirstPartiesBlame(claims, p);
    } else if t.Fails? {
      FirstStageBlame(claims, t);
    }
  }

  lemma PartiesVerdict(claims: seq<SimClaim>)
    ensures First(claims, PartiesCheck()).Fails? <==> exists c :: c in claims && !PartiesFine(c)
  {
    FirstMeaning(claims, PartiesCheck());
  }

  lemma OfflineVerdictBlamed(events: seq<SimEvent>, messages: seq<Message>, context: ScenarioContext, v: Verdict)
    requires DistinctIds(events) && OfflineVerdict(Index(events), context, messages, v) && v.Fails?
    ensures OfflineBlamed(v.failure, events, messages, context)
  {
    var index := Index(events);
    var i :| 0 <= i < |messages| && OfflineFault(index, context, messages[i], v)
             && forall j :: 0 <= j < i ==> Online(index, context, messages[j]);
    hide Index, Online, OfflineFault, AvoidsWindows, WindowFault, DistinctIds;
    WindowBlame(events, context, messages[i], v);
    forall j | 0 <= j < i ensures AvoidsWindows(events, context, messages[j]) {
      OnlineMeaning(events, context, messages[j]);
    }
  }

  lemma WindowBlame(events: seq<SimEvent>, context: ScenarioContext, m: Message, v: Verdict)
    requires DistinctIds(events) && OfflineFault(Index(events), context, m, v)
    ensures v.Fails? && WindowFault(v.failure, events, context, m)
  {
    var index := Index(events);
    var d :| d in EndDomains(index, m) && v == DomainVerdict(context, m, d);
    IndexMeaning(events);
    var a, b := index[m.fromEvent], index[m.toEvent];
    assert Joins(events, m, a, b);
    var windows, check := WindowsOf(context, d), WindowCheck(m, d);
    FirstMeaning(windows, check);
    var i :| 0 <= i < |windows| && check(windows[i]) == v;
    assert windows[i] in windows;
  }

  lemma ExpectationsVerdict(claims: seq<SimClaim>, context: ScenarioContext)
    ensures var e := First(context.expectations, ExpectationCheck(claims));
            e.Fails? ==> ExpectationsBlamed(e.failure, claims, context)
  {
    var items, check := context.expectations, ExpectationCheck(claims);
    FirstMeaning(items, check);
    if First(items, check).Fails? {
      var i :| 0 <= i < |items| && check(items[i]) == First(items, check)
               && forall j :: 0 <= j < i ==> check(items[j]).Holds?;
      hide First, ExpectationFault, ExpectationBlame, ExpectationMet;
      ExpectationBlamed(claims, items[i]);
      forall j | 0 <= j < i ensures ExpectationMet(claims, items[j]) {
        ExpectationMeaning(claims, items[j]);
      }
    }
  }

  lemma CollisionBlamed(messages: seq<Message>)
    ensures CollisionVerdict(messages).Fails? ==> CollisionVerdict(messages).failure == AntiReplayCollision
  {
  }

  /** A failing verdict names the first fault of the scenario, in the order of the checks. */
  lemma VerdictNamesFirstFault(events: seq<SimEvent>, messages: seq<Message>, claims: seq<SimClaim>,
                               context: ScenarioContext, v: Verdict)
    requires IsVerdict(events, messages, claims, context, v) && v.Fails?
    ensures FirstFault(v.failure, events, messages, claims, context)
  {
    EventVerdicts(events);
    CollisionMeaning(messages);
    CollisionBlamed(messages);
    FinalityVerdict(claims);
    ExpectationsVerdict(claims, context);
    hide First, Index, UniqueIds, CollisionVerdict, OfflineVerdict, IdsBlame, DependenciesBlame, TimesBlamed,
         TravelBlamed, RoutingBlamed, FinalityBlamed, OfflineBlamed, ExpectationsBlamed, TimesFine, TravelFine,
         RoutesFine, ClaimsFine, DistinctIds, NoReplays, Locks, ConflictCheck, EventsFine;
    if UniqueIds(events).Holds? {
      MessageVerdicts(events, messages, context);
    }
    if EarlyVerdict(events, messages, claims, context).Holds? {
      var offline :| OfflineVerdict(Index(events), context, messages, offline)
                     && v == Then(offline, First(context.expectations, ExpectationCheck(claims)));
      OfflineMeaning(events, context, messages, offline);
      if offline.Fails? {
        OfflineVerdictBlamed(events, messages, context, offline);
      }
    }
  }
}
