/** The simulator's invariant checks: each stops at the first thing it finds wrong. */
module Verifier {
  import opened Scheduler

  datatype Failure =
    | DuplicateEventId(eventId: string)
    | UnknownDependency(eventId: string, dependency: string)
    | ReceivedBeforeSent(msgId: string)
    | InvalidTimeWindow(msgId: string)
    | RouteTooShortForUnknownPair(msgId: string)
    | CannotCross(msgId: string)
    | DelayBoundExceeded(msgId: string)
    | NonceTooShort(msgId: string)
    | RouteHops(msgId: string)
    | MaxRouteHops(msgId: string)
    | UnknownFromEvent(msgId: string)
    | UnknownToEvent(msgId: string)
    | AntiReplayCollision
    | ConflictingClaims(lockEventId: string, claimIds: seq<string>)
    | NonPositiveAmount(claimId: string)
    | SameDomains(claimId: string)
    | UnsupportedStage(claimId: string)
    | UnsupportedLightcone(claimId: string)
    | NonPositiveHorizon(claimId: string)
    | StagedWithoutLightcone(claimId: string)
    | NoCheckpoint(claimId: string)
    | OfflineWindowTouched(msgId: string, domainId: string, window: OfflineWindow)
    | UnknownClaim(claimId: string)
    | FoundConflict(lockEventId: string)
    | ExpectedConflict(lockEventId: string)

  datatype Verdict = Holds | Fails(failure: Failure)

  function Then(a: Verdict, b: Verdict): Verdict {
    if a.Holds? then b else a
  }

  /** The verdict on the first item that fails its check. */
  function First<T>(items: seq<T>, check: T -> Verdict): Verdict {
    if items == [] then Holds
    else Then(First(items[..|items| - 1], check), check(items[|items| - 1]))
  }

  lemma FirstStep<T>(items: seq<T>, check: T -> Verdict, i: nat)
    requires i < |items|
    ensures First(items[..i + 1], check) == Then(First(items[..i], check), check(items[i]))
  {
    assert items[..i + 1][..i] == items[..i];
  }

  lemma {:induction false} FirstStops<T>(items: seq<T>, check: T -> Verdict, i: nat)
    requires i < |items| && First(items[..i], check).Holds? && check(items[i]).Fails?
    ensures First(items, check) == check(items[i])
  {
    var last := |items| - 1;
    if i == last {
    } else {
      assert items[..last][..i] == items[..i];
      FirstStops(items[..last], check, i);
    }
  }

  lemma {:induction false} FirstMeaning<T>(items: seq<T>, check: T -> Verdict)
    ensures First(items, check).Holds? <==> forall x :: x in items ==> check(x).Holds?
    ensures First(items, check).Fails? ==>
              exists i :: 0 <= i < |items| && check(items[i]) == First(items, check)
                          && forall j :: 0 <= j < i ==> check(items[j]).Holds?
  {
    if items == [] {
    } else {
      var last := |items| - 1;
      var front := items[..last];
      FirstMeaning(front, check);
      assert items == front + [items[last]];
      if First(front, check).Fails? {
        var i :| 0 <= i < |front| && check(front[i]) == First(front, check)
                 && forall j :: 0 <= j < i ==> check(front[j]).Holds?;
        assert items[i] == front[i];
        assert forall j :: 0 <= j < i ==> items[j] == front[j];
        assert items[i] in items;
      } else {
        assert forall j :: 0 <= j < last ==> front[j] == items[j] && front[j] in front;
        assert items[last] in items;
      }
    }
  }

  // ---------------------------------------------------------------- events

  /** The dictionary from ids to events: a later event replaces an earlier one of the same id. */
  function Index(events: seq<SimEvent>): map<string, SimEvent> {
    if events == [] then map[] else
    var last := |events| - 1;
    Index(events[..last])[events[last].eventId := events[last]]
  }

  function UniqueIds(events: seq<SimEvent>): Verdict {
    if events == [] then Holds else
    var last := |events| - 1;
    Then(UniqueIds(events[..last]),
         if events[last].eventId in Index(events[..last]) then Fails(DuplicateEventId(events[last].eventId)) else Holds)
  }

  function DependencyCheck(index: map<string, SimEvent>, e: SimEvent): string -> Verdict {
    (d: string) => if d in index then Holds else Fails(UnknownDependency(e.eventId, d))
  }

  function EventCheck(index: map<string, SimEvent>): SimEvent -> Verdict {
    (e: SimEvent) => First(e.causalDependencies, DependencyCheck(index, e))
  }

  lemma {:induction false} UniqueIdsPrefix(events: seq<SimEvent>, i: nat)
    requires i <= |events| && UniqueIds(events[..i]).Fails?
    ensures UniqueIds(events) == UniqueIds(events[..i])
  {
    if i < |events| {
      var last := |events| - 1;
      assert events[..last][..i] == events[..i];
      UniqueIdsPrefix(events[..last], i);
    } else {
      assert events[..i] == events;
    }
  }

  method RequireNoEventIdConflict(events: seq<SimEvent>) returns (v: Verdict, byId: map<string, SimEvent>)
    ensures v == UniqueIds(events)
    ensures v.Holds? ==> byId == Index(events)
  {
    byId := map[];
    for i := 0 to |events|
      invariant UniqueIds(events[..i]).Holds?
      invariant byId == Index(events[..i])
    {
      assert events[..i + 1][..i] == events[..i];
      if events[i].eventId in byId {
        UniqueIdsPrefix(events, i + 1);
        return Fails(DuplicateEventId(events[i].eventId)), byId;
      }
      byId := byId[events[i].eventId := events[i]];
    }
    assert events[..|events|] == events;
    return Holds, byId;
  }

  method IndexEvents(events: seq<SimEvent>) returns (byEvent: map<string, SimEvent>)
    ensures byEvent == Index(events)
  {
    byEvent := map[];
    for i := 0 to |events|
      invariant byEvent == Index(events[..i])
    {
      assert events[..i + 1][..i] == events[..i];
      byEvent := byEvent[events[i].eventId := events[i]];
    }
    assert events[..|events|] == events;
  }

  method VerifyCausalDependencies(events: seq<SimEvent>, byEvent: map<string, SimEvent>) returns (v: Verdict)
    ensures v == First(events, EventCheck(byEvent))
  {
    for i := 0 to |events|
      invariant First(events[..i], EventCheck(byEvent)).Holds?
    {
      var dependencies := events[i].causalDependencies;
      for j := 0 to |dependencies|
        invariant First(dependencies[..j], DependencyCheck(byEvent, events[i])).Holds?
      {
        FirstStep(dependencies, DependencyCheck(byEvent, events[i]), j);
        if dependencies[j] !in byEvent {
          FirstStops(dependencies, DependencyCheck(byEvent, events[i]), j);
          FirstStops(events, EventCheck(byEvent), i);
          return Fails(UnknownDependency(events[i].eventId, dependencies[j]));
        }
      }
      assert dependencies[..|dependencies|] == dependencies;
      FirstStep(events, EventCheck(byEvent), i);
    }
    assert events[..|events|] == events;
    return Holds;
  }

  // ---------------------------------------------------------------- messages

  function TimesCheck(): Message -> Verdict {
    (m: Message) =>
      if m.receiveTime < m.sendTime then Fails(ReceivedBeforeSent(m.msgId))
      else if m.receiveTime - m.sendTime < 0 then Fails(InvalidTimeWindow(m.msgId))
      else Holds
  }

  method VerifyMessageTimes(messages: seq<Message>) returns (v: Verdict)
    ensures v == First(messages, TimesCheck())
  {
    for i := 0 to |messages|
      invariant First(messages[..i], TimesCheck()).Holds?
    {
      FirstStep(messages, TimesCheck(), i);
      var msg := messages[i];
      if msg.receiveTime < msg.sendTime {
        FirstStops(messages, TimesCheck(), i);
        return Fails(ReceivedBeforeSent(msg.msgId));
      }
      if msg.receiveTime - msg.sendTime < 0 {
        return Fails(InvalidTimeWindow(msg.msgId));
      }
    }
    assert messages[..|messages|] == messages;
    return Holds;
  }

  /** Conversion of a float to an integer drops the fraction, on both sides of zero. */
  function Truncate(x: real): int {
    if x >= 0.0 then x.Floor else -((-x).Floor)
  }

  function LightconeFault(index: map<string, SimEvent>, context: ScenarioContext, m: Message): Verdict {
    if m.fromEvent !in index || m.toEvent !in index then Holds else
    var pair := (index[m.fromEvent].domainId, index[m.toEvent].domainId);
    if pair.0 == pair.1 then Holds
    else if pair !in context.distancesLy then
      if |m.route| < context.routeMinHops then Fails(RouteTooShortForUnknownPair(m.msgId)) else Holds
    else if m.receiveTime - m.sendTime < Truncate(context.distancesLy[pair] + 0.5) then Fails(CannotCross(m.msgId))
    else if DelayTooLong(context, m) then Fails(DelayBoundExceeded(m.msgId))
    else Holds
  }

  function LightconeCheck(index: map<string, SimEvent>, context: ScenarioContext): Message -> Verdict {
    (m: Message) => LightconeFault(index, context, m)
  }

  method InvariantLightcone(events: seq<SimEvent>, messages: seq<Message>, context: ScenarioContext)
    returns (v: Verdict)
    ensures v == First(messages, LightconeCheck(Index(events), context))
  {
    var byEvent := IndexEvents(events);
    ghost var check := LightconeCheck(byEvent, context);
    for i := 0 to |messages|
      invariant First(messages[..i], check).Holds?
    {
      FirstStep(messages, check, i);
      var msg := messages[i];
      if check(msg).Fails? { FirstStops(messages, check, i); }
      if msg.fromEvent !in byEvent || msg.toEvent !in byEvent {
        continue;
      }
      var fromDomain, toDomain := byEvent[msg.fromEvent].domainId, byEvent[msg.toEvent].domainId;
      if fromDomain == toDomain {
        continue;
      }
      if (fromDomain, toDomain) !in context.distancesLy {
        if |msg.route| < context.routeMinHops {
          return Fails(RouteTooShortForUnknownPair(msg.msgId));
        }
        continue;
      }
      var required := Truncate(context.distancesLy[(fromDomain, toDomain)] + 0.5);
      var delay := msg.receiveTime - msg.sendTime;
      if delay < required {
        return Fails(CannotCross(msg.msgId));
      }
      if context.maxDelay.AtMost? && delay as real > context.maxDelay.years {
        return Fails(DelayBoundExceeded(msg.msgId));
      }
    }
    assert messages[..|messages|] == messages;
    return Holds;
  }

  function RouteFault(index: map<string, SimEvent>, context: ScenarioContext, m: Message): Verdict {
    if |m.antiReplayNonce| < context.minNonceChars then Fails(NonceTooShort(m.msgId))
    else if m.route != [] && |m.route| < context.routeMinHops then Fails(RouteHops(m.msgId))
    else if RouteTooLong(context, m) then Fails(MaxRouteHops(m.msgId))
    else if m.fromEvent != "" && m.fromEvent !in index then Fails(UnknownFromEvent(m.msgId))
    else if m.toEvent != "" && m.toEvent !in index then Fails(UnknownToEvent(m.msgId))
    else Holds
  }

  function RouteCheck(index: map<string, SimEvent>, context: ScenarioContext): Message -> Verdict {
    (m: Message) => RouteFault(index, context, m)
  }

  function CollisionVerdict(messages: seq<Message>): Verdict {
    if |ReplayKeys(messages)| == |messages| then Holds else Fails(AntiReplayCollision)
  }

  method InvariantReplayAndRoute(events: seq<SimEvent>, messages: seq<Message>, context: ScenarioContext)
    returns (v: Verdict)
    ensures v == Then(First(messages, RouteCheck(Index(events), context)), CollisionVerdict(messages))
  {
    var byEvent := IndexEvents(events);
    ghost var check := RouteCheck(byEvent, context);
    var routeChecks: seq<ReplayKey> := [];
    var distinct: set<ReplayKey> := {};
    for i := 0 to |messages|
      invariant First(messages[..i], check).Holds?
      invariant |routeChecks| == i
      invariant distinct == ReplayKeys(messages[..i])
    {
      FirstStep(messages, check, i);
      var msg := messages[i];
      if check(msg).Fails? { FirstStops(messages, check, i); }
      var key := ReplayKeyOf(msg);
      ReplayKeysSnoc(messages[..i], msg);
      assert messages[..i + 1] == messages[..i] + [msg];
      routeChecks := routeChecks + [key];
      distinct := distinct + {key};
      if |msg.antiReplayNonce| < context.minNonceChars {
        return Fails(NonceTooShort(msg.msgId));
      }
      if |msg.route| > 0 && |msg.route| < context.routeMinHops {
        return Fails(RouteHops(msg.msgId));
      }
      if context.maxRouteHops > 0 && |msg.route| > context.maxRouteHops {
        return Fails(MaxRouteHops(msg.msgId));
      }
      if msg.fromEvent != "" && msg.fromEvent !in byEvent {
        return Fails(UnknownFromEvent(msg.msgId));
      }
      if msg.toEvent != "" && msg.toEvent !in byEvent {
        return Fails(UnknownToEvent(msg.msgId));
      }
    }
    assert messages[..|messages|] == messages;
    if |routeChecks| != |distinct| {
      return Fails(AntiReplayCollision);
    }
    return Holds;
  }

  // ---------------------------------------------------------------- claims

  const ALLOWED_FINALITY_STAGES: set<string> := {
    "remote-observed", "remote_observed", "provisional-credit", "provisionally_credited",
    "interstellar-settlement-finality", "interstellar-settled", "bilateral-finality", "bilateral-finalized"}

  const HIGH_FINALITY: set<string> := {
    "provisional-credit", "provisionally_credited",
    "interstellar-settlement-finality", "interstellar-settled", "bilateral-finality", "bilateral-finalized"}

  const SETTLED_FINALITY: set<string> := {
    "interstellar-settlement-finality", "interstellar-settled", "bilateral-finality", "bilateral-finalized"}

  const ALLOWED_LIGHTCONE_STATUS: set<string> := {"valid", "unknown", "invalid", "stale"}

  predicate RemoteObserved(c: SimClaim) {
    c.finalityStage == "remote-observed" || c.finalityStage == "remote_observed"
  }

  function ClaimFault(c: SimClaim): Verdict {
    if c.finalityStage !in ALLOWED_FINALITY_STAGES then Fails(UnsupportedStage(c.claimId))
    else if c.lightconeStatus !in ALLOWED_LIGHTCONE_STATUS then Fails(UnsupportedLightcone(c.claimId))
    else if c.horizonYears <= 0 then Fails(NonPositiveHorizon(c.claimId))
    else if c.finalityStage in HIGH_FINALITY && c.lightconeStatus != "valid" then
      Fails(StagedWithoutLightcone(c.claimId))
    else if c.finalityStage in SETTLED_FINALITY && c.lightconeStatus == "valid" && c.lockCheckpoint == ""
      then Fails(NoCheckpoint(c.claimId))
    else Holds
  }

  function ClaimCheck(): SimClaim -> Verdict {
    (c: SimClaim) => ClaimFault(c)
  }

  method InvariantNoFalseFinalityClaims(claims: seq<SimClaim>) returns (v: Verdict)
    ensures v == First(claims, ClaimCheck())
  {
    for i := 0 to |claims|
      invariant First(claims[..i], ClaimCheck()).Holds?
    {
      var claim := claims[i];
      FirstStep(claims, ClaimCheck(), i);
      if ClaimFault(claim).Fails? { FirstStops(claims, ClaimCheck(), i); }
      var stage, status := claim.finalityStage, claim.lightconeStatus;
      if stage !in ALLOWED_FINALITY_STAGES {
        return Fails(UnsupportedStage(claim.claimId));
      }
      if status !in ALLOWED_LIGHTCONE_STATUS {
        return Fails(UnsupportedLightcone(claim.claimId));
      }
      if claim.horizonYears <= 0 {
        return Fails(NonPositiveHorizon(claim.claimId));
      }
      if stage in HIGH_FINALITY && status != "valid" {
        return Fails(StagedWithoutLightcone(claim.claimId));
      }
      if stage in SETTLED_FINALITY && status == "valid" && claim.lockCheckpoint == "" {
        return Fails(NoCheckpoint(claim.claimId));
      }
    }
    assert claims[..|claims|] == claims;
    return Holds;
  }

  // ---------------------------------------------------------------- double locks

  function Select<T>(items: seq<T>, wanted: T -> bool): seq<T> {
    if items == [] then [] else
    var last := |items| - 1;
    Select(items[..last], wanted) + if wanted(items[last]) then [items[last]] else []
  }

  function OnLock(lock: string): SimClaim -> bool {
    (c: SimClaim) => c.lockEventId == lock
  }

  function PastObservation(): SimClaim -> bool {
    (c: SimClaim) => !RemoteObserved(c)
  }

  function ClaimIds(claims: seq<SimClaim>): seq<string> {
    seq(|claims|, i requires 0 <= i < |claims| => claims[i].claimId)
  }

  /** The lock events the claims name, each once, in the order they are first met. */
  function Locks(claims: seq<SimClaim>): seq<string> {
    if claims == [] then [] else
    var last := |claims| - 1;
    var before := Locks(claims[..last]);
    if claims[last].lockEventId in before then before else before + [claims[last].lockEventId]
  }

  function ConflictCheck(claims: seq<SimClaim>): string -> Verdict {
    (lock: string) =>
      var accepted := Select(Select(claims, OnLock(lock)), PastObservation());
      if |accepted| > 1 then Fails(ConflictingClaims(lock, ClaimIds(accepted))) else Holds
  }

  function PartiesCheck(): SimClaim -> Verdict {
    (c: SimClaim) =>
      if c.amount <= 0 then Fails(NonPositiveAmount(c.claimId))
      else if c.originDomain == c.remoteDomain then Fails(SameDomains(c.claimId))
      else Holds
  }

  function FalseFinalityVerdict(events: seq<SimEvent>, claims: seq<SimClaim>): Verdict {
    Then(UniqueIds(events),
         Then(First(Locks(claims), ConflictCheck(claims)), First(claims, PartiesCheck())))
  }

  /** The claims grouped by lock event, and the order in which the groups were opened. */
  method GroupByLock(claims: seq<SimClaim>) returns (groups: map<string, seq<SimClaim>>, order: seq<string>)
    ensures order == Locks(claims)
    ensures forall l :: l in groups <==> l in order
    ensures forall l :: l in groups ==> groups[l] == Select(claims, OnLock(l))
  {
    groups, order := map[], [];
    for i := 0 to |claims|
      invariant order == Locks(claims[..i])
      invariant forall l :: l in groups <==> l in order
      invariant forall l :: l !in groups ==> Select(claims[..i], OnLock(l)) == []
      invariant forall l :: l in groups ==> groups[l] == Select(claims[..i], OnLock(l))
    {
      var claim := claims[i];
      var lock := claim.lockEventId;
      assert claims[..i + 1][..i] == claims[..i];
      if lock !in groups {
        groups := groups[lock := []];
        order := order + [lock];
      }
      groups := groups[lock := groups[lock] + [claim]];
    }
    assert claims[..|claims|] == claims;
  }

  method ChooseAccepted(items: seq<SimClaim>) returns (accepted: seq<SimClaim>)
    ensures accepted == Select(items, PastObservation())
  {
    accepted := [];
    for i := 0 to |items|
      invariant accepted == Select(items[..i], PastObservation())
    {
      assert items[..i + 1][..i] == items[..i];
      if !RemoteObserved(items[i]) {
        accepted := accepted + [items[i]];
      }
    }
    assert items[..|items|] == items;
  }

  method VerifyParties(claims: seq<SimClaim>) returns (v: Verdict)
    ensures v == First(claims, PartiesCheck())
  {
    for i := 0 to |claims|
      invariant First(claims[..i], PartiesCheck()).Holds?
    {
      var claim := claims[i];
      FirstStep(claims, PartiesCheck(), i);
      if PartiesCheck()(claim).Fails? { FirstStops(claims, PartiesCheck(), i); }
      if claim.amount <= 0 {
        return Fails(NonPositiveAmount(claim.claimId));
      }
      if claim.originDomain == claim.remoteDomain {
        return Fails(SameDomains(claim.claimId));
      }
    }
    assert claims[..|claims|] == claims;
    return Holds;
  }

  method InvariantNoFalseFinality(events: seq<SimEvent>, claims: seq<SimClaim>) returns (v: Verdict)
    ensures v == FalseFinalityVerdict(events, claims)
  {
    var unique, _ := RequireNoEventIdConflict(events);
    if unique.Fails? {
      return unique;
    }
    var conflicts, order := GroupByLock(claims);
    ghost var check := ConflictCheck(claims);
    for i := 0 to |order|
      invariant First(order[..i], check).Holds?
    {
      FirstStep(order, check, i);
      var accepted := ChooseAccepted(conflicts[order[i]]);
      if |accepted| > 1 {
        FirstStops(order, check, i);
        return Fails(ConflictingClaims(order[i], ClaimIds(accepted)));
      }
    }
    assert order[..|order|] == order;
    v := VerifyParties(claims);
  }

  // ---------------------------------------------------------------- offline windows

  predicate Within(w: OfflineWindow, t: int) {
    w.start <= t <= w.end
  }

  predicate Touches(w: OfflineWindow, m: Message) {
    Within(w, m.sendTime) || Within(w, m.receiveTime)
  }

  function WindowsOf(context: ScenarioContext, domain: string): seq<OfflineWindow> {
    if domain in context.offlineWindows then context.offlineWindows[domain] else []
  }

  function WindowCheck(m: Message, domain: string): OfflineWindow -> Verdict {
    (w: OfflineWindow) => if Touches(w, m) then Fails(OfflineWindowTouched(m.msgId, domain, w)) else Holds
  }

  function DomainVerdict(context: ScenarioContext, m: Message, domain: string): Verdict {
    First(WindowsOf(context, domain), WindowCheck(m, domain))
  }

  function EndDomains(index: map<string, SimEvent>, m: Message): set<string> {
    if m.fromEvent in index && m.toEvent in index
    then {index[m.fromEvent].domainId, index[m.toEvent].domainId} else {}
  }

  /** The message is found to touch the window its failure names, which is the first such window of an end's domain. */
  ghost predicate OfflineFault(index: map<string, SimEvent>, context: ScenarioContext, m: Message, v: Verdict) {
    v.Fails? && exists d :: d in EndDomains(index, m) && v == DomainVerdict(context, m, d)
  }

  ghost predicate Online(index: map<string, SimEvent>, context: ScenarioContext, m: Message) {
    forall d :: d in EndDomains(index, m) ==> DomainVerdict(context, m, d).Holds?
  }

  /** Whether a message touches an end's window is settled by the first message that does; which end is
    * named is left open, for the ends' domains are met in the order of a set. */
  ghost predicate OfflineVerdict(index: map<string, SimEvent>, context: ScenarioContext, ms: seq<Message>, v: Verdict) {
    if v.Holds? then forall m :: m in ms ==> Online(index, context, m)
    else exists i :: 0 <= i < |ms| && OfflineFault(index, context, ms[i], v)
                     && forall j :: 0 <= j < i ==> Online(index, context, ms[j])
  }

  method VerifyWindows(context: ScenarioContext, m: Message, domain: string) returns (v: Verdict)
    ensures v == DomainVerdict(context, m, domain)
  {
    var windows := WindowsOf(context, domain);
    for i := 0 to |windows|
      invariant First(windows[..i], WindowCheck(m, domain)).Holds?
    {
      FirstStep(windows, WindowCheck(m, domain), i);
      var w := windows[i];
      if w.start <= m.sendTime <= w.end || w.start <= m.receiveTime <= w.end {
        FirstStops(windows, WindowCheck(m, domain), i);
        return Fails(OfflineWindowTouched(m.msgId, domain, w));
      }
    }
    assert windows[..|windows|] == windows;
    return Holds;
  }

  method InvariantOfflineWindows(messages: seq<Message>, events: seq<SimEvent>, context: ScenarioContext)
    returns (v: Verdict)
    ensures OfflineVerdict(Index(events), context, messages, v)
  {
    hide First;
    var byEvent := IndexEvents(events);
    for i := 0 to |messages|
      invariant forall j :: 0 <= j < i ==> Online(byEvent, context, messages[j])
    {
      var msg := messages[i];
      if msg.fromEvent !in byEvent || msg.toEvent !in byEvent {
        continue;
      }
      var domains := {byEvent[msg.fromEvent].domainId, byEvent[msg.toEvent].domainId};
      var rest := domains;
      while rest != {}
        invariant rest <= domains
        invariant forall d :: d in domains - rest ==> DomainVerdict(context, msg, d).Holds?
        decreases rest
      {
        var d :| d in rest;
        v := VerifyWindows(context, msg, d);
        if v.Fails? {
          assert OfflineFault(byEvent, context, messages[i], v);
          return;
        }
        rest := rest - {d};
      }
    }
    return Holds;
  }

  // ---------------------------------------------------------------- expectations

  /** Lower case as far as the four expectation words go: no letter outside ASCII lowers to one of theirs. */
  function LowerChar(c: char): char {
    if 'A' <= c <= 'Z' then c - 'A' + 'a' else c
  }

  function Lower(s: string): string {
    seq(|s|, i requires 0 <= i < |s| => LowerChar(s[i]))
  }

  function ExpectationFault(claims: seq<SimClaim>, tokens: seq<string>): Verdict {
    if |tokens| != 2 then Holds else
    var kind, id := Lower(tokens[0]), tokens[1];
    if kind == "no_offline_violation" || kind == "offline_violation" then
      if exists i :: 0 <= i < |claims| && claims[i].claimId == id then Holds else Fails(UnknownClaim(id))
    else
      var conflict := |Select(claims, OnLock(id))| > 1;
      if kind == "no_conflict" && conflict then Fails(FoundConflict(id))
      else if kind == "conflict" && !conflict then Fails(ExpectedConflict(id))
      else Holds
  }

  function ExpectationCheck(claims: seq<SimClaim>): seq<string> -> Verdict {
    (tokens: seq<string>) => ExpectationFault(claims, tokens)
  }

  method CheckExpectations(expectations: seq<seq<string>>, claims: seq<SimClaim>) returns (v: Verdict)
    ensures v == First(expectations, ExpectationCheck(claims))
  {
    var byClaim: map<string, SimClaim> := map[];
    for i := 0 to |claims|
      invariant forall id :: id in byClaim <==> exists j :: 0 <= j < i && claims[j].claimId == id
    {
      byClaim := byClaim[claims[i].claimId := claims[i]];
    }
    ghost var check := ExpectationCheck(claims);
    for i := 0 to |expectations|
      invariant First(expectations[..i], check).Holds?
    {
      FirstStep(expectations, check, i);
      var tokens := expectations[i];
      if check(tokens).Fails? { FirstStops(expectations, check, i); }
      if |tokens| != 2 {
        continue;
      }
      var kind, id := Lower(tokens[0]), tokens[1];
      if kind == "no_offline_violation" || kind == "offline_violation" {
        if id !in byClaim {
          return Fails(UnknownClaim(id));
        }
        continue;
      }
      var locked := ClaimsOn(claims, id);
      var hasConflict := |locked| > 1;
      if kind == "no_conflict" && hasConflict {
        return Fails(FoundConflict(id));
      }
      if kind == "conflict" && !hasConflict {
        return Fails(ExpectedConflict(id));
      }
    }
    assert expectations[..|expectations|] == expectations;
    return Holds;
  }

  method ClaimsOn(claims: seq<SimClaim>, lock: string) returns (locked: seq<SimClaim>)
    ensures locked == Select(claims, OnLock(lock))
  {
    locked := [];
    for i := 0 to |claims|
      invariant locked == Select(claims[..i], OnLock(lock))
    {
      assert claims[..i + 1][..i] == claims[..i];
      if claims[i].lockEventId == lock {
        locked := locked + [claims[i]];
      }
    }
    assert claims[..|claims|] == claims;
  }

  // ---------------------------------------------------------------- all checks

  /** The checks that come before the one on offline windows, in order. */
  function EarlyVerdict(events: seq<SimEvent>, messages: seq<Message>, claims: seq<SimClaim>, context: ScenarioContext)
    : Verdict
  {
    var index := Index(events);
    Then(UniqueIds(events),
    Then(First(events, EventCheck(index)),
    Then(First(messages, TimesCheck()),
    Then(First(messages, LightconeCheck(index, context)),
    Then(Then(First(messages, RouteCheck(index, context)), CollisionVerdict(messages)),
    Then(FalseFinalityVerdict(events, claims),
         First(claims, ClaimCheck())))))))
  }

  ghost predicate IsVerdict(events: seq<SimEvent>, messages: seq<Message>, claims: seq<SimClaim>,
                            context: ScenarioContext,
                            v: Verdict) {
    var early := EarlyVerdict(events, messages, claims, context);
    if early.Fails? then v == early
    else exists offline :: OfflineVerdict(Index(events), context, messages, offline)
                           && v == Then(offline, First(context.expectations, ExpectationCheck(claims)))
  }

  method VerifyInvariants(events: seq<SimEvent>, messages: seq<Message>, claims: seq<SimClaim>,
                          context: ScenarioContext)
    returns (v: Verdict)
    ensures IsVerdict(events, messages, claims, context, v)
  {
    hide First, Index, UniqueIds, CollisionVerdict, FalseFinalityVerdict, OfflineVerdict;
    var byEvent;
    v, byEvent := RequireNoEventIdConflict(events);
    if v.Fails? { return; }
    v := VerifyCausalDependencies(events, byEvent);
    if v.Fails? { return; }
    v := VerifyMessageTimes(messages);
    if v.Fails? { return; }
    v := InvariantLightcone(events, messages, context);
    if v.Fails? { return; }
    v := InvariantReplayAndRoute(events, messages, context);
    if v.Fails? { return; }
    v := InvariantNoFalseFinality(events, claims);
    if v.Fails? { return; }
    v := InvariantNoFalseFinalityClaims(claims);
    if v.Fails? { return; }
    v := InvariantOfflineWindows(messages, events, context);
    ghost var offline := v;
    if v.Fails? { return; }
    v := CheckExpectations(context.expectations, claims);
  }
}
