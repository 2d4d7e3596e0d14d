/** The simulator's scenario data, and its replay-dropping message scheduler. */
module Scheduler {
  import opened Order
  import opened Sorting

  datatype SimEvent = SimEvent(
    eventId: string,
    actorId: string,
    domainId: string,
    localSequence: int,
    tMin: int,
    causalDependencies: seq<string>)

  datatype Message = Message(
    msgId: string,
    fromEvent: string,
    toEvent: string,
    payloadHash: string,
    route: seq<string>,
    antiReplayNonce: string,
    sendTime: int,
    receiveTime: int,
    observedBy: seq<string>)

  datatype OfflineWindow = OfflineWindow(start: int, end: int)

  datatype SimClaim = SimClaim(
    claimId: string,
    lockEventId: string,
    originDomain: string,
    remoteDomain: string,
    assetId: string,
    amount: int,
    horizonYears: int,
    lockCheckpoint: string,
    lightconeStatus: string,
    finalityStage: string)

  /** `maxDelayYears` is `None` where the scenario has infinity. */
  datatype Bound = Unbounded | AtMost(years: real)

  datatype ScenarioContext = ScenarioContext(
    events: seq<SimEvent>,
    messages: seq<Message>,
    expectations: seq<seq<string>>,
    distancesLy: map<(string, string), real>,
    routeMinHops: int,
    minNonceChars: int,
    maxRouteHops: int,
    maxDelay: Bound,
    offlineWindows: map<string, seq<OfflineWindow>>)

  datatype SimulationResult = SimulationResult(
    events: seq<SimEvent>,
    messages: seq<Message>,
    orderedByTime: bool,
    droppedReplays: bool,
    droppedCount: int,
    routeViolations: nat,
    delayViolations: nat)

  // ---------------------------------------------------------------- the three passes

  function EventKey(e: SimEvent): Key {
    Key(e.localSequence, e.tMin, e.eventId)
  }

  function SendKey(m: Message): Key {
    Key(m.sendTime, m.receiveTime, m.msgId)
  }

  function ReceiveKey(m: Message): Key {
    Key(m.receiveTime, m.sendTime, m.msgId)
  }

  datatype ReplayKey = ReplayKey(route: seq<string>, nonce: string)

  function ReplayKeyOf(m: Message): ReplayKey {
    ReplayKey(m.route, m.antiReplayNonce)
  }

  predicate Seen(ms: seq<Message>, k: ReplayKey) {
    exists i :: 0 <= i < |ms| && ReplayKeyOf(ms[i]) == k
  }

  /** Each message whose route and nonce no earlier message has. */
  function Deduped(ms: seq<Message>): seq<Message> {
    if ms == [] then [] else
    var last := |ms| - 1;
    Deduped(ms[..last]) + if Seen(ms[..last], ReplayKeyOf(ms[last])) then [] else [ms[last]]
  }

  function Scheduled(ms: seq<Message>): seq<Message> {
    SortedBy(Deduped(SortedBy(ms, SendKey)), ReceiveKey)
  }

  predicate RouteTooLong(context: ScenarioContext, m: Message) {
    context.maxRouteHops > 0 && |m.route| > context.maxRouteHops
  }

  predicate DelayTooLong(context: ScenarioContext, m: Message) {
    context.maxDelay.AtMost? && (m.receiveTime - m.sendTime) as real > context.maxDelay.years
  }

  function RouteViolations(context: ScenarioContext, ms: seq<Message>): nat {
    if ms == [] then 0 else
    RouteViolations(context, ms[..|ms| - 1]) + if RouteTooLong(context, ms[|ms| - 1]) then 1 else 0
  }

  function DelayViolations(context: ScenarioContext, ms: seq<Message>): nat {
    if ms == [] then 0 else
    DelayViolations(context, ms[..|ms| - 1]) + if DelayTooLong(context, ms[|ms| - 1]) then 1 else 0
  }

  /** The replay pass: an index of the routes and nonces met so far decides what is kept. */
  method DropReplays(messages: seq<Message>) returns (deduped: seq<Message>)
    ensures deduped == Deduped(messages)
  {
    deduped := [];
    var replayIndex: map<ReplayKey, Message> := map[];
    for i := 0 to |messages|
      invariant deduped == Deduped(messages[..i])
      invariant forall k :: k in replayIndex <==> Seen(messages[..i], k)
    {
      var msg := messages[i];
      var key := ReplayKeyOf(msg);
      assert messages[..i + 1][..i] == messages[..i];
      SeenSnoc(messages[..i], msg);
      assert messages[..i + 1] == messages[..i] + [msg];
      if key in replayIndex {
        continue;
      }
      replayIndex := replayIndex[key := msg];
      deduped := deduped + [msg];
    }
    assert messages[..|messages|] == messages;
  }

  /** The last pass: the bounds on hops and delay. */
  method CountViolations(context: ScenarioContext, messages: seq<Message>) returns (route: nat, delay: nat)
    ensures route == RouteViolations(context, messages) && delay == DelayViolations(context, messages)
  {
    route, delay := 0, 0;
    for i := 0 to |messages|
      invariant route == RouteViolations(context, messages[..i])
      invariant delay == DelayViolations(context, messages[..i])
    {
      assert messages[..i + 1][..i] == messages[..i];
      var hopCount := |messages[i].route|;
      if context.maxRouteHops > 0 && hopCount > context.maxRouteHops {
        route := route + 1;
      }
      var years := messages[i].receiveTime - messages[i].sendTime;
      if context.maxDelay.AtMost? && years as real > context.maxDelay.years {
        delay := delay + 1;
      }
    }
    assert messages[..|messages|] == messages;
  }

  method Run(context: ScenarioContext) returns (result: SimulationResult)
    ensures result.messages == Scheduled(context.messages) && IsSchedule(context.messages, result.messages)
    ensures result.events == SortedBy(context.events, EventKey) && IsEventOrder(context.events, result.events)
    ensures result.orderedByTime
    ensures result.droppedCount == |context.messages| - |result.messages|
    ensures result.droppedReplays <==> result.droppedCount != 0
    ensures result.routeViolations == RouteViolations(context, result.messages)
    ensures result.delayViolations == DelayViolations(context, result.messages)
    ensures result.routeViolations == |LongRoutes(context, result.messages)|
    ensures result.delayViolations == |LongDelays(context, result.messages)|
  {
    ScheduledIsSchedule(context.messages);
    EventsInOrder(context.events);
    CountersCount(context, Scheduled(context.messages));
    hide IsSchedule, IsEventOrder, LongRoutes, LongDelays;
    hide SortedBy, Sorted, Deduped, RouteViolations, DelayViolations;
    var events := SortedBy(context.events, EventKey);
    var messages := SortedBy(context.messages, SendKey);
    var deduped := DropReplays(messages);
    var sorted := SortedBy(deduped, ReceiveKey);
    SortSorts(deduped, ReceiveKey);
    SortSorts(context.messages, SendKey);
    SameElements(messages, context.messages);
    SameElements(sorted, deduped);
    ReceiveTimesRise(sorted);
    var orderedByTime := forall i :: 0 <= i < |sorted| - 1 ==> sorted[i].receiveTime <= sorted[i + 1].receiveTime;
    var routeViolations, delayViolations := CountViolations(context, sorted);
    result := SimulationResult(events, sorted, orderedByTime, |deduped| != |messages|, |messages| - |deduped|,
                               routeViolations, delayViolations);
  }

  lemma ReceiveTimesRise(ms: seq<Message>)
    requires Sorted(ms, ReceiveKey)
    ensures forall i :: 0 <= i < |ms| - 1 ==> ms[i].receiveTime <= ms[i + 1].receiveTime
  {
    forall i | 0 <= i < |ms| - 1 ensures ms[i].receiveTime <= ms[i + 1].receiveTime {
      assert KeyLeq(ReceiveKey(ms[i]), ReceiveKey(ms[i + 1]));
    }
  }

  lemma SeenSnoc(ms: seq<Message>, m: Message)
    ensures forall k :: Seen(ms + [m], k) <==> Seen(ms, k) || ReplayKeyOf(m) == k
  {
    forall k ensures Seen(ms + [m], k) <==> Seen(ms, k) || ReplayKeyOf(m) == k {
      if Seen(ms, k) {
        var i :| 0 <= i < |ms| && ReplayKeyOf(ms[i]) == k;
        assert (ms + [m])[i] == ms[i];
      }
      assert (ms + [m])[|ms|] == m;
    }
  }

  // ---------------------------------------------------------------- the specification, by sort keys

  /** No message of the same route and nonce comes strictly before this one in send order. */
  ghost predicate Least(ms: seq<Message>, m: Message) {
    m in ms && forall n :: n in ms && ReplayKeyOf(n) == ReplayKeyOf(m) ==> KeyLeq(SendKey(m), SendKey(n))
  }

  ghost predicate DistinctReplayKeys(ms: seq<Message>) {
    forall i, j :: 0 <= i < j < |ms| ==> ReplayKeyOf(ms[i]) != ReplayKeyOf(ms[j])
  }

  ghost predicate KeySchedule(ms: seq<Message>, out: seq<Message>) {
    && Sorted(out, ReceiveKey)
    && DistinctReplayKeys(out)
    && (forall m :: m in out ==> Least(ms, m))
    && (forall m :: m in ms ==> Seen(out, ReplayKeyOf(m)))
  }

  lemma {:induction false} DedupedSeen(ms: seq<Message>)
    ensures forall k :: Seen(Deduped(ms), k) <==> Seen(ms, k)
    ensures forall m :: m in Deduped(ms) ==> m in ms
    ensures |Deduped(ms)| <= |ms|
  {
    hide Seen;
    if ms == [] {
    } else {
      var last := |ms| - 1;
      var front, x := ms[..last], ms[last];
      DedupedSeen(front);
      assert ms == front + [x];
      SeenSnoc(front, x);
      SeenSnoc(Deduped(front), x);
      assert Deduped(front) + [] == Deduped(front);
    }
  }

  lemma {:induction false} DedupedDistinct(ms: seq<Message>)
    ensures DistinctReplayKeys(Deduped(ms))
  {
    if ms == [] {
    } else {
      var last := |ms| - 1;
      var front, x := ms[..last], ms[last];
      DedupedDistinct(front);
      DedupedSeen(front);
      var d := Deduped(front);
      forall i | 0 <= i < |d| && !Seen(front, ReplayKeyOf(x)) ensures ReplayKeyOf(d[i]) != ReplayKeyOf(x) {
        assert Seen(d, ReplayKeyOf(d[i]));
      }
    }
  }

  lemma {:induction false} DedupedLeast(ms: seq<Message>)
    requires Sorted(ms, SendKey)
    ensures forall m :: m in Deduped(ms) ==> Least(ms, m)
  {
    if ms == [] {
    } else {
      var last := |ms| - 1;
      var front, x := ms[..last], ms[last];
      DedupedLeast(front);
      DedupedSeen(front);
      forall m | m in Deduped(front) ensures Least(ms, m) {
        LeastWithLater(front, x, ms, m);
      }
      if !Seen(front, ReplayKeyOf(x)) {
        FirstOfKindLeast(front, x, ms);
      }
    }
  }

  lemma LeastWithLater(front: seq<Message>, x: Message, ms: seq<Message>, m: Message)
    requires ms == front + [x] && Sorted(ms, SendKey) && Least(front, m)
    ensures Least(ms, m)
  {
    hide KeyLeq;
    var i :| 0 <= i < |front| && front[i] == m;
    assert KeyLeq(SendKey(ms[i]), SendKey(ms[|front|]));
    forall n | n in ms && ReplayKeyOf(n) == ReplayKeyOf(m) ensures KeyLeq(SendKey(m), SendKey(n)) {
      assert n in front || n == x;
    }
  }

  lemma FirstOfKindLeast(front: seq<Message>, x: Message, ms: seq<Message>)
    requires ms == front + [x] && !Seen(front, ReplayKeyOf(x))
    ensures Least(ms, x)
  {
    KeyTrichotomy(SendKey(x), SendKey(x));
    assert KeyLeq(SendKey(x), SendKey(x));
    hide KeyLeq;
    assert ms[|front|] == x;
    forall n | n in ms && ReplayKeyOf(n) == ReplayKeyOf(x) ensures KeyLeq(SendKey(x), SendKey(n)) {
      var i :| 0 <= i < |ms| && ms[i] == n;
      assert i < |front| ==> ReplayKeyOf(front[i]) != ReplayKeyOf(x);
    }
  }

  lemma SeenByMembers(a: seq<Message>, b: seq<Message>, k: ReplayKey)
    requires forall m :: m in a <==> m in b
    ensures Seen(a, k) <==> Seen(b, k)
  {
    if Seen(a, k) {
      var i :| 0 <= i < |a| && ReplayKeyOf(a[i]) == k;
      assert a[i] in b;
    }
    if Seen(b, k) {
      var i :| 0 <= i < |b| && ReplayKeyOf(b[i]) == k;
      assert b[i] in a;
    }
  }

  lemma DistinctByMultiset(a: seq<Message>, b: seq<Message>)
    requires multiset(a) == multiset(b) && DistinctReplayKeys(a)
    ensures DistinctReplayKeys(b)
  {
    DistinctPermuted(a, b, ReplayKeyOf);
  }

  lemma LeastByMembers(a: seq<Message>, b: seq<Message>)
    requires forall m :: m in a <==> m in b
    ensures forall m :: Least(a, m) <==> Least(b, m)
  {
    forall m ensures Least(a, m) <==> Least(b, m) {
      LeastInOther(a, b, m);
      LeastInOther(b, a, m);
    }
  }

  lemma LeastInOther(a: seq<Message>, b: seq<Message>, m: Message)
    requires forall x :: x in a <==> x in b
    ensures Least(a, m) ==> Least(b, m)
  {
    hide KeyLeq;
    if Least(a, m) {
      forall n | n in b && ReplayKeyOf(n) == ReplayKeyOf(m) ensures KeyLeq(SendKey(m), SendKey(n)) {
        assert n in a;
      }
    }
  }

  lemma ScheduledByKeys(ms: seq<Message>)
    ensures KeySchedule(ms, Scheduled(ms))
    ensures |Scheduled(ms)| <= |ms|
  {
    var sent := SortedBy(ms, SendKey);
    SortSorts(ms, SendKey);
    SameElements(sent, ms);
    DedupedSeen(sent);
    DedupedDistinct(sent);
    DedupedLeast(sent);
    var kept := Deduped(sent);
    var out := Scheduled(ms);
    SortSorts(kept, ReceiveKey);
    SameElements(out, kept);
    DistinctByMultiset(kept, out);
    LeastByMembers(sent, ms);
    forall m | m in out ensures Least(ms, m) {
      assert m in kept;
    }
    forall m | m in ms ensures Seen(out, ReplayKeyOf(m)) {
      var i :| 0 <= i < |sent| && sent[i] == m;
      assert Seen(sent, ReplayKeyOf(m));
      SeenByMembers(out, kept, ReplayKeyOf(m));
    }
  }

  // ---------------------------------------------------------------- order of the input

  ghost predicate KeyUnambiguous(ms: seq<Message>) {
    forall m, n :: Least(ms, m) && Least(ms, n) && SendKey(m) == SendKey(n) ==> m == n
  }

  lemma ScheduleMembers(ms: seq<Message>, out: seq<Message>, m: Message)
    requires KeyUnambiguous(ms) && KeySchedule(ms, out)
    ensures m in out <==> Least(ms, m)
  {
    if Least(ms, m) {
      assert Seen(out, ReplayKeyOf(m));
      var i :| 0 <= i < |out| && ReplayKeyOf(out[i]) == ReplayKeyOf(m);
      assert Least(ms, out[i]);
      KeyTrichotomy(SendKey(m), SendKey(out[i]));
    }
  }

  lemma KeysSwap(m: Message, n: Message)
    ensures SendKey(m) == SendKey(n) <==> ReceiveKey(m) == ReceiveKey(n)
  {
  }

  lemma {:induction false} AtMostOneWithKey(ms: seq<Message>, out: seq<Message>, k: Key)
    requires KeyUnambiguous(ms) && DistinctReplayKeys(out) && forall m :: m in out ==> Least(ms, m)
    ensures |WithKey(out, ReceiveKey, k)| <= 1
  {
    if out == [] {
    } else {
      var last := |out| - 1;
      var front, x := out[..last], out[last];
      assert forall m :: m in front ==> m in out;
      AtMostOneWithKey(ms, front, k);
      forall i | 0 <= i < last && ReceiveKey(x) == k ensures ReceiveKey(front[i]) != k {
        assert Least(ms, out[i]) && Least(ms, x);
        assert ReplayKeyOf(out[i]) != ReplayKeyOf(x);
        KeysSwap(out[i], x);
      }
      if ReceiveKey(x) == k {
        WithKeyNone(front, ReceiveKey, k);
      }
    }
  }

  lemma ShortEqual(a: seq<Message>, b: seq<Message>)
    requires |a| <= 1 && |b| <= 1
    requires forall m :: m in a <==> m in b
    ensures a == b
  {
    assert a != [] ==> a[0] in b;
    assert b != [] ==> b[0] in a;
  }

  lemma UniqueByKeys(ms: seq<Message>, a: seq<Message>, b: seq<Message>)
    requires KeyUnambiguous(ms) && KeySchedule(ms, a) && KeySchedule(ms, b)
    ensures a == b
  {
    forall k ensures WithKey(a, ReceiveKey, k) == WithKey(b, ReceiveKey, k) {
      AtMostOneWithKey(ms, a, k);
      AtMostOneWithKey(ms, b, k);
      WithKeyShared(ms, a, b, k);
      WithKeyShared(ms, b, a, k);
      ShortEqual(WithKey(a, ReceiveKey, k), WithKey(b, ReceiveKey, k));
    }
    SortedDetermined(a, b, ReceiveKey);
  }

  lemma WithKeyShared(ms: seq<Message>, a: seq<Message>, b: seq<Message>, k: Key)
    requires KeyUnambiguous(ms) && KeySchedule(ms, a) && KeySchedule(ms, b)
    ensures forall m :: m in WithKey(a, ReceiveKey, k) ==> m in WithKey(b, ReceiveKey, k)
  {
    forall m | m in WithKey(a, ReceiveKey, k) ensures m in WithKey(b, ReceiveKey, k) {
      WithKeyOnly(a, ReceiveKey, k, m);
      ScheduleMembers(ms, a, m);
      ScheduleMembers(ms, b, m);
      var i :| 0 <= i < |b| && b[i] == m;
      WithKeyMember(b, ReceiveKey, k, i);
    }
  }

  lemma SpecIgnoresOrder(ms: seq<Message>, ns: seq<Message>, out: seq<Message>)
    requires multiset(ms) == multiset(ns)
    ensures KeySchedule(ms, out) <==> KeySchedule(ns, out)
    ensures forall m :: Least(ms, m) <==> Least(ns, m)
  {
    SameElements(ms, ns);
    LeastByMembers(ms, ns);
    hide Least;
  }

  /** The first message of its key in send order, if least, is the first of its key to be kept. */
  lemma {:induction false} DedupedFirst(ms: seq<Message>, m: Message)
    requires Sorted(ms, SendKey) && Least(ms, m)
    requires WithKey(ms, SendKey, SendKey(m)) != [] && WithKey(ms, SendKey, SendKey(m))[0] == m
    ensures var w := WithKey(Deduped(ms), SendKey, SendKey(m)); w != [] && w[0] == m
  {
    var k := SendKey(m);
    var last := |ms| - 1;
    var front, x := ms[..last], ms[last];
    if WithKey(front, SendKey, k) != [] {
      assert WithKey(front, SendKey, k)[0] == m;
      WithKeyOnly(front, SendKey, k, m);
      assert Least(front, m) by {
        hide KeyLeq;
        assert forall n :: n in front ==> n in ms;
      }
      DedupedFirst(front, m);
      WithKeyConcat(Deduped(front), if Seen(front, ReplayKeyOf(x)) then [] else [x], SendKey, k);
    } else {
      assert ms == front + [m];
      NewKeyKept(front, m);
    }
  }

  lemma NewKeyKept(front: seq<Message>, m: Message)
    requires Sorted(front + [m], SendKey) && Least(front + [m], m)
    requires WithKey(front, SendKey, SendKey(m)) == []
    ensures WithKey(Deduped(front + [m]), SendKey, SendKey(m)) == [m]
  {
    var ms, k := front + [m], SendKey(m);
    assert ms[..|front|] == front;
    assert [m][..0] == [];
    NoneWithKey(front, SendKey, k);
    NewKeyUnseen(front, m);
    DedupedSeen(front);
    var d := Deduped(front);
    assert Deduped(ms) == d + [m];
    assert WithKey([m], SendKey, k) == [m];
    hide Deduped, WithKey, Least, Sorted, Seen;
    forall j | 0 <= j < |d| ensures SendKey(d[j]) != k {
      assert d[j] in front;
    }
    WithKeyNone(d, SendKey, k);
    WithKeyConcat(d, [m], SendKey, k);
  }

  lemma NewKeyUnseen(front: seq<Message>, m: Message)
    requires Sorted(front + [m], SendKey) && Least(front + [m], m)
    requires forall i :: 0 <= i < |front| ==> SendKey(front[i]) != SendKey(m)
    ensures !Seen(front, ReplayKeyOf(m))
  {
    var ms := front + [m];
    forall i | 0 <= i < |front| ensures ReplayKeyOf(front[i]) != ReplayKeyOf(m) {
      assert front[i] == ms[i] && ms[i] in ms;
      assert KeyLeq(SendKey(ms[i]), SendKey(ms[|front|]));
      KeyTrichotomy(SendKey(ms[i]), SendKey(m));
    }
  }

  lemma {:induction false} WithEitherKey(ms: seq<Message>, m: Message)
    ensures WithKey(ms, SendKey, SendKey(m)) == WithKey(ms, ReceiveKey, ReceiveKey(m))
  {
    if ms == [] {
    } else {
      WithEitherKey(ms[..|ms| - 1], m);
      KeysSwap(ms[|ms| - 1], m);
    }
  }

  /** Listed first, a least message leads the messages with its times and id in the schedule. */
  lemma ListedFirstLeads(ms: seq<Message>, m: Message)
    requires ms != [] && ms[0] == m && Least(ms, m)
    ensures var w := WithKey(Scheduled(ms), ReceiveKey, ReceiveKey(m)); w != [] && w[0] == m
  {
    var sent := SortedBy(ms, SendKey);
    SortSorts(ms, SendKey);
    SameElements(sent, ms);
    SortStable(ms, SendKey, SendKey(m));
    assert ms == [m] + ms[1..];
    WithKeyConcat([m], ms[1..], SendKey, SendKey(m));
    assert WithKey([m], SendKey, SendKey(m)) == [m] by { assert [m][..0] == []; }
    assert Least(sent, m);
    DedupedFirst(sent, m);
    WithEitherKey(Deduped(sent), m);
    SortStable(Deduped(sent), ReceiveKey, ReceiveKey(m));
  }

  lemma TakeOut(ms: seq<Message>, m: Message) returns (rest: seq<Message>)
    requires m in ms
    ensures multiset([m] + rest) == multiset(ms)
  {
    var i :| 0 <= i < |ms| && ms[i] == m;
    rest := ms[..i] + ms[i + 1..];
    assert ms == ms[..i] + [m] + ms[i + 1..];
  }

  // ---------------------------------------------------------------- running again, and counting

  lemma {:induction false} DedupedKeepsDistinct(ms: seq<Message>)
    requires DistinctReplayKeys(ms)
    ensures Deduped(ms) == ms
  {
    if ms == [] {
    } else {
      var last := |ms| - 1;
      var front := ms[..last];
      assert ms == front + [ms[last]];
      DistinctFront(front, ms[last]);
      hide DistinctReplayKeys, Seen;
      DedupedKeepsDistinct(front);
    }
  }

  lemma DistinctFront(front: seq<Message>, m: Message)
    requires DistinctReplayKeys(front + [m])
    ensures DistinctReplayKeys(front) && !Seen(front, ReplayKeyOf(m))
  {
    var ms := front + [m];
    assert ms[|front|] == m;
    forall i | 0 <= i < |front| ensures ReplayKeyOf(front[i]) != ReplayKeyOf(m) {
      assert ms[i] == front[i];
    }
    assert forall i :: 0 <= i < |front| ==> front[i] == ms[i];
  }

  /** Scheduling a schedule drops nothing and changes nothing. */
  lemma ScheduleIdempotent(ms: seq<Message>)
    ensures Scheduled(Scheduled(ms)) == Scheduled(ms)
  {
    var out := Scheduled(ms);
    ScheduledByKeys(ms);
    var sent := SortedBy(out, SendKey);
    SortSorts(out, SendKey);
    DistinctByMultiset(out, sent);
    DedupedKeepsDistinct(sent);
    var again := SortedBy(sent, ReceiveKey);
    SortSorts(sent, ReceiveKey);
    forall k ensures WithKey(again, ReceiveKey, k) == WithKey(out, ReceiveKey, k) {
      SortStable(sent, ReceiveKey, k);
      var m := Message(k.id, "", "", "", [], "", k.second, k.first, []);
      WithEitherKey(sent, m);
      WithEitherKey(out, m);
      SortStable(out, SendKey, SendKey(m));
    }
    SortedDetermined(again, out, ReceiveKey);
  }

  function ReplayKeys(ms: seq<Message>): set<ReplayKey> {
    set m | m in ms :: ReplayKey(m.route, m.antiReplayNonce)
  }

  lemma ReplayKeysSnoc(ms: seq<Message>, m: Message)
    ensures ReplayKeys(ms + [m]) == ReplayKeys(ms) + {ReplayKeyOf(m)}
    ensures ReplayKeyOf(m) in ReplayKeys(ms) <==> Seen(ms, ReplayKeyOf(m))
  {
    assert forall x :: x in ms + [m] <==> x in ms || x == m;
    assert forall i :: 0 <= i < |ms| ==> ms[i] in ms;
  }

  lemma {:induction false} DistinctCount(ms: seq<Message>)
    requires DistinctReplayKeys(ms)
    ensures |ReplayKeys(ms)| == |ms|
  {
    if ms == [] {
    } else {
      hide ReplayKeys;
      var last := |ms| - 1;
      var front := ms[..last];
      assert ms == front + [ms[last]];
      DistinctFront(front, ms[last]);
      hide DistinctReplayKeys, Seen;
      DistinctCount(front);
      ReplayKeysSnoc(front, ms[last]);
    }
  }

  /** One message is kept for each route and nonce, so the drop count is the number of messages beyond that. */
  lemma KeptCount(ms: seq<Message>)
    ensures |Scheduled(ms)| == |ReplayKeys(ms)|
  {
    var out := Scheduled(ms);
    ScheduledByKeys(ms);
    DistinctCount(out);
    forall k ensures k in ReplayKeys(out) <==> k in ReplayKeys(ms) {
      if k in ReplayKeys(out) {
        var m :| m in out && ReplayKeyOf(m) == k;
        assert Least(ms, m);
      }
      if k in ReplayKeys(ms) {
        var m :| m in ms && ReplayKeyOf(m) == k;
        assert Seen(out, k);
        var i :| 0 <= i < |out| && ReplayKeyOf(out[i]) == k;
        assert out[i] in out;
      }
    }
    assert ReplayKeys(out) == ReplayKeys(ms);
  }

  // ---------------------------------------------------------------- the specification, on the fields

  /** Order of strings: behind a common beginning, `a` ends or goes on with a lower character. */
  ghost predicate TextBefore(a: string, b: string) {
    exists k :: 0 <= k <= |a| && k < |b| && a[..k] == b[..k] && (k == |a| || a[k] < b[k])
  }

  lemma TextBeforeByCodes(a: string, b: string)
    ensures TextBefore(a, b) <==> LexLess(Codes(a), Codes(b))
  {
    var s, t := Codes(a), Codes(b);
    LexMeaning(s, t);
    if TextBefore(a, b) {
      var k :| 0 <= k <= |a| && k < |b| && a[..k] == b[..k] && (k == |a| || a[k] < b[k]);
      assert forall i :: 0 <= i < k ==> a[i] == a[..k][i] == b[..k][i] == b[i];
      assert s[..k] == t[..k];
    }
    if Precedes(s, t) {
      var k :| 0 <= k <= |s| && k < |t| && s[..k] == t[..k] && (k == |s| || s[k] < t[k]);
      assert forall i :: 0 <= i < k ==> s[i] == s[..k][i] == t[..k][i] == t[i];
      assert forall i :: 0 <= i < k ==> a[i] as int == s[i] && b[i] as int == t[i];
      assert a[..k] == b[..k];
    }
  }

  ghost predicate SameReplay(m: Message, n: Message) {
    m.route == n.route && m.antiReplayNonce == n.antiReplayNonce
  }

  /** `m` is not after `n` by send time, then receive time, then id. */
  ghost predicate SentNoLater(m: Message, n: Message) {
    || m.sendTime < n.sendTime
    || (m.sendTime == n.sendTime && m.receiveTime < n.receiveTime)
    || (m.sendTime == n.sendTime && m.receiveTime == n.receiveTime && !TextBefore(n.msgId, m.msgId))
  }

  /** `m` is not after `n` by receive time, then send time, then id. */
  ghost predicate ReceivedNoLater(m: Message, n: Message) {
    || m.receiveTime < n.receiveTime
    || (m.receiveTime == n.receiveTime && m.sendTime < n.sendTime)
    || (m.receiveTime == n.receiveTime && m.sendTime == n.sendTime && !TextBefore(n.msgId, m.msgId))
  }

  ghost predicate EventNoLater(a: SimEvent, b: SimEvent) {
    || a.localSequence < b.localSequence
    || (a.localSequence == b.localSequence && a.tMin < b.tMin)
    || (a.localSequence == b.localSequence && a.tMin == b.tMin && !TextBefore(b.eventId, a.eventId))
  }

  /** No message of the same route and nonce was sent before this one. */
  ghost predicate Earliest(ms: seq<Message>, m: Message) {
    m in ms && forall n :: n in ms && SameReplay(m, n) ==> SentNoLater(m, n)
  }

  ghost predicate NoReplays(ms: seq<Message>) {
    forall i, j :: 0 <= i < j < |ms| ==> !SameReplay(ms[i], ms[j])
  }

  /** What a schedule of `ms` has to be: for each route and nonce the message sent earliest, in order of receipt. */
  ghost predicate IsSchedule(ms: seq<Message>, out: seq<Message>) {
    && (forall i, j :: 0 <= i < j < |out| ==> ReceivedNoLater(out[i], out[j]))
    && NoReplays(out)
    && (forall m :: m in out ==> Earliest(ms, m))
    && (forall m :: m in ms ==> exists n :: n in out && SameReplay(m, n))
  }

  ghost predicate IsEventOrder(events: seq<SimEvent>, out: seq<SimEvent>) {
    multiset(out) == multiset(events) && forall i, j :: 0 <= i < j < |out| ==> EventNoLater(out[i], out[j])
  }

  /** Any two messages sent earliest of their kinds, at the same times and with the same id, are one message. */
  ghost predicate Unambiguous(ms: seq<Message>) {
    forall m, n ::
      (Earliest(ms, m) && Earliest(ms, n)
       && m.sendTime == n.sendTime && m.receiveTime == n.receiveTime && m.msgId == n.msgId) ==> m == n
  }

  lemma KeysOnFields(m: Message, n: Message)
    ensures KeyLeq(SendKey(m), SendKey(n)) <==> SentNoLater(m, n)
    ensures KeyLeq(ReceiveKey(m), ReceiveKey(n)) <==> ReceivedNoLater(m, n)
    ensures ReplayKeyOf(m) == ReplayKeyOf(n) <==> SameReplay(m, n)
    ensures SendKey(m) == SendKey(n) <==>
            m.sendTime == n.sendTime && m.receiveTime == n.receiveTime && m.msgId == n.msgId
  {
    TextBeforeByCodes(n.msgId, m.msgId);
  }

  lemma LeastOnFields(ms: seq<Message>, m: Message)
    ensures Least(ms, m) <==> Earliest(ms, m)
  {
    hide SendKey, KeyLeq, SentNoLater, SameReplay, ReplayKeyOf;
    forall n ensures KeyLeq(SendKey(m), SendKey(n)) <==> SentNoLater(m, n)
      ensures ReplayKeyOf(n) == ReplayKeyOf(m) <==> SameReplay(m, n)
    {
      KeysOnFields(m, n);
    }
  }

  lemma ReplaysOnFields(ms: seq<Message>)
    ensures DistinctReplayKeys(ms) <==> NoReplays(ms)
  {
    hide SameReplay, ReplayKeyOf;
    forall i, j | 0 <= i < j < |ms|
      ensures ReplayKeyOf(ms[i]) == ReplayKeyOf(ms[j]) <==> SameReplay(ms[i], ms[j])
    {
      KeysOnFields(ms[i], ms[j]);
    }
  }

  lemma ReceiptOnFields(out: seq<Message>)
    ensures Sorted(out, ReceiveKey) <==> forall i, j :: 0 <= i < j < |out| ==> ReceivedNoLater(out[i], out[j])
  {
    hide KeyLeq, ReceivedNoLater;
    forall i, j | 0 <= i < j < |out|
      ensures KeyLeq(ReceiveKey(out[i]), ReceiveKey(out[j])) <==> ReceivedNoLater(out[i], out[j])
    {
      KeysOnFields(out[i], out[j]);
    }
  }

  lemma SeenOnFields(out: seq<Message>, m: Message)
    ensures Seen(out, ReplayKeyOf(m)) <==> exists n :: n in out && SameReplay(m, n)
  {
    if Seen(out, ReplayKeyOf(m)) {
      var i :| 0 <= i < |out| && ReplayKeyOf(out[i]) == ReplayKeyOf(m);
      KeysOnFields(m, out[i]);
      assert out[i] in out;
    }
    if n :| n in out && SameReplay(m, n) {
      var i :| 0 <= i < |out| && out[i] == n;
      KeysOnFields(m, n);
    }
  }

  lemma ScheduleOnFields(ms: seq<Message>, out: seq<Message>)
    ensures KeySchedule(ms, out) <==> IsSchedule(ms, out)
  {
    ReceiptOnFields(out);
    ReplaysOnFields(out);
    hide Sorted, ReceivedNoLater, DistinctReplayKeys, NoReplays, Least, Earliest, Seen, SameReplay;
    forall m ensures Least(ms, m) <==> Earliest(ms, m) {
      LeastOnFields(ms, m);
    }
    forall m ensures Seen(out, ReplayKeyOf(m)) <==> exists n :: n in out && SameReplay(m, n) {
      SeenOnFields(out, m);
    }
  }

  lemma UnambiguousOnFields(ms: seq<Message>)
    ensures KeyUnambiguous(ms) <==> Unambiguous(ms)
  {
    hide Least, Earliest;
    forall m ensures Least(ms, m) <==> Earliest(ms, m) {
      LeastOnFields(ms, m);
    }
    forall m, n ensures SendKey(m) == SendKey(n) <==>
        m.sendTime == n.sendTime && m.receiveTime == n.receiveTime && m.msgId == n.msgId {
    }
  }

  /** The three-pass scheduler meets the specification. */
  lemma ScheduledIsSchedule(ms: seq<Message>)
    ensures IsSchedule(ms, Scheduled(ms))
    ensures |Scheduled(ms)| <= |ms|
  {
    ScheduledByKeys(ms);
    ScheduleOnFields(ms, Scheduled(ms));
  }

  /** An unambiguous input has one schedule. */
  lemma ScheduleUnique(ms: seq<Message>, a: seq<Message>, b: seq<Message>)
    requires Unambiguous(ms) && IsSchedule(ms, a) && IsSchedule(ms, b)
    ensures a == b
  {
    hide Unambiguous, IsSchedule, KeyUnambiguous, KeySchedule;
    UnambiguousOnFields(ms);
    ScheduleOnFields(ms, a);
    ScheduleOnFields(ms, b);
    UniqueByKeys(ms, a, b);
  }

  /** On an unambiguous input the schedule does not depend on the order the messages are listed in. */
  lemma ScheduleIgnoresOrder(ms: seq<Message>, ns: seq<Message>)
    requires Unambiguous(ms) && multiset(ms) == multiset(ns)
    ensures Scheduled(ms) == Scheduled(ns)
  {
    hide Unambiguous, KeyUnambiguous, KeySchedule, Scheduled;
    UnambiguousOnFields(ms);
    ScheduledByKeys(ms);
    ScheduledByKeys(ns);
    SpecIgnoresOrder(ms, ns, Scheduled(ns));
    UniqueByKeys(ms, Scheduled(ms), Scheduled(ns));
  }

  /** An ambiguous input has two listings with different schedules, so `Unambiguous` is exactly order independence. */
  lemma AmbiguousInputDependsOnOrder(ms: seq<Message>) returns (a: seq<Message>, b: seq<Message>)
    requires !Unambiguous(ms)
    ensures multiset(a) == multiset(b) == multiset(ms)
    ensures Scheduled(a) != Scheduled(b)
  {
    UnambiguousOnFields(ms);
    var m, n :| Least(ms, m) && Least(ms, n) && SendKey(m) == SendKey(n) && m != n;
    var restA := TakeOut(ms, m);
    var restB := TakeOut(ms, n);
    a, b := [m] + restA, [n] + restB;
    hide Unambiguous, KeyUnambiguous;
    SpecIgnoresOrder(ms, a, []);
    SpecIgnoresOrder(ms, b, []);
    ListedFirstLeads(a, m);
    ListedFirstLeads(b, n);
    KeysSwap(m, n);
  }

  /** Two messages that differ only in what they carry make an ambiguous input. */
  lemma TwinsAreAmbiguous(m: Message, payload: string)
    requires payload != m.payloadHash
    ensures !Unambiguous([m, m.(payloadHash := payload)])
  {
    var n := m.(payloadHash := payload);
    var ms := [m, n];
    assert ms[0] == m && ms[1] == n;
    assert Earliest(ms, m) && Earliest(ms, n);
  }

  lemma EventsInOrder(events: seq<SimEvent>)
    ensures IsEventOrder(events, SortedBy(events, EventKey))
  {
    var out := SortedBy(events, EventKey);
    SortSorts(events, EventKey);
    forall i, j | 0 <= i < j < |out| ensures EventNoLater(out[i], out[j]) {
      assert KeyLeq(EventKey(out[i]), EventKey(out[j]));
      TextBeforeByCodes(out[j].eventId, out[i].eventId);
    }
  }

  // ---------------------------------------------------------------- what is counted

  /** The messages with more hops than a bound that is set. */
  ghost function LongRoutes(context: ScenarioContext, ms: seq<Message>): set<int> {
    set i | 0 <= i < |ms| && context.maxRouteHops > 0 && |ms[i].route| > context.maxRouteHops
  }

  /** The messages that took longer than a finite bound. */
  ghost function LongDelays(context: ScenarioContext, ms: seq<Message>): set<int> {
    set i | 0 <= i < |ms| && context.maxDelay.AtMost?
            && (ms[i].receiveTime - ms[i].sendTime) as real > context.maxDelay.years
  }

  lemma {:induction false} LongRoutesCounted(context: ScenarioContext, ms: seq<Message>)
    ensures RouteViolations(context, ms) == |LongRoutes(context, ms)|
  {
    if ms == [] {
    } else {
      var last := |ms| - 1;
      var front := ms[..last];
      LongRoutesCounted(context, front);
      LongRoutesGrow(context, ms);
      hide LongRoutes;
    }
  }

  lemma LongRoutesGrow(context: ScenarioContext, ms: seq<Message>)
    requires ms != []
    ensures var last := |ms| - 1;
            var newest := if RouteTooLong(context, ms[last]) then {last} else {};
            && LongRoutes(context, ms) == LongRoutes(context, ms[..last]) + newest
            && last !in LongRoutes(context, ms[..last])
  {
    var last := |ms| - 1;
    assert forall i :: 0 <= i < last ==> ms[..last][i] == ms[i];
  }

  lemma {:induction false} LongDelaysCounted(context: ScenarioContext, ms: seq<Message>)
    ensures DelayViolations(context, ms) == |LongDelays(context, ms)|
  {
    if ms == [] {
    } else {
      var last := |ms| - 1;
      var front := ms[..last];
      LongDelaysCounted(context, front);
      LongDelaysGrow(context, ms);
      hide LongDelays;
    }
  }

  lemma LongDelaysGrow(context: ScenarioContext, ms: seq<Message>)
    requires ms != []
    ensures var last := |ms| - 1;
            var newest := if DelayTooLong(context, ms[last]) then {last} else {};
            && LongDelays(context, ms) == LongDelays(context, ms[..last]) + newest
            && last !in LongDelays(context, ms[..last])
  {
    var last := |ms| - 1;
    assert forall i :: 0 <= i < last ==> ms[..last][i] == ms[i];
  }

  lemma CountersCount(context: ScenarioContext, ms: seq<Message>)
    ensures RouteViolations(context, ms) == |LongRoutes(context, ms)|
    ensures DelayViolations(context, ms) == |LongDelays(context, ms)|
  {
    LongRoutesCounted(context, ms);
    LongDelaysCounted(context, ms);
  }
}
