/** One lock event may back several credits over a run, but only one claim after another. */
module Relocking {
  import opened Prelude
  import opened Types
  import opened Hashing
  import opened Geometry
  import opened Causal
  import opened CryptoPolicy
  import opened Ledger
  import opened Client
  import opened Settlement
  import opened Invariants
  import opened Runs
  import opened Limits

  // ---------------------------------------------------------------- one after another

  /** When a claim is credited, every other claim on its lock event has been settled. */
  lemma CreditedAlone(s: ClientState, id: Text, lineId: Text)
    requires Inv(s) && Apply(s, Credit(id, lineId)).1
    ensures id in s.claims
    ensures forall b :: b in s.claims && b != id && SameLock(s.claims[b], s.claims[id])
                        ==> s.claims[b].finality == BilaterallySettled
  {
    CreditCharges(s, id, lineId);
    hide Apply, DomainsInv, SyncsInv, ClaimsInv, StatusInv;
  }

  ghost predicate Settled(s: ClientState, a: Text, b: Text) {
    a in s.claims && b in s.claims && SameLock(s.claims[a], s.claims[b]) ==>
      s.claims[a].finality == BilaterallySettled
  }

  /** Of two credits on one lock event, the claim of the earlier one is settled. */
  ghost predicate InTurn(credits: seq<CreditEvent>, s: ClientState) {
    forall i, j :: 0 <= i < j < |credits| ==> Settled(s, credits[i].claimId, credits[j].claimId)
  }

  /** The credits of a run on one lock event come one after another, each once the claim before it is settled. */
  lemma {:induction false} CreditsInTurn(s: ClientState, steps: seq<Step>)
    requires Inv(s)
    ensures InTurn(Credits(s, steps), Run(s, steps))
  {
    hide Inv, Evolves, Apply, Settled, CreditStands;
    if steps == [] {
    } else {
      var last := |steps| - 1;
      var before, step := Run(s, steps[..last]), steps[last];
      var credits := Credits(s, steps[..last]);
      CreditsInTurn(s, steps[..last]);
      CreditedOnce(s, steps[..last]);
      RunInv(s, steps[..last]);
      StepKeeps(before, step);
      StaysInTurn(before, Apply(before, step).0, credits);
      if step.Credit? && step.claimId in before.claims && Apply(before, step).1 {
        OneMoreInTurn(before, step.claimId, step.lineId, credits);
      } else {
        assert Credits(s, steps) == credits;
      }
    }
  }

  lemma SettledCarries(a: ClientState, b: ClientState, x: Text, y: Text)
    requires Evolves(a, b) && x in a.claims && y in a.claims && Settled(a, x, y)
    ensures Settled(b, x, y)
  {
    hide DomainsEvolve, SyncsEvolve, LinesEvolve;
    assert ClaimLe(a.claims[x], b.claims[x]) && ClaimLe(a.claims[y], b.claims[y]);
  }

  lemma StaysInTurn(a: ClientState, b: ClientState, credits: seq<CreditEvent>)
    requires Evolves(a, b) && CreditsStand(credits, a) && InTurn(credits, a)
    ensures InTurn(credits, b)
  {
    hide Evolves, Settled;
    forall i, j | 0 <= i < j < |credits| ensures Settled(b, credits[i].claimId, credits[j].claimId) {
      assert CreditStands(credits[i], a) && CreditStands(credits[j], a);
      SettledCarries(a, b, credits[i].claimId, credits[j].claimId);
    }
  }

  lemma EarlierSettled(s: ClientState, id: Text, lineId: Text, credit: CreditEvent)
    requires Inv(s) && CreditStands(credit, s) && Apply(s, Credit(id, lineId)).1
    ensures id in s.claims && credit.claimId in s.claims && Settled(s, credit.claimId, id)
  {
    CreditCharges(s, id, lineId);
    hide Apply, Inv;
    CreditedAlone(s, id, lineId);
  }

  lemma OneMoreInTurn(s: ClientState, id: Text, lineId: Text, credits: seq<CreditEvent>)
    requires Inv(s) && CreditsStand(credits, s) && id in s.claims && Apply(s, Credit(id, lineId)).1
    requires var s' := Apply(s, Credit(id, lineId)).0; Evolves(s, s') && InTurn(credits, s')
    ensures InTurn(credits + [CreditEvent(id, lineId, s.claims[id].amount)], Apply(s, Credit(id, lineId)).0)
  {
    hide Apply, Evolves, Inv, CreditStands, Settled;
    var s' := Apply(s, Credit(id, lineId)).0;
    forall i | 0 <= i < |credits| ensures Settled(s', credits[i].claimId, id) {
      EarlierSettled(s, id, lineId, credits[i]);
      SettledCarries(s, s', credits[i].claimId, id);
    }
  }

  /**
   * A claim in order in every other respect can be opened on an event, by either operation, exactly when every claim
   * on the event so far has been settled.
   */
  lemma ReopenExact(s: ClientState, id: Text, lock: Text, origin: Text, remote: Text, asset: Text, amount: U64,
                    coord: SpacetimeCoord, horizon: U64)
    requires amount > 0 && origin != remote && horizon <= s.policy.maxHorizonYears
    requires id !in s.claims && !IsBlank(id) && LockClaimId(origin, remote, asset, amount, lock) !in s.claims
    requires origin in s.domains
    requires var log := s.domains[origin].eventLog;
             var found := GetEvent(log, lock);
             found.Some? && DependenciesKnown(lock, found.value.causalDependencies, EventIds(log))
    ensures var free := forall b :: b in s.claims && s.claims[b].lockEventId == lock
                                    && s.claims[b].originDomain == origin
                                    ==> s.claims[b].finality == BilaterallySettled;
            && (LockedForExport(s, lock, origin, remote, asset, amount, coord, horizon).1.Success? <==> free)
            && (SettlementClaimCreated(s, id, lock, origin, remote, asset, amount).1.Success? <==> free)
  {
    hide LockClaimId, GetEvent, DependenciesKnown, EventIds, LockClaim, ExplicitClaim, IsBlank, Opened;
    assert LockInUse(s.claims, lock, origin) <==> exists b :: b in s.claims && UsesLock(s.claims[b], lock, origin);
  }

  // ---------------------------------------------------------------- two credits on one lock event

  lemma {:induction false} RunConcat(s: ClientState, a: seq<Step>, b: seq<Step>)
    ensures Run(s, a + b) == Run(Run(s, a), b)
  {
    hide Apply;
    if b == [] {
      assert a + b == a;
    } else {
      var last := |b| - 1;
      RunConcat(s, a, b[..last]);
      assert a + b == (a + b[..last]) + [b[last]];
      RunMore(s, a + b[..last], b[last]);
    }
  }

  lemma {:induction false} CreditsConcat(s: ClientState, a: seq<Step>, b: seq<Step>)
    ensures Credits(s, a + b) == Credits(s, a) + Credits(Run(s, a), b)
  {
    hide Apply, Run, NewCredits, Credits;
    if b == [] {
      NothingRun(Run(s, a));
      assert a + b == a;
    } else {
      var last := |b| - 1;
      var front, step := b[..last], b[last];
      CreditsConcat(s, a, front);
      RunConcat(s, a, front);
      CreditsMore(s, a + front, step);
      CreditsMore(Run(s, a), front, step);
      assert a + b == (a + front) + [step] && b == front + [step];
      AssocCredits(Credits(s, a), Credits(Run(s, a), front), NewCredits(Run(s, a + front), step));
    }
  }

  lemma AssocCredits(a: seq<CreditEvent>, b: seq<CreditEvent>, c: seq<CreditEvent>)
    ensures (a + b) + c == a + (b + c)
  {
  }

  function LockEvent(): Text {
    EventIdOf([68], [])
  }

  /** Opening a claim on the event, giving it a checkpoint, and crediting it. */
  function Round(id: Text, root: Hash, lineId: Text): seq<Step> {
    [Create(id, LockEvent(), [68], [], [], 1), ApplyCheckpoint(id, HexText(root)), Credit(id, lineId)]
  }

  /** The event is logged and no unsettled claim is on it, and the line has room. */
  ghost predicate Ready(s: ClientState, lineId: Text) {
    && s.registry == DefaultRegistry() && s.policy.maxHorizonYears >= 5
    && [68] in s.domains
    && (var found := GetEvent(s.domains[[68]].eventLog, LockEvent());
        found.Some? && found.value.eventId == LockEvent() && found.value.causalDependencies == [])
    && !LockInUse(s.claims, LockEvent(), [68])
    && lineId in s.lines && s.lines[lineId].used < s.lines[lineId].limit
  }

  function RoundOpened(s: ClientState, id: Text, root: Hash): ClientState {
    CheckpointApplied(SettlementClaimCreated(s, id, LockEvent(), [68], [], [], 1).0, id, HexText(root)).0
  }

  lemma RoundOpens(s: ClientState, id: Text, root: Hash, lineId: Text)
    requires Ready(s, lineId) && id !in s.claims && !IsBlank(id)
    ensures var s' := RoundOpened(s, id, root);
            && s' == s.(claims := s'.claims, claimStatus := s'.claimStatus, log := s'.log)
            && id in s'.claims && s'.claims == s.claims[id := s'.claims[id]]
            && var claim := s'.claims[id];
               && claim.lockEventId == LockEvent() && claim.originDomain == [68] && claim.amount == 1
               && claim.horizon == 5 && claim.lockCheckpoint == HexText(root)
               && claim.lightconeStatus == Unknown && claim.finality == RemoteObserved
  {
    hide LockEvent, GetEvent, IsBlank, LockInUse, LockCheckpointFor, HexText, DefaultRegistry;
  }

  lemma ShortHorizonGranted(root: Hash)
    requires root != ZERO_HASH
    ensures GateGrants(DefaultRegistry(), root, 5)
  {
    hide GateGrants, DefaultRegistry;
    DefaultCreditHorizon(root, 5);
  }

  lemma RoundCredits(s: ClientState, id: Text, root: Hash, lineId: Text)
    requires Ready(s, lineId) && id !in s.claims && !IsBlank(id) && root != ZERO_HASH
    ensures Credits(s, Round(id, root, lineId)) == [CreditEvent(id, lineId, 1)]
    ensures var s' := Run(s, Round(id, root, lineId));
            && s'.registry == s.registry && s'.policy == s.policy && s'.domains == s.domains
            && s'.lines == s.lines[lineId := CreditLine(s.lines[lineId].limit, s.lines[lineId].used + 1)]
            && id in s'.claims && s'.claims == s.claims[id := s'.claims[id]]
            && var claim := s'.claims[id];
               && claim.lockEventId == LockEvent() && claim.originDomain == [68] && claim.amount == 1
               && claim.finality == FinalityStage.ProvisionallyCredited
  {
    hide Run, Credits, Apply, Round, RoundOpened, ClaimCredited, LockEvent, IsBlank, Ready, ZERO_HASH, DefaultRegistry;
    RoundSteps(s, id, root, lineId);
    RoundOutcome(s, id, root, lineId);
  }

  lemma RoundOutcome(s: ClientState, id: Text, root: Hash, lineId: Text)
    requires Ready(s, lineId) && id !in s.claims && !IsBlank(id) && root != ZERO_HASH
    ensures var s1 := RoundOpened(s, id, root);
            var (s', r) := ClaimCredited(s1, id, lineId);
            && r.Success? && id in s1.claims && s1.claims[id].amount == 1
            && s'.registry == s.registry && s'.policy == s.policy && s'.domains == s.domains
            && lineId in s.lines
            && s'.lines == s.lines[lineId := CreditLine(s.lines[lineId].limit, s.lines[lineId].used + 1)]
            && id in s'.claims && s'.claims == s.claims[id := s'.claims[id]]
            && var claim := s'.claims[id];
               && claim.lockEventId == LockEvent() && claim.originDomain == [68] && claim.amount == 1
               && claim.finality == FinalityStage.ProvisionallyCredited
  {
    RoundOpens(s, id, root, lineId);
    hide RoundOpened, HexText, LockEvent, IsBlank, GateGrants, DefaultRegistry, GetEvent, LockInUse, ZERO_HASH,
         ClaimCredited;
    var s1 := RoundOpened(s, id, root);
    ShortHorizonGranted(root);
    CreditedIfGranted(s1, id, lineId, root);
    CreditOutcome(s1, id, lineId);
    var s' := ClaimCredited(s1, id, lineId).0;
    hide Ready;
    PutTwice(s.claims, s1.claims, s'.claims, id);
    assert s'.claims[id].amount == 1;
  }

  lemma PutTwice(a: map<Text, SettlementClaim>, b: map<Text, SettlementClaim>, c: map<Text, SettlementClaim>, id: Text)
    requires id in b && id in c && b == a[id := b[id]] && c == b[id := c[id]]
    ensures c == a[id := c[id]]
  {
  }

  lemma RoundSteps(s: ClientState, id: Text, root: Hash, lineId: Text)
    ensures var s' := RoundOpened(s, id, root);
            && Run(s, Round(id, root, lineId)) == ClaimCredited(s', id, lineId).0
            && Credits(s, Round(id, root, lineId))
               == if id in s'.claims && ClaimCredited(s', id, lineId).1.Success?
                  then [CreditEvent(id, lineId, s'.claims[id].amount)] else []
  {
    hide Run, Credits, HexText, LockEvent, SettlementClaimCreated, CheckpointApplied, ClaimCredited;
    var a, b, c := Create(id, LockEvent(), [68], [], [], 1), ApplyCheckpoint(id, HexText(root)), Credit(id, lineId);
    assert Apply(Apply(s, a).0, b).0 == RoundOpened(s, id, root);
    assert Round(id, root, lineId) == [a, b] + [c];
    assert var (s', r) := ClaimCredited(RoundOpened(s, id, root), id, lineId);
           Apply(RoundOpened(s, id, root), c) == (s', r.Success?);
    hide Apply, RoundOpened, Round;
    NoCredits(s, a, b);
    RunMore(s, [a, b], c);
    CreditsMore(s, [a, b], c);
  }

  /** The credit a step grants, if any. */
  function NewCredits(s: ClientState, step: Step): seq<CreditEvent> {
    if step.Credit? && step.claimId in s.claims && Apply(s, step).1
    then [CreditEvent(step.claimId, step.lineId, s.claims[step.claimId].amount)] else []
  }

  lemma CreditsMore(s: ClientState, steps: seq<Step>, step: Step)
    ensures Credits(s, steps + [step]) == Credits(s, steps) + NewCredits(Run(s, steps), step)
  {
    hide Apply, Run;
    assert (steps + [step])[..|steps|] == steps;
  }

  /** Two steps that are no credits. */
  lemma NoCredits(s: ClientState, a: Step, b: Step)
    requires !a.Credit? && !b.Credit?
    ensures Credits(s, [a, b]) == [] && Run(s, [a, b]) == Apply(Apply(s, a).0, b).0
  {
    hide Apply;
    assert Credits(s, []) == [];
    CreditsMore(s, [], a);
    CreditsMore(s, [a], b);
    RunMore(s, [], a);
    RunMore(s, [a], b);
    assert [] + [a] == [a] && [a] + [b] == [a, b];
  }

  lemma CreditOutcome(s: ClientState, id: Text, lineId: Text)
    requires ClaimCredited(s, id, lineId).1.Success?
    ensures id in s.claims && lineId in s.lines
    ensures var s' := ClaimCredited(s, id, lineId).0;
            && s'.registry == s.registry && s'.policy == s.policy && s'.domains == s.domains
            && s'.lines == s.lines[lineId := s.lines[lineId].(
                 used := SaturatingAdd(s.lines[lineId].used, s.claims[id].amount))]
            && id in s'.claims && s'.claims == s.claims[id := s'.claims[id]]
            && SameTerms(s.claims[id], s'.claims[id])
            && s'.claims[id].finality == FinalityStage.ProvisionallyCredited
  {
    hide ClaimCredited;
    var staged, charged := CreditSteps(s, id, lineId);
  }

  /** The claim `1` is opened on the event, credited and settled, and then the claim `2` on the same event. */
  function TwiceRun(root: Hash, lineId: Text): seq<Step> {
    [AddDomain([68]), SubmitTx([68], [], OpeningTx())] + Round([49], root, lineId)
    + [UpdateStatus([49], BilaterallySettled, Low)] + Round([50], root, lineId)
  }

  /** A lock event can back two credits: settling the first claim frees it for the second. */
  lemma CreditedTwice(policy: SettlementPolicy, sqrt: SquareRoot, root: Hash, lineId: Text)
    requires policy.maxHorizonYears >= 5 && root != ZERO_HASH
    ensures var start, steps := Fresh(policy, sqrt, map[lineId := CreditLine(2, 0)]), TwiceRun(root, lineId);
            var s := Run(start, steps);
            && Credits(start, steps) == [CreditEvent([49], lineId, 1), CreditEvent([50], lineId, 1)]
            && [49] in s.claims && [50] in s.claims && SameLock(s.claims[[49]], s.claims[[50]])
  {
    hide Run, Credits, Apply, Round, LockEvent, OpeningTx, IsBlank, Ready, DefaultRegistry, ZERO_HASH, SameLock;
    TwiceFrom(Fresh(policy, sqrt, map[lineId := CreditLine(2, 0)]), root, lineId);
  }

  lemma TwiceFrom(s: ClientState, root: Hash, lineId: Text)
    requires s.domains == map[] && s.claims == map[] && s.registry == DefaultRegistry()
    requires s.policy.maxHorizonYears >= 5 && root != ZERO_HASH
    requires lineId in s.lines && s.lines[lineId].used + 1 < s.lines[lineId].limit
    ensures var s' := Run(s, TwiceRun(root, lineId));
            && Credits(s, TwiceRun(root, lineId)) == [CreditEvent([49], lineId, 1), CreditEvent([50], lineId, 1)]
            && [49] in s'.claims && [50] in s'.claims && SameLock(s'.claims[[49]], s'.claims[[50]])
  {
    hide Run, Credits, Apply, Round, LockEvent, OpeningTx, IsBlank, Ready, DefaultRegistry, ZERO_HASH, SameLock;
    var a, b: Text := [49], [50];
    var opening := [AddDomain([68]), SubmitTx([68], [], OpeningTx())];
    var settle := [UpdateStatus(a, BilaterallySettled, Low)];
    FourParts(s, opening, Round(a, root, lineId), settle, Round(b, root, lineId));
    hide TwiceRun;
    var s1 := Opening(s, lineId);
    NotBlank();
    TwoRounds(s1, a, b, root, lineId);
  }

  lemma NotBlank()
    ensures !IsBlank([49]) && !IsBlank([50])
  {
  }

  lemma TwoRounds(s: ClientState, first: Text, second: Text, root: Hash, lineId: Text)
    requires Ready(s, lineId) && s.claims == map[] && root != ZERO_HASH
    requires first != second && !IsBlank(first) && !IsBlank(second)
    requires lineId in s.lines && s.lines[lineId].used + 1 < s.lines[lineId].limit
    ensures var s2 := Run(s, Round(first, root, lineId));
            var s3 := Run(s2, [UpdateStatus(first, BilaterallySettled, Low)]);
            var s4 := Run(s3, Round(second, root, lineId));
            && Credits(s, Round(first, root, lineId)) == [CreditEvent(first, lineId, 1)]
            && Credits(s2, [UpdateStatus(first, BilaterallySettled, Low)]) == []
            && Credits(s3, Round(second, root, lineId)) == [CreditEvent(second, lineId, 1)]
            && first in s4.claims && second in s4.claims && SameLock(s4.claims[first], s4.claims[second])
  {
    hide Run, Credits, Apply, Round, LockEvent, IsBlank, Ready, GetEvent, LockInUse, DefaultRegistry, ZERO_HASH;
    FoundIfReady(s, lineId);
    RoundCredits(s, first, root, lineId);
    var s2 := Run(s, Round(first, root, lineId));
    assert forall b :: b in s2.claims ==> b == first;
    var s3 := Settling(s2, first, lineId);
    RoundCredits(s3, second, root, lineId);
  }

  lemma FoundIfReady(s: ClientState, lineId: Text)
    requires Ready(s, lineId)
    ensures s.registry == DefaultRegistry() && s.policy.maxHorizonYears >= 5 && [68] in s.domains
    ensures var found := GetEvent(s.domains[[68]].eventLog, LockEvent());
            found.Some? && found.value.eventId == LockEvent() && found.value.causalDependencies == []
  {
    hide GetEvent, LockEvent, DefaultRegistry, LockInUse;
  }

  lemma FourParts(s: ClientState, a: seq<Step>, b: seq<Step>, c: seq<Step>, d: seq<Step>)
    ensures Run(s, a + b + c + d) == Run(Run(Run(Run(s, a), b), c), d)
    ensures Credits(s, a + b + c + d)
         == Credits(s, a) + Credits(Run(s, a), b) + Credits(Run(Run(s, a), b), c)
            + Credits(Run(Run(Run(s, a), b), c), d)
  {
    hide Run, Credits;
    RunConcat(s, a, b);
    RunConcat(s, a + b, c);
    RunConcat(s, a + b + c, d);
    CreditsConcat(s, a, b);
    CreditsConcat(s, a + b, c);
    CreditsConcat(s, a + b + c, d);
  }

  lemma Opening(s: ClientState, lineId: Text) returns (s': ClientState)
    requires s.domains == map[] && s.claims == map[] && s.registry == DefaultRegistry() && s.policy.maxHorizonYears >= 5
    requires lineId in s.lines && s.lines[lineId].used < s.lines[lineId].limit
    ensures s' == Run(s, [AddDomain([68]), SubmitTx([68], [], OpeningTx())])
    ensures Credits(s, [AddDomain([68]), SubmitTx([68], [], OpeningTx())]) == []
    ensures Ready(s', lineId) && s'.claims == map[] && s'.lines == s.lines
  {
    hide DomainAdded, TxSubmitted, OpeningTx, EventIdOf, DefaultRegistry, GetEvent;
    s' := OpenedLedger(s);
    NoCredits(s, AddDomain([68]), SubmitTx([68], [], OpeningTx()));
    var log := s'.domains[[68]].eventLog;
    FirstFound(log);
  }

  lemma FirstFound(log: seq<Event>)
    requires log != []
    ensures GetEvent(log, log[0].eventId) == Some(log[0])
  {
  }

  lemma Settling(s: ClientState, id: Text, lineId: Text) returns (s': ClientState)
    requires id in s.claims && s.claims[id].finality == FinalityStage.ProvisionallyCredited
    requires s.registry == DefaultRegistry() && s.policy.maxHorizonYears >= 5 && [68] in s.domains
    requires var found := GetEvent(s.domains[[68]].eventLog, LockEvent());
             found.Some? && found.value.eventId == LockEvent() && found.value.causalDependencies == []
    requires forall b :: b in s.claims ==> b == id
    requires lineId in s.lines && s.lines[lineId].used < s.lines[lineId].limit
    ensures s' == Run(s, [UpdateStatus(id, BilaterallySettled, Low)])
    ensures Credits(s, [UpdateStatus(id, BilaterallySettled, Low)]) == []
    ensures Ready(s', lineId) && s'.lines == s.lines
    ensures s'.claims == map[id := s.claims[id].(finality := BilaterallySettled)]
  {
    hide GetEvent, LockEvent, DefaultRegistry, Run, Credits, Ready, StatusUpdated;
    var step := UpdateStatus(id, BilaterallySettled, Low);
    RunMore(s, [], step);
    CreditsMore(s, [], step);
    NothingRun(s);
    assert [] + [step] == [step];
    s' := StatusUpdated(s, id, BilaterallySettled, Low).0;
    SettledState(s, id, lineId);
  }

  lemma NothingRun(s: ClientState)
    ensures Run(s, []) == s && Credits(s, []) == []
  {
  }

  lemma SettledState(s: ClientState, id: Text, lineId: Text)
    requires id in s.claims && s.claims[id].finality == FinalityStage.ProvisionallyCredited
    requires s.registry == DefaultRegistry() && s.policy.maxHorizonYears >= 5 && [68] in s.domains
    requires var found := GetEvent(s.domains[[68]].eventLog, LockEvent());
             found.Some? && found.value.eventId == LockEvent() && found.value.causalDependencies == []
    requires forall b :: b in s.claims ==> b == id
    requires lineId in s.lines && s.lines[lineId].used < s.lines[lineId].limit
    ensures var s' := StatusUpdated(s, id, BilaterallySettled, Low).0;
            && Ready(s', lineId) && s'.lines == s.lines
            && s'.claims == map[id := s.claims[id].(finality := BilaterallySettled)]
  {
    hide GetEvent, LockEvent, DefaultRegistry;
    var s' := StatusUpdated(s, id, BilaterallySettled, Low).0;
    assert s'.claims == map[id := s.claims[id].(finality := BilaterallySettled)];
  }
}
