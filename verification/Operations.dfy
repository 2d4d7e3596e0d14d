/** When each operation of a client succeeds, which error it reports, and what it records, on the fields. */
module Operations {
  import opened Prelude
  import opened Types
  import opened Hashing
  import opened Causal
  import opened CryptoPolicy
  import opened Ledger
  import opened Client
  import opened Settlement
  import opened Sync
  import opened Invariants
  import opened Runs
  import opened Anchors

  // ---------------------------------------------------------------- the order of the stages

  /** The stages a claim goes through, first to last. */
  const STAGES: seq<FinalityStage> := [
    LocalFinal, RemoteObserved, FinalityStage.ProvisionallyCredited, AcceptedByRemoteLedger, OriginAcknowledged,
    BilaterallySettled]

  ghost predicate NotAfter(a: FinalityStage, b: FinalityStage) {
    exists i, j :: 0 <= i <= j < |STAGES| && STAGES[i] == a && STAGES[j] == b
  }

  lemma RankByPlace(i: int)
    requires 0 <= i < |STAGES|
    ensures Rank(STAGES[i]) == i
  {
  }

  lemma PlaceOf(stage: FinalityStage) returns (i: int)
    ensures 0 <= i < |STAGES| && STAGES[i] == stage
  {
    i := match stage
      case LocalFinal => 0
      case RemoteObserved => 1
      case ProvisionallyCredited => 2
      case AcceptedByRemoteLedger => 3
      case OriginAcknowledged => 4
      case BilaterallySettled => 5;
  }

  lemma StageOrder(a: FinalityStage, b: FinalityStage)
    ensures IsStatusMonotonic(a, b) <==> NotAfter(a, b)
  {
    var i := PlaceOf(a);
    var j := PlaceOf(b);
    RankByPlace(i);
    RankByPlace(j);
    hide STAGES;
    if NotAfter(a, b) {
      var k, l :| 0 <= k <= l < |STAGES| && STAGES[k] == a && STAGES[l] == b;
      RankByPlace(k);
      RankByPlace(l);
    }
  }

  /** The claim `id` goes to `next`; the cache and one new log entry say so; nothing else changes. */
  ghost predicate Staged(s: ClientState, s': ClientState, id: Text, next: FinalityStage, risk: RiskLabel) {
    && id in s.claims
    && s' == s.(claims := s.claims[id := s.claims[id].(finality := next)],
                claimStatus := s.claimStatus[id := next],
                log := s.log + [Transition(|s.log| + 1, id, s.claims[id].finality, next, risk)])
  }

  /** An update succeeds exactly when the claim is known and its stage is not after the new one. */
  lemma UpdateExact(s: ClientState, id: Text, next: FinalityStage, risk: RiskLabel)
    ensures var (s', r) := StatusUpdated(s, id, next, risk);
            && (r.Success? <==> id in s.claims && NotAfter(s.claims[id].finality, next))
            && (r == Failure(NotFound) <==> id !in s.claims)
            && (r.Failure? ==> s' == s && (r.error == NotFound || r.error == Conflict))
            && (r.Success? ==> Staged(s, s', id, next, risk))
  {
    if id in s.claims {
      StageOrder(s.claims[id].finality, next);
    }
    hide NotAfter, Rank;
  }

  /** Along any run no claim goes back in the list of stages. */
  lemma StagesNeverGoBack(s: ClientState, steps: seq<Step>, i: nat, j: nat, id: Text)
    requires Inv(s) && i <= j <= |steps| && id in Run(s, steps[..i]).claims
    ensures id in Run(s, steps[..j]).claims
    ensures NotAfter(Run(s, steps[..i]).claims[id].finality, Run(s, steps[..j]).claims[id].finality)
  {
    hide Run, Inv, Apply, NotAfter, Rank;
    RunEvolves(s, steps, i, j);
    StagesKept(Run(s, steps[..i]), Run(s, steps[..j]), id);
  }

  lemma StagesKept(a: ClientState, b: ClientState, id: Text)
    requires Evolves(a, b) && id in a.claims
    ensures id in b.claims && NotAfter(a.claims[id].finality, b.claims[id].finality)
  {
    hide DomainsEvolve, SyncsEvolve, LinesEvolve, Rank, NotAfter, SameTerms;
    assert ClaimLe(a.claims[id], b.claims[id]);
    StageOrder(a.claims[id].finality, b.claims[id].finality);
  }

  lemma InOrder(i: int, j: int)
    requires 0 <= i <= j < |STAGES|
    ensures NotAfter(STAGES[i], STAGES[j])
  {
  }

  /** The honest path: a credited claim with a trusted checkpoint is accepted, acknowledged, settled, step by step. */
  lemma HonestPath(s: ClientState, id: Text, checkpointId: Text, risk: RiskLabel)
    requires id in s.claims && s.claims[id].finality == FinalityStage.ProvisionallyCredited && checkpointId != []
    requires s.claims[id].originDomain in s.sync && checkpointId in s.sync[s.claims[id].originDomain].frontier
    ensures var (s1, accepted) := RemoteClaimAccepted(s, id, checkpointId);
            var (s2, acknowledged) := StatusUpdated(s1, id, OriginAcknowledged, risk);
            var (s3, settled) := BilaterallyMarked(s2, id);
            && accepted.Success? && acknowledged.Success? && settled.Success?
            && id in s3.claims && s3.claims[id] == s.claims[id].(finality := BilaterallySettled)
  {
    hide NotAfter, StatusUpdated, STAGES;
    AcceptExact(s, id, checkpointId);
    var s1 := RemoteClaimAccepted(s, id, checkpointId).0;
    assert Staged(s, s1, id, AcceptedByRemoteLedger, s.claims[id].riskLabel);
    hide RemoteClaimAccepted;
    LastStages();
    UpdateExact(s1, id, OriginAcknowledged, risk);
    var s2 := StatusUpdated(s1, id, OriginAcknowledged, risk).0;
    MarkExact(s2, id);
  }

  lemma LastStages()
    ensures NotAfter(AcceptedByRemoteLedger, OriginAcknowledged)
  {
    InOrder(3, 4);
  }

  // ---------------------------------------------------------------- accepting and settling

  /**
   * A claim is accepted exactly on a checkpoint its origin's sync state knows, unless it is already past acceptance.
   * One that is accepted already is accepted again without a change.
   */
  lemma AcceptExact(s: ClientState, id: Text, checkpointId: Text)
    ensures var (s', r) := RemoteClaimAccepted(s, id, checkpointId);
            && (r == Failure(NotFound) <==>
                  id !in s.claims
                  || (AwaitsAcceptance(s, id) && checkpointId != [] && s.claims[id].originDomain !in s.sync))
            && (r.Success? <==> Acceptable(s, id, checkpointId))
            && (r == Failure(Conflict) <==> PastAcceptance(s, id, checkpointId))
            && (r.Failure? ==> s' == s && r.error != Crypto)
            && (r.Success? ==>
                  && r.value == SettlementDecision(id, true, AcceptedByRemoteLedger)
                  && if s.claims[id].finality == AcceptedByRemoteLedger then s' == s
                     else Staged(s, s', id, AcceptedByRemoteLedger, s.claims[id].riskLabel))
  {
    hide NotAfter, StatusUpdated, STAGES;
    UpdateToAccepted(s, id);
    if id in s.claims {
      match StatusUpdated(s, id, AcceptedByRemoteLedger, s.claims[id].riskLabel).1 {
        case Success(_) =>
        case Failure(e) => assert e == Conflict;
      }
    }
  }

  /** What the update at the end of an acceptance does, by the claim's stage. */
  lemma UpdateToAccepted(s: ClientState, id: Text)
    ensures id in s.claims ==>
              var risk, stage := s.claims[id].riskLabel, s.claims[id].finality;
              var (s', r) := StatusUpdated(s, id, AcceptedByRemoteLedger, risk);
              && (r.Success? <==> stage != OriginAcknowledged && stage != BilaterallySettled)
              && (r.Success? ==> Staged(s, s', id, AcceptedByRemoteLedger, risk))
              && (r.Failure? ==> r == Failure(Conflict) && s' == s)
  {
    InOrder(0, 3);
    InOrder(1, 3);
    InOrder(2, 3);
    InOrder(3, 3);
    NotBack();
    hide NotAfter, StatusUpdated;
    if id in s.claims {
      UpdateExact(s, id, AcceptedByRemoteLedger, s.claims[id].riskLabel);
      hide STAGES, Staged;
      var stage := s.claims[id].finality;
      match stage {
        case LocalFinal =>
        case RemoteObserved =>
        case ProvisionallyCredited =>
        case AcceptedByRemoteLedger =>
        case OriginAcknowledged =>
        case BilaterallySettled =>
      }
    }
  }

  lemma NotBack()
    ensures !NotAfter(OriginAcknowledged, AcceptedByRemoteLedger)
    ensures !NotAfter(BilaterallySettled, AcceptedByRemoteLedger)
    ensures STAGES[0] == LocalFinal && STAGES[1] == RemoteObserved
    ensures STAGES[2] == FinalityStage.ProvisionallyCredited && STAGES[3] == AcceptedByRemoteLedger
  {
    StageOrder(OriginAcknowledged, AcceptedByRemoteLedger);
    StageOrder(BilaterallySettled, AcceptedByRemoteLedger);
  }

  ghost predicate AwaitsAcceptance(s: ClientState, id: Text) {
    id in s.claims && s.claims[id].finality != BilaterallySettled && s.claims[id].finality != AcceptedByRemoteLedger
  }

  /** A checkpoint id that is not empty, and that the domain has in its frontier or trusted last. */
  ghost predicate KnownCheckpoint(s: ClientState, d: Text, checkpointId: Text) {
    && checkpointId != [] && d in s.sync
    && (checkpointId in s.sync[d].frontier || s.sync[d].lastTrusted == Some(checkpointId))
  }

  ghost predicate Acceptable(s: ClientState, id: Text, checkpointId: Text) {
    && id in s.claims
    && var stage := s.claims[id].finality;
       || stage == AcceptedByRemoteLedger
       || ((stage == LocalFinal || stage == RemoteObserved || stage == FinalityStage.ProvisionallyCredited)
           && KnownCheckpoint(s, s.claims[id].originDomain, checkpointId))
  }

  ghost predicate PastAcceptance(s: ClientState, id: Text, checkpointId: Text) {
    && id in s.claims
    && var stage := s.claims[id].finality;
       || stage == BilaterallySettled
       || (stage == OriginAcknowledged && KnownCheckpoint(s, s.claims[id].originDomain, checkpointId))
  }

  lemma MarkExact(s: ClientState, id: Text)
    ensures var (s', r) := BilaterallyMarked(s, id);
            && (r.Success? <==> id in s.claims && s.claims[id].finality == OriginAcknowledged)
            && (r == Failure(NotFound) <==> id !in s.claims)
            && (r.Failure? ==> s' == s && (r.error == NotFound || r.error == Conflict))
            && (r.Success? ==> Staged(s, s', id, BilaterallySettled, Low))
  {
    InOrder(4, 5);
    hide NotAfter, StatusUpdated;
    UpdateExact(s, id, BilaterallySettled, Low);
  }

  lemma ApplyCheckpointExact(s: ClientState, id: Text, checkpointId: Text)
    ensures var (s', r) := CheckpointApplied(s, id, checkpointId);
            if id !in s.claims then r == Failure(NotFound) && s' == s
            else
              && r == Success(())
              && s' == s.(claims := s.claims[id := s.claims[id].(lockCheckpoint := checkpointId,
                                                                 lightconeStatus := Unknown)])
  {
  }

  // ---------------------------------------------------------------- crediting

  /** A 64-bit horizon, read as a signed time. */
  function SignedTime(horizon: U64): int {
    if horizon < TWO_63 then horizon else horizon - TWO_64
  }

  /** The riskier of a label that a check gave and the policy's floor. */
  ghost predicate FlooredFrom(mark: RiskLabel, given: RiskLabel, floor: RiskLabel) {
    match floor
    case Low => mark == given
    case Medium => mark == (if given == Low then Medium else given)
    case High => mark == (if given == Low || given == Medium then High else given)
    case DoNotAcceptForCredit => mark == (if given == DoNotAcceptAtAll then DoNotAcceptAtAll else DoNotAcceptForCredit)
    case DoNotAcceptAtAll => mark == DoNotAcceptAtAll
  }

  lemma FlooredExact(given: RiskLabel, floor: RiskLabel)
    ensures FlooredFrom(RiskLabelOrDefault(given, floor), given, floor)
  {
  }

  /** The state after a credit that left the claim with the given status and risk. */
  function AfterCredit(s: ClientState, id: Text, lineId: Text, status: CryptoStatus, risk: RiskLabel): ClientState
    requires id in s.claims && lineId in s.lines
  {
    var claim, line := s.claims[id], s.lines[lineId];
    s.(claims := s.claims[id := claim.(finality := FinalityStage.ProvisionallyCredited, cryptoStatus := status,
                                       riskLabel := risk)],
       claimStatus := s.claimStatus[id := FinalityStage.ProvisionallyCredited],
       lines := s.lines[lineId := CreditLine(line.limit, Min(U64_MAX, line.used + claim.amount))],
       log := s.log + [Transition(|s.log| + 1, id, RemoteObserved, FinalityStage.ProvisionallyCredited, risk)])
  }

  /** The horizon, read as a signed time, has reached the era's soft warning. */
  ghost predicate Late(era: CryptoEra, horizon: U64) {
    era.softDeprecationWarning.Some? && SignedTime(horizon) >= era.softDeprecationWarning.value
  }

  /**
   * What a credit records. From an era's soft warning on, the claim is deprecated but renewed and at least of high
   * risk; before it, the claim is current and at least of medium risk. The policy's floor may raise either.
   */
  lemma CreditRecords(s: ClientState, id: Text, lineId: Text)
    requires ClaimCredited(s, id, lineId).1.Success?
    ensures id in s.claims && lineId in s.lines && IsHash(s.claims[id].lockCheckpoint)
    ensures var (s', r) := ClaimCredited(s, id, lineId);
            var claim := s.claims[id];
            var late := Late(ResolveByHash(s.registry, ParseHash(claim.lockCheckpoint).value), claim.horizon);
            && r.value == SettlementDecision(id, true, FinalityStage.ProvisionallyCredited)
            && id in s'.claims
            && FlooredFrom(s'.claims[id].riskLabel, if late then High else Medium, s.policy.riskFloor)
            && s' == AfterCredit(s, id, lineId, if late then CryptoDeprecatedButRenewed else CryptoCurrent,
                                 s'.claims[id].riskLabel)
  {
    CreditRoot(s, id, lineId);
    CreditOutcome(s, id, lineId);
    var claim := s.claims[id];
    hide ClaimCredited, AfterCredit, DeriveClaimRoot, GateGrants, IsHash, ParseHash;
    CreditMark(s.registry, ParseHash(claim.lockCheckpoint).value, claim.horizon, s.policy.riskFloor);
  }

  lemma CreditOutcome(s: ClientState, id: Text, lineId: Text)
    requires ClaimCredited(s, id, lineId).1.Success?
    ensures id in s.claims && lineId in s.lines
    ensures var (s', r) := ClaimCredited(s, id, lineId);
            var claim := s.claims[id];
            var root, now := DeriveClaimRoot(claim), WrapI64(claim.horizon);
            var given := EvaluateCryptoRisk(s.registry, root, now, None).riskLabel;
            var risk := RiskLabelOrDefault(given, s.policy.riskFloor);
            && r.value == SettlementDecision(id, true, FinalityStage.ProvisionallyCredited)
            && id in s'.claims && s'.claims[id].riskLabel == risk
            && s' == AfterCredit(s, id, lineId, VerifyCheckpointClaim(s.registry, root, now).status, risk)
  {
    CreditInOrder();
    hide VerifyCheckpointClaim, EvaluateCryptoRisk, CanGrantNewCredit, RiskLabelOrDefault, DeriveClaimRoot, Rank,
         WrapI64;
  }

  lemma CreditInOrder()
    ensures IsStatusMonotonic(RemoteObserved, FinalityStage.ProvisionallyCredited)
  {
    InOrder(1, 2);
    StageOrder(RemoteObserved, FinalityStage.ProvisionallyCredited);
  }

  lemma CreditMark(registry: Registry, root: Hash, horizon: U64, floor: RiskLabel)
    requires GateGrants(registry, root, horizon)
    ensures var late, now := Late(ResolveByHash(registry, root), horizon), WrapI64(horizon);
            && VerifyCheckpointClaim(registry, root, now).status
               == (if late then CryptoDeprecatedButRenewed else CryptoCurrent)
            && FlooredFrom(RiskLabelOrDefault(EvaluateCryptoRisk(registry, root, now, None).riskLabel, floor),
                           if late then High else Medium, floor)
  {
    GrantedStatus(registry, root, horizon);
    SignedHorizon(horizon);
    hide VerifyCheckpointClaim, EvaluateCryptoRisk, ResolveByHash, RiskLabelOrDefault, WrapI64, FlooredFrom,
         GateGrants;
    FlooredExact(EvaluateCryptoRisk(registry, root, WrapI64(horizon), None).riskLabel, floor);
  }

  lemma SignedHorizon(horizon: U64)
    ensures WrapI64(horizon) == SignedTime(horizon)
  {
  }

  lemma CreditRoot(s: ClientState, id: Text, lineId: Text)
    requires ClaimCredited(s, id, lineId).1.Success?
    ensures id in s.claims && lineId in s.lines
    ensures var claim := s.claims[id];
            && IsHash(claim.lockCheckpoint)
            && DeriveClaimRoot(claim) == ParseHash(claim.lockCheckpoint).value
            && GateGrants(s.registry, ParseHash(claim.lockCheckpoint).value, claim.horizon)
  {
    hide ParseHash, VerifyCheckpointClaim, EvaluateCryptoRisk, CanGrantNewCredit, StatusUpdated;
    var claim := s.claims[id];
    WellFormedRoot(claim);
    assert GateGrants(s.registry, DeriveClaimRoot(claim), claim.horizon);
    if !IsHash(claim.lockCheckpoint) {
      PlaceholderNeverGranted(s.registry, claim.horizon);
    }
  }

  /** The line exists and its use, the claim's amount added, stays within the limit. */
  ghost predicate HasRoom(s: ClientState, lineId: Text, amount: U64) {
    lineId in s.lines && Min(U64_MAX, s.lines[lineId].used + amount) <= s.lines[lineId].limit
  }

  /** The claim passes every check of a credit but the one on the line. */
  ghost predicate Creditable(s: ClientState, id: Text) {
    && id in s.claims
    && var claim := s.claims[id];
       && claim.finality == RemoteObserved
       && claim.lightconeStatus != Invalid
       && claim.horizon <= s.policy.maxHorizonYears
       && IsHash(claim.lockCheckpoint)
       && GateGrants(s.registry, ParseHash(claim.lockCheckpoint).value, claim.horizon)
  }

  /** When a credit is granted, and which error it reports otherwise. */
  lemma CreditExact(s: ClientState, id: Text, lineId: Text)
    ensures var (s', r) := ClaimCredited(s, id, lineId);
            && (r.Success? <==> Creditable(s, id) && HasRoom(s, lineId, s.claims[id].amount))
            && (r == Failure(NotFound) <==> id !in s.claims || (Creditable(s, id) && lineId !in s.lines))
            && (r == Failure(Conflict) <==>
                  id in s.claims && s.claims[id].lightconeStatus != Invalid && |s.claims[id].lockCheckpoint| == 64
                  && s.claims[id].finality != RemoteObserved)
            && (r.Failure? ==> s' == s && r.error != Crypto)
  {
    if id in s.claims && |s.claims[id].lockCheckpoint| == 64 {
      WellFormedRoot(s.claims[id]);
      PlaceholderNeverGranted(s.registry, s.claims[id].horizon);
    }
    InOrder(1, 2);
    StageOrder(RemoteObserved, FinalityStage.ProvisionallyCredited);
    hide ParseHash, IsHash, VerifyCheckpointClaim, EvaluateCryptoRisk, CanGrantNewCredit, RiskLabelOrDefault, NotAfter,
         Rank;
    if ClaimCredited(s, id, lineId).1.Failure? {
      FailedCredit(s, id, lineId);
    }
  }

  // ---------------------------------------------------------------- opening claims

  lemma GetEventFirst(log: seq<Event>, id: Text)
    ensures GetEvent(log, id).None? <==> forall e :: e in log ==> e.eventId != id
    ensures GetEvent(log, id).Some? ==>
              exists i :: 0 <= i < |log| && log[i] == GetEvent(log, id).value && log[i].eventId == id
                          && forall j :: 0 <= j < i ==> log[j].eventId != id
  {
    if GetEvent(log, id).Some? {
      var i := FoundAt(log, id);
      hide GetEvent;
    } else {
      forall e | e in log ensures e.eventId != id {
        var i :| 0 <= i < |log| && log[i] == e;
        assert HasEvent(log, id) || log[i].eventId != id;
      }
    }
  }

  lemma {:induction false} FoundAt(log: seq<Event>, id: Text) returns (i: nat)
    requires GetEvent(log, id).Some?
    ensures i < |log| && log[i] == GetEvent(log, id).value && log[i].eventId == id
    ensures forall j :: 0 <= j < i ==> log[j].eventId != id
    decreases |log|
  {
    if log[0].eventId == id {
      i := 0;
    } else {
      var k := FoundAt(log[1..], id);
      i := k + 1;
      assert forall j :: 0 < j < i ==> log[j] == log[1..][j - 1];
    }
  }

  /** The event is logged, and so are all its dependencies, none of them itself. */
  ghost predicate Lockable(log: seq<Event>, id: Text) {
    && GetEvent(log, id).Some?
    && forall d :: d in GetEvent(log, id).value.causalDependencies ==> d != id && exists e :: e in log && e.eventId == d
  }

  lemma LockableExact(log: seq<Event>, id: Text)
    requires GetEvent(log, id).Some?
    ensures Lockable(log, id) <==> DependenciesKnown(id, GetEvent(log, id).value.causalDependencies, EventIds(log))
  {
    var ds, ids := GetEvent(log, id).value.causalDependencies, EventIds(log);
    forall d ensures d in ids <==> exists e :: e in log && e.eventId == d {
      if d in ids {
        var i :| 0 <= i < |ids| && ids[i] == d;
        assert log[i] in log;
      }
      if e :| e in log && e.eventId == d {
        var i :| 0 <= i < |log| && log[i] == e;
        assert ids[i] == d;
      }
    }
    hide GetEvent, EventIds;
    if Lockable(log, id) {
      forall i | 0 <= i < |ds| ensures ds[i] != id && ds[i] in ids {
        assert ds[i] in ds;
      }
    }
    if DependenciesKnown(id, ds, ids) {
      forall d | d in ds ensures d != id && exists e :: e in log && e.eventId == d {
        var i :| 0 <= i < |ds| && ds[i] == d;
        assert d in ids;
      }
    }
  }

  /** Some claim on the event is short of bilateral settlement. */
  ghost predicate Taken(s: ClientState, lock: Text, origin: Text) {
    exists b :: b in s.claims && s.claims[b].lockEventId == lock && s.claims[b].originDomain == origin
                && s.claims[b].finality != BilaterallySettled
  }

  /** What both operations ask of the event and the parties. */
  ghost predicate Openable(s: ClientState, lock: Text, origin: Text, remote: Text, amount: U64) {
    amount > 0 && origin != remote && origin in s.domains && Lockable(s.domains[origin].eventLog, lock)
  }

  /** The terms of a claim just opened, from what was asked for and the event as logged. */
  ghost predicate OpenedOn(s: ClientState, claim: SettlementClaim, id: Text, lock: Text, origin: Text, remote: Text,
                           asset: Text, amount: U64)
    requires origin in s.domains
  {
    var ledger := s.domains[origin];
    var found := GetEvent(ledger.eventLog, lock);
    && found.Some?
    && claim.claimId == id && claim.lockEventId == lock
    && claim.originDomain == origin && claim.remoteDomain == remote
    && claim.assetId == asset && claim.amount == amount
    && claim.dependencies == found.value.causalDependencies
    && claim.finality == RemoteObserved && claim.cryptoStatus == CryptoCurrent && claim.riskLabel == Medium
    && claim.lockCheckpoint == (if ledger.finalCheckpoint.Some? then ledger.finalCheckpoint.value.hash
                                else HexText(HashOf([EventBytes(found.value)])))
  }

  /** The claim is stored, cached and logged as observed; nothing else changes. */
  ghost predicate Recorded(s: ClientState, s': ClientState, claim: SettlementClaim) {
    s' == s.(claims := s.claims[claim.claimId := claim],
             claimStatus := s.claimStatus[claim.claimId := RemoteObserved],
             log := s.log + [Transition(|s.log| + 1, claim.claimId, RemoteObserved, RemoteObserved, Medium)])
  }

  /** When locking opens a claim, which error it reports otherwise, and the claim it opens. */
  lemma LockExact(s: ClientState, lock: Text, origin: Text, remote: Text, asset: Text, amount: U64,
                  coord: SpacetimeCoord, horizon: U64)
    ensures var (s', r) := LockedForExport(s, lock, origin, remote, asset, amount, coord, horizon);
            var id := LockClaimId(origin, remote, asset, amount, lock);
            var within := horizon <= s.policy.maxHorizonYears;
            && (r.Success? <==> within && Openable(s, lock, origin, remote, amount)
                                && !Taken(s, lock, origin) && id !in s.claims)
            && (r == Failure(NotFound) <==> amount > 0 && origin != remote && within
                                            && (origin !in s.domains
                                                || GetEvent(s.domains[origin].eventLog, lock).None?))
            && (r == Failure(Conflict) <==> within && Openable(s, lock, origin, remote, amount)
                                            && (Taken(s, lock, origin) || id in s.claims))
            && (r.Failure? ==> s' == s && r.error != Crypto)
            && (r.Success? ==>
                  && OpenedOn(s, r.value, id, lock, origin, remote, asset, amount)
                  && r.value.lockCoord == coord && r.value.horizon == horizon
                  && Recorded(s, s', r.value))
  {
    LockableIn(s, lock, origin);
    TakenExact(s, lock, origin);
    hide LockInUse, DependenciesKnown, GetEvent, LockClaimId, EventIds, LightconePossible, Lockable, Taken, HexText,
         HashOf;
  }

  lemma LockableIn(s: ClientState, lock: Text, origin: Text)
    ensures origin in s.domains ==>
              var log := s.domains[origin].eventLog;
              var found := GetEvent(log, lock);
              Lockable(log, lock)
              <==> found.Some? && DependenciesKnown(lock, found.value.causalDependencies, EventIds(log))
  {
    if origin in s.domains && GetEvent(s.domains[origin].eventLog, lock).Some? {
      LockableExact(s.domains[origin].eventLog, lock);
    }
  }

  lemma TakenExact(s: ClientState, lock: Text, origin: Text)
    ensures LockInUse(s.claims, lock, origin) <==> Taken(s, lock, origin)
  {
    if LockInUse(s.claims, lock, origin) {
      var b :| b in s.claims && UsesLock(s.claims[b], lock, origin);
    }
    if Taken(s, lock, origin) {
      var b :| b in s.claims && s.claims[b].lockEventId == lock && s.claims[b].originDomain == origin
               && s.claims[b].finality != BilaterallySettled;
      assert UsesLock(s.claims[b], lock, origin);
    }
  }

  /** The same for a claim opened explicitly: at the event's coordinate, for five years. */
  lemma CreateExact(s: ClientState, id: Text, lock: Text, origin: Text, remote: Text, asset: Text, amount: U64)
    ensures var (s', r) := SettlementClaimCreated(s, id, lock, origin, remote, asset, amount);
            && (r.Success? <==> Openable(s, lock, origin, remote, amount)
                                && !Taken(s, lock, origin) && id !in s.claims && !IsBlank(id))
            && (r == Failure(NotFound) <==> amount > 0 && origin != remote && id !in s.claims && origin !in s.domains)
            && (r == Failure(Conflict) <==> id in s.claims
                                            || (Openable(s, lock, origin, remote, amount) && Taken(s, lock, origin)))
            && (r.Failure? ==> s' == s && r.error != Crypto)
            && (r.Success? ==>
                  && OpenedOn(s, r.value, id, lock, origin, remote, asset, amount)
                  && r.value.lockCoord == GetEvent(s.domains[origin].eventLog, lock).value.coord
                  && r.value.horizon == 5 && r.value.lightconeStatus == Unknown
                  && Recorded(s, s', r.value))
  {
    LockableIn(s, lock, origin);
    TakenExact(s, lock, origin);
    hide LockInUse, DependenciesKnown, GetEvent, EventIds, IsBlank, Lockable, Taken, HexText, HashOf;
  }

  // ---------------------------------------------------------------- domains, events and checkpoints

  lemma AddDomainExact(s: ClientState, d: Text)
    ensures var (s', r) := DomainAdded(s, d);
            if d in s.domains then r == Failure(Conflict) && s' == s
            else
              && r == Success(())
              && s' == s.(domains := s.domains[d := LedgerState(d, 0, None, [], [])],
                          localRoots := s.localRoots[d := ZERO_HASH],
                          sync := s.sync[d := SyncState(d, None, [], 0)])
  {
  }

  /** The name Rust prints for the kind. */
  ghost function PrintedKind(kind: TxKind): string {
    match kind
    case Transfer => "Transfer"
    case LockForExport => "LockForExport"
    case AcceptRemoteClaim => "AcceptRemoteClaim"
    case Receipt => "Receipt"
  }

  /** `ev:domain:tx` */
  ghost function EventName(d: Text, txId: Text): Text {
    [101, 118, COLON] + d + [COLON] + txId
  }

  lemma EventNamed(d: Text, txId: Text)
    ensures EventIdOf(d, txId) == EventName(d, txId)
  {
    assert Ascii("ev:") == [101, 118, COLON] && Ascii(":") == [COLON];
  }

  /** The interval is not reversed, and radius and uncertainty are finite and not negative. */
  ghost predicate WellFormed(c: SpacetimeCoord) {
    && c.timeInterval.tMin <= c.timeInterval.tMax
    && IsFinite(c.positionRegion.radiusLy) && Real(c.positionRegion.radiusLy) >= 0.0
    && IsFinite(c.uncertainty) && Real(c.uncertainty) >= 0.0
  }

  /** When a transaction is logged, and the event it becomes. */
  lemma SubmitExact(l: LedgerState, txId: Text, tx: Transaction)
    ensures var (l', r) := Submitted(l, txId, tx);
            var taken := exists e :: e in l.eventLog && e.eventId == EventName(l.domainId, txId);
            && (r.Success? <==> tx.domainId == l.domainId && WellFormed(tx.coord) && !taken)
            && (r == Failure(Conflict) <==> tx.domainId == l.domainId && WellFormed(tx.coord) && taken)
            && (r.Failure? ==> l' == l && (r.error == Conflict || r.error == Validation))
            && (r.Success? ==>
                  && r.value == Event(EventName(l.domainId, txId), tx.actorId, l.domainId, Ascii(PrintedKind(tx.kind)),
                                      tx.payloadHash, tx.coord, |l.eventLog| + 1, tx.causalDependencies, tx.signatures)
                  && l' == l.(eventLog := l.eventLog + [r.value], chainHeight := l.chainHeight + 1))
  {
    EventNamed(l.domainId, txId);
    var id := EventName(l.domainId, txId);
    assert HasEvent(l.eventLog, id) <==> exists e :: e in l.eventLog && e.eventId == id by {
      if e :| e in l.eventLog && e.eventId == id {
        var i :| 0 <= i < |l.eventLog| && l.eventLog[i] == e;
      }
      if HasEvent(l.eventLog, id) {
        var i :| 0 <= i < |l.eventLog| && l.eventLog[i].eventId == id;
        assert l.eventLog[i] in l.eventLog;
      }
    }
    hide EventIdOf, EventName, Real, IsFinite, HasEvent;
  }

  /** The checkpoint that a ledger would seal, part by part. */
  ghost predicate Seals(l: LedgerState, cp: Checkpoint, txRoot: Hash, coord: SpacetimeCoord) {
    var logRoot := HashOf(EncodedLog(l.eventLog));
    var tx := if txRoot == ZERO_HASH then logRoot else txRoot;
    var prev := if l.finalCheckpoint.Some? then Some(l.finalCheckpoint.value.stateRoot) else None;
    var root := HashOf([l.domainId, Word(1), Word(l.chainHeight), Word(|l.eventLog|), tx, logRoot,
                        if l.finalCheckpoint.Some? then l.finalCheckpoint.value.stateRoot else ZERO_HASH,
                        CoordBytes(coord)]);
    && cp.domainId == l.domainId && cp.height == l.chainHeight && cp.epoch == 1 && cp.protocolVersion == 1
    && cp.coord == coord && cp.prevCheckpointHash == prev
    && cp.stateRoot == root && cp.stateCommitment == root && cp.disputeRoot == root && cp.hash == HexText(root)
    && cp.txRoot == tx && cp.importRoot == tx && cp.validatorSetRoot == tx
    && cp.eventLogRoot == logRoot && cp.exportRoot == logRoot && cp.observedRemoteRoot == logRoot
  }

  /** When a ledger seals a checkpoint, and the checkpoint it seals. */
  lemma FinalizeExact(l: LedgerState, checkpointId: Text, txRoot: Hash, coord: SpacetimeCoord)
    ensures exists cp ::
              && Seals(l, cp, txRoot, coord)
              && var (l', r) := Finalized(l, checkpointId, txRoot, coord);
                 var rises := l.finalCheckpoint.Some? ==> l.chainHeight > l.finalCheckpoint.value.height;
                 && (r.Success? <==> l.domainId != [] && WellFormed(coord) && rises
                                     && (checkpointId == [] || checkpointId == cp.hash))
                 && (r == Failure(Conflict) <==> l.domainId != [] && WellFormed(coord) && !rises)
                 && (r.Failure? ==> l' == l && (r.error == Conflict || r.error == Validation))
                 && (r.Success? ==>
                       r.value == cp && l' == l.(finalCheckpoint := Some(cp),
                                                 checkpointHistory := l.checkpointHistory + [cp]))
  {
    var cp := NextCheckpoint(l, txRoot, coord);
    SealsNext(l, txRoot, coord);
    hide NextCheckpoint, Seals, Real, IsFinite;
  }

  lemma SealsNext(l: LedgerState, txRoot: Hash, coord: SpacetimeCoord)
    ensures Seals(l, NextCheckpoint(l, txRoot, coord), txRoot, coord)
  {
    hide HashOf, HexText, Word, CoordBytes, EncodedLog;
  }

  // ---------------------------------------------------------------- reconciling

  /** When a checkpoint from outside is taken over, and what it changes. */
  lemma ReconcileExact(s: ClientState, cp: Checkpoint)
    ensures var (s', r) := CheckpointReconciled(s, cp);
            var d := cp.domainId;
            var taken := d in s.domains && Advances(s.domains[d].finalCheckpoint, cp);
            && (r.Success? <==> taken && d in s.sync)
            && (r == Failure(NotFound) <==> d !in s.domains || (taken && d !in s.sync))
            && (r.Failure? && !taken ==> s' == s && (r.error == NotFound || r.error == Conflict))
            && (r.Success? ==>
                  && r.value == 1
                  && TrustedIn(s.sync, s'.sync, d, cp.hash)
                  && (cp.height < TWO_63 ==>
                        s'.sync[d].watermark
                        == if cp.height > s.sync[d].watermark then cp.height else s.sync[d].watermark)
                  && s' == s.(domains := s.domains[d := s.domains[d].(finalCheckpoint := Some(cp))], sync := s'.sync))
  {
  }

  /** A first checkpoint, a higher one, or one of the same height and hash. */
  ghost predicate Advances(final: Option<Checkpoint>, cp: Checkpoint) {
    final.None? || cp.height > final.value.height || (cp.height == final.value.height && cp.hash == final.value.hash)
  }

  // ---------------------------------------------------------------- conflicts

  /** Two unsettled claims of one origin conflict over one lock event, or over one asset in one amount. */
  lemma ConflictExact(a: SettlementClaim, b: SettlementClaim)
    ensures a.claimId == b.claimId || a.originDomain != b.originDomain ==> !DetectConflict(a, b)
    ensures a.finality == BilaterallySettled || b.finality == BilaterallySettled ==> !DetectConflict(a, b)
    ensures a.claimId != b.claimId && a.originDomain == b.originDomain
            && a.finality != BilaterallySettled && b.finality != BilaterallySettled ==>
              (DetectConflict(a, b) <==> a.lockEventId == b.lockEventId
                                         || (a.assetId == b.assetId && a.amount == b.amount))
  {
  }

  // ---------------------------------------------------------------- verifying

  /** What an approval records: the status and risk of the claim's root at its horizon, without the policy's floor. */
  lemma ApprovalRecords(s: ClientState, id: Text)
    requires id in s.claims && Approved(ClaimVerified(s, id).1)
    ensures IsHash(s.claims[id].lockCheckpoint)
    ensures var (s', r) := ClaimVerified(s, id);
            var claim := s.claims[id];
            var late := Late(ResolveByHash(s.registry, ParseHash(claim.lockCheckpoint).value), claim.horizon);
            && r.value == SettlementDecision(claim.claimId, true, claim.finality)
            && s' == s.(claims := s.claims[id := claim.(
                 cryptoStatus := if late then CryptoDeprecatedButRenewed else CryptoCurrent,
                 riskLabel := if late then High else Medium)])
  {
    var claim := s.claims[id];
    var root := ParseHash(claim.lockCheckpoint).value;
    assert GateGrants(s.registry, root, claim.horizon);
    GrantedStatus(s.registry, root, claim.horizon);
    SignedHorizon(claim.horizon);
    hide ParseHash, VerifyCheckpointClaim, EvaluateCryptoRisk, CanGrantNewCredit, ResolveByHash, WrapI64, GateGrants;
  }

  /** A refusal says so, with the claim's stage as it is. */
  lemma RefusalReports(s: ClientState, id: Text)
    ensures id !in s.claims ==> ClaimVerified(s, id) == (s, Failure(NotFound))
    ensures var (s', r) := ClaimVerified(s, id);
            id in s.claims && !Approved(r) ==>
              s' == s && (r == Failure(Validation)
                          || r == Success(SettlementDecision(s.claims[id].claimId, false, s.claims[id].finality)))
  {
    hide ParseHash, VerifyCheckpointClaim, EvaluateCryptoRisk, CanGrantNewCredit, WrapI64;
  }
}
