/** How a claim gets from stage to stage over a run, and what a granted credit certifies. */
module Lifecycle {
  import opened Prelude
  import opened Types
  import opened Hashing
  import opened Causal
  import opened CryptoPolicy
  import opened Ledger
  import opened Client
  import opened Settlement
  import opened Sync
  import opened Invariants
  import opened Runs
  import opened Cones

  // ---------------------------------------------------------------- who moves a claim

  /** The only stages a step can move the claim `id` to. */
  ghost predicate Reaches(step: Step, id: Text, stage: FinalityStage) {
    match step
    case Lock(lock, origin, remote, asset, amount, _, _) =>
      id == LockClaimId(origin, remote, asset, amount, lock) && stage == RemoteObserved
    case Create(claimId, _, _, _, _, _) => id == claimId && stage == RemoteObserved
    case Accept(claimId, _) => id == claimId && stage == AcceptedByRemoteLedger
    case Credit(claimId, _) => id == claimId && stage == FinalityStage.ProvisionallyCredited
    case UpdateStatus(claimId, next, _) => id == claimId && stage == next
    case MarkSettled(claimId) => id == claimId && stage == BilaterallySettled
    case _ => false
  }

  ghost predicate AtStage(s: ClientState, id: Text, stage: FinalityStage) {
    id in s.claims && s.claims[id].finality == stage
  }

  /** A step leaves a claim at its stage, or moves it to the one stage that kind of step is for. */
  lemma StageMoves(s: ClientState, step: Step, id: Text, stage: FinalityStage)
    requires AtStage(Apply(s, step).0, id, stage)
    ensures AtStage(s, id, stage) || (Apply(s, step).1 && Reaches(step, id, stage))
  {
    hide LockedForExport, SettlementClaimCreated, ClaimVerified, ClaimCredited, StatusUpdated, AnchorsApplied,
         AllReplayLogged, Submitted, Finalized;
    match step {
      case Lock(lock, origin, remote, asset, amount, coord, horizon) =>
        LockStage(s, lock, origin, remote, asset, amount, coord, horizon, id);
        assert AtStage(LockedForExport(s, lock, origin, remote, asset, amount, coord, horizon).0, id, stage);
      case Create(claimId, lock, origin, remote, asset, amount) =>
        CreateStage(s, claimId, lock, origin, remote, asset, amount, id);
        assert AtStage(SettlementClaimCreated(s, claimId, lock, origin, remote, asset, amount).0, id, stage);
      case Verify(claimId) => VerifyStage(s, claimId, id);
      case Accept(claimId, cp) =>
        if claimId in s.claims {
          UpdateStage(s, claimId, AcceptedByRemoteLedger, s.claims[claimId].riskLabel, id);
        }
      case Credit(claimId, line) =>
        CreditStage(s, claimId, line, id);
      case UpdateStatus(claimId, next, risk) =>
        UpdateStage(s, claimId, next, risk, id);
      case MarkSettled(claimId) =>
        UpdateStage(s, claimId, BilaterallySettled, Low, id);
      case Resync(anchors, order) =>
        ReplayKeeps(s.(sync := AnchorsApplied(s.sync, Order.SortedSet(anchors)).0), order);
      case _ =>
    }
  }

  lemma UpdateStage(s: ClientState, claimId: Text, next: FinalityStage, risk: RiskLabel, id: Text)
    ensures var (s', r) := StatusUpdated(s, claimId, next, risk);
            && (id in s'.claims <==> id in s.claims)
            && (id in s.claims && !(r.Success? && id == claimId) ==> s'.claims[id].finality == s.claims[id].finality)
            && (r.Success? ==> AtStage(s', claimId, next))
  {
    hide StatusUpdated;
    UpdateShape(s, claimId, next, risk);
    match StatusUpdated(s, claimId, next, risk).1 {
      case Failure(_) => assert StatusUpdated(s, claimId, next, risk).0.claims == s.claims;
      case Success(_) =>
    }
  }

  lemma VerifyStage(s: ClientState, claimId: Text, id: Text)
    ensures var s' := ClaimVerified(s, claimId).0;
            && (id in s'.claims <==> id in s.claims)
            && (id in s.claims ==> s'.claims[id].finality == s.claims[id].finality)
  {
    hide ClaimVerified;
    VerifyShape(s, claimId);
  }

  /** Opening a claim adds it, observed, and leaves the others alone. */
  lemma LockStage(s: ClientState, lock: Text, origin: Text, remote: Text, asset: Text, amount: U64,
                  coord: SpacetimeCoord, horizon: U64, id: Text)
    ensures var (s', r) := LockedForExport(s, lock, origin, remote, asset, amount, coord, horizon);
            var added := LockClaimId(origin, remote, asset, amount, lock);
            && (r.Failure? ==> s' == s)
            && (r.Success? ==> AtStage(s', added, RemoteObserved))
            && (id in s'.claims ==> id in s.claims || id == added)
            && (id in s.claims && id != added ==> s'.claims[id] == s.claims[id])
  {
    hide LockInUse, DependenciesKnown, GetEvent, LockClaimId, EventIds, LightconePossible, LockCheckpointFor;
  }

  lemma CreateStage(s: ClientState, added: Text, lock: Text, origin: Text, remote: Text, asset: Text, amount: U64,
                    id: Text)
    ensures var (s', r) := SettlementClaimCreated(s, added, lock, origin, remote, asset, amount);
            && (r.Failure? ==> s' == s)
            && (r.Success? ==> AtStage(s', added, RemoteObserved))
            && (id in s'.claims ==> id in s.claims || id == added)
            && (id in s.claims && id != added ==> s'.claims[id] == s.claims[id])
  {
    hide LockInUse, DependenciesKnown, GetEvent, IsBlank, EventIds, LockCheckpointFor;
  }

  lemma CreditStage(s: ClientState, claimId: Text, line: Text, id: Text)
    ensures var (s', r) := ClaimCredited(s, claimId, line);
            && s'.claims.Keys == s.claims.Keys
            && (id in s.claims && !(r.Success? && id == claimId) ==> s'.claims[id].finality == s.claims[id].finality)
            && (r.Success? ==> AtStage(s', claimId, FinalityStage.ProvisionallyCredited))
  {
    hide ClaimCredited;
    if ClaimCredited(s, claimId, line).1.Success? {
      var staged, charged := CreditSteps(s, claimId, line);
    } else {
      FailedCredit(s, claimId, line);
    }
  }

  /** In the run of a client that starts without claims, whatever stage a claim is at, a step put it there. */
  lemma {:induction false} StageHasCause(s: ClientState, steps: seq<Step>, id: Text, stage: FinalityStage)
    returns (i: nat)
    requires s.claims == map[] && AtStage(Run(s, steps), id, stage)
    ensures i < |steps| && Reaches(steps[i], id, stage)
    ensures Apply(Run(s, steps[..i]), steps[i]).1
  {
    hide Apply, Reaches;
    var last := |steps| - 1;
    var before := Run(s, steps[..last]);
    StageMoves(before, steps[last], id, stage);
    if AtStage(before, id, stage) {
      i := StageHasCause(s, steps[..last], id, stage);
      assert steps[..last][..i] == steps[..i];
    } else {
      i := last;
    }
  }

  lemma MarkedFrom(s: ClientState, id: Text)
    requires Apply(s, MarkSettled(id)).1
    ensures AtStage(s, id, OriginAcknowledged)
  {
    hide StatusUpdated;
  }

  /**
   * No claim is ever settled unless `update_claim_status` was called on it to say that the origin acknowledged it,
   * or outright.
   */
  lemma SettledByUpdate(s: ClientState, steps: seq<Step>, id: Text) returns (i: nat)
    requires s.claims == map[] && AtStage(Run(s, steps), id, BilaterallySettled)
    ensures i < |steps| && steps[i].UpdateStatus? && steps[i].claimId == id
    ensures steps[i].next == OriginAcknowledged || steps[i].next == BilaterallySettled
  {
    hide Run, Apply, AtStage;
    i := StageHasCause(s, steps, id, BilaterallySettled);
    if steps[i].MarkSettled? {
      MarkedFrom(Run(s, steps[..i]), id);
      i := StageHasCause(s, steps[..i], id, OriginAcknowledged);
    }
  }

  // ---------------------------------------------------------------- lock checkpoints

  ghost predicate DomainsHashed(domains: map<Text, LedgerState>) {
    forall d :: d in domains && domains[d].finalCheckpoint.Some? ==> IsHash(domains[d].finalCheckpoint.value.hash)
  }

  ghost predicate ClaimsHashed(claims: map<Text, SettlementClaim>) {
    forall id :: id in claims ==> IsHash(claims[id].lockCheckpoint)
  }

  ghost predicate HashLocks(s: ClientState) {
    DomainsHashed(s.domains) && ClaimsHashed(s.claims)
  }

  /** A step that brings a checkpoint id from outside brings the hexadecimal form of a hash. */
  predicate BringsHash(step: Step) {
    match step
    case Reconcile(cp) => IsHash(cp.hash)
    case ApplyCheckpoint(_, checkpointId) => IsHash(checkpointId)
    case _ => true
  }

  lemma LockCheckpointIsHash(ledger: LedgerState, event: Event)
    requires ledger.finalCheckpoint.Some? ==> IsHash(ledger.finalCheckpoint.value.hash)
    ensures IsHash(LockCheckpointFor(ledger, event))
  {
    hide HashOf, HexText, IsHash;
    HexRoundTrip(HashOf([EventBytes(event)]));
  }

  lemma NextIdIsHash(l: LedgerState, txRoot: Hash, coord: SpacetimeCoord)
    ensures IsHash(NextCheckpoint(l, txRoot, coord).hash)
  {
    hide HexText, IsHash, CheckpointRoot, EventLogRoot;
    HexRoundTrip(NextCheckpoint(l, txRoot, coord).stateRoot);
  }

  lemma DomainPut(domains: map<Text, LedgerState>, d: Text, ledger: LedgerState)
    requires DomainsHashed(domains)
    requires ledger.finalCheckpoint.Some? ==> IsHash(ledger.finalCheckpoint.value.hash)
    ensures DomainsHashed(domains[d := ledger])
  {
    hide IsHash;
  }

  lemma ClaimPut(claims: map<Text, SettlementClaim>, id: Text, claim: SettlementClaim)
    requires ClaimsHashed(claims) && IsHash(claim.lockCheckpoint)
    ensures ClaimsHashed(claims[id := claim])
  {
    hide IsHash;
  }

  lemma FinalizeHashLocks(s: ClientState, d: Text, checkpointId: Text, txRoot: Hash, coord: SpacetimeCoord)
    requires HashLocks(s)
    ensures HashLocks(CheckpointFinalized(s, d, checkpointId, txRoot, coord).0)
  {
    hide IsHash, NextCheckpoint, ClaimsHashed;
    if d in s.domains {
      NextIdIsHash(s.domains[d], txRoot, coord);
      DomainPut(s.domains, d, Finalized(s.domains[d], checkpointId, txRoot, coord).0);
    }
  }

  lemma SubmitHashLocks(s: ClientState, d: Text, txId: Text, tx: Transaction)
    requires HashLocks(s)
    ensures HashLocks(TxSubmitted(s, d, txId, tx).0)
  {
    hide IsHash, EventOf, ClaimsHashed;
    if d in s.domains {
      DomainPut(s.domains, d, Submitted(s.domains[d], txId, tx).0);
    }
  }

  lemma ReconcileHashLocks(s: ClientState, cp: Checkpoint)
    requires HashLocks(s) && IsHash(cp.hash)
    ensures HashLocks(CheckpointReconciled(s, cp).0)
  {
    hide IsHash, Trusted, ClaimsHashed;
    if cp.domainId in s.domains {
      DomainPut(s.domains, cp.domainId, s.domains[cp.domainId].(finalCheckpoint := Some(cp)));
    }
  }

  lemma OpenHashLocks(s: ClientState, claim: SettlementClaim, event: Event)
    requires HashLocks(s) && claim.originDomain in s.domains
    requires claim.lockCheckpoint == LockCheckpointFor(s.domains[claim.originDomain], event)
    ensures HashLocks(Opened(s, claim))
  {
    hide IsHash, LockCheckpointFor;
    LockCheckpointIsHash(s.domains[claim.originDomain], event);
    ClaimPut(s.claims, claim.claimId, claim);
  }

  lemma LockHashLocks(s: ClientState, lock: Text, origin: Text, remote: Text, asset: Text, amount: U64,
                      coord: SpacetimeCoord, horizon: U64)
    requires HashLocks(s)
    ensures HashLocks(LockedForExport(s, lock, origin, remote, asset, amount, coord, horizon).0)
  {
    hide HashLocks, Opened, LockInUse, DependenciesKnown, GetEvent, LockClaimId, EventIds, LightconePossible,
         LockCheckpointFor;
    var r := LockedForExport(s, lock, origin, remote, asset, amount, coord, horizon).1;
    if r.Success? {
      OpenHashLocks(s, r.value, GetEvent(s.domains[origin].eventLog, lock).value);
    }
  }

  lemma CreateHashLocks(s: ClientState, claimId: Text, lock: Text, origin: Text, remote: Text, asset: Text, amount: U64)
    requires HashLocks(s)
    ensures HashLocks(SettlementClaimCreated(s, claimId, lock, origin, remote, asset, amount).0)
  {
    hide HashLocks, Opened, LockInUse, DependenciesKnown, GetEvent, IsBlank, EventIds, LockCheckpointFor;
    var r := SettlementClaimCreated(s, claimId, lock, origin, remote, asset, amount).1;
    if r.Success? {
      OpenHashLocks(s, r.value, GetEvent(s.domains[origin].eventLog, lock).value);
    }
  }

  lemma RestagedHashLocks(s: ClientState, id: Text, claim: SettlementClaim)
    requires HashLocks(s) && id in s.claims && claim.lockCheckpoint == s.claims[id].lockCheckpoint
    ensures HashLocks(s.(claims := s.claims[id := claim]))
  {
    hide IsHash;
  }

  lemma UpdateHashLocks(s: ClientState, id: Text, next: FinalityStage, risk: RiskLabel)
    requires HashLocks(s)
    ensures HashLocks(StatusUpdated(s, id, next, risk).0)
  {
    hide IsHash, Rank, ClaimsHashed;
    if id in s.claims {
      RestagedHashLocks(s, id, s.claims[id].(finality := next));
    }
  }

  lemma VerifyHashLocks(s: ClientState, id: Text)
    requires HashLocks(s)
    ensures HashLocks(ClaimVerified(s, id).0)
  {
    hide IsHash, ParseHash, VerifyCheckpointClaim, EvaluateCryptoRisk, CanGrantNewCredit, ClaimsHashed;
    var claims := ClaimVerified(s, id).0.claims;
    if id in s.claims {
      RestagedHashLocks(s, id, claims[id]);
    }
  }

  lemma CreditHashLocks(s: ClientState, id: Text, lineId: Text)
    requires HashLocks(s)
    ensures HashLocks(ClaimCredited(s, id, lineId).0)
  {
    hide HashLocks, ClaimCredited, StatusUpdated;
    if ClaimCredited(s, id, lineId).1.Success? {
      var staged, charged := CreditSteps(s, id, lineId);
      assert HashLocks(charged) by {
        RestagedHashLocks(s, id, staged);
        SameLocks(s.(claims := charged.claims), charged);
      }
      UpdateHashLocks(charged, id, FinalityStage.ProvisionallyCredited, staged.riskLabel);
    } else {
      FailedCredit(s, id, lineId);
    }
  }

  lemma SameLocks(a: ClientState, b: ClientState)
    requires HashLocks(a) && a.domains == b.domains && a.claims == b.claims
    ensures HashLocks(b)
  {
  }

  lemma StepHashLocks(s: ClientState, step: Step)
    requires HashLocks(s) && BringsHash(step)
    ensures HashLocks(Apply(s, step).0)
  {
    hide HashLocks, CheckpointFinalized, TxSubmitted, CheckpointReconciled, LockedForExport, SettlementClaimCreated,
         ClaimVerified, ClaimCredited, StatusUpdated, AnchorsApplied, AllReplayLogged, IsHash;
    match step {
      case AddDomain(d) => NewDomainHashLocks(s, d);
      case SubmitTx(d, id, tx) => SubmitHashLocks(s, d, id, tx);
      case FinalizeLocal(d, id, txRoot, coord) => FinalizeHashLocks(s, d, id, txRoot, coord);
      case Reconcile(cp) => ReconcileHashLocks(s, cp);
      case Lock(lock, origin, remote, asset, amount, coord, horizon) =>
        LockHashLocks(s, lock, origin, remote, asset, amount, coord, horizon);
      case Create(id, lock, origin, remote, asset, amount) =>
        CreateHashLocks(s, id, lock, origin, remote, asset, amount);
      case Verify(id) => VerifyHashLocks(s, id);
      case Accept(id, _) =>
        if id in s.claims { UpdateHashLocks(s, id, AcceptedByRemoteLedger, s.claims[id].riskLabel); }
      case Credit(id, line) => CreditHashLocks(s, id, line);
      case UpdateStatus(id, next, risk) => UpdateHashLocks(s, id, next, risk);
      case MarkSettled(id) => UpdateHashLocks(s, id, BilaterallySettled, Low);
      case ApplyCheckpoint(id, cp) => ApplyHashLocks(s, id, cp);
      case Resync(anchors, order) =>
        ReplayKeeps(s.(sync := AnchorsApplied(s.sync, Order.SortedSet(anchors)).0), order);
        SameLocks(s, Apply(s, step).0);
    }
  }

  lemma NewDomainHashLocks(s: ClientState, d: Text)
    requires HashLocks(s)
    ensures HashLocks(DomainAdded(s, d).0)
  {
    hide IsHash, ClaimsHashed;
    DomainPut(s.domains, d, NewLedger(d));
  }

  lemma ApplyHashLocks(s: ClientState, id: Text, checkpointId: Text)
    requires HashLocks(s) && IsHash(checkpointId)
    ensures HashLocks(CheckpointApplied(s, id, checkpointId).0)
  {
    hide IsHash;
  }

  /** As long as only hashes come in from outside, every claim's lock checkpoint is the hexadecimal form of a hash. */
  lemma {:induction false} RunHashLocks(s: ClientState, steps: seq<Step>)
    requires HashLocks(s) && forall step :: step in steps ==> BringsHash(step)
    ensures HashLocks(Run(s, steps))
  {
    hide HashLocks, BringsHash, Apply;
    if steps == [] {
    } else {
      var last := |steps| - 1;
      RunHashLocks(s, steps[..last]);
      StepHashLocks(Run(s, steps[..last]), steps[last]);
    }
  }

  /** In such a run verification gives every stored claim a decision, never an error. */
  lemma VerificationAlwaysDecides(s: ClientState, steps: seq<Step>, id: Text)
    requires HashLocks(s) && forall step :: step in steps ==> BringsHash(step)
    requires id in Run(s, steps).claims
    ensures ClaimVerified(Run(s, steps), id).1.Success?
  {
    RunHashLocks(s, steps);
    hide Run;
    assert ClaimsHashed(Run(s, steps).claims);
  }

  // ---------------------------------------------------------------- what a credit certifies

  /** The most years ahead a root may back credit in the built-in eras. */
  function LongestHorizon(root: Hash): U64 {
    if root[0] % 3 == 0 then 40 else 100
  }

  lemma CreditGate(s: ClientState, id: Text, lineId: Text)
    requires ClaimCredited(s, id, lineId).1.Success?
    ensures id in s.claims
    ensures var claim := s.claims[id];
            && IsHash(claim.lockCheckpoint)
            && claim.lightconeStatus != Invalid
            && claim.horizon <= s.policy.maxHorizonYears
            && GateGrants(s.registry, ParseHash(claim.lockCheckpoint).value, claim.horizon)
  {
    hide ParseHash, VerifyCheckpointClaim, EvaluateCryptoRisk, CanGrantNewCredit, StatusUpdated;
    var claim := s.claims[id];
    assert GateGrants(s.registry, DeriveClaimRoot(claim), claim.horizon);
    if !IsHash(claim.lockCheckpoint) {
      PlaceholderNeverGranted(s.registry, claim.horizon);
    }
  }

  /**
   * In any run of a new client whose policy keeps horizons below 2^63 years, a credit is only granted on a claim whose
   * lock checkpoint is a real hash and whose horizon is positive and within 40 or 100 years, by the root. Of the light
   * cone it says no more than the claim's status: one marked `Valid` is inside its cone, one marked `Unknown` need not
   * be, and `Invalid` is a mark no run gives.
   */
  lemma CreditCertifies(s: ClientState, steps: seq<Step>, id: Text, lineId: Text)
    requires Inv(s) && s.registry == DefaultRegistry() && s.policy.maxHorizonYears < TWO_63
    requires Apply(Run(s, steps), Credit(id, lineId)).1
    ensures id in Run(s, steps).claims
    ensures var claim := Run(s, steps).claims[id];
            && IsHash(claim.lockCheckpoint)
            && ParseHash(claim.lockCheckpoint).value != ZERO_HASH
            && claim.lightconeStatus != Invalid
            && (ValidInCone(s) && claim.lightconeStatus == LightconeStatus.Valid ==> InCone(Run(s, steps), claim))
            && 1 <= claim.horizon <= LongestHorizon(ParseHash(claim.lockCheckpoint).value)
            && claim.horizon <= s.policy.maxHorizonYears
  {
    RunEvolves(s, steps, 0, |steps|);
    assert steps[..|steps|] == steps && steps[..0] == [];
    assert Run(s, steps[..0]) == s;
    var before := Run(s, steps);
    if ValidInCone(s) {
      ValidMeansInCone(s, steps);
    }
    hide Run, ClaimCredited, GateGrants, DefaultRegistry, InCone;
    CreditGate(before, id, lineId);
    DefaultCreditHorizon(ParseHash(before.claims[id].lockCheckpoint).value, before.claims[id].horizon);
  }

  /**
   * Approval changes one claim's crypto status and risk, to the pair its era gives; refusal and error change
   * nothing.
   */
  lemma ApprovalExact(s: ClientState, id: Text)
    requires id in s.claims
    ensures var claim := s.claims[id];
            var (s', r) := ClaimVerified(s, id);
            && (r.Failure? <==> claim.horizon <= s.policy.maxHorizonYears && claim.lightconeStatus != Invalid
                                && |claim.lockCheckpoint| == 64 && !IsHash(claim.lockCheckpoint))
            && (Approved(r) <==> claim.horizon <= s.policy.maxHorizonYears && claim.lightconeStatus != Invalid
                                 && IsHash(claim.lockCheckpoint) && claim.finality != BilaterallySettled
                                 && GateGrants(s.registry, ParseHash(claim.lockCheckpoint).value, claim.horizon))
            && (!Approved(r) ==> s' == s)
            && (Approved(r) ==>
                  && s' == s.(claims := s.claims[id := claim.(cryptoStatus := s'.claims[id].cryptoStatus,
                                                              riskLabel := s'.claims[id].riskLabel)])
                  && (s'.claims[id].cryptoStatus, s'.claims[id].riskLabel)
                     in {(CryptoCurrent, Medium), (CryptoDeprecatedButRenewed, High)})
  {
    var claim := s.claims[id];
    if IsHash(claim.lockCheckpoint) && GateGrants(s.registry, ParseHash(claim.lockCheckpoint).value, claim.horizon) {
      GrantedStatus(s.registry, ParseHash(claim.lockCheckpoint).value, claim.horizon);
    }
    hide ParseHash, VerifyCheckpointClaim, EvaluateCryptoRisk, CanGrantNewCredit, IsHash;
  }
}
