/** What the light-cone status of a claim is worth over a run. */
module Cones {
  import opened Prelude
  import opened Types
  import opened Causal
  import opened CryptoPolicy
  import opened Ledger
  import opened Client
  import opened Settlement
  import opened Sync
  import opened Invariants
  import opened Runs

  /** Light can get from the claim's lock event to the coordinate it was locked for. */
  ghost predicate InCone(s: ClientState, claim: SettlementClaim) {
    && claim.originDomain in s.domains
    && var found := GetEvent(s.domains[claim.originDomain].eventLog, claim.lockEventId);
       found.Some? && LightconePossible(s.sqrt, found.value.coord, claim.lockCoord, s.policy.lightconeSpeed)
  }

  ghost predicate NoInvalid(claims: map<Text, SettlementClaim>) {
    forall id :: id in claims ==> claims[id].lightconeStatus != Invalid
  }

  /** A claim marked `Valid` is inside its cone. */
  ghost predicate ValidInCone(s: ClientState) {
    forall id :: id in s.claims && s.claims[id].lightconeStatus == LightconeStatus.Valid ==> InCone(s, s.claims[id])
  }

  // ---------------------------------------------------------------- how the status moves

  /** The claim `id` keeps its status, or loses it to `Unknown`. */
  ghost predicate StatusKept(a: map<Text, SettlementClaim>, b: map<Text, SettlementClaim>, id: Text) {
    id in a && id in b ==> b[id].lightconeStatus == a[id].lightconeStatus || b[id].lightconeStatus == Unknown
  }

  lemma UpdateStatusKept(s: ClientState, claimId: Text, next: FinalityStage, risk: RiskLabel, id: Text)
    ensures var s' := StatusUpdated(s, claimId, next, risk).0;
            StatusKept(s.claims, s'.claims, id) && (id in s'.claims <==> id in s.claims)
  {
    hide StatusUpdated;
    UpdateShape(s, claimId, next, risk);
  }

  lemma VerifyStatusKept(s: ClientState, claimId: Text, id: Text)
    ensures var s' := ClaimVerified(s, claimId).0;
            StatusKept(s.claims, s'.claims, id) && (id in s'.claims <==> id in s.claims)
  {
    hide ClaimVerified;
    VerifyShape(s, claimId);
  }

  lemma CreditStatusKept(s: ClientState, claimId: Text, lineId: Text, id: Text)
    ensures var s' := ClaimCredited(s, claimId, lineId).0;
            StatusKept(s.claims, s'.claims, id) && (id in s'.claims <==> id in s.claims)
  {
    hide ClaimCredited, StatusUpdated;
    if ClaimCredited(s, claimId, lineId).1.Success? {
      var staged, charged := CreditSteps(s, claimId, lineId);
      UpdateStatusKept(charged, claimId, ProvisionallyCredited, staged.riskLabel, id);
    } else {
      FailedCredit(s, claimId, lineId);
    }
  }

  /** A claim is opened with a status that its cone bears out, and never as `Invalid`. */
  lemma LockStatus(s: ClientState, lock: Text, origin: Text, remote: Text, asset: Text, amount: U64,
                   coord: SpacetimeCoord, horizon: U64, id: Text)
    ensures var (s', r) := LockedForExport(s, lock, origin, remote, asset, amount, coord, horizon);
            && s'.domains == s.domains && s'.sqrt == s.sqrt && s'.policy == s.policy
            && StatusKept(s.claims, s'.claims, id)
            && (id in s'.claims && id !in s.claims ==>
                  && r.Success? && s'.claims[id] == r.value
                  && r.value.originDomain == origin && r.value.lockEventId == lock && r.value.lockCoord == coord
                  && r.value.lightconeStatus == if InCone(s, r.value) then LightconeStatus.Valid else Unknown)
  {
    hide LockInUse, DependenciesKnown, GetEvent, LockClaimId, EventIds, LightconePossible, LockCheckpointFor;
  }

  lemma CreateStatus(s: ClientState, claimId: Text, lock: Text, origin: Text, remote: Text, asset: Text, amount: U64,
                     id: Text)
    ensures var (s', r) := SettlementClaimCreated(s, claimId, lock, origin, remote, asset, amount);
            && s'.domains == s.domains
            && StatusKept(s.claims, s'.claims, id)
            && (id in s'.claims && id !in s.claims ==> s'.claims[id].lightconeStatus == Unknown)
  {
    hide LockInUse, DependenciesKnown, GetEvent, IsBlank, EventIds, LockCheckpointFor;
  }

  /** A new claim's status is borne out by its cone. */
  ghost predicate OpenedWell(a: ClientState, b: ClientState, id: Text) {
    id in b.claims && id !in a.claims ==>
      || b.claims[id].lightconeStatus == Unknown
      || (b.claims[id].lightconeStatus == LightconeStatus.Valid && InCone(b, b.claims[id]))
  }

  predicate LeavesClaims(step: Step) {
    step.AddDomain? || step.SubmitTx? || step.FinalizeLocal? || step.Reconcile? || step.Resync?
  }

  lemma ClaimsLeft(s: ClientState, step: Step)
    requires LeavesClaims(step)
    ensures Apply(s, step).0.claims == s.claims
  {
    hide AnchorsApplied, AllReplayLogged, Submitted, Finalized, Trusted;
    if step.Resync? {
      ReplayKeeps(s.(sync := AnchorsApplied(s.sync, Order.SortedSet(step.anchors)).0), step.order);
    }
  }

  lemma StepStatus(s: ClientState, step: Step, id: Text)
    ensures var s' := Apply(s, step).0; StatusKept(s.claims, s'.claims, id) && OpenedWell(s, s', id)
  {
    if LeavesClaims(step) {
      hide Apply;
      ClaimsLeft(s, step);
    } else {
      ClaimStepStatus(s, step, id);
    }
  }

  lemma ClaimStepStatus(s: ClientState, step: Step, id: Text)
    requires !LeavesClaims(step)
    ensures var s' := Apply(s, step).0; StatusKept(s.claims, s'.claims, id) && OpenedWell(s, s', id)
  {
    hide LockedForExport, SettlementClaimCreated, ClaimVerified, ClaimCredited, StatusUpdated, GetEvent,
         LightconePossible;
    match step {
      case Lock(lock, origin, remote, asset, amount, coord, horizon) =>
        LockStatus(s, lock, origin, remote, asset, amount, coord, horizon, id);
      case Create(claimId, lock, origin, remote, asset, amount) =>
        CreateStatus(s, claimId, lock, origin, remote, asset, amount, id);
      case Verify(claimId) => VerifyStatusKept(s, claimId, id);
      case Accept(claimId, _) =>
        if claimId in s.claims {
          UpdateStatusKept(s, claimId, AcceptedByRemoteLedger, s.claims[claimId].riskLabel, id);
        }
      case Credit(claimId, line) => CreditStatusKept(s, claimId, line, id);
      case UpdateStatus(claimId, next, risk) => UpdateStatusKept(s, claimId, next, risk, id);
      case MarkSettled(claimId) => UpdateStatusKept(s, claimId, BilaterallySettled, Low, id);
      case ApplyCheckpoint(_, _) =>
    }
  }

  // ---------------------------------------------------------------- over a run

  /** No operation ever marks a claim `Invalid`, so the checks for it never refuse one. */
  lemma {:induction false} NeverInvalid(s: ClientState, steps: seq<Step>)
    requires NoInvalid(s.claims)
    ensures NoInvalid(Run(s, steps).claims)
  {
    if steps == [] {
    } else {
      var last := |steps| - 1;
      var before := Run(s, steps[..last]);
      NeverInvalid(s, steps[..last]);
      var s' := Apply(before, steps[last]).0;
      hide Apply, Run, InCone;
      forall id | id in s'.claims ensures s'.claims[id].lightconeStatus != Invalid {
        StepStatus(before, steps[last], id);
      }
    }
  }

  /** A claim is inside its cone for good or outside it for good. */
  lemma ConeNeverMoves(a: ClientState, b: ClientState, id: Text)
    requires Inv(a) && Evolves(a, b) && id in a.claims
    ensures id in b.claims && (InCone(b, b.claims[id]) <==> InCone(a, a.claims[id]))
  {
    hide SyncsInv, LockExclusive, StatusInv, DomainsInv, SyncsEvolve, LinesEvolve, DependenciesKnown,
         LightconePossible, GetEvent;
    var claim := a.claims[id];
    assert Grounded(claim, a.domains) && ClaimLe(claim, b.claims[id]);
    var origin := claim.originDomain;
    assert LedgerLe(a.domains[origin], b.domains[origin]);
    GetEventExtends(a.domains[origin].eventLog, b.domains[origin].eventLog, claim.lockEventId);
  }

  /** In every run a claim marked `Valid` is inside its cone. */
  lemma {:induction false} ValidMeansInCone(s: ClientState, steps: seq<Step>)
    requires Inv(s) && ValidInCone(s)
    ensures ValidInCone(Run(s, steps))
  {
    hide Inv, Evolves, Apply, InCone;
    if steps == [] {
    } else {
      var last := |steps| - 1;
      var before := Run(s, steps[..last]);
      ValidMeansInCone(s, steps[..last]);
      RunInv(s, steps[..last]);
      StepKeeps(before, steps[last]);
      var s' := Apply(before, steps[last]).0;
      hide Run;
      forall id | id in s'.claims && s'.claims[id].lightconeStatus == LightconeStatus.Valid
        ensures InCone(s', s'.claims[id])
      {
        StepStatus(before, steps[last], id);
        if id in before.claims {
          ConeNeverMoves(before, s', id);
        }
      }
    }
  }

  /**
   * A claim that was locked for a coordinate is inside its cone, in every later state of the run, exactly when light
   * could get from the lock event to that coordinate at the lock. Crediting the claim does not ask.
   */
  lemma LockedConeExact(s: ClientState, steps: seq<Step>, i: nat, j: nat)
    requires Inv(s) && i < j <= |steps| && steps[i].Lock? && Apply(Run(s, steps[..i]), steps[i]).1
    ensures var step, before := steps[i], Run(s, steps[..i]);
            var id := LockClaimId(step.origin, step.remote, step.asset, step.amount, step.lockEventId);
            && id in Run(s, steps[..j]).claims
            && step.origin in before.domains
            && var found := GetEvent(before.domains[step.origin].eventLog, step.lockEventId);
               && found.Some?
               && (InCone(Run(s, steps[..j]), Run(s, steps[..j]).claims[id]) <==>
                   LightconePossible(s.sqrt, found.value.coord, step.lockCoord, s.policy.lightconeSpeed))
  {
    hide Inv, Evolves, Apply, InCone, LockClaimId, GetEvent, LightconePossible;
    var before, step := Run(s, steps[..i]), steps[i];
    RunInv(s, steps[..i]);
    RunInv(s, steps[..i + 1]);
    RunEvolves(s, steps, 0, i);
    RunEvolves(s, steps, i + 1, j);
    assert steps[..0] == [] && steps[..i + 1][..i] == steps[..i];
    assert Run(s, []) == s;
    assert Run(s, steps[..i + 1]) == Apply(before, step).0;
    hide Run;
    SamePlatform(s, before);
    LockedCone(before, step);
    var id := LockClaimId(step.origin, step.remote, step.asset, step.amount, step.lockEventId);
    ConeNeverMoves(Apply(before, step).0, Run(s, steps[..j]), id);
  }

  lemma SamePlatform(a: ClientState, b: ClientState)
    requires Evolves(a, b)
    ensures a.sqrt == b.sqrt && a.policy == b.policy
  {
  }

  lemma LockedCone(s: ClientState, step: Step)
    requires step.Lock? && Apply(s, step).1
    ensures var id := LockClaimId(step.origin, step.remote, step.asset, step.amount, step.lockEventId);
            var s' := Apply(s, step).0;
            && id in s'.claims
            && step.origin in s.domains
            && var found := GetEvent(s.domains[step.origin].eventLog, step.lockEventId);
               && found.Some?
               && (InCone(s', s'.claims[id]) <==>
                   LightconePossible(s.sqrt, found.value.coord, step.lockCoord, s.policy.lightconeSpeed))
  {
    hide LockInUse, DependenciesKnown, GetEvent, LockClaimId, EventIds, LightconePossible, LockCheckpointFor;
  }
}
