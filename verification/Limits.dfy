/** How far the guarantees reach: conditions that cannot be dropped, with runs that show it. */
module Limits {
  import opened Prelude
  import opened Types
  import opened Hashing
  import opened Geometry
  import opened Causal
  import opened CryptoPolicy
  import opened Ledger
  import opened Client
  import opened Settlement
  import opened Sync
  import opened Invariants
  import opened Runs
  import opened Cones
  import opened Lifecycle

  // ---------------------------------------------------------------- whole final checkpoints

  function FinalAt(s: ClientState, steps: seq<Step>, i: nat, d: Text): Option<Checkpoint>
    requires i <= |steps|
  {
    var domains := Run(s, steps[..i]).domains;
    if d in domains then domains[d].finalCheckpoint else None
  }

  /** The step reconciles another checkpoint of the height and hash the domain's final one has. */
  predicate Swaps(final: Option<Checkpoint>, step: Step, d: Text) {
    && step.Reconcile? && step.checkpoint.domainId == d && final.Some?
    && step.checkpoint.height == final.value.height && step.checkpoint.hash == final.value.hash
    && step.checkpoint != final.value
  }

  lemma StepFinal(s: ClientState, step: Step, d: Text)
    requires Inv(s) && d in s.domains && s.domains[d].finalCheckpoint.Some?
    ensures var s', before := Apply(s, step).0, s.domains[d].finalCheckpoint;
            && d in s'.domains && s'.domains[d].finalCheckpoint.Some?
            && s'.domains[d].finalCheckpoint.value.height >= before.value.height
            && (s'.domains[d].finalCheckpoint.value.height == before.value.height ==>
                  (s'.domains[d].finalCheckpoint == before <==> !Swaps(before, step, d)))
  {
    hide Inv, DomainAdded, TxSubmitted, CheckpointFinalized, CheckpointReconciled, LockedForExport,
         SettlementClaimCreated, ClaimVerified, RemoteClaimAccepted, ClaimCredited, StatusUpdated, BilaterallyMarked,
         CheckpointApplied, Resynced;
    match step {
      case AddDomain(e) => AddDomainFinal(s, e, d);
      case SubmitTx(e, id, tx) => SubmitFinal(s, e, id, tx, d);
      case FinalizeLocal(e, id, txRoot, coord) => FinalizeFinal(s, e, id, txRoot, coord, d);
      case Reconcile(cp) => ReconcileFinal(s, cp, d);
      case _ =>
        hide Apply;
        OnlyLedgerSteps(s, step);
    }
  }

  lemma AddDomainFinal(s: ClientState, e: Text, d: Text)
    requires d in s.domains
    ensures var s' := DomainAdded(s, e).0; d in s'.domains && s'.domains[d] == s.domains[d]
  {
  }

  lemma SubmitFinal(s: ClientState, e: Text, txId: Text, tx: Transaction, d: Text)
    requires d in s.domains
    ensures var s' := TxSubmitted(s, e, txId, tx).0;
            d in s'.domains && s'.domains[d].finalCheckpoint == s.domains[d].finalCheckpoint
  {
    hide EventOf;
  }

  lemma FinalizeFinal(s: ClientState, e: Text, checkpointId: Text, txRoot: Hash, coord: SpacetimeCoord, d: Text)
    requires d in s.domains && s.domains[d].finalCheckpoint.Some?
    ensures var s', before := CheckpointFinalized(s, e, checkpointId, txRoot, coord).0, s.domains[d].finalCheckpoint;
            && d in s'.domains && s'.domains[d].finalCheckpoint.Some?
            && (s'.domains[d].finalCheckpoint == before
                || s'.domains[d].finalCheckpoint.value.height > before.value.height)
  {
    hide EventLogRoot, CheckpointRoot, HexText;
  }

  lemma ReconcileFinal(s: ClientState, cp: Checkpoint, d: Text)
    requires d in s.domains && s.domains[d].finalCheckpoint.Some?
    ensures var s', before := CheckpointReconciled(s, cp).0, s.domains[d].finalCheckpoint;
            && d in s'.domains
            && s'.domains[d].finalCheckpoint
               == if cp.domainId == d && (cp.height > before.value.height
                                          || (cp.height == before.value.height && cp.hash == before.value.hash))
                  then Some(cp) else before
  {
    hide Trusted;
  }

  lemma {:induction false} FinalStays(s: ClientState, steps: seq<Step>, d: Text, i: nat, j: nat)
    requires Inv(s) && i <= j <= |steps| && FinalAt(s, steps, i, d).Some?
    requires NeverSwapped(s, steps, d, i)
    ensures FinalAt(s, steps, j, d).Some?
    ensures FinalAt(s, steps, j, d).value.height >= FinalAt(s, steps, i, d).value.height
    ensures FinalAt(s, steps, j, d).value.height == FinalAt(s, steps, i, d).value.height
            ==> FinalAt(s, steps, j, d) == FinalAt(s, steps, i, d)
    decreases j
  {
    hide Inv, FinalAt, Swaps, Run, Apply;
    if i == j {
    } else {
      FinalStays(s, steps, d, i, j - 1);
      assert AtHeight(s, steps, j - 1, d, FinalAt(s, steps, j - 1, d).value.height);
      NextFinal(s, steps, d, j - 1);
    }
  }

  lemma NextFinal(s: ClientState, steps: seq<Step>, d: Text, k: nat)
    requires Inv(s) && k < |steps| && FinalAt(s, steps, k, d).Some?
    ensures var before, after := FinalAt(s, steps, k, d), FinalAt(s, steps, k + 1, d);
            && after.Some? && after.value.height >= before.value.height
            && (after.value.height == before.value.height ==> (after == before <==> !Swaps(before, steps[k], d)))
            && (Swaps(before, steps[k], d) ==> after.value.height == before.value.height)
  {
    hide Inv, Apply, Swaps;
    RunInv(s, steps[..k]);
    assert steps[..k + 1][..k] == steps[..k];
    assert Run(s, steps[..k + 1]) == Apply(Run(s, steps[..k]), steps[k]).0;
    hide Run;
    StepFinal(Run(s, steps[..k]), steps[k], d);
    SwapKeepsHeight(Run(s, steps[..k]), steps[k], d);
  }

  lemma SwapKeepsHeight(s: ClientState, step: Step, d: Text)
    requires d in s.domains
    ensures Swaps(s.domains[d].finalCheckpoint, step, d) ==>
              && d in Apply(s, step).0.domains
              && Apply(s, step).0.domains[d].finalCheckpoint == Some(step.checkpoint)
              && step.checkpoint.height == s.domains[d].finalCheckpoint.value.height
  {
  }

  /** As long as the domain's final checkpoint has the height it has at moment `i`, it is the same checkpoint. */
  ghost predicate KeptWhole(s: ClientState, steps: seq<Step>, d: Text, i: nat)
    requires i <= |steps| && FinalAt(s, steps, i, d).Some?
  {
    forall j :: i <= j <= |steps| && AtHeight(s, steps, j, d, FinalAt(s, steps, i, d).value.height)
                ==> FinalAt(s, steps, j, d) == FinalAt(s, steps, i, d)
  }

  ghost predicate AtHeight(s: ClientState, steps: seq<Step>, j: nat, d: Text, height: nat)
    requires j <= |steps|
  {
    FinalAt(s, steps, j, d).Some? && FinalAt(s, steps, j, d).value.height == height
  }

  /** From moment `i` on, as long as the height is what it is then, no step swaps the final checkpoint. */
  ghost predicate NeverSwapped(s: ClientState, steps: seq<Step>, d: Text, i: nat)
    requires i <= |steps| && FinalAt(s, steps, i, d).Some?
  {
    forall k :: i <= k < |steps| && AtHeight(s, steps, k, d, FinalAt(s, steps, i, d).value.height)
                ==> !Swaps(FinalAt(s, steps, k, d), steps[k], d)
  }

  /**
   * Only the hash of a final checkpoint is pinned to its height. The checkpoint as a whole is, exactly when no
   * reconciliation brings another one of that height under the same hash.
   */
  lemma WholeFinalExact(s: ClientState, steps: seq<Step>, d: Text, i: nat)
    requires Inv(s) && i <= |steps| && FinalAt(s, steps, i, d).Some?
    ensures KeptWhole(s, steps, d, i) <==> NeverSwapped(s, steps, d, i)
  {
    hide Inv, FinalAt, Swaps;
    var height := FinalAt(s, steps, i, d).value.height;
    if NeverSwapped(s, steps, d, i) {
      forall j | i <= j <= |steps| && AtHeight(s, steps, j, d, height)
        ensures FinalAt(s, steps, j, d) == FinalAt(s, steps, i, d)
      {
        FinalStays(s, steps, d, i, j);
      }
    } else {
      var k :| i <= k < |steps| && AtHeight(s, steps, k, d, height) && Swaps(FinalAt(s, steps, k, d), steps[k], d);
      NextFinal(s, steps, d, k);
      assert AtHeight(s, steps, k + 1, d, height);
    }
  }

  /** A checkpoint from outside, whose height and hash say nothing of its other roots. */
  function OutsideCheckpoint(d: Text, height: nat, hash: Text, txRoot: Hash): Checkpoint {
    Checkpoint(d, height, 1, None, ZERO_HASH, txRoot, ZERO_HASH, ZERO_HASH, ZERO_HASH, ZERO_HASH, ZERO_HASH, ZERO_HASH,
               AtOrigin(0, 0), 1, ZERO_HASH, hash)
  }

  /** Reconciling two checkpoints of one height and hash leaves the second one final, whatever else it says. */
  lemma SwappedFinal(s: ClientState, d: Text, height: nat, hash: Text, first: Hash, second: Hash)
    requires d in s.domains && s.domains[d].finalCheckpoint == None && first != second
    ensures var steps := [Reconcile(OutsideCheckpoint(d, height, hash, first)),
                          Reconcile(OutsideCheckpoint(d, height, hash, second))];
            && FinalAt(s, steps, 1, d) == Some(OutsideCheckpoint(d, height, hash, first))
            && FinalAt(s, steps, 2, d) == Some(OutsideCheckpoint(d, height, hash, second))
            && FinalAt(s, steps, 1, d) != FinalAt(s, steps, 2, d)
  {
    var a, b := OutsideCheckpoint(d, height, hash, first), OutsideCheckpoint(d, height, hash, second);
    var steps := [Reconcile(a), Reconcile(b)];
    assert a.txRoot != b.txRoot && a.height == b.height && a.hash == b.hash && a.domainId == b.domainId == d;
    hide Apply, OutsideCheckpoint;
    RunMore(s, [], Reconcile(a));
    RunMore(s, [Reconcile(a)], Reconcile(b));
    assert steps[..1] == [] + [Reconcile(a)] && steps[..2] == [Reconcile(a)] + [Reconcile(b)];
    hide Run;
    FirstReconciled(s, a);
    SwapKeepsHeight(Apply(s, Reconcile(a)).0, Reconcile(b), d);
  }

  lemma FirstReconciled(s: ClientState, cp: Checkpoint)
    requires cp.domainId in s.domains && s.domains[cp.domainId].finalCheckpoint == None
    ensures cp.domainId in Apply(s, Reconcile(cp)).0.domains
    ensures Apply(s, Reconcile(cp)).0.domains[cp.domainId].finalCheckpoint == Some(cp)
  {
    hide Trusted;
  }

  // ---------------------------------------------------------------- credit beyond every era

  /** A transaction in the domain `D`, and the claim locked on its event. */
  function OpeningTx(): Transaction {
    Transaction([68], Transfer, [], ZERO_HASH, AtOrigin(0, 0), [], [])
  }

  function OpenedId(): Text {
    LockClaimId([68], [], [], 1, EventIdOf([68], []))
  }

  function LongCreditRun(root: Hash): seq<Step> {
    [AddDomain([68]), SubmitTx([68], [], OpeningTx()),
     Lock(EventIdOf([68], []), [68], [], [], 1, AtOrigin(0, 0), TWO_63),
     ApplyCheckpoint(OpenedId(), HexText(root))]
  }

  lemma OpenedLedger(s: ClientState) returns (s': ClientState)
    requires s.domains == map[] && s.claims == map[]
    ensures s' == TxSubmitted(DomainAdded(s, [68]).0, [68], [], OpeningTx()).0
    ensures [68] in s'.domains && |s'.domains[[68]].eventLog| == 1
    ensures var event := s'.domains[[68]].eventLog[0];
            event.eventId == EventIdOf([68], []) && event.causalDependencies == [] && event.coord == AtOrigin(0, 0)
    ensures s'.claims == map[] && s'.lines == s.lines && s'.policy == s.policy && s'.registry == s.registry
  {
    AtOriginPlace(0, 0);
    hide EventIdOf, KindName;
    s' := TxSubmitted(DomainAdded(s, [68]).0, [68], [], OpeningTx()).0;
  }

  lemma OpenedClaim(s: ClientState, root: Hash) returns (s': ClientState)
    requires [68] in s.domains && |s.domains[[68]].eventLog| == 1 && s.claims == map[]
    requires var event := s.domains[[68]].eventLog[0];
             event.eventId == EventIdOf([68], []) && event.causalDependencies == []
    requires s.policy.maxHorizonYears >= TWO_63
    ensures var locked := LockedForExport(s, EventIdOf([68], []), [68], [], [], 1, AtOrigin(0, 0), TWO_63).0;
            s' == CheckpointApplied(locked, OpenedId(), HexText(root)).0
    ensures OpenedId() in s'.claims
    ensures var claim := s'.claims[OpenedId()];
            && claim.horizon == TWO_63 && claim.amount == 1 && claim.lockCheckpoint == HexText(root)
            && claim.lightconeStatus == Unknown && claim.finality == RemoteObserved
    ensures s'.lines == s.lines && s'.policy == s.policy && s'.registry == s.registry
  {
    hide LockClaimId, EventIdOf, LightconePossible, LockCheckpointFor, HexText;
    var log := s.domains[[68]].eventLog;
    assert GetEvent(log, EventIdOf([68], [])) == Some(log[0]);
    var locked := LockedForExport(s, EventIdOf([68], []), [68], [], [], 1, AtOrigin(0, 0), TWO_63).0;
    s' := CheckpointApplied(locked, OpenedId(), HexText(root)).0;
  }

  /** Verification of the root is all that stands between an observed claim and credit on a line with room. */
  lemma CreditedIfGranted(s: ClientState, id: Text, lineId: Text, root: Hash)
    requires id in s.claims && lineId in s.lines
    requires var claim := s.claims[id];
             && claim.lockCheckpoint == HexText(root) && claim.lightconeStatus != Invalid
             && claim.finality == RemoteObserved
             && claim.horizon <= s.policy.maxHorizonYears && GateGrants(s.registry, root, claim.horizon)
             && SaturatingAdd(s.lines[lineId].used, claim.amount) <= s.lines[lineId].limit
    ensures ClaimCredited(s, id, lineId).1.Success?
  {
    HexRoundTrip(root);
    hide HexText, ParseHash, VerifyCheckpointClaim, EvaluateCryptoRisk, CanGrantNewCredit, RiskLabelOrDefault;
  }

  lemma RunOfFour(s: ClientState, a: Step, b: Step, c: Step, d: Step)
    ensures Run(s, [a, b, c, d]) == Apply(Apply(Apply(Apply(s, a).0, b).0, c).0, d).0
  {
    hide Apply;
    RunOfThree(s, a, b, c);
    RunMore(s, [a, b, c], d);
    assert [a, b, c] + [d] == [a, b, c, d];
  }

  lemma LongRunSteps(s: ClientState, root: Hash)
    ensures var ready := TxSubmitted(DomainAdded(s, [68]).0, [68], [], OpeningTx()).0;
            var locked := LockedForExport(ready, EventIdOf([68], []), [68], [], [], 1, AtOrigin(0, 0), TWO_63).0;
            Run(s, LongCreditRun(root)) == CheckpointApplied(locked, OpenedId(), HexText(root)).0
  {
    hide Run, DomainAdded, TxSubmitted, LockedForExport, CheckpointApplied, OpeningTx, OpenedId, HexText, EventIdOf,
         AtOrigin;
    RunOfFour(s, AddDomain([68]), SubmitTx([68], [], OpeningTx()),
              Lock(EventIdOf([68], []), [68], [], [], 1, AtOrigin(0, 0), TWO_63),
              ApplyCheckpoint(OpenedId(), HexText(root)));
  }

  lemma LongRunClaim(policy: SettlementPolicy, sqrt: SquareRoot, root: Hash, lineId: Text)
    requires policy.maxHorizonYears >= TWO_63
    ensures var s := Run(Fresh(policy, sqrt, map[lineId := CreditLine(1, 0)]), LongCreditRun(root));
            && s.lines == map[lineId := CreditLine(1, 0)] && s.policy == policy && s.registry == DefaultRegistry()
            && OpenedId() in s.claims
            && var claim := s.claims[OpenedId()];
               && claim.horizon == TWO_63 && claim.amount == 1 && claim.lockCheckpoint == HexText(root)
               && claim.lightconeStatus == Unknown && claim.finality == RemoteObserved
  {
    var start := Fresh(policy, sqrt, map[lineId := CreditLine(1, 0)]);
    LongRunSteps(start, root);
    hide Run, DomainAdded, TxSubmitted, LockedForExport, CheckpointApplied, OpeningTx, OpenedId, HexText, EventIdOf,
         AtOrigin, DefaultRegistry, LongCreditRun;
    var ready := OpenedLedger(start);
    var s := OpenedClaim(ready, root);
  }

  /**
   * The bound on the policy in `CreditCertifies` is sharp: under any policy that allows 2^63 years a new client has a
   * run at whose end a claim with that horizon is credited.
   */
  lemma LongCreditGranted(policy: SettlementPolicy, sqrt: SquareRoot, root: Hash, lineId: Text)
    requires policy.maxHorizonYears >= TWO_63 && root != ZERO_HASH
    ensures var s := Run(Fresh(policy, sqrt, map[lineId := CreditLine(1, 0)]), LongCreditRun(root));
            && OpenedId() in s.claims && s.claims[OpenedId()].horizon == TWO_63 > LongestHorizon(root)
            && Apply(s, Credit(OpenedId(), lineId)).1
  {
    hide Run, Fresh, LongCreditRun, OpenedId, DefaultRegistry, HexText;
    LongRunClaim(policy, sqrt, root, lineId);
    LongClaimCredited(Run(Fresh(policy, sqrt, map[lineId := CreditLine(1, 0)]), LongCreditRun(root)), root, lineId);
  }

  lemma LongClaimCredited(s: ClientState, root: Hash, lineId: Text)
    requires root != ZERO_HASH && s.policy.maxHorizonYears >= TWO_63 && s.registry == DefaultRegistry()
    requires s.lines == map[lineId := CreditLine(1, 0)] && OpenedId() in s.claims
    requires var claim := s.claims[OpenedId()];
             && claim.horizon == TWO_63 && claim.amount == 1 && claim.lockCheckpoint == HexText(root)
             && claim.lightconeStatus == Unknown && claim.finality == RemoteObserved
    ensures Apply(s, Credit(OpenedId(), lineId)).1
  {
    hide HexText, GateGrants, DefaultRegistry, ClaimCredited, OpenedId;
    HugeHorizonGranted(root);
    CreditedIfGranted(s, OpenedId(), lineId, root);
  }

  // ---------------------------------------------------------------- credit outside the cone

  /** A claim on the event of time 0, locked for a coordinate of time -1, and given a checkpoint. */
  function OutsideRun(root: Hash): seq<Step> {
    [AddDomain([68]), SubmitTx([68], [], OpeningTx()),
     Lock(EventIdOf([68], []), [68], [], [], 1, AtOrigin(-1, -1), 5),
     ApplyCheckpoint(OpenedId(), HexText(root))]
  }

  lemma NoWayBack(sqrt: SquareRoot, speed: Speed)
    ensures !LightconePossible(sqrt, AtOrigin(0, 0), AtOrigin(-1, -1), speed)
  {
  }

  lemma OutsideRunSteps(s: ClientState, root: Hash)
    ensures var ready := TxSubmitted(DomainAdded(s, [68]).0, [68], [], OpeningTx()).0;
            var locked := LockedForExport(ready, EventIdOf([68], []), [68], [], [], 1, AtOrigin(-1, -1), 5).0;
            Run(s, OutsideRun(root)) == CheckpointApplied(locked, OpenedId(), HexText(root)).0
  {
    hide Run, DomainAdded, TxSubmitted, LockedForExport, CheckpointApplied, OpeningTx, OpenedId, HexText, EventIdOf,
         AtOrigin;
    RunOfFour(s, AddDomain([68]), SubmitTx([68], [], OpeningTx()),
              Lock(EventIdOf([68], []), [68], [], [], 1, AtOrigin(-1, -1), 5),
              ApplyCheckpoint(OpenedId(), HexText(root)));
  }

  lemma OutsideClaim(s: ClientState, root: Hash)
    requires [68] in s.domains && |s.domains[[68]].eventLog| == 1 && s.claims == map[]
    requires var event := s.domains[[68]].eventLog[0];
             event.eventId == EventIdOf([68], []) && event.causalDependencies == [] && event.coord == AtOrigin(0, 0)
    requires s.policy.maxHorizonYears >= 5
    ensures var locked := LockedForExport(s, EventIdOf([68], []), [68], [], [], 1, AtOrigin(-1, -1), 5).0;
            var s' := CheckpointApplied(locked, OpenedId(), HexText(root)).0;
            && OpenedId() in s'.claims
            && !InCone(s', s'.claims[OpenedId()])
            && s'.lines == s.lines && s'.policy == s.policy && s'.registry == s.registry
            && var claim := s'.claims[OpenedId()];
               && claim.horizon == 5 && claim.amount == 1 && claim.lockCheckpoint == HexText(root)
               && claim.lightconeStatus == Unknown && claim.finality == RemoteObserved
  {
    NoWayBack(s.sqrt, s.policy.lightconeSpeed);
    hide LockClaimId, EventIdOf, LightconePossible, LockCheckpointFor, HexText, AtOrigin;
    var log := s.domains[[68]].eventLog;
    assert GetEvent(log, EventIdOf([68], [])) == Some(log[0]);
  }

  /** The lock sees that light cannot get there, and the claim is credited all the same. */
  lemma CreditedOutsideCone(policy: SettlementPolicy, sqrt: SquareRoot, root: Hash, lineId: Text)
    requires policy.maxHorizonYears >= 5 && root != ZERO_HASH
    ensures var s := Run(Fresh(policy, sqrt, map[lineId := CreditLine(1, 0)]), OutsideRun(root));
            && OpenedId() in s.claims && !InCone(s, s.claims[OpenedId()])
            && Apply(s, Credit(OpenedId(), lineId)).1
  {
    var start := Fresh(policy, sqrt, map[lineId := CreditLine(1, 0)]);
    OutsideRunSteps(start, root);
    hide Run, DomainAdded, TxSubmitted, LockedForExport, CheckpointApplied, OpeningTx, OpenedId, HexText, EventIdOf,
         AtOrigin, DefaultRegistry, OutsideRun, InCone;
    var ready := OpenedLedger(start);
    OutsideClaim(ready, root);
    OutsideCredited(Run(start, OutsideRun(root)), root, lineId);
  }

  lemma OutsideCredited(s: ClientState, root: Hash, lineId: Text)
    requires root != ZERO_HASH && s.policy.maxHorizonYears >= 5 && s.registry == DefaultRegistry()
    requires s.lines == map[lineId := CreditLine(1, 0)] && OpenedId() in s.claims
    requires var claim := s.claims[OpenedId()];
             && claim.horizon == 5 && claim.amount == 1 && claim.lockCheckpoint == HexText(root)
             && claim.lightconeStatus == Unknown && claim.finality == RemoteObserved
    ensures Apply(s, Credit(OpenedId(), lineId)).1
  {
    hide HexText, GateGrants, DefaultRegistry, ClaimCredited, OpenedId;
    DefaultCreditHorizon(root, 5);
    CreditedIfGranted(s, OpenedId(), lineId, root);
  }
}
