/** Where the checkpoints that claims are accepted on come from. */
module Frontiers {
  import opened Prelude
  import opened Types
  import opened CryptoPolicy
  import opened Ledger
  import opened Client
  import opened Settlement
  import opened Order
  import opened Sync
  import opened Invariants
  import opened Runs

  /** The anchors before the first rejected one. */
  function Accepted(known: set<Text>, anchors: seq<Text>): seq<Text>
    decreases |anchors|
  {
    if anchors == [] || ParseTrustedAnchor(known, anchors[0]).Rejected? then []
    else [anchors[0]] + Accepted(known, anchors[1..])
  }

  ghost predicate Tells(heard: seq<(Text, Option<I64>)>, checkpointId: Text) {
    exists i :: 0 <= i < |heard| && heard[i].0 == checkpointId
  }

  /** The step brings the checkpoint to the domain from outside: as itself, or by an anchor. */
  ghost predicate Brings(s: ClientState, step: Step, d: Text, checkpointId: Text) {
    match step
    case Reconcile(cp) => cp.domainId == d && cp.hash == checkpointId && CheckpointReconciled(s, cp).1.Success?
    case Resync(anchors, _) => Tells(Heard(s.sync.Keys, d, Accepted(s.sync.Keys, SortedSet(anchors))), checkpointId)
    case _ => false
  }

  lemma {:induction false} AcceptedIsPrefix(known: set<Text>, anchors: seq<Text>, k: nat)
    requires k <= |anchors| && AllAccepted(known, anchors[..k])
    requires k < |anchors| ==> ParseTrustedAnchor(known, anchors[k]).Rejected?
    ensures Accepted(known, anchors) == anchors[..k]
    decreases |anchors|
  {
    hide ParseTrustedAnchor;
    if k == 0 {
    } else {
      assert anchors[..k][0] == anchors[0] && anchors[..k][1..] == anchors[1..][..k - 1];
      var rest := anchors[1..][..k - 1];
      forall i | 0 <= i < |rest| ensures !ParseTrustedAnchor(known, rest[i]).Rejected? {
        assert rest[i] == anchors[..k][i + 1];
      }
      AcceptedIsPrefix(known, anchors[1..], k - 1);
    }
  }

  lemma {:induction false} TrustedAllFrontier(st: SyncState, heard: seq<(Text, Option<I64>)>, checkpointId: Text)
    ensures checkpointId in TrustedAll(st, heard).frontier
       <==> checkpointId in st.frontier || Tells(heard, checkpointId)
    decreases |heard|
  {
    if heard == [] {
    } else {
      TrustedAllFrontier(Trusted(st, heard[0].0, heard[0].1), heard[1..], checkpointId);
      hide TrustedAll;
      assert Tells(heard, checkpointId) <==> heard[0].0 == checkpointId || Tells(heard[1..], checkpointId) by {
        if i :| 0 <= i < |heard| && heard[i].0 == checkpointId {
          assert i > 0 ==> heard[1..][i - 1] == heard[i];
        }
        if i :| 0 <= i < |heard[1..]| && heard[1..][i].0 == checkpointId {
          assert heard[i + 1] == heard[1..][i];
        }
      }
    }
  }

  lemma ResyncFrontier(s: ClientState, anchors: seq<Text>, order: seq<Text>, d: Text, checkpointId: Text)
    requires d in s.sync
    ensures var s' := Resynced(s, anchors, order).0;
            && s'.sync.Keys == s.sync.Keys
            && (checkpointId in s'.sync[d].frontier <==>
                checkpointId in s.sync[d].frontier || Brings(s, Resync(anchors, order), d, checkpointId))
  {
    var unique, known := SortedSet(anchors), s.sync.Keys;
    var k := AnchorsUpToRejected(s.sync, unique);
    AcceptedIsPrefix(known, unique, k);
    ReplayKeeps(s.(sync := AnchorsApplied(s.sync, unique).0), order);
    hide AnchorsApplied, AllReplayLogged, SortedSet, ParseTrustedAnchor, Heard, Accepted, AllAccepted, TrustedAll,
         Tells;
    TrustedAllFrontier(s.sync[d], Heard(known, d, unique[..k]), checkpointId);
  }

  lemma ReconcileFrontier(s: ClientState, cp: Checkpoint, d: Text, checkpointId: Text)
    requires d in s.sync
    ensures var s' := CheckpointReconciled(s, cp).0;
            && s'.sync.Keys == s.sync.Keys
            && (checkpointId in s'.sync[d].frontier <==>
                checkpointId in s.sync[d].frontier || Brings(s, Reconcile(cp), d, checkpointId))
  {
  }

  lemma OnlySyncSteps(s: ClientState, step: Step)
    requires !step.AddDomain? && !step.Reconcile? && !step.Resync?
    ensures Apply(s, step).0.sync == s.sync
  {
    hide ClaimVerified, ClaimCredited, StatusUpdated, LockedForExport, SettlementClaimCreated, Submitted, Finalized;
    match step {
      case Credit(id, line) => CreditLeavesSync(s, id, line);
      case Verify(id) => VerifyLeavesSync(s, id);
      case Lock(lock, origin, remote, asset, amount, coord, horizon) =>
        LockLeavesSync(s, lock, origin, remote, asset, amount, coord, horizon);
      case Create(id, lock, origin, remote, asset, amount) =>
        CreateLeavesSync(s, id, lock, origin, remote, asset, amount);
      case Accept(id, _) =>
        if id in s.claims { UpdateLeavesSync(s, id, AcceptedByRemoteLedger, s.claims[id].riskLabel); }
      case UpdateStatus(id, next, risk) => UpdateLeavesSync(s, id, next, risk);
      case MarkSettled(id) => UpdateLeavesSync(s, id, BilaterallySettled, Low);
      case _ =>
    }
  }

  lemma UpdateLeavesSync(s: ClientState, id: Text, next: FinalityStage, risk: RiskLabel)
    ensures StatusUpdated(s, id, next, risk).0.sync == s.sync
  {
  }

  lemma CreditLeavesSync(s: ClientState, id: Text, lineId: Text)
    ensures ClaimCredited(s, id, lineId).0.sync == s.sync
  {
    hide ClaimCredited, StatusUpdated;
    if ClaimCredited(s, id, lineId).1.Success? {
      var staged, charged := CreditSteps(s, id, lineId);
      UpdateLeavesSync(charged, id, ProvisionallyCredited, staged.riskLabel);
    } else {
      FailedCredit(s, id, lineId);
    }
  }

  lemma VerifyLeavesSync(s: ClientState, id: Text)
    ensures ClaimVerified(s, id).0.sync == s.sync
  {
  }

  lemma LockLeavesSync(s: ClientState, lock: Text, origin: Text, remote: Text, asset: Text, amount: U64,
                       coord: SpacetimeCoord, horizon: U64)
    ensures LockedForExport(s, lock, origin, remote, asset, amount, coord, horizon).0.sync == s.sync
  {
    hide LockClaim, LockInUse, LockClaimId, GetEvent, EventIds;
  }

  lemma CreateLeavesSync(s: ClientState, claimId: Text, lock: Text, origin: Text, remote: Text, asset: Text,
                         amount: U64)
    ensures SettlementClaimCreated(s, claimId, lock, origin, remote, asset, amount).0.sync == s.sync
  {
    hide ExplicitClaim, LockInUse, IsBlank, GetEvent, EventIds;
  }

  /** After a step a checkpoint is in a domain's frontier exactly when it was before, or the step brought it. */
  lemma FrontierStep(s: ClientState, step: Step, d: Text, checkpointId: Text)
    requires Inv(s) && d in s.sync
    ensures d in Apply(s, step).0.sync
    ensures checkpointId in Apply(s, step).0.sync[d].frontier <==>
            checkpointId in s.sync[d].frontier || Brings(s, step, d, checkpointId)
  {
    hide Inv, Apply, DomainAdded, CheckpointReconciled, Resynced, Tells, Heard, Accepted;
    SameDomains(s);
    OutsideSteps(s, step);
    if step.AddDomain? {
      AddDomainFrontier(s, step.domain, d);
    } else if step.Reconcile? {
      ReconcileFrontier(s, step.checkpoint, d, checkpointId);
    } else if step.Resync? {
      ResyncFrontier(s, step.anchors, step.order, d, checkpointId);
    } else {
      OnlySyncSteps(s, step);
    }
  }

  lemma OutsideSteps(s: ClientState, step: Step)
    ensures step.AddDomain? ==> Apply(s, step).0 == DomainAdded(s, step.domain).0
    ensures step.Reconcile? ==> Apply(s, step).0 == CheckpointReconciled(s, step.checkpoint).0
    ensures step.Resync? ==> Apply(s, step).0 == Resynced(s, step.anchors, step.order).0
  {
    hide DomainAdded, CheckpointReconciled, Resynced;
  }

  lemma AddDomainFrontier(s: ClientState, e: Text, d: Text)
    requires d in s.sync && s.sync.Keys == s.domains.Keys
    ensures var s' := DomainAdded(s, e).0; d in s'.sync && s'.sync[d] == s.sync[d]
  {
  }

  /** A domain that a step adds starts with an empty frontier. */
  lemma NewFrontier(s: ClientState, step: Step, d: Text)
    requires d !in s.sync && d in Apply(s, step).0.sync
    ensures Apply(s, step).0.sync[d].frontier == []
  {
    hide AnchorsApplied, AllReplayLogged, Trusted;
    match step {
      case AddDomain(e) =>
      case Reconcile(cp) =>
      case Resync(anchors, order) =>
        var unique := SortedSet(anchors);
        AnchorsKeepDomains(s.sync, unique);
        ReplayKeeps(s.(sync := AnchorsApplied(s.sync, unique).0), order);
      case _ =>
        hide Apply;
        OnlySyncSteps(s, step);
    }
  }

  /** In the run of a client that starts without domains, every checkpoint in a frontier was brought there by a step. */
  lemma {:induction false} FrontierHasCause(s: ClientState, steps: seq<Step>, d: Text, checkpointId: Text)
    returns (i: nat)
    requires Inv(s) && s.sync == map[]
    requires d in Run(s, steps).sync && checkpointId in Run(s, steps).sync[d].frontier
    ensures i < |steps| && Brings(Run(s, steps[..i]), steps[i], d, checkpointId)
  {
    hide Inv, Apply, Brings;
    assert steps != [];
    var last := |steps| - 1;
    var before := Run(s, steps[..last]);
    RunInv(s, steps[..last]);
    assert d in before.sync by {
      if d !in before.sync {
        NewFrontier(before, steps[last], d);
      }
    }
    FrontierStep(before, steps[last], d, checkpointId);
    if checkpointId in before.sync[d].frontier {
      i := FrontierHasCause(s, steps[..last], d, checkpointId);
      assert steps[..last][..i] == steps[..i];
    } else {
      i := last;
    }
  }

  /** A claim is only moved by acceptance on a checkpoint that was brought to its origin's frontier before. */
  lemma AcceptanceHasCause(s: ClientState, steps: seq<Step>, id: Text, checkpointId: Text) returns (i: nat)
    requires Inv(s) && s.sync == map[]
    requires var before := Run(s, steps);
             && Apply(before, Accept(id, checkpointId)).1
             && id in before.claims && before.claims[id].finality != AcceptedByRemoteLedger
    ensures i < |steps| && Brings(Run(s, steps[..i]), steps[i], Run(s, steps).claims[id].originDomain, checkpointId)
  {
    hide Inv, Brings, Run;
    RunInv(s, steps);
    AcceptedOnFrontier(Run(s, steps), id, checkpointId);
    i := FrontierHasCause(s, steps, Run(s, steps).claims[id].originDomain, checkpointId);
  }

  lemma AcceptedOnFrontier(s: ClientState, id: Text, checkpointId: Text)
    requires Inv(s) && Apply(s, Accept(id, checkpointId)).1
    requires id in s.claims && s.claims[id].finality != AcceptedByRemoteLedger
    ensures s.claims[id].originDomain in s.sync
    ensures checkpointId in s.sync[s.claims[id].originDomain].frontier
  {
    hide DomainsInv, ClaimsInv, LockExclusive, StatusInv;
    assert SyncInv(s.sync[s.claims[id].originDomain]);
  }
}
