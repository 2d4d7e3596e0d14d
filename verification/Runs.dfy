/** Whole runs of a client: any sequence of its operations, with any arguments, from any sound state. */
module Runs {
  import opened Prelude
  import opened Types
  import opened Geometry
  import opened Causal
  import opened CryptoPolicy
  import opened Ledger
  import opened Client
  import opened Settlement
  import opened Sync
  import opened Invariants

  datatype Step =
    | AddDomain(domain: Text)
    | SubmitTx(domain: Text, txId: Text, tx: Transaction)
    | FinalizeLocal(domain: Text, checkpointId: Text, txRoot: Hash, coord: SpacetimeCoord)
    | Lock(lockEventId: Text, origin: Text, remote: Text, asset: Text, amount: U64,
           lockCoord: SpacetimeCoord, horizon: U64)
    | Create(claimId: Text, lockEventId: Text, origin: Text, remote: Text, asset: Text, amount: U64)
    | Verify(claimId: Text)
    | Accept(claimId: Text, checkpointId: Text)
    | Credit(claimId: Text, lineId: Text)
    | UpdateStatus(claimId: Text, next: FinalityStage, risk: RiskLabel)
    | MarkSettled(claimId: Text)
    | ApplyCheckpoint(claimId: Text, checkpointId: Text)
    | Reconcile(checkpoint: Checkpoint)
    | Resync(anchors: seq<Text>, order: seq<Text>)

  /** The state a step leads to, and whether it reports success. */
  function Apply(s: ClientState, step: Step): (ClientState, bool) {
    match step
    case AddDomain(d) => var (s', r) := DomainAdded(s, d); (s', r.Success?)
    case SubmitTx(d, id, tx) => var (s', r) := TxSubmitted(s, d, id, tx); (s', r.Success?)
    case FinalizeLocal(d, id, txRoot, coord) =>
      var (s', r) := CheckpointFinalized(s, d, id, txRoot, coord); (s', r.Success?)
    case Lock(lock, origin, remote, asset, amount, coord, horizon) =>
      var (s', r) := LockedForExport(s, lock, origin, remote, asset, amount, coord, horizon); (s', r.Success?)
    case Create(id, lock, origin, remote, asset, amount) =>
      var (s', r) := SettlementClaimCreated(s, id, lock, origin, remote, asset, amount); (s', r.Success?)
    case Verify(id) => var (s', r) := ClaimVerified(s, id); (s', r.Success?)
    case Accept(id, cp) => var (s', r) := RemoteClaimAccepted(s, id, cp); (s', r.Success?)
    case Credit(id, line) => var (s', r) := ClaimCredited(s, id, line); (s', r.Success?)
    case UpdateStatus(id, next, risk) => var (s', r) := StatusUpdated(s, id, next, risk); (s', r.Success?)
    case MarkSettled(id) => var (s', r) := BilaterallyMarked(s, id); (s', r.Success?)
    case ApplyCheckpoint(id, cp) => var (s', r) := CheckpointApplied(s, id, cp); (s', r.Success?)
    case Reconcile(cp) => var (s', r) := CheckpointReconciled(s, cp); (s', r.Success?)
    case Resync(anchors, order) => var (s', r) := Resynced(s, anchors, order); (s', r.Success?)
  }

  function Run(s: ClientState, steps: seq<Step>): ClientState {
    if steps == [] then s else
    var last := |steps| - 1;
    Apply(Run(s, steps[..last]), steps[last]).0
  }

  lemma RunOfThree(s: ClientState, a: Step, b: Step, c: Step)
    ensures Run(s, [a, b, c]) == Apply(Apply(Apply(s, a).0, b).0, c).0
  {
    hide Apply;
    RunMore(s, [], a);
    RunMore(s, [a], b);
    RunMore(s, [a, b], c);
    assert [] + [a] == [a] && [a] + [b] == [a, b] && [a, b] + [c] == [a, b, c];
  }

  lemma RunMore(s: ClientState, steps: seq<Step>, step: Step)
    ensures Run(s, steps + [step]) == Apply(Run(s, steps), step).0
  {
    assert (steps + [step])[..|steps|] == steps;
  }

  /** A new client, with the given credit lines. */
  function Fresh(policy: SettlementPolicy, sqrt: SquareRoot, lines: map<Text, CreditLine>): ClientState {
    ClientState(policy, sqrt, DefaultRegistry(), map[], map[], map[], lines, map[], map[], [])
  }

  lemma FreshInv(policy: SettlementPolicy, sqrt: SquareRoot, lines: map<Text, CreditLine>)
    ensures Inv(Fresh(policy, sqrt, lines))
  {
    assert Finalities(map[]) == map[];
  }

  /** Every step keeps the invariant, and only lets the state evolve. */
  lemma StepKeeps(s: ClientState, step: Step)
    requires Inv(s)
    ensures Inv(Apply(s, step).0) && Evolves(s, Apply(s, step).0)
  {
    hide Inv, Evolves, DomainAdded, TxSubmitted, CheckpointFinalized, LockedForExport, SettlementClaimCreated,
         ClaimVerified, RemoteClaimAccepted, ClaimCredited, StatusUpdated, BilaterallyMarked, CheckpointApplied,
         CheckpointReconciled, Resynced;
    match step {
      case AddDomain(d) => AddDomainKeeps(s, d);
      case SubmitTx(d, id, tx) => SubmitKeeps(s, d, id, tx);
      case FinalizeLocal(d, id, txRoot, coord) => FinalizeKeeps(s, d, id, txRoot, coord);
      case Lock(lock, origin, remote, asset, amount, coord, horizon) =>
        LockKeeps(s, lock, origin, remote, asset, amount, coord, horizon);
      case Create(id, lock, origin, remote, asset, amount) => CreateKeeps(s, id, lock, origin, remote, asset, amount);
      case Verify(id) => VerifyKeeps(s, id);
      case Accept(id, cp) => AcceptKeeps(s, id, cp);
      case Credit(id, line) => CreditKeeps(s, id, line);
      case UpdateStatus(id, next, risk) => UpdateKeeps(s, id, next, risk);
      case MarkSettled(id) => MarkKeeps(s, id);
      case ApplyCheckpoint(id, cp) => ApplyCheckpointKeeps(s, id, cp);
      case Reconcile(cp) => ReconcileKeeps(s, cp);
      case Resync(anchors, order) => ResyncKeeps(s, anchors, order);
    }
  }

  /** Every state a run reaches is sound. */
  lemma {:induction false} RunInv(s: ClientState, steps: seq<Step>)
    requires Inv(s)
    ensures Inv(Run(s, steps))
  {
    hide Inv, Apply;
    if steps == [] {
    } else {
      var last := |steps| - 1;
      RunInv(s, steps[..last]);
      StepKeeps(Run(s, steps[..last]), steps[last]);
    }
  }

  /** Between any two moments of a run the state only evolves. */
  lemma {:induction false} RunEvolves(s: ClientState, steps: seq<Step>, i: nat, j: nat)
    requires Inv(s) && i <= j <= |steps|
    ensures Evolves(Run(s, steps[..i]), Run(s, steps[..j]))
    decreases j
  {
    hide Inv, Evolves, Apply;
    if i == j {
      EvolvesReflexive(Run(s, steps[..i]));
    } else {
      RunEvolves(s, steps, i, j - 1);
      RunInv(s, steps[..j - 1]);
      assert steps[..j][..j - 1] == steps[..j - 1];
      StepKeeps(Run(s, steps[..j - 1]), steps[j - 1]);
      EvolvesTransitive(Run(s, steps[..i]), Run(s, steps[..j - 1]), Run(s, steps[..j]));
    }
  }

  /**
   * The log is the claims' full history: numbered without gaps, only ever appended to, and played back it gives
   * every stage.
   */
  lemma LogTellsAll(s: ClientState, steps: seq<Step>, i: nat)
    requires Inv(s) && i <= |steps|
    ensures var earlier, later := Run(s, steps[..i]), Run(s, steps);
            && earlier.log <= later.log
            && Faithful(later.log)
            && (forall n :: 0 <= n < |later.log| ==> later.log[n].transitionId == n + 1)
            && later.claimStatus.Keys == later.claims.Keys == Replay(later.log).Keys
            && (forall id :: id in later.claims ==>
                  later.claims[id].finality == later.claimStatus[id] == Replay(later.log)[id])
  {
    RunInv(s, steps);
    RunEvolves(s, steps, i, |steps|);
    assert steps[..|steps|] == steps;
    hide Run, DomainsInv, SyncsInv, ClaimsInv, LockExclusive, DomainsEvolve, SyncsEvolve, ClaimsEvolve, LinesEvolve;
    var later := Run(s, steps);
    assert later.claimStatus == Finalities(later.claims);
    forall n | 0 <= n < |later.log| ensures later.log[n].transitionId == n + 1 {
      FaithfulEntry(later.log, n);
    }
  }

  // ---------------------------------------------------------------- checkpoints

  /**
   * Over any interleaving of local finalization and remote reconciliation a domain's final checkpoint never goes back
   * in height, and two final checkpoints ever held at one height have one hash.
   */
  lemma FinalityNeverForks(s: ClientState, steps: seq<Step>, i: nat, j: nat, d: Text)
    requires Inv(s) && i <= j <= |steps|
    requires d in Run(s, steps[..i]).domains && Run(s, steps[..i]).domains[d].finalCheckpoint.Some?
    ensures d in Run(s, steps[..j]).domains && Run(s, steps[..j]).domains[d].finalCheckpoint.Some?
    ensures var a := Run(s, steps[..i]).domains[d].finalCheckpoint.value;
            var b := Run(s, steps[..j]).domains[d].finalCheckpoint.value;
            a.height <= b.height && (a.height == b.height ==> a.hash == b.hash)
  {
    RunEvolves(s, steps, i, j);
    hide Run;
    assert LedgerLe(Run(s, steps[..i]).domains[d], Run(s, steps[..j]).domains[d]);
  }

  /** A checkpoint once finalized stays in its history, and stays re-derivable from the log as it is later. */
  lemma CheckpointsStayRederivable(s: ClientState, steps: seq<Step>, i: nat, j: nat, d: Text, k: nat)
    requires Inv(s) && i <= j <= |steps|
    requires d in Run(s, steps[..i]).domains && k < |Run(s, steps[..i]).domains[d].checkpointHistory|
    ensures d in Run(s, steps[..j]).domains && k < |Run(s, steps[..j]).domains[d].checkpointHistory|
    ensures var earlier, later := Run(s, steps[..i]).domains[d], Run(s, steps[..j]).domains[d];
            && later.checkpointHistory[k] == earlier.checkpointHistory[k]
            && Rederivable(later.eventLog, later.checkpointHistory[k])
            && (forall m :: k < m < |later.checkpointHistory| ==>
                  later.checkpointHistory[k].height < later.checkpointHistory[m].height)
  {
    RunEvolves(s, steps, i, j);
    RunInv(s, steps[..j]);
    hide Run, Inv, Evolves, Rederivable, Apply;
    HistoryStays(Run(s, steps[..i]), Run(s, steps[..j]), d, k);
  }

  lemma HistoryStays(a: ClientState, b: ClientState, d: Text, k: nat)
    requires Evolves(a, b) && Inv(b) && d in a.domains && k < |a.domains[d].checkpointHistory|
    ensures d in b.domains && k < |b.domains[d].checkpointHistory|
    ensures var earlier, later := a.domains[d], b.domains[d];
            && later.checkpointHistory[k] == earlier.checkpointHistory[k]
            && Rederivable(later.eventLog, later.checkpointHistory[k])
            && (forall m :: k < m < |later.checkpointHistory| ==>
                  later.checkpointHistory[k].height < later.checkpointHistory[m].height)
  {
    hide Rederivable, SyncsInv, ClaimsInv, LockExclusive, StatusInv, SyncsEvolve, ClaimsEvolve, LinesEvolve, LogInv,
         FinalLe;
    assert LedgerLe(a.domains[d], b.domains[d]) && LedgerInv(b.domains[d]);
  }

  ghost predicate AllChained(s: ClientState) {
    forall d :: d in s.domains ==> Chained(s.domains[d])
  }

  lemma ChainPut(domains: map<Text, LedgerState>, d: Text, ledger: LedgerState)
    requires forall e :: e in domains ==> Chained(domains[e])
    requires Chained(ledger)
    ensures var domains' := domains[d := ledger]; forall e :: e in domains' ==> Chained(domains'[e])
  {
    hide Chained;
  }

  lemma OnlyLedgerSteps(s: ClientState, step: Step)
    requires !step.AddDomain? && !step.SubmitTx? && !step.FinalizeLocal? && !step.Reconcile?
    ensures Apply(s, step).0.domains == s.domains
  {
    hide ClaimVerified, ClaimCredited, StatusUpdated, LockedForExport, SettlementClaimCreated, AnchorsApplied,
         AllReplayLogged;
    match step {
      case Resync(anchors, order) =>
        ReplayKeeps(s.(sync := AnchorsApplied(s.sync, Order.SortedSet(anchors)).0), order);
      case Credit(id, line) => CreditLeavesDomains(s, id, line);
      case Verify(id) => VerifyLeavesRest(s, id);
      case Lock(lock, origin, remote, asset, amount, coord, horizon) =>
        LockLeavesRest(s, lock, origin, remote, asset, amount, coord, horizon);
      case Create(id, lock, origin, remote, asset, amount) =>
        CreateLeavesRest(s, id, lock, origin, remote, asset, amount);
      case Accept(id, _) =>
        if id in s.claims { UpdateLeavesRest(s, id, AcceptedByRemoteLedger, s.claims[id].riskLabel); }
      case UpdateStatus(id, next, risk) => UpdateLeavesRest(s, id, next, risk);
      case MarkSettled(id) => UpdateLeavesRest(s, id, BilaterallySettled, Low);
      case ApplyCheckpoint(_, _) =>
    }
  }

  lemma UpdateLeavesRest(s: ClientState, id: Text, next: FinalityStage, risk: RiskLabel)
    ensures var s' := StatusUpdated(s, id, next, risk).0; s'.domains == s.domains && s'.lines == s.lines
  {
  }

  lemma CreditLeavesDomains(s: ClientState, id: Text, lineId: Text)
    ensures ClaimCredited(s, id, lineId).0.domains == s.domains
  {
    hide ClaimCredited, StatusUpdated;
    if ClaimCredited(s, id, lineId).1.Success? {
      var staged, charged := CreditSteps(s, id, lineId);
      UpdateLeavesRest(charged, id, ProvisionallyCredited, staged.riskLabel);
    } else {
      FailedCredit(s, id, lineId);
    }
  }

  lemma VerifyLeavesRest(s: ClientState, id: Text)
    ensures var s' := ClaimVerified(s, id).0; s'.domains == s.domains && s'.lines == s.lines
  {
    hide VerifyCheckpointClaim, EvaluateCryptoRisk, CanGrantNewCredit;
  }

  lemma LockLeavesRest(s: ClientState, lock: Text, origin: Text, remote: Text, asset: Text, amount: U64,
                         coord: SpacetimeCoord, horizon: U64)
    ensures var s' := LockedForExport(s, lock, origin, remote, asset, amount, coord, horizon).0;
            s'.domains == s.domains && s'.lines == s.lines
  {
    hide LockClaim, LockInUse, DependenciesKnown, LockClaimId, GetEvent, EventIds;
  }

  lemma CreateLeavesRest(s: ClientState, claimId: Text, lock: Text, origin: Text, remote: Text, asset: Text,
                         amount: U64)
    ensures var s' := SettlementClaimCreated(s, claimId, lock, origin, remote, asset, amount).0;
            s'.domains == s.domains && s'.lines == s.lines
  {
    hide ExplicitClaim, LockInUse, DependenciesKnown, IsBlank, GetEvent, EventIds;
  }

  /**
   * Without reconciliation from outside, every domain's checkpoints form one hash chain ending at its final
   * checkpoint.
   */
  lemma {:induction false} RunChained(s: ClientState, steps: seq<Step>)
    requires AllChained(s) && forall step :: step in steps ==> !step.Reconcile?
    ensures AllChained(Run(s, steps))
  {
    hide Chained;
    if steps == [] {
    } else {
      var last := |steps| - 1;
      RunChained(s, steps[..last]);
      StepChained(Run(s, steps[..last]), steps[last]);
    }
  }

  lemma StepChained(s: ClientState, step: Step)
    requires AllChained(s) && !step.Reconcile?
    ensures AllChained(Apply(s, step).0)
  {
    hide Submitted, Finalized;
    match step {
      case AddDomain(d) =>
        assert Chained(NewLedger(d));
        hide Chained, NewLedger;
        ChainPut(s.domains, d, NewLedger(d));
      case SubmitTx(d, id, tx) =>
        hide Chained;
        if d in s.domains {
          SubmitKeepsChain(s.domains[d], id, tx);
          ChainPut(s.domains, d, Submitted(s.domains[d], id, tx).0);
        }
      case FinalizeLocal(d, id, txRoot, coord) =>
        hide Chained;
        if d in s.domains {
          FinalizeKeepsChain(s.domains[d], id, txRoot, coord);
          ChainPut(s.domains, d, Finalized(s.domains[d], id, txRoot, coord).0);
        }
      case _ =>
        hide Apply, Chained;
        OnlyLedgerSteps(s, step);
    }
  }

  // ---------------------------------------------------------------- failures

  /** Every operation but a resync is all or nothing: reporting an error leaves the whole client as it was. */
  lemma FailureChangesNothing(s: ClientState, step: Step)
    requires Inv(s) && !step.Resync? && !Apply(s, step).1
    ensures Apply(s, step).0 == s
  {
    hide Inv, LockClaim, ExplicitClaim, LockInUse, DependenciesKnown, VerifyCheckpointClaim, EvaluateCryptoRisk,
         CanGrantNewCredit, DeriveClaimRoot, LockClaimId, IsBlank, Opened, NextCheckpoint, EventOf;
    match step {
      case Credit(id, line) => FailedCredit(s, id, line);
      case Reconcile(cp) => assert s.sync.Keys == s.domains.Keys by { SameDomains(s); }
      case SubmitTx(d, id, tx) => assert d in s.domains ==> s.domains[d := s.domains[d]] == s.domains;
      case FinalizeLocal(d, id, txRoot, coord) => assert d in s.domains ==> s.domains[d := s.domains[d]] == s.domains;
      case _ =>
    }
  }

  lemma SameDomains(s: ClientState)
    requires Inv(s)
    ensures s.sync.Keys == s.domains.Keys
  {
  }

  // ---------------------------------------------------------------- acceptance

  /** A claim accepted on the strength of a checkpoint keeps that evidence in its origin's frontier for good. */
  lemma AcceptanceKeepsEvidence(s: ClientState, steps: seq<Step>, i: nat, j: nat)
    requires Inv(s) && i < j <= |steps| && steps[i].Accept?
    requires var before := Run(s, steps[..i]);
             && Apply(before, steps[i]).1
             && steps[i].claimId in before.claims
             && before.claims[steps[i].claimId].finality != AcceptedByRemoteLedger
    ensures Evidenced(Run(s, steps[..j]), steps[i].claimId, steps[i].checkpointId)
  {
    hide Inv, Apply, Evolves;
    var before, id, cp := Run(s, steps[..i]), steps[i].claimId, steps[i].checkpointId;
    RunInv(s, steps[..i]);
    RunEvolves(s, steps, i + 1, j);
    assert steps[..i + 1][..i] == steps[..i];
    assert Run(s, steps[..i + 1]) == Apply(before, steps[i]).0;
    hide Run;
    AcceptedEvidence(before, id, cp);
    EvidenceCarries(Run(s, steps[..i + 1]), Run(s, steps[..j]), id, cp);
  }

  /** The claim `id` is at least accepted, and `cp` is in its origin's frontier. */
  ghost predicate Evidenced(s: ClientState, id: Text, cp: Text) {
    && id in s.claims
    && Rank(s.claims[id].finality) >= Rank(AcceptedByRemoteLedger)
    && s.claims[id].originDomain in s.sync
    && cp in s.sync[s.claims[id].originDomain].frontier
  }

  lemma AcceptedEvidence(s: ClientState, id: Text, cp: Text)
    requires Inv(s) && Apply(s, Accept(id, cp)).1 && id in s.claims && s.claims[id].finality != AcceptedByRemoteLedger
    ensures Evidenced(Apply(s, Accept(id, cp)).0, id, cp)
  {
    hide DomainsInv, ClaimsInv, LockExclusive, StatusInv;
    assert SyncInv(s.sync[s.claims[id].originDomain]);
  }

  lemma EvidenceCarries(a: ClientState, b: ClientState, id: Text, cp: Text)
    requires Evidenced(a, id, cp) && Evolves(a, b)
    ensures Evidenced(b, id, cp)
  {
    hide DomainsEvolve, LinesEvolve;
    assert ClaimLe(a.claims[id], b.claims[id]);
    assert SyncLe(a.sync[a.claims[id].originDomain], b.sync[a.claims[id].originDomain]);
  }

  // ---------------------------------------------------------------- credit

  datatype CreditEvent = CreditEvent(claimId: Text, lineId: Text, amount: U64)

  /** The credits a run has granted, in order. */
  function Credits(s: ClientState, steps: seq<Step>): seq<CreditEvent> {
    if steps == [] then [] else
    var last := |steps| - 1;
    var before, step := Run(s, steps[..last]), steps[last];
    Credits(s, steps[..last]) +
    if step.Credit? && step.claimId in before.claims && Apply(before, step).1
    then [CreditEvent(step.claimId, step.lineId, before.claims[step.claimId].amount)] else []
  }

  /** The total granted through one line. */
  function CreditedThrough(credits: seq<CreditEvent>, lineId: Text): nat {
    if credits == [] then 0 else
    var last := |credits| - 1;
    CreditedThrough(credits[..last], lineId) + if credits[last].lineId == lineId then credits[last].amount else 0
  }

  lemma OnlyCreditCharges(s: ClientState, step: Step)
    requires !step.Credit?
    ensures Apply(s, step).0.lines == s.lines
  {
    hide ClaimVerified, StatusUpdated, LockedForExport, SettlementClaimCreated, AnchorsApplied, AllReplayLogged,
         Submitted, Finalized, Trusted;
    match step {
      case Resync(anchors, order) =>
        ReplayKeeps(s.(sync := AnchorsApplied(s.sync, Order.SortedSet(anchors)).0), order);
      case Verify(id) => VerifyLeavesRest(s, id);
      case Lock(lock, origin, remote, asset, amount, coord, horizon) =>
        LockLeavesRest(s, lock, origin, remote, asset, amount, coord, horizon);
      case Create(id, lock, origin, remote, asset, amount) =>
        CreateLeavesRest(s, id, lock, origin, remote, asset, amount);
      case Accept(id, _) =>
        if id in s.claims { UpdateLeavesRest(s, id, AcceptedByRemoteLedger, s.claims[id].riskLabel); }
      case UpdateStatus(id, next, risk) => UpdateLeavesRest(s, id, next, risk);
      case MarkSettled(id) => UpdateLeavesRest(s, id, BilaterallySettled, Low);
      case _ =>
    }
  }

  /**
   * One credit: its line is charged the claim's amount, within its limit; other lines and failed credits change
   * nothing.
   */
  lemma CreditCharges(s: ClientState, id: Text, lineId: Text)
    ensures var (s', ok) := Apply(s, Credit(id, lineId));
            if ok then
              && id in s.claims && s.claims[id].finality == RemoteObserved && lineId in s.lines
              && SaturatingAdd(s.lines[lineId].used, s.claims[id].amount) <= s.lines[lineId].limit
              && s'.lines ==
                 s.lines[lineId := s.lines[lineId].(used := SaturatingAdd(s.lines[lineId].used, s.claims[id].amount))]
              && id in s'.claims && s'.claims[id].finality == ProvisionallyCredited
            else s' == s
  {
    hide ClaimCredited;
    if ClaimCredited(s, id, lineId).1.Success? {
      var staged, charged := CreditSteps(s, id, lineId);
      assert charged.claims[id] == staged;
    } else {
      FailedCredit(s, id, lineId);
    }
  }

  /**
   * Conservation: in every run a line's `used` is its opening value plus the amounts credited through it, cut off at
   * the largest 64-bit number, and `used` never passes the limit it started within.
   */
  lemma {:induction false} CreditConserved(s: ClientState, steps: seq<Step>, lineId: Text)
    requires lineId in s.lines
    ensures Conserved(s.lines, Run(s, steps).lines, lineId, CreditedThrough(Credits(s, steps), lineId))
  {
    hide Apply, Granted;
    if steps == [] {
    } else {
      var last := |steps| - 1;
      assert Run(s, steps) == Apply(Run(s, steps[..last]), steps[last]).0;
      CreditConserved(s, steps[..last], lineId);
      hide Run, Credits, CreditedThrough;
      ChargedByStep(Run(s, steps[..last]), steps[last], lineId);
      OneMoreGranted(s, steps, lineId);
    }
  }

  /**
   * The line keeps its limit, and its use grows by `granted`, cut off at 2^64 - 1, within that limit. Below the
   * largest limit nothing is cut off.
   */
  predicate Conserved(a: map<Text, CreditLine>, b: map<Text, CreditLine>, lineId: Text, granted: nat)
    requires lineId in a
  {
    && lineId in b
    && b[lineId].limit == a[lineId].limit
    && b[lineId].used == Min(U64_MAX, a[lineId].used + granted)
    && (a[lineId].used <= a[lineId].limit ==> b[lineId].used <= b[lineId].limit)
    && (a[lineId].limit < U64_MAX ==> b[lineId].used == a[lineId].used + granted)
  }

  /** What a step adds to the use of a line. */
  function Granted(s: ClientState, step: Step, lineId: Text): nat {
    if step.Credit? && step.claimId in s.claims && Apply(s, step).1 && step.lineId == lineId
    then s.claims[step.claimId].amount else 0
  }

  lemma ChargedByStep(s: ClientState, step: Step, lineId: Text)
    requires lineId in s.lines
    ensures Conserved(s.lines, Apply(s, step).0.lines, lineId, Granted(s, step, lineId))
  {
    hide Apply;
    if step.Credit? {
      CreditCharges(s, step.claimId, step.lineId);
    } else {
      OnlyCreditCharges(s, step);
    }
  }

  lemma OneMoreGranted(s: ClientState, steps: seq<Step>, lineId: Text)
    requires steps != []
    ensures CreditedThrough(Credits(s, steps), lineId)
         == CreditedThrough(Credits(s, steps[..|steps| - 1]), lineId)
            + Granted(Run(s, steps[..|steps| - 1]), steps[|steps| - 1], lineId)
  {
    hide Apply, Run;
    var last := |steps| - 1;
    var before, step := Run(s, steps[..last]), steps[last];
    var credits := Credits(s, steps[..last]);
    if step.Credit? && step.claimId in before.claims && Apply(before, step).1 {
      var credit := CreditEvent(step.claimId, step.lineId, before.claims[step.claimId].amount);
      assert (credits + [credit])[..|credits|] == credits;
    } else {
      assert credits + [] == credits;
    }
  }

  /** Below the largest limit the books are exact. */
  lemma CreditExact(s: ClientState, steps: seq<Step>, lineId: Text)
    requires lineId in s.lines && s.lines[lineId].limit < U64_MAX
    ensures lineId in Run(s, steps).lines
    ensures Run(s, steps).lines[lineId].used == s.lines[lineId].used + CreditedThrough(Credits(s, steps), lineId)
    ensures s.lines[lineId].used <= s.lines[lineId].limit ==> Run(s, steps).lines[lineId].used <= s.lines[lineId].limit
  {
    hide Run, Credits, CreditedThrough;
    CreditConserved(s, steps, lineId);
  }

  ghost predicate CreditStands(credit: CreditEvent, s: ClientState) {
    && credit.claimId in s.claims
    && credit.amount == s.claims[credit.claimId].amount
    && Rank(s.claims[credit.claimId].finality) >= Rank(ProvisionallyCredited)
  }

  /** Distinct claims, each credited for its own amount, and each at least provisionally credited now. */
  ghost predicate CreditsStand(credits: seq<CreditEvent>, s: ClientState) {
    && (forall i, j :: 0 <= i < j < |credits| ==> credits[i].claimId != credits[j].claimId)
    && (forall i :: 0 <= i < |credits| ==> CreditStands(credits[i], s))
  }

  /**
   * No claim is credited twice, through one line or two; each credit was for the claim's own amount and still
   * stands.
   */
  lemma {:induction false} CreditedOnce(s: ClientState, steps: seq<Step>)
    requires Inv(s)
    ensures CreditsStand(Credits(s, steps), Run(s, steps))
  {
    hide Inv, Evolves, Apply, CreditStands;
    if steps == [] {
    } else {
      var last := |steps| - 1;
      var before, step := Run(s, steps[..last]), steps[last];
      var credits := Credits(s, steps[..last]);
      CreditedOnce(s, steps[..last]);
      RunInv(s, steps[..last]);
      StepKeeps(before, step);
      StandsOn(before, Apply(before, step).0, credits);
      if step.Credit? && step.claimId in before.claims && Apply(before, step).1 {
        OneMoreCredit(before, step.claimId, step.lineId, credits);
      } else {
        assert Credits(s, steps) == credits;
      }
    }
  }

  lemma OneMoreCredit(s: ClientState, id: Text, lineId: Text, credits: seq<CreditEvent>)
    requires CreditsStand(credits, s) && id in s.claims && Apply(s, Credit(id, lineId)).1
    requires var s' := Apply(s, Credit(id, lineId)).0; Evolves(s, s') && CreditsStand(credits, s')
    ensures CreditsStand(credits + [CreditEvent(id, lineId, s.claims[id].amount)], Apply(s, Credit(id, lineId)).0)
  {
    CreditCharges(s, id, lineId);
    SameAmount(s, Apply(s, Credit(id, lineId)).0, id);
    hide Apply, Evolves;
    forall i | 0 <= i < |credits| ensures credits[i].claimId != id {
      assert CreditStands(credits[i], s);
    }
  }

  lemma StandsOn(a: ClientState, b: ClientState, credits: seq<CreditEvent>)
    requires Evolves(a, b) && CreditsStand(credits, a)
    ensures CreditsStand(credits, b)
  {
    hide DomainsEvolve, SyncsEvolve, LinesEvolve;
    forall i | 0 <= i < |credits| ensures CreditStands(credits[i], b) {
      assert CreditStands(credits[i], a);
      assert ClaimLe(a.claims[credits[i].claimId], b.claims[credits[i].claimId]);
    }
  }

  lemma SameAmount(a: ClientState, b: ClientState, id: Text)
    requires Evolves(a, b) && id in a.claims
    ensures id in b.claims && b.claims[id].amount == a.claims[id].amount
  {
    hide DomainsEvolve, SyncsEvolve, LinesEvolve;
    assert ClaimLe(a.claims[id], b.claims[id]);
  }
}
