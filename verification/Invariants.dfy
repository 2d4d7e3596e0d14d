/** What every state of a client satisfies, how it may change, and that each operation respects both. */
module Invariants {
  import opened Prelude
  import opened Types
  import opened Causal
  import opened CryptoPolicy
  import opened Ledger
  import opened Client
  import opened Settlement
  import opened Sync

  // ---------------------------------------------------------------- the transition log

  /** The stage each claim ends at when the log is played from the start. */
  function Replay(log: seq<Transition>): map<Text, FinalityStage> {
    if log == [] then map[] else
    var last := |log| - 1;
    Replay(log[..last])[log[last].claimId := log[last].toStage]
  }

  /** Entries are numbered from 1, never lower a stage, and start where the claim's previous entry ended. */
  ghost predicate Faithful(log: seq<Transition>) {
    log != [] ==>
      var last := |log| - 1;
      var e, before := log[last], Replay(log[..last]);
      && Faithful(log[..last])
      && e.transitionId == |log|
      && IsStatusMonotonic(e.fromStage, e.toStage)
      && e.fromStage == if e.claimId in before then before[e.claimId] else e.toStage
  }

  lemma LoggedFaithful(log: seq<Transition>, id: Text, from: FinalityStage, to: FinalityStage, risk: RiskLabel)
    requires Faithful(log) && IsStatusMonotonic(from, to)
    requires from == if id in Replay(log) then Replay(log)[id] else to
    ensures Faithful(Logged(log, id, from, to, risk))
    ensures Replay(Logged(log, id, from, to, risk)) == Replay(log)[id := to]
  {
    assert Logged(log, id, from, to, risk)[..|log|] == log;
  }

  lemma {:induction false} FaithfulPrefix(log: seq<Transition>, n: nat)
    requires Faithful(log) && n <= |log|
    ensures Faithful(log[..n])
  {
    if n < |log| {
      FaithfulPrefix(log[..|log| - 1], n);
      assert log[..|log| - 1][..n] == log[..n];
    } else {
      assert log[..n] == log;
    }
  }

  lemma FaithfulEntry(log: seq<Transition>, i: nat)
    requires Faithful(log) && i < |log|
    ensures log[i].transitionId == i + 1
    ensures IsStatusMonotonic(log[i].fromStage, log[i].toStage)
    ensures log[i].claimId in Replay(log[..i]) ==> log[i].fromStage == Replay(log[..i])[log[i].claimId]
  {
    FaithfulPrefix(log, i + 1);
    assert log[..i + 1][..i] == log[..i];
  }

  /** After entry `i` the played stage of its claim stands until that claim's next entry. */
  lemma {:induction false} PlayedStageStands(log: seq<Transition>, i: nat, n: nat)
    requires i < n <= |log|
    requires forall k :: i < k < n ==> log[k].claimId != log[i].claimId
    ensures log[i].claimId in Replay(log[..n]) && Replay(log[..n])[log[i].claimId] == log[i].toStage
    decreases n
  {
    assert log[..n][..n - 1] == log[..n - 1];
    if n == i + 1 {
    } else {
      PlayedStageStands(log, i, n - 1);
    }
  }

  /** Consecutive entries of one claim join. */
  lemma ConsecutiveEntriesJoin(log: seq<Transition>, i: nat, j: nat)
    requires Faithful(log) && i < j < |log| && log[i].claimId == log[j].claimId
    requires forall k :: i < k < j ==> log[k].claimId != log[i].claimId
    ensures log[i].toStage == log[j].fromStage
  {
    PlayedStageStands(log, i, j);
    FaithfulEntry(log, j);
  }

  /** Along the entries of one claim stages never go down. */
  lemma {:induction false} StagesNeverFall(log: seq<Transition>, i: nat, j: nat)
    requires Faithful(log) && i < j < |log| && log[i].claimId == log[j].claimId
    ensures Rank(log[i].toStage) <= Rank(log[j].fromStage)
    decreases j
  {
    if k :| i < k < j && log[k].claimId == log[i].claimId {
      StagesNeverFall(log, i, k);
      FaithfulEntry(log, k);
      StagesNeverFallFrom(log, k, j);
    } else {
      ConsecutiveEntriesJoin(log, i, j);
    }
  }

  lemma {:induction false} StagesNeverFallFrom(log: seq<Transition>, k: nat, j: nat)
    requires Faithful(log) && k < j < |log| && log[k].claimId == log[j].claimId
    ensures Rank(log[k].toStage) <= Rank(log[j].fromStage)
    decreases j - k
  {
    if m :| k < m < j && log[m].claimId == log[k].claimId {
      StagesNeverFallFrom(log, k, m);
      FaithfulEntry(log, m);
      StagesNeverFallFrom(log, m, j);
    } else {
      ConsecutiveEntriesJoin(log, k, j);
    }
  }

  // ---------------------------------------------------------------- the invariant

  ghost predicate DomainsInv(domains: map<Text, LedgerState>) {
    forall d :: d in domains ==> domains[d].domainId == d && LedgerInv(domains[d])
  }

  /** No checkpoint is listed twice, and the last trusted one is listed. */
  ghost predicate SyncInv(st: SyncState) {
    && NoDuplicates(st.frontier)
    && (st.lastTrusted.Some? ==> st.lastTrusted.value in st.frontier)
  }

  ghost predicate SyncsInv(sync: map<Text, SyncState>) {
    forall d :: d in sync ==> sync[d].domain == d && SyncInv(sync[d])
  }

  /** A claim moves a positive amount between two domains, and rests on a logged event with known dependencies. */
  ghost predicate Grounded(claim: SettlementClaim, domains: map<Text, LedgerState>) {
    && claim.amount > 0
    && claim.originDomain != claim.remoteDomain
    && claim.originDomain in domains
    && var log := domains[claim.originDomain].eventLog;
       var event := GetEvent(log, claim.lockEventId);
       && event.Some?
       && event.value.causalDependencies == claim.dependencies
       && DependenciesKnown(claim.lockEventId, claim.dependencies, EventIds(log))
  }

  ghost predicate ClaimsInv(claims: map<Text, SettlementClaim>, domains: map<Text, LedgerState>) {
    forall id :: id in claims ==>
      claims[id].claimId == id && claims[id].finality != LocalFinal && Grounded(claims[id], domains)
  }

  ghost predicate SameLock(a: SettlementClaim, b: SettlementClaim) {
    a.lockEventId == b.lockEventId && a.originDomain == b.originDomain
  }

  /** Two claims on one lock event are never both short of bilateral settlement. */
  ghost predicate LockExclusive(claims: map<Text, SettlementClaim>) {
    forall a, b :: a in claims && b in claims && a != b && SameLock(claims[a], claims[b]) ==>
      claims[a].finality == BilaterallySettled || claims[b].finality == BilaterallySettled
  }

  function Finalities(claims: map<Text, SettlementClaim>): map<Text, FinalityStage> {
    map id | id in claims :: claims[id].finality
  }

  /** The status cache, the claims' own stages and the played log are one map. */
  ghost predicate StatusInv(status: map<Text, FinalityStage>, claims: map<Text, SettlementClaim>,
                            log: seq<Transition>) {
    status == Finalities(claims) && Faithful(log) && Replay(log) == status
  }

  ghost predicate Inv(s: ClientState) {
    && s.sync.Keys == s.domains.Keys
    && DomainsInv(s.domains)
    && SyncsInv(s.sync)
    && ClaimsInv(s.claims, s.domains)
    && LockExclusive(s.claims)
    && StatusInv(s.claimStatus, s.claims, s.log)
  }

  // ---------------------------------------------------------------- how a state may change

  ghost predicate SyncLe(a: SyncState, b: SyncState) {
    a.domain == b.domain && a.frontier <= b.frontier && a.watermark <= b.watermark
  }

  /** A claim keeps its terms, and its stage never goes back. */
  ghost predicate ClaimLe(a: SettlementClaim, b: SettlementClaim) {
    && SameTerms(a, b)
    && IsStatusMonotonic(a.finality, b.finality)
  }

  ghost predicate SameTerms(a: SettlementClaim, b: SettlementClaim) {
    && a.claimId == b.claimId && SameLock(a, b) && a.remoteDomain == b.remoteDomain
    && a.assetId == b.assetId && a.amount == b.amount && a.lockCoord == b.lockCoord
    && a.dependencies == b.dependencies && a.horizon == b.horizon
  }

  ghost predicate LineLe(a: CreditLine, b: CreditLine) {
    a.limit == b.limit && a.used <= b.used
  }

  ghost predicate DomainsEvolve(a: map<Text, LedgerState>, b: map<Text, LedgerState>) {
    forall d :: d in a ==> d in b && LedgerLe(a[d], b[d])
  }

  ghost predicate SyncsEvolve(a: map<Text, SyncState>, b: map<Text, SyncState>) {
    forall d :: d in a ==> d in b && SyncLe(a[d], b[d])
  }

  ghost predicate ClaimsEvolve(a: map<Text, SettlementClaim>, b: map<Text, SettlementClaim>) {
    forall id :: id in a ==> id in b && ClaimLe(a[id], b[id])
  }

  ghost predicate LinesEvolve(a: map<Text, CreditLine>, b: map<Text, CreditLine>) {
    a.Keys == b.Keys && forall l :: l in a ==> LineLe(a[l], b[l])
  }

  ghost predicate Evolves(a: ClientState, b: ClientState) {
    && a.policy == b.policy && a.sqrt == b.sqrt && a.registry == b.registry
    && DomainsEvolve(a.domains, b.domains)
    && SyncsEvolve(a.sync, b.sync)
    && ClaimsEvolve(a.claims, b.claims)
    && LinesEvolve(a.lines, b.lines)
    && a.log <= b.log
  }

  lemma EvolvesReflexive(s: ClientState)
    ensures Evolves(s, s)
  {
  }

  lemma DomainsEvolveTransitive(a: map<Text, LedgerState>, b: map<Text, LedgerState>, c: map<Text, LedgerState>)
    requires DomainsEvolve(a, b) && DomainsEvolve(b, c)
    ensures DomainsEvolve(a, c)
  {
    forall d | d in a ensures LedgerLe(a[d], c[d]) {
      LedgerLeTransitive(a[d], b[d], c[d]);
    }
  }

  lemma EvolvesTransitive(a: ClientState, b: ClientState, c: ClientState)
    requires Evolves(a, b) && Evolves(b, c)
    ensures Evolves(a, c)
  {
    DomainsEvolveTransitive(a.domains, b.domains, c.domains);
    hide LedgerLe;
  }

  // ---------------------------------------------------------------- ledgers

  lemma GetEventExtends(log: seq<Event>, more: seq<Event>, id: Text)
    requires log <= more && GetEvent(log, id).Some?
    ensures GetEvent(more, id) == GetEvent(log, id)
    decreases |log|
  {
    if log[0].eventId == id {
    } else {
      GetEventExtends(log[1..], more[1..], id);
    }
  }

  lemma DependenciesExtend(log: seq<Event>, more: seq<Event>, id: Text, dependencies: seq<Text>)
    requires log <= more && DependenciesKnown(id, dependencies, EventIds(log))
    ensures DependenciesKnown(id, dependencies, EventIds(more))
  {
    assert EventIds(log) <= EventIds(more);
    assert forall d :: d in EventIds(log) ==> d in EventIds(more);
  }

  lemma GroundedExtends(claim: SettlementClaim, a: map<Text, LedgerState>, b: map<Text, LedgerState>)
    requires Grounded(claim, a) && DomainsEvolve(a, b)
    ensures Grounded(claim, b)
  {
    var log, more := a[claim.originDomain].eventLog, b[claim.originDomain].eventLog;
    assert log <= more by { assert LedgerLe(a[claim.originDomain], b[claim.originDomain]); }
    GetEventExtends(log, more, claim.lockEventId);
    DependenciesExtend(log, more, claim.lockEventId, claim.dependencies);
  }

  lemma ClaimsExtend(claims: map<Text, SettlementClaim>, a: map<Text, LedgerState>, b: map<Text, LedgerState>)
    requires ClaimsInv(claims, a) && DomainsEvolve(a, b)
    ensures ClaimsInv(claims, b)
  {
    hide Grounded, DomainsEvolve;
    forall id | id in claims ensures Grounded(claims[id], b) {
      GroundedExtends(claims[id], a, b);
    }
  }

  /** Changing the ledgers alone. */
  lemma DomainsAdvance(s: ClientState, domains: map<Text, LedgerState>)
    requires Inv(s) && DomainsInv(domains) && DomainsEvolve(s.domains, domains) && domains.Keys == s.domains.Keys
    ensures var s' := s.(domains := domains); Inv(s') && Evolves(s, s')
  {
    hide DomainsInv, DomainsEvolve, ClaimsInv, SyncsInv, LockExclusive, StatusInv;
    ClaimsExtend(s.claims, s.domains, domains);
    EvolvesReflexive(s);
  }

  /** Advancing one ledger. */
  lemma LedgerAdvances(s: ClientState, d: Text, ledger: LedgerState)
    requires Inv(s) && d in s.domains && LedgerInv(ledger) && LedgerLe(s.domains[d], ledger)
    ensures var s' := s.(domains := s.domains[d := ledger]); Inv(s') && Evolves(s, s')
  {
    hide ClaimsInv, SyncsInv, LockExclusive, StatusInv, DomainsInv, DomainsEvolve;
    OneLedger(s.domains, d, ledger);
    DomainsAdvance(s, s.domains[d := ledger]);
  }

  lemma OneLedger(domains: map<Text, LedgerState>, d: Text, ledger: LedgerState)
    requires DomainsInv(domains) && d in domains && LedgerInv(ledger) && LedgerLe(domains[d], ledger)
    ensures DomainsInv(domains[d := ledger]) && DomainsEvolve(domains, domains[d := ledger])
  {
    assert ledger.domainId == d;
    hide LedgerInv, LedgerLe;
    forall e | e in domains ensures LedgerLe(domains[e], domains[e]) {
      LedgerLeReflexive(domains[e]);
    }
  }

  lemma NewLedgerInv(d: Text)
    ensures LedgerInv(NewLedger(d)) && NewLedger(d).domainId == d
  {
  }

  lemma NewDomain(domains: map<Text, LedgerState>, sync: map<Text, SyncState>, d: Text)
    requires DomainsInv(domains) && SyncsInv(sync) && d !in domains && d !in sync
    ensures DomainsInv(domains[d := NewLedger(d)]) && DomainsEvolve(domains, domains[d := NewLedger(d)])
    ensures var sync' := sync[d := SyncState(d, None, [], 0)]; SyncsInv(sync') && SyncsEvolve(sync, sync')
  {
    NewLedgerInv(d);
    hide LedgerInv, LedgerLe, NewLedger;
    forall e | e in domains ensures LedgerLe(domains[e], domains[e]) {
      LedgerLeReflexive(domains[e]);
    }
  }

  lemma AddDomainKeeps(s: ClientState, domain: Text)
    requires Inv(s)
    ensures var s' := DomainAdded(s, domain).0; Inv(s') && Evolves(s, s')
  {
    EvolvesReflexive(s);
    if domain !in s.domains {
      hide DomainsInv, SyncsInv, ClaimsInv, LockExclusive, StatusInv, DomainsEvolve, SyncsEvolve, ClaimsEvolve,
           LinesEvolve, NewLedger;
      NewDomain(s.domains, s.sync, domain);
      ClaimsExtend(s.claims, s.domains, s.domains[domain := NewLedger(domain)]);
    }
  }

  lemma SubmitKeeps(s: ClientState, d: Text, txId: Text, tx: Transaction)
    requires Inv(s)
    ensures var s' := TxSubmitted(s, d, txId, tx).0; Inv(s') && Evolves(s, s')
  {
    EvolvesReflexive(s);
    if d in s.domains {
      assert LedgerInv(s.domains[d]);
      hide Inv, Evolves, Submitted, LedgerInv, LedgerLe;
      SubmitKeepsInv(s.domains[d], txId, tx);
      SubmitAdvances(s.domains[d], txId, tx);
      LedgerAdvances(s, d, Submitted(s.domains[d], txId, tx).0);
    }
  }

  lemma FinalizeKeeps(s: ClientState, d: Text, checkpointId: Text, txRoot: Hash, coord: SpacetimeCoord)
    requires Inv(s)
    ensures var s' := CheckpointFinalized(s, d, checkpointId, txRoot, coord).0; Inv(s') && Evolves(s, s')
  {
    EvolvesReflexive(s);
    if d in s.domains {
      assert LedgerInv(s.domains[d]);
      hide Inv, Evolves, Finalized, LedgerInv, LedgerLe;
      FinalizeKeepsInv(s.domains[d], checkpointId, txRoot, coord);
      FinalizeAdvances(s.domains[d], checkpointId, txRoot, coord);
      LedgerAdvances(s, d, Finalized(s.domains[d], checkpointId, txRoot, coord).0);
    }
  }

  // ---------------------------------------------------------------- sync states

  lemma TrustedKeeps(st: SyncState, id: Text, height: Option<I64>)
    requires SyncInv(st)
    ensures SyncInv(Trusted(st, id, height)) && SyncLe(st, Trusted(st, id, height))
  {
    TrustedGrows(st, id, height);
  }

  lemma SyncAdvances(s: ClientState, sync: map<Text, SyncState>)
    requires Inv(s) && SyncsInv(sync) && SyncsEvolve(s.sync, sync) && sync.Keys == s.sync.Keys
    ensures Inv(s.(sync := sync)) && Evolves(s, s.(sync := sync))
  {
    hide DomainsInv, ClaimsInv, LockExclusive, StatusInv, LedgerLe;
    EvolvesReflexive(s);
  }

  lemma ReconciledLedger(l: LedgerState, cp: Checkpoint)
    requires LedgerInv(l)
    requires l.finalCheckpoint.Some? ==> FinalLe(l.finalCheckpoint, Some(cp))
    ensures LedgerInv(l.(finalCheckpoint := Some(cp))) && LedgerLe(l, l.(finalCheckpoint := Some(cp)))
  {
    hide Rederivable;
  }

  lemma ReconcileKeeps(s: ClientState, cp: Checkpoint)
    requires Inv(s)
    ensures var s' := CheckpointReconciled(s, cp).0; Inv(s') && Evolves(s, s')
  {
    hide LedgerInv, LedgerLe, Rederivable;
    var (s', r) := CheckpointReconciled(s, cp);
    if r.Success? {
      var d := cp.domainId;
      ReconciledLedger(s.domains[d], cp);
      var mid := s.(domains := s.domains[d := s.domains[d].(finalCheckpoint := Some(cp))]);
      LedgerAdvances(s, d, s.domains[d].(finalCheckpoint := Some(cp)));
      TrustedKeeps(s.sync[d], cp.hash, Some(WrapI64(cp.height)));
      hide Trusted, Inv, Evolves;
      SyncReplaced(mid, d, Trusted(s.sync[d], cp.hash, Some(WrapI64(cp.height))));
      EvolvesTransitive(s, mid, s');
    } else {
      EvolvesReflexive(s);
    }
  }

  lemma SyncReplaced(s: ClientState, d: Text, st: SyncState)
    requires Inv(s) && d in s.sync && SyncInv(st) && SyncLe(s.sync[d], st)
    ensures var s' := s.(sync := s.sync[d := st]); Inv(s') && Evolves(s, s')
  {
    SyncAdvances(s, s.sync[d := st]);
  }

  lemma {:induction false} AnchorsKeep(sync: map<Text, SyncState>, anchors: seq<Text>)
    requires SyncsInv(sync)
    ensures var sync' := AnchorsApplied(sync, anchors).0;
            SyncsInv(sync') && SyncsEvolve(sync, sync') && sync'.Keys == sync.Keys
    decreases |anchors|
  {
    hide ParseTrustedAnchor, Trusted;
    if anchors == [] {
    } else {
      var anchor := ParseTrustedAnchor(sync.Keys, anchors[0]);
      if !anchor.Rejected? {
        AnchorKeeps(sync, anchor);
        AnchorsKeep(AnchorApplied(sync, anchor), anchors[1..]);
      }
    }
  }

  lemma AnchorKeeps(sync: map<Text, SyncState>, anchor: Anchor)
    requires SyncsInv(sync) && (anchor.At? ==> anchor.domain in sync)
    ensures var sync' := AnchorApplied(sync, anchor);
            SyncsInv(sync') && SyncsEvolve(sync, sync') && sync'.Keys == sync.Keys
  {
    TrustedKeepsDomain(sync, anchor);
    hide Trusted;
    match anchor {
      case Rejected =>
      case Everywhere(id) =>
        forall d | d in sync
          ensures SyncInv(Trusted(sync[d], id, None)) && SyncLe(sync[d], Trusted(sync[d], id, None))
        {
          TrustedKeeps(sync[d], id, None);
        }
      case At(d, id, height) =>
        TrustedKeeps(sync[d], id, height);
    }
  }

  // ---------------------------------------------------------------- claims

  lemma OpenExclusive(claims: map<Text, SettlementClaim>, claim: SettlementClaim)
    requires LockExclusive(claims) && claim.claimId !in claims
    requires !LockInUse(claims, claim.lockEventId, claim.originDomain)
    ensures LockExclusive(claims[claim.claimId := claim])
  {
    forall b | b in claims && SameLock(claim, claims[b]) ensures claims[b].finality == BilaterallySettled {
      assert !UsesLock(claims[b], claim.lockEventId, claim.originDomain);
    }
  }

  lemma StagedStatus(status: map<Text, FinalityStage>, claims: map<Text, SettlementClaim>, log: seq<Transition>,
                     claim: SettlementClaim, from: FinalityStage, risk: RiskLabel)
    requires StatusInv(status, claims, log) && IsStatusMonotonic(from, claim.finality)
    requires from == if claim.claimId in claims then claims[claim.claimId].finality else claim.finality
    ensures var id := claim.claimId;
            StatusInv(status[id := claim.finality], claims[id := claim], Logged(log, id, from, claim.finality, risk))
  {
    var id := claim.claimId;
    assert id in Replay(log) <==> id in claims;
    LoggedFaithful(log, id, from, claim.finality, risk);
    FinalitiesPut(claims, id, claim);
    hide Faithful, Replay, Logged, Finalities;
  }

  lemma FinalitiesPut(claims: map<Text, SettlementClaim>, id: Text, claim: SettlementClaim)
    ensures Finalities(claims[id := claim]) == Finalities(claims)[id := claim.finality]
  {
  }

  /** Opening a claim on a lock no unsettled claim uses. */
  lemma OpenKeeps(s: ClientState, claim: SettlementClaim)
    requires Inv(s) && claim.claimId !in s.claims
    requires claim.finality == RemoteObserved && Grounded(claim, s.domains)
    requires !LockInUse(s.claims, claim.lockEventId, claim.originDomain)
    ensures Inv(Opened(s, claim)) && Evolves(s, Opened(s, claim))
  {
    EvolvesReflexive(s);
    hide Grounded, DomainsInv, SyncsInv, DomainsEvolve, SyncsEvolve, LinesEvolve, LockExclusive, StatusInv, LockInUse;
    OpenExclusive(s.claims, claim);
    StagedStatus(s.claimStatus, s.claims, s.log, claim, claim.finality, claim.riskLabel);
  }

  lemma SameGround(a: SettlementClaim, b: SettlementClaim, domains: map<Text, LedgerState>)
    requires SameTerms(a, b) && Grounded(a, domains)
    ensures Grounded(b, domains)
  {
    hide DependenciesKnown;
  }

  /** Replacing a claim by one on the same terms, at the same stage or a later one. */
  lemma ReplaceKeeps(claims: map<Text, SettlementClaim>, domains: map<Text, LedgerState>, id: Text,
                     claim: SettlementClaim)
    requires ClaimsInv(claims, domains) && LockExclusive(claims)
    requires id in claims && ClaimLe(claims[id], claim)
    ensures ClaimsInv(claims[id := claim], domains) && LockExclusive(claims[id := claim])
    ensures ClaimsEvolve(claims, claims[id := claim])
  {
    hide Grounded;
    SameGround(claims[id], claim, domains);
  }

  /** Rewriting a claim without touching its terms or its stage. */
  lemma RewriteKeeps(s: ClientState, id: Text, claim: SettlementClaim)
    requires Inv(s) && id in s.claims
    requires SameTerms(s.claims[id], claim) && claim.finality == s.claims[id].finality
    ensures var s' := s.(claims := s.claims[id := claim]); Inv(s') && Evolves(s, s')
  {
    EvolvesReflexive(s);
    hide DomainsInv, SyncsInv, ClaimsInv, LockExclusive, Finalities, ClaimsEvolve, DomainsEvolve, SyncsEvolve,
         LinesEvolve;
    ReplaceKeeps(s.claims, s.domains, id, claim);
    SameFinalities(s.claims, id, claim);
  }

  lemma SameFinalities(claims: map<Text, SettlementClaim>, id: Text, claim: SettlementClaim)
    requires id in claims && claim.finality == claims[id].finality
    ensures Finalities(claims[id := claim]) == Finalities(claims)
  {
  }

  lemma UpdateKeeps(s: ClientState, id: Text, next: FinalityStage, risk: RiskLabel)
    requires Inv(s)
    ensures var s' := StatusUpdated(s, id, next, risk).0; Inv(s') && Evolves(s, s')
  {
    hide DomainsInv, SyncsInv, LockExclusive, StatusInv, DomainsEvolve, SyncsEvolve, ClaimsEvolve, LinesEvolve, Rank,
         Grounded;
    EvolvesReflexive(s);
    var (s', r) := StatusUpdated(s, id, next, risk);
    if r.Success? {
      var claim := s.claims[id].(finality := next);
      assert claim.claimId == id;
      ReplaceKeeps(s.claims, s.domains, id, claim);
      StagedStatus(s.claimStatus, s.claims, s.log, claim, s.claims[id].finality, risk);
      hide ClaimsInv;
    }
  }

  lemma LineCharged(s: ClientState, lineId: Text, line: CreditLine)
    requires Inv(s) && lineId in s.lines && LineLe(s.lines[lineId], line)
    ensures var s' := s.(lines := s.lines[lineId := line]); Inv(s') && Evolves(s, s')
  {
    hide DomainsInv, SyncsInv, ClaimsInv, LockExclusive, StatusInv, LedgerLe;
    EvolvesReflexive(s);
  }

  lemma ReplayLoggedKeeps(s: ClientState, id: Text)
    requires Inv(s)
    ensures var s' := ReplayLogged(s, id); Inv(s') && Evolves(s, s')
  {
    hide DomainsInv, SyncsInv, ClaimsInv, LockExclusive, LedgerLe;
    EvolvesReflexive(s);
    if id in s.claims {
      var stage := s.claimStatus[id];
      LoggedFaithful(s.log, id, stage, stage, s.claims[id].riskLabel);
      assert s.claimStatus[id := stage] == s.claimStatus;
    }
  }

  lemma {:induction false} AllReplayLoggedKeeps(s: ClientState, order: seq<Text>)
    requires Inv(s)
    ensures var s' := AllReplayLogged(s, order); Inv(s') && Evolves(s, s')
  {
    hide Inv, Evolves, ReplayLogged;
    if order == [] {
      EvolvesReflexive(s);
    } else {
      var last := |order| - 1;
      AllReplayLoggedKeeps(s, order[..last]);
      ReplayLoggedKeeps(AllReplayLogged(s, order[..last]), order[last]);
      EvolvesTransitive(s, AllReplayLogged(s, order[..last]), AllReplayLogged(s, order));
    }
  }

  // ---------------------------------------------------------------- the settlement operations

  lemma LockKeeps(s: ClientState, lockEventId: Text, origin: Text, remote: Text, asset: Text, amount: U64,
                  coord: SpacetimeCoord, horizon: U64)
    requires Inv(s)
    ensures var s' := LockedForExport(s, lockEventId, origin, remote, asset, amount, coord, horizon).0;
            Inv(s') && Evolves(s, s')
  {
    hide Inv, Evolves, Opened, LockInUse, LockClaimId, LockCheckpointFor, LightconePossible, DependenciesKnown,
         LedgerLe;
    EvolvesReflexive(s);
    var (_, r) := LockedForExport(s, lockEventId, origin, remote, asset, amount, coord, horizon);
    if r.Success? {
      OpenKeeps(s, r.value);
    }
  }

  lemma CreateKeeps(s: ClientState, claimId: Text, lockEventId: Text, origin: Text, remote: Text, asset: Text,
                    amount: U64)
    requires Inv(s)
    ensures var s' := SettlementClaimCreated(s, claimId, lockEventId, origin, remote, asset, amount).0;
            Inv(s') && Evolves(s, s')
  {
    hide Inv, Evolves, Opened, LockInUse, LockCheckpointFor, DependenciesKnown, LedgerLe, IsBlank;
    EvolvesReflexive(s);
    var (_, r) := SettlementClaimCreated(s, claimId, lockEventId, origin, remote, asset, amount);
    if r.Success? {
      OpenKeeps(s, r.value);
    }
  }

  /** All that a status update does to the claims. */
  lemma UpdateShape(s: ClientState, id: Text, next: FinalityStage, risk: RiskLabel)
    ensures var (s', r) := StatusUpdated(s, id, next, risk);
            && (r.Failure? ==> s' == s)
            && (r.Success? ==> id in s.claims && s'.claims == s.claims[id := s.claims[id].(finality := next)])
  {
    hide Rank;
  }

  lemma VerifyKeeps(s: ClientState, id: Text)
    requires Inv(s)
    ensures var s' := ClaimVerified(s, id).0; Inv(s') && Evolves(s, s')
  {
    EvolvesReflexive(s);
    hide Inv, Evolves, VerifyCheckpointClaim, EvaluateCryptoRisk, CanGrantNewCredit;
    var s' := ClaimVerified(s, id).0;
    if s' != s {
      RewriteKeeps(s, id, s'.claims[id]);
    }
  }

  lemma AcceptKeeps(s: ClientState, id: Text, checkpointId: Text)
    requires Inv(s)
    ensures var s' := RemoteClaimAccepted(s, id, checkpointId).0; Inv(s') && Evolves(s, s')
  {
    EvolvesReflexive(s);
    hide Inv, Evolves, StatusUpdated;
    if id in s.claims {
      UpdateKeeps(s, id, AcceptedByRemoteLedger, s.claims[id].riskLabel);
    }
  }

  /** What a successful credit amounts to: one line charged, one claim restaged from observed to credited. */
  lemma CreditSteps(s: ClientState, id: Text, lineId: Text) returns (staged: SettlementClaim, charged: ClientState)
    requires ClaimCredited(s, id, lineId).1.Success?
    ensures id in s.claims && s.claims[id].finality == RemoteObserved && lineId in s.lines
    ensures var line, claim := s.lines[lineId], s.claims[id];
            && SaturatingAdd(line.used, claim.amount) <= line.limit
            && SameTerms(claim, staged) && staged.finality == RemoteObserved
            && staged == claim.(cryptoStatus := staged.cryptoStatus, riskLabel := staged.riskLabel)
            && RiskRank(staged.riskLabel) >= RiskRank(s.policy.riskFloor)
            && charged == s.(lines := s.lines[lineId := line.(used := SaturatingAdd(line.used, claim.amount))],
                             claims := s.claims[id := staged])
    ensures ClaimCredited(s, id, lineId).0 == StatusUpdated(charged, id, ProvisionallyCredited, staged.riskLabel).0
  {
    hide VerifyCheckpointClaim, EvaluateCryptoRisk, CanGrantNewCredit, DeriveClaimRoot, StatusUpdated;
    var claim, line := s.claims[id], s.lines[lineId];
    var root := DeriveClaimRoot(claim);
    staged := claim.(
      cryptoStatus := VerifyCheckpointClaim(s.registry, root, WrapI64(claim.horizon)).status,
      riskLabel := RiskLabelOrDefault(EvaluateCryptoRisk(s.registry, root, WrapI64(claim.horizon), None).riskLabel,
                                      s.policy.riskFloor));
    charged := s.(lines := s.lines[lineId := line.(used := SaturatingAdd(line.used, claim.amount))],
                  claims := s.claims[id := staged]);
  }

  /** The stage update that ends a credit cannot fail, so a failed credit has changed nothing. */
  lemma FailedCredit(s: ClientState, id: Text, lineId: Text)
    requires ClaimCredited(s, id, lineId).1.Failure?
    ensures ClaimCredited(s, id, lineId).0 == s
  {
    hide VerifyCheckpointClaim, EvaluateCryptoRisk, CanGrantNewCredit, DeriveClaimRoot, RiskLabelOrDefault;
  }

  lemma CreditKeeps(s: ClientState, id: Text, lineId: Text)
    requires Inv(s)
    ensures var s' := ClaimCredited(s, id, lineId).0; Inv(s') && Evolves(s, s')
  {
    hide Inv, Evolves, ClaimCredited, StatusUpdated;
    if ClaimCredited(s, id, lineId).1.Success? {
      var staged, charged := CreditSteps(s, id, lineId);
      RewriteKeeps(s, id, staged);
      var rewritten := s.(claims := s.claims[id := staged]);
      var line := s.lines[lineId];
      LineCharged(rewritten, lineId, line.(used := SaturatingAdd(line.used, s.claims[id].amount)));
      UpdateKeeps(charged, id, ProvisionallyCredited, staged.riskLabel);
      EvolvesTransitive(s, rewritten, charged);
      EvolvesTransitive(s, charged, ClaimCredited(s, id, lineId).0);
    } else {
      FailedCredit(s, id, lineId);
      EvolvesReflexive(s);
    }
  }

  lemma ApplyCheckpointKeeps(s: ClientState, id: Text, checkpointId: Text)
    requires Inv(s)
    ensures var s' := CheckpointApplied(s, id, checkpointId).0; Inv(s') && Evolves(s, s')
  {
    EvolvesReflexive(s);
    hide Inv, Evolves;
    if id in s.claims {
      RewriteKeeps(s, id, s.claims[id].(lockCheckpoint := checkpointId, lightconeStatus := Unknown));
    }
  }

  lemma MarkKeeps(s: ClientState, id: Text)
    requires Inv(s)
    ensures var s' := BilaterallyMarked(s, id).0; Inv(s') && Evolves(s, s')
  {
    EvolvesReflexive(s);
    hide Inv, Evolves, StatusUpdated;
    UpdateKeeps(s, id, BilaterallySettled, Low);
  }

  lemma ResyncKeeps(s: ClientState, anchors: seq<Text>, order: seq<Text>)
    requires Inv(s)
    ensures var s' := Resynced(s, anchors, order).0; Inv(s') && Evolves(s, s')
  {
    var unique := Order.SortedSet(anchors);
    AnchorsKeep(s.sync, unique);
    var sync := AnchorsApplied(s.sync, unique).0;
    SyncAdvances(s, sync);
    hide Inv, Evolves, AnchorsApplied, AllReplayLogged;
    AllReplayLoggedKeeps(s.(sync := sync), order);
    EvolvesTransitive(s, s.(sync := sync), AllReplayLogged(s.(sync := sync), order));
  }

  /** The entries a resync appends, one for each credited claim, in the order the claims were visited. */
  function ReplayEntries(s: ClientState, order: seq<Text>): seq<Transition>
    requires forall id :: id in order ==> id in s.claims
  {
    seq(|order|, i requires 0 <= i < |order| =>
      Transition(|s.log| + i + 1, order[i], ProvisionallyCredited, ProvisionallyCredited, s.claims[order[i]].riskLabel))
  }

  lemma {:induction false} ReplayedLog(s: ClientState, order: seq<Text>)
    requires s.claimStatus == Finalities(s.claims)
    requires forall id :: id in order ==> id in s.claims && s.claims[id].finality == ProvisionallyCredited
    ensures AllReplayLogged(s, order) == s.(log := s.log + ReplayEntries(s, order))
  {
    if order == [] {
      assert s.log + ReplayEntries(s, order) == s.log;
    } else {
      var last := |order| - 1;
      var front := order[..last];
      assert order[last] in order && forall id :: id in front ==> id in order;
      ReplayedLog(s, front);
      assert AllReplayLogged(s, order) == ReplayLogged(AllReplayLogged(s, front), order[last]);
      hide AllReplayLogged, ReplayLogged;
      assert ReplayEntries(s, order)
          == ReplayEntries(s, front)
             + [Transition(|s.log| + last + 1, order[last], ProvisionallyCredited, ProvisionallyCredited,
                           s.claims[order[last]].riskLabel)];
      hide ReplayEntries;
      ReplayOnce(s, ReplayEntries(s, front), order[last]);
    }
  }

  lemma ReplayOnce(s: ClientState, entries: seq<Transition>, id: Text)
    requires s.claimStatus == Finalities(s.claims)
    requires id in s.claims && s.claims[id].finality == ProvisionallyCredited
    ensures ReplayLogged(s.(log := s.log + entries), id)
         == s.(log := s.log + (entries + [Transition(|s.log| + |entries| + 1, id, ProvisionallyCredited,
                                                     ProvisionallyCredited, s.claims[id].riskLabel)]))
  {
    assert s.claimStatus[id := ProvisionallyCredited] == s.claimStatus;
  }

  lemma {:induction false} EnumerationSize(order: seq<Text>, ids: set<Text>)
    requires Enumerates(order, ids)
    ensures |order| == |ids|
    decreases |order|
  {
    if order != [] {
      var last := |order| - 1;
      assert order[last] in ids;
      forall id ensures id in order[..last] <==> id in ids - {order[last]} {
        assert order == order[..last] + [order[last]];
      }
      EnumerationSize(order[..last], ids - {order[last]});
    } else {
      assert forall id :: id !in ids;
    }
  }

  /**
   * An accepted resync logs each provisionally credited claim once, at the stage it has, and touches no claim, status,
   * ledger or line. The order in which the claims were visited shows only in the order of these entries.
   */
  lemma ResyncReplays(s: ClientState, anchors: seq<Text>, order: seq<Text>)
    requires Inv(s) && Resynced(s, anchors, order).1.Success?
    requires Enumerates(order, CreditedClaims(s.claims))
    ensures forall id :: id in order ==> id in s.claims
    ensures var (s', r) := Resynced(s, anchors, order);
            && s' == s.(sync := s'.sync, log := s.log + ReplayEntries(s, order))
            && r.value.reconciled == |CreditedClaims(s.claims)|
  {
    hide DomainsInv, SyncsInv, ClaimsInv, LockExclusive, AnchorsApplied, AllReplayLogged;
    var sync := AnchorsApplied(s.sync, Order.SortedSet(anchors)).0;
    ReplayedLog(s.(sync := sync), order);
    ReplayKeeps(s.(sync := sync), order);
    EnumerationSize(order, CreditedClaims(s.claims));
  }

  // ---------------------------------------------------------------- consequences in one state

  /** Among stored claims a conflict is only ever reported for the same asset and amount on different lock events. */
  lemma StoredConflicts(s: ClientState, a: Text, b: Text)
    requires Inv(s) && a in s.claims && b in s.claims
    ensures DetectConflict(s.claims[a], s.claims[b]) <==>
            && a != b
            && s.claims[a].originDomain == s.claims[b].originDomain
            && s.claims[a].lockEventId != s.claims[b].lockEventId
            && s.claims[a].assetId == s.claims[b].assetId && s.claims[a].amount == s.claims[b].amount
            && s.claims[a].finality != BilaterallySettled && s.claims[b].finality != BilaterallySettled
  {
    hide DomainsInv, SyncsInv, StatusInv, Grounded;
    assert SameLock(s.claims[a], s.claims[b]) <==>
           s.claims[a].lockEventId == s.claims[b].lockEventId && s.claims[a].originDomain == s.claims[b].originDomain;
  }

  /**
   * A claim's lock event is the only logged event of its id, and its dependencies are logged events other than
   * itself.
   */
  lemma ClaimRestsOnLog(s: ClientState, id: Text) returns (at: nat)
    requires Inv(s) && id in s.claims
    ensures s.claims[id].amount > 0 && s.claims[id].originDomain != s.claims[id].remoteDomain
    ensures s.claims[id].originDomain in s.domains
    ensures var claim := s.claims[id];
            var log := s.domains[claim.originDomain].eventLog;
            && at < |log| && log[at].causalDependencies == claim.dependencies
            && (forall i :: 0 <= i < |log| ==> (log[i].eventId == claim.lockEventId <==> i == at))
            && (forall d :: d in claim.dependencies ==> d != claim.lockEventId && HasEvent(log, d))
  {
    hide SyncsInv, StatusInv, LockExclusive, HistoryInv, LogInv;
    var claim := s.claims[id];
    assert Grounded(claim, s.domains);
    hide ClaimsInv;
    var ledger := s.domains[claim.originDomain];
    assert LedgerInv(ledger);
    hide DomainsInv, LedgerInv;
    at := RestsOn(ledger, claim.lockEventId, claim.dependencies);
  }

  lemma RestsOn(ledger: LedgerState, id: Text, dependencies: seq<Text>) returns (at: nat)
    requires LogInv(ledger.domainId, ledger.chainHeight, ledger.eventLog)
    requires var event := GetEvent(ledger.eventLog, id);
             event.Some? && event.value.causalDependencies == dependencies
    requires DependenciesKnown(id, dependencies, EventIds(ledger.eventLog))
    ensures var log := ledger.eventLog;
            && at < |log| && log[at].causalDependencies == dependencies
            && (forall i :: 0 <= i < |log| ==> (log[i].eventId == id <==> i == at))
            && (forall d :: d in dependencies ==> d != id && HasEvent(log, d))
  {
    hide GetEvent;
    var log := ledger.eventLog;
    at :| 0 <= at < |log| && log[at] == GetEvent(log, id).value;
    var ids := EventIds(log);
    forall i | 0 <= i < |log| && log[i].eventId == id ensures i == at {
      assert ids[i] == ids[at];
    }
    forall d | d in dependencies ensures d != id && HasEvent(log, d) {
      var k :| 0 <= k < |dependencies| && dependencies[k] == d;
      var j :| 0 <= j < |ids| && ids[j] == d;
      assert log[j].eventId == d;
    }
  }

  /** A direct call of `bootstrap_claim_status` is harmless exactly when it repeats the stage the claim already has. */
  lemma BootstrapExact(s: ClientState, id: Text, stage: FinalityStage, risk: RiskLabel)
    requires Inv(s)
    ensures Inv(StatusBootstrapped(s, id, stage, risk)) <==> id in s.claims && s.claims[id].finality == stage
  {
    hide DomainsInv, SyncsInv, ClaimsInv, LockExclusive;
    var s' := StatusBootstrapped(s, id, stage, risk);
    if id in s.claims && s.claims[id].finality == stage {
      LoggedFaithful(s.log, id, stage, stage, risk);
      assert s.claimStatus[id := stage] == s.claimStatus;
    } else {
      assert id in s'.claimStatus && s'.claimStatus[id] == stage;
      assert id in Finalities(s.claims) ==> Finalities(s.claims)[id] != stage;
    }
  }
}
