/** The client's state, its object, and the transition log of claim stages. */
module Client {
  import opened Prelude
  import opened Types
  import opened Geometry
  import opened Causal
  import opened CryptoPolicy
  import opened Ledger

  datatype FinalityStage =
    | LocalFinal
    | RemoteObserved
    | ProvisionallyCredited
    | AcceptedByRemoteLedger
    | OriginAcknowledged
    | BilaterallySettled

  function Rank(stage: FinalityStage): nat {
    match stage
    case LocalFinal => 0
    case RemoteObserved => 1
    case ProvisionallyCredited => 2
    case AcceptedByRemoteLedger => 3
    case OriginAcknowledged => 4
    case BilaterallySettled => 5
  }

  predicate IsStatusMonotonic(prev: FinalityStage, next: FinalityStage) {
    Rank(prev) <= Rank(next)
  }

  datatype SettlementClaim = SettlementClaim(
    claimId: Text,
    lockEventId: Text,
    originDomain: Text,
    remoteDomain: Text,
    assetId: Text,
    amount: U64,
    lockCheckpoint: Text,
    lockCoord: SpacetimeCoord,
    dependencies: seq<Text>,
    finality: FinalityStage,
    cryptoStatus: CryptoStatus,
    lightconeStatus: LightconeStatus,
    riskLabel: RiskLabel,
    horizon: U64)

  datatype CreditLine = CreditLine(limit: U64, used: U64)

  datatype SyncState = SyncState(domain: Text, lastTrusted: Option<Text>, frontier: seq<Text>, watermark: I64)

  datatype SettlementPolicy = SettlementPolicy(maxHorizonYears: U64, lightconeSpeed: Speed, riskFloor: RiskLabel)

  datatype Transition = Transition(
    transitionId: nat, claimId: Text, fromStage: FinalityStage, toStage: FinalityStage, riskLabel: RiskLabel)

  /** The fields of a `UniverseClient`, as one value; `sqrt` is the platform's square root. */
  datatype ClientState = ClientState(
    policy: SettlementPolicy,
    sqrt: SquareRoot,
    registry: Registry,
    domains: map<Text, LedgerState>,
    claimStatus: map<Text, FinalityStage>,
    claims: map<Text, SettlementClaim>,
    lines: map<Text, CreditLine>,
    sync: map<Text, SyncState>,
    localRoots: map<Text, Hash>,
    log: seq<Transition>)

  // ---------------------------------------------------------------- the operations, on values

  function DomainAdded(s: ClientState, domain: Text): (ClientState, Result<()>) {
    if domain in s.domains then (s, Failure(Conflict)) else
    (s.(domains := s.domains[domain := NewLedger(domain)],
        localRoots := s.localRoots[domain := ZERO_HASH],
        sync := s.sync[domain := SyncState(domain, None, [], 0)]),
     Success(()))
  }

  /** The log with one more entry, numbered by its place. */
  function Logged(log: seq<Transition>, claimId: Text, from: FinalityStage, to: FinalityStage, risk: RiskLabel)
    : seq<Transition>
  {
    log + [Transition(|log| + 1, claimId, from, to, risk)]
  }

  function StatusUpdated(s: ClientState, claimId: Text, next: FinalityStage, risk: RiskLabel)
    : (ClientState, Result<()>)
  {
    if claimId !in s.claims then (s, Failure(NotFound)) else
    var claim := s.claims[claimId];
    if !IsStatusMonotonic(claim.finality, next) then (s, Failure(Conflict)) else
    (s.(claims := s.claims[claimId := claim.(finality := next)],
        claimStatus := s.claimStatus[claimId := next],
        log := Logged(s.log, claimId, claim.finality, next, risk)),
     Success(()))
  }

  function StatusBootstrapped(s: ClientState, claimId: Text, stage: FinalityStage, risk: RiskLabel): ClientState {
    s.(claimStatus := s.claimStatus[claimId := stage],
       log := Logged(s.log, claimId, stage, stage, risk))
  }

  function TxSubmitted(s: ClientState, domain: Text, txId: Text, tx: Transaction): (ClientState, Result<Event>) {
    if domain !in s.domains then (s, Failure(NotFound)) else
    var (ledger, r) := Submitted(s.domains[domain], txId, tx);
    (s.(domains := s.domains[domain := ledger]), r)
  }

  function CheckpointFinalized(s: ClientState, domain: Text, checkpointId: Text, txRoot: Hash, coord: SpacetimeCoord)
    : (ClientState, Result<Checkpoint>)
  {
    if domain !in s.domains then (s, Failure(NotFound)) else
    var (ledger, r) := Finalized(s.domains[domain], checkpointId, txRoot, coord);
    (s.(domains := s.domains[domain := ledger]), r)
  }

  // ---------------------------------------------------------------- the client object

  class UniverseClient {
    const policy: SettlementPolicy
    const sqrt: SquareRoot
    const registry: Registry
    var localDomains: map<Text, LocalLedgerDomain>
    var claimStatus: map<Text, FinalityStage>
    var pendingClaims: map<Text, SettlementClaim>
    var creditLines: map<Text, CreditLine>
    var syncState: map<Text, SyncState>
    var localRoots: map<Text, Hash>
    var transitionLog: seq<Transition>

    /** Each domain has a ledger object of its own. */
    ghost predicate Valid()
      reads this`localDomains
    {
      forall a, b :: a in localDomains && b in localDomains && a != b ==> localDomains[a] != localDomains[b]
    }

    ghost function Domains(): map<Text, LedgerState>
      reads this`localDomains, localDomains.Values
    {
      map d | d in localDomains :: localDomains[d].State()
    }

    ghost function State(): ClientState
      reads this, localDomains.Values
    {
      ClientState(policy, sqrt, registry, Domains(), claimStatus, pendingClaims, creditLines, syncState, localRoots,
                  transitionLog)
    }

    /** A client with no domains or claims, and the given credit lines. */
    constructor (policy: SettlementPolicy, sqrt: SquareRoot, lines: map<Text, CreditLine>)
      ensures Valid()
      ensures State() == ClientState(policy, sqrt, DefaultRegistry(), map[], map[], map[], lines, map[], map[], [])
    {
      this.policy, this.sqrt, registry := policy, sqrt, DefaultRegistry();
      localDomains, claimStatus, pendingClaims := map[], map[], map[];
      creditLines, syncState, localRoots, transitionLog := lines, map[], map[], [];
    }

    method AddDomain(domain: Text) returns (r: Result<()>)
      requires Valid()
      modifies this
      ensures Valid()
      ensures (State(), r) == DomainAdded(old(State()), domain)
    {
      if domain in localDomains {
        return Failure(Conflict);
      }
      var ledger := new LocalLedgerDomain(domain);
      localDomains := localDomains[domain := ledger];
      localRoots := localRoots[domain := ZERO_HASH];
      syncState := syncState[domain := SyncState(domain, None, [], 0)];
      assert Domains() == old(Domains())[domain := NewLedger(domain)];
      r := Success(());
    }

    method SubmitLocalTx(domain: Text, txId: Text, tx: Transaction) returns (r: Result<Event>)
      requires Valid()
      modifies localDomains.Values
      ensures Valid()
      ensures (State(), r) == TxSubmitted(old(State()), domain, txId, tx)
    {
      if domain !in localDomains {
        return Failure(NotFound);
      }
      r := localDomains[domain].SubmitLocalTx(txId, tx);
      assert Domains() == old(Domains())[domain := Submitted(old(Domains())[domain], txId, tx).0];
    }

    method FinalizeCheckpoint(domain: Text, checkpointId: Text, txRoot: Hash, coord: SpacetimeCoord)
      returns (r: Result<Checkpoint>)
      requires Valid()
      modifies localDomains.Values
      ensures Valid()
      ensures (State(), r) == CheckpointFinalized(old(State()), domain, checkpointId, txRoot, coord)
    {
      if domain !in localDomains {
        return Failure(NotFound);
      }
      r := localDomains[domain].FinalizeCheckpoint(checkpointId, txRoot, coord);
      assert Domains() == old(Domains())[domain := Finalized(old(Domains())[domain], checkpointId, txRoot, coord).0];
    }

    method UpdateClaimStatus(claimId: Text, next: FinalityStage, risk: RiskLabel) returns (r: Result<()>)
      requires Valid()
      modifies this`pendingClaims, this`claimStatus, this`transitionLog
      ensures Valid()
      ensures (State(), r) == StatusUpdated(old(State()), claimId, next, risk)
    {
      if claimId !in pendingClaims {
        return Failure(NotFound);
      }
      var prev := pendingClaims[claimId].finality;
      if !IsStatusMonotonic(prev, next) {
        return Failure(Conflict);
      }
      pendingClaims := pendingClaims[claimId := pendingClaims[claimId].(finality := next)];
      claimStatus := claimStatus[claimId := next];
      transitionLog := transitionLog + [Transition(|transitionLog| + 1, claimId, prev, next, risk)];
      r := Success(());
    }

    method BootstrapClaimStatus(claimId: Text, stage: FinalityStage, risk: RiskLabel)
      requires Valid()
      modifies this`claimStatus, this`transitionLog
      ensures Valid()
      ensures State() == StatusBootstrapped(old(State()), claimId, stage, risk)
    {
      claimStatus := claimStatus[claimId := stage];
      transitionLog := transitionLog + [Transition(|transitionLog| + 1, claimId, stage, stage, risk)];
    }
  }
}
