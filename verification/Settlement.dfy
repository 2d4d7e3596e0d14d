/** Opening settlement claims, and moving them towards bilateral settlement. */
module Settlement {
  import opened Prelude
  import opened Types
  import opened Hashing
  import opened Causal
  import opened CryptoPolicy
  import opened Ledger
  import opened Client

  datatype SettlementDecision = SettlementDecision(claimId: Text, approved: bool, finality: FinalityStage)

  // ---------------------------------------------------------------- helpers

  function DecimalText(n: nat): Text {
    if n < 10 then [48 + n] else DecimalText(n / 10) + [48 + n % 10]
  }

  /** The id `lock_for_export` gives a claim. */
  function LockClaimId(origin: Text, remote: Text, asset: Text, amount: U64, lockEventId: Text): Text {
    Ascii("claim:") + origin + Ascii(":") + remote + Ascii(":") + asset + Ascii(":")
    + DecimalText(amount) + Ascii(":") + lockEventId
  }

  function SyntheticLockCheckpoint(event: Event): Text {
    HexText(HashOf([EventBytes(event)]))
  }

  function LockCheckpointFor(ledger: LedgerState, event: Event): Text {
    if ledger.finalCheckpoint.Some? then ledger.finalCheckpoint.value.hash else SyntheticLockCheckpoint(event)
  }

  /** Length in bytes of the white-space character the text starts with, 0 when it starts with none. */
  function LeadingSpace(t: Text): (n: nat)
    ensures n <= |t|
  {
    if |t| >= 1 && (9 <= t[0] <= 13 || t[0] == 32) then 1
    else if |t| >= 2 && t[0] == 0xC2 && (t[1] == 0x85 || t[1] == 0xA0) then 2
    else if |t| >= 3 && t[0] == 0xE1 && t[1] == 0x9A && t[2] == 0x80 then 3
    else if |t| >= 3 && t[0] == 0xE2 && t[1] == 0x80
         && (0x80 <= t[2] <= 0x8A || t[2] == 0xA8 || t[2] == 0xA9 || t[2] == 0xAF) then 3
    else if |t| >= 3 && t[0] == 0xE2 && t[1] == 0x81 && t[2] == 0x9F then 3
    else if |t| >= 3 && t[0] == 0xE3 && t[1] == 0x80 && t[2] == 0x80 then 3
    else 0
  }

  /** `trim().is_empty()` */
  predicate IsBlank(t: Text)
    decreases |t|
  {
    t == [] || (LeadingSpace(t) > 0 && IsBlank(t[LeadingSpace(t)..]))
  }

  predicate UsesLock(claim: SettlementClaim, lockEventId: Text, origin: Text) {
    claim.lockEventId == lockEventId && claim.originDomain == origin && claim.finality != BilaterallySettled
  }

  predicate LockInUse(claims: map<Text, SettlementClaim>, lockEventId: Text, origin: Text) {
    exists id :: id in claims && UsesLock(claims[id], lockEventId, origin)
  }

  predicate HorizonExceedsPolicy(policy: SettlementPolicy, horizon: U64) {
    horizon > policy.maxHorizonYears
  }

  function DeriveClaimRoot(claim: SettlementClaim): Hash {
    if claim.lockCheckpoint == [] then ZERO_HASH
    else if ParseHash(claim.lockCheckpoint).Some? then ParseHash(claim.lockCheckpoint).value
    else ZERO_HASH
  }

  function RiskRank(risk: RiskLabel): nat {
    match risk
    case Low => 0
    case Medium => 1
    case High => 2
    case DoNotAcceptForCredit => 3
    case DoNotAcceptAtAll => 4
  }

  /** The riskier of the two labels. */
  function RiskLabelOrDefault(source: RiskLabel, floor: RiskLabel): RiskLabel {
    if RiskRank(source) < RiskRank(floor) then floor else source
  }

  // ---------------------------------------------------------------- the operations, on values

  function Opened(s: ClientState, claim: SettlementClaim): ClientState {
    StatusBootstrapped(s.(claims := s.claims[claim.claimId := claim]), claim.claimId, claim.finality, claim.riskLabel)
  }

  function LockClaim(s: ClientState, event: Event, origin: Text, remote: Text, asset: Text, amount: U64,
                     coord: SpacetimeCoord, horizon: U64): SettlementClaim
    requires origin in s.domains
  {
    SettlementClaim(
      LockClaimId(origin, remote, asset, amount, event.eventId), event.eventId, origin, remote, asset, amount,
      LockCheckpointFor(s.domains[origin], event), coord, event.causalDependencies, RemoteObserved, CryptoCurrent,
      if LightconePossible(s.sqrt, event.coord, coord, s.policy.lightconeSpeed) then LightconeStatus.Valid else Unknown,
      Medium, horizon)
  }

  function LockedForExport(s: ClientState, lockEventId: Text, origin: Text, remote: Text, asset: Text, amount: U64,
                           coord: SpacetimeCoord, horizon: U64): (ClientState, Result<SettlementClaim>) {
    if amount == 0 then (s, Failure(Validation))
    else if origin == remote then (s, Failure(Validation))
    else if HorizonExceedsPolicy(s.policy, horizon) then (s, Failure(Validation))
    else if origin !in s.domains then (s, Failure(NotFound))
    else
      var log := s.domains[origin].eventLog;
      var found := GetEvent(log, lockEventId);
      if found.None? then (s, Failure(NotFound)) else
      var event := found.value;
      if !DependenciesKnown(event.eventId, event.causalDependencies, EventIds(log)) then (s, Failure(Validation))
      else if LockInUse(s.claims, lockEventId, origin) then (s, Failure(Conflict))
      else if LockClaimId(origin, remote, asset, amount, lockEventId) in s.claims then (s, Failure(Conflict))
      else
        var claim := LockClaim(s, event, origin, remote, asset, amount, coord, horizon);
        (Opened(s, claim), Success(claim))
  }

  function ExplicitClaim(s: ClientState, claimId: Text, event: Event, origin: Text, remote: Text, asset: Text,
                         amount: U64)
    : SettlementClaim
    requires origin in s.domains
  {
    SettlementClaim(
      claimId, event.eventId, origin, remote, asset, amount, LockCheckpointFor(s.domains[origin], event),
      event.coord, event.causalDependencies, RemoteObserved, CryptoCurrent, Unknown, Medium, 5)
  }

  function SettlementClaimCreated(s: ClientState, claimId: Text, lockEventId: Text, origin: Text, remote: Text,
                                  asset: Text,
                                  amount: U64): (ClientState, Result<SettlementClaim>) {
    if claimId in s.claims then (s, Failure(Conflict))
    else if origin == remote then (s, Failure(Validation))
    else if amount == 0 then (s, Failure(Validation))
    else if origin !in s.domains then (s, Failure(NotFound))
    else
      var log := s.domains[origin].eventLog;
      var found := GetEvent(log, lockEventId);
      if found.None? then (s, Failure(Validation)) else
      var event := found.value;
      if !DependenciesKnown(event.eventId, event.causalDependencies, EventIds(log)) then (s, Failure(Validation))
      else if LockInUse(s.claims, lockEventId, origin) then (s, Failure(Conflict))
      else if IsBlank(claimId) then (s, Failure(Validation))
      else
        var claim := ExplicitClaim(s, claimId, event, origin, remote, asset, amount);
        (Opened(s, claim), Success(claim))
  }

  function ClaimVerified(s: ClientState, claimId: Text): (ClientState, Result<SettlementDecision>) {
    if claimId !in s.claims then (s, Failure(NotFound)) else
    var claim := s.claims[claimId];
    var refused := (s, Success(SettlementDecision(claim.claimId, false, claim.finality)));
    if |claim.lockCheckpoint| != 64 then refused
    else if HorizonExceedsPolicy(s.policy, claim.horizon) then refused
    else if claim.lightconeStatus == Invalid then refused
    else if ParseHash(claim.lockCheckpoint).None? then (s, Failure(Validation))
    else
      var root := ParseHash(claim.lockCheckpoint).value;
      var verification := VerifyCheckpointClaim(s.registry, root, WrapI64(claim.horizon));
      var risk := EvaluateCryptoRisk(s.registry, root, WrapI64(claim.horizon), None);
      if !verification.accepted then refused
      else if !CanGrantNewCredit(verification.status, risk, claim.horizon) then refused
      else if claim.finality == BilaterallySettled then refused
      else
        (s.(claims := s.claims[claimId := claim.(cryptoStatus := verification.status, riskLabel := risk.riskLabel)]),
         Success(SettlementDecision(claim.claimId, true, claim.finality)))
  }

  function RemoteClaimAccepted(s: ClientState, claimId: Text, checkpointId: Text)
    : (ClientState, Result<SettlementDecision>)
  {
    if claimId !in s.claims then (s, Failure(NotFound)) else
    var claim := s.claims[claimId];
    if claim.finality == BilaterallySettled then (s, Failure(Conflict))
    else if claim.finality == AcceptedByRemoteLedger then
      (s, Success(SettlementDecision(claimId, true, claim.finality)))
    else if checkpointId == [] then (s, Failure(Validation))
    else if claim.originDomain !in s.sync then (s, Failure(NotFound))
    else
      var sync := s.sync[claim.originDomain];
      if checkpointId !in sync.frontier && sync.lastTrusted != Some(checkpointId) then (s, Failure(Validation))
      else
        var (s', r) := StatusUpdated(s, claimId, AcceptedByRemoteLedger, claim.riskLabel);
        (s', match r
             case Failure(e) => Failure(e)
             case Success(_) => Success(SettlementDecision(claimId, true, AcceptedByRemoteLedger)))
  }

  /** The line is charged and the claim rewritten before the stage moves, as the code does. */
  function ClaimCredited(s: ClientState, claimId: Text, lineId: Text): (ClientState, Result<SettlementDecision>) {
    if claimId !in s.claims then (s, Failure(NotFound)) else
    var claim := s.claims[claimId];
    if claim.lightconeStatus == Invalid then (s, Failure(Validation))
    else if |claim.lockCheckpoint| != 64 then (s, Failure(Validation))
    else if claim.finality != RemoteObserved then (s, Failure(Conflict))
    else
      var root := DeriveClaimRoot(claim);
      var verification := VerifyCheckpointClaim(s.registry, root, WrapI64(claim.horizon));
      var risk := EvaluateCryptoRisk(s.registry, root, WrapI64(claim.horizon), None);
      if !verification.accepted then (s, Failure(Validation))
      else if !CanGrantNewCredit(verification.status, risk, claim.horizon) then (s, Failure(Validation))
      else if HorizonExceedsPolicy(s.policy, claim.horizon) then (s, Failure(Validation))
      else if lineId !in s.lines then (s, Failure(NotFound))
      else
        var line := s.lines[lineId];
        if SaturatingAdd(line.used, claim.amount) > line.limit then (s, Failure(Validation))
        else
          var staged := claim.(cryptoStatus := verification.status,
                               riskLabel := RiskLabelOrDefault(risk.riskLabel, s.policy.riskFloor));
          var charged := s.(lines := s.lines[lineId := line.(used := SaturatingAdd(line.used, claim.amount))],
                            claims := s.claims[claimId := staged]);
          var (s', r) := StatusUpdated(charged, claimId, ProvisionallyCredited, staged.riskLabel);
          (s', match r
               case Failure(e) => Failure(e)
               case Success(_) => Success(SettlementDecision(claimId, true, ProvisionallyCredited)))
  }

  function CheckpointApplied(s: ClientState, claimId: Text, checkpointId: Text): (ClientState, Result<()>) {
    if claimId !in s.claims then (s, Failure(NotFound)) else
    (s.(claims := s.claims[claimId := s.claims[claimId].(lockCheckpoint := checkpointId, lightconeStatus := Unknown)]),
     Success(()))
  }

  function BilaterallyMarked(s: ClientState, claimId: Text): (ClientState, Result<()>) {
    if claimId !in s.claims then (s, Failure(NotFound))
    else if s.claims[claimId].finality != OriginAcknowledged then (s, Failure(Conflict))
    else StatusUpdated(s, claimId, BilaterallySettled, Low)
  }

  // ---------------------------------------------------------------- the operations, on the client object

  method SyntheticCheckpoint(event: Event) returns (hex: Text)
    ensures hex == SyntheticLockCheckpoint(event)
  {
    var bytes := CanonicalBytes(event);
    var hash := HashChunks([bytes]);
    hex := HexText(hash);
  }

  method LockCheckpointOf(ledger: LocalLedgerDomain, event: Event) returns (id: Text)
    ensures id == LockCheckpointFor(ledger.State(), event)
  {
    if ledger.finalCheckpoint.Some? {
      id := ledger.finalCheckpoint.value.hash;
    } else {
      id := SyntheticCheckpoint(event);
    }
  }

  /** The last two steps of both ways to open a claim: store it, then record its status. */
  method Open(client: UniverseClient, claim: SettlementClaim)
    requires client.Valid()
    modifies client`pendingClaims, client`claimStatus, client`transitionLog
    ensures client.Valid()
    ensures client.State() == Opened(old(client.State()), claim)
  {
    client.pendingClaims := client.pendingClaims[claim.claimId := claim];
    client.BootstrapClaimStatus(claim.claimId, claim.finality, claim.riskLabel);
  }

  method LockForExport(client: UniverseClient, lockEventId: Text, origin: Text, remote: Text, asset: Text, amount: U64,
                       coord: SpacetimeCoord, horizon: U64)
    returns (r: Result<SettlementClaim>)
    requires client.Valid()
    modifies client`pendingClaims, client`claimStatus, client`transitionLog
    ensures client.Valid()
    ensures (client.State(), r)
         == LockedForExport(old(client.State()), lockEventId, origin, remote, asset, amount, coord, horizon)
  {
    hide LockCheckpointFor, LightconePossible, LockClaimId, DependenciesKnown, LockInUse, GetEvent, HasEvent, EventIds;
    if amount == 0 {
      return Failure(Validation);
    }
    if origin == remote {
      return Failure(Validation);
    }
    if horizon > client.policy.maxHorizonYears {
      return Failure(Validation);
    }
    if origin !in client.localDomains {
      return Failure(NotFound);
    }
    var domain := client.localDomains[origin];
    var found := GetEvent(domain.eventLog, lockEventId);
    if found.None? {
      return Failure(NotFound);
    }
    var event := found.value;
    var chain := ValidateEventDependencyChain(event.eventId, event.causalDependencies, EventIds(domain.eventLog));
    if chain.Failure? {
      return Failure(chain.error);
    }
    var cone := ValidateClaimLightcone(client.sqrt, event.coord, coord, client.policy.lightconeSpeed);
    var lightconeStatus := if cone.Success? then LightconeStatus.Valid else Unknown;
    if LockInUse(client.pendingClaims, lockEventId, origin) {
      return Failure(Conflict);
    }
    var lockCheckpoint := LockCheckpointOf(domain, event);
    var claimId := LockClaimId(origin, remote, asset, amount, lockEventId);
    if claimId in client.pendingClaims {
      return Failure(Conflict);
    }
    var claim := SettlementClaim(
      claimId, lockEventId, origin, remote, asset, amount, lockCheckpoint, coord, event.causalDependencies,
      RemoteObserved, CryptoCurrent, lightconeStatus, Medium, horizon);
    Open(client, claim);
    hide Opened;
    r := Success(claim);
  }

  method CreateSettlementClaim(client: UniverseClient, claimId: Text, lockEventId: Text, origin: Text, remote: Text,
                               asset: Text, amount: U64)
    returns (r: Result<SettlementClaim>)
    requires client.Valid()
    modifies client`pendingClaims, client`claimStatus, client`transitionLog
    ensures client.Valid()
    ensures (client.State(), r)
         == SettlementClaimCreated(old(client.State()), claimId, lockEventId, origin, remote, asset, amount)
  {
    hide LockCheckpointFor, DependenciesKnown, LockInUse, GetEvent, HasEvent, IsBlank;
    if claimId in client.pendingClaims {
      return Failure(Conflict);
    }
    if origin == remote {
      return Failure(Validation);
    }
    if amount == 0 {
      return Failure(Validation);
    }
    if origin !in client.localDomains {
      return Failure(NotFound);
    }
    var domain := client.localDomains[origin];
    var found := GetEvent(domain.eventLog, lockEventId);
    if found.None? {
      return Failure(Validation);
    }
    var event := found.value;
    var chain := ValidateEventDependencyChain(event.eventId, event.causalDependencies, EventIds(domain.eventLog));
    if chain.Failure? {
      return Failure(chain.error);
    }
    if LockInUse(client.pendingClaims, lockEventId, origin) {
      return Failure(Conflict);
    }
    var lockCheckpoint := LockCheckpointOf(domain, event);
    if IsBlank(claimId) {
      return Failure(Validation);
    }
    var claim := SettlementClaim(
      claimId, lockEventId, origin, remote, asset, amount, lockCheckpoint, event.coord, event.causalDependencies,
      RemoteObserved, CryptoCurrent, Unknown, Medium, 5);
    Open(client, claim);
    hide Opened;
    r := Success(claim);
  }

  method VerifySettlementClaim(client: UniverseClient, claimId: Text) returns (r: Result<SettlementDecision>)
    requires client.Valid()
    modifies client`pendingClaims
    ensures client.Valid()
    ensures (client.State(), r) == ClaimVerified(old(client.State()), claimId)
  {
    hide ParseHash, VerifyCheckpointClaim, EvaluateCryptoRisk, CanGrantNewCredit;
    if claimId !in client.pendingClaims {
      return Failure(NotFound);
    }
    var claim := client.pendingClaims[claimId];
    var refused := SettlementDecision(claim.claimId, false, claim.finality);
    if |claim.lockCheckpoint| != 64 {
      return Success(refused);
    }
    if HorizonExceedsPolicy(client.policy, claim.horizon) {
      return Success(refused);
    }
    if claim.lightconeStatus == Invalid {
      return Success(refused);
    }
    var parsed := HashHexToBytes(claim.lockCheckpoint);
    if parsed.None? {
      return Failure(Validation);
    }
    var verification := VerifyCheckpointClaim(client.registry, parsed.value, WrapI64(claim.horizon));
    if !verification.accepted {
      return Success(refused);
    }
    var risk := EvaluateCryptoRisk(client.registry, parsed.value, WrapI64(claim.horizon), None);
    if !CanGrantNewCredit(verification.status, risk, claim.horizon) {
      return Success(refused);
    }
    if claim.finality == BilaterallySettled {
      return Success(refused);
    }
    var staged := claim.(cryptoStatus := verification.status, riskLabel := risk.riskLabel);
    client.pendingClaims := client.pendingClaims[claimId := staged];
    r := Success(SettlementDecision(claim.claimId, true, claim.finality));
  }

  method AcceptRemoteClaim(client: UniverseClient, claimId: Text, checkpointId: Text)
    returns (r: Result<SettlementDecision>)
    requires client.Valid()
    modifies client`pendingClaims, client`claimStatus, client`transitionLog
    ensures client.Valid()
    ensures (client.State(), r) == RemoteClaimAccepted(old(client.State()), claimId, checkpointId)
  {
    if claimId !in client.pendingClaims {
      return Failure(NotFound);
    }
    var claim := client.pendingClaims[claimId];
    if claim.finality == BilaterallySettled {
      return Failure(Conflict);
    }
    if claim.finality == FinalityStage.AcceptedByRemoteLedger {
      return Success(SettlementDecision(claimId, true, claim.finality));
    }
    if checkpointId == [] {
      return Failure(Validation);
    }
    if claim.originDomain !in client.syncState {
      return Failure(NotFound);
    }
    var sync := client.syncState[claim.originDomain];
    if checkpointId !in sync.frontier && sync.lastTrusted != Some(checkpointId) {
      return Failure(Validation);
    }
    var moved := client.UpdateClaimStatus(claimId, AcceptedByRemoteLedger, claim.riskLabel);
    if moved.Failure? {
      return Failure(moved.error);
    }
    r := Success(SettlementDecision(claimId, true, AcceptedByRemoteLedger));
  }

  method ProvisionallyCredit(client: UniverseClient, claimId: Text, lineId: Text)
    returns (r: Result<SettlementDecision>)
    requires client.Valid()
    modifies client`pendingClaims, client`claimStatus, client`transitionLog, client`creditLines
    ensures client.Valid()
    ensures (client.State(), r) == ClaimCredited(old(client.State()), claimId, lineId)
  {
    hide ParseHash, VerifyCheckpointClaim, EvaluateCryptoRisk, CanGrantNewCredit, RiskLabelOrDefault;
    if claimId !in client.pendingClaims {
      return Failure(NotFound);
    }
    var claim := client.pendingClaims[claimId];
    if claim.lightconeStatus == Invalid {
      return Failure(Validation);
    }
    if |claim.lockCheckpoint| != 64 {
      return Failure(Validation);
    }
    if claim.finality != RemoteObserved {
      return Failure(Conflict);
    }
    var root := DeriveClaimRoot(claim);
    var verification := VerifyCheckpointClaim(client.registry, root, WrapI64(claim.horizon));
    var risk := EvaluateCryptoRisk(client.registry, root, WrapI64(claim.horizon), None);
    if !verification.accepted {
      return Failure(Validation);
    }
    if !CanGrantNewCredit(verification.status, risk, claim.horizon) {
      return Failure(Validation);
    }
    if claim.horizon > client.policy.maxHorizonYears {
      return Failure(Validation);
    }
    if lineId !in client.creditLines {
      return Failure(NotFound);
    }
    var line := client.creditLines[lineId];
    if SaturatingAdd(line.used, claim.amount) > line.limit {
      return Failure(Validation);
    }
    client.creditLines := client.creditLines[lineId := line.(used := SaturatingAdd(line.used, claim.amount))];
    claim := claim.(cryptoStatus := verification.status,
                    riskLabel := RiskLabelOrDefault(risk.riskLabel, client.policy.riskFloor));
    client.pendingClaims := client.pendingClaims[claimId := claim];
    var moved := client.UpdateClaimStatus(claimId, FinalityStage.ProvisionallyCredited, claim.riskLabel);
    match moved {
      case Failure(error) => r := Failure(error);
      case Success(_) => r := Success(SettlementDecision(claimId, true, FinalityStage.ProvisionallyCredited));
    }
  }

  method ApplyCheckpointToClaim(client: UniverseClient, claimId: Text, checkpointId: Text) returns (r: Result<()>)
    requires client.Valid()
    modifies client`pendingClaims
    ensures client.Valid()
    ensures (client.State(), r) == CheckpointApplied(old(client.State()), claimId, checkpointId)
  {
    if claimId !in client.pendingClaims {
      return Failure(NotFound);
    }
    var claim := client.pendingClaims[claimId];
    client.pendingClaims :=
      client.pendingClaims[claimId := claim.(lockCheckpoint := checkpointId, lightconeStatus := Unknown)];
    r := Success(());
  }

  method MarkBilaterallySettled(client: UniverseClient, claimId: Text) returns (r: Result<()>)
    requires client.Valid()
    modifies client`pendingClaims, client`claimStatus, client`transitionLog
    ensures client.Valid()
    ensures (client.State(), r) == BilaterallyMarked(old(client.State()), claimId)
  {
    if claimId !in client.pendingClaims {
      return Failure(NotFound);
    }
    if client.pendingClaims[claimId].finality != OriginAcknowledged {
      return Failure(Conflict);
    }
    r := client.UpdateClaimStatus(claimId, BilaterallySettled, Low);
  }

  // ---------------------------------------------------------------- what verification changes

  /** All that verification does to the claims. */
  lemma VerifyShape(s: ClientState, id: Text)
    ensures var claims := ClaimVerified(s, id).0.claims;
            || claims == s.claims
            || (id in s.claims && id in claims
                && claims == s.claims[id := s.claims[id].(cryptoStatus := claims[id].cryptoStatus,
                                                          riskLabel := claims[id].riskLabel)])
  {
    hide ParseHash, WrapI64, VerifyCheckpointClaim, EvaluateCryptoRisk, CanGrantNewCredit, HorizonExceedsPolicy;
  }

  // ---------------------------------------------------------------- white space

  /** The white-space characters, in UTF-8. */
  const WHITE_SPACE: seq<Text> := [
    [0x09], [0x0A], [0x0B], [0x0C], [0x0D], [0x20], [0xC2, 0x85], [0xC2, 0xA0], [0xE1, 0x9A, 0x80],
    [0xE2, 0x80, 0x80], [0xE2, 0x80, 0x81], [0xE2, 0x80, 0x82], [0xE2, 0x80, 0x83], [0xE2, 0x80, 0x84],
    [0xE2, 0x80, 0x85], [0xE2, 0x80, 0x86], [0xE2, 0x80, 0x87], [0xE2, 0x80, 0x88], [0xE2, 0x80, 0x89],
    [0xE2, 0x80, 0x8A], [0xE2, 0x80, 0xA8], [0xE2, 0x80, 0xA9], [0xE2, 0x80, 0xAF], [0xE2, 0x81, 0x9F],
    [0xE3, 0x80, 0x80]]

  ghost predicate AllWhite(parts: seq<Text>) {
    forall i :: 0 <= i < |parts| ==> parts[i] in WHITE_SPACE
  }

  function Concatenated(parts: seq<Text>): Text {
    if parts == [] then [] else parts[0] + Concatenated(parts[1..])
  }

  /** The text begins with a white-space character exactly when `LeadingSpace` finds its length. */
  lemma LeadingExact(t: Text, white: Text)
    ensures white in WHITE_SPACE && white <= t ==> LeadingSpace(t) == |white| > 0
    ensures LeadingSpace(t) > 0 ==> t[..LeadingSpace(t)] in WHITE_SPACE
  {
    if LeadingSpace(t) > 0 {
      FoundSpace(t);
    }
  }

  lemma FoundSpace(t: Text)
    requires LeadingSpace(t) > 0
    ensures t[..LeadingSpace(t)] in WHITE_SPACE
  {
    var n := LeadingSpace(t);
    var found := t[..n];
    if n == 1 {
      assert found == WHITE_SPACE[if t[0] == 32 then 5 else t[0] - 9];
    } else if n == 2 {
      assert found == WHITE_SPACE[if t[1] == 0x85 then 6 else 7];
    } else {
      var at := ThreeByteSpace(t);
      assert found == WHITE_SPACE[at];
    }
  }

  lemma ThreeByteSpace(t: Text) returns (at: nat)
    requires LeadingSpace(t) == 3
    ensures at < |WHITE_SPACE| && t[..3] == WHITE_SPACE[at]
  {
    at := if t[0] == 0xE1 then 8
          else if t[0] == 0xE3 then 24
          else if t[1] == 0x81 then 23
          else if t[2] == 0xA8 then 20
          else if t[2] == 0xA9 then 21
          else if t[2] == 0xAF then 22
          else 9 + (t[2] - 0x80);
    assert t[..3] == [t[0], t[1], t[2]];
  }

  /** A text is blank exactly when it is made of white-space characters. */
  lemma {:induction false} BlankIsWhite(t: Text) returns (parts: seq<Text>)
    requires IsBlank(t)
    ensures AllWhite(parts) && t == Concatenated(parts)
    decreases |t|
  {
    hide WHITE_SPACE, LeadingSpace;
    if t == [] {
      parts := [];
    } else {
      var n := LeadingSpace(t);
      LeadingExact(t, t[..n]);
      var rest := BlankIsWhite(t[n..]);
      parts := [t[..n]] + rest;
      assert parts[1..] == rest;
      assert t == t[..n] + t[n..];
    }
  }

  lemma {:induction false} WhiteIsBlank(parts: seq<Text>)
    requires AllWhite(parts)
    ensures IsBlank(Concatenated(parts))
    decreases |parts|
  {
    hide WHITE_SPACE, LeadingSpace;
    if parts == [] {
    } else {
      var rest := parts[1..];
      assert AllWhite(rest) by {
        assert forall i :: 0 <= i < |rest| ==> rest[i] == parts[i + 1];
      }
      WhiteIsBlank(rest);
      var t := Concatenated(parts);
      LeadingExact(t, parts[0]);
      assert t[|parts[0]|..] == Concatenated(rest);
    }
  }

  // ---------------------------------------------------------------- the two gates agree

  function Approved(r: Result<SettlementDecision>): bool {
    r.Success? && r.value.approved
  }

  lemma WellFormedRoot(claim: SettlementClaim)
    requires |claim.lockCheckpoint| == 64
    ensures DeriveClaimRoot(claim)
         == if IsHash(claim.lockCheckpoint) then ParseHash(claim.lockCheckpoint).value else ZERO_HASH
  {
  }

  lemma PlaceholderNeverGranted(registry: Registry, horizon: U64)
    ensures !GateGrants(registry, ZERO_HASH, horizon)
  {
  }

  /**
   * The verification path and the credit path are one gate: crediting succeeds exactly when verification approves,
   * the line exists and it has room. A malformed lock checkpoint fails both, though one path reports an error for it
   * and the other falls back to the placeholder root.
   */
  lemma GatesAgree(s: ClientState, claimId: Text, lineId: Text)
    requires claimId in s.claims && s.claims[claimId].finality == RemoteObserved
    ensures ClaimCredited(s, claimId, lineId).1.Success? <==>
            && Approved(ClaimVerified(s, claimId).1)
            && lineId in s.lines
            && SaturatingAdd(s.lines[lineId].used, s.claims[claimId].amount) <= s.lines[lineId].limit
  {
    hide ParseHash, VerifyCheckpointClaim, EvaluateCryptoRisk, CanGrantNewCredit;
    var claim := s.claims[claimId];
    if |claim.lockCheckpoint| == 64 {
      WellFormedRoot(claim);
      PlaceholderNeverGranted(s.registry, claim.horizon);
    }
  }
}
