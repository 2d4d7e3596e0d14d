/** Crypto eras, and the gate that decides whether a claim's root may carry new credit. */
module CryptoPolicy {
  import opened Prelude
  import opened Types

  datatype CryptoStatus =
    | CryptoCurrent
    | CryptoDeprecatedButRenewed
    | CryptoStaleNeedsRenewal
    | CryptoBrokenUntrusted
    | CryptoUnknownSuite
    | PhysicalAnchorOnly

  datatype RiskLabel = Low | Medium | High | DoNotAcceptForCredit | DoNotAcceptAtAll

  datatype CryptoEra = CryptoEra(
    eraId: string,
    hardRejectAfter: I64,
    softDeprecationWarning: Option<I64>,
    acceptedSuites: seq<string>)

  datatype CryptoRisk = CryptoRisk(
    cryptoEraId: string,
    weakestSignatureSuite: string,
    yearsUntilHardReject: Option<I64>,
    yearsUntilSoftWarning: Option<I64>,
    renewalChainDepth: nat,
    hasHashBasedAnchor: bool,
    hasPhysicalAnchor: bool,
    riskLabel: RiskLabel)

  datatype CryptoVerification = CryptoVerification(accepted: bool, status: CryptoStatus)

  type Registry = map<string, CryptoEra>

  const STABLE := CryptoEra("era-stable-multi-family", 200, Some(140), ["ml-dsa", "slh-dsa"])
  const DEPRECATED := CryptoEra("era-deprecated-single", 80, Some(40), ["ml-dsa"])
  const STALE := CryptoEra("era-stale", 0, None, [])
  const BACKUP := CryptoEra("era-backup", 120, Some(90), ["ml-dsa"])

  function DefaultRegistry(): Registry {
    map["era-stable-multi-family" := STABLE, "era-deprecated-single" := DEPRECATED, "era-stale" := STALE]
  }

  function ResolveByHash(registry: Registry, root: Hash): CryptoEra {
    if root == ZERO_HASH then
      if "era-stale" in registry then registry["era-stale"] else STALE
    else if root[0] % 3 == 0 then
      if "era-deprecated-single" in registry then registry["era-deprecated-single"] else BACKUP
    else
      if "era-stable-multi-family" in registry then registry["era-stable-multi-family"] else BACKUP
  }

  function VerifyCheckpointCrypto(era: CryptoEra, now: I64, proof: Hash): CryptoVerification {
    if proof == ZERO_HASH then
      CryptoVerification(false, CryptoStaleNeedsRenewal)
    else if era.softDeprecationWarning.None? && now > era.hardRejectAfter then
      CryptoVerification(false, CryptoBrokenUntrusted)
    else if now > era.hardRejectAfter then
      CryptoVerification(false, CryptoBrokenUntrusted)
    else if era.softDeprecationWarning.Some? && now >= era.softDeprecationWarning.value then
      CryptoVerification(true, CryptoDeprecatedButRenewed)
    else
      CryptoVerification(true, CryptoCurrent)
  }

  function VerifyCheckpointClaim(registry: Registry, root: Hash, observedTime: I64): CryptoVerification {
    VerifyCheckpointCrypto(ResolveByHash(registry, root), observedTime, root)
  }

  function RiskOfStatus(status: CryptoStatus): RiskLabel {
    match status
    case CryptoCurrent => Medium
    case CryptoDeprecatedButRenewed => High
    case CryptoStaleNeedsRenewal => DoNotAcceptForCredit
    case CryptoBrokenUntrusted => DoNotAcceptAtAll
    case CryptoUnknownSuite => High
    case PhysicalAnchorOnly => High
  }

  function EvaluateCryptoRisk(registry: Registry, root: Hash, observedTime: I64, renewalParent: Option<Hash>)
    : CryptoRisk
  {
    var status := VerifyCheckpointClaim(registry, root, observedTime).status;
    var era := ResolveByHash(registry, root);
    CryptoRisk(
      era.eraId,
      if era.acceptedSuites == [] then "unknown" else era.acceptedSuites[0],
      Some(WrapI64(era.hardRejectAfter - observedTime)),
      match era.softDeprecationWarning
        case Some(warn) => Some(WrapI64(warn - observedTime))
        case None => None,
      if renewalParent.Some? then 1 else 0,
      era.acceptedSuites != [],
      true,
      RiskOfStatus(status))
  }

  function CanGrantNewCredit(status: CryptoStatus, risk: CryptoRisk, horizon: U64): bool {
    if status.CryptoStaleNeedsRenewal? || status.CryptoBrokenUntrusted? || status.CryptoUnknownSuite? then false
    else if horizon == 0 then false
    else if risk.yearsUntilHardReject.Some? && risk.yearsUntilHardReject.value < WrapI64(horizon) then false
    else if !risk.hasHashBasedAnchor then false
    else if !risk.hasPhysicalAnchor && (risk.riskLabel.Low? || risk.riskLabel.Medium?) then false
    else if risk.riskLabel.DoNotAcceptAtAll? || risk.riskLabel.DoNotAcceptForCredit? then false
    else true
  }

  /** The composed gate both settlement paths apply to a claim's root and horizon. */
  predicate GateGrants(registry: Registry, root: Hash, horizon: U64) {
    var observed := WrapI64(horizon);
    var verification := VerifyCheckpointClaim(registry, root, observed);
    && verification.accepted
    && CanGrantNewCredit(verification.status, EvaluateCryptoRisk(registry, root, observed, None), horizon)
  }

  function AssertEraRenewalChain(registry: Registry, newRoot: Hash, renewalRoot: Option<Hash>, observedTime: I64)
    : Result<CryptoVerification>
  {
    var verification := VerifyCheckpointClaim(registry, newRoot, observedTime);
    if !verification.accepted then Failure(Crypto)
    else if renewalRoot.Some? && !VerifyCheckpointClaim(registry, renewalRoot.value, observedTime).accepted then
      Failure(Crypto)
    else Success(verification)
  }

  // ---------------------------------------------------------------- what the gate amounts to

  /** A status is never granted unless it is one of the two accepted ones, each carrying its own risk label. */
  lemma GrantedStatus(registry: Registry, root: Hash, horizon: U64)
    requires GateGrants(registry, root, horizon)
    ensures var era, observed := ResolveByHash(registry, root), WrapI64(horizon);
            var status := VerifyCheckpointClaim(registry, root, observed).status;
            var risk := EvaluateCryptoRisk(registry, root, observed, None).riskLabel;
            if era.softDeprecationWarning.Some? && observed >= era.softDeprecationWarning.value
            then status == CryptoDeprecatedButRenewed && risk == High
            else status == CryptoCurrent && risk == Medium
  {
  }

  /**
   * Below 2^63 years the gate is exactly: a real root, a positive horizon, twice the horizon before hard reject, a
   * suite.
   */
  lemma ExactCreditHorizon(registry: Registry, root: Hash, horizon: U64)
    requires horizon < TWO_63
    ensures var era := ResolveByHash(registry, root);
            GateGrants(registry, root, horizon) <==>
            && root != ZERO_HASH
            && 1 <= horizon
            && 2 * horizon <= era.hardRejectAfter
            && era.acceptedSuites != []
  {
    var era := ResolveByHash(registry, root);
    assert WrapI64(horizon) == horizon;
    if horizon <= era.hardRejectAfter {
      assert WrapI64(era.hardRejectAfter - horizon) == era.hardRejectAfter - horizon;
    }
  }

  /**
   * From 2^63 on the cast to a signed number turns the horizon negative. The gate then grants everything up to an
   * era's own hard reject, read as such a number, except a window of `hardRejectAfter / 2` horizons.
   */
  lemma ExactHugeHorizon(registry: Registry, root: Hash, horizon: U64)
    requires horizon >= TWO_63
    ensures var era := ResolveByHash(registry, root);
            GateGrants(registry, root, horizon) <==>
            && root != ZERO_HASH
            && era.acceptedSuites != []
            && horizon <= TWO_64 + era.hardRejectAfter
            && !(2 * horizon > TWO_64 + era.hardRejectAfter && horizon <= TWO_63 + era.hardRejectAfter)
  {
    var era := ResolveByHash(registry, root);
    var now := WrapI64(horizon);
    assert now == horizon - TWO_64;
    var exact := era.hardRejectAfter - now;
    assert WrapI64(exact) == if exact < TWO_63 then exact else exact - TWO_64;
  }

  /** In the built-in eras every real root may carry credit for 2^63 years. */
  lemma HugeHorizonGranted(root: Hash)
    requires root != ZERO_HASH
    ensures GateGrants(DefaultRegistry(), root, TWO_63)
  {
    ExactHugeHorizon(DefaultRegistry(), root, TWO_63);
  }

  /** With the built-in eras the longest creditable horizon is 40 or 100 years, by the first byte of the root. */
  lemma DefaultCreditHorizon(root: Hash, horizon: U64)
    requires horizon < TWO_63
    ensures GateGrants(DefaultRegistry(), root, horizon) <==>
            root != ZERO_HASH && 1 <= horizon <= if root[0] % 3 == 0 then 40 else 100
    ensures GateGrants(DefaultRegistry(), root, horizon) ==>
            VerifyCheckpointClaim(DefaultRegistry(), root, horizon).status
            == if root[0] % 3 == 0 && horizon == 40 then CryptoDeprecatedButRenewed else CryptoCurrent
  {
    ExactCreditHorizon(DefaultRegistry(), root, horizon);
    if GateGrants(DefaultRegistry(), root, horizon) {
      GrantedStatus(DefaultRegistry(), root, horizon);
    }
  }

  /** A renewal is accepted exactly when no root involved is the placeholder or past its own era's hard reject. */
  lemma RenewalChainExact(registry: Registry, newRoot: Hash, renewalRoot: Option<Hash>, observedTime: I64)
    ensures AssertEraRenewalChain(registry, newRoot, renewalRoot, observedTime).Success? <==>
            forall root :: root == newRoot || renewalRoot == Some(root) ==>
              root != ZERO_HASH && observedTime <= ResolveByHash(registry, root).hardRejectAfter
  {
    var accepted := AssertEraRenewalChain(registry, newRoot, renewalRoot, observedTime).Success?;
    var fine := (root: Hash) => root != ZERO_HASH && observedTime <= ResolveByHash(registry, root).hardRejectAfter;
    assert accepted <==> fine(newRoot) && (renewalRoot.Some? ==> fine(renewalRoot.value));
  }

  /** The verification of a root at a time, by the era the root falls in. */
  lemma VerificationExact(registry: Registry, root: Hash, now: I64)
    ensures var v, era := VerifyCheckpointClaim(registry, root, now), ResolveByHash(registry, root);
            && (v.accepted <==> root != ZERO_HASH && now <= era.hardRejectAfter)
            && (v.status == CryptoStaleNeedsRenewal <==> root == ZERO_HASH)
            && (v.status == CryptoBrokenUntrusted <==> root != ZERO_HASH && now > era.hardRejectAfter)
            && (v.status == CryptoDeprecatedButRenewed <==>
                  v.accepted && era.softDeprecationWarning.Some? && now >= era.softDeprecationWarning.value)
            && (v.accepted ==> v.status == CryptoDeprecatedButRenewed || v.status == CryptoCurrent)
  {
  }

  /** The built-in eras: trusted for 80 or 200 years, deprecated from year 40 or 140 on, by the root's first byte. */
  lemma DefaultVerification(root: Hash, now: I64)
    ensures var v, single := VerifyCheckpointClaim(DefaultRegistry(), root, now), root[0] % 3 == 0;
            && (v.accepted <==> root != ZERO_HASH && now <= if single then 80 else 200)
            && (v.accepted ==>
                  v.status == if now >= (if single then 40 else 140) then CryptoDeprecatedButRenewed else CryptoCurrent)
  {
  }

  /** A registry without eras: every real root is trusted for 120 years, and deprecated from year 90 on. */
  lemma EmptyVerification(root: Hash, now: I64)
    ensures var v := VerifyCheckpointClaim(map[], root, now);
            && (v.accepted <==> root != ZERO_HASH && now <= 120)
            && (v.accepted ==> v.status == if now >= 90 then CryptoDeprecatedButRenewed else CryptoCurrent)
  {
  }

  /** An accepted renewal reports the verification of the new root. */
  lemma RenewalReports(registry: Registry, newRoot: Hash, renewalRoot: Option<Hash>, observedTime: I64)
    ensures var r := AssertEraRenewalChain(registry, newRoot, renewalRoot, observedTime);
            && (r.Success? ==> r.value == VerifyCheckpointClaim(registry, newRoot, observedTime))
            && (r.Failure? ==> r.error == Crypto)
  {
  }

  /** The label of a risk, by the verification it rests on. */
  lemma RiskLabels(registry: Registry, root: Hash, now: I64, parent: Option<Hash>)
    ensures var v, risk := VerifyCheckpointClaim(registry, root, now), EvaluateCryptoRisk(registry, root, now, parent);
            && (risk.riskLabel == Medium <==> v.status == CryptoCurrent)
            && (risk.riskLabel == High <==> v.status == CryptoDeprecatedButRenewed)
            && (risk.riskLabel == DoNotAcceptForCredit <==> root == ZERO_HASH)
            && (risk.riskLabel == DoNotAcceptAtAll <==> v.status == CryptoBrokenUntrusted)
  {
    VerificationExact(registry, root, now);
  }

  /** What a risk reports besides: the era, its first suite, the years left as 64-bit subtraction gives them. */
  lemma RiskReports(registry: Registry, root: Hash, now: I64, parent: Option<Hash>)
    ensures var risk, era := EvaluateCryptoRisk(registry, root, now, parent), ResolveByHash(registry, root);
            && risk.cryptoEraId == era.eraId
            && (era.acceptedSuites == [] ==> risk.weakestSignatureSuite == "unknown" && !risk.hasHashBasedAnchor)
            && (era.acceptedSuites != [] ==>
                  risk.weakestSignatureSuite == era.acceptedSuites[0] && risk.hasHashBasedAnchor)
            && risk.yearsUntilHardReject.Some?
            && (risk.yearsUntilHardReject.value - (era.hardRejectAfter - now)) % TWO_64 == 0
            && (risk.yearsUntilSoftWarning.Some? <==> era.softDeprecationWarning.Some?)
            && (era.softDeprecationWarning.Some? ==>
                  (risk.yearsUntilSoftWarning.value - (era.softDeprecationWarning.value - now)) % TWO_64 == 0)
            && risk.renewalChainDepth == (if parent.Some? then 1 else 0) && risk.hasPhysicalAnchor
  {
  }
}
