/** Reconciling checkpoints, detecting conflicts, and catching up after being offline. */
module Sync {
  import opened Prelude
  import opened Order
  import opened Ledger
  import opened Client

  // ---------------------------------------------------------------- trusting one checkpoint

  function Trusted(st: SyncState, checkpointId: Text, height: Option<I64>): SyncState {
    SyncState(st.domain, Some(checkpointId),
              if checkpointId in st.frontier then st.frontier else st.frontier + [checkpointId],
              if height.Some? then Max(st.watermark, height.value) else st.watermark)
  }

  /** The final checkpoint is replaced before the sync state is looked up, as the code does. */
  function CheckpointReconciled(s: ClientState, cp: Checkpoint): (ClientState, Result<nat>) {
    if cp.domainId !in s.domains then (s, Failure(NotFound)) else
    var ledger := s.domains[cp.domainId];
    var existing := ledger.finalCheckpoint;
    if existing.Some? && cp.height < existing.value.height then (s, Failure(Conflict))
    else if existing.Some? && cp.height == existing.value.height && existing.value.hash != cp.hash then
      (s, Failure(Conflict))
    else
      var s' := s.(domains := s.domains[cp.domainId := ledger.(finalCheckpoint := Some(cp))]);
      if cp.domainId !in s.sync then (s', Failure(NotFound)) else
      (s'.(sync := s.sync[cp.domainId := Trusted(s.sync[cp.domainId], cp.hash, Some(WrapI64(cp.height)))]), Success(1))
  }

  lemma TrustedInSteps(st: SyncState, id: Text, height: I64)
    ensures Trusted(st, id, Some(height))
         == (if id in st.frontier then st else st.(frontier := st.frontier + [id]))
            .(lastTrusted := Some(id), watermark := Max(st.watermark, height))
  {
  }

  method ReconcileCheckpoint(client: UniverseClient, cp: Checkpoint) returns (r: Result<nat>)
    requires client.Valid()
    modifies client`syncState, client.localDomains.Values
    ensures client.Valid()
    ensures (client.State(), r) == CheckpointReconciled(old(client.State()), cp)
  {
    if cp.domainId !in client.localDomains {
      return Failure(NotFound);
    }
    var domain := client.localDomains[cp.domainId];
    ghost var before := client.Domains();
    hide Trusted, WrapI64;
    if domain.finalCheckpoint.Some? {
      var existing := domain.finalCheckpoint.value;
      if cp.height < existing.height {
        return Failure(Conflict);
      }
      if cp.height == existing.height && existing.hash != cp.hash {
        return Failure(Conflict);
      }
    }
    domain.finalCheckpoint := Some(cp);
    assert forall d :: d in client.localDomains && d != cp.domainId ==> client.localDomains[d] != domain;
    assert client.Domains() == before[cp.domainId := before[cp.domainId].(finalCheckpoint := Some(cp))];
    if cp.domainId !in client.syncState {
      return Failure(NotFound);
    }
    var state := client.syncState[cp.domainId];
    if cp.hash !in state.frontier {
      state := state.(frontier := state.frontier + [cp.hash]);
    }
    state := state.(lastTrusted := Some(cp.hash));
    state := state.(watermark := Max(state.watermark, WrapI64(cp.height)));
    client.syncState := client.syncState[cp.domainId := state];
    TrustedInSteps(old(client.syncState)[cp.domainId], cp.hash, WrapI64(cp.height));
    assert client.Domains() == before[cp.domainId := before[cp.domainId].(finalCheckpoint := Some(cp))];
    r := Success(1);
  }

  // ---------------------------------------------------------------- conflicts

  predicate DetectConflict(a: SettlementClaim, b: SettlementClaim) {
    && a.claimId != b.claimId
    && a.originDomain == b.originDomain
    && a.finality != BilaterallySettled
    && b.finality != BilaterallySettled
    && (a.lockEventId == b.lockEventId || (a.assetId == b.assetId && a.amount == b.amount))
  }

  // ---------------------------------------------------------------- anchors

  const COLON: Byte := 58

  /** `split(':')` */
  function SplitColon(t: Text): (parts: seq<Text>)
    ensures |parts| >= 1
  {
    if t == [] then [[]] else
    var rest := SplitColon(t[1..]);
    if t[0] == COLON then [[]] + rest else [[t[0]] + rest[0]] + rest[1..]
  }

  function JoinColon(parts: seq<Text>): Text
    requires |parts| >= 1
  {
    if |parts| == 1 then parts[0] else parts[0] + [COLON] + JoinColon(parts[1..])
  }

  lemma JoinWithFirst(c: Byte, parts: seq<Text>)
    requires |parts| >= 1
    ensures JoinColon([[c] + parts[0]] + parts[1..]) == [c] + JoinColon(parts)
  {
    var longer := [[c] + parts[0]] + parts[1..];
    assert longer[1..] == parts[1..];
    if |parts| > 1 {
      var rest := [COLON] + JoinColon(parts[1..]);
      assert JoinColon(parts) == parts[0] + rest;
      Assoc([c], parts[0], rest);
      Assoc([c] + parts[0], [COLON], JoinColon(parts[1..]));
      Assoc(parts[0], [COLON], JoinColon(parts[1..]));
    }
  }

  /** Splitting finds the colon-free parts whose join is the text. */
  lemma {:induction false} SplitJoins(t: Text)
    ensures JoinColon(SplitColon(t)) == t
    ensures forall i :: 0 <= i < |SplitColon(t)| ==> COLON !in SplitColon(t)[i]
  {
    if t == [] {
    } else {
      var rest := SplitColon(t[1..]);
      SplitJoins(t[1..]);
      if t[0] == COLON {
        assert SplitColon(t)[1..] == rest;
        assert [] + [COLON] + t[1..] == t;
      } else {
        JoinWithFirst(t[0], rest);
        assert [t[0]] + t[1..] == t;
      }
    }
  }

  function DigitsValue(t: Text): Option<nat> {
    if t == [] then Some(0) else
    var last := |t| - 1;
    var high :- DigitsValue(t[..last]);
    if 48 <= t[last] <= 57 then Some(10 * high + (t[last] - 48)) else None
  }

  /** `parse::<i64>().ok()` */
  function ParseI64(t: Text): Option<I64> {
    var signed := t != [] && (t[0] == 43 || t[0] == 45);
    var digits := if signed then t[1..] else t;
    if digits == [] then None else
    var magnitude :- DigitsValue(digits);
    var value := (if signed && t[0] == 45 then -1 else 1) * magnitude;
    if -TWO_63 <= value < TWO_63 then Some(value) else None
  }

  datatype Anchor =
    | Rejected
    | Everywhere(checkpointId: Text)
    | At(domain: Text, checkpointId: Text, height: Option<I64>)

  function ParseTrustedAnchor(known: set<Text>, anchor: Text): (r: Anchor)
    ensures r.At? ==> r.domain in known
  {
    var parts := SplitColon(anchor);
    if |parts| == 2 then
      if parts[0] in known then At(parts[0], parts[1], None) else Everywhere(anchor)
    else if |parts| >= 3 then
      if parts[0] in known then At(parts[0], parts[|parts| - 1], ParseI64(parts[1])) else Rejected
    else Everywhere(anchor)
  }

  /** The sync states after one accepted anchor. */
  function AnchorApplied(sync: map<Text, SyncState>, anchor: Anchor): map<Text, SyncState>
    requires anchor.At? ==> anchor.domain in sync
  {
    match anchor
    case Rejected => sync
    case Everywhere(id) => map d | d in sync :: Trusted(sync[d], id, None)
    case At(d, id, height) => sync[d := Trusted(sync[d], id, height)]
  }

  /** The sync states after the anchors, in order, up to the first rejected one, and whether there was none. */
  function AnchorsApplied(sync: map<Text, SyncState>, anchors: seq<Text>): (map<Text, SyncState>, bool)
    decreases |anchors|
  {
    if anchors == [] then (sync, true) else
    var anchor := ParseTrustedAnchor(sync.Keys, anchors[0]);
    if anchor.Rejected? then (sync, false) else AnchorsApplied(AnchorApplied(sync, anchor), anchors[1..])
  }

  function DomainsReached(sync: map<Text, SyncState>, anchor: Anchor): set<Text> {
    match anchor
    case Rejected => {}
    case Everywhere(_) => set d | d in sync :: sync[d].domain
    case At(d, _, _) => {d}
  }

  function AllReached(sync: map<Text, SyncState>, anchors: seq<Text>): set<Text> {
    if anchors == [] then {} else
    var last := |anchors| - 1;
    AllReached(sync, anchors[..last]) + DomainsReached(sync, ParseTrustedAnchor(sync.Keys, anchors[last]))
  }

  // ---------------------------------------------------------------- resync, on values

  datatype ReconcileResult = ReconcileResult(reconciled: nat, conflicts: nat, syncedDomains: nat)

  function CreditedClaims(claims: map<Text, SettlementClaim>): set<Text> {
    set id | id in claims && claims[id].finality == ProvisionallyCredited
  }

  /** `order` lists the claims in the order the hash map happened to yield them. */
  ghost predicate Enumerates(order: seq<Text>, ids: set<Text>) {
    NoDuplicates(order) && forall id :: id in order <==> id in ids
  }

  function ReplayLogged(s: ClientState, claimId: Text): ClientState {
    if claimId !in s.claims then s else
    var claim := s.claims[claimId];
    var current := if claimId in s.claimStatus then s.claimStatus[claimId] else claim.finality;
    s.(log := Logged(s.log, claimId, current, current, claim.riskLabel),
       claimStatus := s.claimStatus[claimId := current])
  }

  function AllReplayLogged(s: ClientState, order: seq<Text>): ClientState {
    if order == [] then s else
    var last := |order| - 1;
    ReplayLogged(AllReplayLogged(s, order[..last]), order[last])
  }

  function Resynced(s: ClientState, anchors: seq<Text>, order: seq<Text>): (ClientState, Result<ReconcileResult>) {
    var unique := SortedSet(anchors);
    var (sync, accepted) := AnchorsApplied(s.sync, unique);
    if !accepted then (s.(sync := sync), Failure(NotFound)) else
    (AllReplayLogged(s.(sync := sync), order),
     Success(ReconcileResult(|order|, 0, |AllReached(s.sync, unique)|)))
  }

  // ---------------------------------------------------------------- resync, on the client object

  lemma {:induction false} AnchorsSnoc(sync: map<Text, SyncState>, anchors: seq<Text>, next: Text)
    ensures AnchorsApplied(sync, anchors).0.Keys == sync.Keys
    ensures AnchorsApplied(sync, anchors + [next])
         == var (before, accepted) := AnchorsApplied(sync, anchors);
            var anchor := ParseTrustedAnchor(sync.Keys, next);
            if !accepted || anchor.Rejected? then (before, false) else (AnchorApplied(before, anchor), true)
    decreases |anchors|
  {
    if anchors == [] {
      assert (anchors + [next])[1..] == [];
    } else {
      var first := ParseTrustedAnchor(sync.Keys, anchors[0]);
      assert (anchors + [next])[1..] == anchors[1..] + [next];
      if !first.Rejected? {
        assert AnchorApplied(sync, first).Keys == sync.Keys;
        AnchorsSnoc(AnchorApplied(sync, first), anchors[1..], next);
      }
    }
  }

  lemma TrustedKeepsDomain(sync: map<Text, SyncState>, anchor: Anchor)
    requires anchor.At? ==> anchor.domain in sync
    ensures AnchorApplied(sync, anchor).Keys == sync.Keys
    ensures forall d :: d in sync ==> AnchorApplied(sync, anchor)[d].domain == sync[d].domain
  {
  }

  lemma {:induction false} AnchorsKeepDomains(sync: map<Text, SyncState>, anchors: seq<Text>)
    ensures AnchorsApplied(sync, anchors).0.Keys == sync.Keys
    ensures forall d :: d in sync ==> AnchorsApplied(sync, anchors).0[d].domain == sync[d].domain
    decreases |anchors|
  {
    if anchors == [] {
    } else {
      var anchor := ParseTrustedAnchor(sync.Keys, anchors[0]);
      if !anchor.Rejected? {
        TrustedKeepsDomain(sync, anchor);
        AnchorsKeepDomains(AnchorApplied(sync, anchor), anchors[1..]);
      }
    }
  }

  /** Trusts a checkpoint in every domain, visiting the domains in any order. */
  method TrustEverywhere(client: UniverseClient, checkpointId: Text) returns (applied: set<Text>)
    requires client.Valid()
    modifies client`syncState
    ensures client.syncState == AnchorApplied(old(client.syncState), Everywhere(checkpointId))
    ensures applied == DomainsReached(old(client.syncState), Everywhere(checkpointId))
  {
    ghost var before := client.syncState;
    var pending := client.syncState.Keys;
    applied := {};
    while pending != {}
      invariant pending <= before.Keys
      invariant client.syncState
             == map d | d in before :: if d in pending then before[d] else Trusted(before[d], checkpointId, None)
      invariant applied == set d | d in before && d !in pending :: before[d].domain
      decreases |pending|
    {
      var d :| d in pending;
      client.syncState := client.syncState[d := Trusted(client.syncState[d], checkpointId, None)];
      applied := applied + {client.syncState[d].domain};
      pending := pending - {d};
    }
  }

  /** The first loop of a resync: the sorted anchors, one by one, stopping at the first rejected one. */
  method ApplyAnchors(client: UniverseClient, anchors: seq<Text>) returns (accepted: bool, applied: set<Text>)
    requires client.Valid()
    modifies client`syncState
    ensures (client.syncState, accepted) == AnchorsApplied(old(client.syncState), anchors)
    ensures accepted ==> applied == AllReached(old(client.syncState), anchors)
  {
    ghost var before := client.syncState;
    applied := {};
    for i := 0 to |anchors|
      invariant AnchorsApplied(before, anchors[..i]) == (client.syncState, true)
      invariant applied == AllReached(before, anchors[..i])
    {
      hide ParseTrustedAnchor, Trusted;
      AnchorsSnoc(before, anchors[..i], anchors[i]);
      AnchorsKeepDomains(before, anchors[..i]);
      assert anchors[..i + 1] == anchors[..i] + [anchors[i]];
      assert anchors[..i + 1][..i] == anchors[..i];
      var anchor := ParseTrustedAnchor(client.syncState.Keys, anchors[i]);
      match anchor {
        case Rejected =>
          StopsAt(before, anchors, i);
          return false, applied;
        case At(domain, id, height) =>
          client.syncState := client.syncState[domain := Trusted(client.syncState[domain], id, height)];
          applied := applied + {domain};
        case Everywhere(id) =>
          var reached := TrustEverywhere(client, id);
          applied := applied + reached;
      }
    }
    assert anchors[..|anchors|] == anchors;
    accepted := true;
  }

  /** Everything after the first rejected anchor is ignored. */
  lemma {:induction false} StopsAt(sync: map<Text, SyncState>, anchors: seq<Text>, k: nat)
    requires k < |anchors| && ParseTrustedAnchor(sync.Keys, anchors[k]).Rejected?
    requires AnchorsApplied(sync, anchors[..k]).1
    ensures AnchorsApplied(sync, anchors) == (AnchorsApplied(sync, anchors[..k]).0, false)
    decreases k
  {
    if k > 0 {
      var first := ParseTrustedAnchor(sync.Keys, anchors[0]);
      assert anchors[..k][0] == anchors[0] && anchors[..k][1..] == anchors[1..][..k - 1];
      TrustedKeepsDomain(sync, first);
      StopsAt(AnchorApplied(sync, first), anchors[1..], k - 1);
    } else {
      assert anchors[..k] == [];
    }
  }

  method ResyncAfterOffline(client: UniverseClient, trustedAnchors: seq<Text>)
    returns (r: Result<ReconcileResult>, ghost order: seq<Text>)
    requires client.Valid()
    modifies client`syncState, client`claimStatus, client`transitionLog
    ensures client.Valid()
    ensures r.Success? ==> Enumerates(order, CreditedClaims(old(client.pendingClaims)))
    ensures (client.State(), r) == Resynced(old(client.State()), trustedAnchors, order)
  {
    var unique := SortAnchors(trustedAnchors);
    var accepted, applied := ApplyAnchors(client, unique);
    if !accepted {
      return Failure(NotFound), [];
    }
    hide AnchorsApplied, AllReached, SortedSet, AllReplayLogged;
    var reconciled;
    reconciled, order := ReplayCredited(client);
    r := Success(ReconcileResult(reconciled, 0, |applied|));
  }

  method SortAnchors(anchors: seq<Text>) returns (unique: seq<Text>)
    ensures unique == SortedSet(anchors)
  {
    unique := [];
    for i := 0 to |anchors|
      invariant unique == SortedSet(anchors[..i])
    {
      assert anchors[..i + 1][..i] == anchors[..i];
      unique := Insert(anchors[i], unique);
    }
    assert anchors[..|anchors|] == anchors;
  }

  /** The last loop of a resync: one log entry for each credited claim, in whatever order the claim map yields them. */
  method ReplayCredited(client: UniverseClient) returns (reconciled: nat, ghost order: seq<Text>)
    requires client.Valid()
    modifies client`claimStatus, client`transitionLog
    ensures client.Valid()
    ensures Enumerates(order, CreditedClaims(client.pendingClaims))
    ensures client.State() == AllReplayLogged(old(client.State()), order) && reconciled == |order|
  {
    order := [];
    var targets := CreditedClaims(client.pendingClaims);
    var pending := targets;
    reconciled := 0;
    while pending != {}
      invariant pending <= targets
      invariant NoDuplicates(order) && forall id :: id in order <==> id in targets && id !in pending
      invariant client.Valid() && client.State() == AllReplayLogged(old(client.State()), order)
      invariant reconciled == |order|
      decreases |pending|
    {
      var claimId :| claimId in pending;
      pending := pending - {claimId};
      assert (order + [claimId])[..|order|] == order;
      LogReplay(client, claimId);
      order := order + [claimId];
      reconciled := reconciled + 1;
    }
  }

  method LogReplay(client: UniverseClient, claimId: Text)
    requires client.Valid()
    modifies client`claimStatus, client`transitionLog
    ensures client.Valid() && client.State() == ReplayLogged(old(client.State()), claimId)
  {
    if claimId in client.pendingClaims {
      var claim := client.pendingClaims[claimId];
      var current := if claimId in client.claimStatus then client.claimStatus[claimId] else claim.finality;
      client.transitionLog := client.transitionLog
        + [Transition(|client.transitionLog| + 1, claimId, current, current, claim.riskLabel)];
      client.claimStatus := client.claimStatus[claimId := current];
    }
  }

  // ---------------------------------------------------------------- what a resync amounts to

  /** What one domain hears from the anchors: the checkpoint ids meant for it, with their heights, in order. */
  function Heard(known: set<Text>, domain: Text, anchors: seq<Text>): seq<(Text, Option<I64>)> {
    if anchors == [] then [] else
    (match ParseTrustedAnchor(known, anchors[0])
     case Rejected => []
     case Everywhere(id) => [(id, None)]
     case At(d, id, height) => if d == domain then [(id, height)] else [])
    + Heard(known, domain, anchors[1..])
  }

  function TrustedAll(st: SyncState, heard: seq<(Text, Option<I64>)>): SyncState
    decreases |heard|
  {
    if heard == [] then st else TrustedAll(Trusted(st, heard[0].0, heard[0].1), heard[1..])
  }

  ghost predicate AllAccepted(known: set<Text>, anchors: seq<Text>) {
    forall i :: 0 <= i < |anchors| ==> !ParseTrustedAnchor(known, anchors[i]).Rejected?
  }

  /** Accepted anchors act on each domain alone, through what that domain hears. */
  lemma {:induction false} AnchorsPerDomain(sync: map<Text, SyncState>, anchors: seq<Text>)
    requires AllAccepted(sync.Keys, anchors)
    ensures AnchorsApplied(sync, anchors).1
    ensures AnchorsApplied(sync, anchors).0
         == map d | d in sync :: TrustedAll(sync[d], Heard(sync.Keys, d, anchors))
    decreases |anchors|
  {
    hide ParseTrustedAnchor, Trusted;
    if anchors == [] {
    } else {
      var anchor := ParseTrustedAnchor(sync.Keys, anchors[0]);
      var sync' := AnchorApplied(sync, anchor);
      assert sync'.Keys == sync.Keys;
      AnchorsPerDomain(sync', anchors[1..]);
      forall d | d in sync
        ensures TrustedAll(sync'[d], Heard(sync.Keys, d, anchors[1..]))
             == TrustedAll(sync[d], Heard(sync.Keys, d, anchors))
      {
        HeardFirst(sync, d, anchors);
      }
    }
  }

  lemma HeardFirst(sync: map<Text, SyncState>, d: Text, anchors: seq<Text>)
    requires d in sync && anchors != [] && !ParseTrustedAnchor(sync.Keys, anchors[0]).Rejected?
    ensures TrustedAll(AnchorApplied(sync, ParseTrustedAnchor(sync.Keys, anchors[0]))[d],
                       Heard(sync.Keys, d, anchors[1..]))
         == TrustedAll(sync[d], Heard(sync.Keys, d, anchors))
  {
    hide ParseTrustedAnchor, Trusted;
    var rest := Heard(sync.Keys, d, anchors[1..]);
    match ParseTrustedAnchor(sync.Keys, anchors[0]) {
      case Everywhere(id) => assert ([(id, None)] + rest)[1..] == rest;
      case At(e, id, height) =>
        if d == e {
          assert ([(id, height)] + rest)[1..] == rest;
        } else {
          assert [] + rest == rest;
        }
    }
  }

  /** `st` already trusts everything in `heard`: hearing it again can only move the last trusted checkpoint. */
  ghost predicate Knows(st: SyncState, heard: seq<(Text, Option<I64>)>) {
    forall i :: 0 <= i < |heard| ==>
      heard[i].0 in st.frontier && (heard[i].1.Some? ==> heard[i].1.value <= st.watermark)
  }

  lemma TrustedGrows(st: SyncState, id: Text, height: Option<I64>)
    ensures var r := Trusted(st, id, height);
            && st.frontier <= r.frontier && id in r.frontier && st.watermark <= r.watermark
            && (height.Some? ==> height.value <= r.watermark)
            && (NoDuplicates(st.frontier) ==> NoDuplicates(r.frontier))
  {
  }

  lemma {:induction false} TrustedAllGrows(st: SyncState, heard: seq<(Text, Option<I64>)>)
    ensures var r := TrustedAll(st, heard);
            && r.domain == st.domain && st.frontier <= r.frontier && st.watermark <= r.watermark
            && Knows(r, heard)
            && (NoDuplicates(st.frontier) ==> NoDuplicates(r.frontier))
            && r.lastTrusted == if heard == [] then st.lastTrusted else Some(heard[|heard| - 1].0)
    decreases |heard|
  {
    if heard == [] {
    } else {
      var st' := Trusted(st, heard[0].0, heard[0].1);
      TrustedGrows(st, heard[0].0, heard[0].1);
      TrustedAllGrows(st', heard[1..]);
      var r := TrustedAll(st', heard[1..]);
      forall i | 0 <= i < |heard|
        ensures heard[i].0 in r.frontier && (heard[i].1.Some? ==> heard[i].1.value <= r.watermark)
      {
        if i > 0 {
          assert heard[i] == heard[1..][i - 1];
        }
      }
    }
  }

  lemma {:induction false} TrustedAllKnown(st: SyncState, heard: seq<(Text, Option<I64>)>)
    requires Knows(st, heard)
    ensures TrustedAll(st, heard) == if heard == [] then st else st.(lastTrusted := Some(heard[|heard| - 1].0))
    decreases |heard|
  {
    if heard == [] {
    } else {
      var st' := Trusted(st, heard[0].0, heard[0].1);
      assert st' == st.(lastTrusted := Some(heard[0].0));
      assert Knows(st', heard[1..]);
      TrustedAllKnown(st', heard[1..]);
    }
  }

  /** Hearing the same anchors twice is hearing them once. */
  lemma TrustedAllIdempotent(st: SyncState, heard: seq<(Text, Option<I64>)>)
    ensures TrustedAll(TrustedAll(st, heard), heard) == TrustedAll(st, heard)
  {
    TrustedAllGrows(st, heard);
    TrustedAllKnown(TrustedAll(st, heard), heard);
  }

  lemma {:induction false} AcceptedPrefix(known: set<Text>, anchors: seq<Text>) returns (k: nat)
    ensures k <= |anchors| && AllAccepted(known, anchors[..k])
    ensures k < |anchors| ==> ParseTrustedAnchor(known, anchors[k]).Rejected?
  {
    k := 0;
    while k < |anchors| && !ParseTrustedAnchor(known, anchors[k]).Rejected?
      invariant k <= |anchors| && AllAccepted(known, anchors[..k])
    {
      k := k + 1;
    }
  }

  lemma AcceptedBelow(known: set<Text>, anchors: seq<Text>, k: nat)
    requires k <= |anchors| && AllAccepted(known, anchors[..k])
    ensures forall i :: 0 <= i < k ==> !ParseTrustedAnchor(known, anchors[i]).Rejected?
  {
    assert forall i :: 0 <= i < k ==> anchors[..k][i] == anchors[i];
  }

  /** Anchors are all applied, or exactly those before the first rejected one. */
  lemma AnchorsUpToRejected(sync: map<Text, SyncState>, anchors: seq<Text>) returns (k: nat)
    ensures k <= |anchors| && AllAccepted(sync.Keys, anchors[..k])
    ensures AnchorsApplied(sync, anchors).1 <==> k == |anchors|
    ensures k < |anchors| ==> ParseTrustedAnchor(sync.Keys, anchors[k]).Rejected?
    ensures AnchorsApplied(sync, anchors).0
         == map d | d in sync :: TrustedAll(sync[d], Heard(sync.Keys, d, anchors[..k]))
  {
    k := AcceptedPrefix(sync.Keys, anchors);
    AnchorsPerDomain(sync, anchors[..k]);
    if k < |anchors| {
      StopsAt(sync, anchors, k);
    } else {
      assert anchors[..k] == anchors;
    }
  }

  lemma AnchorsIdempotent(sync: map<Text, SyncState>, anchors: seq<Text>)
    ensures var sync' := AnchorsApplied(sync, anchors).0;
            AnchorsApplied(sync', anchors).0 == sync'
  {
    hide ParseTrustedAnchor, TrustedAll, Heard;
    var sync' := AnchorsApplied(sync, anchors).0;
    var k := AnchorsUpToRejected(sync, anchors);
    assert sync'.Keys == sync.Keys;
    var k' := AnchorsUpToRejected(sync', anchors);
    AcceptedBelow(sync.Keys, anchors, k);
    AcceptedBelow(sync.Keys, anchors, k');
    assert k == k';
    forall d | d in sync ensures TrustedAll(sync'[d], Heard(sync.Keys, d, anchors[..k])) == sync'[d] {
      TrustedAllIdempotent(sync[d], Heard(sync.Keys, d, anchors[..k]));
    }
  }

  /** Resync's effect on the sync states depends only on the set of anchors, and doing it again changes nothing. */
  lemma ResyncSyncState(s: ClientState, anchors: seq<Text>, order: seq<Text>, again: seq<Text>, order': seq<Text>)
    requires forall a :: a in anchors <==> a in again
    ensures Resynced(s, anchors, order).0.sync == Resynced(s, again, order').0.sync
    ensures var s' := Resynced(s, anchors, order).0;
            Resynced(s', again, order').0.sync == s'.sync
  {
    hide AnchorsApplied, AllReplayLogged;
    var unique := SortedSet(anchors);
    SortedUnique(unique, SortedSet(again));
    AnchorsIdempotent(s.sync, unique);
    var sync := AnchorsApplied(s.sync, unique).0;
    ReplayKeeps(s.(sync := sync), order);
    ReplayKeeps(s.(sync := sync), order');
    var s' := Resynced(s, anchors, order).0;
    ReplayKeeps(s'.(sync := sync), order');
  }

  lemma {:induction false} ReplayKeeps(s: ClientState, order: seq<Text>)
    ensures var r := AllReplayLogged(s, order);
            r == s.(log := r.log, claimStatus := r.claimStatus)
  {
    if order == [] {
    } else {
      ReplayKeeps(s, order[..|order| - 1]);
    }
  }

  /** The sync states after each domain has heard the anchors meant for it. */
  function Informed(sync: map<Text, SyncState>, anchors: seq<Text>): map<Text, SyncState> {
    map d | d in sync :: TrustedAll(sync[d], Heard(sync.Keys, d, anchors))
  }

  /**
   * A rejected anchor stops the resync: only the anchors sorting before the first bad one have acted, and only on
   * the sync states.
   */
  lemma RejectedResync(s: ClientState, anchors: seq<Text>, order: seq<Text>) returns (k: nat)
    requires Resynced(s, anchors, order).1.Failure?
    ensures var unique := SortedSet(anchors);
            && k < |unique|
            && ParseTrustedAnchor(s.sync.Keys, unique[k]).Rejected?
            && AllAccepted(s.sync.Keys, unique[..k])
            && Resynced(s, anchors, order).0
               == s.(sync := Informed(s.sync, unique[..k]))
  {
    k := AnchorsUpToRejected(s.sync, SortedSet(anchors));
    assert AnchorsApplied(s.sync, SortedSet(anchors)).0 == Informed(s.sync, SortedSet(anchors)[..k]);
  }

  /** Hearing the anchors would leave the sync state as it is. */
  ghost predicate Unmoved(st: SyncState, heard: seq<(Text, Option<I64>)>) {
    heard == [] || (Knows(st, heard) && st.lastTrusted == Some(heard[|heard| - 1].0))
  }

  lemma UnmovedExact(st: SyncState, heard: seq<(Text, Option<I64>)>)
    ensures TrustedAll(st, heard) == st <==> Unmoved(st, heard)
  {
    TrustedAllGrows(st, heard);
    if Knows(st, heard) {
      TrustedAllKnown(st, heard);
    }
  }

  lemma InformedExact(sync: map<Text, SyncState>, anchors: seq<Text>)
    ensures Informed(sync, anchors) == sync
       <==> forall d :: d in sync ==> Unmoved(sync[d], Heard(sync.Keys, d, anchors))
  {
    hide Heard, TrustedAll, Unmoved;
    forall d | d in sync
      ensures Informed(sync, anchors)[d] == sync[d] <==> Unmoved(sync[d], Heard(sync.Keys, d, anchors))
    {
      UnmovedExact(sync[d], Heard(sync.Keys, d, anchors));
    }
    assert Informed(sync, anchors) == sync <==> forall d :: d in sync ==> Informed(sync, anchors)[d] == sync[d];
  }

  lemma RejectedAt(s: ClientState, anchors: seq<Text>, order: seq<Text>, k: nat)
    requires var unique := SortedSet(anchors);
             && k < |unique|
             && ParseTrustedAnchor(s.sync.Keys, unique[k]).Rejected?
             && AllAccepted(s.sync.Keys, unique[..k])
    ensures Resynced(s, anchors, order) == (s.(sync := Informed(s.sync, SortedSet(anchors)[..k])), Failure(NotFound))
  {
    hide ParseTrustedAnchor, Heard, TrustedAll, AnchorsApplied;
    var unique := SortedSet(anchors);
    AnchorsPerDomain(s.sync, unique[..k]);
    StopsAt(s.sync, unique, k);
    assert AnchorsApplied(s.sync, unique[..k]).0 == Informed(s.sync, unique[..k]);
  }

  /**
   * A failed resync leaves the client as it was exactly when every domain already knows what the anchors before the
   * first bad one tell it, and last trusted the last of that.
   */
  lemma FailedResyncExact(s: ClientState, anchors: seq<Text>, order: seq<Text>, k: nat)
    requires var unique := SortedSet(anchors);
             && k < |unique|
             && ParseTrustedAnchor(s.sync.Keys, unique[k]).Rejected?
             && AllAccepted(s.sync.Keys, unique[..k])
    ensures Resynced(s, anchors, order).1.Failure?
    ensures Resynced(s, anchors, order).0 == s <==>
            forall d :: d in s.sync ==> Unmoved(s.sync[d], Heard(s.sync.Keys, d, SortedSet(anchors)[..k]))
  {
    RejectedAt(s, anchors, order, k);
    hide Resynced, Heard, Informed, Unmoved, ParseTrustedAnchor, AllAccepted;
    InformedExact(s.sync, SortedSet(anchors)[..k]);
  }

  /** A letter in front of a text joins its first part. */
  lemma SplitLetter(b: Byte, t: Text)
    requires b != COLON
    ensures SplitColon([b] + t) == [[b] + SplitColon(t)[0]] + SplitColon(t)[1..]
  {
    assert ([b] + t)[1..] == t;
  }

  lemma SplitNothing()
    ensures SplitColon([]) == [[]]
  {
  }

  lemma SplitAtColon(t: Text)
    ensures SplitColon([COLON] + t) == [[]] + SplitColon(t)
  {
    assert ([COLON] + t)[1..] == t;
  }

  /** The anchors `A:B` and `Z::` of a client that knows only the domain `A`: one is accepted, the other is not. */
  lemma ParsedExamples(known: set<Text>)
    requires known == {[65]}
    ensures ParseTrustedAnchor(known, [65, COLON, 66]) == At([65], [66], None)
    ensures ParseTrustedAnchor(known, [90, COLON, COLON]) == Rejected
  {
    var a, b, z, none: Text := [65], [66], [90], [];
    var colon: Text := [COLON];
    hide SplitColon;
    assert SplitColon(none) == [none] by { SplitNothing(); }
    SplitLetter(66, none);
    assert b + none == b && SplitColon(b) == [b];
    SplitAtColon(b);
    SplitLetter(65, colon + b);
    assert a + (colon + b) == [65, COLON, 66] && a + none == a;
    assert SplitColon([65, COLON, 66]) == [a, b];
    SplitAtColon(none);
    assert colon + none == colon && SplitColon(colon) == [none, none];
    SplitAtColon(colon);
    SplitLetter(90, colon + colon);
    assert z + (colon + colon) == [90, COLON, COLON] && z + none == z;
    assert SplitColon([90, COLON, COLON]) == [z, none, none];
  }

  /** With these two anchors the resync of a new client fails, and the first one stays trusted. */
  lemma FailedResyncMoves(s: ClientState, order: seq<Text>)
    requires s.sync == map[[65] := SyncState([65], None, [], 0)]
    ensures Resynced(s, [[65, COLON, 66], [90, COLON, COLON]], order)
         == (s.(sync := map[[65] := SyncState([65], Some([66]), [[66]], 0)]), Failure(NotFound))
  {
    var ab, z: Text := [65, COLON, 66], [90, COLON, COLON];
    ParsedExamples(s.sync.Keys);
    assert LexLess(ab, z);
    SortedUnique(SortedSet([ab, z]), [ab, z]);
    var sync := AnchorApplied(s.sync, At([65], [66], None));
    assert Trusted(s.sync[[65]], [66], None) == SyncState([65], Some([66]), [[66]], 0);
    assert sync == map[[65] := SyncState([65], Some([66]), [[66]], 0)];
    assert sync.Keys == {[65]};
    hide ParseTrustedAnchor, SortedSet;
    assert AnchorsApplied(sync, [z]) == (sync, false);
    assert [ab, z][1..] == [z];
    assert AnchorsApplied(s.sync, [ab, z]) == AnchorsApplied(sync, [z]);
  }
}
