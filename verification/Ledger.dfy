/** One domain's append-only event log and its chain of local checkpoints. */
module Ledger {
  import opened Prelude
  import opened Types
  import opened Hashing

  datatype TxKind = Transfer | LockForExport | AcceptRemoteClaim | Receipt

  function KindName(kind: TxKind): Text {
    Ascii(match kind
          case Transfer => "Transfer"
          case LockForExport => "LockForExport"
          case AcceptRemoteClaim => "AcceptRemoteClaim"
          case Receipt => "Receipt")
  }

  datatype Transaction = Transaction(
    domainId: Text,
    kind: TxKind,
    actorId: Text,
    payloadHash: Hash,
    coord: SpacetimeCoord,
    causalDependencies: seq<Text>,
    signatures: seq<Text>)

  datatype Checkpoint = Checkpoint(
    domainId: Text,
    height: nat,
    epoch: nat,
    prevCheckpointHash: Option<Hash>,
    stateRoot: Hash,
    txRoot: Hash,
    eventLogRoot: Hash,
    exportRoot: Hash,
    importRoot: Hash,
    observedRemoteRoot: Hash,
    disputeRoot: Hash,
    validatorSetRoot: Hash,
    coord: SpacetimeCoord,
    protocolVersion: nat,
    stateCommitment: Hash,
    hash: Text)

  const CURRENT_PROTOCOL_VERSION: nat := 1

  /** The fields of a `LocalLedgerDomain`, as one value. */
  datatype LedgerState = LedgerState(
    domainId: Text,
    chainHeight: nat,
    finalCheckpoint: Option<Checkpoint>,
    eventLog: seq<Event>,
    checkpointHistory: seq<Checkpoint>)

  // ---------------------------------------------------------------- reading the log

  predicate HasEvent(log: seq<Event>, eventId: Text) {
    exists i :: 0 <= i < |log| && log[i].eventId == eventId
  }

  /** The first event with the given id. */
  function GetEvent(log: seq<Event>, eventId: Text): (r: Option<Event>)
    ensures r.Some? <==> HasEvent(log, eventId)
    ensures r.Some? ==> r.value in log && r.value.eventId == eventId
  {
    if log == [] then None
    else if log[0].eventId == eventId then Some(log[0])
    else
      assert HasEvent(log, eventId) <==> HasEvent(log[1..], eventId) by {
        assert forall i :: 1 <= i < |log| ==> log[i] == log[1..][i - 1];
        assert forall i :: 0 <= i < |log| - 1 ==> log[1..][i] == log[i + 1];
      }
      GetEvent(log[1..], eventId)
  }

  function EventIds(log: seq<Event>): (ids: seq<Text>)
    ensures |ids| == |log| && forall i :: 0 <= i < |log| ==> ids[i] == log[i].eventId
  {
    seq(|log|, i requires 0 <= i < |log| => log[i].eventId)
  }

  function EncodedLog(log: seq<Event>): (blobs: seq<Text>)
    ensures |blobs| == |log| && forall i :: 0 <= i < |log| ==> blobs[i] == EventBytes(log[i])
  {
    seq(|log|, i requires 0 <= i < |log| => EventBytes(log[i]))
  }

  function EventLogRoot(log: seq<Event>): Hash {
    HashOf(EncodedLog(log))
  }

  function CheckpointParts(domainId: Text, epoch: nat, height: nat, events: nat, txRoot: Hash, eventRoot: Hash,
                           coord: SpacetimeCoord, prev: Option<Hash>): seq<Text> {
    [domainId, Word(epoch), Word(height), Word(events), txRoot, eventRoot,
     if prev.Some? then prev.value else ZERO_HASH,
     CoordBytes(coord)]
  }

  function CheckpointRoot(domainId: Text, epoch: nat, height: nat, events: nat, txRoot: Hash, eventRoot: Hash,
                          coord: SpacetimeCoord, prev: Option<Hash>): Hash {
    HashOf(CheckpointParts(domainId, epoch, height, events, txRoot, eventRoot, coord, prev))
  }

  // ---------------------------------------------------------------- the two operations, on values

  function EventIdOf(domainId: Text, txId: Text): Text {
    Ascii("ev:") + domainId + Ascii(":") + txId
  }

  function EventOf(l: LedgerState, txId: Text, tx: Transaction): Event {
    Event(EventIdOf(tx.domainId, txId), tx.actorId, tx.domainId, KindName(tx.kind), tx.payloadHash, tx.coord,
          |l.eventLog| + 1, tx.causalDependencies, tx.signatures)
  }

  function Submitted(l: LedgerState, txId: Text, tx: Transaction): (LedgerState, Result<Event>) {
    if tx.domainId != l.domainId then (l, Failure(Validation))
    else if !tx.coord.IsValid() then (l, Failure(Validation))
    else if HasEvent(l.eventLog, EventIdOf(tx.domainId, txId)) then (l, Failure(Conflict))
    else
      var event := EventOf(l, txId, tx);
      (l.(eventLog := l.eventLog + [event], chainHeight := l.chainHeight + 1), Success(event))
  }

  /** The checkpoint the ledger would finalize now. */
  function NextCheckpoint(l: LedgerState, txRoot: Hash, coord: SpacetimeCoord): Checkpoint {
    var eventRoot := EventLogRoot(l.eventLog);
    var tx := if txRoot == ZERO_HASH then eventRoot else txRoot;
    var prev := if l.finalCheckpoint.Some? then Some(l.finalCheckpoint.value.stateRoot) else None;
    var root := CheckpointRoot(l.domainId, CURRENT_PROTOCOL_VERSION, l.chainHeight, |l.eventLog|, tx, eventRoot,
                               coord, prev);
    Checkpoint(l.domainId, l.chainHeight, CURRENT_PROTOCOL_VERSION, prev, root, tx, eventRoot,
               eventRoot, tx, eventRoot, root, tx, coord, CURRENT_PROTOCOL_VERSION, root, HexText(root))
  }

  function Finalized(l: LedgerState, checkpointId: Text, txRoot: Hash, coord: SpacetimeCoord)
    : (LedgerState, Result<Checkpoint>)
  {
    var cp := NextCheckpoint(l, txRoot, coord);
    if l.domainId == [] then (l, Failure(Validation))
    else if !coord.IsValid() then (l, Failure(Validation))
    else if l.finalCheckpoint.Some? && l.chainHeight <= l.finalCheckpoint.value.height then (l, Failure(Conflict))
    else if checkpointId != [] && checkpointId != cp.hash then (l, Failure(Validation))
    else (l.(finalCheckpoint := Some(cp), checkpointHistory := l.checkpointHistory + [cp]), Success(cp))
  }

  function NewLedger(domainId: Text): LedgerState {
    LedgerState(domainId, 0, None, [], [])
  }

  // ---------------------------------------------------------------- the ledger object

  class LocalLedgerDomain {
    const domainId: Text
    var chainHeight: nat
    var finalCheckpoint: Option<Checkpoint>
    var eventLog: seq<Event>
    var checkpointHistory: seq<Checkpoint>

    ghost function State(): LedgerState
      reads this
    {
      LedgerState(domainId, chainHeight, finalCheckpoint, eventLog, checkpointHistory)
    }

    constructor (domainId: Text)
      ensures State() == NewLedger(domainId)
    {
      this.domainId := domainId;
      chainHeight, finalCheckpoint, eventLog, checkpointHistory := 0, None, [], [];
    }

    method SubmitLocalTx(txId: Text, tx: Transaction) returns (r: Result<Event>)
      modifies this
      ensures (State(), r) == Submitted(old(State()), txId, tx)
    {
      if tx.domainId != domainId {
        return Failure(Validation);
      }
      if !tx.coord.IsValid() {
        return Failure(Validation);
      }
      var eventId := EventIdOf(tx.domainId, txId);
      if HasEvent(eventLog, eventId) {
        return Failure(Conflict);
      }
      var event := Event(eventId, tx.actorId, tx.domainId, KindName(tx.kind), tx.payloadHash, tx.coord,
                         |eventLog| + 1, tx.causalDependencies, tx.signatures);
      eventLog := eventLog + [event];
      chainHeight := chainHeight + 1;
      r := Success(event);
    }

    method ComputeEventLogRoot() returns (root: Hash)
      ensures root == EventLogRoot(eventLog)
    {
      var blobs: seq<Text> := [];
      for i := 0 to |eventLog|
        invariant blobs == EncodedLog(eventLog[..i])
      {
        var blob := CanonicalBytes(eventLog[i]);
        blobs := blobs + [blob];
      }
      assert eventLog[..|eventLog|] == eventLog;
      root := HashChunks(blobs);
    }

    method BuildCheckpointRoot(txRoot: Hash, eventRoot: Hash, coord: SpacetimeCoord, prev: Option<Hash>, epoch: nat)
      returns (root: Hash)
      ensures root == CheckpointRoot(domainId, epoch, chainHeight, |eventLog|, txRoot, eventRoot, coord, prev)
    {
      var storage := [domainId, Word(epoch), Word(chainHeight), Word(|eventLog|), txRoot, eventRoot];
      if prev.Some? {
        storage := storage + [prev.value];
      } else {
        storage := storage + [ZERO_HASH];
      }
      var coordBytes := EncodeBytes(coord);
      storage := storage + [coordBytes];
      assert storage == CheckpointParts(domainId, epoch, chainHeight, |eventLog|, txRoot, eventRoot, coord, prev);
      root := HashChunks(storage);
    }

    method FinalizeCheckpoint(checkpointId: Text, txRoot: Hash, coord: SpacetimeCoord) returns (r: Result<Checkpoint>)
      modifies this
      ensures (State(), r) == Finalized(old(State()), checkpointId, txRoot, coord)
    {
      hide HashOf;
      if domainId == [] {
        return Failure(Validation);
      }
      if !coord.IsValid() {
        return Failure(Validation);
      }
      if finalCheckpoint.Some? {
        if chainHeight <= finalCheckpoint.value.height {
          return Failure(Conflict);
        }
      }
      var eventRoot := ComputeEventLogRoot();
      var tx := txRoot;
      if txRoot == ZERO_HASH {
        tx := eventRoot;
      }
      var prev := if finalCheckpoint.Some? then Some(finalCheckpoint.value.stateRoot) else None;
      var root := BuildCheckpointRoot(tx, eventRoot, coord, prev, CURRENT_PROTOCOL_VERSION);
      var observedId := HexText(root);
      if checkpointId != [] && checkpointId != observedId {
        return Failure(Validation);
      }
      var cp := Checkpoint(domainId, chainHeight, CURRENT_PROTOCOL_VERSION, prev, root, tx, eventRoot,
                           eventRoot, tx, eventRoot, root, tx, coord, CURRENT_PROTOCOL_VERSION, root, observedId);
      finalCheckpoint := Some(cp);
      checkpointHistory := checkpointHistory + [cp];
      r := Success(cp);
    }
  }

  // ---------------------------------------------------------------- what the ledger keeps

  /** A checkpoint's roots and id are those recomputed from the first `height` events of the log. */
  ghost predicate Rederivable(log: seq<Event>, cp: Checkpoint) {
    && cp.height <= |log|
    && cp.eventLogRoot == EventLogRoot(log[..cp.height])
    && cp.stateRoot == CheckpointRoot(cp.domainId, cp.epoch, cp.height, cp.height, cp.txRoot, cp.eventLogRoot,
                                      cp.coord, cp.prevCheckpointHash)
    && ParseHash(cp.hash) == Some(cp.stateRoot)
    && cp.stateCommitment == cp.stateRoot
  }

  ghost predicate LogInv(domainId: Text, chainHeight: nat, log: seq<Event>) {
    && chainHeight == |log|
    && NoDuplicates(EventIds(log))
    && forall i :: 0 <= i < |log| ==> log[i].domainId == domainId && log[i].localSequence == i + 1
  }

  ghost predicate HistoryInv(l: LedgerState) {
    && (forall i :: 0 <= i < |l.checkpointHistory| ==>
          Rederivable(l.eventLog, l.checkpointHistory[i]) && l.checkpointHistory[i].domainId == l.domainId)
    && (forall i, j :: 0 <= i < j < |l.checkpointHistory| ==>
          l.checkpointHistory[i].height < l.checkpointHistory[j].height)
    && (l.finalCheckpoint.None? ==> l.checkpointHistory == [])
    && (forall i :: 0 <= i < |l.checkpointHistory| ==> l.checkpointHistory[i].height <= l.finalCheckpoint.value.height)
  }

  ghost predicate LedgerInv(l: LedgerState) {
    LogInv(l.domainId, l.chainHeight, l.eventLog) && HistoryInv(l)
  }

  lemma RederivableExtends(log: seq<Event>, more: seq<Event>, cp: Checkpoint)
    requires Rederivable(log, cp) && log <= more
    ensures Rederivable(more, cp)
  {
    assert more[..cp.height] == log[..cp.height];
  }

  lemma SubmitKeepsInv(l: LedgerState, txId: Text, tx: Transaction)
    requires LedgerInv(l)
    ensures LedgerInv(Submitted(l, txId, tx).0)
  {
    hide Rederivable, EventLogRoot, CheckpointRoot, ParseHash;
    var l' := Submitted(l, txId, tx).0;
    forall i | 0 <= i < |l.checkpointHistory| ensures Rederivable(l'.eventLog, l.checkpointHistory[i]) {
      RederivableExtends(l.eventLog, l'.eventLog, l.checkpointHistory[i]);
    }
  }

  /** Sealing the log under a checkpoint higher than the last keeps the history sound. */
  lemma SealKeepsHistory(l: LedgerState, cp: Checkpoint)
    requires HistoryInv(l)
    requires Rederivable(l.eventLog, cp) && cp.domainId == l.domainId
    requires l.finalCheckpoint.Some? ==> l.finalCheckpoint.value.height < cp.height
    ensures HistoryInv(l.(finalCheckpoint := Some(cp), checkpointHistory := l.checkpointHistory + [cp]))
  {
    hide HashOf;
  }

  lemma NextIsRederivable(l: LedgerState, txRoot: Hash, coord: SpacetimeCoord)
    requires l.chainHeight == |l.eventLog|
    ensures var cp := NextCheckpoint(l, txRoot, coord);
            Rederivable(l.eventLog, cp) && cp.height == l.chainHeight && cp.domainId == l.domainId
  {
    hide HashOf;
    assert l.eventLog[..l.chainHeight] == l.eventLog;
    HexRoundTrip(NextCheckpoint(l, txRoot, coord).stateRoot);
  }

  lemma FinalizeKeepsInv(l: LedgerState, checkpointId: Text, txRoot: Hash, coord: SpacetimeCoord)
    requires LedgerInv(l)
    ensures LedgerInv(Finalized(l, checkpointId, txRoot, coord).0)
  {
    var cp := NextCheckpoint(l, txRoot, coord);
    NextIsRederivable(l, txRoot, coord);
    hide NextCheckpoint, Rederivable;
    var (l', r) := Finalized(l, checkpointId, txRoot, coord);
    if r.Success? {
      SealKeepsHistory(l, cp);
    }
  }

  /** How a final checkpoint may change: it never rewinds, and never forks at one height. */
  ghost predicate FinalLe(a: Option<Checkpoint>, b: Option<Checkpoint>) {
    a.Some? ==>
      && b.Some?
      && a.value.height <= b.value.height
      && (a.value.height == b.value.height ==> a.value.hash == b.value.hash)
  }

  /** How a ledger may change: its log and history only grow at the end, its final checkpoint only advances. */
  ghost predicate LedgerLe(a: LedgerState, b: LedgerState) {
    && a.domainId == b.domainId
    && a.eventLog <= b.eventLog
    && a.checkpointHistory <= b.checkpointHistory
    && FinalLe(a.finalCheckpoint, b.finalCheckpoint)
  }

  lemma LedgerLeReflexive(a: LedgerState)
    ensures LedgerLe(a, a)
  {
  }

  lemma LedgerLeTransitive(a: LedgerState, b: LedgerState, c: LedgerState)
    requires LedgerLe(a, b) && LedgerLe(b, c)
    ensures LedgerLe(a, c)
  {
  }

  lemma SubmitAdvances(l: LedgerState, txId: Text, tx: Transaction)
    ensures LedgerLe(l, Submitted(l, txId, tx).0)
  {
  }

  lemma FinalizeAdvances(l: LedgerState, checkpointId: Text, txRoot: Hash, coord: SpacetimeCoord)
    ensures LedgerLe(l, Finalized(l, checkpointId, txRoot, coord).0)
  {
    hide EventLogRoot, CheckpointRoot, HexText;
  }

  // ---------------------------------------------------------------- runs of one ledger on its own

  datatype LedgerStep =
    | Submit(txId: Text, tx: Transaction)
    | Finalize(checkpointId: Text, txRoot: Hash, coord: SpacetimeCoord)

  function LedgerApply(l: LedgerState, step: LedgerStep): LedgerState {
    match step
    case Submit(txId, tx) => Submitted(l, txId, tx).0
    case Finalize(id, txRoot, coord) => Finalized(l, id, txRoot, coord).0
  }

  function LedgerRun(l: LedgerState, steps: seq<LedgerStep>): LedgerState
    decreases |steps|
  {
    if steps == [] then l else LedgerRun(LedgerApply(l, steps[0]), steps[1..])
  }

  /** Each checkpoint commits to the state root of the one before it, and the final one is the last. */
  ghost predicate Chained(l: LedgerState) {
    var h := l.checkpointHistory;
    && l.finalCheckpoint == (if h == [] then None else Some(h[|h| - 1]))
    && (h != [] ==> h[0].prevCheckpointHash == None)
    && forall i, j :: 0 <= i < j < |h| && j == i + 1 ==> h[j].prevCheckpointHash == Some(h[i].stateRoot)
  }

  lemma SubmitKeepsChain(l: LedgerState, txId: Text, tx: Transaction)
    requires Chained(l)
    ensures Chained(Submitted(l, txId, tx).0)
  {
  }

  lemma SealKeepsChain(l: LedgerState, cp: Checkpoint)
    requires Chained(l)
    requires cp.prevCheckpointHash == if l.finalCheckpoint.Some? then Some(l.finalCheckpoint.value.stateRoot) else None
    ensures Chained(l.(finalCheckpoint := Some(cp), checkpointHistory := l.checkpointHistory + [cp]))
  {
  }

  lemma FinalizeKeepsChain(l: LedgerState, checkpointId: Text, txRoot: Hash, coord: SpacetimeCoord)
    requires Chained(l)
    ensures Chained(Finalized(l, checkpointId, txRoot, coord).0)
  {
    hide CheckpointRoot, EventLogRoot, HexText, Chained;
    SealKeepsChain(l, NextCheckpoint(l, txRoot, coord));
  }

  lemma LedgerStepChained(l: LedgerState, step: LedgerStep)
    requires LedgerInv(l) && Chained(l)
    ensures LedgerInv(LedgerApply(l, step)) && LedgerLe(l, LedgerApply(l, step))
    ensures Chained(LedgerApply(l, step))
  {
    hide Submitted, Finalized, LedgerInv, LedgerLe, Chained;
    match step {
      case Submit(txId, tx) =>
        SubmitKeepsInv(l, txId, tx);
        SubmitAdvances(l, txId, tx);
        SubmitKeepsChain(l, txId, tx);
      case Finalize(id, txRoot, coord) =>
        FinalizeKeepsInv(l, id, txRoot, coord);
        FinalizeAdvances(l, id, txRoot, coord);
        FinalizeKeepsChain(l, id, txRoot, coord);
    }
  }

  /** A ledger that only submits and finalizes keeps an unbroken chain of checkpoints over its whole life. */
  lemma {:induction false} LedgerRunChained(l: LedgerState, steps: seq<LedgerStep>)
    requires LedgerInv(l) && Chained(l)
    ensures LedgerInv(LedgerRun(l, steps)) && Chained(LedgerRun(l, steps))
    ensures LedgerLe(l, LedgerRun(l, steps))
    decreases |steps|
  {
    hide LedgerApply, LedgerInv, LedgerLe, Chained;
    if steps == [] {
      LedgerLeReflexive(l);
    } else {
      LedgerStepChained(l, steps[0]);
      LedgerRunChained(LedgerApply(l, steps[0]), steps[1..]);
      LedgerLeTransitive(l, LedgerApply(l, steps[0]), LedgerRun(l, steps));
    }
  }

  // ---------------------------------------------------------------- tampering

  lemma {:induction false} PayloadWithin(e: Event, payload: Hash)
    requires OneByteApart(e.payloadHash, payload)
    ensures OneByteApart(EventBytes(e), EventBytes(e.(payloadHash := payload)))
  {
    var names := TextsBody(EventNames(e));
    var rest := CoordBytes(e.coord)
                + (Word(e.localSequence) + (TextsBytes(e.causalDependencies) + TextsBytes(e.signatures)));
    OneByteApartWithin(names, e.payloadHash, payload, rest);
    assert EventBytes(e) == names + e.payloadHash + rest;
    assert EventBytes(e.(payloadHash := payload)) == names + payload + rest;
  }

  /** Changing one byte of one logged event's payload hash always changes the log root. */
  lemma PayloadTamperingChangesRoot(log: seq<Event>, i: nat, payload: Hash)
    requires i < |log| && OneByteApart(log[i].payloadHash, payload)
    ensures EventLogRoot(log) != EventLogRoot(log[i := log[i].(payloadHash := payload)])
  {
    var log' := log[i := log[i].(payloadHash := payload)];
    PayloadWithin(log[i], payload);
    HashSeparates(EncodedLog(log), EncodedLog(log'), i);
  }

  /** So no finalized checkpoint survives such a change of an event it covers. */
  lemma TamperedLogNotRederivable(log: seq<Event>, cp: Checkpoint, i: nat, payload: Hash)
    requires Rederivable(log, cp) && i < cp.height && OneByteApart(log[i].payloadHash, payload)
    ensures !Rederivable(log[i := log[i].(payloadHash := payload)], cp)
  {
    var log' := log[i := log[i].(payloadHash := payload)];
    var prefix := log[..cp.height];
    PayloadTamperingChangesRoot(prefix, i, payload);
    assert log'[..cp.height] == prefix[i := prefix[i].(payloadHash := payload)];
  }

  // ---------------------------------------------------------------- what a log root is computed from

  /** The stream of a list of chunks whose first one has index `i`, read from the front. */
  function StreamFrom(chunks: seq<Text>, i: nat): Text
    decreases |chunks|
  {
    if chunks == [] then [] else Word(i) + (chunks[0] + StreamFrom(chunks[1..], i + 1))
  }

  lemma {:induction false} StreamFromSnoc(chunks: seq<Text>, chunk: Text, i: nat)
    ensures StreamFrom(chunks + [chunk], i) == StreamFrom(chunks, i) + (Word(i + |chunks|) + chunk)
    decreases |chunks|
  {
    hide Word;
    if chunks == [] {
      assert chunks + [chunk] == [chunk] && [chunk][1..] == [];
      assert StreamFrom([chunk], i) == Word(i) + (chunk + []);
      EmptyUnit(chunk);
      EmptyUnit(Word(i) + chunk);
    } else {
      var rest := chunks[1..];
      StreamFromSnoc(rest, chunk, i + 1);
      FrontAppended(chunks, chunk, i);
      assert StreamFrom(chunks, i) == Word(i) + (chunks[0] + StreamFrom(rest, i + 1));
      hide StreamFrom;
      AssocThree(Word(i), chunks[0], StreamFrom(rest, i + 1), Word(i + |chunks|) + chunk);
    }
  }

  lemma FrontAppended(chunks: seq<Text>, chunk: Text, i: nat)
    requires chunks != []
    ensures StreamFrom(chunks + [chunk], i) == Word(i) + (chunks[0] + StreamFrom(chunks[1..] + [chunk], i + 1))
  {
    hide Word;
    assert (chunks + [chunk])[1..] == chunks[1..] + [chunk];
  }

  lemma AssocThree(a: Text, b: Text, c: Text, d: Text)
    ensures (a + (b + c)) + d == a + (b + (c + d))
  {
  }

  lemma {:induction false} StreamIsStreamFrom(chunks: seq<Text>)
    ensures Stream(chunks) == StreamFrom(chunks, 0)
  {
    hide Word;
    if chunks == [] {
    } else {
      var last := |chunks| - 1;
      StreamIsStreamFrom(chunks[..last]);
      StreamFromSnoc(chunks[..last], chunks[last], 0);
      assert chunks == chunks[..last] + [chunks[last]];
      Assoc(Stream(chunks[..last]), Word(last), chunks[last]);
    }
  }

  lemma {:induction false} SameStreamFrom(a: seq<Event>, b: seq<Event>, i: nat)
    requires forall e :: e in a || e in b ==> SizedEvent(e)
    requires StreamFrom(EncodedLog(a), i) == StreamFrom(EncodedLog(b), i)
    ensures a == b
    decreases |a|
  {
    hide Word, EventBytes, SizedEvent;
    if a == [] || b == [] {
      assert StreamFrom(EncodedLog(a), i) == [] <==> a == [];
      assert StreamFrom(EncodedLog(b), i) == [] <==> b == [];
    } else {
      var restA, restB := StreamFrom(EncodedLog(a)[1..], i + 1), StreamFrom(EncodedLog(b)[1..], i + 1);
      assert EncodedLog(a)[1..] == EncodedLog(a[1..]) && EncodedLog(b)[1..] == EncodedLog(b[1..]);
      assert (Word(i) + (EventBytes(a[0]) + restA))[8..] == EventBytes(a[0]) + restA;
      assert (Word(i) + (EventBytes(b[0]) + restB))[8..] == EventBytes(b[0]) + restB;
      EventEncodingInjective(a[0], restA, b[0], restB);
      SameStreamFrom(a[1..], b[1..], i + 1);
      assert a == [a[0]] + a[1..] && b == [b[0]] + b[1..];
    }
  }

  /**
   * Chunks go into the hash without their lengths, and yet the bytes hashed for a log determine the log: its length
   * and every event in it.
   */
  lemma HashedBytesDetermineLog(a: seq<Event>, b: seq<Event>)
    requires forall e :: e in a || e in b ==> SizedEvent(e)
    requires Stream(EncodedLog(a)) == Stream(EncodedLog(b))
    ensures a == b
  {
    StreamIsStreamFrom(EncodedLog(a));
    StreamIsStreamFrom(EncodedLog(b));
    SameStreamFrom(a, b, 0);
  }

  /** Chunk lists whose chunks have pairwise the same lengths, except that nothing is said of the last. */
  ghost predicate SameShape(a: seq<Text>, b: seq<Text>) {
    |a| == |b| && forall k :: 0 <= k < |a| - 1 ==> |a[k]| == |b[k]|
  }

  lemma {:induction false} SameShapeSameChunks(a: seq<Text>, b: seq<Text>, i: nat)
    requires SameShape(a, b) && StreamFrom(a, i) == StreamFrom(b, i)
    ensures a == b
    decreases |a|
  {
    hide Word;
    if a == [] {
    } else {
      var restA, restB := StreamFrom(a[1..], i + 1), StreamFrom(b[1..], i + 1);
      assert (Word(i) + (a[0] + restA))[8..] == a[0] + restA;
      assert (Word(i) + (b[0] + restB))[8..] == b[0] + restB;
      if |a| == 1 {
        assert restA == [] && restB == [];
        EmptyUnit(a[0]);
        EmptyUnit(b[0]);
      } else {
        SameCut(a[0], restA, b[0], restB);
        SameShapeSameChunks(a[1..], b[1..], i + 1);
      }
      assert a == [a[0]] + a[1..] && b == [b[0]] + b[1..];
    }
  }

  lemma SameCut(u: Text, v: Text, u': Text, v': Text)
    requires |u| == |u'| && u + v == u' + v'
    ensures u == u' && v == v'
  {
    assert (u + v)[..|u|] == u && (u' + v')[..|u'|] == u' && (u + v)[|u|..] == v && (u' + v')[|u'|..] == v';
  }

  function PrevHash(prev: Option<Hash>): Hash {
    if prev.Some? then prev.value else ZERO_HASH
  }

  /** The bytes hashed for a checkpoint of a domain determine all that it commits to. */
  lemma HashedBytesDetermineCheckpoint(
    d: Text, epoch: U64, height: U64, events: U64, txRoot: Hash, eventRoot: Hash, coord: SpacetimeCoord,
    prev: Option<Hash>, epoch': U64, height': U64, events': U64, txRoot': Hash, eventRoot': Hash,
    coord': SpacetimeCoord, prev': Option<Hash>)
    requires SizedCoord(coord) && SizedCoord(coord')
    requires Stream(CheckpointParts(d, epoch, height, events, txRoot, eventRoot, coord, prev))
          == Stream(CheckpointParts(d, epoch', height', events', txRoot', eventRoot', coord', prev'))
    ensures epoch == epoch' && height == height' && events == events' && txRoot == txRoot' && eventRoot == eventRoot'
    ensures coord == coord' && PrevHash(prev) == PrevHash(prev')
  {
    var a := CheckpointParts(d, epoch, height, events, txRoot, eventRoot, coord, prev);
    var b := CheckpointParts(d, epoch', height', events', txRoot', eventRoot', coord', prev');
    hide Word, CoordBytes, StreamFrom;
    StreamIsStreamFrom(a);
    StreamIsStreamFrom(b);
    SameShapeSameChunks(a, b, 0);
    assert a[1] == b[1] && a[2] == b[2] && a[3] == b[3] && a[4] == b[4] && a[5] == b[5] && a[6] == b[6] && a[7] == b[7];
    WordInjective(epoch, epoch');
    WordInjective(height, height');
    WordInjective(events, events');
    CoordRoundTrip(coord, []);
    CoordRoundTrip(coord', []);
  }

  /** Changing one byte of a checkpoint's transaction root always changes the root that commits to it. */
  lemma TxRootTamperingChangesRoot(d: Text, epoch: nat, height: nat, events: nat, txRoot: Hash, eventRoot: Hash,
                                   coord: SpacetimeCoord, prev: Option<Hash>, other: Hash)
    requires OneByteApart(txRoot, other)
    ensures CheckpointRoot(d, epoch, height, events, txRoot, eventRoot, coord, prev)
         != CheckpointRoot(d, epoch, height, events, other, eventRoot, coord, prev)
  {
    HashSeparates(CheckpointParts(d, epoch, height, events, txRoot, eventRoot, coord, prev),
                  CheckpointParts(d, epoch, height, events, other, eventRoot, coord, prev), 4);
  }

  /** So a checkpoint with such a change is not re-derivable, whatever the log. */
  lemma TamperedCheckpointNotRederivable(log: seq<Event>, cp: Checkpoint, other: Hash)
    requires Rederivable(log, cp) && OneByteApart(cp.txRoot, other)
    ensures forall changed :: !Rederivable(changed, cp.(txRoot := other))
  {
    TxRootTamperingChangesRoot(cp.domainId, cp.epoch, cp.height, cp.height, cp.txRoot, cp.eventLogRoot, cp.coord,
                               cp.prevCheckpointHash, other);
    hide CheckpointRoot, EventLogRoot, ParseHash;
  }
}
