# A verified model of the interplanetary settlement protocol and its simulator

The repository holds a Rust protocol library (`protocol/`), in which a client keeps append-only ledgers for several
domains, opens settlement claims on logged lock events and moves them towards bilateral settlement, and a Python
simulator (`sim/`), which schedules a scenario's messages and checks its invariants. This project models both cores in
Dafny and proves what they keep over whole runs.

| file | models | main results |
|---|---|---|
| `Types.dfy` | coordinates, events, canonical encodings | the encoding is uniquely decodable, and the decoder accepts nothing else |
| `Layout.dfy` | the same encodings and the hash, byte by byte | what every byte is, without the encoders; the values of `f64` patterns |
| `Hashing.dfy` | `hash_chunks`, hexadecimal hashes | mixing is a bijection; lists one byte apart never collide; hex round trips both ways |
| `Geometry.dfy`, `Causal.dfy` | light-cone tests, chains of hops, dependency chains | what a valid chain means end to end, and exactly when it composes |
| `CryptoPolicy.dfy` | crypto eras, the credit gate | the exact set of horizons that may carry credit, in every era, on both sides of 2^63 |
| `Ledger.dfy` | one domain's log and checkpoints | every checkpoint stays re-derivable; a changed payload byte is always visible |
| `Client.dfy`, `Settlement.dfy`, `Sync.dfy` | the client object and its operations, in place | each method is a function of the old state; the two separately coded gates agree |
| `Order.dfy` | the ordered set of anchors | a set has one sorted listing |
| `Anchors.dfy` | trusted anchors, read off their text | what each form of anchor does to every sync state, numbers included |
| `Operations.dfy` | every client operation, on its arguments and fields | exactly when it succeeds, which error it reports otherwise, and all that it records |
| `Invariants.dfy`, `Runs.dfy` | any interleaving of all operations | the state invariant, no rewinds or forks, exclusive locks, a faithful log, conserved credit |
| `Cones.dfy` | the light-cone status of claims over a run | `Valid` means inside the cone, `Invalid` is never given, and where a claim stands is settled at the lock |
| `Frontiers.dfy` | where trusted checkpoints come from | every frontier entry, and so every acceptance, has a cause outside the client |
| `Lifecycle.dfy` | the stages of a claim over a run | every stage has a cause; nothing settles unacknowledged; what a granted credit certifies |
| `Limits.dfy` | runs and inputs at the edges of the guarantees | when a final checkpoint stays whole, why a policy must stay below 2^63 years |
| `LockIds.dfy`, `LockClashes.dfy` | the ids `lock_for_export` makes | exactly which locks share an id with another lock, on any texts and on what ledgers can hold, and the conflict that follows |
| `Relocking.dfy` | several credits on one lock event | they come one after another, each once the claim before it is settled |
| `Sorting.dfy`, `Scheduler.dfy` | the replay-dropping scheduler | the three passes are one declarative schedule, order-independent exactly when unambiguous |
| `Verifier.dfy`, `Agreement.dfy` | the simulator's invariant checks | passing is exactly consistency; how checks and scheduler counters agree |
| `Blame.dfy` | the failures of the checks | a failing verdict names the first fault of the scenario, in the order of the checks |

## How it is modelled

The client and each ledger are classes whose methods change their fields as the Rust methods do. Each method is proved
equal to a function from the old state, as a value, to the new state and result; the properties are proved of those
functions. `Invariants.Inv` says what every reachable state satisfies, `Invariants.Evolves` how a state may change
(logs, histories and frontiers only grow, final checkpoints and stages and watermarks never go back, a claim's terms are
fixed), and `Runs` carries both over any sequence of the thirteen client operations with any arguments, including direct
calls of `update_claim_status` with any stage. Errors are values, so every error path of the modelled operations is there.

Integers have the width they have in Rust: 64-bit quantities are bounded, and `wrapping_mul`, `saturating_add`, casts
and release-mode `i64` subtraction are written out. An `f64` is its 64-bit pattern where it is encoded, and the real
number it stands for where it is measured; the square root is a parameter, with its defining property assumed only by
the lemmas that say so. The order in which a hash map yields its entries is left open.

Where the code does something a reader might not expect, the code is followed and the exact condition is proved:

- Two time intervals far enough apart wrap the 64-bit delay, and a hop whose sink is over before its source is then
  accepted (`Geometry.WrappedHopAccepted`), so a chain of coordinates can be found valid that light has no time for
  (`Causal.WrappedProofIsValid`). Light has time for a possible chain, between any two of its places, exactly when no
  hop wraps (`Geometry.ChainTimingExact`).
- A chain of possible hops need not be possible end to end. Through interior points it composes, between any two of its
  places, exactly when no hop wraps and no delay overflows (`Geometry.ChainComposesExact`,
  `Geometry.WrappedChainNotComposed`). Any interior radii that are not all zero can break it
  (`Geometry.InteriorRadiiBreakComposition`).
- A horizon of 2^63 years or more is read as a negative time. The crypto gate grants 2^63 years to every real root
  (`CryptoPolicy.HugeHorizonGranted`), and `CryptoPolicy.ExactHugeHorizon` says exactly what it grants there. A policy
  that allows such a horizon therefore lets a run credit it (`Limits.LongCreditGranted`); one that does not never does
  (`Lifecycle.CreditCertifies`).
- `resync_after_offline` is not all-or-nothing: with the anchors `A:B` and `Z::` a client that knows only the domain `A`
  reports an error and keeps the first anchor (`Sync.FailedResyncMoves`). A failed resync leaves the client as it was
  exactly when every domain already knows what the anchors before the first bad one tell it, and last trusted the last
  of that (`Sync.FailedResyncExact`). Every other operation is all-or-nothing (`Runs.FailureChangesNothing`).
- Crediting does not ask for a light cone. `lock_for_export` records a failed proof as `Unknown`, and no operation ever marks
  a claim `Invalid` (`Cones.NeverInvalid`), so the checks for that mark never refuse a claim of a run. A claim can be
  locked outside its cone and credited (`Limits.CreditedOutsideCone`). It is inside, for good, exactly when light could get
  from the lock event to the given coordinate at the lock (`Cones.LockedConeExact`); a claim marked `Valid` always is
  (`Cones.ValidMeansInCone`).
- The names in a claim id are not escaped, so two locks can share one. As texts go, a lock shares its id with some other lock
  exactly when one of its names contains a colon or its event id has an amount in it, set off by colons
  (`LockIds.LockIdSharedExact`). Among locks the client could accept, on events its ledgers could hold, the exact condition
  is `LockClashes.LockClashExact`: a colon in the origin's or the asset's name, one in the remote name that can separate
  names, or an event id that holds an amount and another event of the domain. The second of two such locks is refused as a
  conflict although its own event is free (`LockIds.SharedIdConflict`).
- A lock event is exclusive to one claim at a time, not for good: once its claim is settled it can be locked and credited
  again (`Relocking.ReopenExact`, `Relocking.CreditedTwice`), always in turn (`Relocking.CreditsInTurn`).
- A final checkpoint is pinned to its height by its `hash` field only. As a whole it is, exactly when no reconciliation
  brings another checkpoint of that height under the same hash (`Limits.WholeFinalExact`, `Limits.SwappedFinal`).
- No operation but `update_claim_status` itself reaches `OriginAcknowledged`, the stage settlement starts from
  (`Lifecycle.SettledByUpdate`).
- The scheduler depends on the listing order of its input exactly when two least messages share both times and the id
  (`Scheduler.AmbiguousInputDependsOnOrder`).
- The verifier bounds the delay only between domains a known distance apart. A passing scenario has no delay the
  scheduler counts as a violation exactly when none of its other messages has one (`Agreement.PassingDelays`); inside
  one domain, between domains of unknown distance, and without events it may (`Agreement.LongDelayInOneDomain`,
  `Agreement.LongDelayAtUnknownDistance`, `Agreement.LongDelayWithoutEvents`).

## Model

| member | source | states |
|---|---|---|
| Types.EncodeBytes | protocol/src/types.rs:60-77 | the loops write the nested length-prefixed layout that `DecodeCoord` undoes |
| Types.CanonicalBytes | protocol/src/types.rs:98-122 | likewise for a whole event, around its coordinate's encoding |
| Types.CoordRoundTrip | protocol/src/types.rs:60-77 | decoding an encoded coordinate followed by any bytes gives the coordinate and those bytes |
| Types.EventRoundTrip | protocol/src/types.rs:98-122 | decoding an encoded event followed by any bytes gives the event and exactly those bytes |
| Types.EventEncodingInjective | protocol/src/types.rs:98-122 | no event encoding is a prefix of another: a byte stream splits into events in one way, and equal bytes mean equal events |
| Types.EventOfDecoded | protocol/src/types.rs:98-122 | whatever the decoder accepts, encoded again, is the bytes it consumed |
| Layout.ByteOf | protocol/src/types.rs:62-70 | each byte of a number is its digit to the base 256, the least significant first |
| Layout.CoordLayout | protocol/src/types.rs:60-77 | a coordinate's bytes, field by field |
| Layout.EventLayoutExact | protocol/src/types.rs:98-122 | an event's bytes, field by field |
| Layout.FloatValues | protocol/src/types.rs:29-32 | zero, one, the sign, doubling by the exponent, and which patterns are finite |
| Layout.MixOneByte | protocol/src/types.rs:307-313 | one byte of mixing in one formula |
| Layout.StreamGrows | protocol/src/types.rs:318-324 | the hashed stream has each chunk behind its index |
| Layout.HashWords | protocol/src/types.rs:315-334 | the four words of a hash, from the two starting values |
| Layout.HexGrows | protocol/src/types.rs:337-339 | two lower-case digits for each byte, the high half first |
| Hashing.MultiplyThenDivide | protocol/src/types.rs:310 | the multiplier is odd: multiplying modulo 2^64 is undone by multiplying by 0xce965057aff6957b, and conversely |
| Hashing.MixStepBijective | protocol/src/types.rs:308-311 | one byte's mixing step has a two-sided inverse on the 64-bit states |
| Hashing.MixBijective | protocol/src/types.rs:307-313 | for fixed bytes, mixing is a bijection on the 64-bit states |
| Hashing.MixConcat | protocol/src/types.rs:307-313 | mixing a concatenation is mixing its parts one after the other |
| Hashing.MixSeparates | protocol/src/types.rs:307-313 | strings that differ in exactly one byte never mix to the same state |
| Hashing.MixLoop | protocol/src/types.rs:307-313 | the byte loop computes the mixing the lemmas are about |
| Hashing.HashChunks | protocol/src/types.rs:315-334 | the loop over chunks mixes two states over one indexed stream and crosses them into four words |
| Hashing.HashSeparates | protocol/src/types.rs:306-335 | chunk lists of one shape that differ in exactly one byte never have the same hash |
| Hashing.HashHexToBytes | protocol/src/types.rs:350-365 | the parse loop accepts exactly 64 hexadecimal digits of either case, and returns their bytes |
| Hashing.HexRoundTrip | protocol/src/types.rs:337-365 | parsing a printed hash gives it back |
| Hashing.ParsedHashPrints | protocol/src/types.rs:341-365 | printing a parsed hash gives back its spelling in lower case, so spellings differ in case only |
| Geometry.PossibleIffReached | protocol/src/causal.rs:37-45 | over valid regions, a hop is possible exactly when the sink does not begin before the source and light, in the delay, reaches from one ball to the other |
| Geometry.PossibleHopOrdered | protocol/src/causal.rs:38-44 | a possible hop's second interval begins after its first one ends exactly when the 64-bit delay did not wrap |
| Geometry.WrappedHopAccepted | protocol/src/causal.rs:42-44 | two valid intervals, the second over before the first ends, whose hop is accepted |
| Geometry.TriangleInequality | protocol/src/types.rs:34-40 | the distance of centres obeys the triangle inequality |
| Geometry.ChainTimingExact | protocol/src/causal.rs:37-88 | along a possible chain of valid places light has time for all the hops between any two of them exactly when no 64-bit subtraction wraps |
| Geometry.ChainDistance | protocol/src/types.rs:34-40 | the direct distance exceeds the sum of hops by at most twice the interior radii |
| Geometry.ChainComposesExact | protocol/src/causal.rs:37-88 | every two places of a possible chain through interior points are one possible hop, in the true order of time, exactly when no hop wraps and no delay overflows |
| Geometry.WrappedChainNotComposed | protocol/src/causal.rs:37-88 | a possible chain at one point of space, with a wrapped hop, whose ends are not one possible hop |
| Geometry.InteriorRadiiBreakComposition | protocol/src/causal.rs:37-88 | for all radii whose interior ones are not all zero there is a possible chain of any length whose ends are not one possible hop, and on it the bound of `ChainDistance` is attained |
| Causal.ProveLightcone | protocol/src/causal.rs:47-88 | errors below two coordinates; otherwise one measured hop per step, and the status is valid exactly when every hop is possible |
| Causal.HopsMeasurePath | protocol/src/causal.rs:59-73 | the recorded hop distances sum to the length of the path |
| Causal.ValidChainMeaning | protocol/src/causal.rs:47-88 | for every chain found valid: its direct distance is bounded by path and interior radii, and light has time for it between any two coordinates exactly when no subtraction wraps |
| Causal.WrappedProofIsValid | protocol/src/causal.rs:37-88 | two valid coordinates found valid as a chain, the second over before the first is, so that light has no time for the path |
| Causal.ValidateClaimLightcone | protocol/src/causal.rs:138-150 | the two-point proof succeeds exactly when the single hop is possible |
| Causal.ValidateEventDependencyChain | protocol/src/causal.rs:117-136 | the loop accepts exactly when every dependency is known and none is the event itself |
| Causal.LightconeOnFields | protocol/src/causal.rs:37-45 | the light-cone test on the fields of two coordinates: intervals, centres, radii, and the delay as 64-bit subtraction leaves it |
| Causal.RegionsApart | protocol/src/types.rs:34-40 | the distance of two regions is that of their centres, less both radii, and never negative |
| Causal.HopRecords | protocol/src/causal.rs:63-71 | what a hop records of the two coordinates it joins |
| CryptoPolicy.VerificationExact | protocol/src/crypto.rs:111-160 | for every era, exactly when a root is accepted and under which status |
| CryptoPolicy.DefaultVerification | protocol/src/crypto.rs:46-99 | the built-in eras: 80 or 200 years, deprecated from 40 or 140 on |
| CryptoPolicy.EmptyVerification | protocol/src/crypto.rs:88-109 | without eras in the registry: 120 years, deprecated from 90 on |
| CryptoPolicy.RiskLabels | protocol/src/crypto.rs:205-214 | each label goes with one outcome of the verification |
| CryptoPolicy.RiskReports | protocol/src/crypto.rs:215-236 | the era, its first suite, the years left as 64-bit subtraction gives them, and whether a suite anchors it |
| CryptoPolicy.RenewalReports | protocol/src/crypto.rs:245-259 | an accepted renewal reports the new root's verification |
| CryptoPolicy.GrantedStatus | protocol/src/crypto.rs:111-237 | a granted root is current or deprecated-but-renewed, each with its own risk label |
| CryptoPolicy.ExactCreditHorizon | protocol/src/crypto.rs:79-237 | below 2^63 the gate grants exactly a non-zero root, a positive horizon whose double is within hard reject, and a suite |
| CryptoPolicy.ExactHugeHorizon | protocol/src/crypto.rs:162-237 | from 2^63 on, exactly which horizons the gate grants, for every era |
| CryptoPolicy.HugeHorizonGranted | protocol/src/crypto.rs:162-237 | in the built-in eras every root but the placeholder is granted 2^63 years |
| CryptoPolicy.DefaultCreditHorizon | protocol/src/crypto.rs:46-99 | with the built-in eras the limit is 40 or 100 years by the root's first byte, and only year 40 of the deprecated era is not current |
| CryptoPolicy.RenewalChainExact | protocol/src/crypto.rs:239-260 | a renewal is accepted exactly when no root involved is the placeholder or past its own era's hard reject |
| Ledger.LocalLedgerDomain.SubmitLocalTx | protocol/src/ledger.rs:36-73 | the whole new ledger, or an error on a foreign domain, an invalid coordinate or a repeated id and no change |
| Ledger.LocalLedgerDomain.ComputeEventLogRoot | protocol/src/ledger.rs:83-87 | the encoding loop hashes the log that `PayloadTamperingChangesRoot` speaks of |
| Ledger.LocalLedgerDomain.BuildCheckpointRoot | protocol/src/ledger.rs:89-113 | the assembled root is the one every history entry is re-derived from |
| Ledger.LocalLedgerDomain.FinalizeCheckpoint | protocol/src/ledger.rs:115-180 | the whole new ledger with its sealed checkpoint, or an error and no change |
| Ledger.SubmitKeepsInv | protocol/src/ledger.rs:36-73 | submitting keeps ids unique, sequence numbers gapless and every past checkpoint re-derivable |
| Ledger.FinalizeKeepsInv | protocol/src/ledger.rs:115-180 | finalizing keeps that too: the new checkpoint is re-derivable, above all others, and its id parses to its state root |
| Ledger.LedgerRunChained | protocol/src/ledger.rs:36-180 | over any run of one ledger each checkpoint names the previous state root and the final one is the last |
| Ledger.PayloadTamperingChangesRoot | protocol/src/ledger.rs:83-87 | changing one byte of one logged event's payload hash always changes the log root |
| Ledger.TamperedLogNotRederivable | protocol/src/ledger.rs:83-113 | so no checkpoint covering that event can be re-derived from the changed log |
| Ledger.HashedBytesDetermineLog | protocol/src/ledger.rs:83-87 | chunks are hashed without their lengths, and yet the bytes hashed for a log determine its length and every event |
| Ledger.HashedBytesDetermineCheckpoint | protocol/src/ledger.rs:89-113 | the bytes hashed for a checkpoint of a domain determine its epoch, height, count, roots, coordinate and previous hash, none counting as the zero hash |
| Ledger.TxRootTamperingChangesRoot | protocol/src/ledger.rs:89-113 | changing one byte of the transaction root always changes the root that commits to it |
| Ledger.TamperedCheckpointNotRederivable | protocol/src/ledger.rs:89-113 | a re-derivable checkpoint with such a change is re-derivable from no log |
| Operations.SubmitExact | protocol/src/ledger.rs:36-73 | logging succeeds exactly for a transaction of the domain with a well-formed coordinate and a new id, and the event carries the transaction's actor, kind, payload, coordinate, dependencies and signatures, and the next number |
| Operations.GetEventFirst | protocol/src/ledger.rs:79-81 | the event found is the first logged under its id, and none is found exactly when none is logged |
| Operations.FinalizeExact | protocol/src/ledger.rs:115-180 | sealing succeeds exactly for a named domain, a well-formed coordinate, a rising height and no id or the right one; the checkpoint, part by part, with the caller's transaction root unless that is zero |
| Client.UniverseClient.constructor | protocol/src/client.rs:46-60 | a new client is the sound empty state runs start from |
| Client.UniverseClient.AddDomain | protocol/src/client.rs:62-81 | an unknown domain gets its own ledger object, an empty sync state and the zero root, nothing else changes; a known one is a conflict |
| Client.UniverseClient.UpdateClaimStatus | protocol/src/client.rs:83-110 | claim, status cache and log move together, or an unknown claim or falling stage is an error and nothing moves |
| Client.UniverseClient.BootstrapClaimStatus | protocol/src/client.rs:112-122 | the cache and log it leaves behind, whatever stage it is given |
| Settlement.LockForExport | protocol/src/settlement.rs:24-129 | every check in order with its error, the claim built, and the whole new client |
| Settlement.CreateSettlementClaim | protocol/src/settlement.rs:131-219 | the same for an explicit claim |
| Settlement.VerifySettlementClaim | protocol/src/settlement.rs:234-329 | the decision, the one error for malformed hex, and the restaged crypto status and risk |
| Settlement.AcceptRemoteClaim | protocol/src/settlement.rs:331-383 | acceptance only on a checkpoint the origin's sync state knows, moving the stage and nothing else |
| Settlement.ProvisionallyCredit | protocol/src/settlement.rs:385-471 | the line charged, the claim rewritten and restaged, or an error, in the order the code does it |
| Settlement.ApplyCheckpointToClaim | protocol/src/settlement.rs:491-505 | a known claim takes the given checkpoint id and an unknown light-cone status, keeping its stage; an unknown claim is an error |
| Settlement.MarkBilaterallySettled | protocol/src/settlement.rs:507-527 | settles exactly a claim its origin has acknowledged, moving claim, cache and log together |
| Settlement.GatesAgree | protocol/src/settlement.rs:234-471 | for an observed claim, verification approves and a line with room exists exactly when crediting succeeds, malformed hex included |
| Settlement.BlankIsWhite | protocol/src/settlement.rs:184-188 | a blank claim id is made of the listed white-space characters |
| Settlement.WhiteIsBlank | protocol/src/settlement.rs:184-188 | and whatever is made of them is blank |
| Operations.LockExact | protocol/src/settlement.rs:34-129 | from the arguments: exactly when locking succeeds and which error it reports otherwise; the claim's lock, parties, asset, amount, coordinate, horizon, dependencies and lock checkpoint; and the whole new client |
| Operations.CreateExact | protocol/src/settlement.rs:140-219 | the same for explicit creation, at the event's coordinate and for five years |
| Operations.CreditExact | protocol/src/settlement.rs:389-440 | exactly when a credit is granted, and which error it reports otherwise |
| Operations.CreditRecords | protocol/src/settlement.rs:442-471 | every credit's status, label, log entry and charge: deprecated and at least high from the era's soft warning on, current and at least medium before, raised by the policy's floor |
| Operations.AcceptExact | protocol/src/settlement.rs:336-383 | a known checkpoint suffices: exactly when acceptance succeeds, which error it reports otherwise, and what it records |
| Operations.MarkExact | protocol/src/settlement.rs:511-527 | settling succeeds exactly for an acknowledged claim |
| Operations.ApplyCheckpointExact | protocol/src/settlement.rs:496-504 | a known claim takes the checkpoint id and the unknown status, and nothing else changes |
| Operations.ApprovalRecords | protocol/src/settlement.rs:294-328 | an approval records the status and risk of the root at the claim's horizon |
| Operations.RefusalReports | protocol/src/settlement.rs:238-316 | a refusal reports the claim at its stage and changes nothing |
| Operations.UpdateExact | protocol/src/client.rs:83-110 | from the listed order of stages: an update succeeds exactly when the claim is known and not past the new stage |
| Operations.StagesNeverGoBack | protocol/src/client.rs:136-149 | over every run no claim goes back in that list |
| Operations.HonestPath | protocol/src/settlement.rs:357-527 | a credited claim with a trusted checkpoint is accepted, acknowledged and settled, each step reporting success |
| Operations.AddDomainExact | protocol/src/client.rs:62-81 | what a new domain starts with |
| Operations.ReconcileExact | protocol/src/sync.rs:24-52 | exactly when a checkpoint from outside is taken over, and that the watermark rises to its height |
| Operations.ConflictExact | protocol/src/sync.rs:60-65 | two unsettled claims of one origin conflict over one lock event, or over one asset in one amount |
| Order.LexMeaning | protocol/src/sync.rs:110-113 | one text comes before another when, behind a common beginning, it ends or goes on lower |
| Order.SortedUnique | protocol/src/sync.rs:110-113 | a set has one sorted listing, so the anchor set forgets order and repetition |
| Sync.ReconcileCheckpoint | protocol/src/sync.rs:23-53 | the final checkpoint and sync state it installs, or a rewind or fork refused |
| Sync.TrustEverywhere | protocol/src/sync.rs:136-145 | visiting the domains in any order has one outcome |
| Sync.ApplyAnchors | protocol/src/sync.rs:116-147 | the sorted anchors act in turn up to the first rejected one |
| Sync.ResyncAfterOffline | protocol/src/sync.rs:107-176 | anchors, then one replay entry per credited claim, for whatever order the claim map yields |
| Sync.LogReplay | protocol/src/sync.rs:206-223 | the replay entry repeats the cached stage, and the cache is as before |
| Sync.SplitJoins | protocol/src/sync.rs:182-203 | an anchor's parts are the colon-free pieces whose join is the anchor |
| Anchors.SplitOfJoin | protocol/src/sync.rs:182 | splitting undoes joining with colons |
| Anchors.NumberExact | protocol/src/sync.rs:198 | a text reads as a 64-bit number exactly when it prints it, with or without sign and leading zeros |
| Anchors.NumberedAnchorTrusted | protocol/src/sync.rs:191-200 | `domain:height:id`, with any parts before the id: that domain alone trusts the id, and its watermark rises to the height if it is a number that fits |
| Anchors.PlainAnchorTrusted | protocol/src/sync.rs:183-187 | `domain:id`: that domain alone trusts the id, and no watermark moves |
| Anchors.WholeAnchorTrusted | protocol/src/sync.rs:188-203 | an anchor without a colon, or of two parts with an unknown first, is trusted whole by every domain |
| Anchors.UnknownAnchorRejected | protocol/src/sync.rs:191-197 | three parts or more with an unknown first are an error |
| Anchors.EveryAnchorHasParts | protocol/src/sync.rs:182 | every text is colon-free parts joined by colons, so the laws above cover every anchor |
| Anchors.ResyncReports | protocol/src/sync.rs:171-175 | the reported counts: replays, no conflicts, and the domains that heard of an anchor |
| Sync.AnchorsPerDomain | protocol/src/sync.rs:116-147 | accepted anchors act on each domain by itself, through what that domain hears |
| Sync.AnchorsUpToRejected | protocol/src/sync.rs:117-147 | the sync states are the fold of exactly the anchors before the first rejected one |
| Sync.AnchorsIdempotent | protocol/src/sync.rs:107-147 | applying an anchor list to its own outcome changes nothing |
| Sync.ResyncSyncState | protocol/src/sync.rs:107-147 | resync's sync states depend only on the set of anchors, not on order, repetition or map order, and doing it again changes nothing |
| Sync.RejectedResync | protocol/src/sync.rs:116-147 | a failed resync has applied the anchors sorting before the first bad one, and left claims, log, ledgers and lines alone |
| Sync.FailedResyncExact | protocol/src/sync.rs:116-147 | it leaves the whole client as it was exactly when every domain already knows what those anchors tell it, and last trusted the last of that |
| Sync.FailedResyncMoves | protocol/src/sync.rs:116-147 | an input on which a resync fails and yet changes the sync state |
| Invariants.ConsecutiveEntriesJoin | protocol/src/client.rs:83-122 | in a faithful log, consecutive entries of a claim join |
| Invariants.StagesNeverFall | protocol/src/client.rs:136-149 | in a faithful log, no later entry of a claim starts below where an earlier one ended |
| Invariants.LockKeeps | protocol/src/settlement.rs:24-129 | locking keeps the whole invariant, lock exclusivity and grounding included |
| Invariants.CreateKeeps | protocol/src/settlement.rs:131-219 | so does opening a claim explicitly |
| Invariants.ReconcileKeeps | protocol/src/sync.rs:23-53 | reconciling keeps the invariant, and neither rewinds nor forks |
| Invariants.CreditSteps | protocol/src/settlement.rs:442-464 | a granted credit is one line charged by the claim's amount and one claim restaged from observed to credited, at a risk no lower than the policy floor |
| Invariants.FailedCredit | protocol/src/settlement.rs:453-464 | the status update that ends a credit cannot fail, so a failed credit has changed nothing |
| Invariants.ResyncReplays | protocol/src/sync.rs:149-175 | an accepted resync logs each credited claim once, at the stage it has, and touches no claim, status, ledger or line |
| Invariants.StoredConflicts | protocol/src/sync.rs:60-65 | between stored claims a conflict is reported exactly for equal asset and amount on different lock events, both unsettled |
| Invariants.ClaimRestsOnLog | protocol/src/settlement.rs:58-68 | a claim's lock event is the only logged event of its id, and its dependencies are other logged events |
| Invariants.BootstrapExact | protocol/src/client.rs:112-122 | a direct bootstrap keeps the invariant exactly when it repeats the stage the claim already has |
| Runs.FreshInv | protocol/src/client.rs:46-60 | a new client satisfies the invariant |
| Runs.StepKeeps | protocol/src/client.rs:62-122 | each of the thirteen operations keeps the invariant and only lets the state evolve |
| Runs.RunInv | protocol/src/settlement.rs:24-527 | every state of every run satisfies the invariant: locks exclusive, claims grounded, cache, claims and log in agreement |
| Runs.RunEvolves | protocol/src/sync.rs:23-53 | between any two moments frontiers only grow, watermarks and stages never fall, claims keep their terms |
| Runs.LogTellsAll | protocol/src/client.rs:83-122 | in every run the log only grows, is numbered 1..n, and played back gives exactly every claim's stage |
| Runs.FinalityNeverForks | protocol/src/sync.rs:28-40 | over any interleaving final heights never go back, and one height never has two hashes |
| Runs.CheckpointsStayRederivable | protocol/src/ledger.rs:89-180 | a checkpoint once in history stays there, re-derivable from the later log, below all that follow |
| Runs.RunChained | protocol/src/ledger.rs:145-179 | without outside reconciliation every domain's history is one hash chain ending at its final checkpoint |
| Runs.FailureChangesNothing | protocol/src/settlement.rs:385-471 | any operation but resync that reports an error leaves the whole client as it was |
| Runs.AcceptanceKeepsEvidence | protocol/src/settlement.rs:357-376 | a claim moved by acceptance has its checkpoint in its origin's frontier in all later states |
| Runs.CreditConserved | protocol/src/settlement.rs:407-464 | in every run a line's use is its opening value plus all amounts credited through it, cut at 2^64 - 1, and stays within its limit |
| Runs.CreditExact | protocol/src/settlement.rs:407-464 | on every line whose limit is not the largest number the sum is exact |
| Runs.CreditedOnce | protocol/src/settlement.rs:397-464 | no claim is ever credited twice or through two lines, and each credit is for the claim's own amount |
| Cones.NeverInvalid | protocol/src/settlement.rs:69-76 | from a state where no claim is marked `Invalid`, no claim of any run is |
| Cones.ValidMeansInCone | protocol/src/settlement.rs:69-76 | over every run a claim marked `Valid` is one whose lock coordinate light can reach from its lock event |
| Cones.ConeNeverMoves | protocol/src/causal.rs:37-45 | a claim inside its cone stays inside, and one outside stays outside |
| Cones.LockedConeExact | protocol/src/settlement.rs:69-120 | a locked claim is inside its cone in every later state of a run exactly when the light-cone test holds, at the lock, from its event to the given coordinate |
| Frontiers.FrontierStep | protocol/src/sync.rs:47-49 | after a step a checkpoint is in a frontier exactly when it was before, or the step is a reconciliation of it or a resync one of whose accepted anchors tells the domain of it |
| Frontiers.FrontierHasCause | protocol/src/sync.rs:107-147 | over every run from no domains, each frontier entry was brought by such an earlier step |
| Frontiers.AcceptanceHasCause | protocol/src/settlement.rs:357-376 | so a claim is only accepted on a checkpoint that an earlier step brought to its origin's frontier |
| Lifecycle.StageMoves | protocol/src/client.rs:83-110 | each operation leaves a claim at its stage or moves the claim it names to the one stage that operation is for |
| Lifecycle.StageHasCause | protocol/src/settlement.rs:24-527 | over a run from a client without claims, whatever stage a claim is at, an earlier successful step put it there |
| Lifecycle.SettledByUpdate | protocol/src/settlement.rs:507-527 | no claim is ever settled unless `update_claim_status` was called on it to acknowledge or to settle it: no other operation leads there |
| Lifecycle.RunHashLocks | protocol/src/settlement.rs:88-91 | while only hashes come in from outside, every claim's lock checkpoint and every final checkpoint id is a well-formed hash |
| Lifecycle.VerificationAlwaysDecides | protocol/src/settlement.rs:273-275 | so verification gives every stored claim a decision, and its malformed-hash error is not reached |
| Lifecycle.CreditCertifies | protocol/src/settlement.rs:385-440 | in every run with the built-in eras and a policy below 2^63 years, a credit means a real lock hash and a horizon from 1 to 40 or 100 years within policy; it says nothing of the light cone beyond the status, which proves the claim inside its cone only when it is `Valid` |
| Lifecycle.ApprovalExact | protocol/src/settlement.rs:246-328 | exactly when verification errs and when it approves; approval rewrites only that claim's crypto status and risk, to one of two matching pairs, and anything else changes nothing |
| LockIds.DecimalRoundTrip | protocol/src/settlement.rs:92-94 | an amount printed in decimal reads back as itself, without colons |
| LockIds.LockIdsApart | protocol/src/settlement.rs:92-94 | among names without colons the claim id determines origin, remote, asset, amount and lock event |
| LockIds.LockIdSharedExact | protocol/src/settlement.rs:92-94 | as texts go, some other lock has the id of this one exactly when a name of this one contains a colon or its event id reads as an amount and a rest, behind a colon or at the start |
| LockClashes.LockClashExact | protocol/src/settlement.rs:34-94 | for a lock with positive amount and distinct domains on an event id a ledger can hold, exactly when another such lock, on such an event, has its id |
| LockIds.SharedIdConflict | protocol/src/settlement.rs:78-100 | a run after which a lock that would have been accepted is refused as a conflict, although no claim uses its event |
| Limits.WholeFinalExact | protocol/src/sync.rs:28-40 | over any run a final checkpoint stays whole while its height stays, exactly when no reconciliation brings another one of that height and hash |
| Limits.SwappedFinal | protocol/src/sync.rs:28-40 | reconciling two checkpoints of one height and hash leaves the second final, though its transaction root differs |
| Limits.CreditedOutsideCone | protocol/src/settlement.rs:69-76 | a run of a new client in which a claim whose coordinate light cannot reach is locked and credited |
| Limits.LongCreditGranted | protocol/src/settlement.rs:385-440 | under every policy that allows 2^63 years a new client has a run that credits a claim with that horizon |
| Relocking.CreditedAlone | protocol/src/settlement.rs:78-86 | when a credit succeeds, every other claim on the same lock event is settled |
| Relocking.CreditsInTurn | protocol/src/settlement.rs:78-86 | over every run, of two credits on one lock event the earlier one's claim is settled |
| Relocking.ReopenExact | protocol/src/settlement.rs:78-86 | a claim in order otherwise can be opened on an event, by locking or explicitly, exactly when every claim on the event so far is settled |
| Relocking.CreditedTwice | protocol/src/settlement.rs:169-177 | a run in which one lock event backs two credits |
| Sorting.SortSorts | sim/src/uni_sim/scheduler.py:26-29 | the sort is a sorted permutation |
| Sorting.SortStable | sim/src/uni_sim/scheduler.py:26-29 | equal keys keep their order |
| Sorting.SortedDetermined | sim/src/uni_sim/scheduler.py:51-54 | a sorted sequence is determined by its elements of each key |
| Scheduler.DropReplays | sim/src/uni_sim/scheduler.py:38-49 | the indexed loop keeps exactly the messages whose route and nonce no earlier one has |
| Scheduler.CountViolations | sim/src/uni_sim/scheduler.py:64-87 | the counters are those that `CountersCount` speaks of |
| Scheduler.CountersCount | sim/src/uni_sim/scheduler.py:68-87 | the counters are the numbers of messages with more hops, or a longer delay, than a bound that is set |
| Scheduler.Run | sim/src/uni_sim/scheduler.py:25-99 | events in order of sequence, time and id; messages a schedule of the input, as stated on their fields; receive times never falling; drops and violations counted exactly |
| Scheduler.ScheduledIsSchedule | sim/src/uni_sim/scheduler.py:32-54 | on the fields: for each route and nonce of the input the output holds the one message earliest by send time, receive time and id, in order of receive time, send time and id |
| Scheduler.ScheduleUnique | sim/src/uni_sim/scheduler.py:32-54 | an unambiguous input has only one such output |
| Scheduler.ScheduleIgnoresOrder | sim/src/uni_sim/scheduler.py:32-54 | then every listing of the same messages gives the same schedule |
| Scheduler.AmbiguousInputDependsOnOrder | sim/src/uni_sim/scheduler.py:32-54 | otherwise two listings give different schedules |
| Scheduler.TwinsAreAmbiguous | sim/src/uni_sim/scheduler.py:32-54 | two messages that differ only in their payload are such an input |
| Scheduler.ScheduleIdempotent | sim/src/uni_sim/scheduler.py:32-54 | scheduling a schedule changes and drops nothing |
| Scheduler.KeptCount | sim/src/uni_sim/scheduler.py:38-49 | as many messages are kept as there are distinct pairs of route and nonce |
| Verifier.RequireNoEventIdConflict | sim/src/uni_sim/verifier.py:28-34 | the first repeated id, or the dictionary of all events |
| Verifier.VerifyCausalDependencies | sim/src/uni_sim/verifier.py:37-43 | the first unknown dependency of the first event that has one |
| Verifier.VerifyMessageTimes | sim/src/uni_sim/verifier.py:46-53 | the first message received before it was sent |
| Verifier.InvariantLightcone | sim/src/uni_sim/verifier.py:56-91 | the first message that could not have travelled, with the reason checked first |
| Verifier.InvariantReplayAndRoute | sim/src/uni_sim/verifier.py:209-235 | the first badly routed message, and only then a collision of route and nonce |
| Verifier.GroupByLock | sim/src/uni_sim/verifier.py:162-164 | the groups partition the claims by lock event, in order of first appearance |
| Verifier.InvariantNoFalseFinality | sim/src/uni_sim/verifier.py:159-178 | the first contested lock with the ids of its accepted claims, before any claim's own fault |
| Verifier.InvariantNoFalseFinalityClaims | sim/src/uni_sim/verifier.py:135-156 | the first claim whose stage, status, horizon or checkpoint is unsupported |
| Verifier.InvariantOfflineWindows | sim/src/uni_sim/verifier.py:115-132 | passes or names the first message and window touched, whichever end's domain the set yields first |
| Verifier.CheckExpectations | sim/src/uni_sim/verifier.py:181-206 | the first expectation that does not hold |
| Verifier.VerifyInvariants | sim/src/uni_sim/verifier.py:238-263 | the checks in order, each only when all before it passed |
| Blame.VerdictNamesFirstFault | sim/src/uni_sim/verifier.py:238-263 | a failing verdict names the first fault, in the order of the checks and, within a check, of the events, messages, locks, claims or expectations |
| Agreement.PassesIffConsistent | sim/src/uni_sim/verifier.py:238-263 | the whole pass succeeds exactly on the scenarios that are consistent, as stated on their fields with every bound written out |
| Agreement.LightconeMeaning | sim/src/uni_sim/verifier.py:56-91 | the check on one message holds exactly when its ends' domains are close enough for its delay and its delay within bound |
| Agreement.CollisionMeaning | sim/src/uni_sim/verifier.py:234-235 | comparing the sizes of list and set finds a collision exactly when two messages share route and nonce |
| Agreement.ConflictsMeaning | sim/src/uni_sim/verifier.py:162-171 | grouping by lock passes exactly when no two claims on one lock are both past observation |
| Agreement.OfflineMeaning | sim/src/uni_sim/verifier.py:115-132 | whatever the set order, the check passes exactly when no message touches a window of an end's domain |
| Agreement.DeadChecks | sim/src/uni_sim/verifier.py:50-53 | the second time comparison never fails, and a repeated id is reported exactly when there is one, so the second id check adds nothing |
| Agreement.ScheduleNeverCollides | sim/src/uni_sim/verifier.py:234-235 | on a schedule the collision check cannot fail |
| Agreement.CountersAgree | sim/src/uni_sim/verifier.py:83-91 | passing means no route violations counted; a hop-bound or delay-bound failure means some were |
| Agreement.PassingDelays | sim/src/uni_sim/verifier.py:67-91 | a passing scenario has no delay violation exactly when none of the messages not joining domains a known distance apart has one; the others never have |
| Agreement.LongDelayInOneDomain | sim/src/uni_sim/verifier.py:71-73 | for every bound, a scenario inside one domain that passes with a counted delay violation |
| Agreement.LongDelayAtUnknownDistance | sim/src/uni_sim/verifier.py:74-82 | the same between two domains of unknown distance |
| Agreement.LongDelayWithoutEvents | sim/src/uni_sim/verifier.py:67-68 | the same for a message that names no events |
| Agreement.ConsistentBeforeAndAfter | sim/src/uni_sim/scheduler.py:32-57 | a scenario is consistent as listed exactly when its schedule is and nothing was dropped |
| Agreement.Simulate | sim/src/uni_sim/__main__.py:27-34 | scheduling then checking: no collision, no route violations on success, no delay violations on success exactly when no unbounded message is late, counters behind every bound failure, success without drops exactly on consistent input |

## Left out

- What `uni.md` designs and the code does not have: quarantine, expired and slashed claims, Merkle proofs, haircut curves.
- Error reasons, decision reasons and other human-readable text, and the `reason` field of the transition log.
- `disputes`, `slash_or_dispute`, `add_observation`, `update_causal_status` and `reconcile_causal`, and the
  claim fields only they use (observations, causal certificates, signature bundle): nothing else reads them.
- `verify_remote_checkpoint`, `verify_checkpoint_quorum` and their signatures: flat conjunctions no modelled step calls.
- The request wrappers of `api.rs`, policy fields no modelled code reads, and the credit line's haircut and parties.
- Transaction inputs, outputs and the like that `submit_local_tx` does not read; the clone of a returned value.
- Floating-point rounding, infinities and NaN in distances: arithmetic there is over the reals, and the light-cone speed is
  positive. `is_finite` and the encoders work on the bit pattern.
- Debug-build overflow panics: `i64` subtraction wraps as in a release build. Counts and log lengths are taken to stay
  below 2^64.
- Writes to the client's public fields from outside, such as adding a credit line after construction: not steps of a run.
- `bootstrap_claim_status` as a step of its own: it occurs in runs as lock and create call it, and `BootstrapExact` says
  exactly when any other call would be sound.
- FinalityNeverForks: speaks of the `hash` field, the only one reconciliation compares; `WholeFinalExact` says exactly when the
  whole checkpoint is kept.
- Trace lines, the JSON, TLA and Alloy exports, the scenario parser and the command line of the simulator; the list of counts
  that `verify_invariants` returns on success; the splitting of an expectation into words, which are taken as given.
- Infinite or NaN distances in the simulator, and calling its checks without a context.
- Lower-casing beyond ASCII in expectation words: no other letter lowers to one of the four expectation words.
