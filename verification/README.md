# MeshSettle in Dafny

MeshSettle carries signed, sealed payment packets over a mesh of relays to a bridge, which puts them on
a queue; any number of settlement workers take them off and settle each payment at most once, with Redis
as an expiring cache in front of a table with two unique columns. This project models that system and
proves what it does and does not guarantee.

## Layout

| file | contents |
|---|---|
| `Domain.dfy` | shared vocabulary: regions, readings, outcomes, rows, markers, faults, steps 1 to 2b |
| `Protocol.dfy` | the settlement service as a step system: workers, copies, Redis, table, clock, crashes, lost connections, calls that raise with or without effect |
| `Safety.dfy` | the invariant of all reachable states: uniqueness, truthful outcomes, provenance of rows |
| `NoLoss.dfy` | what keeps a payment safe, and the faults that can orphan a claim |
| `Loss.dfy`, `Settling.dfy` | when a payment is gone for good and when it can still settle, exactly, and the steps that lose it |
| `LossRuns.dfy` | a run for each fault that loses a payment |
| `CompleteRuns.dfy` | what clean runs end with, and settled counts across replicas |
| `Claims.dfy` | claim exclusion, racing claims, the lifetime of the settled marker, requeues |
| `Pipeline.dfy` | one delivery as a function of the stores; counters |
| `Service.dfy` | the imperative service: Redis, Postgres, `DedupeStore`, metrics, processor, consumer |
| `Refinement.dfy` | one uninterrupted delivery in the pipeline and in the step system, in both directions |
| `Sequential.dfy` | cache transparency and non-interference |
| `Evidence.dfy` | what evidence of rejections is stored, and in which order |
| `Base64Exact.dfy` | which texts the base64url decoder refuses, and which it accepts are encodings |
| `Base64Url.dfy`, `Json.dfy`, `Canonical.dfy`, `Packet.dfy`, `Wire.dfy` | encodings, signed region, packets |
| `Texts.dfy` | letter by letter: UTF-8, JSON, base64url, key order, and the texts that are sealed, signed and sent |
| `Symbolic.dfy` | a concrete cryptographic suite that meets every law assumed |
| `Mesh.dfy` | relays, bridge, forwarding chains |
| `EndToEnd.dfy` | message bodies to rows, rows to what the sender signed, a submission to its settlement |

`dafny verify dfyconfig.toml` checks everything.

## Reading the model

- Times and durations are integer microseconds. A marker is in Redis while the clock is before its expiry.
- In the step system a worker is one handler invocation and a copy is one message on the queue. The broker
  can take a copy back while its worker runs on (`Disconnect`), and a worker can die (`Crash`).
- A message body enters the step system as a `Reading`: malformed, or a key, the verdict on the
  signature and a hop count. Everything signed is a function of the key (`Config.region`); `EndToEnd`
  builds that function from the packet format under the hypothesis `CollisionFree`.
- Cryptography is a `Suite` of functions. Signatures (section 5.1 of RFC 8032), key transport (section
  7.1 of RFC 8017) and authenticated encryption (section 2 of RFC 5116, NIST SP 800-38D) appear as the
  hypotheses `SignatureLaw`, `SealingLaw` and `BindingLaw`, named wherever they are used; that nobody but
  the sender signs is the hypothesis `EndToEnd.Unforged` about the bodies on the queue.

## What came out false, and what holds instead

- "No payment is lost" is false: `LossRuns.CrashLosesPayment` gives, for every settleable packet, a run with
  one crash after which the only copy is acknowledged and the payment is gone. The recovery of an orphaned
  claim that ARCHITECTURE.md describes (lines 275-284) is not in the processor. `Loss.GoneExactly` says
  when a payment is gone: exactly when no continuation settles it or refuses it for its age. The steps that
  make it so are exactly those of `Loss.FinalBlow` (`Loss.LossExactly`, `Loss.NoLossExactly`). In a run
  with none of four faults on the payment before it has a row - a crash past the claim, a lost connection, a
  SET NX applied but raised, a rollback that does not reach Redis - it is never lost
  (`CompleteRuns.SteadyRunKeepsPayment`, `Loss.SafeIsHopeful`). Module `LossRuns` has a losing run for each
  of the four; a crash and a raised SET NX lose a payment by themselves, the others with a failed insert.
- "At most one worker past a claim", with no expiry and no flush of that key, is false for exactly one kind
  of packet: one whose AAD matches and whose content does not open (`Claims.ExclusionExactly`). Its release
  may take effect but raise; the outer handler then repeats it, after another worker has claimed
  (`Claims.HalfReleaseCollides`). For all other packets exclusion holds whatever else fails and whatever
  happens to other keys (`Claims.ClaimExclusion`).
- "A settled marker keeps later copies from the database" is false at the shipped settings: the marker
  must outlive window, skew and check-to-claim delay together. `Claims.TtlBound` proves it when it does,
  and `Claims.TtlGap` gives a run through the gap whenever it does not.
- "`b64u_decode` inverts `b64u_encode` and refuses what is not base64url" is false in its second half
  (`Base64Exact.LenientInputs`). A decoded text is encoded back to itself exactly when it is made of
  URL-safe symbols, its length is not one more than a multiple of four and the unused low bits of its last
  symbol are zero (`Base64Exact.ReEncodesExactly`); `Base64Exact.RefusedExactly` gives the texts refused.

## Model

| member | source | states |
|---|---|---|
| Safety.AtMostOnce | services/settlement/db.py:79-90 | in every reachable state, whatever expires, is flushed, crashes, is redelivered or raises, each key and each packet id has at most one row, and at most one SETTLED outcome was ever reported for a packet id |
| Safety.RowsAreForever | services/settlement/processor.py:377-381 | along any run the table and the reports only grow: a committed row never changes or disappears |
| Safety.RowsAreJustified | services/settlement/processor.py:365-375 | every row is the one its origin message asks for, and that message verified, matched its AAD and was inside the window when its worker checked it |
| Safety.DuplicateVerdictsAreTrue | services/settlement/processor.py:282-301 | a settled marker, and every "already settled" verdict, stands for a committed row with that packet id, also when the integrity error came from the packet id column |
| Safety.ReportsAreTruthful | services/settlement/processor.py:173-356 | every reported outcome is true: its code names a defect the packet has, SETTLED names a row with its key, only INTERNAL_ERROR asks for a retry |
| Safety.OnlyVouchedKeys | services/settlement/processor.py:193-281 | a key is in Redis only if some published copy with that key verified, was fresh and matched its AAD |
| Safety.RefusedMeansSettled | services/settlement/processor.py:382-401 | an insert refused by any constraint means that the packet id already has a row |
| Safety.ScreenTruthful | services/settlement/processor.py:422-453 | the checks before the claim let a packet through exactly when it verified, is inside the window (both edges inclusive) and matches its AAD; otherwise the refusal names what is wrong |
| Safety.ScreenExactly | services/settlement/processor.py:173-277 | the whole answer - status, detail, code, ids, retry flag - to every message that does not reach the claim, and when there is none |
| Safety.ContentRefusalExactly | services/settlement/processor.py:303-335 | the whole answer to a packet whose envelope yields no usable instruction |
| Safety.KeepsInv | services/settlement/processor.py:279-420 | every step of a worker or of the environment, with any fault, keeps the whole invariant |
| NoLoss.RiskExactly | services/settlement/processor.py:281-301 | safe means: settled, refused for age, or some copy not headed for the ack; a safe state is left exactly by a risky test: the only such copy meets a `claimed` marker with no row and no refusal |
| NoLoss.StaysSafeExactly | services/settlement/consumer.py:94-112 | a run keeps a payment safe in every state if and only if it contains no risky test |
| NoLoss.RiskyTestsAreOrphanTests | services/settlement/dedupe.py:73-95 | a risky test always meets a claim that no worker still owning its message holds |
| NoLoss.NoOrphanNoLoss | services/settlement/processor.py:303-356 | in every run that never tests an orphaned claim - a claim with no row and no worker past it that still owns its message - the payment is settled, refused for its age, or still has a viable copy, in every state, whatever crashes, is flushed, released by others or raises |
| NoLoss.LostClaimIsSafe | services/settlement/dedupe.py:27-30 | losing the claim to a worker that is past it and still owns its message is safe: that worker's copy stays viable |
| NoLoss.KeepsOwned | services/settlement/processor.py:303-356 | "every worker on the key has its message, and a claim has a worker past it" is kept by every step except four faults: a crash past the claim, a lost connection, a SET NX applied but raised, a rollback that does not reach Redis |
| NoLoss.SteadyTestsNoOrphan | services/settlement/processor.py:303-403 | a run in which none of those faults hits a key before its packet id has a row never tests an orphaned claim on it |
| LossRuns.CrashLosesPayment | services/settlement/consumer.py:14-18 | for every settleable packet there is a run with one crash and no other fault, no flush and no time passing, after which the only copy is acknowledged and the payment is gone |
| LossRuns.CrashAfterCommitIsClean | services/settlement/processor.py:377-403 | for every settleable packet there is a clean run in which the worker dies between commit and `mark_settled`, the redelivery is dropped, and the row is there |
| LossRuns.RaisedClaimLosesPayment | services/settlement/dedupe.py:80-87 | the same with one SET NX that is applied but raises and no other fault |
| LossRuns.FailedRollbackLosesPayment | services/settlement/processor.py:340-344 | the same with an insert that fails and a rollback that does not reach Redis |
| LossRuns.LostConnectionLosesPayment | services/settlement/consumer.py:94-112 | the same with a lost connection and a failing insert of the detached worker |
| Loss.GoneExactly | services/settlement/consumer.py:94-112 | no continuation, nothing being published anew, settles the payment or refuses it for its age, exactly when it is undecided, no copy is outstanding and nobody is in play - or, its packet id being taken by another packet's row, only workers past their check are |
| Loss.FreshCopySettles | services/settlement/processor.py:303-420 | an outstanding fresh copy with a free packet id settles in some continuation in which no time passes |
| Settling.SettlesExactly | services/settlement/processor.py:173-420 | some continuation, nothing being published anew, settles the payment if and only if it has a row, or its packet id is free and a worker is past its check and short of the insert, or a copy or unchecked worker is left and the freshness window has not closed |
| Settling.OutsideForGood | services/settlement/processor.py:422-453 | once none of that holds, it never holds again without a new publication |
| Loss.SafeIsHopeful | services/settlement/consumer.py:94-112 | a safe payment whose packet id has no row yet is not gone: some continuation decides it |
| Loss.GoneForGood | services/settlement/consumer.py:94-112 | a gone payment stays gone in every run that does not publish it anew |
| Loss.LossExactly | services/settlement/processor.py:281-356 | the steps that make a payment gone are exactly: acknowledging its last copy with nobody in play, or, with no copy outstanding, the last worker in play losing the claim, meeting a raising call, being refused by the table, or dying |
| Loss.NoLossExactly | services/settlement/consumer.py:94-112 | with nothing published anew, a run ends with the payment gone if and only if it contains such a step |
| CompleteRuns.PublishedStaysSafe | services/settlement/consumer.py:94-112 | from its first publication on a payment stays safe in any run that tests no orphaned claim of it; a claim left behind after the commit is no orphan |
| CompleteRuns.SteadyRunKeepsPayment | services/settlement/consumer.py:94-112 | in a run in which none of the four faults hits a published payment before its packet id has a row it is safe, and once no copy is outstanding its packet id has a row or it was refused for its age |
| CompleteRuns.SteadyRunsAreClean | services/settlement/consumer.py:94-112 | a run without those faults before the row that ends with all copies acknowledged and no payment refused for its age unless settled is clean |
| CompleteRuns.CleanRunsComplete | services/settlement/consumer.py:94-112 | a run with all copies acknowledged, no orphaned claim tested and no payment refused for its age unless settled ends complete: every payment it published is safe, and settled if refused |
| CompleteRuns.CompleteRunSettlesAll | services/settlement/processor.py:358-420 | a complete run ends with exactly one row per payment, nothing else, and the sum of their amounts |
| CompleteRuns.OrderIndependence | services/settlement/processor.py:173-420 | two clean runs over the same payments end with the same rows up to order and hop count and the same total, whatever the order, duplication, interleaving and failures, crashes between commit and marker and late duplicates included |
| CompleteRuns.SettledCountBound | services/settlement/processor.py:93-96 | the settled counts summed over all replicas never exceed the number of rows |
| CompleteRuns.SettledCountExact | services/settlement/processor.py:377-420 | they equal it when nothing fails between commit and return and no worker is in between |
| Claims.ClaimExclusion | services/settlement/dedupe.py:73-113 | in every run that neither flushes nor expires a key's marker under a worker, at most one worker is past the claim on that key, and every release or promotion is by that worker; only a packet rejected behind the claim needs its release not to be applied and raised |
| Claims.ExclusionExactly | services/settlement/dedupe.py:106-113 | with that marker neither flushed nor expired, some run brings two workers past the claim if and only if the packet's AAD matches and its content does not open |
| Claims.HalfReleaseCollides | services/settlement/processor.py:340-356 | for every such packet a run with no flush and no time passing in which a release that took effect but raised lets a second worker in |
| Claims.TakenMarkerCollides | services/settlement/dedupe.py:73-87 | for every packet that reaches the claim, one flush, and likewise one expiry, lets a second worker in |
| Claims.RacingClaims | services/settlement/dedupe.py:8-13 | N racing claims on an absent key, the marker staying once set, are won exactly once |
| Claims.TtlBound | services/settlement/dedupe.py:97-104 | if the settled lifetime exceeds window, skew and check-to-claim delay, no claim on the key is won after `mark_settled`, so no later delivery reaches decryption or the insert |
| Claims.TtlGap | shared/config.py:40-65 | whenever it does not, a run exists in which a second fresh copy wins the claim of a settled packet and only the unique constraint refuses it |
| Claims.DefaultsLeaveTheGap | shared/config.py:40-57 | at the shipped lifetime, window and skew such a run exists even when every claim follows its check at once |
| Claims.OnlyPassedIsRequeued | services/settlement/consumer.py:106-108 | a nack happens only for a message that verified, was fresh and matched its AAD at this delivery's check |
| Claims.RetriesEnd | services/settlement/consumer.py:20-22 | with a clock that advances between redeliveries a message is nacked at most once per tick left in its freshness window |
| Claims.LateDeliveryIsAcked | services/settlement/processor.py:439-451 | a delivery whose check fails, for age or any other reason, ends at the check and is acknowledged |
| Pipeline.ProcessIsCountable | services/settlement/processor.py:167-171 | whatever process() returns is a settlement or carries an error code |
| Pipeline.MetricsConservation | services/settlement/processor.py:79-132 | after any sequence of outcomes settled plus rejected is their number, and the seven rejection counters add up to the per-code dictionary |
| Pipeline.CountersCountOutcomes | services/settlement/processor.py:93-115 | after any sequence of outcomes `settled` is the number of settlements, and each rejection counter, and the dictionary under its code, is the number of rejections with exactly that code |
| Evidence.ProcessEvidence | services/settlement/processor.py:482-531 | a refusal by the checks, or of the content behind a won claim, leaves exactly one piece of evidence with its reason, detail, key and packet id, also when the release then raises; nothing else leaves any |
| Evidence.EvidenceInOrder | services/settlement/db.py:206-223 | along every sequential run the evidence is, in order, the rejections other than duplicates among the outcomes |
| Sequential.CacheTransparency | services/settlement/processor.py:279-420 | for every sequential run with arbitrary flushes and expiries, outcomes, rows and evidence equal those of a processor with no Redis, and no claim outlives its delivery |
| Sequential.NonInterference | services/settlement/processor.py:455-508 | deleting every malformed, badly signed, stale, future-dated, AAD-mismatched or undecryptable delivery leaves the table, the live markers and all other outcomes unchanged |
| Sequential.JunkLeavesNoTrace | services/settlement/processor.py:487-508 | a packet refused before or after the claim leaves rows and live markers as they were |
| Refinement.SameConstraints | services/settlement/db.py:79-88 | the table of the step system and the table of the pipeline refuse the same rows |
| Refinement.ProcessingIsASchedule | services/settlement/consumer.py:94-112 | handling a delivery with any combination of failing calls is a legal schedule of the step system with the same markers, rows and report, ending in an ack or a nack |
| Refinement.ScheduleIsProcessing | services/settlement/consumer.py:94-112 | conversely, every schedule in which one worker takes a copy from delivery to ack or nack, alone and at one moment, is the pipeline under some combination of failing calls |
| Service.DedupeStore.Claim | services/settlement/dedupe.py:73-95 | SET NX, then GET if lost: the result and the new markers, with either call able to raise |
| Service.DedupeStore.MarkSettled | services/settlement/dedupe.py:97-104 | the marker becomes `settled` with the long lifetime, whatever it was |
| Service.DedupeStore.ReleaseClaim | services/settlement/dedupe.py:106-113 | the marker is deleted whoever owns it |
| Service.Postgres.Accepts | services/settlement/db.py:79-90 | accepts a row exactly when its amount is positive, its hop count not negative, and no row has its key or its packet id |
| Service.Postgres.AddSettlement | services/settlement/processor.py:377-382 | commits, raises an integrity error, or raises another error that may have committed; the table changes only by appending an accepted row |
| Service.Postgres.AddRejection | services/settlement/db.py:206-223 | appends the evidence unless the database fails |
| Service.Postgres.SettlementExists | services/settlement/db.py:167-175 | true exactly when a row with the key exists |
| Service.SettlementMetrics.Record | services/settlement/processor.py:93-115 | moves the counters and the dictionary as the counter specification does, of which `CountersCountOutcomes` says what each one counts |
| Service.SettlementMetrics.Rejected | services/settlement/processor.py:117-119 | the sum of the values of the per-code dictionary |
| Service.SettlementProcessor.CheckFreshness | services/settlement/processor.py:422-453 | passes exactly the packets inside the window; refuses the others as `ScreenExactly` says, with the evidence `ProcessEvidence` describes |
| Service.SettlementProcessor.WriteSettlement | services/settlement/processor.py:358-420 | inserts, marks, and reports settled, duplicate or the outcome of the rollback |
| Service.SettlementProcessor.SettleHeld | services/settlement/processor.py:303-356 | everything after a won claim, nested exception handling and evidence included, is the pipeline's |
| Service.SettlementProcessor.Process | services/settlement/processor.py:167-356 | the stores, evidence included, and the outcome are those of the pipeline, which Evidence, Refinement, Safety, NoLoss and Claims reason about, and the outcome is counted unless the call raises |
| Service.SettlementConsumer.HandleMessage | services/settlement/consumer.py:94-112 | nacks with requeue exactly when processing raised or the outcome is retryable, and acks otherwise |
| Service.SettlementConsumer.Serve | services/settlement/consumer.py:94-112 | over the classes, one event of a sequential run does what `Sequential.Handle` says, so that cache transparency and non-interference are about them |
| Base64Url.RoundTrip | shared/crypto.py:78-93 | the lenient decoder, with padding restored by (-len) mod 4, returns the bytes that were encoded |
| Base64Url.EncodedLength | shared/crypto.py:78-89 | the encoded length is ceil(4n/3) and never 1 mod 4 |
| Base64Url.EncodeInjective | shared/crypto.py:78-80 | different bytes have different encodings |
| Base64Exact.EncodingsExactly | shared/crypto.py:78-80 | a text is the encoding of some bytes if and only if it has URL-safe symbols only, a length that is not one more than a multiple of four, and zero in the unused low bits of its last symbol |
| Base64Exact.ReEncodesExactly | shared/crypto.py:83-93 | a text that decodes is encoded back to itself if and only if it has that form |
| Base64Exact.RefusedExactly | shared/crypto.py:83-93 | the decoder refuses exactly what is not ASCII, and what, its padding restored, neither has complete groups nor ends early at a padded group |
| Base64Exact.PlainTextRefusedExactly | shared/crypto.py:83-93 | a text of symbols only is refused if and only if its length is one more than a multiple of four |
| Base64Exact.LenientInputs | shared/crypto.py:83-93 | four texts that decode without being encodings: the standard alphabet, explicit padding, skipped characters and text after the padding, stray low bits |
| Utf8.RoundTrip | shared/crypto.py:104-109 | UTF-8 text is decoded to what was encoded |
| Json.RoundTrip | shared/crypto.py:96-109 | a parser of the grammar inverts the writer for every tree of strings, integers, arrays and objects, escapes included |
| Canonical.SortSorts | shared/crypto.py:104-106 | sorting gives strictly ascending keys, in the order of `Texts.BeforeExactly`, and keeps the members |
| Canonical.CanonicalExactly | shared/crypto.py:96-109 | two mappings have the same canonical bytes if and only if they are equal, insertion order aside |
| Texts.BeforeExactly | shared/crypto.py:96-109 | one key is before another if and only if it is a proper prefix of it or has the smaller code point where they first differ |
| Texts.CharBytesExactly | shared/crypto.py:104-109 | the bytes of a character: length, leading and continuation bytes, and the number they spell |
| Texts.DecodesExactly | shared/crypto.py:104-109 | bytes decode to a text if and only if they are its encoding: no overlong forms, no surrogates |
| Texts.PlainQuote | shared/crypto.py:104-109 | text without control characters, quotes and backslashes stands for itself |
| Texts.EscapesExactly | shared/crypto.py:104-109 | every other character's escape, letter by letter |
| Texts.DigitsExactly | shared/crypto.py:104-109 | numbers are written in decimal, place by place |
| Texts.NumbersExactly | shared/models.py:181-190 | numbers are read only in that form |
| Texts.ArrayText | shared/models.py:259 | arrays: items between brackets, separated by commas |
| Texts.EncodedSymbols | shared/crypto.py:78-80 | every symbol of a base64url text is that of its six bits, most significant first |
| Texts.AlphabetExactly | shared/crypto.py:78-80 | the alphabet of base64url |
| Texts.AadText | shared/crypto.py:261-268 | the additional data of every packet id and sender, as text |
| Texts.PlainAadText | shared/crypto.py:261-268 | the same for identifiers, which need no escapes, letter by letter |
| Texts.SigningText | shared/crypto.py:271-298 | the signed text: seven members in the order of their keys |
| Texts.SignatureAndKeyExactly | shared/crypto.py:301-309 | a packet verifies if and only if its signature is one over exactly that text, and its dedupe key is the prefixed digest of that text |
| Texts.InstructionText | shared/models.py:168-179 | the sealed text of a valid instruction |
| Texts.EnvelopeText | shared/models.py:196-205 | the envelope's text on the wire |
| Texts.HopText | shared/models.py:224-234 | a hop record's text on the wire |
| Texts.PacketText | shared/models.py:246-260 | the message body of every valid packet |
| Texts.IdentifiersExactly | shared/models.py:62 | which texts are identifiers |
| Texts.ValidatorLimits | shared/models.py:144-166 | which instructions are valid, limits included |
| Packets.InstructionRoundTrip | shared/models.py:168-190 | a valid instruction comes back from its canonical bytes unchanged |
| Packets.AadInjective | shared/crypto.py:261-268 | the additional data name exactly one packet id and one sender |
| Packets.SigningBytesExactly | shared/crypto.py:271-298 | two packets have equal signing bytes if and only if all seven signed fields agree |
| Packets.KeyExactly | shared/crypto.py:301-309 | with a collision-free digest two packets share a dedupe key if and only if their signed fields agree |
| Packets.CreatedPacketOpens | shared/models.py:307-357 | a created packet is valid, verifies, matches its own AAD and opens to the given instruction |
| Packets.OpeningExactly | shared/models.py:373-400 | what opening reports, from decryption and plaintext alone: undecryptable if and only if the envelope does not open, a mismatch if and only if it opens to a valid instruction for another packet id, otherwise the plaintext's own flaw or instruction |
| Packets.FlawsExactly | shared/models.py:181-190 | which plaintext is not JSON, and which is not an object |
| Packets.InstructionExactly | shared/models.py:141-166 | which object is which instruction: the six fields and no others, INR when the currency is left out |
| Packets.LookupLast | shared/models.py:184-185 | a repeated key counts as given last |
| Packets.LiftedEnvelopeIsRefused | services/settlement/processor.py:245-277 | a sealed envelope under another packet id or sender fails the AAD comparison or does not open |
| Packets.HopsAreOutside | shared/models.py:359-371 | a hop changes neither signing bytes nor key nor the verdict on the signature |
| Wire.PacketRoundTrip | shared/models.py:246-273 | every valid packet is read back exactly as it was written |
| Wire.PacketExactly | shared/models.py:246-273 | which object is which packet: the fields of the schema and no others, no hops when they are left out, the validators met |
| Wire.EnvelopeExactly | shared/models.py:196-219 | which object is which envelope |
| Wire.HopExactly | shared/models.py:224-240 | which object is which hop record |
| Symbolic.LawsAreConsistent | shared/crypto.py:324-423 | one concrete suite meets all laws assumed of cryptography |
| Mesh.Bridge | services/bridge/app.py:155-212 | the reply and the appended message for every body and every fate of the publish |
| Mesh.BridgeExactly | services/bridge/app.py:155-212 | the bridge's answers code by code, with stage and hop count, and exactly what it enqueues |
| Mesh.Relay | services/mesh_relay/app.py:226-311 | the reply, the messages enqueued and every POST made by the whole chain behind this node are those of the specification; the chain ends on every graph because each hop comes nearer to the largest limit |
| Mesh.RefusalsExactly | services/mesh_relay/app.py:233-262 | at every relay, over any graph and with any losses: 422 if and only if the body does not parse, 400 if and only if it parses and its signature is bad or it is at the limit; what is refused is posted to no node and enqueued nowhere |
| Mesh.PassesOnExactly | services/mesh_relay/app.py:264-311 | what is passed on carries this node's name and time, to the bridge once the target is reached; 202 with that stage and hop count exactly when the link works and the next node accepted |
| Mesh.OnlyVerifiedTravel | services/mesh_relay/app.py:233-252 | every POST of a chain carries a packet that verifies, one hop longer than the one before |
| Mesh.PublishAccounting | services/mesh_relay/app.py:273-311 | with arbitrary lost requests and replies a submission answered 202 was enqueued exactly once, any other at most once |
| Mesh.MeshTransparency | services/bridge/app.py:161-185 | whatever reaches the queue has the signed fields, signature, key and verdict of the submitted packet, a trail that extends it, and is filed under its key |
| Mesh.MeshOutcome | services/mesh_relay/app.py:93-105 | with one target T and limit L and nothing failing, a packet with h hops reaches the bridge if and only if max(T, h+1) <= L, and then with exactly max(T, h+1) hops |
| EndToEnd.KeyFixesRegion | shared/models.py:290-299 | all valid packets with one key stand for the same payment |
| EndToEnd.ValidatorsImplyChecks | shared/models.py:149-166 | an instruction that opens meets the CHECK constraints and is for the packet's own id |
| EndToEnd.BodiesAreAnswered | services/settlement/processor.py:173-335 | every refusal of a delivery without failures, from the body alone: code, detail, ids and evidence, DECRYPTION_FAILED for what verifies, is fresh, matches its AAD and does not open on a free key |
| EndToEnd.EndToEndIntegrity | services/settlement/processor.py:193-375 | every row ever committed came from a body that verified, was inside the window at its check, and carries, sealed under AAD naming exactly the row's packet id and sender, exactly the row's instruction |
| EndToEnd.SettledAsOrdered | shared/models.py:307-357 | if whatever verifies on the queue was signed by the sender in `create`, every row is exactly one of the sender's instructions, settled within the window of its timestamp, and no other row is for it |
| EndToEnd.CreatedBodiesAreUnforged | shared/models.py:359-371 | a queue of created packets, after any hops, meets that hypothesis |
| EndToEnd.SteadyOrderSettles | services/settlement/processor.py:173-420 | in any interleaved run with none of the four faults on a published order before its row: once no copy is outstanding it was refused for its age, or the ledger holds exactly one row for it, with exactly the sender's instruction |
| EndToEnd.CreateThenSettle | shared/models.py:307-357 | creating a packet, after any hops, and processing it in time against a ledger that has not seen it settles exactly the given instruction |
| EndToEnd.SubmittedPaymentSettles | services/mesh_relay/app.py:226-311 | a payment submitted to a calm uniform mesh is enqueued once and that message settles the instruction with max(T, 1) hops |

## Left out

- Cryptographic primitives, key generation and PEM loading: library code, represented by the laws of a `Suite`.
- Text of timestamps: an instant is written as its decimal count of microseconds, not as ISO 8601.
- Text of packet ids: only the canonical lower-case spelling of a UUID is read.
- JSON beyond strings, integers, arrays and objects without white space, and surrogate escapes: such texts read as malformed, although the Python parser accepts more; the validators' coercions (numeric strings, whole floats) likewise.
- Outcome and rejection texts: represented by their meaning; `_summarize_validation_error` is not modelled.
- Surrogate ids, `settled_at` and `rejected_at`: an id is the row's position, without the gaps a sequence leaves.
- Column lengths and integer widths: the validators keep every value far inside them.
- The evidence table in the step system: it appears in the pipeline and the service only.
- One clock per sequential delivery: time passes between steps only in the step system.
- Per-replica counters: the step system's log is the sequence of reports of all replicas together.
- RabbitMQ connections, prefetch, queue depth, FastAPI wiring, logging, redaction, `on_outcome`, health checks: input and output plumbing. Rate limiting appears as a link that refuses.
- The sender service, the read API, the UI, migrations, Docker and Kubernetes files: no hard property.
- URL joining in `next_destination`: a destination is a relay or bridge looked up by its configured URL.
