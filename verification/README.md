# Verified model of EXORYN's enforcement plane

EXORYN stands between trading agents and a venue. This project models the protocols by which it
decides, sends and remembers, and proves what they promise over every run: any number of
replicas, with crashes, timeouts, lost replies, retries and retention interleaved at will.

| part | files |
|---|---|
| at-most-once execution: attempts, stores, cache, retention, venue | `Idempotency`, `Attempts`, `ExecutionRuns`, `ExecutionOutcomes`, `VenueAnswers`, `SubmissionAnswers`, `ExecutionStores`, `MemoryStores`, `FakeBroker`, `ExecutionService`, `Broker` |
| the capacity ledger, in the database and in process | `Ledger`, `LedgerSafety`, `LedgerAnswers`, `LedgerMemory`, `LedgerStore`, `Int64` |
| the gateway pipeline over both machines | `Pipeline`, `PipelineSafety`, `PipelineExposure`, `PipelineReturns`, `PipelineRows`, `PipelineGap`, `Gateway` |
| evidence: outbox, bus, projection | `Outbox`, `Delivery`, `DeliverySafety`, `DeliveryOutcome`, `OutboxAnswers`, `OutboxStore`, `OutboxWorkers` |
| canonical JSON | `Json`, `JsonReader`, `KeyOrder`, `CanonicalJson`, `JsonGrammar`, `CanonicalWriter` |
| the evidence chain and its archives | `Utf8`, `Chain`, `EvidenceChain`, `EvidenceArchive`, `WireForms`, `EvidenceExport`, `EvidenceDepth` |
| policy activation and key authority | `Activation`, `KeyAuthority` |
| throttles | `Throttle` |
| exact money | `Decimal`, `Money`, `Notional` |
| policy compilation and evaluation | `PolicyRules`, `PolicyCompile`, `PolicyReach`, `StringOrder` |
| parent-intent clustering | `Sorting`, `Clustering`, `Reconstruction`, `ParentIntents`, `Fragmentation` |

Every protocol has two forms. A step relation on values, in which each database transaction is
one atomic step and a run is any sequence of labels, carries the theorems. Classes and methods
with the source's own fields and loops are proved to take exactly those steps. `dafny verify
dfyconfig.toml` checks the whole project.

## How to read the model

- A transaction is atomic and the named unique indexes hold. A method's `up` (or a `down`
  field) is whether the database answers; a `lost` reply is a commit reported as failed. The
  environment's other choices (the venue's answers, the fate of a message, which rows are
  locked) are parameters.
- Instants are integers of nanoseconds; int64 wrap-around, truncation and negation are written
  out where they occur (`Int64`, `Money`, `Ledger`).
- Text is a sequence of Unicode scalar values; that comparing it compares its UTF-8 bytes is proved
  (`OrderIsByteOrder`). Where bytes are counted or hashed it is encoded by `Utf8`.
- The hash is any function to 32 bytes. Nothing is assumed of it: where a fixed-length hash
  cannot be injective, a colliding pair is produced instead.

## Where the code and its documentation part

- `resolve` caches a record without an envelope id, so the check that a cached key belongs to
  the same envelope passes for any envelope (`ForeignAnsweredExactly`, `ForeignAnswerReachable`).
- `MemoryStore.Resolve` overwrites a resolved record where the database refuses
  (`MemoryResolveAgreesExactly`).
- `Release` is documented for a definite non-submission; the pipeline also calls it for a retry of
  an order that may be live, when the retry's receipt cannot be filed and when its key was retired
  (`ReturnKeepsCountExactly`, `UnsafeReturnReachable`, `RetiredReturnReachable`).
- The additions in `checkLimits` wrap: two amounts the parser admits can sum past int64, and the
  second is reserved beyond the ceiling (`AllowedKeepsExactly`, `OverflowAdmits`).
- `MemoryStore.Claim` does not index an absent envelope id, which the database's unique index
  treats as a value (`MemoryClaimAgreesExactly`).
- `evidence_outbox` is unique by event id alone, `evidence_events` by id and instant, so a
  second event under an id that still has a row is recorded and queues nothing (`OwnRowExactly`).
- `writeString` says it escapes exactly what JSON requires; the standard encoder also escapes
  `<`, `>`, `&` and the two line separators (`EscapeForms`).
- `Verify` says it reports where an archive stopped matching; an edited event is never located.
- An archive line nests its payload one level deeper than the hash does, so a payload at the
  decoder's bound exports and can never be restored (`RestoreUntouched`, `ExportAndRestore`).
- The predecessor check is said to keep an overtaken authorization from being used; it holds only
  until the tenant returns to the bundle the authorization names (`OvertakenReturns`).
- `boundsProblems` is said to catch thresholds that can never fire; it compares three pairs of them
  and passes others that fire on no order of known size (`FiresOnKnownExactly`,
  `UnreportedNeverFire`).
- The prune keeps two windows so that a clock stepping back does not lose a slot still counted; that
  covers one window and a tick, and beyond it the rate is exceeded (`RateFailsExactly`).
- `GrossNotional` wraps, so the largest split intentions can go unreported (`ReportsRightExactly`,
  `LargestPairUnreported`).

## Model

| member | source | states |
|---|---|---|
| ExecutionRuns.AtMostOnce | internal/execution/service.go:57-169 | In every run of any number of attempts, with crashes, timeouts, lost replies, cache loss and pruning at any point, the venue's SubmitOrder is called at most once per tenant and key and at most once per tenant and envelope |
| ExecutionRuns.SafeSendsAlways | internal/execution/pgstore.go:70-172 | The inductive invariant behind it: every send was let through under its own recorded or retired identity, and at most one attempt holds a claim it has not yet used |
| ExecutionOutcomes.SoundAlways | internal/execution/service.go:105-232 | In every run every cached, stored, retired or answered outcome is the one first recorded for its key |
| ExecutionOutcomes.WriteOnce | internal/execution/pgstore.go:179-205 | Once a key has an outcome no continuation of the run changes it: it stays stored, or is retired with its final state |
| ExecutionOutcomes.OneAnswer | internal/execution/service.go:105-232 | Any two error-free answers for one key are one outcome up to the replayed and reconciled flags, equal to the stored one while it is stored, and at most one attempt answers it as its own |
| ExecutionOutcomes.AnswersAfterPrune | internal/execution/retention.go:57-118 | An answer given after the key was pruned can only be the outcome recorded before |
| VenueAnswers.RecordedIsWhatTheVenueSaid | internal/execution/service.go:123-266 | In every run each recorded outcome is one the venue gave for that key under the client order id it was claimed with: the state, identifier, filled quantity and reason of an order it reported, or its definite refusal of the send in its own words |
| VenueAnswers.AnsweredIsWhatTheVenueSaid | internal/execution/service.go:123-266 | So is every error-free answer; one given as the attempt's own is marked reconciled exactly when it was learned by asking |
| VenueAnswers.SendsAreHeard | internal/execution/service.go:123-125 | The history holds one answer for each call that sent, in order, and so at most one for a key |
| ExecutionOutcomes.ForeignRefusedByStore | internal/execution/pgstore.go:70-124 | The store never answers another envelope's request for a spent key and never lets it reach the venue |
| ExecutionOutcomes.ForeignAnsweredExactly | internal/execution/service.go:68-73 | Another envelope's request is answered with the first one's outcome if and only if the cache answers with an entry that names no envelope |
| ExecutionOutcomes.ForeignAnswerReachable | internal/execution/service.go:206-219 | Such an entry is what every first resolution caches: a concrete run in which a second envelope is told the first one's order succeeded |
| Idempotency.ClaimIsFresh | internal/execution/pgstore.go:70-172 | A claim succeeds only when neither the key nor the envelope id is known to the tenant, live or retired |
| Idempotency.ClaimInserts | internal/execution/pgstore.go:70-124 | A successful claim inserts exactly one PENDING record; any other result changes nothing |
| Idempotency.ClaimKeeps | internal/execution/pgstore.go:70-124 | A claim keeps identities unique and forgets none |
| Idempotency.ResolveKeeps | internal/execution/pgstore.go:179-205 | Resolving spends and forgets no identity |
| Idempotency.PruneMoves | internal/execution/retention.go:57-118 | A prune moves exactly the chosen records into tombstones, each with its identities and final state |
| Idempotency.PruneKeeps | internal/execution/retention.go:57-118 | A prune forgets no identity and touches neither pending records nor another tenant's |
| Idempotency.RetiredIsRefused | internal/execution/pgstore.go:133-172 | A retired key is refused under any envelope, a retired envelope under any unspent key |
| ExecutionStores.PostgresStore.Claim | internal/execution/pgstore.go:70-124 | The claim transaction is the claim step; a refused transaction changes nothing |
| ExecutionStores.PostgresStore.RetiredIn | internal/execution/pgstore.go:133-172 | The loop over tombstone rows finds whether the key itself is retired, which outranks its envelope |
| ExecutionStores.PostgresStore.Resolve | internal/execution/pgstore.go:179-205 | The update is the resolve step, refused when there is no pending record |
| ExecutionStores.PostgresStore.ChooseBatch | internal/execution/retention.go:57-118 | A bounded batch of prunable records, oldest first, short only when nothing prunable is left |
| ExecutionStores.PostgresStore.Prune | internal/execution/retention.go:57-118 | One transaction moves such a batch from records to tombstones and counts it |
| ExecutionStores.Sweeper.Sweep | internal/execution/retention.go:179-206 | A sweep leaves nothing prunable of its tenants, retires what it deletes, counts it, and touches nothing else |
| MemoryStores.MemoryClaimAgreesExactly | internal/execution/memstore.go:45-78 | The in-process store claims exactly when the database does, if and only if the claim is not one the database alone refuses: no tenant, a client order id in use, or an absent envelope id already used; an existing record it reports is the database's |
| MemoryStores.InsertMirrors | internal/execution/memstore.go:45-78 | After a claim the database lets through, the maps mirror its unique indexes again, an absent envelope id indexed nowhere |
| MemoryStores.MemoryStore.Claim | internal/execution/memstore.go:45-78 | The in-process claim is one step of its specification, for any record and whatever the maps hold |
| MemoryStores.MemoryResolveAgreesExactly | internal/execution/memstore.go:80-98 | In-process resolution agrees with the database if and only if the record is not already resolved |
| ExecutionService.Service.Submit | internal/execution/service.go:57-102 | Submit is one uninterrupted run of the attempt machine against the venue, with no failure it did not meet, so every theorem over interleavings holds of it; an answer that is not a replay is the order the venue holds, field by field, and agrees with what is recorded |
| ExecutionService.Service.SubmitOnce | internal/execution/service.go:123-169 | One call of the venue, then what its answer leads to: the whole of it, answer and state, is the attempt played from the send to its end |
| ExecutionService.Service.ReconcileAndResolve | internal/execution/service.go:175-204 | One question to the venue and no call that sends; an unusable answer leaves the record pending |
| SubmissionAnswers.FreshSubmissionExactly | internal/execution/service.go:57-169 | With the database up, a key and envelope never seen send one order, and the call succeeds if and only if the venue then holds the order and its answers get through; the answer is that order and is recorded, and otherwise the record stays pending |
| SubmissionAnswers.PendingRetryExactly | internal/execution/service.go:105-121 | A retry of a pending key under its own envelope sends nothing and succeeds if and only if the venue holds the order and says so |
| SubmissionAnswers.PlayedHolds | internal/execution/service.go:57-232 | From any point of an attempt, an error-free answer that is not a replay is the order the venue holds |
| ExecutionService.DriveSound | internal/execution/service.go:57-232 | Driving an attempt from a sound state keeps it sound and forgets nothing |
| ExecutionService.CounterAtMostOneExactly | internal/gateway/pipeline.go:701-724 | The client order id carries no tenant: the venue's counter stays at one per client order id if and only if no two tenants send the same key |
| FakeBroker.SubmitKeepsOrderly | adapters/fakebroker/fakebroker.go:129-194 | Every order is filed under its own client order id with a broker id never issued before, whatever fault is injected |
| FakeBroker.CancelKeepsOrderly | adapters/fakebroker/fakebroker.go:251-273 | Cancelling keeps that, counts no submission, and leaves finished orders alone |
| FakeBroker.SubmitNeverDuplicates | adapters/fakebroker/fakebroker.go:129-194 | A second submission of a client order id opens no second order and is counted |
| FakeBroker.FirstSubmission | adapters/fakebroker/fakebroker.go:129-194 | What a first submission leaves and answers under each injected fault: whether an order is opened, in which state, filled how far, and whether the answer is lost |
| FakeBroker.Venue.SubmitOrder | adapters/fakebroker/fakebroker.go:129-194 | The method is the submission step of the specification |
| FakeBroker.Venue.CancelOrder | adapters/fakebroker/fakebroker.go:251-273 | The method is the cancellation step of the specification |
| LedgerSafety.CeilingsHold | internal/authority/usage.go:268-400 | In every run in which each reservation's exact sums fit int64, for any grant with fixed limits and any clocks, the non-released notional of every hour window, of every UTC day, and the number of open rows stay within the grant's ceilings |
| LedgerSafety.FittingRunsHold | internal/authority/usage.go:268-400 | The same from the operations alone: it is enough that each order, or its grant's per-order ceiling, is at most 4611686018427385808 units, which every sum the ledger can read leaves room for |
| LedgerSafety.ReserveHeld | internal/authority/reservation.go:112-139 | One reservation whose sums fit keeps all three ceilings of its grant, at every instant and not only its own, and every ceiling of every other grant |
| LedgerAnswers.RetryAllowedExactly | internal/authority/usage.go:268-400 | A key that holds a row is allowed if and only if grant, envelope, principal, account and amount are each the row's and the amount can be read back, and is otherwise refused as reused |
| LedgerAnswers.RetryAllowedInProcess | internal/authority/usage.go:105-136 | In process the same without the reading back |
| LedgerAnswers.AllowedForOne | internal/authority/usage.go:268-400 | In every run two allowed reservations of one tenant and key with no release between them carry the same five fields |
| LedgerAnswers.NewAllowedExactly | internal/authority/reservation.go:112-139 | A new key whose sums fit is allowed if and only if the usage can be read, the amount is not negative, and the order leaves every configured ceiling standing; allowing it inserts one open reserved row with its five fields |
| LedgerSafety.AllowedKeepsExactly | internal/authority/reservation.go:112-139 | An allowed reservation keeps the windows it is compared on within their ceilings if and only if its exact sums fit int64 |
| Ledger.CompareExactly | internal/authority/reservation.go:112-139 | One int64 comparison decides as exact arithmetic if and only if the exact sum fits int64 |
| LedgerSafety.OverflowAdmits | internal/authority/reservation.go:112-139 | A run of two reservations of the largest amount the parser returns, under a grant with a rolling ceiling and no per-order one: both are allowed and the hour holds twice the ceiling |
| LedgerMemory.SumsAreExact | internal/authority/usage.go:105-199 | Along every run whose reservation times never decrease, for grants with a per-order ceiling and room above each window ceiling, the wrapping sums decide exactly as the mathematical ones |
| LedgerMemory.MemoryUsage.Reserve | internal/authority/usage.go:105-136 | The in-process reservation is its specification, whatever order the map is visited in |
| LedgerMemory.MemoryUsage.Usage | internal/authority/usage.go:172-199 | One pass over the map sums the hour, the day and the open rows |
| LedgerMemory.MemoryUsage.Release | internal/authority/usage.go:139-150 | Release deletes a reserved row and nothing else |
| LedgerMemory.MemoryUsage.Settle | internal/authority/usage.go:153-170 | Settle writes state and openness of one row; in process a row left open keeps its closing time |
| LedgerStore.PostgresUsage.Consumption | internal/authority/usage.go:341-372 | The snapshot query adds exact sums over the counting rows |
| LedgerStore.PostgresUsage.Reserve | internal/authority/usage.go:268-400 | The database reservation is the reservation step: a retry answered from its row, unreadable usage denied, one row inserted when allowed |
| LedgerStore.PostgresUsage.Release | internal/authority/usage.go:408-418 | The database release is the release step |
| LedgerStore.PostgresUsage.Settle | internal/authority/usage.go:421-437 | The database settlement is the settle step |
| PipelineSafety.PipelineKeepsCeilings | internal/gateway/pipeline.go:486-632 | For every grant whose orders fit, the ceilings hold in every run of any number of pipelines with crashes and failures at any stage, whatever happens under other grants |
| PipelineSafety.SettlesOnce | internal/gateway/pipeline.go:775-810 | No key is settled twice, and no settlement revives a released row or reopens a closed one |
| PipelineRows.RowsFollowOutcomes | internal/gateway/pipeline.go:775-810 | In every run a settled row is RELEASED if and only if the recorded outcome of its key is REJECTED, and open if and only if the recorded state is none of FILLED, REJECTED, CANCELLED and EXPIRED; an unsettled one is open |
| PipelineRows.SettlementWrites | internal/gateway/pipeline.go:775-810 | One settlement writes exactly that to its own row, closing it at its own instant, and to no other |
| PipelineRows.WorkingHeldBounded | internal/gateway/pipeline.go:775-810 | In every run the held orders whose recorded outcome can still change number at most the grant's ceiling of open orders |
| PipelineRows.WorkingBounded | internal/gateway/pipeline.go:486-632 | With guarded releases so do all orders of known size sent under the grant that can still change |
| PipelineRows.ExecutionEndsExactly | internal/gateway/pipeline.go:546-632 | An execution returns its reservation if and only if an answer that arrived found the key or the envelope spent elsewhere, settles it if and only if its own outcome was recorded, and otherwise keeps it |
| PipelineSafety.SafeAlways | internal/gateway/pipeline.go:486-632 | The inductive invariant over the ledger and the execution machine together: a row is released only by the venue's recorded rejection |
| PipelineReturns.EveryFirstAttemptCounted | internal/gateway/pipeline.go:486-632 | In every run that begins each identity at most once, whatever crashes, lost replies, refused receipts, lost settlements and pruning it holds, every order ever sent has a non-released row for exactly its capacity, or is recorded or retired as rejected |
| PipelineReturns.EveryLiveOrderCounted | internal/gateway/pipeline.go:486-632 | With retries, the same in every run in which each release is by the only pipeline ever begun for its identity or passes the lookup below |
| PipelineReturns.ReturnKeepsCountExactly | internal/authority/reservation.go:83-92 | A release by the only pipeline of its identity in flight keeps every live order counted if and only if there is no reserved row, or the identity is neither recorded nor retired, or it is recorded as rejected, or no order of known size was sent under it |
| PipelineReturns.CheckedReturnCounts | internal/gateway/pipeline.go:732-745 | So a caller that finds its identity neither recorded nor retired, or rejected, and no other pipeline of it in flight, may release |
| PipelineReturns.UncheckedReturnLoses | internal/gateway/pipeline.go:531-544 | And whatever else is in flight, releasing the reserved row of an identity that was sent and is not recorded as rejected leaves a live order uncounted |
| PipelineReturns.LiveExposureBounded | internal/gateway/pipeline.go:486-632 | So in such runs what may be live at the venue under a grant whose orders fit, by the reservations of any hour, is within its rolling ceiling |
| PipelineGap.UnsafeReturnReachable | internal/gateway/pipeline.go:540-544 | A concrete run in which a retry that cannot file its receipt releases the row of an order already sent, leaving it uncounted |
| PipelineGap.RetiredReturnReachable | internal/gateway/pipeline.go:567-573 | A concrete run in which an order is accepted, its settlement lost and its record pruned, and a retry refused for the retired key releases its row, leaving the order uncounted |
| Gateway.ExecutesDrive | internal/gateway/pipeline.go:546-546 | Executing a pipeline step by step is driving its attempt |
| Gateway.Gateway.Submit | internal/gateway/pipeline.go:486-632 | The stage-by-stage submission is an uninterrupted run of one pipeline beside any number of others, by its own labels only, each as it was dealt: no stage is skipped and no failure invented |
| Gateway.Gateway.Act | internal/gateway/pipeline.go:531-632 | Receipt, execution and what follows, including the release when the receipt cannot be filed |
| Gateway.Gateway.Conclude | internal/gateway/pipeline.go:567-621 | Refusals before the venue release, a fresh outcome settles, an unknown outcome and a replay leave the row: exactly that one step of the pipeline, or none |
| DeliveryOutcome.NoEventLost | internal/evidence/outbox.go:64-204 | In every run every committed event's id is on the bus or owed by an unpublished row; a published row's id is on the bus; nothing is on the bus or projected that was not committed |
| DeliveryOutcome.QuiescentProjectionIsTheRecord | internal/fleet/evidence_projection.go:46-69 | When nothing waits, every committed id is projected, and if ids name events the deduplicated projection is exactly the committed events |
| DeliveryOutcome.NothingIsStranded | internal/evidence/outbox.go:53-84 | From every reachable state, whatever crashed, some continuation that records nothing delivers everything |
| DeliveryOutcome.OwnRowExactly | internal/evidence/store.go:66-98 | A newly recorded event gets a row of its own if and only if no row holds its id: the outbox is unique by id alone, the record by id and instant |
| OutboxAnswers.BatchRecordedMeans | internal/evidence/store.go:149-207 | A batch is recorded if and only if its events are acceptable and of one tenant; then each key holds the first event that brought it, each id has a row, a new one exactly for the first event of an id that had none, and nothing else has changed |
| OutboxAnswers.RecordedMeans | internal/evidence/store.go:54-101 | The same for one event, recorded if and only if its key is new |
| OutboxAnswers.InTxRecordedMeans | internal/evidence/store.go:410-440 | And in a caller's transaction, where it is recorded whether or not its key is new |
| OutboxAnswers.ConsumedRecordedMeans | internal/evidence/store.go:107-138 | And for an event that came from the bus, with the outbox untouched |
| OutboxAnswers.ToldIsDelivered | internal/evidence/store.go:54-207 | Whoever was told an event is recorded may rely on it: in every continuation its key holds an event, itself if it brought the key, and its id is on the bus or owed to it |
| DeliverySafety.SafeAlways | internal/evidence/outbox.go:64-315 | The inductive invariant: rows hold committed events, marks follow acknowledgements, acknowledgements follow inserts |
| DeliverySafety.SafeRecordBatch | internal/evidence/store.go:149-207 | Events and rows written in one commit keep it, including repeats inside a batch |
| DeliverySafety.SafeMark | internal/evidence/outbox.go:139-147 | A row is marked only after its own acknowledgement |
| DeliverySafety.SafePrune | internal/evidence/outbox.go:180-204 | A prune removes no unpublished row |
| DeliverySafety.SafeProject | internal/evidence/stream.go:216-271 | A batch insert that fails or stores a part acknowledges nothing |
| Outbox.BatchFaultless | internal/evidence/store.go:149-177 | A batch is recorded only when every event is valid and of one tenant |
| OutboxStore.EvidenceStore.Append | internal/evidence/store.go:54-101 | Recording one event and its row, or neither; a repeated event queues nothing |
| OutboxStore.EvidenceStore.AppendBatch | internal/evidence/store.go:149-207 | Checks all, then inserts all and enqueues all, or does nothing |
| OutboxStore.EvidenceStore.AppendInTx | internal/evidence/store.go:410-440 | Inside the caller's transaction the row is queued whether or not the event was new |
| OutboxStore.EvidenceStore.AppendConsumed | internal/evidence/store.go:107-138 | The same record without a row |
| OutboxStore.EvidenceStore.ChooseFree | internal/evidence/outbox.go:64-84 | Claimable unlocked rows, oldest first, short of the bound only when none is left |
| OutboxStore.EvidenceStore.Claim | internal/evidence/outbox.go:64-84 | Leases exactly those rows |
| OutboxStore.EvidenceStore.MarkPublishedBatch | internal/evidence/outbox.go:139-147 | Marks exactly the named rows |
| OutboxStore.EvidenceStore.PrunePublished | internal/evidence/outbox.go:180-204 | Deletes only delivered rows of one tenant before the cutoff, at most a batch, and all of them when fewer |
| OutboxWorkers.Stream.PublishBatch | internal/evidence/stream.go:86-130 | An event counts as published exactly when it is valid, accepted and acknowledged; an acknowledged one is on the bus |
| OutboxWorkers.OutboxPublisher.Drain | internal/evidence/outbox.go:390-453 | Each taken row is marked if its own message was acknowledged, or counted one failure; no other row changes; the count is the rows marked |
| OutboxWorkers.DrainKeepsCarried | internal/evidence/outbox.go:390-453 | Wherever a drain is cut short, every id the outbox carried is still carried |
| OutboxWorkers.OutboxSweeper.Sweep | internal/evidence/outbox.go:244-277 | A sweep prunes only delivered rows of its tenants, counts them, and leaves none when the database answers |
| OutboxWorkers.Consumer.FetchBatch | internal/evidence/stream.go:216-271 | Nothing is acknowledged before it is projected, and nothing at all when the insert fails, but for unparseable messages |
| CanonicalJson.DecodeUndoesText | internal/canonicaljson/canonicaljson.go:78-150 | Decoding canonical text gives the value back if and only if it nests within the decoder's bound |
| CanonicalJson.ValueReads | internal/canonicaljson/canonicaljson.go:90-150 | The reader undoes the writer on every value, before any following delimiter, exactly within its nesting bound |
| CanonicalJson.TextPrefixFree | internal/canonicaljson/canonicaljson.go:90-150 | A value's text says where it ends |
| CanonicalJson.TextInjective | internal/canonicaljson/canonicaljson.go:90-150 | Two values with one canonical text are one value, however deep |
| CanonicalJson.CanonicalIdempotent | internal/canonicaljson/canonicaljson.go:43-53 | Canonicalizing canonical text returns it |
| CanonicalJson.CanonicalDecides | internal/canonicaljson/canonicaljson.go:43-53 | Two documents have one canonical form if and only if they decode to one value |
| CanonicalJson.ParsedValue | internal/canonicaljson/canonicaljson.go:78-88 | Whatever decodes has JSON number literals and bounded nesting |
| CanonicalJson.StringReads | internal/canonicaljson/canonicaljson.go:154-164 | Reading an escaped string gives the string back |
| CanonicalJson.NumberReads | internal/canonicaljson/canonicaljson.go:128-130 | A number literal is read back verbatim |
| JsonGrammar.NumberGrammar | internal/canonicaljson/canonicaljson.go:78-88 | The literals accepted as numbers are exactly those of section 6 of RFC 8259 |
| JsonGrammar.EscapeForms | internal/canonicaljson/canonicaljson.go:152-164 | How every character is written: seven by a letter, the other controls and five more by four lower-case hexadecimal digits, the rest as they are |
| Json.LeastExists | internal/canonicaljson/canonicaljson.go:93-97 | The keys of any object have a least one, so sorting them is well defined |
| CanonicalWriter.SortKeys | internal/canonicaljson/canonicaljson.go:93-97 | Each key once, in strictly ascending order of its UTF-8 bytes, whatever order they come in |
| KeyOrder.OrderIsByteOrder | internal/canonicaljson/canonicaljson.go:97-97 | The key order is the order of the UTF-8 bytes: a prefix first, or the smaller byte at the first index that differs |
| KeyOrder.KeysAscend | internal/canonicaljson/canonicaljson.go:93-97 | So the keys of every object are in strictly ascending byte order, each once |
| CanonicalWriter.Write | internal/canonicaljson/canonicaljson.go:90-150 | The recursive writer appends exactly the canonical text, in whatever order the map yields its keys |
| CanonicalWriter.Canonicalize | internal/canonicaljson/canonicaljson.go:43-53 | The result decodes to the same value and is its own canonical form |
| EvidenceChain.ContentBytesInjective | internal/retention/retention.go:150-177 | The length-prefixed encoding of the thirteen fields is injective on events |
| WireForms.ContentLaidOut | internal/retention/retention.go:150-177 | The hashed bytes of any event: thirteen named fields in order, each behind its length in bytes and a colon, the payload last as canonical text |
| EvidenceChain.PrefixedSplits | internal/retention/retention.go:159-175 | A length prefix says where its field ends, whatever the field holds |
| EvidenceChain.PayloadTextIs | internal/retention/retention.go:188-200 | The payload is hashed as its canonical text, or refused when it nests too deep |
| EvidenceChain.TamperEvident | internal/retention/retention.go:210-231 | Two lists of events with one chain head are the same list, or a pair of different byte strings with one hash is produced |
| WireForms.HeadsLaidOut | internal/retention/retention.go:210-231 | A chain begins with the empty head and each head is the lower-case hexadecimal hash of the previous head and the event's own hash, each behind its length |
| EvidenceChain.LinkExplained | internal/retention/retention.go:210-218 | Two equal links join the same head and content, or exhibit such a pair |
| Chain.SameHead | internal/retention/retention.go:221-231 | Any chain is as tamper-evident as its step |
| EvidenceExport.HashContent | internal/retention/retention.go:150-177 | The field loop computes the content hash, or reports a payload that cannot be canonicalized |
| EvidenceExport.ChainAll | internal/retention/retention.go:221-231 | The loop folds the chain, or stops at the first event that cannot be hashed |
| EvidenceExport.Verify | internal/retention/retention.go:238-253 | It accepts if and only if the recomputed head is the expected one; the only positions it can name are an unhashable event and the end |
| EvidenceArchive.ArchiveReads | internal/retention/export.go:230-252 | An untouched archive decodes to the exported events if and only if no payload nests as deep as the decoder's bound less one |
| EvidenceArchive.DecodeShape | internal/retention/export.go:241-252 | Decoding an event's object gives the event back, omitted fields included |
| EvidenceExport.WriteArchive | internal/retention/export.go:230-239 | One line per event, in order |
| WireForms.LineLaidOut | internal/retention/export.go:230-239 | The archived line of any event: which members, under which names, in which order, and which three are left out when empty |
| EvidenceExport.ReadArchive | internal/retention/export.go:241-252 | The decoding loop, which also stops in silence at a closing bracket |
| EvidenceExport.Exporter.Export | internal/retention/export.go:108-153 | No manifest without an uploaded archive of those events and their chain head; failures change nothing they should not |
| EvidenceExport.Exporter.Restore | internal/retention/export.go:161-192 | Events are returned only when the text decodes, the count matches and the chain matches |
| EvidenceExport.RestoreUntouched | internal/retention/export.go:161-192 | Restoring an untouched archive returns the exported events if and only if every payload nests below the decoder's bound |
| EvidenceDepth.ExportAndRestore | internal/retention/export.go:108-192 | An event nested to any depth, exported and restored: refused beyond the bound, restored below it, and at the bound itself exported with a manifest and refused as tampered |
| EvidenceExport.RestoreAcceptsOnlyTheExported | internal/retention/export.go:161-192 | Whatever the store holds, Restore returns the exported events or nothing, unless a hash collision is in hand |
| Activation.HistoryIsOneChain | internal/policy/activation_store.go:471-564 | For any interleaving a tenant's history is one chain: order rising by one, each transition replacing the bundle before it, no nonce twice, the current row last |
| Activation.AcceptedExactly | internal/policy/activation_store.go:571-599 | Accept succeeds if and only if the authorization names what is in force, its nonce is new and its evidence valid; a refusal changes nothing |
| Activation.NoBranch | internal/policy/activation_store.go:453-470 | Two authorizations from one predecessor are not both accepted |
| Activation.InForceIsLast | internal/policy/activation_store.go:403-425 | What is read as in force is the last transition accepted |
| Activation.OvertakenReturns | internal/policy/activation_store.go:82-90 | The check compares bundles, not transitions: an overtaken authorization is acceptable again once the tenant returns to the bundle it names |
| Activation.CanReturn | internal/policy/activation_store.go:571-599 | And a tenant can always go and return |
| Activation.ActivationStore.Accept | internal/policy/activation_store.go:471-564 | The method is the step, on its own tenant only |
| KeyAuthority.KeyAuthorityWellFounded | internal/policy/activation_store.go:186-299 | Every key reaches a provisioned key or the one bootstrap through a finite chain that only goes back, each signer usable when it signed |
| KeyAuthority.OneBootstrap | internal/policy/activation_store.go:211-254 | At most one grant has no signer and at most one is a bootstrap |
| KeyAuthority.RunPersists | internal/policy/activation_store.go:124-150 | In every continuation a key id keeps its public key, a revoked key stays revoked and grants stand |
| KeyAuthority.RevokedSignsNothing | internal/policy/activation_store.go:328-362 | Once a key is revoked no later key in any continuation is signed for by it, whatever clocks accept it, and what it signed before stands |
| KeyAuthority.RevokeExactly | internal/policy/activation_store.go:328-362 | Revocation succeeds if and only if the key is active and two keys are usable, and leaves one usable |
| KeyAuthority.KeyStore.RegisterKeyAuthorized | internal/policy/activation_store.go:186-299 | The method is the step, a taken key id taking its grant back with it |
| KeyAuthority.KeyStore.Revoke | internal/policy/activation_store.go:328-362 | The method is the step |
| Throttle.RateHolds | internal/control/store.go:228-296 | While grants are made on tolerable clocks no window of the throttle's length holds more of them than the rate, wherever it lies |
| Throttle.SkewToleranceExactly | internal/control/store.go:268-290 | The pruned table counts as the full log after every history if and only if the clock is at most one window and one tick behind the latest grant's |
| Throttle.RateFailsExactly | internal/control/store.go:228-296 | After some history on tolerable clocks one more call can put more grants than the rate into a window if and only if the rate is at least two and its clock is more than a window and a tick behind the latest grant's |
| Throttle.OneSlotHolds | internal/control/store.go:228-296 | A rate of one holds whatever the clocks |
| Throttle.UsedIsHeld | internal/control/store.go:249-293 | The count a caller is given is the number of slots the full log holds in its window, its own included |
| Throttle.CountsAlways | internal/control/store.go:228-296 | The invariant: above the prune horizon the table and the full log count the same |
| Throttle.ReplayTakesNothing | internal/control/store.go:240-266 | A replay keeps its slot and takes no other; a refusal takes none |
| Throttle.UsageStore.Consume | internal/control/store.go:228-296 | The transaction is the step, on its own control only |
| Throttle.UsageStore.Forget | internal/control/store.go:300-306 | Forgetting empties one control's usage |
| Money.ReadExactly | internal/money/quantity.go:164-227 | On any text the reader accepts exactly the decimal grammar with no digit but zero beyond the scale and a bounded whole part, and returns exactly the number denoted, within int64 |
| Money.ParseFixed | internal/money/quantity.go:164-227 | The reader's loops and int64 operations never overflow on any text and compute that answer |
| Money.AmountRoundTrip | internal/money/money.go:49-101 | Parse(String(a)) = a if and only if |a| <= 4611686018427389999 |
| Money.QuantityRoundTrip | internal/money/quantity.go:68-85 | ParseQuantity(String(q)) = q if and only if |q| <= 4611686018499999999, trailing zeros trimmed |
| Money.AmountPrinted | internal/money/money.go:86-101 | An amount is printed with exactly four decimals, no leading zero and a sign only when negative |
| Money.QuantityPrinted | internal/money/quantity.go:68-85 | A quantity is printed with at most eight decimals, the last not zero, and no point when there are none |
| Money.ReadSpelled | internal/money/quantity.go:164-227 | A text has one spelling, and it decides the answer |
| Notional.NotionalIsCeilingExactly | internal/money/quantity.go:130-157 | For inputs of either sign the notional is the least magnitude covering price times quantity, with its sign, if and only if that fits int64, and otherwise zero |
| Notional.NotionalMonotone | internal/money/quantity.go:130-157 | A larger order is never charged less while it is representable |
| Notional.NotionalSigned | internal/money/quantity.go:130-157 | The sign survives and the magnitude rounds away from zero |
| Notional.SplittingNeverPays | internal/money/quantity.go:124-129 | Splitting never lowers the charge and raises it by less than one unit a piece |
| Notional.UnrepresentableWhole | internal/money/quantity.go:148-153 | At the largest price the parser returns, three units are charged nothing and each half is charged in full |
| Notional.LimitBoundsTheFill | internal/authority/evaluate.go:122-154 | A limit price bounds any fill's cost by the notional charged |
| Notional.RulesAgree | internal/authority/evaluate.go:130-154 | The authority, policy and clustering copies of the rule agree on every intent, and determine an amount exactly when the intent commits it |
| Notional.DeterminableExactly | internal/policy/evaluate.go:160-181 | Exactly which intents have a determinable notional, whatever the signs |
| Clustering.SplitPartitions | internal/intent/parent.go:185-201 | The clusters concatenate to the group, gaps inside are at most the window and between neighbours exceed it |
| Clustering.SplitIsTheOnly | internal/intent/parent.go:185-201 | No other clustering does: the clusters are maximal |
| Clustering.SplitByGap | internal/intent/parent.go:185-201 | The loop computes that split |
| Reconstruction.Summarize | internal/intent/parent.go:203-253 | The accumulating loops compute the summary |
| Reconstruction.EveryChildAccounted | internal/intent/parent.go:223-241 | Every child is in the totals once or in the indeterminate count, gross and net being the sum and difference of the two sides |
| Fragmentation.ReportsRightExactly | internal/intent/parent.go:332-343 | For clusters of n orders of at most a ceiling each, the split report is right for every cluster and every limit if and only if n times the ceiling fits int64 |
| Fragmentation.CeilingMakesReportsRight | internal/intent/parent.go:338-343 | Then the reported total is the true one as well |
| Fragmentation.LargestPairUnreported | internal/intent/parent.go:203-253 | Two orders of the largest notional the decoder returns total less than nothing and are reported as no split |
| Reconstruction.OrderIndependent | internal/intent/parent.go:111-181 | Permuting envelopes with distinct ids gives the same parents in the same order |
| Reconstruction.Reconstruct | internal/intent/parent.go:111-181 | Buckets, key order, sorting, splitting and the size filter compute the reconstruction, whatever order the map yields its keys |
| ParentIntents.EveryParentIsAnIntent | internal/intent/parent.go:111-201 | Every parent reported sums up orders alike in tenant, principal, account, instrument and side, in the order they came, with no pause beyond the window, each as often as given, and with none like them within the window left out |
| ParentIntents.EveryOrderHasItsIntent | internal/intent/parent.go:111-201 | Every order belongs to such an intent, which is reported if it has enough orders |
| ParentIntents.SummaryMeans | internal/intent/parent.go:203-253 | The summary names whose intent it is and the instants of its first and last order |
| ParentIntents.AgentsMean | internal/intent/parent.go:203-253 | Its agents are those that took part, each once, in byte order |
| ParentIntents.SignalsMean | internal/intent/parent.go:203-253 | Each shared-fact signal is set if and only if all orders share the fact |
| Sorting.SortForgets | internal/intent/parent.go:137-163 | Sorting forgets input order when nothing ties |
| PolicyCompile.EvaluationIsTheSource | internal/policy/compile.go:77-157 | For every source that compiles and every order, the decision is the most severe action among the authored rules that apply |
| PolicyCompile.CompilationPreservesMeaning | internal/policy/compile.go:77-157 | A compiled rule fires if and only if its authored rule applies |
| PolicyCompile.CompileRules | internal/policy/compile.go:77-157 | No problem is reported if and only if the source compiles, and then each rule is its source rule's |
| PolicyCompile.BoundsProblems | internal/policy/compile.go:161-191 | Exactly the threshold problems, sorted |
| PolicyCompile.BoundsProblemsDetermined | internal/policy/compile.go:187-190 | So the output does not depend on map iteration order |
| PolicyReach.FiresOnKnownExactly | internal/policy/evaluate.go:99-158 | A rule that compiles fires on some acceptable order of known size if and only if the sizes its bounds leave, positive and within its order type's reach, do not all meet its requirement |
| PolicyReach.FiresOnUnknownExactly | internal/policy/evaluate.go:99-158 | It fires on some acceptable order of unknown size if and only if it does not depend on size or does more than allow |
| PolicyReach.SizeIsPositive | internal/intent/validate.go:297-372 | A size an accepted order commits is positive and within its order type's reach |
| PolicyReach.ReportedNeverFires | internal/policy/compile.go:180-185 | Bounds reported as never matching leave no size |
| PolicyReach.UnreportedNeverFire | internal/policy/compile.go:159-191 | Six rules that compile without a problem and fire on no order of known size |
| PolicyCompile.MergeInstruments | internal/policy/compile.go:193-204 | Blank names are dropped and the rest kept in order |
| StringOrder.SortStrings | internal/policy/compile.go:206-212 | The in-place insertion sort permutes and leaves the texts in ascending order of their bytes |
| PolicyRules.EvaluateBundle | internal/policy/evaluate.go:47-97 | The evaluation loop is its specification; no bundle or envelope denies |
| PolicyRules.EvaluateIsStrictest | internal/policy/evaluate.go:47-97 | The decision is the most severe firing action, attributed to the first rule that fires with it |
| PolicyRules.DecisionNamed | internal/policy/authoring.go:92-107 | The decision by name: deny if some firing rule denies, else require approval, throttle, delay, observe if some firing rule does, and allow if and only if none fires with more |
| PolicyRules.OrderDoesNotMatter | internal/policy/evaluate.go:43-46 | Reordering rules changes no action |
| PolicyRules.AddingNeverLoosens | internal/policy/evaluate.go:43-46 | Adding rules anywhere never loosens a decision |
| PolicyRules.UnknownSizeIsStrictest | internal/policy/evaluate.go:104-114 | An order of unknown size is treated at least as strictly as the same order of any size |

## Left out

- HTTP handlers, request decoding, the console, commands and generated clients: plumbing without a state invariant.
- SQL text, row level security, isolation levels below serializable and driver errors: each transaction is one atomic step.
- Context cancellation, log text, telemetry and error messages; a cut-short wait is modelled where it changes what is known.
- Ed25519 signatures and X.509: an authorization reaching Accept or RegisterKeyAuthorized is taken as verified; SHA-256 is a parameter.
- Alpaca, Tradier, S3, ClickHouse and NATS clients: the venue, the object store, the projection and the bus are environments; the stream's 90-day expiry is not modelled.
- Venue-reported quantities and prices are carried as opaque values.
- The in-process store's maps are keyed by a pair where the source joins tenant and key with a NUL byte.
- Timestamps are not truncated to the database's microseconds; archived instants are held as their UTC text, with the clock's reading of foreign text as a parameter.
- Payload numbers are held as the literal the platform prints; two literals that read as one float64 are not identified, and field names of an archived event are matched exactly.
- An event line that repeats a field keeps its last value; the decoder's merging of two payload objects is not modelled.
- The pipeline's identity, attestation, control and policy stages before the reservation are one refusal choice; throttle slots spent there are modelled in `Throttle` on their own.
- `MemoryUsage.Record` and `Close`, `PostgresUsage.Record` and `Close`: the older unchecked write path, outside the reservation protocol.
- `Exporter.Destroy`, `retention.Decide`, bundle lifecycle tables, `Grant` predicates and attestation ranks: easy members with no protocol behind them.
- Fleet statistics, risk vectors and incident severity: floating point and single-branch rules. `Confidence` is left as the facts it divides.
- The per-message `Fetch` loop, `Unpublished`, `Depth` and the evidence queries: reads, and a consumer no process runs.
- Positions, account figures and listings of the fake venue.
- `time.Time.Sub` saturates after some 292 years; gaps between orders are exact here.
- `parentID`: a hash of fields the summary already determines.
- File reload of policy bundles, and parsing YAML: a source rule is taken as its fields.
- Event contents beyond identity: the outbox model keeps an event's ids and instant, one flag for the rest of Validate, and a body.
- ExecutionOutcomes.OneAnswer: the cache is not claimed to be equivalent to the store, since an entry may outlive a prune and one without an envelope id answers any envelope; what is proved is that every cached answer is the outcome recorded.
- PipelineReturns.EveryLiveOrderCounted: assumes that each release in the run passes a lookup the pipeline does not make, unless its identity was begun once; the exact condition of one release and two runs that break it are proved beside it.
- LedgerSafety.CeilingsHold: assumes that the exact sums of each reservation fit int64, because a wrapped sum admits an order beyond its ceiling (AllowedKeepsExactly, OverflowAdmits).
- Fragmentation.ReportsRightExactly: sizes are positive, as validation makes them; a single cluster beyond the bound may still be reported rightly when its total happens to wrap above the limit.
- PolicyReach.FiresOnKnownExactly: whether a named instrument exists and is of the named asset class is not modelled; an order is accepted by its side, sizing and prices.
- DeliveryOutcome.QuiescentProjectionIsTheRecord: equality needs event ids to name events, because the outbox's key is the id alone; without it, every id is still projected.
- Reconstruction.OrderIndependent: assumes envelope ids name envelopes; two different envelopes sharing an id and an instant keep their input order.
