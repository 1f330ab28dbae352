# Verified model of the delivery, radio, migration, graph, lifecycle and transcription cores

A Dafny model of six components of the backend, and proofs about it. `dafny verify dfyconfig.toml`
checks everything, and so does plain `dafny verify *.dfy`.

**Durable delivery.** The transactional outbox of `backend/app/event_delivery` and the durable path of
`backend/app/event_pipeline`. `Outbox` holds the table and every statement on it, as a class whose
methods are proved against row functions. `Dispatcher` and `Pipeline` hold the recovery pass and the
pipeline run as loops over that class. `DeliveryProgress` is about sequences of passes.
`DeliveryProtocol` cuts the same operations into single statements and interleaves any number of
processes, administrators, clock ticks and crashes over one table; `DeliverySafety` and `DeliveryRuns`
prove what every such run keeps, `DeliverySchedule` when a record carries a retry time,
`DeliveryChanges` how often a record changes, `DeliveryStory` what its fields say about its past, and
`DeliveryRest` what terminal records and recovery passes do among all other processes.
`DeliveryRefinement` and `PipelineRefinement` show that the dispatcher's and the pipeline's methods
are among those runs, `DeliveryGuarantee` is about a restart, and `DeliveryExamples` reaches concrete
states. `DeliveryOrder` is about the order in which one dispatcher calls a consumer. `PluginLedger` is
the idempotency ledger.

**Radio ingest.** `Rtp` parses and builds packets byte by byte. `RtpStream` is the 16-bit tracker beside
a reference tracker whose numbers never wrap, and the simulator that numbers packets. `Flows`,
`Receiver` and `FlowRuns` are the per-flow router with its least-recently-used eviction. `Vad` is the
adaptive energy detector over exact reals, `Segmenter` and `SegmenterRuns` the transmission segmenter,
and `VadSegmenter` the two in series.

**Schema migration.** `SchemaMigration` has the migrator as a class, and any number of upgraders
interleaved step by step over one version table.

**Entity graph.** `Paths`, `Search` and `EntityGraph`: the node and edge maps, the consistency of the
graph under every mutation, breadth-first shortest path and bounded subgraph.

**Entity and relation lifecycle.** `Entities`, `Relations` and `Lifecycle` are the two tables and the
projection of one event; `LifecycleRuns` folds whole logs.

**Transcription worker.** `Stt` has the worker as a class of lock-protected sections, and their
interleavings.

Conventions. Each operation that changes state is a method of a class, with an `ensures` that gives the
new state as a function of the old one; the lemmas are about those functions. Clock readings, the
outcome of a callback or of a migration operation, and the moments at which threads run or processes
die are parameters, so a theorem holds for all of them. Times and energies are reals. A run is a
sequence of states and actions from the initial state. `{:induction false}` marks proofs whose
induction is written out.

Assumptions taken from the repository's own contracts: `max_attempts` is at least 1 in the results about
every run; the retry policy does not change after construction; `save_with_deliveries` is one atomic
step; a migration operation does not itself raise the integrity error that the migrator reads as
"already applied"; the digest behind a relation's identity is injective.

Where the code and its documentation differ, the model follows the code:

- `outbox_repository.py:145-149` says `attempts` never exceeds `max_attempts`. `mark_pending` keeps
  `attempts`, and a PENDING record is claimed whatever its count, so a consumer that registers late is
  called beyond the limit (`AttemptsCanExceedTheLimit`). `ClaimOverruns` gives the exact condition, and
  `AttemptsAreBounded` the bound that holds.
- `event_pipeline.py:226-228` says that records just delivered on the hot path are not redelivered by
  the recovery pass of the same run. The pass takes up none of them but those whose consumer raised, with
  attempts left and the backoff over, and takes up each of those unless it reaches its limit
  (`RecoveryRepeatsOnlyDueFailures`; `RedeliveredInTheSameRun` is one).
- `outbox_model.py:49-50` says `next_attempt_at` is NULL for PENDING and IN_FLIGHT records; the claim
  and `mark_pending` keep it. In every run a record carries one exactly when it was FAILED before and not
  terminal since (`ScheduledIff`; `RetryTimeOutlivesFailed` reaches both states).
- `delivery_dispatcher.py:20-21` says DEAD_LETTER is terminal unless explicitly requeued. Marks carry no
  state guard, so a late one takes a record out of it (`LateMarkLeavesDeadLetter`), exactly as
  `DeadLetterLeftIff` says; a DELIVERED record may turn FAILED in the same way (`LateMarkReopens`,
  `TerminalReopensIff`). `RestIsFinal` says when a terminal record stays.
- `delivery_dispatcher.py:27-34` says one consumer of a single dispatcher observes its deliveries in
  enqueue order. A record waiting for its backoff is overtaken by a younger one (`YoungerOvertakes`). Once
  all records of the consumer are DELIVERED, its calls came in order exactly when no pass called it for a
  record while an older undelivered one was waiting, or was called in that pass without returning
  (`HeardInOrderIff`, `LeftBehindIff`).
- `plugin_idempotency_ledger.py:83` says the function runs at most once per pair. Besides the documented
  crash, overlapping runs may repeat it (`OverlapRepeats`). Completing the work is one side effect too many
  exactly when the pair is recorded by then, or another process did the work and has not recorded it
  (`CompletingRepeatsIff`).
- `composition.py:233-235` says a failure in one projection step does not affect the others. A
  confidence entry that is no number raises in the relation step and skips the tombstone and the cascade
  (`RemovalTakesEffect`, `MalformedRemovalLeavesVisible`).
- `composition.py:256` calls the lifecycle idempotent under replay. A severance or removal that comes
  before the relation is established acts only on the second pass (`EarlySeveranceActsOnReplay`,
  `SecondPassChangesIff`); from the second pass on nothing changes (`ReplaySettles`).
- `stt_worker.py:370` says `wait_idle` waits until no job is in flight; a job that left the queue and is
  not yet counted goes unseen (`IdleTestIff`, `IdleTestCanBeEarly`).
- `rtp.py:126-131` accepts a padding count of 0 and then returns an empty payload
  (`AcceptsExactlyTheEncodings`; `ZeroPaddingCountIsAccepted` is one such datagram).

## Model

| member | source | states |
|---|---|---|
| Outbox.OutboxRepository.Enqueue | backend/app/event_delivery/outbox_repository.py:92-117 | creates a PENDING record iff the pair has none; the one-record-per-pair constraint is kept |
| Outbox.OutboxRepository.EnqueueMany | backend/app/event_delivery/outbox_repository.py:119-128 | the records of all consumers, and the number of new ones |
| Outbox.EnqueuedKeepsUnique | backend/app/event_delivery/outbox_repository.py:92-117 | enqueueing twice is enqueueing once, at any later time, and leaves a record for the pair |
| Outbox.EnqueuedAllRecords | backend/app/event_delivery/outbox_repository.py:119-128 | each consumer without a record gets a PENDING one with no attempts and no error, created at its own clock reading; the records there were stay |
| Outbox.OutboxRepository.ClaimPending | backend/app/event_delivery/outbox_repository.py:162-248 | exhausted leases are retired, the selected eligible rows and no others become IN_FLIGHT with one more attempt, and they are returned in the selection's order |
| Outbox.SelectedIsSelection | backend/app/event_delivery/outbox_repository.py:183-206 | the candidate list is distinct, eligible, within the limit, oldest first, and omits an eligible row only for older ones when full |
| Outbox.SelectionRespectsFilter | backend/app/event_delivery/outbox_repository.py:183-206 | a claim returns at most the limit, only records of the consumers filtered for, if any, and all eligible ones of these below the limit |
| Outbox.OutboxRepository.MarkDelivered | backend/app/event_delivery/outbox_repository.py:250-264 | the pair's record becomes DELIVERED, without a state guard; all others are kept |
| Outbox.OutboxRepository.MarkPending | backend/app/event_delivery/outbox_repository.py:266-283 | the pair's record becomes PENDING, with attempts and schedule kept |
| Outbox.OutboxRepository.MarkFailed | backend/app/event_delivery/outbox_repository.py:285-323 | DEAD_LETTER when the attempts are used up, else FAILED with the capped exponential backoff counted from a second clock reading |
| Outbox.BackoffDoubles | backend/app/event_delivery/outbox_repository.py:285-294 | the first failure waits the base, each later one twice the wait before it, between 0 and 60 s |
| Outbox.DefaultWaits | backend/app/event_delivery/outbox_repository.py:285-294 | with the default base the waits are 2, 4, 8, 16 and 32 s, then 60 s; never more |
| Outbox.TruncatedMeans | backend/app/event_delivery/outbox_repository.py:296-323 | an error is kept up to its first 500 characters |
| Outbox.OutboxRepository.MarkDeadLetter | backend/app/event_delivery/outbox_repository.py:325-339 | forces DEAD_LETTER, error cut to 500 characters |
| Outbox.OutboxRepository.RequeueDeadLetter | backend/app/event_delivery/outbox_repository.py:341-364 | succeeds iff the record is a DEAD_LETTER, and then starts its attempts over |
| Outbox.RequeueStartsOver | backend/app/event_delivery/outbox_repository.py:341-364 | however often it failed before, a requeued record can be claimed max_attempts times again, is then given up, and starts without error and retry time |
| Outbox.RecordIndexIsUnique | backend/app/event_delivery/outbox_repository.py:92-117 | under the uniqueness constraint the lookup by pair finds the one record |
| Dispatcher.DeliveryDispatcher.RegisterConsumer | backend/app/event_delivery/delivery_dispatcher.py:84-90 | adds exactly this consumer |
| Dispatcher.DeliveryDispatcher.UnregisterConsumer | backend/app/event_delivery/delivery_dispatcher.py:92-94 | removes exactly this consumer and tells whether it was there |
| Dispatcher.DeliveryDispatcher.DeliverPending | backend/app/event_delivery/delivery_dispatcher.py:106-178 | claims a valid selection; each claimed row gets exactly the outcome of its own reply, every other row is only retired or kept; the calls made, in order, and the count returned |
| Dispatcher.DeliveryDispatcher.DeliverClaimed | backend/app/event_delivery/delivery_dispatcher.py:122-178 | the loop over claimed records, from the claimed table to the settled one |
| Dispatcher.DeliveryDispatcher.DeliverOne | backend/app/event_delivery/delivery_dispatcher.py:125-177 | unregistered, failed lookup, missing event, raising and returning consumer: the mark written and the call made for each |
| Dispatcher.FateOfClaimed | backend/app/event_delivery/delivery_dispatcher.py:124-177 | for each of the five fates of a claimed record: its new state, the error text it carries, and the call made |
| Dispatcher.ProcessedIsTheRest | backend/app/event_delivery/delivery_dispatcher.py:123-178 | the count returned is the claimed records less those put back |
| Dispatcher.PassStep | backend/app/event_delivery/delivery_dispatcher.py:124-178 | marking the i-th claimed pair settles that record and no other |
| Dispatcher.AfterPassKeepsPairs | backend/app/event_delivery/delivery_dispatcher.py:106-178 | a pass changes no record's event, consumer or creation time |
| DeliveryProgress.NeverStuck | backend/app/event_delivery/outbox_repository.py:162-207 | a non-terminal record is claimable or retired once 60 s and a lease have passed |
| DeliveryProgress.MarksFit | backend/app/event_delivery/outbox_repository.py:250-339 | every mark leaves a record whose retry is due within 60 s, below the attempt limit if FAILED |
| DeliveryProgress.PassMakesProgress | backend/app/event_delivery/delivery_dispatcher.py:106-178 | a due pass with all consumers registered strictly lowers a measure of the table unless every record is terminal, whatever the outcomes, lost processes included |
| DeliveryProgress.EveryRecordSettles | backend/app/event_delivery/delivery_dispatcher.py:106-178 | after as many spaced passes as the measure, at most 2 * max_attempts + 2 a record, all records are DELIVERED or DEAD_LETTER |
| DeliveryProgress.ClaimOverruns | backend/app/event_delivery/outbox_repository.py:145-149 | a claim exceeds max_attempts iff it takes a PENDING record that has used them up |
| DeliveryProgress.TurnsUseUpAttempts | backend/app/event_delivery/delivery_dispatcher.py:180-182 | each pass that finds the consumer unregistered costs one attempt, without limit, and the record stays claimable |
| DeliveryProgress.AttemptsCanExceedTheLimit | backend/app/event_delivery/outbox_repository.py:145-149 | the documented bound fails: max_attempts such passes, then a claim with max_attempts + 1 |
| DeliveryProtocol.RowStep | backend/app/event_delivery/outbox_repository.py:162-364 | every statement keeps a record's schedule and its attempt bounds |
| DeliverySafety.NextExtends | backend/app/event_delivery/outbox_repository.py:92-364 | no action drops a record, changes its pair or creation time, forgets an event or a call |
| DeliverySafety.CommitCovers | backend/app/event_repository/durable/sqlalchemy_event_repository.py:138-234 | the commit leaves a record for each of its consumers |
| DeliverySafety.KeepsPairs | backend/app/event_pipeline/event_pipeline.py:164-176 | every action keeps one record per pair, and a record for every committed pair |
| DeliverySafety.KeepsProcs | backend/app/event_delivery/delivery_dispatcher.py:122-178 | whatever others do, each process holds records of the table, in creation order, and calls only for stored events |
| DeliverySafety.KeepsRows | backend/app/event_delivery/outbox_repository.py:162-364 | every action keeps every record's schedule and attempt bounds |
| DeliverySafety.BecomesDelivered | backend/app/event_delivery/delivery_dispatcher.py:164-177 | a record becomes DELIVERED only after a call for its pair returned normally |
| DeliverySafety.KeepsLog | backend/app/event_pipeline/event_pipeline.py:189-223 | every action keeps: calls are for stored events, DELIVERED has a returned call |
| DeliveryRuns.KeepsBudget | backend/app/event_delivery/delivery_dispatcher.py:122-178 | calls made plus calls that may still come never exceed claims less requeues, nor hot calls the commits' offers |
| DeliveryRuns.StepKeepsInv | backend/app/event_pipeline/event_pipeline.py:126-237 | the whole invariant is kept by every action of every process |
| DeliveryRuns.CommittedPairHasOneRecord | backend/app/event_pipeline/event_pipeline.py:164-176 | in every run, a committed pair has one and the same record in all later states |
| DeliveryRuns.CallsFollowCommits | backend/app/event_pipeline/event_pipeline.py:189-223 | in every run, no consumer call starts for an event not yet stored |
| DeliveryRuns.DeliveredMeansReturned | backend/app/event_delivery/delivery_dispatcher.py:164-177 | in every run, DELIVERED implies that consumer's call for that event returned normally |
| DeliveryRuns.AttemptsAreBounded | backend/app/event_delivery/outbox_repository.py:145-248 | in every run, attempts are at most max_attempts plus requeues; recovery calls at most max_attempts per reset epoch; hot calls at most the commits naming the pair |
| DeliveryStory.RecordTellsItsStory | backend/app/event_delivery/outbox_repository.py:92-364 | in every run: attempts are the claims since creation or the last administrative requeue, the error is that of the last failure since the last delivery or such requeue, the time stamp is that of the last write |
| DeliveryRuns.NoRecordIsStuck | backend/app/event_delivery/outbox_repository.py:162-207 | in every run, FAILED is below the limit and due within 60 s; non-terminal records are due for a claim or retirement; terminal ones are never claimed |
| DeliveryRuns.ReachableTablesFit | backend/app/event_delivery/outbox_repository.py:162-364 | every reachable table is one from which spaced passes settle everything |
| DeliveryRuns.ClaimsAreOldestFirst | backend/app/event_delivery/outbox_repository.py:201-248 | in every run, a claim returns records in creation order, however others interfered |
| DeliveryRuns.ClaimsAreExclusive | backend/app/event_delivery/outbox_repository.py:208-247 | two claims win one record without a mark or reset in between only if their clock readings are more than a lease apart |
| DeliverySchedule.ClaimKeepsSchedule | backend/app/event_delivery/outbox_repository.py:213-239 | a claimed record has a retry time iff it was FAILED or had one; a requeue keeps it |
| DeliverySchedule.ScheduledIff | backend/app/event_delivery/outbox_repository.py:162-364 | in every run, a record has a retry time iff it was FAILED before and not terminal since |
| DeliveryChanges.RecordChangesAreBounded | backend/app/event_delivery/outbox_repository.py:162-364 | in every run, a record changes at most three times per claim its attempts, requeues and resets allow, once per hot-path offer and once per administrative action |
| DeliveryRest.ChangesWithoutRequeues | backend/app/event_delivery/outbox_repository.py:162-364 | with all consumers registered and no administrator: at most 3 * max_attempts changes, and one per hot-path offer |
| DeliveryRest.TerminalReopensIff | backend/app/event_delivery/outbox_repository.py:250-364 | a terminal record is reopened iff a process at it requeues it or writes a failure with attempts left, or an administrator requeues it |
| DeliveryRest.DeadLetterLeftIff | backend/app/event_delivery/delivery_dispatcher.py:20-21 | a record leaves DEAD_LETTER iff it is reopened so, or a process writes that its call returned |
| DeliveryRest.DeadLetterEnteredIff | backend/app/event_delivery/outbox_repository.py:162-339 | a record becomes a DEAD_LETTER iff an administrator buries it, a pass retires its exhausted lease, or a failure is written with no attempts left |
| DeliveryRest.NeverBuriedEarly | backend/app/event_delivery/outbox_repository.py:285-323 | in every run, a DEAD_LETTER that no administrator ever buried has had max_attempts attempts |
| DeliveryRest.TerminalChangesOnlyBy | backend/app/event_delivery/outbox_repository.py:250-364 | a terminal record changes state only by a mark of a process that still has it to write, or by an administrator |
| DeliveryRest.RestIsFinal | backend/app/event_delivery/outbox_repository.py:145-248 | in every run, a terminal record that no process has to write stays terminal until its event is committed again or an administrator requeues it |
| DeliveryRest.StillIsAtRest | backend/app/event_delivery/outbox_repository.py:162-248 | a stretch of a run with a due claim phase in which no record changes began with all records terminal |
| DeliveryRest.AllButFewPassesFindRest | backend/app/event_delivery/delivery_dispatcher.py:106-178 | among all other processes, all but a bounded number of spaced claim phases begin with every record terminal |
| DeliveryRest.InterleavedPassesSettle | backend/app/event_delivery/delivery_dispatcher.py:106-178 | with more spaced claim phases than the bound, at some point all records are terminal, and those nobody has to write stay so |
| DeliveryRefinement.PassIsARun | backend/app/event_delivery/delivery_dispatcher.py:106-178 | the pass the dispatcher's method specifies is a run in which only its own process acts, with the same table and exactly the pass's calls in the log |
| PipelineRefinement.ProcessIsARun | backend/app/event_pipeline/event_pipeline.py:126-237 | what the pipeline's method specifies for an admitted event is a run in which only its own process acts, with the same table and events and exactly the hot calls and then the pass's calls in the log |
| PipelineRefinement.ProcessDeliversOnReturnOnly | backend/app/event_pipeline/event_pipeline.py:189-237 | from any reachable state, a record the method leaves DELIVERED has a returned call, logged before it or among its own |
| DeliveryOrder.HeardInOrderIff | backend/app/event_delivery/delivery_dispatcher.py:27-34 | over any passes of one dispatcher and enqueues between them, once all records of the consumer are DELIVERED: its calls came in enqueue order iff no pass called it for a record and left an older one undelivered, iff none did so past an older one that was dead, waiting, or called without returning |
| DeliveryOrder.ClaimedUnlessWaiting | backend/app/event_delivery/outbox_repository.py:183-206 | a pass that claims a record claims an older undelivered one of the consumer, before it, iff that is neither DEAD_LETTER nor waiting for backoff or lease |
| DeliveryOrder.LeftBehindIff | backend/app/event_delivery/delivery_dispatcher.py:122-178 | such a pass leaves the older one undelivered iff it was dead or waiting, or its own call does not return |
| DeliveryOrder.YoungerOvertakes | backend/app/event_delivery/delivery_dispatcher.py:27-34 | the documented order fails: from an empty table, three passes call one consumer for the events enqueued at 0 s, 3 s and 0 s again, and all are DELIVERED |
| DeliveryExamples.RetryTimeOutlivesFailed | backend/app/event_delivery/outbox_repository.py:234-283 | commit, claim, raise, claim again: a reachable IN_FLIGHT record with a retry time, and then a PENDING one |
| DeliveryExamples.LateMarkLeavesDeadLetter | backend/app/event_delivery/outbox_repository.py:250-264 | a reachable DEAD_LETTER record that a late hot-path mark turns DELIVERED without a requeue |
| DeliveryExamples.LateMarkReopens | backend/app/event_delivery/outbox_repository.py:296-323 | a reachable DELIVERED record that a late hot-path mark turns FAILED |
| DeliveryGuarantee.CommittedPairSettles | backend/app/event_pipeline/event_pipeline.py:126-237 | after a restart from the table of any reachable state, none of its processes acting again, spaced passes with the consumers registered leave each committed pair one record, DELIVERED or DEAD_LETTER |
| Pipeline.EventPipeline.Admit | backend/app/event_pipeline/event_pipeline.py:71-162 | None iff the stages before drop the event, a filter refuses what they made of it, or the stages after drop that; else what all stages made of it |
| Pipeline.DroppedIff | backend/app/event_pipeline/event_pipeline.py:71-162 | the same of the specification; without middleware an event is dropped iff some filter refuses it, and is unchanged otherwise |
| Pipeline.FirstStageFirst | backend/app/event_pipeline/event_pipeline.py:71-75 | the middleware added first runs first |
| Pipeline.EventPipeline.Commit | backend/app/event_repository/durable/sqlalchemy_event_repository.py:138-234 | event and missing delivery records together, or nothing at all when a missing consumer is listed twice |
| Pipeline.EventPipeline.RunHotPath | backend/app/event_pipeline/event_pipeline.py:201-223 | registered consumers are called in order and their records marked |
| Pipeline.EventPipeline.Process | backend/app/event_pipeline/event_pipeline.py:126-237 | a dropped or refused event changes nothing; an admitted one is committed, projected whether or not the projection raises, delivered hot, then a recovery pass of 100 runs |
| Pipeline.CommittedKeepsUnique | backend/app/event_repository/durable/sqlalchemy_event_repository.py:183-204 | the commit keeps one record per pair |
| Pipeline.HotPassSettles | backend/app/event_pipeline/event_pipeline.py:205-223 | each registered consumer's record gets its own outcome, every other record is untouched |
| Pipeline.RecoveryRepeatsOnlyDueFailures | backend/app/event_pipeline/event_pipeline.py:225-230 | the following recovery pass takes up a record of the hot path, fresh or committed before, only if its consumer raised, attempts are left and the backoff is over; and then it does unless it reaches its limit of 100 |
| Pipeline.RedeliveredInTheSameRun | backend/app/event_pipeline/event_pipeline.py:225-230 | a consumer that raises is called twice in one run |
| PluginLedger.PluginDeliveryLedger.HasDelivered | backend/app/event_delivery/plugin_idempotency_ledger.py:50-59 | true iff the pair has a row |
| PluginLedger.PluginDeliveryLedger.RecordDelivery | backend/app/event_delivery/plugin_idempotency_ledger.py:61-75 | inserts iff absent; rows stay distinct |
| PluginLedger.PluginDeliveryLedger.RunIdempotent | backend/app/event_delivery/plugin_idempotency_ledger.py:77-99 | skipped iff recorded; side effects equal losses plus recorded rows after every call |
| PluginLedger.EffectsAreAccounted | backend/app/event_delivery/plugin_idempotency_ledger.py:50-99 | in every interleaving: distinct rows, and each completed side effect is recorded, lost with its process, repeated, or about to be recorded |
| PluginLedger.RowMeansCompleted | backend/app/event_delivery/plugin_idempotency_ledger.py:77-99 | in every interleaving, a row implies the side effect completed |
| PluginLedger.CompletingRepeatsIff | backend/app/event_delivery/plugin_idempotency_ledger.py:77-99 | in every interleaving, completing the work exceeds one side effect plus losses iff the pair is recorded by then or another completion awaits its row |
| PluginLedger.AtMostOncePlusLosses | backend/app/event_delivery/plugin_idempotency_ledger.py:77-99 | hence, without overlap on a pair, side effects are at most one more than the processes lost in between |
| PluginLedger.OverlapRepeats | backend/app/event_delivery/plugin_idempotency_ledger.py:77-99 | two overlapping runs complete the side effect twice without any crash |
| Rtp.ParseInvertsBuild | backend/app/audio/rtp_simulator.py:52-87 | the built packet parses to the given fields cut to their widths, for all fields and payloads |
| Rtp.ParseInvertsEncode | backend/app/audio/rtp.py:69-146 | every RFC 3550 encoding with CSRCs, extension and padding parses to its fields |
| Rtp.EncodeInvertsParse | backend/app/audio/rtp.py:69-146 | whatever is accepted is the encoding of what is returned, unless the padding count is 0 |
| Rtp.AcceptsExactlyTheEncodings | backend/app/audio/rtp.py:69-146 | accepted iff an encoding, or a padding count of 0, in which case the payload comes back empty |
| Rtp.HeaderRefusedIff | backend/app/audio/rtp.py:84-110 | exactly which datagrams are refused as empty, too short, of another version, or overrun by their CSRCs |
| Rtp.AcceptedIff | backend/app/audio/rtp.py:149-190 | a datagram passes the receiver iff it parses and has the payload type asked for, if one is |
| Rtp.KnownDatagram | backend/app/audio/rtp.py:84-146 | the fields of one datagram in numbers: network byte order and the bits of the first two octets |
| Rtp.KnownLongDatagram | backend/app/audio/rtp.py:84-146 | the same with a CSRC, an extension and padding |
| Rtp.EncodingsCountTheirPadding | backend/app/audio/rtp.py:126-131 | no encoding has a padding count of 0, so the two kinds of accepted datagrams are disjoint |
| Rtp.ZeroPaddingCountIsAccepted | backend/app/audio/rtp.py:126-131 | thirteen octets with a padding count of 0 that are accepted with an empty payload and are no packet's encoding |
| RtpStream.RtpStreamTracker.OnPacket | backend/app/audio/rtp_stream.py:130-185 | disposition and statistics for every packet |
| RtpStream.RtpStreamTracker.Accept | backend/app/audio/rtp_stream.py:187-194 | the statistics of an accepted packet |
| RtpStream.EveryPacketIsCounted | backend/app/audio/rtp_stream.py:130-194 | offered = received + duplicates + out of order, on any input |
| RtpStream.CountersOfRun | backend/app/audio/rtp_stream.py:130-194 | over any packets each counter counts its own kind, read off the packets: repeats, packets behind, gaps and the numbers they pass over, source changes, and the bytes of the rest; the tracker stands at the last of those |
| RtpStream.DeltaOfNumbers | backend/app/audio/rtp_stream.py:100-102 | within half the number space the 16-bit difference tells ahead, equal and behind |
| RtpStream.StepRefinesReference | backend/app/audio/rtp_stream.py:130-194 | one packet: same verdict as unbounded numbers give, and the state still stands for the reference's |
| RtpStream.TrackerRefinesReference | backend/app/audio/rtp_stream.py:130-194 | whole runs: same verdicts, and per SSRC epoch received + dropped = highest - first + 1 |
| RtpStream.RtpSimulator.Prepare | backend/app/audio/rtp_simulator.py:151-181 | explicit or own numbering, and the numbers that follow |
| RtpStream.RtpSimulator.Send | backend/app/audio/rtp_simulator.py:183-211 | the datagram parses back to the explicit or automatic fields, cut to their widths |
| RtpStream.RtpSimulator.SendSilence | backend/app/audio/rtp_simulator.py:213-223 | n datagrams, numbered consecutively, each parsing back |
| RtpStream.SimulatedStreamIsLossless | backend/app/audio/rtp_simulator.py:151-211 | a stream of any length is tracked without loss, duplicate or reordering across every wrap |
| Flows.FlowRouter.GetOrCreate | backend/app/audio/flow_router.py:128-155 | hit: moved to the end; miss: the oldest are evicted and finalised while the router is full, then a fresh pipeline is created at the end |
| Flows.FlowRouter.EvictOldest | backend/app/audio/flow_router.py:140-142 | exactly the excess oldest pipelines leave, each finalised, in order |
| Flows.FlowRouter.FinalizePipeline | backend/app/audio/flow_router.py:220-230 | appends this pipeline to the finalised ones |
| Flows.FlowRouter.ShutdownAll | backend/app/audio/flow_router.py:171-177 | every live pipeline is finalised and none is left |
| Receiver.RtpReceiver.HandlePayload | backend/app/audio/rtp_receiver.py:325-373 | malformed: counted, no tracker moves; valid: only its own flow's tracker moves, or the receiver's own without a source address, and it is emitted unless it repeats the last packet there |
| Receiver.RtpReceiver.Route | backend/app/audio/rtp_receiver.py:337-357 | a valid packet moves its own flow's tracker alone and is handed on unless that tracker calls it a duplicate |
| FlowRuns.ReachedIsAudible | backend/app/audio/rtp_receiver.py:339-366 | over any packets of any flows and shutdowns: exactly the arrivals that do not repeat the last packet their own flow took reach the recorders, each once and in order |
| FlowRuns.RecencyMembers | backend/app/audio/flow_router.py:128-177 | the reference list holds exactly the flows accessed since the last shutdown |
| FlowRuns.RecencyIsAccessOrder | backend/app/audio/flow_router.py:128-155 | the reference order of flows is by last access since the last shutdown |
| FlowRuns.RouterHoldsRecentFlows | backend/app/audio/flow_router.py:128-177 | after any history the router holds exactly the last max_flows distinct flows, in access order |
| FlowRuns.ResidentIff | backend/app/audio/flow_router.py:128-177 | a flow is resident iff it was accessed since the last shutdown and fewer than max_flows flows were accessed after its last access |
| FlowRuns.TrackerIsFreshRun | backend/app/audio/rtp_receiver.py:337-357 | each tracker equals a fresh one run on its own flow's packets since its last creation |
| FlowRuns.EveryPipelineIsFinalisedOnce | backend/app/audio/flow_router.py:128-230 | created = live + finalised, each finalised once |
| Vad.EnergyVad.Detect | backend/app/audio/vad.py:157-205 | label and new detector state for every energy |
| Vad.EnergyVad.TrackStability | backend/app/audio/vad.py:229-254 | the stability window and count, and whether the background is stable |
| Vad.ThresholdMeans | backend/app/audio/vad.py:256-266 | an energy reaches the adaptive threshold iff it reaches the absolute minimum and the ratio over the floor |
| Vad.ThresholdIsMonotone | backend/app/audio/vad.py:256-266 | from a floor of 1 on, a higher floor never makes the detector more sensitive |
| Vad.PercentileIsNearestRank | backend/app/audio/vad.py:95-102 | the result is one of the values, at most `rank` below it and more than `rank` not above it |
| Vad.RankMeans | backend/app/audio/vad.py:95-102 | the rank is the whole part of size * percentile / 100, kept inside the list |
| Vad.WithinTolerance | backend/app/audio/vad.py:243-252 | a window is stable iff no two of its energies are further apart than 15 % of its mean |
| Vad.DeviationsCancel | backend/app/audio/vad.py:245-245 | the deviations from the mean add up to zero |
| Vad.StabilitySeesEveryFrame | backend/app/audio/vad.py:179-203 | the stability tracker sees every frame whatever its label |
| Vad.SteadyRunIsBackground | backend/app/audio/vad.py:229-254 | from any state, a run steady within 15% is labelled non-speech from its 207th frame to its end |
| Vad.ModulationProtectsSpeech | backend/app/audio/vad.py:179-203 | a modulated frame leaves the next 199 labels to the threshold alone |
| Vad.FloorLearnsOnlyBackground | backend/app/audio/vad.py:179-205 | the noise floor only learns energies of frames labelled non-speech |
| Vad.FloorIsPercentile | backend/app/audio/vad.py:195-203 | after any run the floor is the configured percentile of the last history_frames energies labelled non-speech once there are three, and the initial floor before |
| Vad.ConstantIsSpeechFor206 | backend/app/audio/vad.py:229-254 | a constant energy above the initial threshold is speech for exactly 206 frames and background from then on |
| Vad.DisabledIsInert | backend/app/audio/vad.py:180-181 | a disabled detector never hears speech and changes nothing |
| Vad.StaticThreshold | backend/app/audio/vad.py:182-203 | without adaptation the floor never moves and the threshold alone decides; a fixed threshold is taken as it is |
| Vad.LastFrameReported | backend/app/audio/vad.py:182-194 | the detector reports its last energy, the threshold that judged it, and its label |
| VadSegmenter.CarrierIsNotRecorded | backend/app/audio/segmenter.py:171-216 | during a steady carrier the segmenter returns to IDLE and starts no recording |
| Segmenter.TransmissionSegmenter.Process | backend/app/audio/segmenter.py:151-216 | new state and emitted segment for every frame |
| Segmenter.FrameMsOfSamples | backend/app/audio/segmenter.py:235-239 | a frame lasts 1000 ms for every sample_rate whole samples in it |
| Segmenter.TelephoneFrame | backend/app/audio/segmenter.py:235-239 | 320 bytes at 8000 Hz and 2 bytes a sample last 20 ms |
| Segmenter.PrebufferBudget | backend/app/audio/segmenter.py:68-72 | the pre-roll budget is the whole samples of the configured time |
| Segmenter.SilenceCoversBoth | backend/app/audio/segmenter.py:241-248 | the silence that ends a transmission is the longer of post-roll and timeout |
| Segmenter.TransmissionSegmenter.ForceFinalize | backend/app/audio/segmenter.py:218-231 | emits iff a transmission is active, and starts over |
| Segmenter.TransmissionSegmenter.StartRecording | backend/app/audio/segmenter.py:250-265 | pre-roll and pending speech become the recording, dated back by their length |
| Segmenter.TransmissionSegmenter.PushPrebuffer | backend/app/audio/segmenter.py:267-277 | the frame is appended and the oldest dropped to the budget, duration kept in step |
| Segmenter.TransmissionSegmenter.Finalize | backend/app/audio/segmenter.py:279-290 | the segment of the recording, then a reset |
| Segmenter.TransmissionSegmenter.Reset | backend/app/audio/segmenter.py:292-302 | the initial state |
| SegmenterRuns.TrimKeepsLongestFit | backend/app/audio/segmenter.py:267-277 | trimming keeps the longest suffix within the byte budget, or the last chunk alone |
| SegmenterRuns.EmissionsAreCorrect | backend/app/audio/segmenter.py:168-216 | over every labelled stream and interruption schedule: each segment is pre-roll (the longest fitting suffix of the earlier non-speech frames) plus the block from its confirming run to the finalising frame, with the speech time its length less the trailing silence; all together use each frame at most once, in order |
| SegmenterRuns.PreRollPrecedesBlock | backend/app/audio/segmenter.py:250-277 | the pre-roll is ordered, after the previous segment and before the block |
| SegmenterRuns.SegmentBytesAreUsedFrames | backend/app/audio/segmenter.py:250-290 | the bytes and the duration of a segment are those of its frames, in order |
| SegmenterRuns.BudgetIsPreRoll | backend/app/audio/segmenter.py:68-72 | chunks within the byte budget last no longer than the configured pre-roll |
| SegmenterRuns.SegmentIsBounded | backend/app/audio/segmenter.py:186-216 | no segment lasts longer than the maximum plus one frame |
| SegmenterRuns.SilenceSegmentShape | backend/app/audio/segmenter.py:241-248 | a silence-ended block ends in a long enough non-speech run and holds no earlier one |
| SegmenterRuns.QuietReturnsToIdle | backend/app/audio/segmenter.py:171-216 | from any state, two or more non-speech frames lasting the threshold return to IDLE |
| SchemaMigration.SchemaMigrator.ApplyMigration | backend/app/database/schema_migration.py:519-609 | Locked iff all nine attempts met the lock; an error leaves the table; success records the revision once |
| SchemaMigration.SchemaMigrator.UpgradeSchema | backend/app/database/schema_migration.py:612-656 | an initial segment is kept and only grows; a normal return records every revision and returns the last |
| SchemaMigration.CurrentVersionOfSegment | backend/app/database/schema_migration.py:368-372 | the maximum recorded revision is the last of the recorded segment |
| SchemaMigration.PendingIsUnrecorded | backend/app/database/schema_migration.py:636-639 | what is above the current version is exactly what is not recorded |
| SchemaMigration.StepKeepsInv | backend/app/database/schema_migration.py:550-609 | each step of any upgrader keeps the invariant and never removes a record |
| SchemaMigration.RecordedIsInitialSegment | backend/app/database/schema_migration.py:550-656 | under any interleaving, crashes and retries: an ascending initial segment, each revision once, each with its operation in force |
| SchemaMigration.ReturnMeansUpgraded | backend/app/database/schema_migration.py:633-656 | an upgrader that returned left every revision recorded, for good, and returned the last |
| SchemaMigration.RecordsOnlyGrow | backend/app/database/schema_migration.py:550-609 | a longer run's table extends a shorter one's |
| SchemaMigration.RestartFinishes | backend/app/database/schema_migration.py:612-656 | from any reachable state an upgrader that begins and is left alone records the whole registry and returns its last revision |
| SchemaMigration.EightLocksAreSurvived | backend/app/database/schema_migration.py:602-609 | a migration starts over after each of eight lock errors in a row; the ninth ends the upgrader |
| SchemaMigration.FaultsStop | backend/app/database/schema_migration.py:550-609 | any other failure or a crash ends the upgrader and leaves the table as it was |
| EntityGraph.EntityGraph.CreateNode | backend/app/entity_graph/entity_graph.py:26-32 | refused iff the id exists; edges untouched |
| EntityGraph.EntityGraph.RemoveNode | backend/app/entity_graph/entity_graph.py:34-44 | the node and exactly its edges go |
| EntityGraph.EntityGraph.CreateEdge | backend/app/entity_graph/entity_graph.py:46-57 | refused iff an end is missing or the ordered pair has an edge; else the edge joins its ends, in the place of an edge with its id or last, and no other edge changes |
| EntityGraph.EntityGraph.RemoveEdge | backend/app/entity_graph/entity_graph.py:59-61 | exactly the edge of this id goes |
| EntityGraph.MemoryGraphRepository.SaveEdge | backend/app/entity_graph/memory_graph_repository.py:23-25 | the edge is stored in the place of the edge with its id, or last; no other edge changes |
| EntityGraph.StoredHolds | backend/app/entity_graph/memory_graph_repository.py:23-25 | what is stored after the assignment is the edge and every edge of another id, each in its place |
| EntityGraph.StoredConnects | backend/app/entity_graph/entity_graph.py:46-57 | a stored edge is the path between its ends |
| EntityGraph.MemoryGraphRepository.DeleteEdge | backend/app/entity_graph/memory_graph_repository.py:34-39 | found iff some edge has the id, and then only it goes |
| EntityGraph.WithoutEdgePlace | backend/app/entity_graph/memory_graph_repository.py:34-39 | the deletion takes the edge out of its place and moves nothing else |
| EntityGraph.StoringKeepsConsistent | backend/app/entity_graph/entity_graph.py:46-57 | edges keep joining existing nodes with one edge per ordered pair, even when an id is reused |
| EntityGraph.RemovingEdgeKeepsConsistent | backend/app/entity_graph/entity_graph.py:59-61 | removing an edge keeps consistency and every other edge |
| EntityGraph.RemovingNodeKeepsConsistent | backend/app/entity_graph/entity_graph.py:34-44 | removing a node keeps consistency and exactly the edges that do not touch it |
| EntityGraph.EntityGraph.ShortestPath | backend/app/entity_graph/entity_graph.py:81-99 | a path iff one exists, valid, and no longer than any other; terminates on cyclic graphs |
| EntityGraph.EntityGraph.Advance | backend/app/entity_graph/entity_graph.py:88-98 | one turn of the loop: a shortest path to the target, or the frontier kept with more visited nodes or a shorter queue |
| Search.FrontierAdvances | backend/app/entity_graph/entity_graph.py:88-98 | expanding the queue's front keeps the breadth-first frontier |
| Search.FoundIsShortest | backend/app/entity_graph/entity_graph.py:93-96 | the path to an unseen neighbour of the front is a shortest one |
| Search.ExhaustedIsUnreachable | backend/app/entity_graph/entity_graph.py:88-99 | an empty queue means an unvisited target has no path |
| EntityGraph.EntityGraph.Subgraph | backend/app/entity_graph/entity_graph.py:101-119 | keys are exactly the nodes within the depth; full successor lists below it, empty ones at it |
| Paths.SuccessorsInOrder | backend/app/entity_graph/entity_graph.py:109-115 | a successor list holds the target of each edge of the node once, in edge order |
| Paths.WithinStep | backend/app/entity_graph/entity_graph.py:101-119 | distance n + 1 is one edge beyond distance n |
| Entities.EntityRepository.Get | backend/app/entity_repository/sqlalchemy_entity_repository.py:113-118 | finds exactly the rows not deleted |
| Entities.EntityRepository.Save | backend/app/entity_repository/sqlalchemy_entity_repository.py:120-144 | an upsert that keeps the deletion mark, and the status unless one is given |
| Entities.EntityRepository.Tombstone | backend/app/entity_repository/sqlalchemy_entity_repository.py:156-174 | buries iff visible |
| Entities.EntityRepository.ListAll | backend/app/entity_repository/sqlalchemy_entity_repository.py:184-193 | exactly the visible entities of the type |
| Entities.EntityManager.ApplyUpdate | backend/app/entity_manager/entity_manager.py:23-64 | merges into a visible entity, overwrites a removed one without reviving it, or creates |
| Relations.RelationIdIsFaithful | backend/app/entity_relations/sqlalchemy_relation_repository.py:68-71 | equal identities iff equal triples, when source and target hold no separator |
| Relations.BarsCollide | backend/app/entity_relations/sqlalchemy_relation_repository.py:68-71 | with separators in the ends two relations share an identity |
| Relations.RelationRepository.Save | backend/app/entity_relations/sqlalchemy_relation_repository.py:164-212 | an upsert by identity; an existing relation keeps its status |
| Relations.RelationRepository.InactivateForEntity | backend/app/entity_relations/sqlalchemy_relation_repository.py:236-275 | exactly the active relations touching the entity become inactive; their number |
| Relations.RelationRepository.SeverRelation | backend/app/entity_relations/sqlalchemy_relation_repository.py:277-320 | exactly this relation, iff active |
| Lifecycle.CompositeProjection.ProjectRelation | backend/app/entity_relations/relation_projection.py:144-169 | saves iff entity, target and type are present; a malformed confidence raises; a severance creates nothing |
| Lifecycle.CompositeProjection.ProjectLifecycle | backend/app/composition.py:245-283 | a removal tombstones and cascades, anything else does nothing |
| Lifecycle.CompositeProjection.ProjectSeverance | backend/app/composition.py:285-346 | exactly the relation named by the severance |
| Lifecycle.CompositeProjection.Project | backend/app/composition.py:230-239 | the four steps in order, the last two skipped when the second raises |
| LifecycleRuns.TerminalStatesAreFinal | backend/app/composition.py:245-346 | over every log: no row goes away, TOMBSTONED and INACTIVE stay |
| LifecycleRuns.VisibleIff | backend/app/composition.py:230-283 | an entity is visible iff an event names it and no effective removal does |
| LifecycleRuns.VisibilityIsOrderFree | backend/app/composition.py:230-283 | visibility is the same for every permutation of the log |
| LifecycleRuns.RemovalTakesEffect | backend/app/composition.py:230-239 | a removal tombstones iff its payload passes the relation step, or the entity was buried before |
| LifecycleRuns.MalformedRemovalLeavesVisible | backend/app/composition.py:230-239 | the documented isolation of the steps fails on this event |
| LifecycleRuns.VisibleEntityIsMerge | backend/app/entity_manager/entity_manager.py:37-64 | a never removed entity has the name of the first event about it as its type, the payloads merged in order, and a version per event |
| LifecycleRuns.RemovalBuriesMerge | backend/app/composition.py:245-283 | the removal merges its payload like any event and then buries the row as TOMBSTONED |
| LifecycleRuns.BuriedEntityIsLast | backend/app/entity_manager/entity_manager.py:37-64 | later events about a removed entity overwrite its row with version 1 and leave it buried; others leave it alone |
| LifecycleRuns.RemovalOfUnknownEntity | backend/app/composition.py:245-283 | a removal of an unknown entity makes a TOMBSTONED row of type entity.removed |
| LifecycleRuns.RelationStep | backend/app/entity_relations/sqlalchemy_relation_repository.py:164-320 | one event creates, ends or keeps a relation, never revives it |
| LifecycleRuns.RelationStatusIff | backend/app/composition.py:230-346 | a relation exists iff established, and is INACTIVE iff ended at that event or later |
| LifecycleRuns.RelationHolds | backend/app/entity_relations/sqlalchemy_relation_repository.py:164-320 | after any log a relation carries the confidence (1 when not given) and event of its latest establishment, and a version per establishment and one more for its end |
| LifecycleRuns.PayloadPrecedence | backend/app/entity_relations/relation_projection.py:154-158 | the target entry goes before the related one, and the source entry of a severance before its entity |
| LifecycleRuns.SeveranceNamesItsSource | backend/app/composition.py:316-335 | a severance that names a source ends exactly that relation |
| LifecycleRuns.RaisingTouchesNoRelation | backend/app/entity_relations/relation_projection.py:144-169 | the relation step raises iff a confidence entry is no number and the event no severance; then no relation and no visibility changes |
| LifecycleRuns.ReplayedStatusIff | backend/app/composition.py:256-256 | after two or more passes a relation is INACTIVE iff any event of the log ends it |
| LifecycleRuns.ReplaySettles | backend/app/composition.py:256-256 | passes after the second change no visibility, identity or status |
| LifecycleRuns.SecondPassChangesIff | backend/app/composition.py:256-256 | the second pass changes a relation iff the first left it active and some event ends it |
| LifecycleRuns.EarlySeveranceActsOnReplay | backend/app/composition.py:285-346 | a severance before the relation acts only on replay |
| Stt.SttWorker.Start | backend/app/audio/stt_worker.py:258-281 | a live worker is never replaced; otherwise one new thread and a cleared flag |
| Stt.StartRevives | backend/app/audio/stt_worker.py:258-281 | without a live worker a start leaves a new one on record with the flag clear, which goes to the queue at its first test; a live one is left alone |
| Stt.SttWorker.RequestStop | backend/app/audio/stt_worker.py:303-305 | sets the flag and returns the thread to join |
| Stt.SttWorker.JudgeStop | backend/app/audio/stt_worker.py:312-324 | True iff the joined thread is still on record and dead, and only then it is forgotten |
| Stt.SttWorker.Submit | backend/app/audio/stt_worker.py:340-367 | unavailable, duplicate, dropped or accepted, each counted once |
| Stt.SttWorker.TakeJob | backend/app/audio/stt_worker.py:403-409 | ends on the flag, else takes the oldest job and counts it in flight |
| Stt.SttWorker.Conclude | backend/app/audio/stt_worker.py:410-426 | the outcome is counted, the job released, and the thread dies iff the error callback raised |
| Stt.SttWorker.IsIdle | backend/app/audio/stt_worker.py:376-378 | when it answers True, all accepted jobs are done iff no worker holds a job it has not counted |
| Stt.AtMostOneWorker | backend/app/audio/stt_worker.py:258-324 | in every interleaving at most one worker is alive and it is the one in `_thread` |
| Stt.StopTrueMeansNoneAlive | backend/app/audio/stt_worker.py:303-324 | when stop settles on True no worker is alive |
| Stt.JobsAreConserved | backend/app/audio/stt_worker.py:328-426 | accepted jobs are done, in hand or queued, once and in order; submissions = accepted + dropped + duplicates + unavailable |
| Stt.SubmitOutcome | backend/app/audio/stt_worker.py:328-367 | a submission counts as unavailable, repeated or dropped, or is queued last, by what became of earlier ones |
| Stt.OutcomesAreCounted | backend/app/audio/stt_worker.py:408-420 | in every interleaving processed counts the jobs that succeeded and failed those that did not |
| Stt.WorkerDoesEverything | backend/app/audio/stt_worker.py:400-426 | from any reachable state with a live worker and a clear flag: left alone, and without raising error callbacks, it does every accepted job, oldest first, and is idle |
| Stt.StopEndsWorker | backend/app/audio/stt_worker.py:303-324 | once stop is asked for, five steps of its own end a live worker, which does at most the job it had or was about to take |
| Stt.FatalJobEndsWorker | backend/app/audio/stt_worker.py:417-426 | a job ends its worker iff it failed and the error callback raised; it is counted and released either way |
| Stt.IdleTestIff | backend/app/audio/stt_worker.py:369-381 | the idle test is right iff no worker holds a job not yet counted |
| Stt.IdleTestCanBeEarly | backend/app/audio/stt_worker.py:369-381 | a run in which the test holds while an accepted job is not done |

## Left out

- SQLAlchemy sessions, SQLite locking, Alembic and table definitions: tables are sequences and maps, transactions are single steps.
- The rollback of an interrupted claim transaction: the statements of a claim are separate steps that stay when the process dies; a claim that is rolled back is a process that died before it.
- `set_retry_policy` after construction, dispatchers without an event repository, and the fallback that saves an event and enqueues afterwards.
- The non-durable path of `EventPipeline.process`, the type check at the durable boundary, and exceptions from middleware or from a repository that is down.
- Inspection queries of the outbox (`get_state`, `count`, `count_by_state`).
- Dispatcher.DeliveryDispatcher.DeliverPending: assumes the process survives; passes cut short by a dying process are covered by `PassMakesProgress` and by the interleaved protocol.
- DeliveryOrder.HeardInOrderIff: is about the passes of one dispatcher; calls that a pipeline's hot path makes in between are not in its list of calls.
- The A-law codec, RMS energies and floating-point rounding: energies and durations are exact reals.
- Sockets, multicast membership, WAV and MP3 files, pcapng reading, and `Mp3Worker`.
- Receiver.RtpReceiver.HandlePayload: a receiver without a router handles every packet like one without a source address; the last error message, decoding, and errors of the hook a frame is handed to are not modelled.
- The receiver's sockets, start and stop.
- Flows.FlowRouter.FinalizePipeline: the recorder's shutdown is the entry in the list of finalised pipelines; what the recorder does is not modelled.
- Flow snapshots and `touch` times.
- `SttWorker.stop` called by the worker thread itself, which only sets the flag.
- Segmenter and worker snapshots, and transcription itself: a job succeeds or fails.
- Locks of the entity graph and of the entity store: their methods are atomic.
- `neighbors`, `outgoing` and `incoming` of the entity graph: single filters over the edge list.
- Entities.EntityRepository.ListAll: does not give the order by id, which nothing else depends on.
- Entity metadata, the time stamps of entities and relations, and relation metadata.
- Lifecycle.CompositeProjection.Project: a payload entry is its truth, its text and the number it converts to; errors of the database inside a step are not modelled.
- `EntityRepository.delete`, relation purges, projection catch-up, checkpoints and observability counters.
- SchemaMigration.RecordedIsInitialSegment: the DDL of each revision is one effect; revision 1 runs outside the transaction and is taken as idempotent.
- The waiting times between lock retries, and the test hooks for failures and crashes.
