# A Dafny model of the leaf services' state machines

The leaf services of this repository are small stateful programs around Postgres, NATS and SMTP. Their
logic is in what happens between two awaits, between two statements, or after a crash. This project
models that logic and proves what it promises over every run.

| component | files | the results a reader should look at first |
|---|---|---|
| Org-unit mirror and its backfill | `OrgUnitMirror.dfy`, `OrgUnitConsumer.dfy`, `BackfillHistory.dfy`, `BackfillVerify.dfy` | deliveries converge exactly when equal timestamps agree; the backfill is faithful exactly when no copied unit has a delete at or before the snapshot and nothing newer; when the mirror ends as the source does; what the verify gate certifies |
| Tenant pools and catalog binding | `PoolRegistry.dfy`, `PoolRuns.dfy`, `PoolLru.dfy`, `CatalogBinding.dfy`, `ControlInit.dfy`, `StoreFor.dfy` | pools are conserved; stamps refine move-to-front; a returned pool is on the one database the catalog binds to its tenant; the shutdown latch's exact reach |
| Outbox | `Outbox.dfy`, `OutboxWorkers.dfy` | 29 failures at most, reached, whatever workers overlap; every publish is accounted for |
| Email publishing | `Deliveries.dfy`, `DeliveryRuns.dfy`, `EmailPass.dfy`, `EmailPublish.dfy`, `Dispatch.dfy`, `RecipientList.dfy`, `EmailRuns.dfy` | at most one mail per recipient plus one per stale takeover, and that bound is exact; when 'sent' really means that everyone was mailed or is in another claim's hands |
| Supervisors, shutdown, boot | `ConsumerSupervisor.dfy`, `RelaySupervisor.dfy`, `Shutdown.dfy`, `Boot.dfy` | one thing at a time, bounded ladders, nothing after a stop, one exit |

How the source is represented:

- An object or module with fields it updates is a class whose methods are proved against functions on a
  datatype of the same state (`View()`, `Now()`), and those functions carry the lemmas over runs. Where
  callers interleave at awaits, a run is a sequence of events; an event that could not happen is skipped
  (or excluded by a history predicate), and each await is one event boundary.
- Tables are maps or sequences, a transaction is one step, and a rollback is an event. A JavaScript Map
  is a sequence in insertion order (section 24.1 of ECMA-262).
- Armed timers, boots in flight and open connections are counted beside the code's own variables, so
  that "at most one" is proved and not assumed.
- Time is an integer the environment supplies. Uuids, pool handles and addresses in the ledger are
  numbers: only their equality matters there.
- md5 is taken to be injective, and strings are sequences of numbers in the checksum (UTF-16 code units,
  the order `Array.prototype.sort` uses).

Where the code falls short of what its comments or a reader would expect, the code is modelled as it is
and the exact condition is proved:

- `BackfillHistory.MirrorsSourceIff`: the snapshot is stamped before the read
  (`modules/finance/scripts/backfill.ts:277-279`), so it can outdate an operation that committed after the
  read. The mirror ends as the source does exactly when a newer event follows the stamp, or the read saw no
  row of the unit, or it saw the final one. `MissedDeleteStays` is the input: a delete stamped 5 that commits
  after the read of a copy stamped 10 leaves the unit shown for ever.
- `OrgUnitMirror.BackfillFaithfulIff`: the backfill leaves `deleted` alone on conflict
  (`modules/finance/scripts/backfill.ts:306-311`), so among arbitrary deliveries a unit deleted before the
  snapshot and present in it stays a tombstone, unless an event newer than the snapshot arrives
  (`RecreatedUnitStaysDeleted`). The kernel gives every new unit a new id
  (`gremion-ui/src/lib/server/governance/org-units-db.ts:131-136`) and so never re-creates one.
- `OrgUnitMirror.ConvergesIffTiesAgree`: two events of one unit with the same timestamp and different
  contents diverge with the order of delivery.
- `StoreFor.CloseStaysEmptyIff` and `ControlInit.CloseLeavesNoControlPoolIff`: the latch is tested on entry
  only. The close ends the control pool, which stops every storeFor call that has another catalog statement
  to send. What still registers a pool behind the drain is a call done with the catalog, a check or re-check
  already sent that will find its pair (for a check also a pair that another call's sent INSERT is about to
  bind), and a call waiting for a control pool being initialized, unless its pair is another's. The registry
  stays empty for good exactly when the close finds none of these, and no control pool is left exactly when
  none is being initialized. `StoreFor.LateCallRegisters` builds the late registration. The comment at
  `modules/calendar/src/tenant-store.ts:408-410` promises more.
- `DeliveryRuns.InFlightHasAClaimIff` and `InFlightOfNobody`: the third statement of a claim answers
  'in-flight' for every row that is not 'sent', a failed or missing one included
  (`modules/content/src/store/deliveries.ts:118-131`). If the other claim was given up between the missed
  takeover and that statement, nobody has the recipient. publishEmail and dispatch count 'in-flight' as no
  obstacle to 'sent' (`modules/content/src/publish-channel.ts:296`, `modules/content/src/dispatch.ts:279`), so a
  post can be 'sent', and never be claimed again, with a recipient nobody mailed. The contracts of PublishEmail,
  PublishChannel, DispatchEmail and Dispatch give the exact condition, and `EmailRuns.InOtherHandsIff` ties it to
  the other workers' actions.
- `DeliveryRuns.DisplacedRecordIsLost`: markSent's UPDATE of a missing row succeeds
  (`modules/content/src/store/deliveries.ts:149-157`). A worker whose stale claim was taken over, and whose
  row the new claimer then released, is told its mail is recorded when it is not. `EmailPass.TakeTurn`
  states exactly when a delivered recipient is on record.
- `ConsumerSupervisor.StableDeathsNeverEndIff`: a cap of one attempt ends the ladder at the first death,
  stable or not (`modules/finance/src/consumer-supervisor.ts:147-150`).
- `BackfillVerify.NewlineCollides` and `MarkerCollides`: two unequal columns the checksum cannot tell apart.
- The comment at `modules/calendar/src/tenant-store.ts:457-461` says a drain removes the eviction-warning
  entry; the code at `:512-519` prunes by age. Neither guards state, so the warnings are not modelled.

## Model

The theorems come first, component by component. From `OrgUnitMirror.MirrorStore.ApplyOp` on, the rows are the
class methods that tie the code of each module to the functions those theorems are about.

| member | source | states |
|---|---|---|
| OrgUnitMirror.ConsumedIffDelivered | modules/finance/src/org-unit-consumer.ts:108-113 | the dedup table is exactly the ids of the events delivered, applied or stale |
| OrgUnitMirror.OutcomeMeans | modules/finance/src/org-unit-consumer.ts:105-139 | duplicate iff the event id was consumed; applied means the row carries the op; stale means the row is as new; neither changes a row |
| OrgUnitMirror.NewestWins | modules/finance/src/org-unit-consumer.ts:97-101 | after any deliveries, in any order, a unit has a row iff it was delivered, and the row carries some newest delivery |
| OrgUnitMirror.ConvergesIffTiesAgree | modules/finance/src/org-unit-consumer.ts:115-138 | all orders and redeliveries of an event set give one visible mirror iff the events that tie for newest say the same |
| OrgUnitMirror.DistinctTimesConverge | modules/finance/src/org-unit-consumer.ts:115-138 | with distinct timestamps every delivery shows the newest event |
| OrgUnitMirror.EqualTimesDiverge | modules/finance/src/org-unit-consumer.ts:125-136 | any two events of one unit at one time that say different things end differently in the two orders |
| OrgUnitMirror.FirstNewestSticks | modules/finance/src/org-unit-consumer.ts:97-101 | the first newest event delivered is the one shown from then on |
| OrgUnitMirror.BackfillFaithfulIff | modules/finance/scripts/backfill.ts:284-313 | every interleaving of snapshot and events equals the snapshot taken as upserts iff no unit of the snapshot has a delete at or before it with nothing newer |
| OrgUnitMirror.RecreatedUnitStaysDeleted | modules/finance/scripts/backfill.ts:298-311 | a concrete re-created unit stays deleted |
| OrgUnitMirror.NeverOlder | modules/finance/scripts/backfill.ts:311 | a row never disappears and its source_occurred_at never decreases, over any deliveries |
| OrgUnitMirror.CopyKeepsTombstones | modules/finance/scripts/backfill.ts:298-311 | the backfill flips deleted on no existing row |
| OrgUnitMirror.CopyIsDeliveries | modules/finance/scripts/backfill.ts:301-313 | a copy onto any mirror is the delivery of its rows in order, so the results on deliveries are about it |
| BackfillHistory.MirrorsSourceIff | modules/finance/scripts/backfill.ts:273-313 | after the copy and all events, in any order, a unit shows as the source ends with it iff a newer event follows the stamp, or the read saw no row, or the final one |
| BackfillHistory.MirrorsWhenReadIsCurrent | modules/finance/scripts/backfill.ts:263-267 | in particular when every operation dated up to the stamp was visible to the read |
| BackfillHistory.MissedDeleteStays | modules/finance/scripts/backfill.ts:277-279 | a delete dated before the stamp and committed after the read is undone for ever |
| BackfillHistory.KeptDeletedIff | modules/finance/scripts/backfill.ts:298-311 | a copied unit no event outdates stays deleted iff the newest of its events delivered before its row was a delete |
| BackfillHistory.GateCatchesKeptTombstones | modules/finance/scripts/backfill.ts:386-410 | while only copied units are visible, the gate's two mirror counts agree iff no unit was deleted as its row was copied |
| OrgUnitConsumer.ParsePublished | modules/finance/src/org-unit-consumer.ts:66-89 | parsing a published op gives it back exactly when it is well formed |
| OrgUnitConsumer.TenantsAreIsolated | modules/finance/src/org-unit-consumer.ts:157-172 | a tenant's mirror after any envelopes is that tenant's ops applied alone; malformed and unknown ones are skipped |
| BackfillVerify.Verify | modules/finance/scripts/backfill.ts:356-421 | a normal return iff every count and checksum agrees, and then every plain checksummed column is the same multiset; otherwise the first table to fail: all counts, then all checksums, then each mirror |
| BackfillVerify.ChecksumIffLines | modules/finance/scripts/backfill.ts:87-90 | for any values, equal checksums of equally many rows mean equal lines of the sorted values |
| BackfillVerify.ChecksumIffNorms | modules/finance/scripts/backfill.ts:87-90 | without newlines, they mean equal multisets of normalized values |
| BackfillVerify.GateIsSound | modules/finance/scripts/backfill.ts:87-90 | without newlines and the NULL marker, count and checksum agree iff the columns are the same multiset |
| BackfillVerify.SortedUnique | modules/finance/scripts/backfill.ts:88 | sorting is canonical: equal multisets, equal sorted lists |
| BackfillVerify.NewlineCollides | modules/finance/scripts/backfill.ts:87-90 | two different columns with newlines pass |
| BackfillVerify.MarkerCollides | modules/finance/scripts/backfill.ts:88 | a NULL and the literal marker pass |
| BackfillVerify.NullIsNotAValue | modules/finance/scripts/backfill.ts:88 | a NULL is told apart from every value but the literal marker |
| PoolRuns.DeferredOrder | modules/calendar/src/tenant-store.ts:350-364 | at most 4 pending, in order of deferral, and an overflow ends the oldest first |
| PoolRuns.TeardownIsExact | modules/calendar/src/tenant-store.ts:580-597 | a teardown removes exactly the matching pools, live or pending, and ends as many |
| PoolRuns.RunLabelled | modules/calendar/src/tenant-store.ts:529-568 | over every run each live and each deferred pool carries the tenant and slug it was registered with |
| PoolRuns.TeardownEnds | modules/calendar/src/tenant-store.ts:571-597 | after a teardown a pool registered under the id or the slug asked for, either alone, is neither live nor deferred, and every other pool is where it was |
| PoolRuns.Conservation | modules/calendar/src/tenant-store.ts:318-380 | over every run each pool given is in exactly one of live, pending, control, ended; end() at most once; at most 16 live and 4 pending |
| PoolRuns.CloseEndsEverything | modules/calendar/src/tenant-store.ts:407-428 | a close sets the latch, leaves nothing open and no timer, and has ended each pool exactly as often as it was given |
| PoolLru.LruRefinesMoveToFront | modules/calendar/src/tenant-store.ts:529-569 | the live tenants are the 16 most recently used distinct ids of the history |
| CatalogBinding.CheckedMeans | modules/calendar/src/tenant-store.ts:867-878 | on a one-to-one catalog the check answers 1 iff the pair is bound, 0 iff neither name occurs, else refuses |
| CatalogBinding.InsertKeeps | modules/calendar/src/tenant-store.ts:892-897 | the insert keeps the catalog one-to-one and its rows, and lands iff neither name occurs |
| ControlInit.OneControlPool | modules/calendar/src/tenant-store.ts:790-861 | one initialization at a time, no cached rejection, one control pool for everybody, no pool lost |
| ControlInit.EveryCallerIsAnswered | modules/calendar/src/tenant-store.ts:790-861 | each caller is refused, given the open pool, or waits for the attempt in flight; an attempt that ends gives its pool, or its failure, to every caller waiting for it |
| ControlInit.LateAttemptStays | modules/calendar/src/tenant-store.ts:841-843 | an initialization in flight at a close opens a pool nothing ends |
| ControlInit.CloseLeavesNoControlPoolIff | modules/calendar/src/tenant-store.ts:411-422 | a close leaves no control pool for good iff none was being initialized |
| StoreFor.StepKeeps | modules/calendar/src/tenant-store.ts:1009-1066 | every step of every interleaving keeps catalog, cache and calls consistent, and no catalog row changes |
| StoreFor.OneClaimWins | modules/calendar/src/tenant-store.ts:890-901 | of two conflicting pairs at most one gets past its claim |
| StoreFor.ReturnedPoolsAreBound | modules/calendar/src/tenant-store.ts:1018-1066 | every returned pool is on its tenant's catalog database; one id, one database, and the reverse; never the control database |
| StoreFor.WarmCall | modules/calendar/src/tenant-store.ts:1014-1024 | with a live entry a call is answered with its pool iff the catalog binds the pair, and else refused |
| StoreFor.TwoCallsOnePool | modules/calendar/src/tenant-store.ts:995-997 | over every run a call after a served one of the same pair gets the same pool, as long as the entry is live and nothing registers for it again |
| StoreFor.ColdCall | modules/calendar/src/tenant-store.ts:1026-1040 | a cold call is refused, nothing touched, exactly for a malformed or reserved name or a database that is nobody's |
| StoreFor.ClaimsLand | modules/calendar/src/tenant-store.ts:898-900 | no claim ever fails to land; the catalog only grows and stays one-to-one |
| StoreFor.NoPoolAfterClose | modules/calendar/src/tenant-store.ts:1012 | a call begun after the latch never gets a pool |
| StoreFor.LateCallRegisters | modules/calendar/src/tenant-store.ts:1039-1063 | a call that is done with the catalog, or whose last catalog statement is sent and will find its pair, or that awaits a new control pool, leaves a live pool if its operations succeed, closed or not |
| StoreFor.CloseStaysEmptyIff | modules/calendar/src/tenant-store.ts:408-414 | after a close, which ends the control pool under every other call, the registry stays empty, whatever follows, iff the close found no such call |
| StoreFor.NoPoolLeaks | modules/calendar/src/tenant-store.ts:1050-1063 | every pool storeFor opens is with its call, registered, or ended, in exactly one place |
| StoreFor.ColdStart | modules/calendar/src/tenant-store.ts:1039-1065 | a cold call without failures is served iff neither name is bound to another pair; a refusal changes nothing |
| StoreFor.FailedAwait | modules/calendar/src/tenant-store.ts:1055-1060 | a failed await ends its call, keeps the catalog and the live pools, and ends a pool being migrated |
| Outbox.DelayValues | modules/content/src/outbox.ts:119-120 | 60 s doubling to an hour, never decreasing |
| Outbox.DayIsFull | modules/content/src/outbox.ts:82-85 | 29 waits are the first to fill the 24 hours |
| Outbox.StaysOnSchedule | modules/content/src/outbox.ts:73-124 | every row's next attempt lies at least its waits after its first failure |
| Outbox.RetryBound | modules/content/src/outbox.ts:73-124 | at most 29 recorded failures for any pass times |
| Outbox.RetryBoundIsReached | modules/content/src/outbox.ts:73-124 | punctual passes record all 29 |
| Outbox.TerminalForEver | modules/content/src/outbox.ts:78-86 | a terminal row is left as it is by every later pass |
| Outbox.ExhaustedIsTerminal | modules/content/src/outbox.ts:78-86 | a row that failed 29 times is never due again |
| OutboxWorkers.DrainIsSound | modules/content/src/outbox.ts:133-157 | with any overlap and rollbacks: disjoint locks, and publishes = committed ok + open passes + rolled back |
| OutboxWorkers.AtMostOncePerRollback | modules/content/src/outbox.ts:141-154 | without rollbacks no row is published twice; an ok row was published in a pass not rolled back |
| OutboxWorkers.OkIsFinal | modules/content/src/outbox.ts:141-154 | no row is lost, ok is final, a commit applies exactly its batch, a rollback nothing |
| OutboxWorkers.EnqueuedStays | modules/content/src/outbox.ts:48-60 | a row enqueued is there, fresh, and stays in every later state |
| OutboxWorkers.RetryBoundForEveryRun | modules/content/src/outbox.ts:113-154 | the 29-failure bound under overlapping workers |
| DeliveryRuns.AtMostOncePlusTakeovers | modules/content/src/store/deliveries.ts:19-28 | accepted mails are at most 1 + stale takeovers; of the claims not taken over at most one ever mails |
| DeliveryRuns.BoundIsReached | modules/content/src/store/deliveries.ts:90-115 | k takeovers can cost k further mails, for every k |
| DeliveryRuns.SentIsFinal | modules/content/src/store/deliveries.ts:134-142 | once 'sent', no claim is ever made again |
| DeliveryRuns.AcceptedStaysKnown | modules/content/src/store/deliveries.ts:166-175 | an accepted mail not taken over keeps its claim or is 'sent' |
| DeliveryRuns.RecordingLands | modules/content/src/store/deliveries.ts:134-142 | so recording it leaves the row 'sent' |
| DeliveryRuns.RecordIsTriedThrice | modules/content/src/store/deliveries.ts:182-200 | a record is tried three times and no more, and an answer ends it at any of them |
| DeliveryRuns.AloneDelivers | modules/content/src/store/deliveries.ts:74-132 | a worker alone mails iff the row is missing, failed or stale |
| DeliveryRuns.InFlightHasAClaimIff | modules/content/src/store/deliveries.ts:117-131 | over every run, an in-flight answer has another claim behind it iff no claim was given up, without a new one, since the takeover that was missed |
| DeliveryRuns.InFlightOfNobody | modules/content/src/store/deliveries.ts:117-131 | a run answering in-flight for a failed row nobody mailed and nobody works on |
| DeliveryRuns.DisplacedRecordIsLost | modules/content/src/store/deliveries.ts:149-157 | a displaced worker's answered record can update nothing |
| EmailPass.TakeTurn | modules/content/src/publish-channel.ts:288-347 | one recipient under interference: the outcome; a delivered one is on record iff its row was not deleted; an owned one is in another claim's hands iff that claim was not given up by the inspection; the exact row when alone |
| EmailPass.VerdictMeans | modules/content/src/publish-channel.ts:350-446 | 'sent' iff every outcome is delivered, already sent or answered in-flight, and some is one of the first two; each failure detail iff its outcomes and not those that outrank it; the count is this pass's deliveries |
| EmailPublish.SendAll | modules/content/src/publish-channel.ts:281-348 | the loop's counters are the counts of its outcomes and with the uncounted ones partition the recipients; nothing is tried after a released claim; each outcome is what the ledger showed iff undisturbed; the exact ledger when alone |
| EmailPublish.PublishEmail | modules/content/src/publish-channel.ts:234-447 | the answer for every case; 'sent' iff nobody is left and someone was delivered, and then everyone is on record or under another claim iff no other worker interfered between the two statements that matter; the failed flag exactly where the source sets it |
| EmailPublish.PublishChannel | modules/content/src/publish-channel.ts:144-214 | 'sent', its status and its event exactly together, and otherwise no event and no 'sent'; without a throw the answer is the verdict on the pass |
| EmailPublish.PublishAgain | modules/content/src/publish-channel.ts:325-347 | a second publish skips the recorded, retries the failed and released, and an unrecorded one only once stale |
| EmailRuns.InOtherHandsIff | modules/content/src/store/deliveries.ts:117-131 | the row test of a turn is, in the ledger protocol's runs, that no claim was given up without a new one since the missed takeover |
| EmailRuns.AnswersAsInRun | modules/content/src/store/deliveries.ts:96-131 | a claim disturbed as a run disturbs it misses the takeover and gets the answer of the run |
| EmailRuns.AudienceIsDistinct | modules/content/src/dispatch.ts:122-128 | the recipients a pass is given are distinct |
| Dispatch.DispatchEmail | modules/content/src/dispatch.ts:251-339 | without a throw an event iff nobody failed or went unrecorded, with the same exact condition for everyone being served; an unconfigured mailer is a failed send |
| Dispatch.Dispatch | modules/content/src/dispatch.ts:153-247 | a post sending or sent is left alone; else success iff the post is found, the email channel if any gave its event, no other channel breaks and the commit holds, with status and all events together; otherwise the failure and its event, or neither iff that commit throws |
| Dispatch.Finish | modules/content/src/dispatch.ts:210-246 | status and events in one transaction, and if there is none the failure in another |
| RecipientList.BuildRecipientList | modules/content/src/dispatch.ts:105-132 | an address is listed iff it is subscribed and some reference has it, through its mailing list or, having none, its group; order and name are those of the first member with it |
| RecipientList.AudienceSelects | modules/content/src/dispatch.ts:100-104 | an order-preserving selection of exactly the first subscribed occurrences, with their names |
| RecipientList.NoDuplicates | modules/content/src/dispatch.ts:122-128 | no address twice and none unsubscribed |
| RecipientList.ReachesEveryone | modules/content/src/dispatch.ts:122-128 | an address is there iff some member has it and it is not unsubscribed |
| RecipientList.FirstNameWins | modules/content/src/dispatch.ts:103 | the first occurrence's name |
| ConsumerSupervisor.RunKeeps | modules/finance/src/consumer-supervisor.ts:112-218 | every run keeps the counter equal to the failures since the last proof plus the attempt under way |
| ConsumerSupervisor.LadderIsBounded | modules/finance/src/consumer-supervisor.ts:140-218 | at most one boot, timer or consumer; attempts within the cap; giving up takes cap - 1 failures since the last proof, or the cap; nothing is silently dropped |
| ConsumerSupervisor.NoHandleLeaks | modules/finance/src/consumer-supervisor.ts:192-208 | over every run each handle opened has died, is live or came after the stop; the closes are exactly the one live at the stop and every late one |
| ConsumerSupervisor.UnretryableEnds | modules/finance/src/consumer-supervisor.ts:174-178 | an unretryable failure ends the process, arms nothing, and nothing follows |
| ConsumerSupervisor.StopIsFinal | modules/finance/src/stop-consumer.ts:10-17 | after the stop no timer is armed, nothing comes to life, everything live has been closed |
| ConsumerSupervisor.GivingUpIsFinal | modules/finance/src/consumer-supervisor.ts:150-161 | nothing starts again after giving up |
| ConsumerSupervisor.DeathRestartsSoon | modules/finance/src/consumer-supervisor.ts:131-147 | a death restarts after 5 s and, if stable, with a fresh count |
| ConsumerSupervisor.StableDeathsNeverEndIff | modules/finance/src/consumer-supervisor.ts:142-150 | any number of stable deaths never ends the ladder iff the cap is at least two |
| ConsumerSupervisor.ColdLadder | modules/finance/src/consumer-supervisor.ts:162-171 | 5, 15, 60, 300 s, and off at the fifth failure |
| RelaySupervisor.RunKeeps | modules/calendar/src/relay-supervisor.ts:91-156 | every run keeps ladder, timer and connection consistent |
| RelaySupervisor.LadderIsBounded | modules/calendar/src/relay-supervisor.ts:96-156 | at most one attempt or timer and one broker; the n-th retry's delay; off only when the whole cap was rejected; otherwise relaying |
| RelaySupervisor.UnretryableEnds | modules/calendar/src/relay-supervisor.ts:113-117 | the process ends iff a failure is unretryable, and then no timer is armed |
| RelaySupervisor.StopIsFinal | modules/calendar/src/relay-supervisor.ts:104-124 | after stop() no timer and no new attempt, and no broker or interval once the caught attempt is over, but for the refusal |
| Shutdown.ExitsOnce | modules/calendar/src/shutdown.ts:154-221 | for every history exactly one exit once a drain settled or the timer fired; 0 iff the drain completed after a successful close and before the timer |
| Shutdown.HangsEndInForcedExit | modules/calendar/src/shutdown.ts:167-176 | from the signal to the exit, while the hook runs too, the timer is armed, and firing it ends a hang in exit(1) |
| Shutdown.SignalsAreIdempotent | modules/calendar/src/shutdown.ts:160-162 | a further signal changes nothing |
| Shutdown.CloseFollowsTheHook | modules/calendar/src/shutdown.ts:181-203 | the close begins when the hook has ended and not before, returned or thrown; hook, close and drain follow one another |
| Shutdown.ThrowingHookChangesNothing | modules/calendar/src/shutdown.ts:184-192 | whatever follows, a thrown hook leads to the same states as a returned one but for the error noted |
| Boot.BootIsBounded | gremion-ui/src/hooks.server.ts:123-308 | at most one attempt and one retry, at most ten attempts, an exit iff one failed for good or ten transiently, and never stuck; the error shows from the first failure to completion, as retryable until the exit |
| Boot.OverIsOver | gremion-ui/src/hooks.server.ts:273-276 | completion and exit are never undone, and nothing is attempted after them |
| OrgUnitMirror.MirrorStore.ApplyOp | modules/finance/src/org-unit-consumer.ts:103-142 | dedup claim and guarded write commit together: the new tables and the outcome of one op |
| OrgUnitMirror.MirrorStore.CopyOrgUnits | modules/finance/scripts/backfill.ts:268-316 | the whole snapshot upserted under the strictly-newer guard, with its row count |
| PoolRegistry.TenantStore.GetEntry | modules/calendar/src/tenant-store.ts:215-223 | a read refreshes the stamp and returns the entry |
| PoolRegistry.TenantStore.EnforcePendingDrainBound | modules/calendar/src/tenant-store.ts:350-364 | the loop ends exactly the overflowing oldest drains and their timers |
| PoolRegistry.TenantStore.DeferDrain | modules/calendar/src/tenant-store.ts:318-335 | a new pending drain with its timer, within the bound |
| PoolRegistry.TenantStore.EvictLruIfFull | modules/calendar/src/tenant-store.ts:530-550 | a full registry defers its entry with the smallest stamp, unless the tenant has one |
| PoolRegistry.TenantStore.FindLru | modules/calendar/src/tenant-store.ts:532-539 | the scan finds the first entry with the smallest stamp |
| PoolRegistry.TenantStore.SetPool | modules/calendar/src/tenant-store.ts:529-569 | evict, defer a displaced pool, store |
| PoolRegistry.TenantStore.DrainPendingNow | modules/calendar/src/tenant-store.ts:372-380 | every pending pool ended, oldest first, no timer of theirs left |
| PoolRegistry.TenantStore.CloseAllPools | modules/calendar/src/tenant-store.ts:407-445 | everything ended under the latch, with true counts of pools and of rejected ends |
| PoolRegistry.TenantStore.EvictTenantPools | modules/calendar/src/tenant-store.ts:580-597 | live and pending pools of the id or slug ended and counted |
| PoolRegistry.TenantStore.SplitLive | modules/calendar/src/tenant-store.ts:584-588 | the first loop separates the matching live entries |
| PoolRegistry.TenantStore.SplitPending | modules/calendar/src/tenant-store.ts:589-594 | the second loop separates the matching pending drains and cancels their timers |
| PoolRegistry.TenantStore.OnDrainTimer | modules/calendar/src/tenant-store.ts:320-328 | the timer ends the pool it captured |
| CatalogBinding.TenantCatalog.AssertCatalogBinding | modules/calendar/src/tenant-store.ts:867-878 | the loop refuses with the first row that is not the pair |
| CatalogBinding.TenantCatalog.ClaimCatalog | modules/calendar/src/tenant-store.ts:890-901 | with other claims at both awaits: returns iff the catalog then holds its own pair; never "did not land" |
| Outbox.OutboxTable.Enqueue | modules/content/src/outbox.ts:48-60 | a fresh pending row |
| Outbox.OutboxTable.FetchDueRows | modules/content/src/outbox.ts:73-91 | the oldest due unlocked rows, none left out below the limit |
| Outbox.OutboxTable.DrainOutbox | modules/content/src/outbox.ts:133-157 | each fetched row attempted once, others untouched, ok + failed = rows fetched, failed = those refused |
| Deliveries.Ledger.ClaimDelivery | modules/content/src/store/deliveries.ts:74-132 | three statements with others in between: what each answer says of the row, an in-flight one included, whose row is what the others last left; exactly so when alone |
| Deliveries.Ledger.MarkSent | modules/content/src/store/deliveries.ts:143-158 | any existing row becomes 'sent' |
| Deliveries.Ledger.RecordDelivered | modules/content/src/store/deliveries.ts:176-200 | recorded iff one of three attempts succeeds, else the claim stays |
| Deliveries.Ledger.MarkFailed | modules/content/src/store/deliveries.ts:210-229 | only the claim of this token fails |
| Deliveries.Ledger.ReleaseClaim | modules/content/src/store/deliveries.ts:251-267 | only the claim of this token is deleted |
| EmailPublish.Post.CommitEmail | modules/content/src/publish-channel.ts:191-200 | status and event together or neither |
| EmailPublish.Post.FlagChannelFailed | modules/content/src/publish-channel.ts:221-230 | a flag that cannot be written changes nothing and hides nothing |
| ConsumerSupervisor.Supervisor.ScheduleNext | modules/finance/src/consumer-supervisor.ts:140-172 | the stable reset, the cap, and one timer with its delay |
| ConsumerSupervisor.Supervisor.Attempt | modules/finance/src/consumer-supervisor.ts:189-192 | an attempt counted and a boot begun |
| ConsumerSupervisor.Supervisor.ClearPending | modules/finance/src/consumer-supervisor.ts:124-129 | an armed timer is cancelled |
| ConsumerSupervisor.Supervisor.OnTimer | modules/finance/src/consumer-supervisor.ts:168-171 | a fired timer is forgotten and an attempt begun |
| ConsumerSupervisor.Supervisor.BootResolved | modules/finance/src/consumer-supervisor.ts:192-209 | a handle retained, or released when it came after the stop |
| ConsumerSupervisor.Supervisor.BootRejected | modules/finance/src/consumer-supervisor.ts:210-217 | the unretryable failure, the stop, the ladder |
| ConsumerSupervisor.Supervisor.OnMidLifeFault | modules/finance/src/consumer-supervisor.ts:174-187 | the handle dropped and a restart on the first step |
| ConsumerSupervisor.Supervisor.StopOrgUnitConsumer | modules/finance/src/stop-consumer.ts:48-61 | mark, cancel, close |
| RelaySupervisor.Supervisor.TeardownRelay | modules/calendar/src/index.ts:165-180 | interval and broker dropped |
| RelaySupervisor.Supervisor.ClearPending | modules/calendar/src/relay-supervisor.ts:96-101 | an armed timer is cancelled |
| RelaySupervisor.Supervisor.Attempt | modules/calendar/src/relay-supervisor.ts:103-108 | no attempt is begun after the stop |
| RelaySupervisor.Supervisor.ConnectResolved | modules/calendar/src/index.ts:185-190 | the broker is set before the stream is bound |
| RelaySupervisor.Supervisor.OnTimer | modules/calendar/src/relay-supervisor.ts:140-143 | a fired timer is forgotten and an attempt begun |
| RelaySupervisor.Supervisor.StartRejected | modules/calendar/src/relay-supervisor.ts:113-144 | the refusal, the teardown, the stop, the cap, the retry |
| RelaySupervisor.Supervisor.BindResolved | modules/calendar/src/relay-supervisor.ts:107-112 | the interval armed, and torn down after a stop |
| RelaySupervisor.Supervisor.Stop | modules/calendar/src/relay-supervisor.ts:149-153 | stop, cancel, tear down |
| Shutdown.Handler.OnSignal | modules/calendar/src/shutdown.ts:160-192 | the first signal arms the timer before the hook runs |
| Shutdown.Handler.OnHookEnded | modules/calendar/src/shutdown.ts:181-194 | the close begins whether the hook returned or threw |
| Shutdown.Handler.ExitOnce | modules/calendar/src/shutdown.ts:154-158 | only the first exit is made |
| Shutdown.Handler.OnClosed | modules/calendar/src/shutdown.ts:194-203 | the drain begins whether or not the close failed |
| Shutdown.Handler.OnForced | modules/calendar/src/shutdown.ts:170-176 | the forced exit |
| Shutdown.Handler.OnDrained | modules/calendar/src/shutdown.ts:203-218 | the timer cleared and the exit code chosen |
| Boot.BootRuntime.Boot | gremion-ui/src/hooks.server.ts:140-146 | a memoized attempt |
| Boot.BootRuntime.ScheduleBootRetry | gremion-ui/src/hooks.server.ts:123-130 | one retry at a time |
| Boot.BootRuntime.OnTimer | gremion-ui/src/hooks.server.ts:126-129 | the retry flag cleared and boot asked for again |
| Boot.BootRuntime.Settle | gremion-ui/src/hooks.server.ts:273-305 | completion, retry or exit |

## Left out

- The copies of these modules in the other leaves: the same design, modelled once each.
- Postgres, NATS, SMTP, Keycloak and HTTP themselves: a statement is a step that succeeds, fails or throws.
- Log lines, tracing spans, `last_error` text, and the throttled eviction and overflow warnings.
- The slug and uuid patterns, URL parsing, link-base checks and environment reading, including the parsing of `SHUTDOWN_TIMEOUT_MS`: a flag says whether they accept.
- The removal of a catalog row by an operator: the catalog results hold while no row is deleted, and evictTenantPools is modelled.
- The migration manifest, its hashes and ensureTenantDb: one await that succeeds or fails.
- The control pool inside StoreFor is only its generation; its opening and ending are ControlInit's and CloseAllPools'.
- storeFor, claimCatalog's interleavings and ensureControlDb are protocols on values, since a method cannot be interrupted at an await; the code between two awaits is one step.
- StoreFor.NoPoolLeaks: a pool whose migration fails counts as ended when end() is called, as the source swallows that end's rejection.
- The deliveries route without a claim token (`modules/content/src/store/deliveries.ts:25-28`): a caller that predates the token can fail a live claim, so the at-most-once bound covers token-carrying callers.
- DeliveryRuns.AtMostOncePlusTakeovers: counts sends the transport reported as accepted, and takes claim times to be strictly increasing, as the token is the time.
- DeliveryRuns.InFlightHasAClaimIff: a claim whose worker died is still a claim, until it is stale; the ledger cannot tell.
- Shutdown.HangsEndInForcedExit: the timer is unref'd (`modules/calendar/src/shutdown.ts:179`), so when nothing else holds the event loop the process ends by itself before it fires. It also says the timer is armed while the hook runs; a hook that never yields keeps the event loop, and so the timer, from running.
- Deliveries.Ledger.RecordDelivered: an update that is applied but unanswered is an event of DeliveryRuns, not of the class.
- The portal and Instagram channels: calls that succeed or throw.
- Warnings and recipient names in a publish result: wording only.
- injectUnsubscribeFooter, the scheduler, and the weekly purge: short and settled by reading.
- copyTable, the sequence fixes and the value conversions of the backfill: plumbing around one insert per row.
- The waiting inside one boot attempt (waitForDbReady) and the boot hooks: one outcome per attempt.
- The relay ticks and the mid-life loss of the relay's connection: the supervisor has no branch for it.
- Test-only reset helpers and the beforeExit hook, which is one more drainPendingNow.
