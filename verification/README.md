# Verified model of the billing ledger and the tenant mover

A Dafny 4.11 model of the two subsystems of this repository that carry its hardest guarantees, with
three smaller algorithms, and proofs of what they promise. `dafny verify dfyconfig.toml` checks all of it.

**The billing ledger and its outbox** (`scripts/ops/azure_billing_*.py`). `LedgerTypes`, `Calendar`,
`Decimals`, `LedgerAdmission`, `LedgerTotals` and `LedgerManifest` hold the data and the admission loops of
`evaluate`; `LedgerReplay` the day-by-day streaks; `LedgerOutbox` the sequences and the outbox; `Ledger` puts
them together; `LedgerOrdering`, `LedgerHistory` and `LedgerStored` prove what holds over permutations,
repetitions, month changes and whole chains of evaluations, `LedgerAcceptance` and `LedgerMeaning` say in
terms of delivered rows, stored evaluations and the clock what is accepted and what comes out, and
`LedgerWitness` proves what a small concrete ledger evaluates to. `Dispatch` is the protocol around the
durable document: a state machine whose steps are the reads, conditional writes, lookups and sends of
`publish` and `dispatch_one`, taken by any number of workers in any order. A worker that takes no further step
has crashed; a write may take effect although its worker never learns of it. `DispatchSafety` carries one
invariant through every step and draws the safety statements from it; `DispatchWorker` has `publish` and
`dispatch_one` as the code writes them and shows that their calls are those steps; `DispatchMeaning` says in
dates and times what is sent and what refused. `BlobStore` is the store beneath (conditional PUT, read-back
when the outcome is unknown, sequence floor) and the lineage of admissions; `StoreMeaning` which objects it
reads; `DispatchReconcile` is the protocol over that store, where requests land on their own and a read-back
of equal content counts as success, and relates it to `Dispatch`, with `DispatchOwners` for whose claim an
entry is; `ReconcileStore` shows that the store's calls are its events; `PublicationRun` is one whole run of
the pipeline. `DispatchWitness`, `ReconcileWitness` and `PublicationWitness` are concrete runs. `Ingestion`
lists an export's parts and reconciles their rows, `IngestionRun` compares manifest, listing and fetched
parts; `IngestionMeaning` puts both in terms of rows.

**The tenant mover** (`scripts/migration/shared-tenant-*.ts`). `TenantTables` is the vocabulary: a database is
a map from table to a map from primary key to row, a row a sequence of cells that are NULL or text.
`TenantSource` and `TenantExport` are the export worklist; `FrameEncoding` the byte framing that digests are
computed over; `TenantPublication`, `TenantPublicationTheorems` and `TenantPublicationClosure` staging and
detaching; `TenantTransform` the in-place rewriting of rows and `TenantClosure` the check before the import;
`TenantImport`, `TenantImportRun`, `TenantImportTransaction` and `TenantImportTheorems` the multi-pass
insertion, its patches and its read-back; `ObjectCopy` the create-only copy and the fenced removal.
`TenantMeaning`, `TenantPublicationMeaning`, `TenantImportMeaning` and `ObjectMeaning` say in terms of owners,
rows, cells and objects what is exported, prepared, rewritten, imported, copied and removed.

**Smaller algorithms.** `DownloadStream` is the authorized download stream and the verified snapshot before
it; `EvidenceSpans` the binding and overlap check of finance evidence, `EvidenceMeaning` what it accepts.
`Common` and `Strings` hold shared helpers.

Code that works step by step is written as methods with loops, or as classes where an object keeps state
(`Store`, `Blob`, `BlobCASStore`, `PublicationStore`, `Exporter`, `ObjectStore`, `DeliveryStream`). Each is proved
against a specification, and the results below are proved about that specification.

Conventions. A SHA-256 digest is a constructor around the digested value, so equal digests mean equal
contents. An exception is a `None`, `Blocked`, `Rejected`, `Refused` or `Failed` result; a failed transaction
returns the database it started from. Amounts are integers in units of 10^-18 USD together with the form they are
written in, times are whole seconds, a day is its ordinal, a column is its position in its table.

Seven results depend on conditions. For each a lemma gives a concrete input or run that shows what happens
without them:

- A publication keeps its references closed exactly when no reference that stays loses a column it refers to
  (`TenantPublicationClosure.PublicationClosedExactly`). The code checks references to staged rows only; a
  concrete request shows that this alone is not enough.
- A transition is swallowed by the duplicate-id guard exactly when its subject's next sequence was used before,
  under the same policy, for the same value (`LedgerHistory.SwallowedExactly`). On chains this cannot happen while
  the clock does not go back and no service is left out and listed again; `LedgerWitness` has a chain for each.
- The ledger is frozen until a journal entry leaves `claimed` and `unknown`, not until every send call has
  returned: another worker may take over after the lease and resolve the entry first
  (`DispatchWitness.LedgerMovesDuringSend`).
- Over the real store, sends stay within attempts if no two dispatch calls share event, owner and second, as
  calls with different owners never do (`DispatchReconcile.ReconciledSendsNeverExceedAttempts`); publishes may
  repeat. Two calls that share all three can both take one write for theirs and both send
  (`ReconcileWitness.SameCallTwiceSendsTwice`).
- A run's admissions match its ledger exactly when every period it retains lies in the windows of both of its
  clock readings or in neither (`PublicationRun.AdmissionsStayInStep`). A run between whose readings a month ends
  is refused (`PublicationWitness.MonthEndRefuses`).
- Linking identities keeps a reference with its user exactly when both ends are relinked to the same values
  (`TenantTransform.ReferenceStaysExactly`). The code maps a column once for each key to User that contains it,
  so with chained links a reference can move (`TenantTransform.ChainedLinksMoveAReference`).
- The import commits exactly when the rows to insert have no dependency cycle and no patch sets a column twice
  (`TenantImportTheorems.CommitsExactlyWhenAcyclic`, `TenantImportTheorems.SharedColumnIsRefused`).

## Model

| member | source | states |
|---|---|---|
| DispatchSafety.ReachableIsSound | scripts/ops/azure_billing_pipeline.py:127-265 | after any list of actions by any number of workers - every interleaving, crash, lost answer and late write - the protocol invariant holds |
| DispatchSafety.SendsNeverExceedAttempts | scripts/ops/azure_billing_pipeline.py:206-265 | in every reachable world the number of sends ever started for an event is at most its durable attempts counter, which is at most 100 |
| DispatchSafety.AttemptsNeverDecrease | scripts/ops/azure_billing_pipeline.py:229-258 | continuing a run never lowers an event's durable attempts counter |
| DispatchSafety.RetiredMeansNeverSent | scripts/ops/azure_billing_pipeline.py:87-90 | a retired_no_send entry in a reachable document means that no send was ever started for the event and no worker holds a reservation for it |
| DispatchSafety.RetirementFencesOlderWorkers | scripts/ops/azure_billing_pipeline.py:242-258 | while an entry is retired, no single step of any worker, however old the ETag it holds, starts or reserves a send for it |
| DispatchSafety.OpenEntriesAreEligible | scripts/ops/azure_billing_pipeline.py:97-105 | every claimed or unknown entry of every reachable document is eligible in that document's own ledger state |
| DispatchSafety.LedgerFrozenWhileOpen | scripts/ops/azure_billing_pipeline.py:134-157 | over any run during which an entry stays claimed or unknown, state, commit time and commit sequence do not change |
| DispatchSafety.ReservationLandsOnLedgerRead | scripts/ops/azure_billing_pipeline.py:255-259 | a reservation write takes effect only on the very document its claim produced: it adds one attempt, leaves the commit alone, and the event is eligible and fresh there |
| DispatchSafety.SendsCarryEligibleEvents | scripts/ops/azure_billing_pipeline.py:218-265 | every send ever started carried the event that was eligible and fresh in the ledger it was reserved under; until a later publish that is still the durable ledger |
| DispatchMeaning.SendsAreDeliverable | scripts/ops/azure_billing_pipeline.py:97-124 | in dates and times: for every send of every reachable world the event was pending with its subject's present value and sequence, its date lay between the first of the month before and the day of the call, its ledger was committed at most freshnessHours before, and if it reports an amount its month's export was no older |
| DispatchSafety.SendsFollowAnAbsentLookup | scripts/ops/azure_billing_pipeline.py:235-241 | no send is blind: before every send ever started the destination was asked about that event under the same claim and answered absent |
| DispatchSafety.JournalIsMonotone | scripts/ops/azure_billing_pipeline.py:152-156 | journal keys are never dropped, an acknowledged entry never changes again (receipt included), and the commit sequence never goes down |
| DispatchSafety.ReceiptsComeFromTheDestination | scripts/ops/azure_billing_pipeline.py:160-203 | an entry has a receipt exactly when it is acknowledged, and each receipt was returned by a destination lookup for that same event id |
| DispatchSafety.DurableDocumentsAreValid | scripts/ops/azure_billing_pipeline.py:55-94 | every document the protocol makes durable passes validation, and every pending event in its outbox is eligible |
| DispatchSafety.ExpiredClaimsCanBeRecovered | scripts/ops/azure_billing_pipeline.py:177-203 | whatever left an entry open, once its lease has expired a lone dispatcher whose lookups are acknowledged closes it with that receipt, without a send and without touching the ledger |
| DispatchWorker.DispatchOne | scripts/ops/azure_billing_pipeline.py:206-265 | one call reports and leaves in the store exactly what checks, claim, lookup, retirement, reservation and record writes give, whatever becomes of each write and call; it sends at most once, exactly when claim and attempt were written, the event is sendable and the lookup was answered absent; its steps are protocol steps |
| DispatchWorker.AnsweredCallDelivers | scripts/ops/azure_billing_pipeline.py:223-265 | when the event may be claimed, is sendable, has an attempt left and every call answers, the call returns acknowledged after exactly one send, and the entry holds the receipt of the second lookup; the rest of the document is unchanged |
| DispatchMeaning.DispatchRefuses | scripts/ops/azure_billing_pipeline.py:218-234 | a call reports ineligible exactly when the event has no entry and is not current or one of those dates and times is out of range; a refused call - that, a full journal, an acknowledged or still leased entry, or a retired one not worth reviving - writes nothing, sends nothing and says which it was |
| DispatchMeaning.DispatchClaims | scripts/ops/azure_billing_pipeline.py:223-234 | any other call claims the event: for its own owner, for 120 seconds, with the attempts there were, changing nothing else |
| DispatchMeaning.DispatchSendsDeliverable | scripts/ops/azure_billing_pipeline.py:240-258 | a call that sends does so for an event in range at the time of the call |
| DispatchMeaning.DurableEntriesAre | scripts/ops/azure_billing_pipeline.py:77-92 | every entry of every reachable document has at most 100 attempts, a receipt exactly if acknowledged, and a retirement only if it was never attempted |
| DispatchWorker.AnsweredCallRetires | scripts/ops/azure_billing_pipeline.py:242-250 | a claim never sent whose event is no longer sendable ends retired at the current commit when the destination knows nothing of it, without a send |
| DispatchWorker.KnownDeliveryIsRecorded | scripts/ops/azure_billing_pipeline.py:235-238 | an event the destination already acknowledges is recorded with its receipt, without a send |
| DispatchWorker.AfterClaim | scripts/ops/azure_billing_pipeline.py:235-265 | after a claim the lookup decides what the entry becomes: acknowledged and unknown are recorded, absent leads to retirement, to a record or to one reserved send, exactly as the freshness and the attempts of the claimed document say |
| DispatchWorker.ReserveAndSend | scripts/ops/azure_billing_pipeline.py:255-265 | the destination is called exactly when the attempt was written and heard of: directly before the send the store holds the document with the attempt; report and entry are then those of the evidence recorded |
| DispatchWorker.SendAndRecord | scripts/ops/azure_billing_pipeline.py:258-265 | the first step is the one send; what is recorded afterwards is what the second lookup says, or that nothing is known |
| DispatchWorker.RecordEvidence | scripts/ops/azure_billing_pipeline.py:177-203 | the first of at most three writes not lost to another writer decides: the evidence is recorded with its receipt, or nothing changes; a resolved entry is reported as it is, one taken over is left alone; a status reported is the one the entry has |
| DispatchWorker.PublishOnce | scripts/ops/azure_billing_pipeline.py:127-157 | success is reported exactly when no delivery is open, the evaluation accepts, its result validates and the write is heard of; the evaluated state is then durable under the next sequence with the journal carried over, and otherwise nothing changed unless the write landed unheard |
| DispatchWorker.CallsAreSafe | scripts/ops/azure_billing_pipeline.py:206-265 | any calls of these methods on a store that starts empty keep sends within durable attempts |
| ReconcileStore.WriteAsEvents | scripts/ops/azure_billing_runtime.py:101-134 | one write through the blob store, whatever becomes of it and whatever others write meanwhile, is a list of events of the protocol over the real store: afterwards its world holds what the blob holds, and its worker goes on as the result says |
| DispatchReconcile.SuccessMeansApplied | scripts/ops/azure_billing_runtime.py:127-134 | a dispatcher that goes on after reading its document back - to look up or to send - wrote that document itself, unless two calls share event, owner and time |
| DispatchReconcile.EventIsStepOrNone | scripts/ops/azure_billing_runtime.py:101-140 | each event over the real store - a request, its arrival however late, its answer, a read-back, a worker giving up - is one step of the protocol or none, and keeps the protocol's invariants and who owns which claim |
| DispatchReconcile.ReconciledRunsAreRuns | scripts/ops/azure_billing_runtime.py:101-140 | every run over the real store in which no two dispatch calls share event, owner and time - publishes are free - is, as the protocol sees it, a run of the protocol |
| DispatchReconcile.ReconciledSendsNeverExceedAttempts | scripts/ops/azure_billing_pipeline.py:206-265 | so over the real store, too, sends never exceed durable attempts, as long as no two dispatch calls share event, owner and time |
| DispatchOwners.UnappliedIsNotThere | scripts/ops/azure_billing_pipeline.py:223-258 | while calls differ, the document of a claim or a reservation that was not applied does not stand in the store, whoever wrote what is there |
| DispatchOwners.ApplyKeepsOwn | scripts/ops/azure_billing_pipeline.py:127-265 | every action of any worker keeps this: each journal entry carries owner and lease of a call that was begun, a call that has not claimed has no entry, and nobody but its worker reserves a send under its claim |
| ReconcileWitness.SameCallTwiceSendsTwice | scripts/ops/azure_billing_runtime.py:127-134 | without that condition it fails: in a run whose two calls share event, owner and time both workers take one write for theirs, and both send although one attempt was written |
| DispatchWitness.LedgerMovesDuringSend | scripts/ops/azure_billing_pipeline.py:134-157 | the ledger is not frozen until every send has returned: a reachable run in which a worker still awaits its send, a second resolves the entry after the lease, and a publish makes the next commit durable |
| Ledger.EvaluateLedger | scripts/ops/azure_billing_ledger.py:249-493 | the admission, replay and outbox loops compute the specified transformer, reject exactly what it rejects, and list the new intents day by day, services in code-point order |
| LedgerAcceptance.AcceptedExactly | scripts/ops/azure_billing_ledger.py:249-341 | an evaluation is accepted exactly when policy and stored state are sound, the names agree, the clock leaves room for a window, at most two deliveries are of today's month or the one before with sound days, records and revisions, at most 25,000 records no two of which share an id, and what the state hands over of the eve is sound - each of these field by field |
| LedgerAcceptance.StateKeeps | scripts/ops/azure_billing_ledger.py:271-328 | an accepted evaluation remembers each delivery with revision, export time and digests, of the others those whose month is today's or the one before, and hands on the eve's evaluations under the same policy |
| LedgerAcceptance.DigestsTell | scripts/ops/azure_billing_ledger.py:303-312 | two deliveries of a period have equal content digests exactly when header, days and rows agree, whatever their order and mapping, and equal mapping digests exactly when the rows agree in their services too |
| LedgerMeaning.DeliveredDayIsEvaluated | scripts/ops/azure_billing_ledger.py:389-441 | for every delivered day and configured service, with the service's rows and the sum of their charges: the class is unmatched, zero, below threshold or qualifying as rows and sum say, and each basis qualifies exactly when the sum reaches the threshold, the export is complete and at most freshnessHours old, the day finalized, and 72 hours past its end reached, as that basis asks |
| LedgerMeaning.MissingDayIsUnknown | scripts/ops/azure_billing_ledger.py:395-440 | a day of the window that was not delivered has no amount, qualifies on no basis and is not below threshold either |
| LedgerMeaning.MinimumCountsServices | scripts/ops/azure_billing_ledger.py:442-452 | the combined evaluation counts on each basis the configured services that qualify that day, and qualifies exactly from the minimum on |
| LedgerMeaning.CountsRunOn | scripts/ops/azure_billing_ledger.py:427-450 | a count is 0 on a day that does not qualify and one more than the day before otherwise; the first day of the window continues what the previous state hands over for that track and basis, under the same policy |
| LedgerMeaning.SequencesMove | scripts/ops/azure_billing_ledger.py:479-486 | a subject's sequence stays exactly when its value and the policy are the ones known before, and otherwise grows by one, from none to 1 |
| LedgerMeaning.OldEventsStay | scripts/ops/azure_billing_ledger.py:454-494 | an event of the outbox is kept as it was but for its status: it is superseded exactly when its subject left the window or a new announcement of the subject was due |
| LedgerMeaning.NewEventsAre | scripts/ops/azure_billing_ledger.py:471-490 | a new event is of a subject whose value is new and worth announcing - it qualifies, is below threshold, or something of it was pending or qualified - carries value, predecessor and next sequence, and is a correction, below-threshold or qualification event as these say |
| LedgerMeaning.FingerprintTells | scripts/ops/azure_billing_ledger.py:253-256 | two policies have the same fingerprint exactly when they agree in every field and name the same services |
| Ledger.EvaluationOrderIgnoresListing | scripts/ops/azure_billing_ledger.py:125-142 | the order in which a policy lists its services has no effect on the order of evaluation |
| Ledger.CheckSeeds | scripts/ops/azure_billing_ledger.py:175-189 | the seed checks accept exactly the checkpoints whose counts are positive iff qualified, dated on the boundary day and no larger than its ordinal |
| LedgerReplay.StreakIsMaximalRun | scripts/ops/azure_billing_ledger.py:427-450 | a count equals the length of the maximal qualifying run ending on that day, extended by the carried seed when the run reaches back to the window's start |
| LedgerReplay.StreakBounds | scripts/ops/azure_billing_ledger.py:427-428 | a count is positive exactly when its day qualifies and is at most the seed plus the days replayed |
| LedgerReplay.StreakContinues | scripts/ops/azure_billing_ledger.py:378-388 | a replay that starts later, seeded with the longer replay's count on the eve, gives the longer replay's counts on days that qualify alike |
| LedgerReplay.EvaluationsAt | scripts/ops/azure_billing_ledger.py:386-453 | the replay evaluates each configured service and the combined minimum on every day of the window and nothing else |
| LedgerReplay.ReplayService | scripts/ops/azure_billing_ledger.py:394-441 | one service on one day: blockers, amount class, three bases and three running counts come out as specified from the counts of the previous day |
| LedgerReplay.ReplayServices | scripts/ops/azure_billing_ledger.py:393-442 | the inner loop over services yields each service's entry and, per basis, the cardinality of the set of qualifying services |
| LedgerReplay.ReplaySimultaneous | scripts/ops/azure_billing_ledger.py:442-452 | the combined entry of a day counts simultaneous days from the previous day's counts |
| LedgerReplay.ReplayWindow | scripts/ops/azure_billing_ledger.py:378-453 | the day loop from the carried seeds produces exactly the specified evaluations of the window |
| LedgerOutbox.ProcessSubject | scripts/ops/azure_billing_ledger.py:463-490 | one subject's loop body supersedes its pending events, advances its sequence and appends at most one event, under an id not used before |
| LedgerOutbox.ProcessedNext | scripts/ops/azure_billing_ledger.py:475-490 | processing one more subject after a set of processed subjects gives the outbox of the larger set, so the order of subjects does not matter |
| LedgerOutbox.AdvanceOutbox | scripts/ops/azure_billing_ledger.py:454-492 | the outbox loop, in any order of subjects, yields the specified sequences and outbox, and the intents in that order |
| LedgerHistory.ReachableIsHealthy | scripts/ops/azure_billing_ledger.py:249-493 | after any chain of evaluations with any manifests, policies and clocks, digests, dates and counts of all entries are consistent and every pending event is eligible |
| LedgerHistory.EvaluateKeepsHealthy | scripts/ops/azure_billing_ledger.py:454-492 | one accepted evaluation of a healthy state gives a healthy state |
| LedgerHistory.AtMostOnePendingEver | scripts/ops/azure_billing_ledger.py:460-492 | after any chain of evaluations each subject has at most one pending event, and that event matches the current sequence, value and policy |
| LedgerHistory.CheckpointNeverRejected | scripts/ops/azure_billing_ledger.py:160-189 | a checkpoint taken from any state a chain can reach passes every seed check, under any policy and clock |
| LedgerHistory.EvaluateIsIdempotent | scripts/ops/azure_billing_ledger.py:249-493 | re-running evaluate on its own accepted output with the same inputs returns the identical state, checkpoint, sequences and outbox included, and announces nothing |
| LedgerHistory.RolloverKeepsCounts | scripts/ops/azure_billing_ledger.py:378-388 | after a one-month rollover under the same policy the shorter window reports the counts of a replay over the longer one, wherever the days qualify alike |
| LedgerHistory.EvaluateIgnoresOrder | scripts/ops/azure_billing_ledger.py:300-328 | permuting days within a snapshot or records within a day gives the same acceptance and the same resulting state |
| LedgerHistory.SwallowedExactly | scripts/ops/azure_billing_ledger.py:463-490 | in a healthy state a transition ends without a pending event if and only if the outbox holds an event of that subject under this policy, the sequence that comes next and this very value |
| LedgerHistory.UnusedSequencesAnnounceEverything | scripts/ops/azure_billing_ledger.py:463-490 | if no event issued under this policy for a subject to be evaluated has the sequence its subject gets next, every transition is announced, whatever the manifest |
| LedgerHistory.GuardNeverSuppresses | scripts/ops/azure_billing_ledger.py:479-490 | if all issued ids lie behind the current sequences and the clock has not gone back, next sequences are unused |
| LedgerHistory.SteadyChainsAnnounceEverything | scripts/ops/azure_billing_ledger.py:454-490 | on every chain with a non-decreasing clock on which no service is left out and listed again, each transition of the next evaluation ends with a pending event; services may be added, and dropped for good |
| LedgerHistory.RejectedRunsLeaveNoTrace | scripts/ops/azure_billing_ledger.py:249-493 | a chain's state is that of its accepted evaluations alone |
| LedgerWitness.ClockSetBackSwallows | scripts/ops/azure_billing_ledger.py:454-490 | a clock set back does swallow a transition: in a concrete chain of three deliveries a qualifying subject is announced, dropped, evaluated again as a qualifying transition, and ends with no pending event |
| LedgerWitness.ServiceLeftOutSwallows | scripts/ops/azure_billing_ledger.py:454-490 | so does leaving a service out of the policy for one evaluation |
| LedgerStored.ResultAccepted | scripts/ops/azure_billing_ledger.py:192-246 | while no sequence has reached a million, an accepted evaluation's state passes every check of the next read: at most two periods, revisions and sequences in range, a checkpoint of at most 65 entries |
| LedgerStored.ReachableIsAccepted | scripts/ops/azure_billing_ledger.py:192-246 | the state after any chain of fewer than a million evaluations can be read back |
| LedgerOrdering.OrderHasNoEffect | scripts/ops/azure_billing_ledger.py:303-377 | the same days and rows in another order: same decision, same admitted days and totals, same snapshot marks and hashes |
| LedgerOrdering.RemappingKeepsContentHash | scripts/ops/azure_billing_ledger.py:306-312 | re-assigning service ids on the same rows leaves the content hash unchanged |
| LedgerOrdering.ChangedRowConflicts | scripts/ops/azure_billing_ledger.py:303-324 | any other change to one row of a period already seen - an amount written with another number of decimals included - is refused under the same revision |
| LedgerAdmission.TotalPermutes | scripts/ops/azure_billing_ledger.py:342-362 | a service's total, row count and nonzero flag do not depend on the order of a day's rows |
| LedgerAdmission.ReplayWindowFits | scripts/ops/azure_billing_ledger.py:267-270 | the window guard never rejects: two calendar months are at most 62 days |
| Calendar.MonthsAreGregorian | scripts/ops/azure_billing_ledger.py:267-269 | the first day of every month, counted month by month, has the ordinal of the proleptic Gregorian calendar in closed form |
| LedgerManifest.AdmitManifest | scripts/ops/azure_billing_ledger.py:271-377 | the admission loops accept exactly the admissible manifests - distinct periods, snapshot ids, dates and record ids, revisions in order, at most 25,000 rows - and return the days and marks used later, digests over the amounts as written |
| LedgerManifest.AdmitDays | scripts/ops/azure_billing_ledger.py:329-377 | the loop over one snapshot's days accepts exactly admissible days given the rows already seen, and keeps the set of record ids and the row count exact |
| LedgerTotals.TotalRecords | scripts/ops/azure_billing_ledger.py:342-377 | the loop over one day's records accepts exactly fresh, fitting records and returns exact totals and views although every sum is rounded to 80 digits |
| LedgerTotals.MoneyConserved | scripts/ops/azure_billing_ledger.py:358-372 | on every date provider totals, service-name totals and combined totals are equal, and equal mapped service totals plus unallocated totals |
| Decimals.AddIsExact | scripts/ops/azure_billing_ledger.py:343-346 | in a context of 80 digits no addition rounds while fewer than 25,000 amounts of 18+18 digits have been added |
| Decimals.RoundsToNearest | scripts/ops/azure_billing_ledger.py:345-346 | where a sum does have more than 80 digits, the context gives the nearest number of 80 digits times a power of ten, the even one of two; with fewer it changes nothing |
| Decimals.UnitIsLeast | scripts/ops/azure_billing_ledger.py:345-346 | that power of ten is the least that leaves at most 80 digits |
| Decimals.PlainForm | scripts/ops/azure_billing_ledger.py:71-75 | the plain text of an amount has the fewest decimal places it can be written with, and zero has no minus sign |
| BlobStore.BlobCASStore.ReadOuter | scripts/ops/azure_billing_runtime.py:84-95 | a read returns the blob's current object only if it validates against the sequence floor, raises the floor to it and caches exactly it; an empty blob is accepted only with an unused first-run permit |
| StoreMeaning.ReadableExactly | scripts/ops/azure_billing_runtime.py:35-57 | a stored object passes validation exactly when generation, subscription, sequence floor, ledger document and one admission for each of at most two snapshots are what they must be, field by field |
| BlobStore.BlobCASStore.WriteOuter | scripts/ops/azure_billing_runtime.py:101-125 | an answered write succeeds exactly when it was applied; an unanswered one is reported as successful exactly when the blob then holds the intended object; an applied write extends the history once under the expected ETag, a lost one stays under way, the floor never falls, validity of all objects is kept, the permit is used at most once, and what the store has seen last is the written object, the one it read back, or what it was |
| BlobStore.OutcomeTellsTheTruth | scripts/ops/azure_billing_runtime.py:101-134 | success comes with the tag that now holds exactly the intended object, conflict means the write was not applied, and a write of new content reported as successful was applied |
| BlobStore.Blob.Arrive | scripts/ops/azure_billing_runtime.py:101-125 | a lost request may arrive at any later time, and then takes effect only if what it expects is still there |
| BlobStore.BlobCASStore.Reconcile | scripts/ops/azure_billing_runtime.py:127-134 | after an uncertain write, success is reported exactly when the read-back answers and the blob holds exactly the intended object |
| BlobStore.BlobCASStore.CompareAndSwap | scripts/ops/azure_billing_runtime.py:136-140 | a journal write keeps admissions and generation and needs a cached read; its result, whether it was applied and what the blob then holds are exactly those of that write |
| BlobStore.AdmitCaptures | scripts/ops/azure_billing_runtime.py:196-225 | the loop accepts exactly captures of distinct periods in the window with authority sequences of 1 to a million of which each has no retained record, or repeats identity, digest and sequence of its record under the same authority, or is new under that authority with a higher sequence; the records then hold the captures' fields with revision 1, the same or the next, snapshots and retained records likewise; no lineage goes back |
| BlobStore.AdmissionsFollowMarks | scripts/ops/azure_billing_runtime.py:44-57 | admissions and the marks of the ledger written with them match if and only if every period kept, not delivered, lies in the windows of both clock readings of the run or in neither |
| PublicationRun.PublicationStore.CompareAndSwap | scripts/ops/azure_billing_runtime.py:143-157 | ledger and admissions are written as one object, only on the tag they were read under and only with the retention proof; result, effect and blob are then exactly those of that write |
| PublicationRun.PrepareDocument | scripts/ops/azure_billing_pipeline.py:127-157 | publish on a bound store has a document to write exactly when the base is valid without an open delivery and the evaluation gives a valid next document |
| PublicationRun.Compose | scripts/ops/azure_billing_runtime.py:256-273 | the object made from the captures and the object that was read is the only one the run may write, and may be written exactly if it passes validation; where nothing is made, nothing may be written |
| PublicationRun.RunOnce | scripts/ops/azure_billing_runtime.py:239-277 | whatever a run writes lies directly on the object it read, carries the admitted captures and the ledger evaluated from them, and passed validation; undisturbed, it writes exactly when there is such an object, and otherwise leaves the blob as it was |
| PublicationRun.WritableExactly | scripts/ops/azure_billing_runtime.py:239-277 | a run may write an object exactly when its one or two captures are of different periods of the window and each has no retained record, repeats its record, or is newer under the record's authority; the object then holds exactly their records with revision 1, the same or the next, the retained ones, and the ledger evaluated from their snapshots on an undisturbed base |
| PublicationRun.DocumentIs | scripts/ops/azure_billing_pipeline.py:134-157 | the ledger a run writes is evaluated from the state that was read, or from none, and carries its time, its policy's freshness limit, the next sequence and every journal entry as it was |
| PublicationRun.AdmissionsStayInStep | scripts/ops/azure_billing_runtime.py:256-274 | what a run would write passes the admission check exactly when every period it retains lies in the windows of both its clock readings or in neither |
| PublicationWitness.MonthEndRefuses | scripts/ops/azure_billing_runtime.py:256-274 | a concrete run in which April ends between the two readings comes up with a valid ledger without March while March is still admitted, and may write nothing; with both readings in April it may write |
| PublicationWitness.RunTwice | scripts/ops/azure_billing_runtime.py:239-277 | the same as two runs on a new store: the second writes if no month ends between its readings, and leaves the store as it was if one does |
| Ingestion.Inventory | scripts/ops/azure_billing_ingestion.py:65-91 | the paging loop accepts exactly listings that end within 64 pages with scoped, unrepeated parts and unrepeated tokens, and returns every listed part |
| Ingestion.AddItems | scripts/ops/azure_billing_ingestion.py:76-83 | a page's items are added exactly when all are scoped, new and within the part limit |
| IngestionRun.CheckManifest | scripts/ops/azure_billing_ingestion.py:156-171 | a manifest is accepted exactly when its parts are scoped .csv files with distinct names, as many as declared, and sizes and rows add up to its totals |
| IngestionRun.FetchParts | scripts/ops/azure_billing_ingestion.py:173-184 | the parts are fetched in the order of their names, each exactly as described and listed; the byte total cannot differ from the manifest's |
| IngestionRun.IngestRun | scripts/ops/azure_billing_ingestion.py:92-215 | a run is accepted exactly when manifest, listing and fetched parts agree and the rows fit; totals and days are then those of all rows in the order of the part names |
| IngestionRun.RecordsFitLedger | scripts/ops/azure_billing_ingestion.py:189-210 | every record of an accepted run satisfies the ledger's own checks of a record |
| Ingestion.Ingest | scripts/ops/azure_billing_ingestion.py:175-215 | the parts' rows are accepted exactly when names, counts and rows fit; the totals are then the exact sums over all rows, and the final comparison of money cannot fail |
| IngestionMeaning.IngestibleExactly | scripts/ops/azure_billing_ingestion.py:175-215 | parts are accepted exactly when their names differ, each has as many rows as declared, all rows are in US dollars, of the run's subscription and dates and of amounts in range, and there are as many as expected, at most 25,000 |
| IngestionMeaning.IngestedMeans | scripts/ops/azure_billing_ingestion.py:196-215 | raw, mapped and unallocated totals are the sums of the rows' own amounts, all of them, those whose key the run maps and the others; every record holds its row's amount, mapped service, provider and name |
| IngestionMeaning.ManifestBelongsExactly | scripts/ops/azure_billing_ingestion.py:156-171 | a manifest is accepted exactly when its 1 to 64 parts are as many as declared, distinct .csv files below the run's prefix of at most 25,000 rows each, and bytes and rows add up to the declared ones |
| IngestionMeaning.RunMeans | scripts/ops/azure_billing_ingestion.py:92-184 | the parts of an accepted run are the described ones and no others are listed; each was fetched with the listed hash and the described size |
| Ingestion.IngestPart | scripts/ops/azure_billing_ingestion.py:178-212 | one part is accepted exactly when its rows fit and their number is the declared one; days and totals grow by exactly its rows |
| Ingestion.AddRow | scripts/ops/azure_billing_ingestion.py:196-206 | adding a row in the 80-digit context keeps raw, mapped and unallocated totals exact and appends the record to its day |
| Ingestion.RawIsMappedPlusUnallocated | scripts/ops/azure_billing_ingestion.py:196-215 | the raw total always equals mapped plus unallocated |
| Ingestion.DaysConserve | scripts/ops/azure_billing_ingestion.py:204-206 | the charges of the normalized days add up to the raw total |
| Ingestion.DaysHold | scripts/ops/azure_billing_ingestion.py:204-210 | a day of the manifest lists exactly the records of its date, as often and in the order in which the rows came; a date without rows is absent |
| Ingestion.RecordIdsAreDistinct | scripts/ops/azure_billing_ingestion.py:202-206 | no two rows of a run get the same record id |
| TenantExport.ExportSnapshot | scripts/migration/shared-tenant-export.ts:188-254 | the worklist either exports a selection that holds all owned rows, resolves every outgoing reference and contains only needed rows, each once and in the table's order, or rejects for a justified reason |
| TenantExport.ExportIsLeast | scripts/migration/shared-tenant-export.ts:215-242 | with unique referenced columns the selection is the least set that contains the workspace's rows and is closed under outgoing references |
| TenantSource.LeastSetIsLeast | scripts/migration/shared-tenant-export.ts:215-242 | the least set that contains the workspace's rows and is closed under outgoing references exists, for every source |
| TenantExport.ExportsExactlyWhenAllowed | scripts/migration/shared-tenant-export.ts:188-254 | an export goes through if and only if the least set fits the row budget, holds no other tenant's row, refers only to single rows of transferable tables, and the tables read have primary keys; it then selects exactly that set |
| TenantExport.RejectionIsRight | scripts/migration/shared-tenant-export.ts:191-240 | whatever reason a rejection names, the least set could not have been exported |
| TenantMeaning.ExportHoldsNoForeignRow | scripts/migration/shared-tenant-export.ts:191-208 | in terms of stored owners: no exported row has an owner that is another workspace, a cross-tenant rejection names a row that has one, and with unique referenced columns nothing is exported if the least set holds such a row |
| TenantExport.Exporter.Append | scripts/migration/shared-tenant-export.ts:191-208 | a row is added once per key, with its index entries; another tenant's row or one over budget is refused |
| TenantExport.Exporter.SelectOwned | scripts/migration/shared-tenant-export.ts:215-218 | all owned rows of a table are selected: asking for one row more than the budget leaves room for means an overflow is reported, never cut off |
| TenantExport.Exporter.FollowKey | scripts/migration/shared-tenant-export.ts:228-240 | a non-NULL reference ends up resolved inside the selection, or the rejection names why it cannot |
| TenantExport.Exporter.Close | scripts/migration/shared-tenant-export.ts:226-241 | the growing worklist ends within the row budget with every reference of every selected row resolved |
| TenantExport.Exporter.Reread | scripts/migration/shared-tenant-export.ts:244-253 | re-reading by primary key returns exactly the selected rows in key order; the selection-changed error cannot occur |
| FrameEncoding.FeedFrames | scripts/migration/shared-tenant-export.ts:26-37 | the bytes fed to the hash are the framing of the rows |
| FrameEncoding.RowsRoundTrip | scripts/migration/shared-tenant-export.ts:24-36 | a decoder recovers every list of rows from its framing: NULL and empty text, embedded delimiters, empty rows |
| FrameEncoding.FramesAreInjective | scripts/migration/shared-tenant-export.ts:24-36 | two different lists of rows never feed the same bytes |
| FrameEncoding.NumberRoundTrip | scripts/migration/shared-tenant-export.ts:29-33 | a decimal length followed by anything is read back exactly up to its delimiter |
| FrameEncoding.NoLeadingZero | scripts/migration/shared-tenant-export.ts:29-33 | no length is written with a leading zero, so each has one form |
| FrameEncoding.FramesLookLike | scripts/migration/shared-tenant-export.ts:24-36 | the framing of two small rows, byte by byte |
| TenantPublication.Prepare | scripts/migration/shared-tenant-publication.ts:51-141 | accepted exactly when keys are unique, every request fits and no reference left behind points to a staged row; the result is then the specified publication and staging |
| TenantPublicationMeaning.AcceptedExactly | scripts/migration/shared-tenant-publication.ts:70-140 | in terms of rows and cells: a preparation is accepted exactly when every request names rows of one table, each once, no row or cell is named twice, none is both set aside and emptied, Workspace is not set aside, emptied columns are nullable, of a reference, outside the primary key and not pinned, and no row that stays still has the values of a row set aside in a reference |
| TenantPublication.SelectRows | scripts/migration/shared-tenant-publication.ts:70-87 | a selection succeeds exactly for distinct known keys of a known table, and returns their rows in order |
| TenantPublication.StageRows | scripts/migration/shared-tenant-publication.ts:88-99 | staging succeeds exactly when every request selects rows outside Workspace that were not staged before |
| TenantPublication.DetachRows | scripts/migration/shared-tenant-publication.ts:100-122 | detaching succeeds exactly when every request names a detachable column and rows that stay, each cell once; exactly those cells become NULL and their original values are recorded |
| TenantPublication.CheckTable | scripts/migration/shared-tenant-publication.ts:130-140 | a table passes exactly when none of its remaining non-NULL references has the value of a staged row |
| TenantPublicationTheorems.NothingIsLost | scripts/migration/shared-tenant-publication.ts:64-127 | for every table, publication rows with recorded values put back and staged rows have disjoint keys and together are exactly the original keyed rows |
| TenantPublicationTheorems.RestoresRow | scripts/migration/shared-tenant-publication.ts:100-122 | a published row with its recorded values put back is the original row, under the same key |
| TenantPublicationTheorems.RecordedIsOriginal | scripts/migration/shared-tenant-publication.ts:113-121 | a cell has a recorded value exactly when it was detached, and the value is the original one |
| TenantPublicationClosure.PublicationClosedExactly | scripts/migration/shared-tenant-publication.ts:128-140 | the publication of a reference-closed snapshot is closed if and only if every reference that stays keeps the columns it refers to |
| TenantPublicationClosure.UnreferencedColumnsAreSafe | scripts/migration/shared-tenant-publication.ts:100-140 | if no detached column is one a key refers to, the publication of a closed snapshot is closed |
| TenantPublicationClosure.DetachingAReferencedColumnCanBreakClosure | scripts/migration/shared-tenant-publication.ts:100-140 | without that condition closure can be lost: a concrete accepted request whose publication is not closed |
| TenantTransform.RelinkCell | scripts/migration/shared-tenant-import.ts:144-150 | one column of one row: its value is relinked once for User.id and once for every key to User that contains it, and a key to User that is not a single id column is refused |
| TenantTransform.TransformRow | scripts/migration/shared-tenant-import.ts:136-219 | a row is rewritten in place exactly as specified - fixed columns, links, then transforms - or refused exactly when some cell may not be rewritten as asked or the row's table refuses it |
| TenantMeaning.RowAcceptedExactly | scripts/migration/shared-tenant-import.ts:136-219 | a row is accepted exactly when it has a cell for each column, users are referred to by id alone, no cell or row is refused, and every transform of a cell that is not NULL is of a column that is neither in the primary key nor pinned, sets NULL only where that is allowed, and has a value to give |
| TenantMeaning.CellsMean | scripts/migration/shared-tenant-import.ts:138-198 | an accepted cell is NULL if it was or is set to NULL, the transform's value of the linked one if there is a transform, and the linked one otherwise |
| TenantMeaning.LinkedMeans | scripts/migration/shared-tenant-import.ts:140-150 | a column of user ids holds the id of the linked user - linked once, unless chained links are followed for several keys - and any other column what it held or was fixed to |
| TenantMeaning.FixedColumnsAreFixed | scripts/migration/shared-tenant-import.ts:140-143 | a fixed column that no link and no transform touches holds exactly the fixed value, whatever it held before |
| TenantMeaning.FixedColumnsAreForgotten | scripts/migration/shared-tenant-import.ts:140-150 | what a fixed column held has no effect on any column without a transform: rows that differ only in fixed columns get the same values |
| TenantMeaning.OtherColumnsKeepTheirs | scripts/migration/shared-tenant-import.ts:138-162 | a column that is neither fixed, relinked nor transformed keeps its value |
| TenantTransform.TransformTables | scripts/migration/shared-tenant-import.ts:132-224 | the whole snapshot is rewritten row by row, or refused if any row is |
| TenantTransform.RepeatingIsHarmlessExactly | scripts/migration/shared-tenant-import.ts:145-150 | a column that several keys to User share is relinked several times; this never changes the result if and only if no link leads to an id linked elsewhere |
| TenantTransform.ReferenceStaysExactly | scripts/migration/shared-tenant-import.ts:144-150 | a reference stays with the row it found if and only if both its ends are relinked to the same values |
| TenantTransform.LinkingKeepsReferences | scripts/migration/shared-tenant-import.ts:144-150 | if no column is relinked twice or no links are chained, and the ends of every key are relinked both or neither, row i refers afterwards to exactly the row it referred to before |
| TenantTransform.LinkingKeepsClosure | scripts/migration/shared-tenant-import.ts:144-150 | under the same conditions a closed snapshot stays closed |
| TenantTransform.ChainedLinksMoveAReference | scripts/migration/shared-tenant-import.ts:144-150 | without them a reference can move: an accepted snapshot with two keys to User on one column and chained links, whose note ends up with another user |
| TenantClosure.CheckClosure | scripts/migration/shared-tenant-import.ts:383-405 | the check with its index cache accepts exactly the snapshots in which every non-NULL reference finds a row or a linked user |
| TenantImportRun.CheckRow | scripts/migration/shared-tenant-import.ts:297-307 | a row is ready exactly when each key is NULL, a nullable self-reference or already satisfied; the postponed columns are listed key by key, a shared column twice |
| TenantImport.InsertedIsSound | scripts/migration/shared-tenant-import.ts:308-321 | inserting a ready row keeps the database equal to its old contents plus the inserted rows, every non-deferred reference satisfied, and the patches recorded |
| TenantImportRun.SweepTable | scripts/migration/shared-tenant-import.ts:289-323 | one table's sweep keeps all invariants, counts its progress exactly, and with no progress leaves nothing changed and no row that could move |
| TenantImportRun.Pass | scripts/migration/shared-tenant-import.ts:287-324 | a pass without progress has changed nothing and every pending row of every table is stuck |
| TenantImportRun.ApplyPatches | scripts/migration/shared-tenant-import.ts:326-330 | the patches go through exactly when none sets a column twice, and then the database is its old contents plus exactly the inserted rows, complete |
| TenantImportTransaction.InsertAll | scripts/migration/shared-tenant-import.ts:283-325 | the passes end, either with nothing pending or in a state that explains the failure |
| TenantImportTransaction.ImportSnapshot | scripts/migration/shared-tenant-import.ts:277-349 | on commit the target is its old contents plus exactly the non-linked rows, inserted in an order in which every immediate reference was already satisfied; on any failure it is unchanged |
| TenantImportMeaning.CommitLeaves | scripts/migration/shared-tenant-import.ts:283-330 | in terms of stored rows: after a commit every old row is as it was, every row of the snapshot but those of mapped users is stored complete under its own key, free before, with a value in every required column, and nothing else was added |
| TenantImportMeaning.ReferencesAreStored | scripts/migration/shared-tenant-import.ts:297-330 | every reference of an inserted row without NULL finds a stored row whose columns hold its values |
| TenantImportMeaning.NotClosedExactly | scripts/migration/shared-tenant-import.ts:383-405 | an import is refused as not closed exactly when some reference of some row finds neither a row of the snapshot with its values nor a mapped user |
| TenantImportMeaning.RefusalNames | scripts/migration/shared-tenant-import.ts:277-316 | a refusal changes nothing; one for a linked user names a user no stored row has, one for a required column a row that has NULL there |
| TenantImportTransaction.VerifyImported | scripts/migration/shared-tenant-import.ts:366-380 | the read-back accepts exactly when every recorded row is stored unchanged under its key and, outside User, none is missing from the record |
| TenantImportTransaction.CommitStands | scripts/migration/shared-tenant-import.ts:346-346 | the read-back cannot fail right after the rows were written |
| TenantImportTheorems.EveryReferenceResolves | scripts/migration/shared-tenant-import.ts:326-330 | after a commit of a closed snapshot every non-NULL reference of every inserted row resolves, postponed ones included |
| TenantImportTheorems.NoProgressMeansCyclic | scripts/migration/shared-tenant-import.ts:324-324 | if no row can move although the snapshot is closed, there is a dependency cycle all of whose rows are still to be inserted |
| TenantImportTheorems.DependencyComesFirst | scripts/migration/shared-tenant-import.ts:299-307 | what an inserted row depends on was inserted before it |
| TenantImportTheorems.CommitMeansAcyclic | scripts/migration/shared-tenant-import.ts:287-325 | with keys that refer to primary keys, a committed import has no dependency cycle among the inserted rows |
| TenantImportTheorems.CollisionIsWithTarget | scripts/migration/shared-tenant-import.ts:308-312 | a row refused as a duplicate has its key taken in the old database, if rows to insert have distinct keys |
| TenantImportTheorems.CommitsExactlyWhenAcyclic | scripts/migration/shared-tenant-import.ts:277-349 | for a closed snapshot whose rows to insert - linked users' rows are not among them - have new and distinct keys and filled required columns, with the linked users present, the import commits if and only if those rows have no dependency cycle and none of their patches sets a column twice; each failure says which it was |
| TenantImportTheorems.SharedColumnIsRefused | scripts/migration/shared-tenant-import.ts:300-330 | two nullable keys into their own table that share a column make an otherwise importable snapshot, linked user included, fail at its patches |
| ObjectCopy.VerifiedBytes | scripts/migration/shared-tenant-objects.ts:147-175 | however a body is cut into chunks, it is accepted exactly when it has the declared size, digest and content type |
| ObjectCopy.CopyOne | scripts/migration/shared-tenant-objects.ts:196-210 | one reference, amid any changes of other writers before each request: a verified source is created only where there is nothing, and the entry exists exactly when what is read back is what was asked for and, if just created, still this transfer's; it describes that object |
| ObjectCopy.CopyReferenced | scripts/migration/shared-tenant-objects.ts:178-219 | a copy amid other writers, cut off after any create or not, ends exactly where the first reference fails, with the store those requests and changes make and one entry for each object read back |
| ObjectCopy.UndisturbedCopyHolds | scripts/migration/shared-tenant-objects.ts:178-219 | left alone, a copy leaves existing objects untouched and creates exactly the missing ones up to where it got; its receipt describes the target |
| ObjectCopy.OthersKeepTheirs | scripts/migration/shared-tenant-objects.ts:203-203 | however it ends and whatever others do meanwhile, a copy alters nothing of theirs: the target holds all that they alone would have left, and besides it only this copy's own objects |
| ObjectCopy.ReceiptDescribesWhatItNames | scripts/migration/shared-tenant-objects.ts:205-209 | an object that at the end still has the ETag its entry records is the object the entry describes, whatever others did since it was read back |
| ObjectCopy.CopyAgainConverges | scripts/migration/shared-tenant-objects.ts:195-211 | copying again after any part of a copy gives what an undisturbed copy gives |
| ObjectCopy.CrashesDoNotMatter | scripts/migration/shared-tenant-objects.ts:178-219 | however often and wherever the copy was cut off, a finished copy leaves the same contents |
| ObjectCopy.CopiedExactlyWhenItFinishes | scripts/migration/shared-tenant-objects.ts:178-219 | a copy that is not cut off finishes exactly when target keys are distinct and every source and every object then in the target is what the manifest says |
| ObjectCopy.CrashesDoNotChangeTheReceipt | scripts/migration/shared-tenant-objects.ts:205-217 | if an undisturbed copy finishes, so does every copy begun again after crashes, and their receipts are equal, ETags aside |
| ObjectCopy.CreatedIsOwned | scripts/migration/shared-tenant-objects.ts:200-208 | an object that was missing before the copy carries this transfer's ownership afterwards, whichever run created it |
| ObjectMeaning.ReceiptMeans | scripts/migration/shared-tenant-objects.ts:178-219 | the receipt of an undisturbed copy has one entry for each reference, in order, that describes key, size, digest and type of the object in the target, and says created exactly where it carries this transfer's ownership |
| ObjectMeaning.DescribedIsCopied | scripts/migration/shared-tenant-objects.ts:203-209 | the same of every entry of a copy amid other writers, for what stood there when it was read back |
| ObjectMeaning.MissingIsCreated | scripts/migration/shared-tenant-objects.ts:196-204 | what was missing is created with the source's bytes, type and this transfer's ownership |
| ObjectMeaning.FinishesExactly | scripts/migration/shared-tenant-objects.ts:178-219 | an undisturbed copy finishes exactly when target keys are distinct and every source, and every object already there, has the declared bytes and type |
| ObjectCopy.RemoveStale | scripts/migration/shared-tenant-objects.ts:238-262 | amid any changes of other writers before every request, stale objects are removed one by one until one is not, or no longer is, the recorded object; the lists of removed and absent keys are exact |
| ObjectCopy.TakenIsRecorded | scripts/migration/shared-tenant-objects.ts:250-255 | whatever others do between the look and the removal, what is removed is at that moment the recorded object: ETag, size and ownership; nothing else is touched |
| ObjectCopy.UndisturbedAttempts | scripts/migration/shared-tenant-objects.ts:247-257 | left alone, the loop removes exactly the removable stale objects and stops at the first that is there but not removable |
| ObjectCopy.RemovesOnlyRecorded | scripts/migration/shared-tenant-objects.ts:222-254 | an object disappears only if the receipt says this transfer created it, no final reference uses its key, and it still has the recorded ETag, size and ownership; every other object is unchanged |
| ObjectMeaning.RemovedIsOwn | scripts/migration/shared-tenant-objects.ts:247-257 | what the loop removes had, at that moment, the recorded number, size and ownership of this transfer, and was recorded as created and not referenced |
| ObjectMeaning.LeftAloneExactly | scripts/migration/shared-tenant-objects.ts:247-257 | left alone, a stale object is removed exactly when it is the recorded one, reported absent when there is none, and otherwise stays and stops the loop |
| ObjectCopy.RemovalUndoesCopy | scripts/migration/shared-tenant-objects.ts:178-262 | removing everything a copy created, with nothing referenced any more, restores the target exactly |
| DownloadStream.Download | apps/web/lib/authorized-download-stream.ts:173-239 | any run of the stream, for any chunking and any events: delivered bytes are a prefix of the source and all of it at close, at most 4 MiB since the last authorization, which is recent or immediate; in strict mode one directly precedes every delivery; no piece exceeds 64 KiB, or 4 MiB of a verified snapshot in strict mode; undisturbed pulls finish |
| DownloadStream.DeliveryStream.PullOnce | apps/web/lib/authorized-download-stream.ts:202-236 | a pull keeps all of this and either stops with nothing done, or hands out exactly the longest piece the limits allow, preceded by a renewal exactly in strict mode, after 4 MiB or after a second; it delivers exactly when the read and the renewal succeed, and closes exactly at the end of the source |
| DownloadStream.DeliveryStream.ReadChunk | apps/web/lib/authorized-download-stream.ts:204-211 | reading on takes exactly the next chunk, or closes at the end, or stops |
| DownloadStream.DeliveryStream.Enqueue | apps/web/lib/authorized-download-stream.ts:220-230 | handing out a piece moves exactly its bytes from the rest of the chunk to the delivered bytes |
| DownloadStream.BufferChunk | apps/web/lib/authorized-download-stream.ts:48-62 | the buffering loop always advances, obtains proofs where they are due and nowhere else, and ends early exactly on a wrong digest, a refused proof or an abort |
| DownloadStream.EndChunk | apps/web/lib/authorized-download-stream.ts:63-66 | at the end of a chunk the clock is read once and a proof obtained exactly when a second has passed; only a refused proof or an abort ends the run there |
| DownloadStream.BufferSnapshot | apps/web/lib/authorized-download-stream.ts:11-71 | however the run ends, bytes came in and the clock was read as the log says, and a proof was obtained at the start, after every 4 MiB, whenever the clock showed a second since the last, and after the last declared byte, and only then; a snapshot is the whole source, proven once more, with no abort at any of the looks; a source of the declared size and digest, within 100 MiB and with at most 128 empty chunks in a row, is refused only for a refused proof or an abort |
| EvidenceSpans.Span | packages/agents/src/finance-report-evidence.ts:134-140 | a selection is accepted exactly when it is non-blank, stands at its offsets and cuts no surrogate pair |
| EvidenceSpans.Bind | packages/agents/src/finance-report-evidence.ts:171-210 | a claim binds exactly when its source is of the format's kind, quotes the text the index holds at its coordinate, and selects a whole amount or an exact piece; what it binds to is then determined |
| EvidenceMeaning.BindsExactly | packages/agents/src/finance-report-evidence.ts:134-210 | in terms of the text: a claim binds exactly when the index has its source in a kind the format takes and the selected text is not blank, stands at its offsets and begins and ends between whole characters |
| EvidenceMeaning.BlockersMean | packages/agents/src/finance-report-evidence.ts:134-192 | a claim that does not bind is told which it was: an amount's cell blank or of the wrong kind is unsafe, a blank or out-of-range selection of the quoted text invalid, anything else not found |
| EvidenceSpans.NeighbourTestIsPairTest | packages/agents/src/finance-report-evidence.ts:237-240 | for any order that sorts the spans, comparing neighbours gives the answer of comparing all pairs |
| EvidenceSpans.CheckGroup | packages/agents/src/finance-report-evidence.ts:231-242 | a group passes exactly when any two of its claims go together; the claim blamed conflicts with an earlier one, and when only overlap is wrong it is the first in input order that overlaps an earlier one |
| EvidenceSpans.GroupIsPairs | packages/agents/src/finance-report-evidence.ts:222-230 | checking a coordinate's group is checking all pairs of claims on that coordinate |
| EvidenceSpans.Validate | packages/agents/src/finance-report-evidence.ts:220-243 | claims are accepted exactly when ids are distinct, all bind, and any two on one coordinate share their text, are not whole amounts and do not overlap; an overlap blocker names a claim at fault, any other the first claim that repeats an id or does not bind |
| EvidenceMeaning.AcceptedExactly | packages/agents/src/finance-report-evidence.ts:220-243 | claims are accepted exactly when no two share an id, each quotes its source, and any two at one place quote the same text side by side |

## Left out

- Legacy documents of schema version 1: the store starts empty, so only version 2 documents occur.
- HTTP, TLS, XML, tokens, the Azure and PostgreSQL clients, Docker and file I/O: only their conditional-write, create-only and remove-if-match contracts are kept.
- SHA-256, canonical JSON text and AES re-encryption: digests are injective constructors, apart from the row framing, which is modelled byte by byte.
- Regular expressions, identifier and label grammar, error codes, byte-size limits, deadlines and environment parsing: single-branch checks.
- DispatchWorker.DispatchOne: takes its steps without other workers' steps in between, because a method body does not show those points; every interleaving of the same steps is covered by `Dispatch`, `DispatchSafety` and `DispatchReconcile`.
- The approvals of profile, policy and mapping in `run_once`, and the proof authority's answer: calls into code outside this model; the retention proofs are inputs. The admission record keeps the fields the lineage depends on.
- Clocks earlier than February of year 1, where the code's date arithmetic fails.
- The report views, quality issues and summary counts that `evaluate` and `publish` return beside the state: they are read-outs of values already modelled.
- The outbox is a map by event id: the code keeps it as a list sorted by that id.
- What a field transform makes of a value (JSON paths, re-encryption, SQL normalisation) is a function of the value and the original row, and the refusals of single tables are conditions on a cell or row: both are parameters of `TenantTransform`. Catalog comparison and the retry of an already imported workspace are left out.
- The check that an imported user's e-mail address is new: one more refusal per row, independent of the rest.
- The id of a User row is column 0: it is the first column of the schema.
- Ownership rules of the export are given as each row's list of owners; how they are found through joins is not modelled. The exact workspace slug check after the first phase and the byte budget are left out.
- Which columns the publication policy pins (workspaceId, mismatched declared references) is a parameter.
- Text values of the framing are their UTF-8 bytes: two JavaScript strings that differ only in lone surrogates have the same bytes.
- ObjectCopy.CopyReferenced: does not model other writers of the source while a copy runs; those of the target it does.
- ObjectCopy.CopyOne: does not model content types a store adds on its own.
- The second copy of a verified snapshot into pieces of 4 MiB, and zeroing of buffers: byte plumbing before and after the modelled streams.
- Building the evidence index from its lines (`buildIndex`): the index is an input. The tie-break by claim id in the sort does not matter, since the result is proved for every sorted order.
- IngestionRun.IngestRun: a part's bytes arrive parsed into rows, with their size and hash; CSV syntax, column profiles, export headers and scopes, and the run window are not modelled.
- Policy tables, user interface, authentication, analytics and agent modules: data, or I/O without an algorithm of their own.
