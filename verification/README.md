# Verified model of the trade service

A Dafny model of the crash-safe trade service of rbh-bot, of the feed and bot around it, and of the
arithmetic and codecs they rest on, with proofs of what those parts promise over every run.

Each SQLite transaction is one atomic step. Functions from tables to tables give each transaction;
state machines interleave them with crashes, restarts, lease takeovers, redeliveries and reorgs;
classes repeat the code's own order of reads, loops and row updates and are proved equal to the
functions. Ghost histories record broadcaster calls and committed fenced mutations.

| files | part |
|---|---|
| `Leases`, `IntentSend` | lease epochs and fences; the abstract intent-marked send protocol |
| `Controlled`, `ControlledRuns`, `ControlledProofs`, `ControlledTheorems`, `ControlledOutcomes`, `ControlledEffects`, `ControlledStranded`, `ControlledExamples`, `ControlledWorker` | controlled submission: tables, runs, invariant, theorems, what outcomes say about calls, when each transaction commits, attempts left behind with runs to them, the running worker |
| `Manual`, `ManualOutcomes`, `ManualStore` | MANUAL first submission with burn-once tickets; where its outcomes come from |
| `Ledger`, `LedgerRounds`, `LedgerCompletion`, `LedgerSteps`, `RecoveryWorker`, `LedgerLanes` | receipts, reorgs and position effects; when a pass completes; versions and single steps; what they do to wallet lanes |
| `CanaryAdmission`, `CanaryCaps`, `CanaryStore` | canary admission; its caps and windows on the reservations themselves |
| `ManualRisk`, `ManualExposure`, `ManualAdmission`, `ManualCaps` | typed exposure and MANUAL admissions; their caps on the rows themselves |
| `AuthorizationBudget` | lifetime budgets; also the lease methods |
| `Feed`, `FeedReplay`, `FeedReorgs`, `FeedStore`, `Bot` | outbox, crash replay, reorg compensation, crashes and reorgs together, inbox, feed and bot together |
| `Decimal`, `Requests`, `Validation`, `RuntimeClock` | parsers and printer, request normalisation, validation and its checker, the trusted clock |
| `Common`, `Totals` | optional values, sums over sets and tables |

The controlled worker and the MANUAL path are two instances of `IntentSend`; every step of either
is shown to be a step of it and of `Leases`. `ControlledWorker.Worker` keeps a ghost trace and
every method extends it by steps of `ControlledRuns`, so the run theorems hold of the loop itself,
started on the tables any earlier history left behind. `ManualStore` does the same for any number
of open stores over one database.

What a transaction does is also told without naming the function that specifies it: which columns it
needs (`…ExactlyWhen`), which it changes, and which rows count towards a cap, as sets of rows.

## Where the code does not do what one might expect

Each is stated as the code behaves, with the exact condition.

- The node may answer each query of a recovery pass from another chain, also the header queries of
  one scan, of which there is one per canonical observation. Such a pass can end in disagreement with
  every chain; it can leave two observations canonical, and it can leave a confirmed success without
  its position effect for good: the second scan rolls back by attempt, not by receipt, and
  canonicalisation of an already canonical observation returns early. `LedgerRounds.MidRoundReorg`
  says exactly when a pass agrees with a chain, `LedgerRounds.RowsStayInStep` exactly when its rows
  stay in step, `LedgerRounds.MidRoundReorgExamples` shows four chains on which they do not, and
  `LedgerRounds.LostEffectStaysLost` that the loss is not repaired while the block stays.
- Confirming a receipt idles the wallet's lane whichever operation has it.
  `LedgerLanes.StepKeepsOwnLane`: another operation in flight loses its lane if and only if the
  confirmed one had been reorganised; `LedgerLanes.ReorganisedKeepsItsLane`: a reorganised operation
  keeps its frozen lane if and only if no operation is confirmed meanwhile. `TakenOverExample` and
  `TwoReorganisedExample` run into either.
- One claim or intent dated after the clock of a MANUAL recovery keeps it from closing any other claim.
  `ManualOutcomes.RecoversExactlyWhen`.
- A recovery round stops at its first item that does not complete, in front of all later ones.
  `LedgerCompletion.PassCompletesExactlyWhen` says which items those are.
- The rolling rate limit is checked at the entry time while the row is dated with the later checked
  time. `ManualAdmission.WindowLimitIsExact`: an admission keeps it after every history in clock
  order if and only if it is not dated before its entry, or the check refuses it on every table.
- Resuming one sequence back cannot go below sequence 0. `FeedReplay.RewindIsExact`: a restart
  skips deliveries if and only if only sequence 0 was committed and it has more deliveries.
- An ignored insert still consumes an AUTOINCREMENT number, so replayed observations leave gaps in
  the outbox offsets, and the consumer stops at a gap.
  `Feed.InsertKeepsContiguous`, `Pipeline.DrainsExactlyContiguousOutboxes`.
- An attempt can be left behind, never listed for recovery and never submitted again, even with its
  lane and reservations frozen. `ControlledStranded.AbandonedExactlyAtDeadEnds`: exactly when its
  latest submission is known_unsent, in manual resolution, or open without an intent while no live
  process has it whose lease row still names it and whose authorization is still armed. Clocks may
  read anything, and the control row may be written back: neither is restricted by the code.
  `ControlledExamples` runs into a refused replay with everything frozen, a process whose lease was
  taken over and one whose authorization was revoked; `RecoveryWorker.StrandedIsNeverBooked` says
  what being left behind means for the net position.
- A transaction re-included after a reorg has the id of its orphaned observation.
  `Feed.ReincludedIntentIsNotRepublished`: it is published if and only if it was not observed before
  the reorg. `Pipeline.RetractedForever`: its intents are never created again;
  `Pipeline.ReinclusionExample` is such a history.
- Printed values with 255 decimals can be one character too long to read.
  `Decimal.PrintedValueReadsBack`.
- A completed validation can be refused by the checker. `Validation.CheckerAcceptsCompletions` gives
  the condition on the inputs; `Validation.ZeroFeeExample` is a completion it refuses.

## Model

| member | source | states |
|---|---|---|
| `Leases.StepGrowsEpochs` | internal/trade/canary_runtime.go:262-346 | epochs never fall, change only in acquisitions and then strictly rise, by one when the store allocates; no acquisition displaces a holder unexpired at the acquirer's clock |
| `Leases.FencedMutationsAreOrderedByEpoch` | internal/trade/submission_store.go:381-429 | over every run, per role and environment, a mutation fenced under an earlier epoch precedes every one under a later epoch |
| `Leases.DisplacedHolderIsFencedForever` | internal/trade/submission_store.go:381-429 | once a later epoch is in the table an earlier fence never passes again |
| `Leases.RenewalLastsItsTime` | internal/trade/canary_runtime.go:317-346 | a renewal succeeds if and only if the caller holds the lease and the time to live is positive; the holder then passes the fence exactly before its clock plus the time to live, and no other lease changes |
| `Leases.AcquisitionLastsItsTime` | internal/trade/canary_runtime.go:278-315 | an acquisition succeeds if and only if no lease is unexpired and an epoch is left; the acquirer then passes the fence, with the next epoch, exactly before the time to live is over |
| `Leases.MutationStampsTheRow` | internal/trade/submission_store.go:406-429 | a fenced mutation changes no holder, epoch or expiry; one that writes the row stamps it with its clock, so that no MANUAL mutation passes under an earlier one |
| `Leases.ManualFenceIsAnInterval` | internal/trade/manual_submission_store.go:32-49 | the MANUAL fence passes exactly for the stored holder and epoch between the row's stamp and its expiry |
| `RuntimeStore.Store.AcquireNext` | internal/trade/canary_runtime.go:278-315 | allocates exactly the next epoch over an expired lease, else changes nothing |
| `RuntimeStore.Store.Renew` | internal/trade/canary_runtime.go:317-346 | extends only the caller's own unexpired lease |
| `IntentSend.StepKeepsInv` | internal/trade/controlled_submission_worker.go:265-346 | every step of the abstract protocol keeps: at most one call per row, only after an intent, never on a row closed as unsent |
| `IntentSend.StepIsMonotone` | internal/trade/controlled_submission_worker.go:265-346 | intents are never undone and closed rows never change |
| `ControlledProofs.StepKeepsInv` | internal/trade/controlled_submission_worker.go:212-346 | every step of any process keeps numbering, permit counts, lanes and reservations consistent with the first submission's state |
| `ControlledTheorems.StepRefinesIntentSend` | internal/trade/submission.go:45-99 | every controlled step is a step of the abstract send protocol |
| `ControlledTheorems.BroadcastAtMostOnce` | internal/trade/submission.go:45-99 | over every interleaving no submission row is broadcast twice, and every broadcast row has a durable intent |
| `ControlledTheorems.RestartBeforeIntentMeansNeverBroadcast` | internal/trade/controlled_submission_worker.go:265-319 | a row classed restart_before_send_intent was never broadcast before and never is after |
| `ControlledTheorems.StepRefinesLeases` | internal/trade/submission_store.go:406-429 | every controlled step is a step of the lease protocol |
| `ControlledTheorems.WorkerMutationsAreOrderedByEpoch` | internal/trade/submission_store.go:406-429 | the worker's committed mutations are ordered by lease epoch |
| `ControlledTheorems.UnknownStaysFrozen` | internal/trade/submission.go:102-143 | once a submission is broadcast_unknown, lane, execution reservation and risk reservation stay frozen for the operation in every later state |
| `ControlledTheorems.LaneIsGivenUpOnlyWhenSoleSubmissionIsUnsent` | internal/trade/controlled_submission_worker.go:283-317 | a submitted operation lacks its lane if and only if its first broadcast is known_unsent, which is then its only submission |
| `ControlledTheorems.LaneIsTakenAwayOnlyFromUnsent` | internal/trade/controlled_submission_worker.go:283-317 | any step that takes a lane away leaves one submission, a first broadcast recorded known_unsent |
| `ControlledTheorems.SubmissionsAreNumbered` | internal/trade/controlled_submission_worker.go:231-262 | an attempt's submissions are exactly 0..n-1, n the permits consumed for it, all but the last broadcast_unknown |
| `ControlledTheorems.CallNeedsEveryControl` | internal/trade/submission.go:57-80 | a step that calls the broadcaster does so once, with lease, controls, consumed permit and an open row with durable intent |
| `ControlledTheorems.NewRowNeedsEveryGate` | internal/trade/controlled_submission_worker.go:212-263 | a new submission row appears only in a begin step that passed every control, three gates, permit and lane checks |
| `ControlledTheorems.PermitIsSpentOnce` | internal/trade/controlled_submission_worker.go:166-210 | a permit is consumed only before and expired only at or after its expiry; both are final |
| `ControlledTheorems.PermitsStayUnique` | internal/trade/canary_orchestrator_store.go:10-45 | over every run, at most one first-broadcast permit and one issued replay permit per operation |
| `ControlledTheorems.EmergencyStopSilencesTheWorker` | internal/trade/canary_orchestrator_store.go:72-124 | while the stop is set nothing is broadcast, however steps interleave |
| `ControlledTheorems.AnswerDecidesHold` | internal/trade/submission.go:81-143 | the broadcaster's answer decides row state, lane and reservations, case by case |
| `ControlledOutcomes.ControlsAreExact` | internal/trade/canary_orchestrator_store.go:72-124 | the immediate checks pass if and only if control row, chain, authorization and risk reservation allow the request |
| `ControlledOutcomes.ReasonExplains` | internal/trade/canary_orchestrator_store.go:72-124 | the reason of a refusal names a check that fails |
| `ControlledOutcomes.SendCallsExactlyWhen` | internal/trade/submission.go:49-80 | a send step calls the broadcaster if and only if it holds the lease, the controls allow it, its permit is the consumed one and its row is open |
| `ControlledOutcomes.UncalledSendIsUnsent` | internal/trade/submission.go:56-64 | a send step that commits without calling does so because a control forbids it, and leaves the row known_unsent with a true reason: a first broadcast gives up lane and reservations, a replay leaves everything frozen, no other operation changes |
| `ControlledOutcomes.ForbiddenSendCommits` | internal/trade/submission.go:56-64 | a forbidden send of an open row whose process survives does commit |
| `ControlledOutcomes.CalledSendRecordsAnswer` | internal/trade/submission.go:81-143 | a send step that calls and commits records the answer, and the answer decides row, lane and reservations of that operation alone |
| `ControlledOutcomes.OutcomeTellsTheCalls` | internal/trade/submission.go:45-143 | in every reachable state the outcome of a submission tells whether it was broadcast: broadcast_unknown only after a call or a restart after the intent, known_unsent only if the broadcaster refused it or was never called |
| `ControlledOutcomes.UnsentStaysUnsent` | internal/trade/submission.go:45-143 | a row known_unsent without a refusal of the broadcaster is not broadcast in any later state |
| `ControlledEffects.BeginsExactlyWhen` | internal/trade/controlled_submission_worker.go:212-263 | a begin commits if and only if lease, controls, three gates, the very permit, lane and earlier submissions allow it, column by column |
| `ControlledEffects.BeginOpensOneRow` | internal/trade/controlled_submission_worker.go:231-262 | it consumes that permit and opens one row for its transaction, numbered after the others, and changes nothing else but the lease stamp |
| `ControlledEffects.MarksExactlyWhen` | internal/trade/controlled_submission_worker.go:321-346 | the intent is written if and only if lease, controls, consumed permit and an open row without one allow it, dated with the clock |
| `ControlledEffects.IssuesExactlyWhen` | internal/trade/canary_orchestrator_store.go:10-45 | a permit is issued if and only if authorization and attempt allow it and no permit of the operation competes with it |
| `ControlledEffects.ExpiresExactly` | internal/trade/controlled_submission_worker.go:166-210 | the expiry pass expires exactly the issued permits whose time has come |
| `ControlledEffects.RecoversExactly` | internal/trade/controlled_submission_worker.go:265-319 | recovery commits if and only if the lease is held, and closes exactly the older open rows begun in its environment, by whether they have an intent |
| `ControlledEffects.AttemptIsUnsentExactlyWhen` | internal/trade/submission.go:102-143 | in every reachable state an attempt is unsent if and only if its first submission is known_unsent |
| `ControlledStranded.AbandonedExactlyAtDeadEnds` | internal/trade/canary_recovery_worker.go:210-243 | an attempt with submissions is never listed for recovery again and never gets another one, however the run goes on, if and only if its latest submission is known_unsent, in manual resolution, or open without intent and with no live process that its lease row names and its authorization still allows |
| `ControlledStranded.DeadEndIsForever` | internal/trade/submission.go:102-143 | over every run such an attempt stays unlisted with the same number of submissions, and frozen if the latest is a replay or was answered with a wrong hash |
| `ControlledExamples.RefusedReplayRun` | internal/trade/submission.go:81-143 | a run of begin, mark, lost answer, replay, mark and refusal that ends in a frozen attempt left behind for good |
| `ControlledExamples.TakenOverRun` | internal/trade/controlled_submission_worker.go:36-38 | a run in which the lease is taken over between begin and mark: the process is alive and the attempt is left behind for good |
| `ControlledExamples.RevokedRun` | internal/storage/migrations/trade/008_controlled_canary_runtime.sql:33-54 | the same with an authorization closed between begin and mark |
| `ControlledWorker.Store.Begin` | internal/trade/controlled_submission_worker.go:212-263 | updates the tables exactly as the begin transaction, or not at all |
| `ControlledWorker.Store.MarkIntent` | internal/trade/controlled_submission_worker.go:321-346 | writes the intent exactly when the transaction commits |
| `ControlledWorker.Store.Send` | internal/trade/submission.go:45-99 | calls the broadcaster exactly when the checks allow it and records its answer in the same transaction |
| `ControlledWorker.Store.FinishRows` | internal/trade/submission.go:102-143 | the row updates of one outcome equal the specification |
| `ControlledWorker.Store.Recover` | internal/trade/controlled_submission_worker.go:265-319 | the sequence of updates equals one classification, release and freeze |
| `ControlledWorker.Store.Expire` | internal/trade/controlled_submission_worker.go:166-210 | the loop expires exactly the issued permits that are due |
| `ControlledWorker.Store.Issue` | internal/trade/canary_orchestrator_store.go:10-45 | inserts a permit exactly when authorization, attempt and uniqueness allow |
| `ControlledWorker.Store.ListWork` | internal/trade/controlled_submission_worker.go:147-164 | lists every issued unexpired permit of a current authorization, each once and consumable, by issue time and then by id, with the policy, wallet and deployment of its authorization |
| `ControlledWorker.Worker.Process` | internal/trade/controlled_submission_worker.go:65-84 | one item makes at most one call, only for the artifact stored for its operation, and extends a valid run |
| `ControlledWorker.Worker.RunOnce` | internal/trade/controlled_submission_worker.go:42-63 | a whole pass is a run of the protocol from any earlier history, and leaves no submission broadcast twice |
| `ManualRuns.StepRefinesIntentSend` | internal/trade/manual_submission_store.go:141-263 | every MANUAL step is a step of the abstract send protocol |
| `ManualRuns.CallbackRunsAtMostOnce` | internal/trade/manual_submission_store.go:199-263 | over all stores, restarts and epochs the callback runs at most once per submission, after its INTENT transition |
| `ManualRuns.RecoveryWritesUnsentOnlyIfNeverCalled` | internal/trade/manual_submission_store.go:269-314 | recovery writes known_unsent only for claims whose callback never ran and never will |
| `ManualRuns.TransitionsAreWrittenOnce` | internal/trade/manual_submission_store.go:177-181 | a transition row is never rewritten by any step |
| `ManualRuns.ConsumedPermitIsNeverClaimed` | internal/trade/manual_submission_store.go:59-61 | a permit consumed without a claim never gets a claim, a submission or a callback |
| `ManualRuns.StepRefinesLeases` | internal/trade/manual_submission_store.go:32-49 | every MANUAL step is a step of the lease protocol |
| `ManualRuns.TakenOverClaimCannotInvoke` | internal/trade/manual_submission_store.go:209-229 | after a mutation under a later epoch the earlier claimant can neither mark nor invoke |
| `ManualOutcomes.OutcomeIsJustified` | internal/trade/manual_submission_store.go:199-314 | in every reachable state every outcome was written by one step: a recovery, by whether the intent was durable, or an invocation, which writes the callback's own supported answer and otherwise broadcast_unknown; the callback ran if and only if that invocation ran it |
| `ManualOutcomes.CalledIsUnsentOnlyByItsAnswer` | internal/trade/manual_submission_store.go:232-249 | a submission whose callback ran is known_unsent only if the callback itself answered so |
| `ManualOutcomes.FailedInvocationIsUnknown` | internal/trade/manual_submission_store.go:232-252 | after a durable intent, a failed recheck, an error of the callback or an unsupported answer leaves an OUTCOME of broadcast_unknown |
| `ManualOutcomes.ClaimsExactlyWhen` | internal/trade/manual_submission_store.go:62-97 | a claim succeeds if and only if the lease is held and an issued permit has neither claim nor submission, and binds transaction, lease and clock |
| `ManualOutcomes.BindingsStay` | internal/trade/manual_submission_store.go:62-97 | no step rewrites or removes a binding |
| `ManualOutcomes.MarkNeedsTheClaimant` | internal/trade/manual_submission_store.go:141-175 | only the claiming holder and epoch marks the intent, not before the claim, dated with its clock |
| `ManualOutcomes.CallsExactlyWhen` | internal/trade/manual_submission_store.go:199-242 | the callback runs in exactly those invocations that burn their own ticket under the claimant's lease for the claimed transaction while the submission is open and the recheck passes |
| `ManualOutcomes.RecoveryClosesExactly` | internal/trade/manual_submission_store.go:269-314 | recovery closes exactly the open claims of its environment under an older epoch |
| `ManualOutcomes.RecoversExactlyWhen` | internal/trade/manual_submission_store.go:269-314 | recovery commits if and only if the lease is held and its clock is behind no claim or intent it would close |
| `ManualOutcomes.RowsAlwaysAgree` | internal/trade/manual_submission_store.go:177-181 | in every reachable state a submitted outcome carries the claimed transaction's hash and no failure, every other one a failure, and no intent is dated before its claim |
| `ManualOutcomes.OutcomesAreNotBackdated` | internal/trade/manual_submission_store.go:177-181 | no outcome is dated before the claim or intent it closes |
| `ManualStore.Database.Insert` | internal/trade/manual_submission_store.go:177-181 | one transition row and its row update, or nothing |
| `ManualStore.Store.Begin` | internal/trade/manual_submission_store.go:62-97 | consumes an issued permit for the sole claim of its attempt, bound to the lease, if the identity rows agree, else changes nothing; extends the run |
| `ManualStore.Store.Mark` | internal/trade/manual_submission_store.go:141-175 | writes the intent exactly when lease, phase and transition rules allow, and only then has a ticket; extends the run |
| `ManualStore.Store.Invoke` | internal/trade/manual_submission_store.go:199-263 | burns the ticket first; runs the callback only with ticket and guard, and never a second time over everything that happened to the database; the recorded step is one of those `ManualOutcomes` speaks of |
| `ManualStore.Database.ClassifyPending` | internal/trade/manual_submission_store.go:269-314 | the loop classifies all pending older claims or none |
| `ManualStore.Store.RecoverAll` | internal/trade/manual_submission_store.go:269-314 | recovery is one step of the run, or changes nothing |
| `Ledger.ObserveKeeps` | internal/trade/submission_store.go:138-184 | observing a receipt keeps rows and effect in step and changes no canonical observation |
| `Ledger.CanonicalizeKeeps` | internal/trade/submission_store.go:190-291 | confirming the only candidate block makes it the one canonical observation and activates a success |
| `Ledger.OrphanKeeps` | internal/trade/submission_store.go:297-379 | orphaning removes that observation from the canonical ones and keeps rows and effect in step |
| `Ledger.ObservesExactlyWhen` | internal/trade/submission_store.go:138-184 | a receipt is recorded if and only if it does not contradict what is stored for its block, and changes none of that |
| `LedgerRounds.CompletedRoundAgrees` | internal/trade/canary_recovery_worker.go:101-174 | over any rounds, views and crashes: a completed round agrees with its view; at every commit the effect is active exactly while a success is canonical |
| `LedgerRounds.ProcessAgrees` | internal/trade/recovery.go:68-170 | a pass against a node whose chain stays ends in agreement with it |
| `LedgerRounds.MidRoundReorg` | internal/trade/canary_recovery_worker.go:101-174 | with an answer of its own for each query, a pass agrees with a chain if and only if the blocks that survived it are on that chain and, if the success is confirmed there, one survived and none was dropped |
| `LedgerRounds.RowsStayInStep` | internal/trade/canary_recovery_worker.go:163-172 | observations and effect stay in step if and only if no two blocks survive and no success survives beside a dropped block |
| `LedgerRounds.LostSuccessHasNoEffect` | internal/trade/submission_store.go:334-337 | a success that survives beside a dropped block is the one canonical observation and has no active effect |
| `LedgerRounds.LostEffectStaysLost` | internal/trade/submission_store.go:228-235 | such a loss is not repaired by any pass whose queries find the block on the chain |
| `LedgerRounds.MidRoundReorgExamples` | internal/trade/canary_recovery_worker.go:101-174 | the chain changes before the receipt is read, before the second scan, there and back, or between its two header queries: each pass ends in disagreement, three with rows out of step |
| `LedgerCompletion.PassCompletesExactlyWhen` | internal/trade/canary_recovery_worker.go:101-174 | whatever the node answers, a pass completes if and only if every height asked for exists on the chain asked, and it ends early or the receipt was readable, not contradicted and, if confirmed as a success, bookable |
| `LedgerCompletion.SteadyPassCompletesExactlyWhen` | internal/trade/canary_recovery_worker.go:101-174 | the same against a node whose chain stays, in terms of that chain |
| `LedgerCompletion.UnconfirmedInclusionCompletes` | internal/trade/recovery.go:110-125 | an included but unconfirmed transaction never stops a pass: it records the observation and changes no canonical one that is on the chain |
| `LedgerSteps.VersionNamesOneRow` | internal/trade/submission_store.go:138-379 | over every run the version of an observation never falls, and the same version is the same row |
| `LedgerSteps.PassIsAPath` | internal/trade/canary_recovery_worker.go:101-174 | a pass that completes against a node whose chain stays is a path of the crash-prone machine from the rows before to completion with the rows after |
| `RecoveryWorker.Worker.ScanObservations` | internal/trade/recovery.go:149-170 | the scan loop, asking once per observation, orphans exactly the canonical observations off the chain they were asked of |
| `RecoveryWorker.Worker.ReconcileReceipt` | internal/trade/recovery.go:68-139 | observe and confirm in order; completes exactly when the reconcile of `PassCompletesExactlyWhen` does, with what a failure leaves behind |
| `RecoveryWorker.Worker.ProcessItem` | internal/trade/canary_recovery_worker.go:101-174 | the loops and exits compute the pass of `MidRoundReorg`, query by query; other attempts are untouched; against a node whose chain stays every exit keeps the rows in step and a completed item agrees |
| `RecoveryWorker.Worker.RunOnce` | internal/trade/canary_recovery_worker.go:82-99 | a completed round agrees with its view for every listed attempt and touches no other; the net position is the chain's own sum over the listed active attempts plus what was booked before for the others; no item that is on the chain and bookable stops it |
| `RecoveryWorker.NetPosition` | internal/trade/submission_store.go:233-268 | that sum counts every listed attempt that is confirmed and only listed ones that succeeded |
| `RecoveryWorker.StrandedIsNeverBooked` | internal/trade/canary_recovery_worker.go:210-243 | an attempt left behind keeps its rows through all later rounds, so without an active effect it never agrees with a chain that confirms it |
| `LedgerLanes.StepKeepsOwnLane` | internal/trade/submission_store.go:190-379 | a step leaves each operation in flight its lane if and only if it does not confirm a reorganised operation while another one is in flight |
| `LedgerLanes.LaneBelongsToTheOneInFlight` | internal/trade/submission_store.go:190-379 | over every run without such a step the operation in flight has the lane and is the only one |
| `LedgerLanes.TakenOverExample` | internal/trade/submission_store.go:190-379 | a run with one that ends with two operations in flight for one wallet |
| `LedgerLanes.ReorganisedKeepsItsLane` | internal/trade/submission_store.go:190-379 | over every run a reorganised operation keeps the lane frozen for it if and only if no operation is confirmed meanwhile |
| `LedgerLanes.TwoReorganisedExample` | internal/trade/submission_store.go:190-379 | a run in which it loses the lane to the confirmation of another reorganised operation |
| `LedgerLanes.AppliesExactlyWhen` | internal/trade/submission_store.go:190-379 | each event is possible exactly for an operation that is where the event finds it |
| `LedgerLanes.StepMovesItsOperation` | internal/trade/submission_store.go:190-379 | a step changes its own operation only; a confirmation settles a success and releases a revert, a reorganisation freezes again |
| `LedgerLanes.StepMovesTheLane` | internal/trade/submission_store.go:190-379 | where the lane is after each step |
| `LedgerLanes.ReservationsTell` | internal/trade/submission_store.go:190-379 | in every reachable state each reservation says where its operation is |
| `CanaryCaps.ExposureStaysWithinCaps` | internal/trade/canary.go:242-311 | in every reachable state the reserved and frozen reservations of a policy sum to at most its total cap and, per token, its token cap |
| `CanaryAdmission.BucketsAreRecountsWithinCaps` | internal/trade/canary.go:109-130 | each usage row is an exact recount of its bucket's admissions, within the rate and wallet caps |
| `CanaryCaps.EveryPeriodStaysWithinCaps` | internal/trade/canary.go:104-130 | in every reachable state the admissions of a policy, wallet and token made in any [n*s, (n+1)*s) number at most the rate limit and sum to at most the wallet cap |
| `CanaryCaps.WindowsArePeriods` | internal/trade/canary.go:104-110 | two times share a window if and only if t/s is equal |
| `CanaryCaps.WalletsStayWithinUnresolved` | internal/trade/canary.go:235-238 | no wallet has more reserved and frozen reservations than the policies allow |
| `CanaryCaps.AdmittedExactlyWhen` | internal/trade/canary.go:205-311 | in every reachable state the gate admits if and only if operation limits hold and the reservations leave room under every cap, window included |
| `CanaryAdmission.RepeatedRequestChangesNothing` | internal/trade/canary.go:69-90 | a decided request is never decided again and changes nothing; another fingerprint is a conflict, the same one a duplicate |
| `CanaryAdmission.RequestIsDecidedOnce` | internal/trade/canary.go:69-164 | a new request gets one decision, under its fingerprint and the gate's reason; a refusal changes nothing else |
| `CanaryAdmission.ReasonExplains` | internal/trade/canary.go:205-311 | a refusal names a check that fails |
| `CanaryStore.Store.SumAmounts` | internal/trade/canary.go:388-407 | the summing loop is exact and fails only on a negative amount |
| `CanaryStore.Store.Gate` | internal/trade/canary.go:205-311 | the gate read row by row equals the specification |
| `CanaryStore.Store.AdmitRequest` | internal/trade/canary.go:49-164 | updates usage, reservation and decision exactly as specified and keeps every cap |
| `ManualRisk.Validate` | internal/manualrisk/policy.go:57-82 | the loop accepts exactly policies with ordered caps and strictly increasing assets |
| `ManualRisk.Limit` | internal/manualrisk/policy.go:113-123 | the search finds the limit of a unit, which is unique |
| `ManualExposure.ReadRows` | internal/tradeapi/manual_exposure.go:185-225 | the loop stops at the first refused row or addition, else returns the accumulated totals |
| `ManualExposure.LoadExposure` | internal/tradeapi/manual_exposure.go:122-226 | in any row order, succeeds exactly when no untyped bucket reaches into the window, no row is refused and no active total overflows 256 bits, with the exact per-unit totals |
| `ManualExposure.OverlapsExactlyWhen` | internal/tradeapi/manual_exposure.go:122-184 | an untyped bucket is in the way if and only if its length is invalid or some instant of it is in the window |
| `ManualExposure.ExposureIsUnique` | internal/tradeapi/manual_exposure.go:122-226 | the totals are determined by the table alone |
| `ManualExposure.SqlSum` | internal/storage/manual_math.go:86-114 | exact, failing only on a bad element or a true overflow |
| `ManualCaps.CapsHoldForever` | internal/tradeapi/manual_atomic_admission.go:172-203 | over every history, whatever the clock does, what reserved and frozen rows hold is within all per-unit and outlay caps, and no wallet has two such rows |
| `ManualCaps.RateLimitHoldsForever` | internal/tradeapi/manual_exposure.go:122-226 | over every history whose admissions are dated at or after their entry, every closed interval of the window's length holds at most the global and wallet maximum of rows |
| `ManualAdmission.WindowLimitIsExact` | internal/tradeapi/manual_atomic_admission.go:218-343 | an admission keeps the global and wallet limits after every such history if and only if it is not dated before its entry, or no table would admit it; otherwise a reachable table admits it beyond the limit |
| `ManualCaps.AdmissionRetainsBalance` | internal/manualrisk/units.go:134-146 | an admission is the only row its wallet holds and leaves the retained minimum after its outlay |
| `ManualCaps.AdmittedExactlyWhen` | internal/tradeapi/manual_atomic_admission.go:172-203 | an operation is admitted if and only if it is new, its limit is the policy's, no row is unsound, its wallet holds nothing and every cap, window and the balance have room; one row is then added |
| `ManualRisk.CapHoldsExactlyWhen` | internal/manualrisk/units.go:95-109 | a cap holds if and only if it is a positive quantity of the same valid unit that the sum does not exceed |
| `ManualRisk.AddsExactlyWhen` | internal/manualrisk/units.go:82-93 | quantities add up exactly within one valid unit and 256 bits, and in no other case |
| `ManualAdmission.Writer.Admit` | internal/tradeapi/manual_atomic_admission.go:218-343 | admits what the check allows; otherwise changes nothing, and then an untyped bucket is in the way, a total overflows or nothing lets the operation in; keeps caps and window |
| `AuthorizationBudget.BudgetIsARecountWithinCaps` | internal/trade/canary_runtime.go:139-189 | incremental count and total always equal a recount of the operation rows, within the caps |
| `AuthorizationBudget.ReservedExactlyWhen` | internal/trade/canary_runtime.go:139-189 | in every reachable state a new operation is reserved if and only if the authorization is armed and unexpired, the amount positive, and count and sum of all charged operations leave room under both caps |
| `AuthorizationBudget.BudgetNeverShrinks` | internal/trade/canary_runtime.go:139-189 | count and total never decrease along a run |
| `AuthorizationBudget.RepeatedReserveChangesNothing` | internal/trade/canary_runtime.go:161-168 | reserving the same operation again changes nothing, reports a duplicate for the same amount and a conflict for another |
| `RuntimeStore.Store.Reserve` | internal/trade/canary_runtime.go:139-189 | the two row updates equal the specification |
| `RuntimeStore.Store.VerifyUsage` | internal/tradeapi/manual_atomic_admission.go:109-151 | accepts exactly when the stored commands are those of the operation rows, the incremental row is their recount, and both caps hold, the total cap being positive |
| `Feed.CommitKeepsValid` | internal/feed/store.go:79-174 | a commit only appends, keeps ids unique and offsets increasing, and leaves every observation present |
| `Feed.ReplayedReorgAddsNothing` | internal/feed/reorg.go:37-176 | replaying a reorg adds no event and no outbox row |
| `Feed.ReorgOrphansExactlyItsIntents` | internal/feed/reorg.go:50-91 | a row is newly orphaned if and only if it is a sequencer's intent of exactly the reorganised sequence, and nothing else of any row changes |
| `FeedReorgs.ReorgTakesBackExactlyTheOrphaned` | internal/feed/reorg.go:92-150 | behind the old rows there is, in their order, one retraction of each newly orphaned row, and nothing else |
| `FeedReorgs.OthersAreNotTakenBack` | internal/feed/reorg.go:50-150 | no row of another sequence or source, and none that is no intent, has a retraction among the new rows |
| `Feed.ReorgPullsBack` | internal/feed/reorg.go:154-168 | a reorg pulls progress back to its sequence, never forward, and marks the feed degraded |
| `Feed.CommitRaisesProgress` | internal/feed/store.go:133-174 | a sequencer's commit raises progress to its sequence and never lowers it; a receipt's leaves it |
| `FeedReorgs.RetractRows` | internal/feed/reorg.go:92-150 | a retraction appends exactly one compensation per orphaned intent, in offset order, none of which can be ignored as known |
| `FeedReorgs.ReorgIsRedelivered` | internal/feed/reorg.go:154-168 | a start after a reorg delivers everything of any new stream from the reorganised sequence on, if and only if that is not a sequence 0 with deliveries |
| `Feed.ReincludedIntentIsNotRepublished` | internal/feed/model.go:52-65 | after a reorg, in a commit under any sequence, an observation is published if and only if it was not observed before the reorg, and orphaned rows stay orphaned |
| `Feed.InsertKeepsContiguous` | internal/feed/store.go:99-131 | an insert keeps offsets contiguous if and only if it is ignored or none was ignored before |
| `FeedReplay.OutboxEqualsCrashFreeRun` | internal/feed/store.go:57-63 | for every crash schedule in which no restart skips, the outbox has the contents and order of a run without crashes |
| `FeedReplay.RewindIsExact` | internal/feed/store.go:233-246 | the rewind reaches a committed delivery except exactly in the middle of sequence 0 |
| `FeedReplay.RestartRedeliversExactly` | internal/feed/store.go:233-246 | a restart delivers again exactly what is at or after the observed sequence, or after sequence 0 if that was observed |
| `FeedReplay.CrashInSequenceZeroSkips` | internal/feed/store.go:233-246 | a concrete restart that skips a delivery |
| `FeedReorgs.OutboxEqualsCrashFreeHistory` | internal/feed/sequencer.go:60-106 | for every schedule of crashes and reorgs in which no start skips, the outbox has, up to offsets, the rows, order and orphaned marks that the same deliveries and retractions give without crashes |
| `FeedReorgs.StartIsExact` | internal/feed/store.go:233-246 | after any such history a start reaches back to what was committed except exactly at a new delivery of sequence 0 |
| `FeedStore.Store.InsertRow` | internal/feed/store.go:99-131 | one insert with its outbox row and offset |
| `FeedStore.Store.CommitBatch` | internal/feed/store.go:79-174 | the commit loop equals the specification |
| `FeedStore.Store.RetractSequence` | internal/feed/reorg.go:37-176 | the compensation loop equals the specification |
| `FeedStore.Store.ResumeAt` | internal/feed/store.go:233-246 | resumes strictly below the observed sequence unless that is 0 |
| `Bot.ProcessKeepsInbox` | internal/bot/store.go:126-207 | for any delivery the inbox stays 1..durable; gaps and conflicts change nothing; replays are recognised |
| `Bot.ProcessAnswers` | internal/bot/store.go:126-168 | the answer to an item says exactly where it stands: duplicate, conflict, gap, refused or applied |
| `Bot.AppliedTakesEffect` | internal/bot/store.go:169-207 | a retraction retracts exactly the intents of the observation it names, an intent creates exactly what was proposed and is new |
| `Bot.ConsumeSkipsReplays` | internal/bot/consumer.go:37-57 | items consumed before do not hold up a batch |
| `Bot.ConsumeStopsAtTrouble` | internal/bot/consumer.go:37-57 | a gap or a conflicting item stops the batch and changes nothing |
| `Bot.Store.ProcessEvent` | internal/bot/store.go:126-207 | one event's updates equal the specification |
| `Bot.Store.RunOnce` | internal/bot/consumer.go:37-57 | the batch loop equals consuming item by item up to the first error |
| `Pipeline.InboxIsAnOutboxPrefix` | internal/bot/store.go:144-207 | over every run of feed and bot the inbox is exactly the first rows of the outbox |
| `Pipeline.IntentsFollowRetractions` | internal/bot/store.go:169-192 | no created intent has a consumed retraction; every retracted intent's observation is orphaned |
| `Pipeline.OrphanedForever` | internal/feed/reorg.go:92-150 | over every run an orphaned row stays orphaned and no other row ever has its id |
| `Pipeline.RetractedForever` | internal/bot/store.go:169-192 | over every run, once a retraction is consumed, every intent of its observation is retracted in all later states |
| `Pipeline.ReinclusionExample` | internal/feed/model.go:52-65 | a run with a reorg and a re-inclusion that publishes nothing and leaves the intent retracted |
| `Pipeline.GapIsNeverPassed` | internal/bot/store.go:160-162 | once there is a gap in the offsets the bot never passes it in any later state |
| `Pipeline.DrainsExactlyContiguousOutboxes` | internal/bot/consumer.go:37-57 | consuming the rest reaches the end if and only if the offsets are contiguous |
| `Pipeline.ReplayLeavesAGap` | internal/feed/store.go:99-131 | one redelivered observation before a new one breaks contiguity |
| `Pipeline.StuckRun` | internal/bot/store.go:160-162 | a run of feed and bot with such a redelivery, after which the bot is stuck in every continuation |
| `Decimal.PrintedValueReadsBack` | internal/chainquery/queries.go:238-256 | reading a printed value back succeeds if and only if there are at most 254 decimals or the last digit is zero |
| `Decimal.ReadTextPrintsBack` | internal/tradeapi/model.go:60-92 | printing an accepted text's value gives its canonical text |
| `Decimal.ParsersAgree` | internal/chainquery/validation.go:76-103 | human and HumanUnits accept the same texts with the same values |
| `Decimal.ParseIsIdempotent` | internal/tradeapi/model.go:60-92 | canonical text parses to itself and the same value |
| `Decimal.CanonicalUintIsExact` | internal/chainquery/validation.go:69-75 | accepts exactly the texts of the 256-bit numbers in range, each as its own number |
| `Requests.NormalizeIsIdempotent` | internal/tradeapi/model.go:120-199 | a normalised request normalises to itself |
| `Requests.NormalizedIsBounded` | internal/tradeapi/model.go:120-199 | what every normalised request satisfies: one of amount and percentage, bounded slippage, percentage, time to live and tip, a buy amount that fits |
| `Requests.ApplySeesThroughNormalize` | internal/tradeapi/model.go:212-235 | the policy's verdict is the same before and after normalisation; a granted time to live is within the policy |
| `Requests.NormalizeKeepsNumbers` | internal/tradeapi/model.go:120-199 | amount, percentage, slippage, minimum receive, fee, tip and total denote the numbers they denoted; identifiers, side and time to live are unchanged |
| `Requests.TokenIsLowered` | internal/tradeapi/model.go:120-199 | the token is written in lower case and is otherwise what it was |
| `Requests.NormalizesExactlyWhen` | internal/tradeapi/model.go:120-199 | a request is accepted if and only if its names, address, size, slippage, minimum, time to live and fee are well-formed, each spelled out |
| `Requests.AppliesExactlyWhen` | internal/tradeapi/model.go:212-235 | the policy grants exactly the asked or default time to live, within chain, slippage, time and fee limits |
| `Validation.Resolve` | internal/chainquery/validation.go:153-228 | fails exactly on the listed conditions; its result passes CheckResolution if and only if a tip comes with a fee cap, the node answered for the right token and its quantities fit; a percentage sale is the share of the balance rounded down, bounded from both sides |
| `Validation.CompleteStepwise` | internal/chainquery/validation.go:232-467 | the stepwise computation equals the specification |
| `Validation.FeesAreChecked` | internal/chainquery/validation.go:355-395 | the fee cap pays base fee and tip, is the user's or twice the base fee plus the tip, and is within every limit |
| `Validation.FeesExactlyWhen` | internal/chainquery/validation.go:355-395 | fee cap and tip are granted if and only if they are the user's or the automatic ones, pay the base fee and respect the limits |
| `Validation.CompletesExactlyWhen` | internal/chainquery/validation.go:232-467 | an output is returned if and only if resolution, quote, fees, SDK call and simulation agree with it and every limit holds |
| `Validation.CheckerAcceptsCompletions` | internal/chainquery/validation_checks.go:83-183 | what Complete returns is accepted if and only if, on the inputs, fees are paid, the SDK aims the call at the curve, and a buy's minimum is the proportional one or below the user's floor with it |
| `Validation.ZeroFeeExample` | internal/chainquery/validation_checks.go:127-130 | a completion without base fee, tip and user cap that the checker refuses |
| `Validation.AcceptanceCoversCosts` | internal/chainquery/validation_checks.go:83-183 | an accepted minimum is the slippage share of the quote rounded down, bounded from both sides, or the user's floor above it; the balance covers value, gas at the fee cap and the retained minimum |
| `RuntimeClock.AcceptedSamplesAreMonotone` | internal/tradeapi/manual_runtime_clock.go:31-80 | accepted samples are monotone in wall time and ticks within one session |
| `RuntimeClock.NothingAfterFault` | internal/tradeapi/manual_runtime_clock.go:41-43 | nothing is accepted after the first fault |
| `RuntimeClock.NothingAfterBadAnswer` | internal/tradeapi/manual_runtime_clock.go:50-65 | with one panicking, failing, malformed or backward answer anywhere, exactly the samples accepted before it are ever accepted |
| `RuntimeClock.AcceptsExactlyWhen` | internal/tradeapi/manual_runtime_clock.go:31-80 | one more read accepts a sample if and only if nothing faulted, the answer is sound and it is not behind the last accepted one |
| `RuntimeClock.FaultsExactlyWhen` | internal/tradeapi/manual_runtime_clock.go:31-80 | what latches the first fault, whether it is a reversal, and which wall time it keeps |
| `RuntimeClock.Reader.ReadSample` | internal/tradeapi/manual_runtime_clock.go:31-67 | the reader's field updates equal the specification |
| `RuntimeClock.DurableClockIsMonotone` | internal/tradeapi/manual_runtime_clock.go:143-179 | over all runs each event increments the generation, never lowers the high-water mark, never follows a fault; a fault keeps the mark |
| `RuntimeClock.FaultClosesHistory` | internal/tradeapi/manual_runtime_clock.go:88-102 | a latched fault closes the history |
| `RuntimeClock.ChangesExactlyWhen` | internal/tradeapi/manual_runtime_clock.go:88-179 | what one more change does to any reachable durable history: start, advance to a wall time not behind the mark, latch, or nothing |

## Left out

- The older `Submit`, `ReplayUnknown` and `FinishSubmission` path, and permits consumed outside the worker: different release rules, no send intent.
- Ledger.CanonicalizeKeeps: does not state the lane and reservation updates of the same transaction, which `LedgerLanes` models for one wallet, nor the step and operation status text.
- Ledger.OrphanKeeps: likewise. The freeze theorems of `ControlledTheorems` are about steps of the submission worker: a confirmed receipt idles a lane, which is what `LedgerLanes` is about.
- SQL filters that separate legacy from MANUAL work, audit, alert and history rows, freeze-reason and status text: written or filtered, never read back by what is modelled.
- Times are integers: comparisons of variable-precision RFC 3339 text (section 5.1 of RFC 3339) in SQL filters are modelled as comparisons of instants. Canary times count seconds from the zero time that window truncation counts from.
- Reserving an execution, committing its signature and admitting its risk appear only by their effect on the rows the worker reads.
- Identifiers, hashes, signatures, encryption and JSON: identifiers are compared only, and an attempt's id is a fixed function of its operation.
- The conditions inside the `manual_*` views: the identity, phase and final rechecks of a MANUAL submission may pass or fail arbitrarily; lane and accounting rows of the MANUAL path and its recovery transitions are not modelled.
- ManualStore.Store.Begin: which identity rows must agree is one verdict, because the claim only reads them and no modelled step writes them.
- ManualStore.Store.Mark: the deadlines and sources of the phase view are one verdict, for the same reason.
- The recovery worker's lease fence: its mutations are covered by the lease protocol in general, not repeated in the ledger machine.
- ManualExposure.LoadExposure: whether a row's saved bindings verify is one flag per row, because the rows they are compared with are not written by admissions.
- CanaryCaps.AdmittedExactlyWhen: control state, gate attestations, source match and allowlists only read tables this path never writes and arrive as one verdict.
- RuntimeStore.Store.VerifyUsage: whether a stored command verifies against its own bindings is one verdict per command, because those bindings are immutable rows of another table.
- ControlledWorker.Worker.Process: decrypting and re-hashing the stored artifact is one verdict, because bytes, keys and hashes are not modelled; the stored hashes are compared.
- RecoveryWorker.Worker.RunOnce: keeps no history of its own, because its contract states agreement outright and `LedgerRounds.CompletedRoundAgrees` covers crashes between its transactions.
- The strategy policies of the bot (`applyPolicy`): they map one event to proposed intents without reading or writing a table, so the proposals are a parameter and every theorem holds for any.
- The sequencer client: in-order delivery is assumed, its live filter and connection status are not modelled; registry snapshots and receipt audits of the feed are not modelled.
- The control row of the canary: an operator writes it and nothing restricts how, so it may change to anything at any step.
- SDK quotes and calldata: arbitrary functions and node answers; deadlines and RPC failures of validation are refusals.
- Gas budgets and fixed-sell checks of the typed risk units: single comparisons made before an admission is formed, on which no history depends.
- HTTP, IPC, configuration and health plumbing: no durable state, and nothing modelled here reads it.
