# Verified model of the durable agent runtime

This Dafny 4.11 project models the parts of the repository where a wrong branch loses work, repeats an
external effect or overspends, and proves what they promise.

**Durable runs.** A run is an append-only log of numbered events together with the projection it folds into
(`RunLog`, `RunOps`). `DurableStore` is the compare-and-swap store over such logs, with worker-lease fencing
and the guarded path for typed approvals. `Driver` is the durable run driver: load, compare, mutate a copy,
swap, and poison itself on any store failure. `RunCommands` holds one command per driver entry point (ordinary
activities, the invocation lifecycle fence, the canonical and recovery `RunStopped` audits, terminal retries,
finalization, leases) and `Disposition` the classification a restarted worker performs. `Coordination` puts any
number of drivers and other clients around one store: a load and its swap are separate steps, a swap may
commit, be refused, be lost, or commit and report an error, and a driver may crash between any two steps. The
durable approver of `Approver` shares a driver's state and commits approvals between the driver's transitions. The
results are about every reachable state of that system (`DriverHistories`, `Fencing`, `ApprovalDeadline`,
`Poisoning`, `LifecycleFence`), and rest on invariants of every valid log (`RunInvariants`, `AttemptHistory`,
`CommandFacts`, `TerminalProtocol`, `PairAtomicity`, `DispositionFacts`, `DispositionTotality`). What the operations
answer and when they go ahead is stated as well, by the log and the state and not by their own branches:
`StoreAcceptance` (which writes the store takes), `CommandMeaning` and `Decisions` (what a command achieves and what its
caller is told), `Verdicts` (what a restart is
told), `Acceptance` (when the entry points go ahead) and `StatusMachine` (where events lead).

**Budgets.** `Budget` is the shared reservation ledger with its handles, `BudgetFacts` and
`BudgetSettlements` its interleavings, and `BudgetTracking` the per-run tracker and the cost arithmetic.

**Smaller protocols.** `Cancellation` (the check, register, wake race), `Compaction` (tool pairing across
repeated cuts), `Realtime` (dedupe as replay of the accepted stream) and `SemVer` (precedence and the registry
tag that may only advance).

Operations that update something in place are classes or methods; each is proved equal to a function of the old
state, and the theorems are about those functions. `dafny verify dfyconfig.toml` checks everything.

Where the code and what is written about it differ, the model follows the code:

- `crates/aikit-core/src/compaction.rs` says on lines 48-50 that the most recent messages are always kept and that
  the cut moves earlier, never later. The code moves it later, past tool results, as lines 12-14 say.
  `Compaction.RecentResultIsDropped` shows a message lost that way, `Compaction.RecentMessagesSurviveExactly` says
  exactly when all of them survive, and `Compaction.DueCompactionHappensExactly` when a due compaction happens at all.
- The approver checks the poison flag before it makes a request and not again before it commits the answer, so the
  answer can still be written through a poisoned driver's state: `Poisoning.PoisonedApproverMayStillResolve` shows it.
  By `Poisoning.PoisonedWritesExactly` this is possible if and only if a typed approval is pending in that state, the
  state is still the stored one and its lease allows a write; a driver poisoned with no approval pending never writes
  again and its state is frozen (`Poisoning.PoisonedIdleNeverWrites`).
- An active lease holder may commit another worker's claim that only starts when its own lease ends, so a change
  of holder is not always a claim valid at that moment. `Fencing.HolderMayHandOverEarly` shows it and
  `Fencing.LeaseChangesHands` gives the exact condition.
- A limit equal to the 64-bit maximum limits nothing, because totals saturate there; `Budget.SaturatingCheckIsExact`
  and `BudgetFacts.ReserveAcceptsExactly` state both sides, and `BudgetFacts.MaximumLimitsNothing` shows one such call.
- Finalization fails once a foreign event has taken the identities the runtime stops under, such as a host checkpoint
  under its key. `TerminalProtocol.FinalizeVerdictIsHonoured` is the exact condition,
  `TerminalProtocol.HostCheckpointBlocksFinalization` the failing side, `FinalizableRun.RunBlockedByHost` a concrete run,
  and `TerminalProtocol.BlockedForEver` says that it stays so for as long as the run has not stopped that way by other
  means.
- Reported cache reads above the reported input can lower the tracker's cumulative cost, so a crossed cost limit
  can reopen; `BudgetTracking.ExcessCacheReadsLowerTheCost` shows it, `BudgetTracking.CostCannotFallExactly` gives the
  exact condition on a report, and `BudgetTracking.PricingKeepsCostFromFalling` the one on the pricing.

## Model

| member | source | states |
|---|---|---|
| `RunInvariants.RebuildIdentity` | crates/aikit-core/src/durability.rs:789-818 | A log that rebuilds at all rebuilds to a state carrying that very log and the given identity |
| `RunInvariants.AppendValid` | crates/aikit-core/src/durability.rs:988-1053 | Whatever append accepts, the new state is again what its own log rebuilds to, and it extends the old log by at most one event |
| `RunInvariants.EqualLengthExtensionIsEqual` | crates/aikit-core/src/durable_store.rs:249-278 | Two valid states, one extending the other, with equally long logs are equal, projection included |
| `RunInvariants.ValidRecords` | crates/aikit-core/src/durability.rs:2398-3245 | In every valid log, every activity record has a legal shape: reserved definitions match their intent, a lifecycle has one attempt, only the last attempt can run, reserved attempts are never cancelled or ambiguously failed, outputs are the announced ones |
| `RunInvariants.ValidStatus` | crates/aikit-core/src/durability.rs:2398-3245 | In every valid log the status means what it says: a terminal run has nothing running and all reserved audits closed, pending reconciliation shows in the status, an active run has no pending approval, ordinary work never runs beside a terminal marker |
| `AttemptHistory.ValidLogAgrees` | crates/aikit-core/src/durability.rs:2692-3012 | Every start, completion, failure and reconciliation event anywhere in a valid log is reflected by the attempt it names |
| `AttemptHistory.ValidHistory` | crates/aikit-core/src/durability.rs:2692-3012 | Every attempt's start is in the log at its recorded sequence, and a later attempt of an unsafe activity has retry evidence before it |
| `AttemptHistory.UnsafeEffectsStartAtMostOnce` | crates/aikit-core/src/durability.rs:2692-2753 | Two starts of one reconcile-required activity in any valid log are separated by an unambiguous retryable failure or a SafeToRetry of the earlier attempt |
| `StatusMachine.StatusFollowsEvents` | crates/aikit-core/src/durability.rs:2398-3245 | Every accepted event is one the run's status admits and leads to the status it should, for every kind of event |
| `StatusMachine.PauseAndResumeExactly` | crates/aikit-core/src/durability.rs:3163-3183 | A run is paused exactly when it is active or paused, and resumed exactly when it is paused with no approval or reconciliation pending |
| `StatusMachine.StopsExactly` | crates/aikit-core/src/durability.rs:3209-3241 | A run completes exactly when no reserved audit, attempt, approval or reconciliation is open; it may fail or be cancelled with approvals and reconciliations pending |
| `StatusMachine.ApprovalsExactly` | crates/aikit-core/src/durability.rs:3013-3114 | An approval is requested once and within a live run; a typed one is answered exactly within its window, or denied for its time-out once the window is over |
| `StatusMachine.RenewalsExactly` | crates/aikit-core/src/durability.rs:2525-2584 | Only the holder renews or releases, exactly while its lease runs and not before its last heartbeat; a renewal extends, within the maximum |
| `StatusMachine.CheckpointsExactly` | crates/aikit-core/src/durability.rs:3142-3162 | A checkpoint key is committed once, in a run that has not stopped; the state is replaced exactly in an active run |
| `Decisions.ValidIsExplained` | crates/aikit-core/src/durability.rs:2585-3012 | In every valid log every record was scheduled with its definition and every attempt shows the outcome one of its own events gave it |
| `Decisions.EventExplainsItsAttempt` | crates/aikit-core/src/durability.rs:2585-3012 | An activity event creates one record or changes exactly the attempt it names, to the outcome it reports |
| `Decisions.DecideMeaning` | crates/aikit-core/src/durability.rs:1236-1370 | The decision on a known activity is the one its record calls for, and an event of the committed log backs it |
| `Decisions.BeginMeaning` | crates/aikit-core/src/durability.rs:1160-1234 | Begin accepts only the scheduled definition, starts what is unknown, answers what is known as its record calls for, and writes nothing when it reuses or refuses |
| `Decisions.CommittedResultIsReused` | crates/aikit-core/src/durability.rs:1246-1251 | A result committed for the last attempt, by completion or reconciliation, is exactly what every later begin returns, and nothing is written |
| `Decisions.FailureMeaning` | crates/aikit-core/src/durability.rs:1415-1484 | A failure of a reserved activity or an ambiguous one that cannot be repeated must be reconciled, a final one is final, a retryable one of a running attempt starts the next under the scheduled key |
| `Disposition.SweepPhase` | crates/aikit-core/src/durable_runtime.rs:925-1132 | The loop over one class of activities is the left fold of its step in iteration order, stopping at the first error |
| `Disposition.Classify` | crates/aikit-core/src/durable_runtime.rs:913-1341 | The whole classification, loop by loop, is the specification function that the disposition lemmas are about |
| `DispositionFacts.DispositionIsComplete` | crates/aikit-core/src/durable_runtime.rs:913-1341 | When classification returns, no reserved audit other than the caller's own lifecycle and no reconcile-required activity is running, no reserved schedule is without an attempt, and the log was only extended |
| `DispositionFacts.DispositionIsIdempotent` | crates/aikit-core/src/durable_runtime.rs:913-1341 | A second classification succeeds, appends no event and reaches the same verdict (a run sent to reconciliation stays there, possibly under another explanation) |
| `DispositionFacts.FinalizeVerdictIsSafe` | crates/aikit-core/src/durable_runtime.rs:1133-1199 | FinalizeTerminal is returned only when nothing is ambiguous or paused, nothing was written, every recovery audit is complete and the stored receipt is the one its intent hash announced |
| `DispositionFacts.StoredReceiptMatchesIntent` | crates/aikit-core/src/durable_runtime.rs:537-584 | In every valid run a stored canonical receipt is exactly the receipt its delivery intent committed to |
| `DispositionFacts.VerdictIsTotal` | crates/aikit-core/src/durable_runtime.rs:1133-1199 | On a valid run the verdict never fails on a malformed envelope or receipt |
| `DispositionTotality.DispositionNeverFails` | crates/aikit-core/src/durable_runtime.rs:913-1341 | Classification succeeds on every valid run whose attempt identities are used for their own attempts, whichever attempts a crash left open |
| `Verdicts.VerdictIsExact` | crates/aikit-core/src/durable_runtime.rs:1133-1341 | The verdict fits the state the classification leaves, every verdict that fits is the one given, and something was written only if the run is sent to reconciliation: blocked, paused, retryable, finalizable, stopped and executable runs are told apart by the projection alone |
| `Verdicts.ExecutesExactly` | crates/aikit-core/src/durable_runtime.rs:1133-1341 | ExecuteRun is answered if and only if nothing was written and the run is active, not blocked, without canonical audit and without open recovery audit |
| `Verdicts.UndeliveredIsRetryable` | crates/aikit-core/src/durable_runtime.rs:1146-1199 | In a settled run that is not blocked every undelivered terminal audit may be retried, so the classification never gets stuck on one |
| `Acceptance.ExecuteVerdictIsHonoured` | crates/aikit-core/src/durable_runtime.rs:1500-1541 | After an ExecuteRun verdict a new invocation opens its lifecycle if and only if its name is valid |
| `Acceptance.RetryVerdictIsHonoured` | crates/aikit-core/src/durable_runtime.rs:2153-2260 | After a RetryTerminalAudit verdict that retry starts the next attempt of its audit if and only if the lifecycle was reconciled with exactly this replay and attempts are not exhausted |
| `DispositionTotality.CommittedIdsFit` | crates/aikit-core/src/durable_runtime.rs:1369-2340 | Every run written by driver commands has that property of its identities |
| `CommandFacts.CommandContinues` | crates/aikit-core/src/durable_runtime.rs:1369-2340 | Every driver command that succeeds leaves a valid extension of its log whose new events are only those the command may write, under their own identities |
| `CommandMeaning.CommandAchieves` | crates/aikit-core/src/durable_runtime.rs:1369-2340 | Every driver command that succeeds has achieved what it is for, told by the state and log it leaves: the begun activity and its decision, the committed outputs of both halves of a pair, the status stopped in, the settled run and a fitting verdict, the logged lease, reconciliation or host event |
| `TerminalProtocol.PermitIsPersisted` | crates/aikit-core/src/durable_runtime.rs:212-246 | No entry point grants permission to execute an attempt unless the log it commits starts that very attempt |
| `Acceptance.OrdinaryBeginsExactly` | crates/aikit-core/src/durable_runtime.rs:1369-1432 | A new ordinary activity begins if and only if its names and key are valid, the run is active and no terminal audit has been scheduled |
| `Acceptance.OrdinaryCompletesExactly` | crates/aikit-core/src/durability.rs:1372-1413 | A result is taken if and only if its attempt is running or has just this result, and the run has not stopped |
| `Acceptance.LifecycleBeginsExactly` | crates/aikit-core/src/durable_runtime.rs:1500-1541 | A new invocation opens if and only if its name is valid, the run is active, no other invocation is open and no terminal audit was scheduled |
| `Acceptance.RunStoppedBeginsExactly` | crates/aikit-core/src/durable_runtime.rs:1754-1826 | The canonical audit opens if and only if its envelope fits the run, the run is active, and only the lifecycle of its invocation is running |
| `Acceptance.RecoveryBeginsExactly` | crates/aikit-core/src/durable_runtime.rs:2020-2092 | A recovery audit opens if and only if its envelope fits, the run is active, only its own lifecycle is running, and the canonical receipt of another invocation is committed and the same |
| `Acceptance.PairCompletes` | crates/aikit-core/src/durable_runtime.rs:1878-1917 | A running audit and the running lifecycle of its invocation can always be completed together |
| `Acceptance.RetryStartsAlone` | crates/aikit-core/src/durable_runtime.rs:2206-2232 | A terminal retry starts only with nothing running, only for an audit that may be retried, and only over a stable binding that fails closed |
| `LifecycleFence.OneInvocationAtATime` | crates/aikit-core/src/durable_runtime.rs:1500-1541 | In every history whose lifecycles are opened by their own entry point, at most one invocation is open at a time |
| `LifecycleFence.PersistedRunsAreFenced` | crates/aikit-core/src/durable_runtime.rs:1500-1541 | The same of every run the store ever holds, through every crash and misreported swap |
| `LifecycleFence.CloseFromCanonicalMeaning` | crates/aikit-core/src/durable_runtime.rs:1583-1662 | Closing from the canonical receipt says yes only if the lifecycle is then closed with exactly the canonical replay of its own invocation, and changes nothing when it says no |
| `LifecycleFence.UnstartedClosesExactly` | crates/aikit-core/src/durable_runtime.rs:1543-1559 | An open lifecycle is closed as never started if and only if no terminal audit was scheduled for it and no other attempt started behind it |
| `LifecycleFence.DirectClosesExactly` | crates/aikit-core/src/durable_runtime.rs:1561-1581 | An open lifecycle is closed with a direct replay if and only if that is a valid envelope of this run and invocation and no terminal audit was scheduled for it |
| `LifecycleFence.PairFails` | crates/aikit-core/src/durable_runtime.rs:1988-2012 | Failing a running audit and its running lifecycle always succeeds and sends both to reconciliation |
| `LifecycleFence.ReconciliationMeaning` | crates/aikit-core/src/durability.rs:1597-1648 | Reconciling an ordinary activity succeeds if and only if its last attempt awaits it; the attempt is settled as told and the run pauses once nothing is open |
| `TerminalProtocol.CanonicalScheduledAtMostOnce` | crates/aikit-core/src/durable_runtime.rs:1754-1826 | In every valid log the canonical RunStopped audit is scheduled at most once |
| `TerminalProtocol.CanonicalScheduleIsExclusive` | crates/aikit-core/src/durability.rs:3697-3834 | It is scheduled only while the lifecycle of its own invocation is running and no other activity is |
| `TerminalProtocol.NoOrdinaryWorkAfterCanonical` | crates/aikit-core/src/durable_runtime.rs:1377-1420 | After it is scheduled, no ordinary activity is ever scheduled or started in any valid log |
| `TerminalProtocol.NoLifecycleAfterCanonical` | crates/aikit-core/src/durable_runtime.rs:1500-1541 | After it is scheduled, no sequence of driver commands opens another invocation lifecycle |
| `TerminalProtocol.StopIsFinal` | crates/aikit-core/src/durability.rs:3209-3241 | A complete, fail or cancel event anywhere in a valid log is the status of the run from then on |
| `TerminalProtocol.FinalizeIsIdempotent` | crates/aikit-core/src/durable_runtime.rs:1924-1983 | A successful finalization reaches the status of the receipt, and repeating it on the committed state succeeds and appends nothing |
| `TerminalProtocol.FinalizedStatusByReason` | crates/aikit-core/src/durable_runtime.rs:1928-1932 | A finalized run is completed, cancelled or failed exactly by the three classes of reasons, and keeps the reason of a failure or cancellation |
| `TerminalProtocol.DirectStopMeaning` | crates/aikit-core/src/durable_runtime.rs:2298-2340 | Completing succeeds only by completing; failing and cancelling reach their status with the reason, or leave a stopped or ambiguous run alone |
| `Driver.FinalizeOfInactiveRun` | crates/aikit-core/src/durable_runtime.rs:1924-1983 | Finalizing a run that is not active leaves driver and store unchanged, and succeeds exactly when the driver may act and the run already stopped as the receipt says |
| `TerminalProtocol.HostCheckpointBlocksFinalization` | crates/aikit-core/src/durable_runtime.rs:1924-1983 | On every run whose receipt could be finalized, a host checkpoint under the runtime's key keeps the FinalizeTerminal verdict and makes finalization fail |
| `TerminalProtocol.BlockedForEver` | crates/aikit-core/src/durable_runtime.rs:1924-1983 | Once a foreign event took the identities a receipt stops under, finalizing it on any later state of the run succeeds if and only if the run already has that status |
| `FinalizableRun.RunWaitsForFinalization` | crates/aikit-core/src/durable_runtime.rs:1133-1199 | A concrete valid run of seven events, ending in the paired completion of its audit and lifecycle, is classified as FinalizeTerminal without a write |
| `FinalizableRun.RunBlockedByHost` | crates/aikit-core/src/durable_runtime.rs:1924-1983 | That run can be finalized; after a host checkpoint under the runtime's key it is still classified as FinalizeTerminal, and finalization fails on it and on every active continuation of it |
| `TerminalProtocol.FinalizeVerdictIsHonoured` | crates/aikit-core/src/durable_runtime.rs:1924-1983 | After a FinalizeTerminal verdict on an active run, finalizing that receipt succeeds, and reaches its status, if and only if no foreign event took the identities the runtime stops under |
| `PairAtomicity.ValidLinks` | crates/aikit-core/src/durability.rs:4423-4573 | In every valid log a lifecycle closed with an audit's replay names an audit that exists with exactly that replay as its intent |
| `PairAtomicity.AuditAndLifecycleCompleteTogether` | crates/aikit-core/src/durable_runtime.rs:1878-1917 | After any sequence of paired commands without operator reconciliation of an audit, a completed canonical or recovery audit has its invocation's lifecycle completed with the same replay |
| `DurableStore.InMemoryDurableStore.Create` | crates/aikit-core/src/durable_store.rs:430-442 | Creates an absent run and touches no other; an existing run is refused and nothing changes |
| `DurableStore.InMemoryDurableStore.Load` | crates/aikit-core/src/durable_store.rs:444-453 | Returns exactly the stored state, or NotFound |
| `DurableStore.InMemoryDurableStore.CompareAndSwap` | crates/aikit-core/src/durable_store.rs:492-530 | Replaces exactly one run when revision, fence, append-only and approval checks all pass at one clock reading; otherwise reports the first failing check and changes nothing |
| `DurableStore.CheckNoGuardedResolutions` | crates/aikit-core/src/durable_store.rs:394-427 | The loop over appended events accepts exactly when every resolved approval is already stored and untyped, and otherwise reports the first offender |
| `DurableStore.CheckApprovalResolution` | crates/aikit-core/src/durable_store.rs:286-384 | The loop with its counter and expiry flag is the scan that the approval-deadline lemmas are about |
| `StoreAcceptance.StoreAcceptsExactly` | crates/aikit-core/src/durable_store.rs:492-530 | The store accepts a write if and only if revision, prefix, lease and approvals allow it, stated over the appended events: for every writer, on the ordinary, fenced and guarded path |
| `StoreAcceptance.RefusalsNameTheirCause` | crates/aikit-core/src/durable_store.rs:176-209 | A refusal names the revision first and then what the lease demanded: authority, the right authority, a recovery claim, or a claim valid now |
| `StoreAcceptance.TakeoverIsAccepted` | crates/aikit-core/src/durable_store.rs:186-246 | On a run without a running lease, a fresh claim that fits the log is accepted from anybody exactly while the claim is valid |
| `StoreAcceptance.ClaimSucceedsExactly` | crates/aikit-core/src/durable_runtime.rs:786-798 | A driver in step with the store takes over a run if and only if no lease is running and the claim fits and is valid now; it then holds the lease in its state and in the store and learns whether it recovered one |
| `Driver.DurableRunDriver.TransitionInner` | crates/aikit-core/src/durable_runtime.rs:2383-2429 | One transition gives exactly the specified new driver state, store content and result, in every failure case as well |
| `Poisoning.TransitionPoisonsExactly` | crates/aikit-core/src/durable_runtime.rs:2383-2429 | A transition poisons its driver if and only if the store failed it or held something else; every error leaves state and runs unchanged; a success leaves exactly what the command makes, in driver and store, and returns its outcome |
| `Poisoning.StepPoisonsExactly` | crates/aikit-core/src/durable_runtime.rs:2422-2425 | In every behaviour a step poisons a driver if and only if it is its load that fails or differs, its swap that is not reported as committed, or its approver's swap that fails other than by a definite expiry |
| `Poisoning.StoreAnswersAreReported` | crates/aikit-core/src/durable_runtime.rs:2388-2404 | A missing or different stored run poisons the driver and is reported as such |
| `Poisoning.PoisonedRefusesEverything` | crates/aikit-core/src/durable_runtime.rs:2383-2388 | A poisoned driver answers every transition with Poisoned and changes nothing |
| `Driver.DurableRunDriver.CompleteActivity` | crates/aikit-core/src/durable_runtime.rs:1440-1471 | A result over the storage limit is never committed; its attempt is recorded as an ambiguous failure and the caller is told |
| `Driver.DurableRunDriver.BindWorkerLease` | crates/aikit-core/src/durable_runtime.rs:800-825 | Binds exactly when the local state shows that lease held and unexpired; otherwise the old binding stays |
| `Driver.DurableRunDriver.ClaimInvocation` | crates/aikit-core/src/durable_runtime.rs:880-893 | Succeeds exactly when no invocation is active on the shared driver |
| `Driver.DurableRunDriver.DropInvocationClaim` | crates/aikit-core/src/durable_runtime.rs:687-691 | Dropping the claim frees the driver and touches nothing else |
| `Driver.Attach` | crates/aikit-core/src/durable_runtime.rs:706-747 | Attaching succeeds exactly for a synchronous run that is absent or stored exactly as given; failure changes no run |
| `Coordination.InvariantHolds` | crates/aikit-core/src/durable_runtime.rs:2383-2429 | In every reachable state all stored runs are valid, every driver's log is a prefix of the stored one, and every pending candidate properly extends its driver's log |
| `Coordination.NoLostUpdate` | crates/aikit-core/src/durable_store.rs:492-530 | Every swap that takes effect, reported or not, replaces exactly the state its driver loaded and mutated, and touches no other run |
| `Coordination.LocalLogIsAPrefix` | crates/aikit-core/src/durable_runtime.rs:2383-2429 | Each driver's local log is a prefix of the stored log at every moment |
| `Coordination.NoLostApproval` | crates/aikit-core/src/governance/mod.rs:311-370 | Every effective swap of an approver replaces exactly its driver's state by its candidate and touches no other run |
| `Poisoning.PoisonedNeverWrites` | crates/aikit-core/src/durable_runtime.rs:2383-2429 | A poisoned driver stays poisoned, and a step through its state that changes a run is its approver's answer, with a typed approval pending in that state, the state the stored one and its lease allowing a write |
| `Poisoning.PoisonedWritesExactly` | crates/aikit-core/src/governance/mod.rs:563-582 | Through a poisoned driver's state some step can change a run if and only if, before it, a typed approval is pending there, the state is the stored one and its lease allows a write |
| `Poisoning.PoisonedIdleNeverWrites` | crates/aikit-core/src/durable_runtime.rs:2383-2429 | A driver poisoned with no approval pending keeps its state for ever, and no step through it changes any run |
| `Poisoning.PoisonedApproverMayStillResolve` | crates/aikit-core/src/governance/mod.rs:563-582 | A concrete history in which the answer to a request is committed through the state of a driver poisoned meanwhile |
| `Approver.DurableToolApprover.VerifyCurrent` | crates/aikit-core/src/governance/mod.rs:372-400 | Succeeds exactly when the driver is not poisoned and the store holds its state; otherwise the driver ends poisoned |
| `Approver.DurableToolApprover.CommitCandidate` | crates/aikit-core/src/governance/mod.rs:311-370 | Gives exactly the specified driver, store and answer: adopted on success, poisoned on failure, untouched when the store certainly wrote nothing because the approval had expired |
| `Approver.ExpiryDoesNotPoison` | crates/aikit-core/src/governance/mod.rs:334-364 | When the driver's state is the stored one, an expiry refusal of an approval never poisons it |
| `Coordination.RunsPersist` | crates/aikit-core/src/durable_store.rs:249-278 | Stored runs never disappear and their logs only grow, over any behaviour |
| `DriverHistories.StoredRunsAreWritten` | crates/aikit-core/src/durable_runtime.rs:2376-2429 | When reserved audit activities are written only through drivers, and any other client writes approvals, control events and ordinary activities on any path, using an attempt's identity only for that attempt, every stored run is a fresh run followed by committed commands, through every crash and misreported swap |
| `DriverHistories.PersistedAuditsArePaired` | crates/aikit-core/src/durable_runtime.rs:2094-2148 | Pair atomicity for every persisted state of such a system, after any crash or commit-then-error swap and through approvals, control events and ordinary activities of any client, without operator reconciliation of an audit |
| `DriverHistories.PersistedBoundaryHolds` | crates/aikit-core/src/durable_runtime.rs:1504-1524 | Terminal boundary for every persisted log of such a system: no ordinary activity and no lifecycle is scheduled or started after the canonical audit |
| `DriverHistories.PersistedRunsCanBeClassified` | crates/aikit-core/src/durable_runtime.rs:895-911 | Every run the store of such a system ever holds can be classified; that leaves nothing open and repeating it changes nothing |
| `DriverHistories.GrantIsStored` | crates/aikit-core/src/durable_runtime.rs:1369-1432 | A permit granted by an effective swap is an attempt started by that swap in the stored log |
| `DriverHistories.SecondPermitNeedsEvidence` | crates/aikit-core/src/durable_runtime.rs:1110-1137 | In every stored log, written by drivers or not, two starts of a reconcile-required activity are separated by retry evidence |
| `DriverHistories.TwoPermitsAreSeparatedByEvidence` | crates/aikit-core/src/durable_runtime.rs:2206-2260 | Whichever drivers receive two permits for one reconcile-required activity, whatever crashed in between, the stored log shows the retryable failure or SafeToRetry between the two starts |
| `Fencing.ActiveLeaseFencesWrites` | crates/aikit-core/src/durable_store.rs:176-209 | Every accepted write while a lease is active carries that lease's owner and token |
| `Fencing.TakeoverIsABoundedClaim` | crates/aikit-core/src/durable_store.rs:211-246 | A write without authority happens only when no lease is active, and if there was a lease or a claim is appended it is a single claim, valid now, of bounded length |
| `Fencing.LeaseChangesHands` | crates/aikit-core/src/durable_store.rs:176-246 | A new holder got the run by a bounded claim when no lease was active, exactly when the write presented no authority, and otherwise from the active holder's own write |
| `Fencing.HolderMayHandOverEarly` | crates/aikit-core/src/durable_store.rs:176-209 | A concrete accepted write in which the active holder commits a future claim of another worker |
| `Fencing.LapsedHolderNeverWritesAgain` | crates/aikit-core/src/durable_runtime.rs:2431-2461 | With fresh lease tokens, a superseded, released or expired holder never writes, renews or releases again |
| `ApprovalDeadline.ApprovingWriteIsGuarded` | crates/aikit-core/src/durable_store.rs:516-528 | The step that approves a typed approval is a guarded swap naming it that took effect, turning it from pending to approved before the expiry persisted with it |
| `ApprovalDeadline.ApprovedOnlyBeforeExpiry` | crates/aikit-core/src/durable_store.rs:286-384 | Over every behaviour, a typed approval approved after creation was approved by a guarded swap naming exactly it that took effect, at a store clock strictly before the expiry persisted then and now |
| `ApprovalDeadline.UnguardedWritesResolveNothing` | crates/aikit-core/src/durable_store.rs:390-427 | No ordinary or fenced swap approves or rejects a typed approval, even one requested in the same batch |
| `Budget.ReservationTotals` | crates/aikit-core/src/budget.rs:557-569 | Folding live reservations with saturating adds, in any iteration order, gives the true sum capped at the maximum |
| `Budget.SaturatingCheckIsExact` | crates/aikit-core/src/budget.rs:593-608 | A saturating limit check accepts exactly when the true total fits or the limit is the maximum |
| `Budget.BudgetLedger.ReserveModelCall` | crates/aikit-core/src/budget.rs:369-447 | Either nothing changes and the first failing check is reported, or exactly one reservation with the worst case is added under the next identifier |
| `BudgetSettlements.ReservationHoldsTheWorstCase` | crates/aikit-core/src/budget.rs:427-447 | A reservation takes up exactly one call, the tokens asked for and their price, in every live total; nothing else changes |
| `BudgetSettlements.DroppedCallSettlesAsRequested` | crates/aikit-core/src/budget.rs:313-328 | Over every interleaving a call dropped after it started settles, and is committed, as exactly what was asked for it, and one that never started as nothing |
| `BudgetSettlements.ReconciledCallSettlesAsReported` | crates/aikit-core/src/budget.rs:449-519 | Over every interleaving a started call settles as its report and the price of that report, as what was asked for if the report cannot be priced, and as nothing if it never started |
| `BudgetSettlements.ReconcileAnswersExactly` | crates/aikit-core/src/budget.rs:449-519 | Reconciliation succeeds if and only if the call had started, its report can be priced, and what is then committed is within every limit |
| `BudgetSettlements.LiveCallStartsOnce` | crates/aikit-core/src/budget.rs:288-310 | A live call can be started exactly once, and starting it changes nothing but its own entry |
| `Budget.BudgetLedger.ReconcileCall` | crates/aikit-core/src/budget.rs:449-519 | Settles the handle exactly as specified, also on every error path; a foreign handle is refused and settles on its own ledger |
| `Budget.NewLedger` | crates/aikit-core/src/budget.rs:331-355 | Refused exactly for a limit of zero calls or an allowance past the last instant; otherwise an empty ledger that is late from its deadline on |
| `Budget.BudgetReservation.MarkStarted` | crates/aikit-core/src/budget.rs:288-310 | Starts exactly a reserved, live reservation, in handle and table together |
| `Budget.BudgetReservation.Dropped` | crates/aikit-core/src/budget.rs:313-328 | Releases an unstarted reservation, commits a started one in full, and ignores a settled one |
| `BudgetFacts.LedgerIsConserved` | crates/aikit-core/src/budget.rs:313-328 | In every interleaving each identifier issued is live or settled exactly once, and the committed counters are the saturated sums of the settlements |
| `BudgetFacts.SettlementIsFinal` | crates/aikit-core/src/budget.rs:449-519 | A settled reservation never becomes live again and never settles differently |
| `BudgetFacts.HonestClientsStayWithinLimits` | crates/aikit-core/src/budget.rs:369-519 | If no call reports more than it reserved, committed plus live reserved stays within every limit below the maximum, in exact integers |
| `BudgetFacts.HonestReconcileNeverExceeds` | crates/aikit-core/src/budget.rs:449-519 | Under the same condition reconciliation never reports Exceeded |
| `BudgetFacts.ReserveAcceptsExactly` | crates/aikit-core/src/budget.rs:389-426 | A call is admitted if and only if it is in time, its cost is computable and the true totals leave room for it under every limit below the maximum |
| `BudgetFacts.MaximumLimitsNothing` | crates/aikit-core/src/budget.rs:593-608 | A concrete ledger at the maximum whose limits at the maximum still admit a call |
| `BudgetFacts.IdentifierIsFreshUntilExhausted` | crates/aikit-core/src/budget.rs:427-447 | A reservation reuses a live identifier exactly when the counter is exhausted and the last one is still live |
| `BudgetTracking.BudgetTracker.Record` | crates/aikit-core/src/budget.rs:117-141 | Usage is added before it is judged, and the call is refused exactly when the tokens or the cost are over their limit |
| `BudgetTracking.NewTracker` | crates/aikit-core/src/budget.rs:73-111 | A tracker exists exactly for a valid policy and starts from nothing |
| `BudgetTracking.TotalsAreSaturatedSums` | crates/aikit-core/src/budget.rs:167-177 | Every counter of the tracker is the saturated sum of what was reported for it |
| `BudgetTracking.OneTokenOfEachKind` | crates/aikit-core/src/budget.rs:143-165 | One token of each kind, alone, costs its own rate, with the input rate standing in for missing cache rates |
| `BudgetTracking.ChargeIsLeastWholeNumber` | crates/aikit-core/src/budget.rs:610-636 | A charge is the least whole number of micro-dollars not below the exact cost |
| `BudgetTracking.CostIsComputableExactly` | crates/aikit-core/src/budget.rs:610-636 | A cost can be computed if and only if the pricing is valid and the cost is within range |
| `BudgetTracking.CumulativeCostIsSumOfCalls` | crates/aikit-core/src/budget.rs:143-177 | Without saturation and with cache reads within input, the cost of the cumulative usage is the sum of the calls' costs |
| `BudgetTracking.CostNeverFalls` | crates/aikit-core/src/budget.rs:143-177 | Under the same condition no prefix of the calls costs more than all of them |
| `BudgetTracking.CostLimitIsSticky` | crates/aikit-core/src/budget.rs:117-141 | Under the same condition a crossed cost limit stays crossed |
| `BudgetTracking.TokenLimitIsSticky` | crates/aikit-core/src/budget.rs:117-141 | A crossed token limit stays crossed, whatever is reported, saturation included |
| `BudgetTracking.ExcessCacheReadsLowerTheCost` | crates/aikit-core/src/budget.rs:143-165 | Two concrete reports after which a crossed cost limit is no longer crossed |
| `BudgetTracking.CostCannotFallExactly` | crates/aikit-core/src/budget.rs:143-177 | Without saturation, a report lowers the cumulative cost under no valid pricing if and only if its cache reads are within its input or no uncached input was recorded before |
| `BudgetTracking.PricingKeepsCostFromFalling` | crates/aikit-core/src/budget.rs:143-177 | For a valid pricing, no report lowers the cumulative cost if and only if cache reads are no cheaper than input |
| `BudgetTracking.CostLimitIsStickyWithoutDiscount` | crates/aikit-core/src/budget.rs:117-141 | Under such a pricing a crossed cost limit stays crossed, whatever cache reads are reported |
| `BudgetTracking.CallWithinReservationCostsNoMore` | crates/aikit-core/src/budget.rs:610-636 | A call within its reservation, without cache writes and with cache reads no dearer than input, costs at most the reserved cost, rounding included |
| `Cancellation.WakeupsAreNeverLost` | crates/aikit-core/src/cancellation.rs:55-79 | In every interleaving a waiter parked after cancellation is already notified or a canceller still owes the notification |
| `Cancellation.CancellationIsMonotone` | crates/aikit-core/src/cancellation.rs:55-65 | Once cancelled, cancelled for ever and for all clones |
| `Cancellation.CancelledWaitersAllReturn` | crates/aikit-core/src/cancellation.rs:67-79 | When a cancelled token has no step left to take, every waiter has returned |
| `Cancellation.WaitersReturnInFiveSteps` | crates/aikit-core/src/cancellation.rs:67-79 | Once a cancelled token has sent its notification, every waiter has returned after at most five steps of its own, whatever others do |
| `Cancellation.OnlyCancelledWaitersReturn` | crates/aikit-core/src/cancellation.rs:67-79 | No waiter returns and none is woken before the token is cancelled |
| `Cancellation.CancelTakesEffect` | crates/aikit-core/src/cancellation.rs:55-59 | A cancel call has cancelled the token once it has run its first step |
| `Compaction.CompactionCut` | crates/aikit-core/src/compaction.rs:158-175 | The loop finds the specified cut: behind the anchor, before the end, keeping at most the recent messages, never on a tool result |
| `Compaction.AssembleCompacted` | crates/aikit-core/src/compaction.rs:177-183 | Anchor, note and the tail from the cut, in this order |
| `Compaction.CompactMessages` | crates/aikit-core/src/compaction.rs:113-155 | Both entry points give the specified transcript, whatever the summarizer returned |
| `Compaction.RecentMessagesSurviveExactly` | crates/aikit-core/src/compaction.rs:158-183 | All recent messages survive a compaction if and only if the first of them carries no tool result, and otherwise exactly the tool results they begin with are lost |
| `Compaction.RecentResultIsDropped` | crates/aikit-core/src/compaction.rs:48-51 | Four concrete messages of which two are to be kept and one is |
| `Compaction.DueCompactionHappensExactly` | crates/aikit-core/src/compaction.rs:158-175 | A cut exists if and only if compaction is due, some message to be kept carries no tool result, and neither of the first two messages would be the first one kept |
| `Compaction.EstimateFollowsContent` | crates/aikit-core/src/compaction.rs:81-100 | The estimate is four tokens a message and one for every four characters said, a medium counting as 512, up to rounding per message |
| `Compaction.DueFollowsContent` | crates/aikit-core/src/compaction.rs:158-162 | A transcript that says enough for its limit is due, and one that says little enough is not |
| `Compaction.NoteIsSummaryOrDigest` | crates/aikit-core/src/compaction.rs:129-155 | The note is one text: the summary, or the digest where there is none, cut to its limit and otherwise unchanged |
| `Compaction.CompactionKeepsTranscript` | crates/aikit-core/src/compaction.rs:113-183 | One compaction keeps the anchor, answers every kept tool result inside the kept tail, never adds messages and leaves at most the recent ones plus two |
| `Compaction.ConversationKeepsPairing` | crates/aikit-core/src/compaction.rs:113-183 | Over any run of appends and compactions under any policies and summaries, the anchor never changes and every tool result keeps its tool use |
| `Realtime.RealtimeSession.Apply` | crates/aikit-core/src/multimodal.rs:247-289 | Returns the specified verdict and new state; only an accepted event changes anything |
| `Realtime.RunEqualsRunOfAccepted` | crates/aikit-core/src/multimodal.rs:247-289 | A session fed any stream ends as one fed only the accepted events, all of which are accepted again |
| `Realtime.RedeliveriesChangeNothing` | crates/aikit-core/src/multimodal.rs:247-289 | A stream with redeliveries of accepted events inserted anywhere, any number of times, ends in the same state and accepts the same events |
| `Realtime.RunEqualsRunOfDedupe` | crates/aikit-core/src/multimodal.rs:247-289 | A session ends in the same state on a stream and on the stream without its repeats if and only if no event is accepted where it had already been delivered |
| `Realtime.AcceptableStreamsAbsorbRepeats` | crates/aikit-core/src/multimodal.rs:247-289 | When every event, delivered once, is accepted, repeats anywhere change neither the state nor what is accepted |
| `Realtime.RefusedEventMayBeAcceptedLater` | crates/aikit-core/src/multimodal.rs:272-278 | A concrete stream in which a repeat of a refused event is accepted and the states differ |
| `Realtime.AcceptedEventsAreNumbered` | crates/aikit-core/src/multimodal.rs:247-289 | The accepted events are numbered 1..n under distinct ids, n is the size of the dedupe table and at most 65,536, and the table holds exactly their fingerprints |
| `Realtime.RedeliveryIsInvisible` | crates/aikit-core/src/multimodal.rs:251-260 | Redelivering an accepted event at any later point is absorbed and changes nothing, whatever follows |
| `Realtime.TerminalAbsorbs` | crates/aikit-core/src/multimodal.rs:266-271 | After a terminal state nothing is accepted and nothing changes |
| `Realtime.StateIsTheLastChange` | crates/aikit-core/src/multimodal.rs:280-286 | After any stream the state is the one the last accepted state-changing event leads to |
| `Realtime.NextEventIsAccepted` | crates/aikit-core/src/multimodal.rs:251-278 | An open session with room accepts an event if and only if it has the next number and a new identifier |
| `SemVer.SemverPrecedence` | scripts/registry-package-status.py:212-228 | The loop builds the specified key, and fails exactly on a numeric identifier with a leading zero |
| `SemVer.ComparePrerelease` | scripts/registry-package-status.py:242-248 | The loop over zipped identifiers with early returns is the identifier-list comparison the order lemmas are about |
| `SemVer.CompareSemver` | scripts/registry-package-status.py:231-248 | The comparison of two versions is the comparison of their keys, and fails exactly when one has none |
| `SemVer.CompareIsAntisymmetric` | scripts/registry-package-status.py:231-248 | Swapping the arguments negates the result, and it is zero exactly when core and prerelease agree |
| `SemVer.CompareIsTransitive` | scripts/registry-package-status.py:231-248 | Below composes with below |
| `SemVer.CompareMatchesSpecification` | scripts/registry-package-status.py:231-248 | The comparison is exactly the precedence of item 11 of Semantic Versioning 2.0.0, stated independently |
| `SemVer.BuildMetadataIsIgnored` | scripts/registry-package-status.py:212-228 | Build metadata changes neither the key nor any comparison |
| `SemVer.NumbersCompareAsDecimals` | scripts/registry-package-status.py:222-226 | Numeric identifiers compare as decimal numbers: the longer is larger, else the first differing digit decides |
| `SemVer.OneDigit` | scripts/registry-package-status.py:222-226 | The ten digits are the numbers zero to nine |
| `SemVer.KeysExactly` | scripts/registry-package-status.py:212-228 | A version has a key if and only if no numeric identifier has a leading zero, and the key reads digits as numbers and everything else as text |
| `SemVer.TagDecisionIsExact` | scripts/registry-package-status.py:251-275 | The tag advances if and only if both versions are valid and the new one has higher precedence; missing and exact exactly when there is no tag or the same |
| `SemVer.TagOnlyMovesForward` | scripts/registry-package-status.py:251-275 | Any sequence of allowed tag moves strictly increases precedence, never revisits a version, and would refuse to go back |

## Left out

- Legacy runs: the v1 `RunStopped` migration bridge, quarantine of legacy activities, and event schemas other than the current one.
- RunInvariants.ValidRecords: fork, rewind, artifact and policy-pin events are not modelled.
- RunInvariants.ValidStatus: fork, rewind, artifact and policy-pin events are not modelled.
- Disposition.Classify: the v1 bridge inside the classification is not modelled.
- AttemptHistory.ValidLogAgrees: holds of runs that were never rewound; a rewind restores the activities of a checkpoint and drops what the log did after it.
- AttemptHistory.ValidHistory: holds of runs that were never rewound, for the same reason.
- AttemptHistory.UnsafeEffectsStartAtMostOnce: holds of runs that were never rewound; after a rewind the reconciliation demanded of its caller stands in for the evidence.
- TerminalProtocol.PermitIsPersisted: holds of runs that were never rewound; afterwards a start event may be deduplicated.
- TerminalProtocol.CanonicalScheduledAtMostOnce: holds of runs that were never rewound; a rewind drops reserved markers.
- TerminalProtocol.NoOrdinaryWorkAfterCanonical: holds of runs that were never rewound, for the same reason.
- TerminalProtocol.NoLifecycleAfterCanonical: holds of runs that were never rewound, for the same reason.
- ApprovalDeadline.ApprovedOnlyBeforeExpiry: holds of runs that were never rewound; a rewind restores a checkpoint's approvals.
- ApprovalDeadline.UnguardedWritesResolveNothing: holds of runs that were never rewound, for the same reason.
- The results of `DriverHistories` and `FinalizableRun` that rest on these are about runs that were never rewound as well.
- Fork and rewind, artifacts, policy and governance pins, approval kinds and their payloads.
- Hashes are injective datatypes: an activity is identified by its step and key, so raw events that carry a forged activity id are not modelled.
- JSON encoding, base64 and payload sizes: the size of an activity result is a parameter, and the size check of a paired audit completion is not modelled.
- Stores on SQLite and PostgreSQL, and the trait's default methods for stores without leases.
- Mutex poisoning and real clocks: a lock is an atomic step and the clock an input. Several handles of one driver that share its state but bind different leases are one agent here.
- Driver.Attach: in the method nothing comes between its load and its create; the race with another creator is the `Join` step of `Coordination`.
- Poisoning.PoisonedWritesExactly: an approver's candidate is any continuation by control events here; the code's own candidates, a request or answers followed by a resume, are some of these. The callback, its time-out and the decision payload are not modelled.
- PairAtomicity.AuditAndLifecycleCompleteTogether: does not cover operator reconciliation of an audit, after which a terminal audit is retried on its own against a lifecycle that the operator closed.
- Budget.BudgetLedger.ReserveModelCall: the limit and elapsed time reported when it is late, snapshots, and a ledger that disappears before its handles are not modelled.
- IEEE rounding in prices: rates and costs are exact reals, the ceiling and the range check are kept.
- Cancellation: the notifier is modelled by its wake rule; a waiter that is created and not yet enabled may or may not be woken. Time-outs and dropped futures are left out.
- Compaction.CompactMessages: the wording of the note and the content of the extractive digest are parameters, and lengths are counted in characters where the source counts bytes.
- Realtime.RealtimeSession.Apply: the validation in `RealtimeSession::new` and restoring a saved session are left out.
- SemVer.SemverPrecedence: the regular expression is left out; a version is what its groups yield.
- Command line, network and file access, language bindings, credentials, catalogues, provider lookup and field checks, which would only add easy members.
