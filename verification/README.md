# Verified model of the event-driven core

This project models, in Dafny, the transactional core of the system: the outbox and
its publishers, the per-subject conversation queue and memory, goal management,
advanced-mode transitions, stored timestamps, and the smaller protocols around them.
Operations that change rows or fields in place are methods of classes proved against
specification functions; what the system promises over whole runs is proved as lemmas
about those functions, for every run and every interleaving.

Run `dafny verify dfyconfig.toml`.

| file | models |
|---|---|
| `Wrappers.dfy`, `Text.dfy` | option and result types; the blank-text test |
| `TimeFormat.dfy` | timestamps as text and the order SQL sees |
| `TransactionCore.dfy` | the all-or-nothing transaction and its nesting guard |
| `FaultBoundary.dfy` | the plugin circuit breaker |
| `Outbox.dfy`, `Dispatch.dfy` | the outbox tables; dispatch with isolated failures |
| `PublisherLoop.dfy`, `Publishers.dfy`, `SequentialRuns.dfy`, `Retries.dfy` | one publisher's drain loop; many publishers that crash; the first as a run of the second; what can still happen to an event |
| `SubjectQueue.dfy`, `WorkingMemory.dfy`, `Conversation.dfy` | the ticket queue, the bounded memory, and turns interleaved |
| `Goals.dfy`, `GoalBooks.dfy`, `GoalManagement.dfy` | what each goal call commits; what every run of them keeps; the class that makes the changes in place |
| `AdvancedMode.dfy` | the two-stage mode transition against an adversarial environment |
| `Extension.dfy` | extension hours and the 336-hour ceiling |
| `Onboarding.dfy` | the onboarding questions under stale copies |
| `OAuthCallback.dfy` | one-time OAuth `state` values and the connections written from them |
| `StartupLease.dfy` | the startup lease |

## Conventions

- A row's identifier is its position in its append-only table, which stands for the fresh
  `uuid4` the program draws. Times are whole microseconds (an `Instant` is bounded by the
  years 1 to 9999 where the program's overflow matters). `now` is always an input.
- A transaction is one step that commits everything or leaves the state alone. SQLite's
  `BEGIN IMMEDIATE` is assumed to serialise transactions.
- Handlers, model generation, context assembly, token exchange, identity lookup and penalty
  windows are arbitrary: an input says what they did.
- A class method is proved against a specification function, and what that function means is a
  lemma of its own in the terms of the program (`...Iff`, `...Cases`, `...Are`); what a run
  can still do is stated beside what it keeps.
- Where several threads or processes interleave, a step machine has one step per critical
  section or transaction, and its steps use the same functions the class methods are proved
  against.

## Where the code and its documentation differ

The model follows the code.

- `mark_published` is described as setting `published_at` exactly once; it overwrites it
  (`Outbox.RepublishMovesTimestamp`), and two processes that claimed one event a lease apart
  do (`Retries.TwoHoldersPublishTwice`). A published row can still change exactly while some
  process holds the event (`Retries.PublishedRowChangesIff`).
- `dispatch` says that a legitimate retry remains possible after a handler failed; the event
  is marked published in the same round all the same (`Retries.FailedConsumerIsLost` is such a
  run). A consumer can still get its effect exactly when a process holding the event has one
  of its registrations still before it, or the event is unpublished and can be claimed again
  (`Retries.RetryPossibleIff`).
- `process_pending_events` with a batch size of zero stops on its first, empty claim although
  events are claimable (`PublisherLoop.ZeroBatchStopsAtOnce`,
  `PublisherLoop.DrainedMeansNothingClaimable`).
- Lease expiry is compared as text: within one second a stamp without a fraction sorts last,
  so a lease can end up to one second early (`TimeFormat.IsoOrder`, `Publishers.LeaseCanEndEarly`;
  `Publishers.ReclaimedEarlyIff` says exactly when).
- The circuit breaker's rolling window is exact only while failure times do not run backwards
  (`FaultBoundary.OutOfOrderFailuresCanBeMissed`; `FaultBoundary.DisabledIffSurvivors` is exact
  for every order).
- The startup lease says that a late release never clears a different holder's lease; the test
  is by process id, so a process granted two leases clears its second with its first
  (`StartupLease.ReleaseClearsIff`, `StartupLease.SameProcessTwice`); that is exactly how two
  leases can come to be held at once (`StartupLease.ExclusionEndsIff`).
- `advanced_mode/README.md` says every administrative method requires a consent reference;
  `cancel_request` and `advance_transition_state` take none.
- `penalty_engine/README.md` gives the remaining capacity without the clamp at zero that
  `penalty_engine/repository.py` line 247 applies; monotonicity holds exactly with it
  (`Extension.MonotoneIffCapacity`).
- Accepting a goal proposal never looks at its deadline (`GoalBooks.AcceptedIff`).

## Model

| member | source | states |
|---|---|---|
| TimeFormat.IsoRoundTrip | infrastructure/time_format.py:24-34 | parsing a printed instant gives it back, for every instant from year 1 to 9999 |
| TimeFormat.GregorianFields | infrastructure/time_format.py:31-34 | the seconds that can be read are exactly those of the Gregorian calendar: twelve month lengths, and 29 February by the 4, 100 and 400 year rule |
| TimeFormat.NextDay | infrastructure/time_format.py:31-34 | the next calendar date is 86400 seconds later, over the ends of months and years |
| TimeFormat.FirstDay | infrastructure/time_format.py:31-34 | time starts with the first of January of year 1, and the clock counts hours, minutes and seconds |
| TimeFormat.FourCenturies | infrastructure/time_format.py:31-34 | 400 years are 146097 days |
| TimeFormat.IsoText | infrastructure/time_format.py:24-28 | the text of every datetime, digit by digit and separator by separator |
| TimeFormat.DateTextParses | infrastructure/time_format.py:31-34 | the text of every Gregorian datetime is read as that datetime |
| TimeFormat.Epoch | infrastructure/time_format.py:24-28 | the texts of the first second of 1970, which is 62135596800 seconds in |
| TimeFormat.ParseIsoRoundTrip | infrastructure/time_format.py:24-34 | the texts `iso` writes are exactly those that parse and do not spell out a zero fraction, and printing what was parsed gives back exactly those |
| TimeFormat.IsoOrder | infrastructure/time_format.py:24-28 | the character order of two stamps, exactly: time order, except that within one second a stamp without a fraction comes last |
| TimeFormat.SqlLeIsTextOrder | infrastructure/outbox.py:158-167 | the comparison used in the model's queries is the character order of the stored texts |
| TimeFormat.SqlDeadline | infrastructure/outbox.py:163-167 | an SQL deadline test is off by less than one second, and in which direction exactly when |
| TimeFormat.SqlLeIsTotalOrder | infrastructure/outbox.py:158-170 | the text order is total, transitive and antisymmetric on instants, as sorting by it needs |
| TimeFormat.DateTimeUnique | infrastructure/time_format.py:31-34 | calendar fields and instants determine each other |
| Text.SpacesAre | advanced_mode/repository.py:60-61 | the characters stripping removes, by code point |
| TransactionCore.Database.Transaction | infrastructure/database.py:157-196 | the guard, the block on its own copy, nested blocks sent through the same guard, commit or rollback, and the thread closed again |
| TransactionCore.OpenThreadIsIsolated | infrastructure/database.py:176-196 | while a thread is open its statements leave the database as it is, nested blocks included, and only the block's own writes show in its copy |
| TransactionCore.AllOrNothing | infrastructure/database.py:157-196 | a block of a closed thread commits iff nothing escapes it, and then exactly its own writes in order, is the only block that runs, and restores the open threads; of an open thread only the exception happens |
| TransactionCore.OtherThreadsPlayNoPart | infrastructure/database.py:132-136 | the outcome does not depend on which other threads are open |
| TransactionCore.InnerBlocksNeverRun | infrastructure/database.py:176-182 | what nested blocks hold makes no difference |
| FaultBoundary.PluginFaultBoundary.Call | infrastructure/plugin_fault_boundary.py:120-166 | whether the handler runs, whether the call succeeds, and the new breaker state |
| FaultBoundary.PluginFaultBoundary.RecordFailureNow | infrastructure/plugin_fault_boundary.py:168-184 | the in-place pruning computes the specified breaker state |
| FaultBoundary.KeptIsSurvivors | infrastructure/plugin_fault_boundary.py:168-178 | whatever order failures come in, the kept list is those no later failure was a window past |
| FaultBoundary.DisabledIffSurvivors | infrastructure/plugin_fault_boundary.py:168-184 | the exact condition for disabling, for failure times in any order |
| FaultBoundary.KeptIsRecent | infrastructure/plugin_fault_boundary.py:168-178 | with non-decreasing times the kept list is exactly the failures inside the window |
| FaultBoundary.DisabledIffTooManyRecent | infrastructure/plugin_fault_boundary.py:168-184 | disabling is always justified by the rolling count, and with non-decreasing times happens exactly when it is reached |
| FaultBoundary.OutOfOrderFailuresCanBeMissed | infrastructure/plugin_fault_boundary.py:168-184 | an out-of-order history in which three recent failures do not disable |
| FaultBoundary.DisabledForever | infrastructure/plugin_fault_boundary.py:135-138 | once disabled, no handler runs and nothing is recorded, over any later calls |
| FaultBoundary.CallHistory | infrastructure/plugin_fault_boundary.py:120-184 | the boundary after any calls is the breaker of the failures among them |
| FaultBoundary.SucceedsIff | infrastructure/plugin_fault_boundary.py:135-166 | a call succeeds exactly when the plugin is enabled and its handler neither raised nor overran; only failures leave a trace |
| Outbox.OutboxDatabase.WriteEvent | infrastructure/outbox.py:98-130 | a new unclaimed row is appended and nothing else changes |
| Outbox.OutboxDatabase.ClaimPendingEvents | infrastructure/outbox.py:133-192 | a batch the query allows, whichever way equal creation times are ordered, is stamped with a claim and a lease and nothing else; an overflowing lease claims nothing |
| Outbox.OutboxDatabase.MarkPublished | infrastructure/outbox.py:195-214 | exactly the listed events get published_at; ids of no row change nothing |
| Outbox.OutboxDatabase.ConsumeEvent | infrastructure/outbox.py:242-269 | dedup check, handler and mark commit together, or an exception takes all back |
| Outbox.ConsumeCases | infrastructure/outbox.py:242-269 | the reaction takes effect exactly if the pair is unmarked and it does not raise: its writes, one unclaimed event per emitted one with its own data, and that one mark; otherwise nothing changes |
| Outbox.ConsumeIsTransaction | infrastructure/outbox.py:256-269 | consuming is one all-or-nothing transaction of the thread: what it commits, and that it raises exactly when the reaction does |
| Outbox.ClaimableIff | infrastructure/outbox.py:163-165 | claimable means unpublished, and never claimed or with a lease text not after that of the clock |
| Outbox.SelectIsBatch | infrastructure/outbox.py:158-178 | the chosen batch is an allowed one: distinct claimable rows in creation order, within the limit, and no claimable row left out that should come first |
| Outbox.EmptyBatch | infrastructure/outbox.py:158-173 | an empty claim means nothing claimable, or a limit of zero, and conversely |
| Outbox.RepublishMovesTimestamp | infrastructure/outbox.py:195-214 | marking an event again moves its published_at exactly when the clocks differ |
| Dispatch.ConsumerRegistry.Dispatch | infrastructure/consumer_registry.py:81-116 | every registration gets its own transaction in order, exceptions are contained, and the count is of effects that ran |
| Dispatch.DeliverCases | infrastructure/plugin_registry.py:397-418 | a consumer takes effect exactly when unmarked, its plugin not disabled, and its handler returned, a plugin's within its time; a plugin's own failure is counted at the event's time and nobody else's |
| Dispatch.DispatchInOrder | infrastructure/consumer_registry.py:93-115 | dispatching a list is dispatching its first part and then the rest |
| Dispatch.RegisteredInOrder | infrastructure/consumer_registry.py:78-79 | after any registrations an event kind has exactly its own, in order |
| Dispatch.FailureIsInvisible | infrastructure/consumer_registry.py:91-116 | the database after dispatch equals dispatching only the registrations that did not fail, even though plugin failure counters moved |
| Dispatch.FailedRegistrationsLeaveNoTrace | infrastructure/plugin_registry.py:397-418 | the same for one system, plugin handlers included |
| Dispatch.EveryRegistrationAttempted | infrastructure/consumer_registry.py:91-116 | after dispatch every registration is marked or failed in its own turn |
| Dispatch.RedeliveryAbsorbed | infrastructure/outbox.py:242-269 | dispatching again what has taken effect runs nothing and changes nothing |
| PublisherLoop.ProcessPendingEvents | infrastructure/consumer_registry.py:119-174 | the loop computes the specified pass: its final state, its count, and whether a claim raised; for every way of ordering equal creation times |
| PublisherLoop.ProcessPublishesItsClaims | infrastructure/consumer_registry.py:166-174 | at most the allowed claims; no event claimed twice; everything claimed was unpublished and is published; every other row is untouched, and what was emitted and not claimed is still unclaimed |
| PublisherLoop.ClaimsCounted | infrastructure/consumer_registry.py:166-170 | how many claims a call makes: all its rounds unless one is empty or raises, and that is its last |
| PublisherLoop.DrainedMeansNothingClaimable | infrastructure/consumer_registry.py:167-170 | stopping on an empty claim leaves nothing claimable exactly unless batches of zero were asked for while something was |
| PublisherLoop.ZeroBatchStopsAtOnce | infrastructure/consumer_registry.py:166-170 | with batches of zero the call stops after one claim and does nothing, whatever is waiting |
| PublisherLoop.RoundEvents | infrastructure/consumer_registry.py:167-173 | after a round the batch is published, older rows are as they were, emitted rows are untouched |
| PublisherLoop.CascadeDrains | infrastructure/consumer_registry.py:132-174 | if handlers emit only lower ranks and every backlog fits a batch, as many rounds as there are ranks drain the cascade and one more sees it |
| Publishers.EveryRunIsSafe | infrastructure/outbox.py:133-269 | over every interleaving with crashes: committed runs are exactly the dedup rows, each once; each registration of a published event had its turn in some step, which raised or left its mark; any two claim steps of one event are more than the lease less one second apart, the full lease apart unless the later falls on a whole second |
| Publishers.NobodyWaits | infrastructure/consumer_registry.py:166-174 | events can always be emitted, a process at work always has its next step, and an idle one can claim exactly the batches the query allows |
| Publishers.RunIsItsContributions | infrastructure/outbox.py:98-269 | over every interleaving with crashes, the events, the marks and every other table are what the emissions and the successful reactions contributed, in order |
| Publishers.RunIsItsStamps | infrastructure/outbox.py:133-214 | the delivery columns of every row are those of its latest claim and its latest publication |
| Publishers.ClaimsAreLogged | infrastructure/outbox.py:158-192 | the claim columns of a row change only in a claim step of it, which stamps and logs its own time |
| Publishers.AttemptsAreReal | infrastructure/consumer_registry.py:100-113 | an attempt is recorded only by a step that is the registration's turn and raised or left its mark |
| Publishers.PublishedNeverReclaimed | infrastructure/outbox.py:158-167 | in no continuation is a published event unpublished, claimed by a step, or its claim columns changed |
| Publishers.ReclaimedEarlyIff | infrastructure/outbox.py:158-174 | an event is claimed again before its lease is over exactly on the whole second in which a lease with a fraction ends |
| Publishers.LeaseCanEndEarly | infrastructure/outbox.py:158-174 | a concrete event claimable again half a second before its lease ends |
| SequentialRuns.PassIsARun | infrastructure/consumer_registry.py:119-174 | a call of the drain loop by an idle publisher is a run of that publisher alone in the interleaved machine: same claims in the same order, same store, and the returned number is that of the handler runs it committed |
| SequentialRuns.ClaimedAreDelivered | infrastructure/consumer_registry.py:119-174 | whenever a call is made, each registration of every event it claims has had its turn when it is over |
| Retries.RetryPossibleIff | infrastructure/consumer_registry.py:100-113 | from any reachable state, some run gives a consumer its missing effect exactly when a process holding the event has not passed one of its registrations, or it is registered and the event can be claimed again |
| Retries.PublishedIsFinal | infrastructure/consumer_registry.py:100-116 | a published event that no process holds before the consumer's turn never gives that consumer its effect |
| Retries.FailedConsumerIsLost | infrastructure/consumer_registry.py:91-116 | a run from the start in which a handler raises, its event is published and its effect is out of reach |
| Retries.PublishableIff | infrastructure/outbox.py:158-192 | no unpublished event is lost by a crash: it can be published exactly when somebody holds it or it can be claimed again |
| Retries.ReclaimableIff | infrastructure/outbox.py:158-174 | until when a row can be claimed, in closed form |
| Retries.PublishedRowChangesIff | infrastructure/outbox.py:195-214 | a published event's row can still change exactly while a process holds the event |
| Retries.TwoHoldersPublishTwice | infrastructure/outbox.py:195-214 | a run from the start in which two processes stamp published_at with different clocks |
| SubjectQueue.SubjectConversationQueue.TakeTicket | conversation_engine/subject_queue.py:62-72 | the first critical section, including the refusal of blank subjects |
| SubjectQueue.SubjectConversationQueue.BeginTurn | conversation_engine/subject_queue.py:74-76 | a call whose ticket is set begins its turn |
| SubjectQueue.SubjectConversationQueue.FinishTurn | conversation_engine/subject_queue.py:77-84 | the second critical section never fails and keeps the invariant |
| SubjectQueue.EveryRunIsFifo | conversation_engine/subject_queue.py:61-84 | every interleaving: one call per subject inside, turns start in order, exactly the head is signalled, the entry lists the unfinished calls with their number, and exists iff there are any |
| SubjectQueue.LeaveRemovesOwnTicket | conversation_engine/subject_queue.py:78-79 | popleft removes the caller's own ticket, from the entry the dictionary still has |
| SubjectQueue.DroppedEntryIsUnused | conversation_engine/subject_queue.py:83-84 | when the entry is deleted no unfinished call refers to it |
| SubjectQueue.HeadCanStep | conversation_engine/subject_queue.py:74-82 | the head of a subject's queue can always begin or leave |
| SubjectQueue.RunsAfterExactlyKReleases | conversation_engine/subject_queue.py:61-84 | a call at position k moves up one per release of its subject and runs after exactly k |
| WorkingMemory.InMemoryWorkingMemory.Read | memory_system/working_memory.py:86-94 | the turns of the stored exchanges in order, or the refusal of a blank subject |
| WorkingMemory.InMemoryWorkingMemory.CommitExchange | memory_system/working_memory.py:96-114 | appends and trims, or refuses and changes nothing |
| WorkingMemory.CommitIff | memory_system/working_memory.py:96-114 | which commits are refused and why; a refused one stores nothing, an accepted one leaves other subjects alone |
| WorkingMemory.InMemoryWorkingMemory.Trim | memory_system/working_memory.py:116-122 | the two loops leave exactly the longest suffix within both limits |
| WorkingMemory.Bounded | memory_system/working_memory.py:116-122 | the result is a suffix within both limits, and no longer suffix is |
| WorkingMemory.LongestSuffixUnique | memory_system/working_memory.py:116-122 | there is only one such suffix |
| WorkingMemory.BoundedIncrementally | memory_system/working_memory.py:108-114 | trimming what was trimmed before gives what trimming the whole history gives |
| WorkingMemory.NewestKept | memory_system/working_memory.py:96-122 | an accepted exchange is in the memory afterwards, as the newest |
| WorkingMemory.CommitStep | memory_system/working_memory.py:96-114 | a commit touches its own subject only; it succeeds exactly on acceptable exchanges |
| WorkingMemory.MemoryIsLongestSuffix | memory_system/working_memory.py:96-126 | after any commits each subject's memory is the longest suffix of its accepted exchanges within both limits, ending with the newest |
| WorkingMemory.ReadIsLongestSuffix | memory_system/working_memory.py:86-122 | what a reader gets after any commits: the turns of the latest accepted exchanges, as many as keep within the number of turns and the sum of their lengths |
| Conversation.ConversationEngine.GenerateResponse | conversation_engine/engine.py:78-128 | the response for every way a turn can go, the history it read, and that only a validated answer is committed |
| Conversation.AnsweredIff | conversation_engine/engine.py:90-131 | a turn answers exactly when the context is assembled, a text was generated, the validator passes it and neither it nor the message is blank; each fallback and exception exactly by its own cause |
| Conversation.ConversationEngine.ReadWorkingMemory | conversation_engine/engine.py:130-149 | the subject's history, or an empty one when reading fails |
| Conversation.TurnsLinearise | conversation_engine/engine.py:78-182 | every interleaving: the history a turn read is the bounded memory of exactly the exchanges kept by earlier turns of its subject in queue order, and the memory is that of all of them |
| Conversation.FinishKeepsExactly | conversation_engine/engine.py:90-182 | after any run, a turn whose context, generation, validation or commit fails or whose exchange is too large leaves every memory as it was; any other adds exactly its message and text to its own subject |
| Conversation.TurnsRunTheQueue | conversation_engine/engine.py:83-84 | the queue of any run of turns goes through a run of the subject queue, so its guarantees hold here |
| Conversation.OnlyAnswersAreKept | conversation_engine/engine.py:90-182 | a turn leaves an exchange exactly when it answered and the commit was acceptable, and then that answer |
| GoalManagement.GoalManager.CreateGoal | goal_management/repository.py:61-98 | a goal, its first version and its event, together; like every call below, it keeps the books and the log's account of them |
| GoalManagement.GoalManager.TransitionGoal | goal_management/repository.py:106-149 | pause, resume and complete from their allowed statuses, with their errors and events |
| GoalManagement.GoalManager.ArchiveGoal | goal_management/repository.py:151-176 | only terminal goals are archived; their status stays |
| GoalManagement.GoalManager.RecordEvidence | goal_management/repository.py:182-218 | evidence needs an existing goal and version and changes no goal |
| GoalManagement.GoalManager.RecordEvaluation | goal_management/repository.py:220-256 | an evaluation needs triggering evidence and an existing goal |
| GoalManagement.GoalManager.CreateChangeProposal | goal_management/repository.py:263-311 | a pending proposal with its content, or a foreign key error |
| GoalManagement.GoalManager.AcceptProposal | goal_management/repository.py:313-360 | the proposal's own recorded effect and its resolution, or neither |
| GoalManagement.GoalManager.ApplyChange | goal_management/repository.py:339-345 | the effect of the proposed change, none for support and no change |
| GoalManagement.GoalManager.ApplyAdaptation | goal_management/repository.py:397-425 | a new current version superseding the old, on ACTIVE goals only |
| GoalManagement.GoalManager.ApplyReplacement | goal_management/repository.py:427-483 | the goal is REPLACED and its successor created in the same trust domain |
| GoalManagement.GoalManager.ApplyAbandonment | goal_management/repository.py:485-503 | an ACTIVE or PAUSED goal becomes ABANDONED |
| GoalManagement.GoalManager.DeclineProposal | goal_management/repository.py:362-363 | a pending proposal is declined, once |
| GoalManagement.GoalManager.ResolveWithoutEffect | goal_management/repository.py:365-391 | a pending proposal is resolved once and no goal changes |
| GoalManagement.GoalManager.RecoverGoalManagementState | goal_management/repository.py:509-527 | expires exactly the pending proposals past their deadline, in order, and nothing else |
| Goals.DueIds | goal_management/repository.py:519-522 | exactly the rows the recovery query selects |
| GoalBooks.GoalRuns | goal_management/repository.py:61-503 | from empty tables, after any calls: the books below hold, the log rebuilds the tables, and replacement links point back |
| GoalBooks.EveryRunKeepsBooks | goal_management/repository.py:313-503 | versions form chains 1..n ending at the current one; REPLACED iff exactly one successor; trust domain constant; accepted proposals count versions, successors and abandonments |
| GoalBooks.EveryRunRebuilds | infrastructure/database.py:246-286 | replaying the event log, with the ids it carries, gives every goal row and proposal state exactly, after runs with failed calls too |
| GoalBooks.LineIsReplaced | goal_management/repository.py:427-483 | along a replacement line all earlier goals are REPLACED, older, and in one trust domain |
| GoalBooks.TerminalIsForever | goal_management/repository.py:121-176 | terminal statuses are absorbing, resolved proposals final, versions, contents and events append-only |
| GoalBooks.EveryCallSettles | infrastructure/database.py:246-286 | a call that raises changes nothing, any other writes events |
| GoalBooks.AcceptanceAppliesWhatWasProposed | goal_management/repository.py:313-347 | acceptance applies exactly the content recorded with the proposal, whatever calls came in between; missing and empty texts keep the old ones |
| GoalBooks.AcceptedIff | goal_management/repository.py:322-347 | exactly when an acceptance goes through; the deadline plays no part |
| GoalBooks.TransitionIff | goal_management/repository.py:106-149 | an ACTIVE goal can be paused, a PAUSED one resumed, either completed; the error in every other case; only its status, the time of its change and the log are touched |
| GoalBooks.PauseThenResume | goal_management/repository.py:106-114 | every ACTIVE goal can be paused and resumed, and is then as it was |
| GoalBooks.ArchivedIff | goal_management/repository.py:151-176 | archived are exactly COMPLETED, ABANDONED and REPLACED goals; the error otherwise |
| GoalBooks.ResolvedIff | goal_management/repository.py:362-391 | declined or expired are exactly pending proposals; the error otherwise |
| GoalBooks.ProposedIff | goal_management/repository.py:263-311 | a proposal needs its goal and the evaluation it names; the row, content and event it leaves |
| GoalBooks.RecordedIff | goal_management/repository.py:182-256 | what evidence and evaluations need, what they leave, and the errors |
| GoalBooks.CreatedAsGiven | goal_management/repository.py:61-98 | a new goal is ACTIVE with one version that holds what was given |
| GoalBooks.DueIff | goal_management/repository.py:519-522 | due at recovery are the pending proposals whose deadline text is not after that of the clock |
| AdvancedMode.AdvancedModeAdministration.FetchActiveRequest | advanced_mode/repository.py:90-96 | the open request, if there is one |
| AdvancedMode.AdvancedModeAdministration.AdvanceTransitionState | advanced_mode/repository.py:220-245 | at most one deterministic transition of the open request, or an overflow that changes nothing |
| AdvancedMode.AdvancedModeAdministration.RequestTransition | advanced_mode/repository.py:251-316 | the refusals in their order, overflowing dates among them, or a new blocked or waiting request |
| AdvancedMode.AdvancedModeAdministration.CancelRequest | advanced_mode/repository.py:322-339 | any open request can be cancelled, once |
| AdvancedMode.AdvancedModeAdministration.ConfirmTransition | advanced_mode/repository.py:345-438 | all outcomes, including the two committed before they are raised |
| AdvancedMode.EveryRunKeepsRows | advanced_mode/models.py:79-87 | in every reachable state, outside writes included, the documented field combinations hold and at most one request is open |
| AdvancedMode.UnreadWindowPlaysNoPart | advanced_mode/repository.py:220-438 | a call that is not counted as reading the penalty window does the same whatever the window is |
| AdvancedMode.SettlingIsIdempotent | advanced_mode/repository.py:220-245 | settling again at the same instant with the same window changes nothing |
| AdvancedMode.MismatchInvalidates | advanced_mode/repository.py:397-405 | after an outside change of mode confirming invalidates the request and leaves the mode |
| AdvancedMode.ModeChanges | advanced_mode/repository.py:220-438 | every change is a confirmation at least 24 hours after the latest wait start, with no window seen by any read since or at that instant; changes alternate, an Advanced stay lasts 31 days; open requests start from the stored mode and none is invalidated |
| AdvancedMode.SameDirection | advanced_mode/repository.py:49-50 | two changes in the same direction are at least 32 days apart |
| AdvancedMode.ChangesAreRecorded | advanced_mode/repository.py:416-425 | the stored mode changes at exactly the confirmations counted above |
| AdvancedMode.SettledStatus | advanced_mode/repository.py:99-152 | how each open request settles with and without a window, due or not, and when it overflows |
| AdvancedMode.AskedIff | advanced_mode/repository.py:251-316 | when a request is accepted, each refusal exactly by its own cause, and the row it leaves |
| AdvancedMode.ConfirmedIff | advanced_mode/repository.py:345-438 | when a confirmation goes through and each refusal exactly by its own cause |
| AdvancedMode.CancelledIff | advanced_mode/repository.py:322-339 | exactly open requests can be cancelled, and nothing else changes |
| AdvancedMode.AskSettleConfirm | advanced_mode/repository.py:220-438 | asking, settling a day later and confirming then, without a window, sets the mode at that instant |
| AdvancedMode.InterruptedCanResume | advanced_mode/repository.py:113-148 | a blocked or paused request is confirmable a day after the first settle without a window |
| AdvancedMode.RoomChangesMode | advanced_mode/repository.py:220-438 | from every reachable state, outside writes included, with a day left in the calendar some run changes the mode |
| AdvancedMode.ModeCanChangeIff | advanced_mode/repository.py:220-438 | exactly when some run still changes the mode: a wait begun as soon as allowed ends within the calendar, or one is running or over |
| Extension.TotalExtension | penalty_engine/extension.py:231-280 | over any incidents the window gains the sum of their uncapped hours, up to 336 less its base |
| Extension.CeilingNeverBinds | penalty_engine/window.py:48-51 | the ceiling applied when reading the target never changes it, unless the base alone exceeds it |
| Extension.AssignedIsMonotone | penalty_engine/extension.py:103-280 | assigned hours grow with severity, repetition and capacity and shrink with cooperation |
| Extension.MonotoneIffCapacity | penalty_engine/extension.py:231-280 | that holds for all inputs exactly at non-negative capacities |
| Extension.RetainedShare | penalty_engine/extension.py:175-228 | at least half of the base is kept for MAJOR, seven tenths for CRITICAL, never more than the base; who is ineligible, exactly |
| Extension.ReasonIs | penalty_engine/extension.py:111-127 | which incidents extend the window and why, and what an ineligible one gets |
| Extension.BaseInNumbers | penalty_engine/extension.py:142-172 | 4, 12, 24 or 48 hours, and 6 for each earlier incident of the rule |
| Extension.ShareInNumbers | penalty_engine/extension.py:175-228 | 30, 30 and 20 per cent off, down to half for MAJOR and seven tenths for CRITICAL |
| Extension.HoursAre | penalty_engine/extension.py:231-280 | an eligible incident keeps that share of its base, cut at the capacity |
| Extension.ContextIs | penalty_engine/repository.py:239-255 | an incident is judged on its own severity and cooperation and on how many incidents of its rule the window has consumed |
| Extension.ElapsedIs | penalty_engine/window.py:48-70 | the clock runs exactly while the window is active |
| Extension.RemainingReachesZero | penalty_engine/window.py:54-80 | nothing remains iff the window is complete; a running window completes after its remaining hours and not before |
| Onboarding.OnboardingService.GetOrCreatePreferences | application/onboarding_service.py:75-100 | the user's row, created at the first question if missing |
| Onboarding.OnboardingService.ProcessMessage | application/onboarding_service.py:109-127 | what an answer, read against a possibly stale copy, does to the stored row, and the reply |
| Onboarding.OnboardingService.HandlePersonality | application/onboarding_service.py:208-236 | the search by number or first matching name |
| Onboarding.OnboardingService.FindNamed | application/onboarding_service.py:217-221 | the loop stops at the first candidate with the name |
| Onboarding.OnboardingService.Advance | application/onboarding_service.py:238-269 | the write happens only while the row is still at the answered question |
| Onboarding.EveryRun | application/onboarding_service.py:155-269 | any messages on any stale copies: every column of every user is written exactly once when filled, never otherwise, and all rows are well formed |
| Onboarding.CompleteMeansChosen | application/onboarding_service.py:155-269 | COMPLETE implies a supported language and a catalogue identity of the chosen group |
| Onboarding.OnlyForward | application/onboarding_service.py:238-269 | the step never goes back and no answer is replaced |
| Onboarding.RepliesFit | application/onboarding_service.py:133-140 | a question asked is the one the row stands at, a repeated one that of the copy; completion names the stored identity |
| Onboarding.StaleAnswersChangeNothing | application/onboarding_service.py:238-269 | a copy at another step than the row changes nothing, and a write moves one step |
| Onboarding.ChoicesAreHonoured | application/onboarding_service.py:208-227 | a listed number, or the first entry with the name, is what gets chosen |
| Onboarding.CatalogByGroup | ai/identity_catalog.py:80-171 | the list shown for a choice is that group's five identities in catalogue order |
| Onboarding.AnswersAre | application/onboarding_service.py:37-46 | the accepted answers to the first two questions, and that there are no others |
| Onboarding.NamesAre | application/onboarding_service.py:217-221 | an identity answers to its id, its default name and, in Czech, its Czech name |
| Onboarding.QuestionsAre | application/onboarding_service.py:133-140 | the question a row stands at, and the names listed for the third |
| Onboarding.StripPads | application/onboarding_service.py:115 | space around an answer does not count |
| Onboarding.CapitalsDoNotCount | application/onboarding_service.py:115 | nor do capital letters |
| Onboarding.OtherCapitals | application/onboarding_service.py:115 | which capitals outside ASCII count, and that no other character changes |
| Onboarding.BlankStripsToNothing | advanced_mode/repository.py:60-61 | blank is what stripping leaves nothing of |
| Onboarding.EveryChoiceCanBeMade | application/onboarding_service.py:109-236 | three answers by number take a new row to a complete one with any language, group and identity of the group, and touch no other row |
| Onboarding.OnboardingCanFinish | application/onboarding_service.py:75-236 | in any world a user without a row can finish with any choice in three messages |
| OAuthCallback.ChasterOAuthStateRepository.CreateOrReplace | chaster/repository.py:66-85 | the user's old state is replaced by the new one |
| OAuthCallback.ChasterOAuthStateRepository.Consume | chaster/repository.py:87-110 | the row is deleted whatever the result; unknown, expired or the user |
| OAuthCallback.ChasterConnectionRepository.CreateOrReplace | chaster/repository.py:157-203 | the upsert, its argument errors and the unique account |
| OAuthCallback.ChasterConnectionRepository.MarkNeedsReauthorization | chaster/repository.py:237-248 | the user's status and change time are set and nothing else |
| OAuthCallback.ChasterConnectionRepository.Delete | chaster/repository.py:250-257 | the user's row is gone and every other is kept |
| OAuthCallback.ChasterCallbackService.HandleCallback | chaster/callback_service.py:137-209 | a connection is written exactly when everything succeeded, for the user whose state was consumed; every early exit leaves connections alone, and so does a lifetime too long for a date, after the state is consumed |
| OAuthCallback.StopsIff | chaster/callback_service.py:159-196 | each early exit after the state was consumed, exactly by its own cause |
| OAuthCallback.PersistedIff | chaster/callback_service.py:197-206 | when the write goes through, what refuses it otherwise, and the row it leaves |
| OAuthCallback.AtMostOnePending | chaster/repository.py:66-85 | every interleaving: a user has at most one pending state |
| OAuthCallback.MatchedIff | chaster/repository.py:87-110 | after any run, a callback matches exactly by the value of its user's latest link, given less than ten minutes ago and not presented since; older it is expired, anything else unmatched |
| OAuthCallback.FreshLinkWorks | chaster/repository.py:66-110 | a link just given works for ten minutes, and once |
| OAuthCallback.LinkedUserConnects | chaster/callback_service.py:137-209 | after any run, whoever follows a new link within ten minutes, with an account nobody else has, gets connected |
| OAuthCallback.EveryWriteHasItsLink | chaster/callback_service.py:137-209 | the connections table holds the last write of each user in it, up to status and change time; every write maps injectively to a link minted for its user, consumed strictly within ten minutes, not replaced before, matched by no other callback |
| OAuthCallback.ConnectionsChangeByCallback | chaster/callback_service.py:190-209 | a row is new or holds another grant only after the write step of a callback matched to that user, which logs that row |
| OAuthCallback.OtherSteps | chaster/repository.py:157-257 | what a callback's end, a reauthorisation and a disconnection leave of the connections, exactly |
| OAuthCallback.AccountsStayUnique | chaster/repository.py:157-203 | one user per provider account; a refused write changes nothing, an accepted one only its user's row, which gets the new grant and both deadlines and keeps its creation time |
| StartupLease.LeaseTable.AcquireSystemStartupLease | infrastructure/startup_lease.py:51-79 | granted exactly when no live lease is stored |
| StartupLease.LeaseTable.ReleaseSystemStartupLease | infrastructure/startup_lease.py:82-95 | cleared only if held under the same process id |
| StartupLease.MutualExclusion | infrastructure/startup_lease.py:51-95 | with time in order, and no process returning a lease while it holds another, at most one grant holds at any instant, and the row names it |
| StartupLease.GrantsAreAskedFor | infrastructure/startup_lease.py:51-79 | every lease granted in a run is for the process, instant and duration of some attempt, and holds that long until returned |
| StartupLease.OneGrantEachExcludes | infrastructure/startup_lease.py:51-95 | in particular with one grant per process id no two grants ever hold at once |
| StartupLease.ExclusionEndsIff | infrastructure/startup_lease.py:51-95 | after a run without one, the steps that let a second grant in beside a live one are exactly the returns by a process that holds another lease |
| StartupLease.LateReleaseIsHarmless | infrastructure/startup_lease.py:82-95 | returning a lease never ends the one another process holds |
| StartupLease.ReleaseClearsIff | infrastructure/startup_lease.py:92-95 | a release clears the current lease exactly when the process ids agree |
| StartupLease.SameProcessTwice | infrastructure/startup_lease.py:51-95 | a run in which a process loses its second lease by returning its first |
| StartupLease.RefusedIff | infrastructure/startup_lease.py:62-65 | an attempt is refused exactly while somebody holds |

## Left out

- Discord, HTTP listeners, the model runtime, the provider's HTTP calls, encryption, logging, configuration and backups: input and output.
- SQLite's own machinery (pragmas, write-ahead log, busy timeouts): serialisable transactions are assumed.
- `penalty_engine/repository.py`, `trust_manager`, `recovery_plan`, `task_runtime`, `task_catalog` and `system/startup.py`: the penalty window is an environment flag, and only the capacity formula is taken.
- Plugin discovery, manifests and command handlers: module machinery.
- The wording of prompts and replies, archetypes and communication profiles: plain data.
- TimeFormat.ParseIsoRoundTrip: parsing is modelled on the two shapes `iso` writes, the only ones stored; `fromisoformat` accepts other shapes too.
- Extension.TotalExtension: hours are exact reals, so floating-point rounding is not modelled.
- Onboarding.OnboardingService.HandlePersonality: numbers are in ASCII digits (`isdigit` accepts characters that `int` rejects).
- OAuthCallback.EveryWriteHasItsLink: assumes fresh random states; the database would refuse a repeated pending one.
- OAuthCallback.ChasterCallbackService.HandleCallback: tokens are not encrypted, and a `user_accounts` row is assumed to exist.
- FaultBoundary.PluginFaultBoundary.Call: the measured duration is an arbitrary slow flag; a handler that never returns is not modelled.
- SubjectQueue.EveryRunIsFifo: an interrupted wait and the fairness of the scheduler are not modelled; progress is that the head can always step.
- SubjectQueue.SubjectConversationQueue.TakeTicket: entry objects and tickets are named by numbers, since a call may still hold an entry the dictionary has dropped.
- Conversation.ConversationEngine.GenerateResponse: one turn on its own; turns of several threads are the step machine of `TurnsLinearise`, where the read, the commit and the queue operations are separate steps.
- Dispatch.FailureIsInvisible: what a handler sees of the database is the `rows` of other tables and the event.
- Publishers.EveryRunIsSafe: a publisher that died is a process back at its start.
- Retries.RetryPossibleIff: says that a run exists, not that the scheduler takes it.
- GoalBooks.EveryRunRebuilds: a proposal's deadline, evaluation and content are not in the events and cannot be rebuilt.
- Reads of goals, modes and connections, and the refresh of provider tokens: easy members and input.
