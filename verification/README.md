# zWorkforce control plane: a verified model

zWorkforce runs agents as durable tasks kept in one database. Any number of workers, schedulers and
dispatchers share that database, hold work by leases, and may outlive those leases, stop between two
statements or start over. This project models the parts of the Python control plane where that
matters and proves what they promise over every run.

Tables are maps, one transaction or statement is one step, time is a number that is passed in, and
everything outside (providers, tools, task outcomes, the moment of a crash) is an arbitrary input.
Code that changes state is a class or a method with loops, proved against a specification function;
the properties of whole runs are lemmas about those functions. Run everything with
`dafny verify dfyconfig.toml`.

| files | what they model |
|---|---|
| `WorkflowDefinition` | the validator of workflow graphs: accepts exactly the acceptable ones |
| `Template`, `WorkflowRun`, `WorkflowOrchestrator` | prompt templates, the statements of a tick, and the tick itself as imperative code |
| `WorkflowSafety`, `WorkflowHistory`, `WorkflowConflicts`, `WorkflowProgress`, `WorkflowOutcome` | what every history of ticks, crashes and task changes keeps; when a tick can raise; how soon a run ends; what one tick leaves and submits |
| `Tasks`, `TaskStore`, `TaskHistory`, `TaskApprovals`, `TaskLeases`, `TaskOutcomes` | the task table with claims, leases, retries and approvals, stale writers included; what each operation leads to |
| `BrowserEffects` | the ledger of browser side effects on top of the approvals |
| `Calendar`, `Cron`, `CronText` | civil time, the cron search, and expressions as they are written |
| `Outbox`, `OutboxHistory`, `ServiceLeases`, `Dispatch` | outbox claims and fencing, leader leases, idempotent dispatch |
| `AuditChain` | the audit hash chain with its two producers |
| `ExecutionLoop`, `ExecutionApprovals` | the agent loop against any provider, and on top of the task table |
| `RateLimiter`, `Conversation`, `CircuitBreaker`, `TokenBucket`, `Placeholders` | incremental algorithms against whole-history definitions |
| `Text`, `Wrappers` | Python's `strip`, `split`, `int`, and result types |

Some results say where the code does less than one might expect, each with a concrete example and the
exact condition. A workflow tick raises exactly when no step has failed and some ready step is refused
or finds its key used for another request (`WorkflowConflicts.TickRaisesIff`). The key may have been
used by an earlier tick of the run, which takes a template that reads more than ancestor steps
(`RepeatedTickCanRaise`), or by a client who submitted a task under it, because a client that started
a run shares its actor (`TakenKeyRaises`); with other templates only the second can happen
(`AncestorTickRaisesIff`). An event is dispatched twice for a rule exactly when dispatches of both
kinds of target were sent for it and not refused (`Dispatch.DispatchedTwiceIff`, with
`RetargetedRuleIsDispatchedTwice`); a schedule slot never is. The placeholder rewriting can be undone exactly when the text has no `%s`
outside quotes (`Placeholders.UndoneIff`). The outbox caps its retry delay at an hour, but the delay
never exceeds 1024 seconds (`Outbox.BackoffDoubles`). The approval checks of the agent loop never fire
(`ExecutionApprovals.ApprovalChecksNeverFire`), nor does the count of approvals that browser effects make
(`BrowserEffects.ApprovalStandsIff`).

## Model
| member | source | states |
|---|---|---|
| WorkflowDefinition.Steps | zworkforce/workflow.py:14-58 | A definition is accepted exactly when every entry is well formed, ids are unique after stripping, dependencies are known and the graph has no cycle; each error names a check that failed on the first bad entry, and a cycle error means a real cycle |
| WorkflowDefinition.DepthFirstCheck.Visit | zworkforce/workflow.py:46-55 | The recursive search keeps its visited order topological, ends, and fails only by exhibiting a cycle |
| WorkflowDefinition.ParseSteps | zworkforce/workflow.py:20-38 | Reads all entries or stops at the first bad one with that entry's error |
| WorkflowDefinition.EntryInOrder | zworkforce/workflow.py:20-32 | An entry is in order exactly when it is an object whose id, agent and prompt each hold some text and whose dependencies are a list of ids |
| WorkflowDefinition.EntryNormalized | zworkforce/workflow.py:23-37 | Its step has id and agent without the white space around them and the prompt as it is |
| WorkflowDefinition.FindUnknownDependency | zworkforce/workflow.py:39-42 | Finds a step with an undeclared dependency if and only if there is one |
| WorkflowDefinition.CheckAcyclic | zworkforce/workflow.py:43-57 | Succeeds if and only if the graph is acyclic, and then a topological order of all steps exists |
| WorkflowDefinition.TopologicalImpliesAcyclic | zworkforce/workflow.py:43-57 | A topological order of every step rules out every cycle, because a walk strictly descends in it |
| WorkflowDefinition.StoredDefinitionIsAccepted | zworkforce/workflow.py:99-106 | The stored form of an accepted definition is accepted again by `start` and reads back as the same steps |
| Template.RenderDependsOnReads | zworkforce/workflow.py:61-78 | A prompt depends only on the run's input and on the results of the steps its tokens name |
| Template.ParseIsLeftmost | zworkforce/workflow.py:11-11 | For every text the parts are the leftmost matches of the pattern and the characters between them: nothing is lost, every token is a match, and no match starts at a plain character |
| Template.RenderIs | zworkforce/workflow.py:61-78 | What any text renders to: the concatenation, in order, of its stretches, a plain character as itself, a token as the text of the value its path leads to (a string or scalar as it is, the JSON text of an object or list, nothing when the path leads nowhere) |
| Template.LookupIs | zworkforce/workflow.py:61-68 | A lookup finds what the names lead to through the fields of objects, and nothing when a field is missing or a value is no object |
| Template.SpellsOnePath | zworkforce/workflow.py:63-63 | A token spells exactly one path: the names between its dots, without the white space around them |
| Template.PlainTextStays | zworkforce/workflow.py:71-78 | A text without a token renders as itself |
| Template.TokenBetween | zworkforce/workflow.py:71-78 | A token's text stands between what the texts before and after it render to, whatever those are |
| Text.PaddedStrips | zworkforce/workflow.py:23-24 | Stripping leaves of any text what stands between the white space around it |
| WorkflowRun.RefusedWhen | zworkforce/engine.py:87-91 | Without text, or with more bytes than allowed, a prompt is refused; otherwise only what is stopped for other reasons is |
| WorkflowRun.ExecConcat | zworkforce/workflow.py:110-175 | Running a list of statements is running its first part and then the rest, unless the first part raises |
| WorkflowOrchestrator.Orchestrator.Start | zworkforce/workflow.py:99-106 | The checks in order (workflow missing or disabled, input not an object, definition invalid); then the run an equal earlier call made under the key, an error for a reused key, or a new run with all steps pending; errors change nothing |
| WorkflowOrchestrator.Orchestrator.CreateTask | zworkforce/db_tasks.py:11-44 | Under a known key returns the existing task or an error and writes nothing; under a new key creates exactly one task and remembers it |
| WorkflowOrchestrator.Orchestrator.SubmitTask | zworkforce/engine.py:85-136 | A blank or oversized prompt, or a submission that agent, budget, router or criteria stop, is refused before any key is looked at and writes nothing; otherwise the answer is that of `create_task`; from a client it is the client event of the histories |
| WorkflowOrchestrator.Orchestrator.MarkSteps | zworkforce/workflow.py:118-141 | The first loop writes exactly the planned marks, up to the crash, and remembers what it saw |
| WorkflowOrchestrator.Orchestrator.SubmitReady | zworkforce/workflow.py:148-168 | The second loop submits and attaches exactly the ready steps, in order, up to the crash or the first refused submission |
| WorkflowOrchestrator.Orchestrator.TickRun | zworkforce/workflow.py:110-175 | A tick of one run, stopped after any number of statements, leaves the tables that the tick event of the histories describes |
| WorkflowSafety.StatementKeepsInv | zworkforce/workflow.py:118-174 | Every statement a tick may send keeps the tables consistent and never undoes a finished step, an attached task or a finished run |
| WorkflowSafety.PlanEnabled | zworkforce/workflow.py:118-174 | Whatever task statuses a tick sees, each of its statements is allowed when its turn comes: tasks only for pending steps with succeeded dependencies, success only with every step succeeded, failure only with a failed step |
| WorkflowSafety.ExecKeepsInv | zworkforce/workflow.py:110-175 | Any prefix of a tick's statements keeps the invariant of the tables |
| WorkflowHistory.HistoryInv | zworkforce/workflow.py:99-175 | The invariant holds after every history of starts, ticks stopped anywhere, task and settings changes, and tasks that clients submit under any keys, those of steps included |
| WorkflowHistory.HistoryFrozen | zworkforce/workflow.py:118-174 | Over every history a step never leaves `succeeded` or `failed`, an attached task stays attached, a finished run stays finished and gets no new task |
| WorkflowHistory.TaskOnlyAfterDependencies | zworkforce/workflow.py:148-168 | A step has a task attached, or submitted by a tick, only when every step it depends on has succeeded |
| WorkflowHistory.WalkSucceeded | zworkforce/workflow.py:148-153 | Once a task is attached to a step, or a tick has submitted one, every step it depends on, at any distance, has succeeded |
| WorkflowHistory.AtMostOneTaskPerStep | zworkforce/workflow.py:156-166 | However often ticks crash and run again, and whatever clients submit, at most one task exists under the key of a run and step, and the attached one is it |
| WorkflowHistory.CompletedRun | zworkforce/workflow.py:170-174 | A run marked `succeeded` has every step succeeded, with exactly one task under the key of each |
| WorkflowConflicts.TickRaisesIff | zworkforce/workflow.py:143-168 | After any history, for any templates, settings, clients and task states: a tick raises exactly when no step has failed and some ready step is refused (blank or oversized prompt, agent, budget, router, criteria) or its key was used for another request |
| WorkflowConflicts.AncestorTickRaisesIff | zworkforce/workflow.py:148-168 | If templates read only the input and ancestor steps, ticks never conflict with each other: a tick, first or repeated after a crash, raises exactly when no step has failed and some ready step is refused, or a client has taken its key for another request |
| WorkflowConflicts.TickRaisesOnlyWhenRefused | zworkforce/workflow.py:148-168 | So while no client has used a key of the run, such a tick raises exactly when no step has failed and some ready step is refused |
| WorkflowConflicts.TakenKeyRaises | zworkforce/db_tasks.py:13-24 | The hypothesis on clients is needed: after a client's task under the key of a step, with nothing refused and a template that reads nothing, every tick of the run raises |
| WorkflowConflicts.RepeatedTickCanRaise | zworkforce/workflow.py:148-168 | The hypothesis on templates is needed: a concrete run, stopped between submission and attachment, whose repeated tick raises for any result of the first step |
| WorkflowConflicts.BlankPromptRaises | zworkforce/engine.py:87-89 | An accepted definition that reads only its input can still never run: its prompt renders blank and its tick raises under all settings |
| WorkflowOutcome.WholeTickIff | zworkforce/workflow.py:111-169 | The ticks the next rows speak of, those a later cut would not change, are exactly the ones that sent all their statements or stopped at one that raised; each active run has one for whatever is read |
| WorkflowOutcome.TickOutcome | zworkforce/workflow.py:118-146 | What a whole tick leaves of any reachable active run, whatever it read and whether or not it raised: a submitted row whose task succeeded becomes `succeeded` with its result, one whose task failed, was dead-lettered or canceled becomes `failed`, one whose task is open or missing stays; the run fails if and only if some row has failed, and then nothing is submitted; it succeeds if and only if every row has |
| WorkflowOutcome.TickSubmissions | zworkforce/workflow.py:148-168 | Every key such a tick uses is new and that of a pending step whose dependencies are done, for the step's agent and for the prompt its template renders to with the input and the results; every task it creates is queued under such a key, and a submitted step carries the task of its key |
| WorkflowOutcome.TickSubmitsAllReady | zworkforce/workflow.py:148-168 | When no submission raises and no step has failed, every pending step whose dependencies are done is submitted |
| WorkflowOutcome.ContextLeads | zworkforce/workflow.py:114-137 | A prompt's paths lead into the run's input or to the result of a succeeded step, and nowhere else |
| WorkflowProgress.HeightBoundsWalks | zworkforce/workflow.py:46-57 | No dependency path from a step is longer than its height |
| WorkflowProgress.HeightIsReached | zworkforce/workflow.py:46-57 | Some dependency path from a step is exactly as long as its height |
| WorkflowProgress.AcceptedHeights | zworkforce/workflow.py:14-58 | Every accepted definition has heights, all below its number of steps |
| WorkflowProgress.TickEffect | zworkforce/workflow.py:110-175 | What a whole tick without failures leaves: finished steps recorded, ready steps submitted, all others untouched, the run finished if all succeeded |
| WorkflowProgress.NeverStuck | zworkforce/workflow.py:108-175 | A reachable unfinished run without failed steps whose tasks have succeeded makes progress in one tick |
| WorkflowProgress.RunSucceedsOnTime | zworkforce/workflow.py:108-175 | With every submission accepted and every task done before the next tick, a run is `succeeded` after k ticks if and only if k is at least its longest dependency path plus two |
| WorkflowProgress.RunSucceedsWithinSteps | zworkforce/workflow.py:108-175 | So a run of n steps is `succeeded` after n + 1 such ticks |
| WorkflowProgress.RoundIsPossible | zworkforce/workflow.py:108-175 | From every history in which the tick does not raise, such a round of tick and task successes exists |
| TaskStore.Store.ClaimNextTask | zworkforce/db_tasks.py:87-125 | Claims nothing only when nothing is claimable; otherwise takes the oldest of the claimable rows of highest priority, and changes no other row |
| TaskStore.Store.Renew | zworkforce/db_tasks.py:127-135 | Extends the lease exactly when this worker still holds it |
| TaskStore.Store.RequeueExpiredLeases | zworkforce/db_tasks.py:148-160 | Requeues or gives up exactly the expired rows and reports the two counts |
| TaskApprovals.IdentityNeverChanges | zworkforce/db_tasks.py:73-85 | Over every history, unguarded and stale writes included, a task keeps its tenant, creator, declared mutation, required approvals, attempt limit, priority and creation time, and an approval mark once set |
| TaskStore.Store.ReleaseForRetry | zworkforce/db_tasks.py:137-146 | Decides between requeue and dead letter on the row the worker read, and writes unguarded |
| TaskStore.Store.ApprovalDecision | zworkforce/db_tasks.py:173-200 | Raises for a missing or foreign task, a task not waiting, the creator, and a second decision; else records the decision and queues the task when the required count is reached |
| TaskOutcomes.SubmittedRow | zworkforce/engine.py:104-134 | The row of any fresh submission: it waits for approvals, as many as the agent wants up to three, exactly when it is mutating and the agent wants some, and else is queued at once; tenant, creator, time, and priority and attempts inside their limits are those submitted |
| TaskOutcomes.NotClaimedBeforeApprovals | zworkforce/engine.py:104-109 | In every later history such a task is claimed only once as many distinct actors as it needs, its creator not among them, have approved it and nobody has rejected it |
| TaskOutcomes.FreeSubmissionIsClaimed | zworkforce/engine.py:104-109 | A submission that needs no approval can be claimed at once |
| TaskOutcomes.ApprovedSubmissionIsClaimed | zworkforce/db_tasks.py:173-200 | Exactly as many approvals as a submission needs, from different others, let it be claimed |
| TaskOutcomes.ClaimOutcome | zworkforce/db_tasks.py:87-125 | In any history a claim succeeds exactly on a queued task whose time has come, whose cancellation nobody asked for, and with attempts left; without attempts it is dead-lettered |
| TaskOutcomes.JudgeOutcome | zworkforce/db_tasks.py:173-200 | In any history a decision counts exactly when the task waits in the tenant and the actor is not its creator and has not decided; a rejection cancels, and the approval that completes the required number of actors queues the task |
| TaskOutcomes.DecisionErrors | zworkforce/db_tasks.py:178-187 | Which error a decision that does not count meets |
| TaskOutcomes.CancelOutcome | zworkforce/engine.py:154-166 | A cancel ends a task that is not running and flags one that is, and nobody claims it next |
| TaskOutcomes.RetryOutcome | zworkforce/engine.py:168-177 | A retry lets a failed or dead-lettered task be claimed again at once, with no attempts used |
| TaskOutcomes.SweepOutcome | zworkforce/db_tasks.py:148-160 | In any history a sweep takes back every expired lease, requeues the task while attempts are left and gives it up otherwise, and touches nothing else |
| TaskOutcomes.LostTaskIsClaimedAgain | zworkforce/db_tasks.py:148-160 | A task whose worker stopped renewing can be claimed by another after the sweep |
| TaskApprovals.SubmittedTasksAreBounded | zworkforce/engine.py:104-132 | Every task of every history has 1 to 10 attempts, a priority within 100, at most three required approvals, and requires them only when it is mutating |
| TaskHistory.RunInv | zworkforce/db_tasks.py:73-200 | The invariant of approvals, attempts and leases holds after every interleaving of submits, decisions, claims by any number of workers, renewals, sweeps, cancels, retries and stale writes |
| TaskHistory.RowsCountActors | zworkforce/db_tasks.py:187-196 | With one decision per task and actor, the counted approval rows are exactly the distinct approvers |
| TaskHistory.ApprovedByOthers | zworkforce/db_tasks.py:173-200 | An approved task has the required number of distinct approvers, its creator is none of them, and nobody rejected it |
| TaskHistory.ClaimNeedsIndependentApproval | zworkforce/db_tasks.py:87-125 | In every interleaving a task is claimed only after the required number of actors other than its creator approved it and while nobody has rejected it |
| TaskHistory.RejectedNeverClaimed | zworkforce/db_tasks.py:189-193 | A rejected task has never been claimed |
| TaskHistory.ClaimsAreBounded | zworkforce/db_tasks.py:100-115 | Even with stale workers a task is claimed at most max_attempts × (1 + manual retries) times |
| TaskHistory.RunningIffOwned | zworkforce/db_tasks.py:87-160 | A task is `running` exactly when it has a lease owner and an expiry |
| TaskApprovals.ClaimedTasksAreMarked | zworkforce/db_tasks.py:189-198 | Every task that was ever claimed and needs approvals carries its approval mark |
| TaskLeases.HeartbeatInterval | zworkforce/engine.py:385-389 | The pause between renewals is within the lease for every lease of at least two seconds, and shorter than configured only down to half the lease |
| TaskLeases.RenewalKeepsTask | zworkforce/db_tasks.py:127-160 | From any state, a worker that renews in time keeps its task against every sweep, as long as nobody else writes to the task; its lease ends one lease time after its latest renewal, and heartbeats of other workers for the task change nothing |
| TaskLeases.WorkerKeepsTask | zworkforce/engine.py:385-389 | In any history, after its claim a worker renewing at the heartbeat interval is never requeued by the sweep |
| BrowserEffects.Ledger.Begin | zworkforce/db_browser_effects.py:14-82 | The checks in order; then a new row exactly when no row of the tenant has the key or the approval, and otherwise the row of an equal earlier call, or the error that says whether the key or the approval is taken; errors insert nothing |
| BrowserEffects.Ledger.ClaimEffect | zworkforce/db_browser_effects.py:92-119 | Starts an effect exactly when it has not started and its approval still stands |
| BrowserEffects.Ledger.Move | zworkforce/db_browser_effects.py:121-183 | Finishing and reconciling move a row only from the one status each allows |
| BrowserEffects.RunInv | zworkforce/db_browser_effects.py:14-183 | Unique keys and the agreement of statuses with claims hold in every history of tasks and effects |
| BrowserEffects.ClaimedAtMostOnce | zworkforce/db_browser_effects.py:92-119 | Over all histories no effect is claimed twice and no approval task starts two effects |
| BrowserEffects.ClaimIsApproved | zworkforce/db_browser_effects.py:92-119 | A successful claim implies an approver other than the requester, the required number of them and no rejection |
| BrowserEffects.DigestForm | zworkforce/db_browser_effects.py:23-28 | A digest is 64 hexadecimal digits, given in either case and stored in lower case |
| BrowserEffects.ApprovalStandsIff | zworkforce/db_browser_effects.py:37-60 | In every history the checks pass exactly for a marked mutation of the tenant that needed approvals and is neither canceled nor failed; the count of approvals made again never fails |
| BrowserEffects.SettledStays | zworkforce/db_browser_effects.py:121-183 | Finished states other than `unknown` never change and a started effect never becomes startable again |
| Calendar.PrecedesIffFewerMinutes | zworkforce/scheduler.py:60-68 | The order of civil times is the order of their minute numbers, and a minute number names one time |
| Calendar.TickIsOneMinute | zworkforce/scheduler.py:60-68 | Adding a minute, with every carry up to leap years, adds one to the minute number |
| Calendar.EveryWeekday | zworkforce/scheduler.py:62-64 | Among the first seven days of every month there is one of every weekday |
| Calendar.WeekdaysFollow | zworkforce/scheduler.py:63-63 | Weekdays follow each other day by day, and 1 January 1970 was a Thursday |
| Cron.ParseTerm | zworkforce/scheduler.py:22-43 | A part that parses has a positive step and a non-empty range inside the field's limits |
| Cron.FieldValues | zworkforce/scheduler.py:20-45 | A field that parses allows at least one value and only values inside its limits |
| Cron.Field | zworkforce/scheduler.py:20-45 | The loops compute exactly the values some term covers, or the error of the first bad part |
| Cron.WrittenFieldParses | zworkforce/scheduler.py:19-42 | Every list of parts in the forms `*`, `v`, `a-b`, each with or without a step, is read as a field that allows exactly the values listed |
| CronText.WrittenExpression | zworkforce/scheduler.py:45-69 | For any five such lists, however spaced, the answer is the least later minute that the first, second and fourth list hold and whose day meets the day rule on the third and fifth list and on which of them is literally `*`; it raises exactly when the horizon holds no such minute |
| CronText.OtherWordCount | zworkforce/scheduler.py:46-48 | Fewer or more than five words are an error |
| Text.SignedParses | zworkforce/scheduler.py:27-38 | A sign before a decimal is read as its sign |
| Text.PaddedParses | zworkforce/scheduler.py:27-38 | White space around a number is not read |
| Text.SpacedWords | zworkforce/scheduler.py:46-46 | Splitting finds exactly the words, in order, whatever white space is around and between them |
| Cron.ParsedIsWellFormed | zworkforce/scheduler.py:48-57 | A parsed expression has a value for every field, and a literal `*` allows all of them |
| Cron.HorizonSuffices | zworkforce/scheduler.py:61-69 | Unless the expression is hopeless, a match lies inside the horizon |
| Cron.MatchingIsNotHopeless | zworkforce/scheduler.py:61-69 | A hopeless expression has no match inside the horizon |
| Cron.NextCronAt | zworkforce/scheduler.py:54-69 | Returns the least matching minute strictly after the given time; raises for malformed expressions, and otherwise exactly when the weekday field is `*` and every allowed day is impossible or a 29 February outside the window |
| Outbox.BatchFitsLease | zworkforce/outbox.py:22-30 | A batch delivered serially within its timeouts ends at least five seconds before the claim lease |
| Outbox.BatchIsLargest | zworkforce/outbox.py:22-30 | The claim lease is twice the timeout and at least thirty seconds, and a batch is as large as was asked for, up to 500, or as large as fits |
| Outbox.BackoffDoubles | zworkforce/outbox.py:61-63 | The retry delay doubles up to 1024 seconds and stays there |
| Outbox.Table.ClaimOutbox | zworkforce/db_automation.py:500-533 | Takes the oldest eligible items up to the limit, each once, and leaves out an eligible one only when the limit is used up by older ones |
| Outbox.Table.FinishOutbox | zworkforce/db_automation.py:535-550 | Changes the row exactly when the owner named still holds it, or when no owner is named |
| Outbox.Table.Tick | zworkforce/outbox.py:46-64 | An undisturbed tick finishes each claimed item once, with its own backoff on failure, counts the deliveries and the failures, and touches nothing else |
| OutboxHistory.DeliveredAtMostOnce | zworkforce/db_automation.py:535-550 | With any number of dispatchers at most one success per item is accepted, and `attempts` counts the accepted finishes |
| OutboxHistory.DeliveredStays | zworkforce/db_automation.py:500-550 | `delivered` is absorbing: no later event changes the row |
| OutboxHistory.OvertakenOwnerChangesNothing | zworkforce/db_automation.py:535-550 | An owner whose claim another owner took changes nothing until it claims the item again |
| OutboxHistory.PunctualDispatcherKeepsItems | zworkforce/outbox.py:22-30 | A dispatcher that keeps its timeouts never loses an item of its batch, whatever the others do |
| OutboxHistory.EligibleAreTaken | zworkforce/db_automation.py:515-530 | The rows reported as claimed are the rows the guarded updates took |
| OutboxHistory.NewItemIsTaken | zworkforce/db_automation.py:505-525 | A new item can be taken from the time it was made |
| OutboxHistory.TakenItem | zworkforce/db_automation.py:500-530 | A taken item carries its claim and can be taken again exactly when the lease, at least five seconds, has passed |
| OutboxHistory.FinishedItem | zworkforce/db_automation.py:535-550 | After a failed delivery an item can be taken exactly when its delay, at least a second, has passed, and after a success never |
| ServiceLeases.Registry.AcquireServiceLease | zworkforce/db_automation.py:452-472 | Succeeds exactly when the lease is free, expired or the caller's own, and then holds for the time asked for and at least five seconds |
| ServiceLeases.Registry.ReleaseServiceLease | zworkforce/db_automation.py:474-476 | Deletes the row exactly when it is the caller's |
| ServiceLeases.GrantsAreRecorded | zworkforce/db_automation.py:452-476 | A grant that has neither expired nor been ended by its owner is the row in the table |
| ServiceLeases.AtMostOneLeader | zworkforce/db_automation.py:452-476 | With a nondecreasing clock, at no time may two grants of one service be relied on |
| ServiceLeases.OwnerChangesOnlyAfterExpiry | zworkforce/db_automation.py:452-476 | Over every run a service passes from one owner to another only after the first released it, or once one of its grants from then on has run out |
| ServiceLeases.WholeIntervalsDisjoint | zworkforce/db_automation.py:452-476 | If nobody releases and no owner's renewal ends earlier than its grants before it, the whole granted intervals of different owners are disjoint |
| ServiceLeases.ShorterRenewalExample | zworkforce/db_automation.py:452-472 | The condition on renewals is needed: a renewal for a shorter time lets another owner follow before the first expiry |
| Dispatch.StepsInv | zworkforce/db_tasks.py:11-44 | After every sequence of statements, crashes and overlaps included, keys and created rows agree one to one, and each was created from a row some tick had read |
| Dispatch.OneDispatchPerKeyAndKind | zworkforce/scheduler.py:130-171 | Two dispatches created under one key differ in kind of target |
| Dispatch.SlotDispatchedAtMostOnce | zworkforce/scheduler.py:118-155 | With a clock that never goes back, a schedule slot is dispatched at most once, whatever is edited, however stale the rows ticks hold and however often they crash |
| Dispatch.AgentSlotNeverConflicts | zworkforce/scheduler.py:145-149 | A repeated dispatch of an agent's slot never meets its key with another request |
| Dispatch.MatchDispatchedAtMostOnce | zworkforce/scheduler.py:157-171 | While a rule keeps its kind of target, an event is dispatched for it at most once |
| Dispatch.ExactlyOnePerSlot | zworkforce/scheduler.py:145-149 | After any history, a dispatch of a slot that does not raise, first or repeated, leaves exactly one task or run |
| Dispatch.ExactlyOnePerMatch | zworkforce/scheduler.py:157-171 | The same for an event and a rule that keeps its kind |
| Dispatch.DispatchedTwiceIff | zworkforce/scheduler.py:130-140 | Under any key something is dispatched twice exactly when dispatches of both kinds were sent under it and not refused |
| Dispatch.ExistsIffSent | zworkforce/scheduler.py:130-140 | What a dispatch stands for exists exactly when one of its kind was sent under its key and not refused |
| Dispatch.RetargetedRuleIsDispatchedTwice | zworkforce/db_automation.py:249-266 | The condition on rules is needed: a rule retargeted between a crash and the next tick has its pending event dispatched twice |
| Dispatch.MarkedSlotNeverReturns | zworkforce/scheduler.py:145-149 | A due slot that has been marked never becomes due again |
| Dispatch.DispatchedWasDue | zworkforce/scheduler.py:142-149 | Whatever was dispatched for a slot had been read from an enabled schedule at or after the slot's time |
| Dispatch.DueIsDispatched | zworkforce/scheduler.py:142-149 | An enabled schedule whose time has come is dispatched, once read and not refused, with its target and payload under the key of its slot |
| Dispatch.MatchIsDispatched | zworkforce/scheduler.py:157-167 | A rule read for an event is dispatched for the event's tenant and source under the key of event and rule |
| Dispatch.DispatchRaisesIff | zworkforce/scheduler.py:130-140 | After any history a dispatch raises exactly when a check refuses it or its key stands for the same kind of target with another request |
| Dispatch.Scheduler.RunSchedule | zworkforce/scheduler.py:145-156 | One due schedule is its dispatch and then its mark, with or without an error |
| Dispatch.Scheduler.RunEvent | zworkforce/scheduler.py:157-171 | An event ends as processed only when every matching rule was dispatched, and as failed only when the dispatch just before the end raised, with one attempt more on its row |
| AuditChain.Log.Audit | zworkforce/db_governance.py:12-23 | Appends one row linked to the tenant's own head and returns the new head |
| AuditChain.Log.Migrate | zworkforce/db_migration.py:92-105 | The loop that reads the head once and carries it forward appends the rows that appending one by one would |
| AuditChain.Log.VerifyAuditChain | zworkforce/db_governance.py:29-40 | Answers intact exactly when every row links, with the head; otherwise names the first row that does not |
| AuditChain.EveryChainVerifies | zworkforce/db_governance.py:12-40 | Every interleaving of both producers over any tenants verifies for every tenant |
| AuditChain.AppendRecords | zworkforce/db_governance.py:12-23 | An appended row holds the columns it was given, linked to the head of the tenant's chain, and touches no other chain |
| AuditChain.MigratedRecords | zworkforce/db_migration.py:92-105 | A migrated row holds the old columns, with a fixed text for each absent one |
| AuditChain.MigrationIsARun | zworkforce/db_migration.py:92-105 | A migration is a run of appends, so what holds for runs holds for it |
| AuditChain.HeadDeterminesChain | zworkforce/db_governance.py:29-40 | Two intact chains with one head have the same rows up to ids and the spelling of the details |
| AuditChain.SameContentVerifies | zworkforce/db_governance.py:32-39 | Conversely, changing ids or spellings is never noticed |
| AuditChain.RecordedHeadProtectsHistory | zworkforce/db_governance.py:29-40 | If a chain verifies and still contains a head recorded earlier, all rows up to it are as they were |
| ExecutionLoop.Execute | zworkforce/engine.py:198-359 | The nested loops with their counters leave, for any provider, tools and readers, the one log that a flat step machine describes, and end |
| ExecutionLoop.LogIsDetermined | zworkforce/engine.py:198-359 | That log is unique: the task and the answers of the world determine it |
| ExecutionLoop.TurnsWithin | zworkforce/engine.py:227-243 | At most max_iterations turns |
| ExecutionLoop.CostBeforeTurn | zworkforce/engine.py:235-245 | The cost before each turn, the last included, is within max_cost_credits |
| ExecutionLoop.StoredIsSumOfUsage | zworkforce/engine.py:235-243 | The cost, tokens and iterations last stored are the sums over this claim's usage rows |
| ExecutionLoop.SpentIsBill | zworkforce/engine.py:235-243 | What a claim's usage rows add up to is the price of its token totals, each tier at its own rates |
| ExecutionLoop.CostOfUnits | zworkforce/engine.py:397-400 | A million fresh, cached or output tokens alone cost exactly the tier's rate of that kind |
| ExecutionLoop.CostAdds | zworkforce/engine.py:397-400 | The cost is additive over token counts |
| ExecutionLoop.CostNotNegative | zworkforce/engine.py:397-400 | With rates that are not negative no cost is |
| ExecutionLoop.CostOfOddCounts | zworkforce/engine.py:397-400 | Counts below zero cost as zero, except that a negative cached count adds to the fresh input |
| ExecutionLoop.CachedTokensHaveTheirRate | zworkforce/engine.py:397-400 | Cached tokens are never charged at the input rate |
| ExecutionLoop.TurnsAreAsked | zworkforce/engine.py:198-234 | A turn is taken only with an agent, a turn left, no cancel request and budget left, and its reply is the provider's |
| ExecutionLoop.CallIsAnswered | zworkforce/engine.py:279-331 | The calls of a reply are answered one by one in its order, each in the way its one condition says: refused, delegated or run |
| ExecutionLoop.StreakIs | zworkforce/engine.py:333-340 | The failure streak counts the last answers back to the latest delegation or tool that worked |
| ExecutionLoop.EndsHaveCauses | zworkforce/engine.py:198-359 | Every end has its cause, and every escalation goes one tier up after a blank answer |
| ExecutionLoop.ChildrenWithin | zworkforce/engine.py:294-312 | At most max_subagents children |
| ExecutionLoop.DispatchesWithin | zworkforce/engine.py:285-290 | No call signature is dispatched more often than the doom-loop limit |
| ExecutionLoop.StreakWithin | zworkforce/engine.py:333-340 | The limit of consecutive failures is never passed, and once it is reached only the end follows |
| ExecutionLoop.TierNeverDrops | zworkforce/engine.py:249-254 | The tier never drops from one turn to a later one, nor below the task's own |
| ExecutionApprovals.MutatingToolsAreApproved | zworkforce/engine.py:292-331 | In every history of the task table: a mutating or policy-bound tool that ran was granted, a mutating one for a task declared mutating, and in the state its row was read in the task had the required number of distinct approvers other than its creator and no rejection |
| ExecutionApprovals.ApprovalChecksNeverFire | zworkforce/engine.py:326-331 | The loop's own approval checks never fire, because claims already waited for the approvals: a granted tool runs exactly when it is not a mutating one on a task not declared mutating |
| ExecutionLoop.SucceedsOnlyOnAnswer | zworkforce/engine.py:247-277 | The loop ends in success only on an answer with content and without calls, within the cost limit |
| ExecutionLoop.EndGivesLeaseBack | zworkforce/engine.py:344-396 | The write that ends a claim gives the lease back; the task succeeds exactly when the latest reply was a final answer within the cost limit that was evaluated; it is queued again, or dead-lettered without attempts left, exactly when the provider was asked for the next turn and failed retryably and nobody had asked to cancel; it is canceled exactly when that was asked for and it did not succeed |
| RateLimiter.Limiter.Allow | zworkforce/security.py:114-132 | Decides as the limiter that keeps every accepted time, whatever has been popped or evicted |
| RateLimiter.Limiter.EvictStale | zworkforce/security.py:128-132 | Forgetting keys without recent times keeps what later decisions depend on |
| RateLimiter.EveryWindowHolds | zworkforce/security.py:119-126 | With nondecreasing times, no closed 60-second window holds more than the limit of accepted calls of a key |
| RateLimiter.AcceptedIff | zworkforce/security.py:119-126 | A request is accepted exactly when the 60 seconds up to it hold fewer than the limit of accepted requests of its key |
| Conversation.Session.AddMessage | packages/zarvis/ai/conversation.py:330-337 | After any adds since the last clear the session is what the offline formula keeps of all of them |
| Conversation.Session.EnforceLimit | packages/zarvis/ai/conversation.py:351-359 | Evicts the oldest message that is not a system message, or the oldest, until the limit holds |
| Conversation.EvictionFollowsFormula | packages/zarvis/ai/conversation.py:330-359 | Appending and evicting keeps all system messages and the latest others in the room left, or the latest system messages alone |
| Conversation.KeptLength | packages/zarvis/ai/conversation.py:351-359 | The session holds as many messages as the limit allows, and all of them while they fit |
| Conversation.ContextWindow | packages/zarvis/ai/conversation.py:164-211 | The window is within its budget and its other messages are the longest run of latest ones that fits after the system messages |
| Conversation.SystemsTakenFit | packages/zarvis/ai/conversation.py:192-198 | The system messages taken fit the budget, and all are taken if together they fit |
| CircuitBreaker.Breaker.RecordSuccess | packages/zarvis/ai/health_check.py:119-142 | Counts a success, after waking up, and closes a half-open circuit at the threshold |
| CircuitBreaker.Breaker.RecordFailure | packages/zarvis/ai/health_check.py:144-175 | Counts a failure, after waking up, and opens a half-open circuit or a closed one at the threshold |
| CircuitBreaker.Breaker.IsHealthy | packages/zarvis/ai/health_check.py:177-186 | Answers for the circuit as it is after a possible move to half-open |
| CircuitBreaker.QueriesAreInvisible | packages/zarvis/ai/health_check.py:91-193 | Erasing all queries from a trace changes nothing any later answer depends on |
| CircuitBreaker.FailuresAreTrailing | packages/zarvis/ai/health_check.py:119-175 | The failure counter is the run of failures since the last success or reset |
| CircuitBreaker.SuccessesAreTrailing | packages/zarvis/ai/health_check.py:91-175 | The success counter is the trailing run of successes, without those before the circuit last became half-open |
| CircuitBreaker.ClosedMeansFewFailures | packages/zarvis/ai/health_check.py:144-175 | A closed circuit has seen fewer consecutive failures than the threshold |
| CircuitBreaker.StaysOpen | packages/zarvis/ai/health_check.py:91-117 | An opened circuit stays open for the whole recovery timeout unless it is reset |
| CircuitBreaker.RecoversAfterSuccesses | packages/zarvis/ai/health_check.py:91-142 | After opening, without failure or reset, it is open until the timeout, then half-open, and closed exactly once enough successes followed the timeout |
| TokenBucket.Bucket.Consume | packages/zarvis/ai/rate_limiter.py:186-193 | Grants exactly when the refilled bucket holds a token, and takes one |
| TokenBucket.Bucket.TimeUntilAvailable | packages/zarvis/ai/rate_limiter.py:195-201 | The wait is exact: at a later time a token is there if and only if the wait has passed |
| TokenBucket.RefillOfEmpty | packages/zarvis/ai/rate_limiter.py:156-184 | An empty bucket has the tokens of a minute after a minute, and is full with one and a half times as many after ninety seconds |
| TokenBucket.Conservation | packages/zarvis/ai/rate_limiter.py:177-193 | What was granted and what is left never exceed what was there plus the refill of the time passed |
| TokenBucket.GrantsWithin | packages/zarvis/ai/rate_limiter.py:177-193 | In any interval of any run the grants are at most the capacity plus rate times elapsed time |
| Placeholders.RewriteQmark | zworkforce/db_backend.py:13-34 | Replaces exactly the question marks outside quotes, as a plain quote-toggling lexer finds them |
| Placeholders.RewritingIsUndone | zworkforce/db_backend.py:13-34 | The inverse recovers every text without a `%s` outside quotes |
| Placeholders.UndoneIff | zworkforce/db_backend.py:13-34 | The rewriting is undone by the inverse if and only if the text has no `%s` outside quotes |

## Left out
- WorkflowOrchestrator.Orchestrator.TickRun: one run per call; the outer loop over at most 200 active runs (which an error of one run ends for those after it), its statistics, error texts and two ticks of the same run at once are not modelled.
- WorkflowOrchestrator.Orchestrator.SubmitTask: what agent, budgets, router and criteria refuse is an arbitrary set that may change at any time between ticks; blankness and size are computed from the prompt.
- WorkflowOrchestrator.Orchestrator.Start: one tenant; rows keep the order of the definition, while a tick lists them by step id, and everything proved of histories holds for any order.
- WorkflowHistory.CompletedRun: the task of a step may be one that a client submitted under the step's key with the very request of the step; `create_task` returns it to the tick. Clients under another actor have keys of their own and are `OtherTask`.
- WorkflowOutcome.TickOutcome: statements of the tick alone; tasks that change while it runs are the differences between what it read and the tables.
- WorkflowProgress.RunSucceedsOnTime: speaks of rounds in which no submission is refused and all submitted tasks succeed before the next tick; other schedules are covered by `NeverStuck`.
- TaskStore.Store.RequeueExpiredLeases: one step; the code reads the rows and updates them one by one without a guard, so a claim in between is not modelled.
- TaskStore.Store.ClaimNextTask: the form with `SKIP LOCKED` may take a row that another locked row precedes; the histories allow a claim of any claimable row, which covers it.
- TaskHistory.RunningIffOwned: nothing is claimed about terminal statuses of tasks being final, because `update_task` is unguarded and stale workers can overwrite them.
- Outbox.Table.FinishOutbox: without an owner it is unguarded; the histories contain dispatchers only, which always name themselves.
- Outbox.Table.Tick: destinations, signatures and the HTTP exchange are one arbitrary outcome per item.
- CronText.WrittenExpression: numbers are written as plain decimals; plus signs, underscores and leading zeros, which `int` also reads, are covered by `Cron.NextCronAt` alone.
- Cron.NextCronAt: the time zone is UTC, so daylight saving is not modelled; years are unbounded; digits outside ASCII are not read as numbers.
- ExecutionLoop.SpentIsBill: every tier has a rate, as the configuration gives it one; counts are as providers send them, with cached tokens among the input.
- ExecutionLoop.Execute: what contracts registered for a pair of agents reject is arbitrary, call by call; message texts, prompts, audit and event rows, the criteria of the evaluator and the heartbeat thread are not modelled; calls count as identical when their arguments are equal as values.
- ExecutionApprovals.MutatingToolsAreApproved: every read of the row finds it; the fallback to the claimed copy for a deleted row is not modelled.
- AuditChain.HeadDeterminesChain: SHA-256 is a free constructor, so collisions do not exist; JSON encoding is represented by parsed values.
- RateLimiter.Limiter.Allow: the Retry-After value is not modelled; it is truncated to whole seconds and is not an exact wait.
- Conversation.ContextWindow: the token estimate is an arbitrary function of the text.
- CircuitBreaker.Breaker.IsHealthy: one circuit; the dictionary of providers only selects it.
- Dispatch.Scheduler.RunEvent: filters and payload templates are represented by whether a rule matches and by its rendered request; ids inside keys are structured, so separators in ids cannot make two keys equal.
- Dispatch.SlotDispatchedAtMostOnce: a next run is taken to be computed at the time of its write, so a write that lands after a delay with an outdated next run is not modelled; `last_run_at` and error texts are not kept.
- BrowserEffects.Ledger.Begin: result digests, error codes and timestamps of a row are not kept, and task ids are numbers, so an empty one is not modelled.
- Isolation: one transaction is one step, which is what `BEGIN IMMEDIATE` gives on SQLite. On PostgreSQL the same methods run under a plain `BEGIN` at the default isolation (`zworkforce/db_backend.py:42-43`, `zworkforce/db_backend.py:130`), where the statements of two transactions may interleave, for example of an approval and a rejection or of two audit appends of one tenant; the histories do not cover that.
- Clocks: two readings of the clock inside one transaction are one time, and timestamps are whole seconds except where real numbers are used.
- Model providers, policy rules, routing scores, streams, metrics, artifact stores, connectors, the HTTP, CLI and dashboard layers, and the tunnel manager are outside the model.
- Floating-point rounding: credits, tokens and times of the small algorithms are real numbers.
