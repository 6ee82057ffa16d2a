# Proofs about the workflow engine

queue-task runs workflows whose steps live in PostgreSQL. Any number of server nodes advance the
same instances at the same time, with no lock and no transaction around an advance: the engine
relies on two compare-and-sets, `UPDATE … WHERE status = 'pending'` for a step and
`UPDATE … WHERE status = 'running'` for an instance, and on informal arguments in comments about
why stale snapshots do no harm. This project states those arguments as theorems about a model of
the code and proves them.

The model has two layers.

* **The protocol** (`Types`, `Protocol`). A state holds the rows of one instance, its status, the
  positions of all calls in flight, a clock, and what has been sent and written. A position says
  where in `StartInstance`, `TriggerStep`, `completeStep`, `advance` or `tryTerminateInstance` a
  call stands, with the snapshot it holds. Each SQL statement, HTTP request, publish and dispatch
  is one atomic action. A run is any sequence of labels: a call acts, a call crashes (which also
  stands for an SQL error or a cancelled context), a new `TriggerStep` arrives, time passes. A
  theorem for all label sequences is a theorem for every interleaving on any number of nodes.
* **One node** (`Storage`, `Registries`, `Engines`). The repository and the engine as classes
  whose methods change rows in place with the loops and the recursion of the source. Each engine
  method is proved to perform, statement by statement, the actions of one protocol call
  (`Refinement`), so that whatever a node has done is a run of the protocol (`Outcomes`).

Around them: `Safety`, `Actions`, `Lifecycle`, `Effects`, `Counting`, `Progress`, `Crashes`, `DataFlow`,
`Answers`, `Publishing`, `History`, `Confluence`, `FixedPoint`, `Completion` and `Serializability` hold the
protocol's theorems. `Overwrites`, `Continuations` and `Relays` say exactly what a second write to
a step does to the data flow, and `Overlap` holds two runs in which it breaks it. `Definition` and
`Setup` model the validation that gives the engine its preconditions, `Query` and `PageWalk` the
instance list and its pages, `Broadcast` the refresh signals, `Cron` the cron triggers and their
locks.

Where the documentation and the code disagree the model follows the code, and where a property is
false of the code its exact condition is proved:

* `docs/guide/how-it-works.md:5` calls a workflow an acyclic graph. `validateStepDependencies`
  accepts cycles (`Setup.CycleAccepted`), so acyclicity is nowhere assumed; `Completion` proves
  what it decides.
* `docs/guide/how-it-works.md:28` says that a step receives all its dependencies' outputs. The
  code leaves out empty outputs, and passes no input when none is left.
* Two overlapping `TriggerStep` calls for one waiting step can both write, because
  `UpdateStepStatus` has no guard. What the model proves about statuses holds regardless; what it
  proves about outputs is stated for runs with at most one trigger in flight per step
  (`DataFlow.Serialized`), because it is false without: `Overlap.OverlapBreaksDataFlow` is a run in
  which the second write leaves a dependent with an outdated input, `Overlap.SnapshotBreaksDataFlow`
  one in which the inputs are current right after it and a call breaks them later, from the
  snapshot that it still holds. The exact conditions: `DataFlow.OverlapExact` for the moment of the
  write, `Overwrites.InputsCurrentIff` for whole runs, and `Relays.WriteExact` for a write and
  everything that may follow it.
* A cron firing starts its workflow once if every attempt for it comes within a day of its time
  (`Cron.AtMostOneStart`). Later attempts can start it again, also after a lost attempt that has
  pruned its own lock (`Cron.LoserPrunesOwnLock`); `Cron.StartsAgainIff` says exactly when.

`dafny verify dfyconfig.toml` checks everything. Nothing was executed.

## Model

| member | source | states |
|---|---|---|
| `Safety.Always` | internal/workflow/engine.go:252-345 | every reachable state, crashes and overlapping triggers included, satisfies the invariant: rows stay on their trigger type's path with all dependencies of a non-pending step completed, every call may rely on what its position presupposes, claims are exclusive, terminal statuses are justified |
| `Safety.StaleReady` | internal/workflow/engine.go:304-306 | a losing claimant may go on with its stale snapshot: what is ready in the snapshot has its dependencies completed in the table |
| `Safety.KeepsApply` | internal/workflow/repository.go:354-369 | any one step of any run keeps the invariant |
| `Lifecycle.OneEdge` | internal/workflow/repository.go:301-315 | one action moves a step along at most one edge of its trigger type, although the update has no guard |
| `Lifecycle.MonotoneAutomaton` | internal/workflow/engine.go:202-238 | between any two moments of any run a step moves only forward on its path; completed and failed are never left |
| `Lifecycle.DependencySafety` | internal/workflow/engine.go:268-274 | in every reachable state a step that is not pending has all its dependencies completed |
| `Lifecycle.TerminalAgreement` | internal/workflow/engine.go:240-266 | a completed instance has all its steps completed, a failed one has a failed step, crashes included |
| `Lifecycle.RacingClaimsAgree` | internal/workflow/engine.go:240-249 | calls that race for the terminal status always carry the same one |
| `Lifecycle.TerminalStays` | internal/workflow/repository.go:396-408 | a terminal status never changes again |
| `Lifecycle.RowConsistency` | internal/workflow/repository.go:301-315 | in every reachable state each status comes with exactly its columns: no output before completion, an error exactly for failed rows, started before completed, across both writers' CASE updates |
| `Effects.AtMostOnce` | internal/workflow/engine.go:281-341 | over any run each http step is sent at most once, each manual step notified, each queueti step watched, each auto or http output written at most once, each instance has at most one terminal event, and no step has the effect of another trigger type |
| `Effects.ExactlyOnce` | internal/workflow/engine.go:447-453 | without crashes, once all calls have returned, every claim has had its effect exactly once |
| `Counting.TriggerConservation` | internal/workflow/engine.go:202-238 | accepted triggers of a manual or queueti step equal writes done plus writes about to happen |
| `Counting.WritesEqualAccepted` | internal/workflow/engine.go:202-238 | at rest every accepted trigger has written exactly once |
| `Counting.WorkBound` | internal/workflow/engine.go:252-345 | snapshots taken in a run never exceed StartInstance and TriggerStep calls plus auto and http steps |
| `Counting.ActionsEnd` | internal/workflow/engine.go:252-345 | every action of a call that has not returned strictly lowers a measure of what is left, on cyclic tables too |
| `Counting.RunsEnd` | internal/workflow/engine.go:252-345 | a whole concurrent run makes only boundedly many actions, linear in the number of triggers |
| `Progress.AlwaysLive` | internal/workflow/engine.go:252-345 | without crashes no wake-up is lost: a ready step is covered by a call that will list or holds a snapshot in which it is still to come; a decided instance is about to be terminated; a running step is being worked on |
| `Progress.AtRest` | internal/workflow/engine.go:357-368 | when no call is in flight: nothing runs, no ready step is pending unless a step failed, and the instance is failed if and only if a step failed, completed if and only if all completed |
| `Progress.Heals` | internal/workflow/engine.go:252-345 | whatever has crashed before, once any later call has listed the steps and all calls have returned without a further crash, no ready step is pending unless one failed, and the instance status fits the rows |
| `Crashes.CrashedIsSilent` | internal/workflow/engine.go:447-453 | a crash changes neither the database nor what has left the engine nor any other call, and whatever follows, the crashed call never does anything again |
| `Crashes.RunningIff` | internal/workflow/engine.go:447-453 | in every reachable state a step is running if and only if a call is working on an auto or http step, or one has crashed while it was: what a crash leaves running stays running |
| `Crashes.LeftRunningIff` | internal/workflow/engine.go:221-229 | when all calls have returned or crashed, exactly those steps are running at which a call crashed between the won claim and the write |
| `Crashes.LostIff` | internal/workflow/engine.go:281-341 | when all calls have returned or crashed, the request, notification, registration or terminal event of a won claim is missing if and only if the call that owed it crashed, and has happened exactly once otherwise |
| `DataFlow.DataFlowEquation` | internal/workflow/engine.go:276-297 | a claimed step's input is its static input, else the object of exactly its dependencies' non-empty outputs; a completed auto step's output is its input, an http step's is the answer to its input, any other's was given by an accepted trigger; a failed step's error is the message that answered its input |
| `Answers.HttpOutcome` | internal/workflow/engine.go:318-331 | in every reachable state, crashes and overlapping triggers included, an http step has been answered at most once, to the input it was claimed with; a completed one holds the payload of that answer, a failed one its message |
| `Answers.AnswerDecides` | internal/workflow/engine.go:318-331 | without crashes, at rest, a successful answer has completed its step with the payload, and a failure has failed it with the message |
| `DataFlow.MergeGathers` | internal/workflow/engine.go:465-480 | the merged input holds exactly the completed dependencies with non-empty outputs, and is absent if there are none |
| `DataFlow.InputIsStable` | internal/workflow/engine.go:276-279 | an input computed from a stale snapshot is the one that the current table would give |
| `DataFlow.AlwaysOrderly` | internal/workflow/engine.go:202-219 | with one trigger in flight per step, whoever is about to complete a step finds it not completed |
| `DataFlow.OverlapExact` | internal/workflow/engine.go:221-238 | the single write: right after it every claimed input is current if and only if the step was not completed yet, or the output is the same, or no claimed step without a static input depends on it; what calls in flight do later is the subject of `Relays.WriteExact` |
| `Overwrites.StaysSound` | internal/workflow/engine.go:276-297 | while no output is replaced by another one, crashes and overlapping triggers included, every input that was claimed or can still be claimed from a snapshot in flight stays current |
| `Overwrites.HarmExact` | internal/workflow/engine.go:268-297 | a step of a run keeps all claimed inputs current if and only if it neither replaces an output that a claimed step has consumed nor claims a step from a snapshot in which a dependency has another output than in the table |
| `Overwrites.InputsCurrentIff` | internal/workflow/engine.go:202-238 | all claimed inputs are current at every moment of a run if and only if the run makes no such step, for every run, crashes and overlapping triggers included |
| `Relays.WriteExact` | internal/workflow/engine.go:221-238 | a trigger that is about to write leaves the inputs current over every continuation that replaces no further output if and only if the step is not completed yet, or the output is the same, or no claimed step has consumed the old output and no call in flight can still use it: none holds a snapshot from which it can claim a dependent without a static input, or, once a step has failed, none can reach such a claim even if other calls in flight first win, one each, the auto and http steps before it |
| `Relays.FirstOverwriteExact` | internal/workflow/engine.go:202-238 | the same for the first write in any run that replaces an output |
| `Overlap.OverlapBreaksDataFlow` | internal/workflow/engine.go:202-219 | a concrete run without crashes in which two overlapping triggers leave a dependent with an input that its dependency no longer has as output |
| `Overlap.SnapshotBreaksDataFlow` | internal/workflow/engine.go:202-238 | a concrete run without crashes in which the replaced output was not consumed yet, the inputs are current after the write, and a call then claims the dependent from the snapshot it holds, with the old output |
| `Publishing.PublishAfterWrite` | internal/workflow/engine.go:221-238 | a publish happens only after the completed write of that output, at most once per write, and only for a step with a topic and a non-empty output |
| `Publishing.PublishedExactly` | internal/workflow/engine.go:231-236 | at rest a step was published exactly once if it is completed with a topic and a non-empty output, with that output, and never otherwise |
| `Publishing.PublishedPerTrigger` | internal/workflow/engine.go:231-236 | however triggers overlap, at rest a manual or queueti step with a topic was published exactly once per accepted trigger with a non-empty output |
| `History.AlwaysOrdered` | internal/workflow/engine.go:455-462 | every step that completed did so after all its dependencies |
| `Confluence.Confluent` | internal/workflow/engine.go:252-345 | with succeeding, deterministic HTTP, statuses, inputs, outputs and the instance status at rest depend only on the definition and the accepted triggers, for any two interleavings and any two step orders |
| `FixedPoint.LeastFixedPoint` | internal/workflow/engine.go:252-345 | without failures and further triggers, the completed steps become the least set that contains those completed before and every auto or http step whose dependencies it contains; exactly the manual and queueti steps made ready wait; nothing runs |
| `FixedPoint.NeverOutside` | internal/workflow/engine.go:268-274 | whatever fails or crashes, without further triggers no step completes outside that set; in particular no manual or queueti step completes by itself |
| `FixedPoint.OrderIrrelevant` | internal/workflow/engine.go:347-368 | that set does not depend on the step order, the number of nodes or the interleaving |
| `Completion.CyclicStaysPending` | internal/workflow/definition.go:213-222 | a step on a cycle or downstream of one, self-dependency included, is pending in every reachable state, and the instance never completes |
| `Completion.SomethingWaits` | internal/workflow/engine.go:268-274 | on an acyclic graph every state at rest that is neither failed nor completed has a waiting step |
| `Completion.TriggersToComplete` | internal/workflow/engine.go:202-219 | for crash-free runs at rest with at most one trigger in flight per step: a completed instance has accepted exactly one trigger for each manual and queueti step and none for another |
| `Completion.CompletedIffTriggered` | internal/workflow/engine.go:202-219 | for such runs on an acyclic graph without a failed step: the instance is completed if and only if exactly one trigger was accepted for each manual and queueti step |
| `Completion.CompletesIffAcyclic` | internal/workflow/definition.go:213-222 | an instance of a validated workflow can complete if and only if its dependency graph is acyclic |
| `Serializability.Serializable` | internal/workflow/engine.go:202-345 | whatever any number of nodes do in a crash-free run at rest, with succeeding and deterministic HTTP and at most one trigger in flight per step, one node that works through its calls one by one can do with the same accepted triggers, and it ends with the same statuses, inputs, outputs and instance status |
| `Storage.Repository.CreateInstance` | internal/workflow/repository.go:86-97 | a new running row under an unused identifier, everything else unchanged |
| `Storage.Repository.CreateSteps` | internal/workflow/repository.go:200-236 | inserts the steps in order as pending rows; stops at exactly the first name that the unique key refuses, keeping the rows before it |
| `Storage.AllInsertedFills` | internal/workflow/repository.go:200-236 | after inserting distinct steps the table lists them in their order with their columns and fresh rows |
| `Storage.Repository.ListSteps` | internal/workflow/repository.go:238-258 | every row once, in step order, with its columns |
| `Storage.Repository.GetStep` | internal/workflow/repository.go:292-299 | the row of that name, or nothing when there is none |
| `Storage.Repository.ClaimStep` | internal/workflow/repository.go:354-369 | wins exactly on a pending row, which it alone changes: status, input, and the start time when it begins to run |
| `Storage.Repository.UpdateStepStatus` | internal/workflow/repository.go:301-315 | writes the row whatever its status, and no other row: status, the error as given, the payload as input or output, and the times, column by column |
| `Storage.Repository.ClaimInstanceTerminal` | internal/workflow/repository.go:396-408 | wins exactly on a running instance, of which it changes only the status |
| `Storage.Repository.TryAcquireCronLock` | internal/workflow/repository.go:374-391 | one statement prunes the trigger's own locks older than a day and inserts the new one unless it is there, in either order; every lock of another workflow or index stays, and every lock of the last 86400 seconds |
| `Refinement.ClaimWon` | internal/workflow/repository.go:354-369 | a won ClaimStep on the stored rows is the protocol's claim, and leaves fewer pending steps |
| `Refinement.Completes` | internal/workflow/engine.go:227-229 | the completed write on the stored rows is the protocol's |
| `Refinement.OthersMirrored` | internal/workflow/repository.go:301-315 | what is done for one instance disturbs no other |
| `Engines.Engine.StartInstance` | internal/workflow/engine.go:176-197 | fails exactly for unknown workflows, changing nothing; else a new instance whose rows are the steps of the definition in their order, with their dependencies, static inputs and topics: "manual" and "queueti" steps wait at most, "auto" steps never wait, each claimed "http" step has had one request; settled, its completed steps the least closure of none unless one failed, its data flowing, each request carrying its input and the step ended as it was answered, exactly what is due sent, all other instances untouched |
| `Engines.NoTriggerMeansManual` | internal/workflow/definition.go:185-186 | a step to which the file gives no trigger, or "manual", is not completed by StartInstance: it waits for a person, who was notified once, or is pending; and no request was sent for it |
| `Engines.Engine.TriggerStep` | internal/workflow/engine.go:202-219 | rejects exactly missing steps and those that wait for nobody, changing nothing; else the step is completed with the given output and the instance settled, its completed steps the least closure of those before and this one unless a step failed, all outputs of before kept, and exactly what is due sent for it |
| `Engines.Engine.CompleteStep` | internal/workflow/engine.go:221-238 | performs the protocol's write and publish, and completes the row with the given output |
| `Engines.Engine.TryTerminateInstance` | internal/workflow/engine.go:240-249 | performs the protocol's terminal claim, and sends the event of that status exactly when won |
| `Engines.Engine.Advance` | internal/workflow/engine.go:252-345 | performs the protocol's call from its snapshot to its return, and ends on every table because each recursion follows a won claim that lowers the pending count |
| `Engines.Engine.Activate` | internal/workflow/engine.go:281-341 | activates a ready step by its trigger type: the call is left exactly after a won auto or http claim |
| `Engines.Engine.ClaimAndDo` | internal/workflow/engine.go:447-453 | a lost claim changes no row and leaves the call in its loop; a won one has run to the end |
| `Engines.Engine.ExecuteHttpStep` | internal/workflow/engine.go:370-381 | sends one request with the claimed input; the answer may be anything |
| `Engines.BuildCompletedSet` | internal/workflow/engine.go:347-355 | exactly the completed steps' outputs |
| `Engines.WorkflowState` | internal/workflow/engine.go:357-368 | all finished, and some failed, of the whole table |
| `Engines.DepsCompleted` | internal/workflow/engine.go:455-462 | true exactly when every dependency is among the completed steps |
| `Engines.MergeDeps` | internal/workflow/engine.go:465-480 | the loop computes the merge whose meaning `DataFlow.MergeGathers` states |
| `Outcomes.RestSettled` | internal/workflow/engine.go:357-368 | an instance at rest stands where its steps say |
| `Outcomes.RestSentRight` | internal/workflow/engine.go:281-341 | at rest exactly what is due was sent: one request for each claimed http step, carrying its input, and the step stores the answered payload as output or the answered message as error; one notification for each claimed manual step, one registration for each claimed queueti step, one message with the output to the topic of each completed step that has both, one event of the terminal status |
| `Outcomes.RunsToClosure` | internal/workflow/engine.go:252-345 | after a call alone has run to its end no stored step is completed outside the least closure of those completed at its beginning, and without a failure all of that closure is |
| `Outcomes.NodesAgree` | internal/workflow/engine.go:252-345 | what one sequential node has stored is what any number of nodes reach in any interleaving that accepts the same triggers; that every interleaving has such a sequential history is `Serializability.Serializable` |
| `Definition.ValidateSteps` | internal/workflow/definition.go:168-211 | accepts exactly acceptable step lists and fills in their defaults in place: an empty trigger becomes "manual", a given one stays, http verbs are put in capitals, all else stays; on an error it names the first bad step and what is wrong with it, the steps before it are normalised and the others untouched |
| `Definition.CheckStep` | internal/workflow/definition.go:168-211 | reports an error exactly for a step that is not acceptable after the names before it, and it is the first rule broken in the order of the source |
| `Definition.ValidateTriggers` | internal/workflow/definition.go:141-164 | accepts exactly lists in which every trigger has what its type needs; otherwise names the first that has not |
| `Definition.ValidateStepDependencies` | internal/workflow/definition.go:213-222 | accepts exactly when every dependency names a step; otherwise names the first step with one that does not |
| `Definition.Validate` | internal/workflow/definition.go:127-139 | accepts exactly the definitions that follow the rules, spelled out field by field, and leaves each step as it was but for an empty trigger, now "manual", and a given http verb, now in capitals; otherwise reports the first fault in the order name, triggers, steps, dependencies |
| `Definition.AcceptableExactly` | internal/workflow/definition.go:127-222 | the recursive checks accept exactly what the rules, spelled out field by field, allow |
| `Definition.ValidateTwice` | internal/workflow/definition.go:127-139 | a second validation succeeds and changes nothing |
| `Definition.ValidationSuffices` | internal/workflow/definition.go:168-222 | success means distinct non-empty names, known triggers with their fields, dependencies that name steps, recognised upper-case methods |
| `Setup.ValidatedConfig` | internal/workflow/repository.go:200-236 | what CreateSteps stores of a validated definition is what the protocol starts from |
| `Setup.CreatedRun` | internal/workflow/engine.go:176-191 | CreateSteps is a run of the protocol to a state that satisfies its invariant with all rows fresh |
| `Setup.CycleAccepted` | internal/workflow/definition.go:213-222 | validation accepts a workflow whose one step depends on itself |
| `Query.BuildQuery` | internal/workflow/repository.go:124-170 | the generated conditions with their positional arguments select exactly the rows that the filter means; the placeholders are 1, 2, 3, …, one for each argument |
| `Query.Extended` | internal/workflow/repository.go:136-161 | each branch keeps the next number one more than the arguments, every placeholder bound to its own argument, and the meaning |
| `Query.SelectsExactly` | internal/workflow/repository.go:129-161 | the rows selected, in the columns of the table and the fields of the filter |
| `PageWalk.ListInstances` | internal/workflow/repository.go:124-190 | the newest of the selected rows, newest first, up to the limit |
| `PageWalk.ListsExactly` | internal/workflow/repository.go:124-170 | that list in the columns of the table: newest first, by falling identifier among those of the same time, each meeting every part of the filter, and whatever meets them and is left out is older than all of a full list |
| `PageWalk.BuildRunsGrid` | internal/ui/ui.go:697-741 | at most a page of the rows behind the cursor, newest first; a next cursor exactly when rows are left, and then all of them are behind it |
| `PageWalk.NoDuplicates` | internal/ui/ui.go:798-837 | while rows come, go and change between the pages, no row is returned twice |
| `PageWalk.FoundOnce` | internal/ui/ui.go:798-837 | every row present and selected at every page is returned exactly once |
| `PageWalk.FrozenWalk` | internal/ui/ui.go:697-741 | over an unchanging table the pages together are the unlimited list |
| `PageWalk.Walk` | internal/ui/ui.go:603-609 | following the links comes to an end |
| `PageWalk.WholeDays` | internal/ui/ui.go:127-144 | the date fields select whole days, both ends included |
| `Broadcast.Always` | internal/ui/broadcaster.go:19-45 | in every interleaving a channel holds at most one signal and a client receives no more than it was offered |
| `Broadcast.ClientsIff` | internal/ui/broadcaster.go:19-29 | after any run the clients are exactly the channels subscribed and not unsubscribed since |
| `Broadcast.UnsubscribedForGood` | internal/ui/broadcaster.go:24-37 | no Notify that begins after a channel was unsubscribed ever sends to it |
| `Broadcast.NothingElseLost` | internal/ui/broadcaster.go:39-44 | in every interleaving what a client has received and its buffer holds are exactly the sends that found the buffer empty |
| `Broadcast.NoLostRefresh` | internal/ui/broadcaster.go:32-45 | whoever was subscribed when a Notify took its snapshot has, once the Notify has dealt with it, a pending signal or has received one since the Notify began |
| `Broadcast.HeldOrReceived` | internal/ui/broadcaster.go:39-44 | from the moment a Notify has dealt with a channel, the channel holds a signal or has been received from since |
| `Broadcast.Broadcaster.Notify` | internal/ui/broadcaster.go:32-45 | signals every client and no other channel, without blocking |
| `Broadcast.Broadcaster.Subscribe` | internal/ui/broadcaster.go:19-29 | a new empty channel joins the clients |
| `Broadcast.Broadcaster.Unsubscribe` | internal/ui/broadcaster.go:24-28 | exactly that channel leaves the clients |
| `Cron.AtMostOneStart` | internal/workflow/repository.go:374-391 | of the attempts for one firing within a day of its time at most one wins, despite pruning |
| `Cron.FirstStarts` | internal/workflow/repository.go:374-391 | and the first one does |
| `Cron.NextAttemptIff` | internal/workflow/repository.go:374-391 | the next attempt for a firing whose lock is there wins if and only if an attempt of another firing has pruned the lock in between, or the attempt prunes it first |
| `Cron.StartsAgainIff` | internal/workflow/repository.go:374-391 | over any run of attempts by any nodes a firing starts its workflow more than once if and only if its lock is pruned, by whatever attempt, between the first attempt for it and some later one, or by that later one before it inserts |
| `Cron.NonInterference` | internal/workflow/repository.go:374-391 | whether an attempt wins, and which locks of its trigger are there in the end, depends only on the attempts for the same workflow and index: dropping all others from any run changes neither |
| `Cron.LateAttemptStartsAgain` | internal/workflow/repository.go:374-391 | a concrete run in which an attempt more than a day late starts the workflow a second time |
| `Cron.LoserPrunesOwnLock` | internal/workflow/repository.go:374-391 | a concrete run in which a late attempt loses, prunes its own lock, and the next attempt starts the workflow again |
| `Cron.KeyInjective` | internal/workflow/cron.go:85 | the key "name:index" tells both, even if names contain colons |
| `Cron.CronScheduler.Sync` | internal/workflow/cron.go:36-89 | afterwards the live entries are exactly the jobs of the definitions, one for each cron trigger that can be registered, with its schedule and input, and exactly the values of `jobs`, none leaked |
| `Cron.CronScheduler.Fire` | internal/workflow/cron.go:61-79 | one instance of the workflow with the job's input is started exactly when the lock is won and the workflow loaded, running its definition and disturbing no other; otherwise no instance, row or message is new |
| `Cron.Reload` | internal/workflow/registry.go:31-64 | a reload succeeds exactly if all files are good, then replaces the definitions by theirs, and keeps the scheduler up to date with the current definitions either way |
| `Registries.ParseFile` | internal/workflow/definition.go:235-248 | a file is loaded exactly if it is readable and follows the rules, and then has the file's name, triggers and steps, with the defaults of the steps filled in |
| `Registries.Registry.Load` | internal/workflow/registry.go:31-64 | all or nothing: succeeds exactly if every file is readable and follows the rules and names are distinct, then holds exactly these, each with the file's name, triggers and steps, and calls each hook once with all of them; else nothing changes |
| `Registries.Registry.AddReloadHook` | internal/workflow/registry.go:25-29 | one more hook, behind the others |
| `Registries.Registry.List` | internal/workflow/registry.go:75-83 | each definition once |

## Left out

- HTTP transport, address checks, response limits and JSON syntax: an answer is any success with a payload or any failure with a message.
- SQL errors in the one-node layer: its calls run to their end; the protocol covers errors and crashes at every statement.
- Interleaving inside the one-node classes: `Engines` runs one call at a time; interleavings are the protocol's subject.
- PostgreSQL itself: a statement is atomic, and the keys on steps and cron locks are enforced.
- Recovery of a step left running by a crash: the code has none, so progress is stated for runs without crashes.
- `UpdateInstanceStatus`: it has no guard and the engine does not call it.
- `Poller` and `InstancePoller`: goroutines around a client that is not part of this model; `Watched` records that a step was handed over.
- Whether and how a notification reaches anybody, its templates and filters, and the state-change signal that StartInstance and TriggerStep send at their end.
- The stack of recursive `advance` calls: after a won claim the callers only return, so a position is one program counter.
- The closure passed to `claimAndDo`: a datatype names the two closures of the source.
- Reading the publish topic before the completed write: the topic is constant, so the protocol has no action of its own for it.
- YAML, cron expressions, URLs, the encoding of inputs and the upper case of letters outside ASCII: parameters.
- The text of the query and of page links: conditions are a datatype, cursors are exact pairs of time and identifier; a cursor that does not parse is ignored by the source and so is no cursor here.
- The page size of 50: proved for every size from one up.
- Overlapping `Load` calls: their hooks run outside the lock, so reloads are taken one after the other.
- Server handlers, authentication, the builder, diagrams and HTML: user interface without properties of this kind.
- Engines.Engine.ExecuteHttpStep: does not say which answer comes, because the remote service decides.
- Lifecycle.RowConsistency: does not promise the order of the times for overlapping updates, because the model reads the clock at the atomic write, while PostgreSQL's `now()` is the start of the transaction, so an update that waits for a row lock can store a `completed_at` before the row's `started_at`.
- Outcomes.NodesAgree: supposes succeeding and deterministic HTTP and at most one trigger in flight per step, without which the outcome does depend on the interleaving.
