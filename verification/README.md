# Verified model of atlasic

atlasic serves the Agent-to-Agent protocol: clients send messages to tasks, jobs run an agent on them, and every change of a
task is an event in an append-only log beside a versioned snapshot. This project models that core in Dafny and proves what it
keeps under concurrency.

- `A2A`, `EventLog`: the value types, the events, what a log means (`Replay`), and the batch of edits an updater collects
  (`Draft`). A log stores messages stamped with their context and task, a snapshot stores them unstamped
  (task_updater.go:38-49), so tasks are compared by `SameTask`, which erases those two fields.
- `TaskUpdaters`, `FileStores`, `TaskService`: the updater object over its copied slices, the store object, and the service
  operations on them. Each store call has a pure meaning on a `Cell` (one log with its version, one snapshot).
- `WriterProtocol`: any number of writers interleaving read, append and save as separate atomic steps, with a crash possible
  anywhere. It uses the same `Cell` functions that the store object is proved against, and `TaskService.UpdateTask` is proved
  to be one uninterrupted run of it.
- `WriteRequests`: what the writers of a run were begun with is what the log and the history of the task hold.
- `JobSystem`: jobs competing for the lock of a task, the agent's status updates, cancellations with a stale first read, and
  content written by anybody, on top of `WriterProtocol`. A worker leaves the lock on every way out, also after one of its own
  writes failed; a worker that dies is a run in which its writers crash and its lock is then freed.
- `JobProcessing`: `ProcessJob` statement by statement with its status tracker, for every agent, with any number of steps of
  the rest of `JobSystem` between any two storage calls, and with any of its own storage calls failing. In a world that is
  `calm` nobody else steps and no call fails; everything else is left open there too.
- `LockedJobs`: the lock of `JobSystem` is the one `TaskLocker` keeps.
- `JobRuns`: runs from the empty store that show what the general theorems leave open does happen.
- `MessageSending`: the end of a blocking send, where the wait on the log meets the read of the snapshot.
- `EventReaders`, `TaskHandles`: the poll loops over a growing log, and the agent's checkpoint reads.
- `TaskLocker`, `JobQueue`: the in-memory lock table and job queue, as objects and under every interleaving.
- `ToolParts`, `Runners`, `ExtensionHeader`: the tool loop of the language-model runner, and the extensions header.

A run of a state machine is a list of actions; an action that is impossible where it stands changes nothing, so a theorem
about all lists is a theorem about all runs. Clocks, id generation, the agent, the model, tool handlers, contexts that end and
callbacks that fail are left open: their values are arbitrary (`:= *`) or parameters.

## Findings

- Canceled is the only guarded status. An undisturbed status update commits exactly when the task is not canceled
  (`WriterProtocol.UndisturbedUpdate`), so every other terminal status can be overwritten, for
  instance by a cancellation that read the task before it completed: `JobRuns.StaleCancelHappens` is such a run.
- A crash or I/O failure between append and save freezes its task: every later append is refused
  (`WriterProtocol.CrashAfterAppendIsFatal`).
- If such a failure hits a non-terminal status that an agent writes after its own terminal one, log and snapshot disagree for
  good: the task reads as completed, its log means one at work (`JobRuns.CrashSplitsLogAndSnapshot`). What the task reads as is
  still final (`JobSystem.TerminalIsForever`), and the log agrees exactly if no non-terminal status is left uncovered by the
  snapshot (`JobSystem.LogIsTerminalIff`).
- An agent that returns a cancellation leaves the task as it is, with neither callback called, on the assumption that a user
  has canceled the task (atlasic.go:344). That is right exactly if the agent's own last update was terminal or somebody's
  cancellation was saved (`JobProcessing.ProcessJob`). After a failed heartbeat or at shutdown neither need hold, and the task
  stays working with nobody at work: `JobRuns.CanceledAgentLeavesTaskWorking` is such a run.
- A blocking send waits for a final event in the log and then reads the snapshot, which is saved later, so its answer can be a
  task still being worked on (`MessageSending.WaitAnswersWorking`). It is terminal exactly if the last status event among those
  the snapshot covers is (`MessageSending.AnswerIsTerminalIff`).
- `Load` reports the version of the whole log even when its limit cut the batch, so a poll that finds more than 100 events
  skips the rest for good. `EventReaders.GaplessIffQuietAfterBacklog` and `EventReaders.CompleteIffNeverBacklogged` say
  exactly when a stream is affected, and `EventReaders.FirstSightEndsWait` with `EventReaders.MissedFinalIsMissedForever`
  when a blocking wait misses the end of its task.
- A second call of an unlock closure frees whoever holds the lock by then (`TaskLocker.SecondUnlockBreaksExclusion`);
  `TaskLocker.UnlockIsHarmlessIff` says exactly when an unlock is harmless.
- A result or error message whose parts are nil leaves no message in the status (task_updater.go:252).
- A history checkpoint works exactly when the last message's id is not empty and no earlier message has it
  (`TaskHandles.HistoryCheckpoint`).
- A comment in filesystem_storage.go:79 says a missing snapshot is accepted for expected version 0; the code accepts it for any
  expected version, and so does `CellSave`.

## Model

| member | source | states |
|---|---|---|
| A2A.TaskStates | a2a/a2a.go:86-109 | completed, failed, canceled and rejected end a task; input and authentication required interrupt it; exactly the former cannot be canceled |
| EventLog.UpsertRefinesTable | task_updater.go:77-89 | on a list with distinct artifact ids an upsert is exactly a table update by id, and the ids stay distinct |
| EventLog.TableLookup | task_updater.go:77-89 | the table a list of artifacts stands for holds exactly its ids, each with its artifact |
| EventLog.DraftIsReplay | task_updater.go:37-106 | for any sequence of edits the updater's task is the replay of its pending events over the snapshot it started from |
| EventLog.DraftRecords | task_updater.go:37-106 | the read version is kept and every edit is recorded once, in order, stamped with the ids of its task |
| EventLog.DraftKeepsIdsDistinct | task_updater.go:77-89 | no sequence of edits makes two artifacts share an id |
| EventLog.ReplayConcat | task_updater.go:131-159 | a log may be replayed in pieces: what a prefix means, then the rest on top |
| EventLog.SameTaskIff | task_updater.go:38-49 | tasks count as the same exactly if they agree in every field, and their messages in everything but the two stamps |
| TaskUpdaters.TaskUpdater.constructor | task_updater.go:21-35 | the updater starts as the snapshot, over fresh copies of its slices |
| TaskUpdaters.TaskUpdater.AddMessage | task_updater.go:38-50 | the whole new state: unstamped message in the task, stamped message in the events |
| TaskUpdaters.TaskUpdater.UpdateStatus | task_updater.go:53-74 | the whole new state, with the final flag set exactly for terminal states |
| TaskUpdaters.TaskUpdater.UpsertArtifact | task_updater.go:77-106 | the in-place loop replaces the first artifact with the id or appends, and records the event |
| TaskUpdaters.RunBatch | task_updater.go:21-106 | a whole batch yields the folded draft while the caller's slices keep their contents |
| FileStores.FileStore.GetTask | filesystem_storage.go:36-65 | not found, or the snapshot with its version, its history cut to the last messages for positive lengths only |
| FileStores.LimitKeepsLast | filesystem_storage.go:58-62 | a positive length keeps the last messages, that many or all there are; any other keeps the task as it is |
| FileStores.FileStore.SaveTask | filesystem_storage.go:67-105 | replaces the snapshot unless an existing one has another version; nothing else changes |
| FileStores.FileStore.Append | filesystem_storage.go:142-194 | extends the log and its version if the expected version is current, else changes nothing; other logs stay |
| FileStores.FileStore.Load | filesystem_storage.go:196-230 | the window of the log from an index up to a limit, with the version of the whole log |
| FileStores.WindowIsWindow | filesystem_storage.go:196-230 | the events of a window are those of the log from an index on, all of them or the first so many |
| FileStores.ApplyTaskUpdates | task_updater.go:131-159 | append then save under the updater's read version, stopping at the first refusal; nothing for an empty batch |
| FileStores.CommitIsSingleUse | task_updater.go:131-159 | a non-empty batch that was committed is refused by every later state of the log |
| TaskService.UpdateTask | task_updater.go:230-291 | adding, updating and upserting are an uninterrupted read, append and save of the protocol, with the same outcome |
| TaskService.EditCommitsIffCurrent | task_updater.go:230-291 | on any cell one edit is refused if it is a status for a canceled task, else written if and only if no append waits for its save |
| TaskService.ReachableCellIsQuiet | task_updater.go:131-159 | after any run with no writer between append and save the snapshot covers the whole log |
| TaskService.CreateNewTask | task_updater.go:195-228 | creation is the first event of an empty log, and the task is submitted under its ids with the user's message as its history and nothing else; on a task with events, be its creation complete or crashed, it is refused without effect |
| TaskService.CancelTask | atlasic.go:690-719 | cancels the existing non-terminal tasks with one final event that carries the agent's note, changes nothing but the status, and answers with that task; refused without effect while an append waits for its save |
| TaskService.ProcessExistingTask | atlasic.go:742-779 | refuses missing and terminal tasks, and any while an append waits for its save, without effect; else adds the user's message at the end, unstamped in the task and stamped in the log, and asks for a run exactly if input or authentication is required |
| WriterProtocol.RunKeepsInv | task_updater.go:131-159 | the protocol invariant holds in every reachable state of any interleaving, crashes included |
| WriterProtocol.SnapshotIsReplay | filesystem_storage.go:67-105 | log version equals log length, the snapshot never claims more, and it is the replay of what it claims |
| WriterProtocol.QuietSnapshotIsCurrent | task_updater.go:131-159 | with no write outstanding the snapshot is the replay of the whole log |
| WriterProtocol.CanceledIsAbsorbing | task_updater.go:247-277 | after a canceled event no status event is ever appended, and log and snapshot keep reading as canceled |
| WriterProtocol.SavedCancelIsFinal | task_updater.go:263-276 | a cancellation that was appended gets saved, and the task reads as canceled ever after |
| WriterProtocol.CanceledReplay | task_updater.go:269-271 | a well-formed log means a canceled task if and only if it holds a cancellation, wherever that is |
| WriterProtocol.ReadIsLastCovered | task_updater.go:131-159 | what a task reads as is the last status its snapshot covers, or the submitted one it was created with |
| WriterProtocol.UndisturbedUpdate | task_updater.go:263-276 | an undisturbed status update commits if and only if the task is not canceled, overwriting any other status |
| WriterProtocol.PendingSaveIsSafe | task_updater.go:140-148 | a writer between append and save is alone there, both versions fit, and its save goes through |
| WriterProtocol.SaveConflictNeverHappens | filesystem_storage.go:72-78 | no writer whose append was accepted ever fails the version check of its save |
| WriterProtocol.OutstandingSaveFreezes | filesystem_storage.go:163-166 | until the outstanding save happens the store stands still |
| WriterProtocol.CrashAfterAppendIsFatal | task_updater.go:140-148 | after a crash between append and save no append on that task ever succeeds again |
| WriterProtocol.LogIsAcceptedBatches | filesystem_storage.go:142-194 | the log is the accepted batches in order, each whole and once, by exactly the writers past their append |
| WriterProtocol.RefusedLeavesNoTrace | filesystem_storage.go:163-166 | a refused append changes neither log nor snapshot, and its batch is in the log at no later time |
| WriterProtocol.LogGrows | filesystem_storage.go:168-170 | along every run the log only grows at its end and the snapshot version never falls |
| WriterProtocol.UndisturbedWriterCommits | task_updater.go:131-159 | a writer that is not disturbed does what the sequential commit does |
| WriteRequests.LogIsWhatWasAsked | task_updater.go:131-291 | along every run the log is, batch by batch, what the batches' writers were begun with: the first batch creates the task as submitted with the user's message, every other one holds an event for each edit in order, under the task's ids |
| WriteRequests.HistoryIsWhatWasAsked | task_updater.go:195-245 | along every run the history of a stored task is, up to the stamps, the message of the accepted creation and then the messages logged since, up to the version of the snapshot |
| JobSystem.RunKeepsInv | atlasic.go:260-465 | in every reachable state the lock holder is the only worker past the lock, and every status other than canceled is on its way by an active worker |
| JobSystem.OneWorkerAtATime | atlasic.go:262-274 | two workers past the lock are the same worker |
| JobSystem.CancelGate | atlasic.go:690-710 | one who wants to cancel writes exactly if the task was there and not completed, failed, canceled or rejected when it was read |
| JobSystem.TerminalReadSettles | atlasic.go:277-290 | a terminal read with the lock free shows a settled task, even with writes under way |
| JobSystem.GuardedForever | atlasic.go:260-300 | while a worker holds the lock without writing, and once a task is settled, the task keeps its very status or becomes canceled through any steps of the others |
| JobSystem.SettledForever | atlasic.go:286-290 | a settled task keeps its very status or becomes canceled, is never executed again, and whether its log agrees never changes |
| JobSystem.TerminalIsForever | atlasic.go:260-300 | once terminal with the lock free, that very status or canceled forever and the agent never called again, for all later jobs, cancels, messages and crashes; the log stays terminal if and only if no non-terminal status was left uncovered, which takes a crash between append and save |
| JobSystem.LogIsTerminalIff | task_updater.go:140-148 | over a terminal snapshot the log means a terminal task exactly if no non-terminal status is uncovered |
| JobRuns.StaleCancelOverwritesCompletion | atlasic.go:690-710 | a cancellation whose check read an older state overwrites a completion when undisturbed |
| JobRuns.StaleCancelHappens | atlasic.go:690-710 | a run from the empty store in which a task reads as completed and then as canceled |
| JobRuns.CrashSplitsLogAndSnapshot | task_updater.go:140-148 | a run in which the lock is freed after a failed write, the task reads as completed and its log means one at work |
| JobRuns.CanceledAgentLeavesTaskWorking | atlasic.go:340-347 | a run as promised for the canceled exit in which its condition for a terminal task is false: the task stays working, the lock is free and nobody is at work |
| LockedJobs.RunMirrors | atlasic.go:262-274 | every run of jobs makes locker calls in which no unlock is called twice, and both sides agree on who holds the task |
| LockedJobs.ExclusionCarriesOver | task_locker.go:32-66 | the exclusion proved of the locker makes two workers past the lock the same worker |
| LockedJobs.AcquiresIffGranted | task_locker.go:49-55 | a waiting job gets the lock exactly when the locker would grant it |
| JobProcessing.OutsideUntouched | atlasic.go:260-465 | no steps of the others touch a lock holder's place, its writer or what is already in the log, and they change what the task reads as only to canceled |
| JobProcessing.CommitStatus | task_updater.go:246-277 | a worker's status write amid interference and failing store calls: written means in the log and what the task reads as; not written leaves the reading as it was or canceled; a failed save leaves the event in the log and the snapshot behind it; undisturbed it goes through unless the task is canceled |
| JobProcessing.UpdateTaskStatus | task_updater.go:247-277 | the written status has the state asked for and a message exactly when parts are given and not nil: the agent's, with those parts, references, extensions and metadata |
| JobProcessing.StatusTracker.UpdateStatus | atlasic.go:234-244 | the tracker remembers exactly the updates that went through, and the task reads as the last of them or as canceled |
| JobProcessing.AcquireTaskLockWithRetry | atlasic.go:468-488 | retries until the lock is free or the context ends, and holds the lock exactly in the first case |
| JobProcessing.RunAgent | atlasic.go:333-338 | whatever the agent does, the tracker holds its last update that went through, all of them are in the log, and the task reads as the last or as canceled |
| JobProcessing.HandleFailure | atlasic.go:340-402 | no callback and no write on cancellation, else the fail callback once; a plain error is recorded as failed without a message, unless the agent ended the task itself; a status error is always recorded, with its own state and message; undisturbed, recording works exactly if the agent did not write canceled |
| JobProcessing.Conclude | atlasic.go:404-464 | success leaves the agent's own terminal status, or a completion that passes the result's parts on, and undisturbed it cannot fail to |
| JobProcessing.ProcessLocked | atlasic.go:276-465 | from the first read to the last callback: what was written, that the task was left as the agent's return demands, what it reads as then, and which callback was called |
| JobProcessing.ProcessJob | atlasic.go:260-465 | whatever fails, the lock is free again; the task reads as the last status this job wrote or as canceled, and that status is the agent's last one, a completion with the agent's result, failed without a message after a plain error, or a status error's own state and message, each exactly when due; a nil return or a completion means a settled task, a completion a final event of this run; at most one callback, none only when skipped or canceled; after a canceled agent the task is terminal exactly if the agent's last update was or a cancellation was saved; undisturbed, the log gains exactly the working status, the agent's updates and at most one closing status |
| JobProcessing.NilReturnIsFinal | atlasic.go:286-290 | after a nil return the task keeps the status it was left with or becomes canceled in every continuation, and the agent is never called again; the log agrees exactly if it did then |
| EventReaders.PollsOfARunGrow | filesystem_storage.go:196-230 | polls taken along a run of the write protocol see a growing log |
| EventReaders.VersionIsLongestSeen | atlasic.go:954-957 | a reader's version is the length of the longest log it has seen |
| EventReaders.BatchMeaning | atlasic.go:913 | a poll gets the events from the reader's version on, a hundred at most |
| EventReaders.FinalEndsTask | task_updater.go:53-74 | in the log of any run the final events are exactly the completed, failed, canceled and rejected statuses |
| EventReaders.WaitForTaskCompletion | atlasic.go:841-871 | returns nil at exactly the first poll whose batch holds a final event, unless the context ends before |
| EventReaders.FirstSightEndsWait | atlasic.go:852-868 | the first poll to see a final event ends the wait if and only if the event lies within its batch |
| EventReaders.PromptWithoutBacklog | atlasic.go:841-871 | without backlog the wait ends at the first poll after the earliest final event was appended |
| EventReaders.MissedFinalIsMissedForever | filesystem_storage.go:218-229 | a final event beyond that batch is in no later batch either |
| EventReaders.TrimShows | atlasic.go:921-944 | for a length n of zero or more a created task keeps the last n messages, or all if there are fewer, and every other field; any other event, and any event without a length or with a negative one, stays as it is |
| EventReaders.SendBatch | atlasic.go:919-952 | the events of a batch are sent in order up to where the context ended, a created task with its last messages when a length of zero or more is asked for, everything else as logged |
| EventReaders.StreamTaskEvents | atlasic.go:901-968 | the stream ends at the first poll whose batch ends in a final event or is cut by the context; delivered events are those of the log at known positions, a cut batch included, with a created task's history cut to the length asked for |
| EventReaders.BatchEndsStreamIff | atlasic.go:959-967 | a poll ends the stream exactly if it brought something whose last event, the log's last or the hundredth of a backlog, is final |
| EventReaders.PositionsIncrease | atlasic.go:913-957 | positions sent by completed turns increase strictly and stay below the reader's version |
| EventReaders.DeliveredIncrease | atlasic.go:913-957 | all delivered positions, a cut last batch included, increase strictly: no event twice, none out of order |
| EventReaders.CompleteIffNeverBacklogged | filesystem_storage.go:218-229 | everything below the reader's version was sent if and only if no poll found more than its limit |
| EventReaders.GaplessIffQuietAfterBacklog | filesystem_storage.go:218-229 | what was delivered, a cut batch included, has no gap if and only if no log seen after a poll that found more than its limit was longer than that one, and nothing of a last batch was sent after it |
| MessageSending.AwaitAndAnswer | atlasic.go:625-641 | an answer comes only after a poll with a final event, and is the task as the store has it then |
| MessageSending.AnswerIsTerminalIff | atlasic.go:625-641 | along any run the answer after the wait is an existing task, and a terminal one if and only if the last status event the snapshot covers is terminal |
| MessageSending.WaitAnswersWorking | atlasic.go:625-641 | a run from the empty store in which the wait is over and the answer is a task still being worked on |
| TaskHandles.TaskHandle.GetLastMessageID | task_handle.go:112-124 | the id of the last message, or the empty id for an empty history |
| TaskHandles.TaskHandle.GetHistorySince | task_handle.go:126-154 | everything for the empty id, what follows the first match for a known id, nothing for an unknown one |
| TaskHandles.HistorySinceMeaning | task_handle.go:126-154 | everything for the empty id, nothing for an id no message has, else exactly what follows the first message that has it |
| TaskHandles.TaskHandle.GetLastEventVersion | task_handle.go:158-166 | the version of the log |
| TaskHandles.TaskHandle.GetEventsSince | task_handle.go:168-176 | the events from the given version on |
| TaskHandles.HistoryCheckpoint | task_handle.go:126-154 | a message checkpoint yields exactly the messages added since if and only if its id marked the end of the history |
| TaskHandles.DistinctIdsMarkEnd | task_handle.go:112-124 | distinct non-empty ids always mark the end |
| TaskHandles.HistoryGrows | task_updater.go:38-50 | along every run the history of a task only grows at its end, by exactly the messages logged between the snapshots, up to the stamps |
| TaskHandles.CheckpointRoundTrip | task_handle.go:112-176 | after any run from a checkpoint, events since are those appended since, and messages since are those logged between the two snapshots, if and only if the id marked the end |
| TaskLocker.InMemoryTaskLocker.Lock | task_locker.go:32-66 | refuses when closed, done or held, in that order, else takes the lock |
| TaskLocker.InMemoryTaskLocker.Unlock | task_locker.go:57-63 | frees the task by name, unless closed |
| TaskLocker.InMemoryTaskLocker.Close | task_locker.go:69-79 | closes and forgets all locks |
| TaskLocker.MutualExclusion | task_locker.go:32-79 | with each unlock called at most once, at most one grant per task is out, and the table holds exactly the tasks of the grants out |
| TaskLocker.UnlockFreesOnlyItsOwn | task_locker.go:57-63 | an unlock leaves every other grant out and its task locked |
| TaskLocker.NoGrantAfterClose | task_locker.go:36-38 | after closing nothing is granted |
| TaskLocker.UnlockIsHarmlessIff | task_locker.go:57-63 | an unlock keeps exclusion if and only if its grant is out or nobody holds the task |
| TaskLocker.SecondUnlockBreaksExclusion | task_locker.go:57-63 | a run in which a repeated unlock lets two holders in |
| JobQueue.InMemoryJobQueue.Enqueue | jobqueue.go:67-93 | the closed error exactly when closed; else buffered, handed to a waiting receiver, given up with a done context, or waiting inside while neither is possible |
| JobQueue.InMemoryJobQueue.Select | jobqueue.go:87-92 | the choice between sending, to the buffer or a waiting receiver, and a done context |
| JobQueue.InMemoryJobQueue.Dequeue | jobqueue.go:96-106 | the oldest job, the closed error only when closed and empty, or the context's end |
| JobQueue.InMemoryJobQueue.Close | jobqueue.go:109-118 | closes once, and only while no enqueuer is inside |
| JobQueue.InsideUntilOwnStep | jobqueue.go:67-93 | an enqueuer that found the queue open stays inside, with its job, until it sends, hands over or gives up |
| JobQueue.Conservation | jobqueue.go:67-118 | in every interleaving received then buffered is exactly sent, in order and within capacity, and no send meets a closed channel |
| JobQueue.DrainsAfterClose | jobqueue.go:96-118 | after closing nothing is sent, the rest comes out in order, and the closed signal appears exactly when all is out |
| JobQueue.ReceivesEmptyTheQueue | jobqueue.go:96-106 | as many receives as jobs buffered hand out those jobs in order |
| ToolParts.ToolUseRoundTrip | model/model.go:363-426 | a tool use reads back from its part exactly if it has a name, and never as a result |
| ToolParts.ToolResultRoundTrip | model/model.go:376-467 | a tool result reads back exactly if it has an id and a name, and never as a use |
| ToolParts.ToolUseIff | model/model.go:389-426 | which parts read as tool uses, by their kind, intent and fields, and as which use |
| ToolParts.ToolResultIff | model/model.go:429-467 | which parts read as tool results, by their kind, intent and fields, and as which result |
| ToolParts.PartLayout | model/model.go:363-386 | the keys and values under which a tool part carries its id, name, arguments or content |
| ToolParts.ToolUsesConcat | model/model.go:331-339 | collecting is additive: the uses of some parts, then those of the rest |
| ToolParts.SpreadIsCollected | model/model.go:331-339 | from any named uses, spread among any parts that are none, exactly those uses are collected, in order |
| ToolParts.ToolResultsConcat | model/model.go:352-360 | collecting results is additive likewise |
| ToolParts.GetToolUseParts | model/model.go:331-339 | the tool uses of a message in order |
| ToolParts.GetToolResultParts | model/model.go:352-360 | the tool results of a message in order |
| Runners.Runner.Next | model/runner.go:69-143 | one call moves the runner's whole state as specified, reports the step with its index and attempt, adds the answered exchange to the transcript exactly after a response, and reports the failed calls |
| Runners.CallTools | model/runner.go:120-139 | every tool use is answered in order, failed ones with their reason |
| Runners.ErrorsIffCallFailed | model/runner.go:127-142 | there is an error if and only if some call could not be made or failed |
| Runners.ErrorsAreFailedCalls | model/runner.go:104-139 | the errors are the failed calls, all of them, in order, each with its reason |
| Runners.Transcript | model/runner.go:69-98 | after any calls the transcript is the initial messages and one exchange per earlier response; index and attempt count responses and recent failures |
| Runners.TranscriptHolds | model/runner.go:69-98 | where every earlier response stands in the transcript, and that the message right after it hands back one result for each of its calls, in order |
| Runners.Pairing | model/runner.go:120-139 | each call is answered in place under its own id and name: with the handler's parts and metadata, or with a text that says why there is no result |
| Runners.NextCallsTheUses | model/runner.go:99-139 | a tool-use response made of any named uses, with other parts in between, gives a step that calls and answers exactly those |
| Runners.ResultsReadBack | model/runner.go:76-82 | reading the answering message back recovers the calls' non-empty ids in order |
| Runners.FullResultsReadBack | model/runner.go:76-82 | when every call has an id all results come back, one for one |
| Runners.NextMessageAnswersCalls | model/runner.go:76-139 | the next transcript message answers exactly the calls of the step that carry an id |
| ExtensionHeader.ParseExtensionHeader | transport/extension.go:201-214 | the trimmed, non-empty pieces between commas, in order, and nothing for the empty header |
| ExtensionHeader.ResolveActiveExtensions | transport/extension.go:217-225 | the known extensions among the requested ones, in the order and as often as requested |
| ExtensionHeader.FormatExtensionHeader | transport/extension.go:239-245 | the URIs of the extensions, in order, separated by a comma and a blank |
| ExtensionHeader.ValidateRequiredExtensions | transport/extension.go:228-236 | reports a missing required extension if and only if there is one |
| ExtensionHeader.TrimKeepsCore | transport/extension.go:207-208 | trimming removes any white space around a core that has none at its ends and keeps the core; of white space nothing is left |
| ExtensionHeader.SpaceTable | transport/extension.go:208 | which characters are white space: tab to carriage return, blank and the Unicode ones, and no visible ASCII character |
| ExtensionHeader.ParseFindsTokens | transport/extension.go:201-214 | any clean tokens, padded with any white space, joined by commas with any blank pieces in between, parse to exactly those tokens in order |
| ExtensionHeader.ResolveConcat | transport/extension.go:217-225 | resolving is additive over the requested URIs |
| ExtensionHeader.FormatNext | transport/extension.go:239-245 | one more extension adds its URI, after a comma and a blank unless it is the first |
| ExtensionHeader.ParsedIsClean | transport/extension.go:206-212 | every parsed token is non-empty, trimmed and free of commas |
| ExtensionHeader.JoinThenParse | transport/extension.go:201-245 | printed tokens parse back, duplicates and order kept |
| ExtensionHeader.HeaderRoundTrip | transport/extension.go:201-245 | for every header, parsing the printed resolution of the parsed header gives its known URIs |

## Left out

- S3 storage, SQS, HTTP and SSE handling, authentication, the transport client, Lambda and the model providers: wrappers around
  remote services. The S3 store checks versions and writes in separate remote calls, so the concurrency results do not carry over.
- JSON encoding and file I/O errors: serialisation is the identity and every store call is atomic, as the store's mutex makes it.
  A store call that fails is a crash of its writer at that point, in `WriterProtocol`, `JobSystem` and `JobProcessing` alike; it is
  taken to have had no effect. A file left half written, and the branch that reads an unreadable events file as version 0, are not
  modelled.
- 64-bit wrap-around of versions: versions are natural numbers; a log would need 2^64 events to differ.
- Artifact append semantics: events say append, the snapshot replaces by id, and `Replay` follows the snapshot.
- Liveness: conflicts are not retried by the program, so nothing says that a writer, a wait or a lock attempt ever succeeds.
- ProcessJob without a task locker: the lock in `JobSystem` then stands for the single background worker; several unlocked
  workers on one task are not modelled.
- Monitoring during execution (heartbeats and the cancellation check): it reads the store and may end the agent's context, which
  is covered because the agent may return any result or error at any time.
- The incoming-message lookup of `ProcessJob`, job headers and output modes: they never reach the store.
- Push notifications: sent after the writes and never read back.
- Runners.Runner.Next: tool results are values, so a handler that returns the same pointer twice, or keeps it, is not modelled;
  nor is a model that changes the request it is given.
- Runner.Steps: an iterator over `Next` that may retry forever.
- ListTasksByContext, virtual files, push notification configs: no interaction with logs and snapshots.
- The header is a sequence of characters; bytes that are not valid UTF-8 are not modelled.
- Prompt building, agent cards, remote agents and test doubles: formatting and plumbing.
