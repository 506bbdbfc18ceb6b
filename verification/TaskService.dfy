/**
  The service's operations on the store object when nobody interferes; each is one uninterrupted run of the protocol.
 */
module TaskService {
  import opened A2A
  import opened EventLog
  import opened TaskUpdaters
  import opened FileStores
  import Protocol = WriterProtocol

  /** A snapshot filed under a task id belongs to that task, in the context its log is filed under. */
  ghost predicate FiledAs(c: Cell, contextID: string, taskID: string) {
    c.snapshot.Some? ==> c.snapshot.value.task.id == taskID && c.snapshot.value.task.contextID == contextID
  }

  /** The protocol state in which one writer stands alone before the cell. */
  ghost function Alone(c: Cell, contextID: string, taskID: string, op: Protocol.Op): Protocol.State {
    Protocol.State(contextID, taskID, c, map[0 := Protocol.Begun(op)])
  }

  ghost function Uninterrupted(c: Cell, contextID: string, taskID: string, op: Protocol.Op): Protocol.State {
    Protocol.Step(Protocol.Step(Protocol.Step(Alone(c, contextID, taskID, op), Protocol.Read(0)), Protocol.Append(0)),
        Protocol.Save(0))
  }

  /** An updater over freshly read slices, with the edits applied. */
  method BatchFor(task: Task, version: nat, edits: seq<Edit>) returns (updater: TaskUpdater)
    ensures fresh(updater) && fresh(updater.history) && fresh(updater.artifacts)
    ensures updater.View() == EditAll(NewDraft(task, version), edits)
    ensures updater.id == task.id && updater.contextID == task.contextID
    ensures |updater.pendingEvents| == |edits|
  {
    var history := new Message[|task.history|](i requires 0 <= i < |task.history| => task.history[i]);
    var artifacts := new Artifact[|task.artifacts|](i requires 0 <= i < |task.artifacts| => task.artifacts[i]);
    assert history[..] == task.history && artifacts[..] == task.artifacts;
    updater := RunBatch(task, history, artifacts, version, edits);
    DraftRecords(task, version, edits);
    assert updater.View().task.id == updater.id;
  }

  /** How an uninterrupted run of the protocol ends, told without the steps. */
  lemma UninterruptedUpdate(c: Cell, contextID: string, taskID: string, edits: seq<Edit>)
    ensures var s := Uninterrupted(c, contextID, taskID, Protocol.Update(edits));
            if c.snapshot.None? then s.cell == c && s.writers[0] == Protocol.Finished(Protocol.NotFound)
            else if Protocol.HasStatus(edits) && c.snapshot.value.task.status.state.Canceled? then
              s.cell == c && s.writers[0] == Protocol.Finished(Protocol.RefusedCanceled)
            else
              var (cell, r) := CellCommit(c, EditAll(NewDraft(c.snapshot.value.task, c.snapshot.value.version), edits));
              && s.cell == cell
              && s.writers[0] == Protocol.Finished(
                   if r.Err? then (if r.error.SaveFailed? then Protocol.SaveConflict else Protocol.AppendConflict)
                   else if edits == [] then Protocol.NothingToDo else Protocol.Committed)
  {
    hide EditAll, Protocol.HasStatus;
    if c.snapshot.Some? {
      DraftRecords(c.snapshot.value.task, c.snapshot.value.version, edits);
    }
  }

  /** Reads the task, edits a copy through an updater, and writes it back: what adding, updating and upserting share. */
  method UpdateTask(store: FileStore, ghost contextID: string, taskID: string, edits: seq<Edit>)
    returns (outcome: Protocol.Outcome)
    requires FiledAs(store.At(contextID, taskID), contextID, taskID) && Protocol.WellFormed(Protocol.Update(edits))
    modifies store
    ensures var s := Uninterrupted(old(store.At(contextID, taskID)), contextID, taskID, Protocol.Update(edits));
            store.At(contextID, taskID) == s.cell && s.writers[0] == Protocol.Finished(outcome)
    ensures forall c, t :: t != taskID ==> store.At(c, t) == old(store.At(c, t))
  {
    hide Uninterrupted, EditAll, Protocol.HasStatus, CellCommit;
    UninterruptedUpdate(store.At(contextID, taskID), contextID, taskID, edits);
    var got := store.GetTask(taskID, HISTORY_LENGTH_ALL);
    assert got == CellGet(store.At(contextID, taskID), HISTORY_LENGTH_ALL);
    if got.Err? {
      return Protocol.NotFound;
    }
    var task, version := got.value.0, got.value.1;
    if Protocol.HasStatus(edits) && task.status.state.Canceled? {
      return Protocol.RefusedCanceled;
    }
    var updater := BatchFor(task, version, edits);
    var written := ApplyTaskUpdates(store, updater);
    if written.Err? {
      return if written.error.SaveFailed? then Protocol.SaveConflict else Protocol.AppendConflict;
    }
    return if edits == [] then Protocol.NothingToDo else Protocol.Committed;
  }

  /** No write is half done: the snapshot covers the whole log. */
  ghost predicate Quiet(c: Cell) {
    c.logVersion == |c.log| == SnapshotVersion(c) && (c.snapshot.None? ==> c.log == [])
  }

  /** Whatever the history of the task, its cell is quiet as soon as no writer stands between append and save. */
  lemma ReachableCellIsQuiet(s0: Protocol.State, acts: seq<Protocol.Action>)
    requires Protocol.Init(s0)
    requires forall w :: w in Protocol.Exec(s0, acts).writers ==> !Protocol.Dirty(Protocol.Exec(s0, acts).writers[w])
    ensures Quiet(Protocol.Exec(s0, acts).cell)
    ensures FiledAs(Protocol.Exec(s0, acts).cell, Protocol.Exec(s0, acts).contextID, Protocol.Exec(s0, acts).taskID)
  {
    Protocol.RunKeepsInv(s0, acts);
    Protocol.SnapshotReads(Protocol.Exec(s0, acts));
  }

  /** The cell after one edit of a task whose snapshot is current. */
  ghost function Edited(c: Cell, e: Edit): Cell
    requires c.snapshot.Some?
  {
    var task := c.snapshot.value.task;
    Cell(c.log + [EventOf(task, e)], c.logVersion + 1, Some(Snapshot(EditTask(task, e), c.logVersion + 1)))
  }

  /**
    One edit, on any cell: refused on a canceled task if it is a status, else written exactly if the snapshot is
    current.
   */
  lemma EditCommitsIffCurrent(c: Cell, contextID: string, taskID: string, e: Edit)
    requires c.snapshot.Some?
    ensures var s := Uninterrupted(c, contextID, taskID, Protocol.Update([e]));
            var refused := e.SetStatus? && c.snapshot.value.task.status.state.Canceled?;
            && s.cell == (if !refused && Current(c) then Edited(c, e) else c)
            && s.writers[0] == Protocol.Finished(
                 if refused then Protocol.RefusedCanceled else if Current(c) then Protocol.Committed
                     else Protocol.AppendConflict)
    ensures Quiet(c) ==> Current(c) && Quiet(Edited(c, e))
  {
    var base, version := c.snapshot.value.task, c.snapshot.value.version;
    var d := NewDraft(base, version);
    assert [e][..0] == [] && EditAll(d, [e][..0]) == d;
    assert d.pending + [EventOf(base, e)] == [EventOf(base, e)];
    assert Protocol.HasStatus([e]) <==> e.SetStatus? by {
      assert [e][0] == e;
    }
    if !(e.SetStatus? && base.status.state.Canceled?) {
      var s0 := Alone(c, contextID, taskID, Protocol.Update([e]));
      assert Protocol.AfterRead(s0, Protocol.Update([e])) == Protocol.Ready(EditAll(d, [e]));
    }
  }

  // ---------------------------------------------------------------------- creating, cancelling, resuming

  /**
    Creation is the first event of the log. On a task that already has events it is refused without effect, be it
    complete or left without a snapshot by a creation that crashed. A foreign snapshot without a log would only be found
    at the save.
   */
  method CreateNewTask(store: FileStore, contextID: string, taskID: string, userMessage: Message)
    returns (r: Result<Task, CommitError>)
    modifies store
    ensures var before, after := old(store.At(contextID, taskID)), store.At(contextID, taskID);
            var task := Protocol.NewTask(contextID, taskID, userMessage);
            if before.logVersion != 0 then
              r == Err(AppendFailed(VersionMismatch(0, before.logVersion))) && after == before
            else if before.snapshot.Some? && before.snapshot.value.version != 0 then
              && r == Err(SaveFailed(VersionMismatch(0, before.snapshot.value.version)))
              && after == before.(log := before.log + [TaskCreated(task)], logVersion := 1)
            else
              && r == Ok(task)
              && after == Cell(before.log + [TaskCreated(task)], 1, Some(Snapshot(task, 1)))
              && Replay(after.log) == Some(task)
    ensures r.Ok? ==>
              && r.value.id == taskID && r.value.contextID == contextID
              && r.value.status == TaskStatus(Submitted, None, None)
              && r.value.history == [userMessage] && r.value.artifacts == [] && r.value.metadata == map[]
    ensures forall c, t :: t != taskID ==> store.At(c, t) == old(store.At(c, t))
  {
    hide CellCommit, Replay;
    var task := Protocol.NewTask(contextID, taskID, userMessage);
    var history := new Message[1](_ => userMessage);
    var artifacts := new Artifact[0];
    assert history[..] == task.history && artifacts[..] == task.artifacts;
    var updater := new TaskUpdater(task, history, artifacts, 0);
    updater.pendingEvents := [TaskCreated(task)] + updater.pendingEvents;
    assert updater.pendingEvents == [TaskCreated(task)];
    ghost var before := store.At(contextID, taskID);
    CommitOfCreation(before, task);
    var written := ApplyTaskUpdates(store, updater);
    r := if written.Err? then Err(written.error) else Ok(task);
  }

  /** What committing a creation does to any cell. */
  lemma CommitOfCreation(c: Cell, task: Task)
    ensures CellCommit(c, Draft(task, 0, [TaskCreated(task)])) ==
            if c.logVersion != 0 then (c, Err(AppendFailed(VersionMismatch(0, c.logVersion))))
            else if c.snapshot.Some? && c.snapshot.value.version != 0 then
              (c.(log := c.log + [TaskCreated(task)], logVersion := 1),
                  Err(SaveFailed(VersionMismatch(0, c.snapshot.value.version))))
            else (Cell(c.log + [TaskCreated(task)], 1, Some(Snapshot(task, 1))), Ok(1))
    ensures Replay(c.log + [TaskCreated(task)]) == Some(task)
  {
    ReplayConcat(None, c.log, [TaskCreated(task)]);
    assert [TaskCreated(task)][..0] == [];
  }

  datatype ServiceError = NoSuchTask | NotCancelable | TaskIsTerminal | WriteFailed(outcome: Protocol.Outcome)

  /** The note a cancellation leaves: from the agent, with one text part. */
  ghost predicate CancelNote(message: Option<Message>) {
    && message.Some? && message.value.role.RoleAgent? && |message.value.AllParts()| == 1
    && message.value.AllParts()[0].kind.TextPart? && message.value.AllParts()[0].text == "Task cancelled by user"
  }

  /**
    Cancels the tasks that exist and are not terminal, and answers with the canceled task; if an append still waits for
    its save, the cancellation is refused and nothing changes.
   */
  method CancelTask(store: FileStore, ghost contextID: string, taskID: string) returns (r: Result<Task, ServiceError>)
    requires FiledAs(store.At(contextID, taskID), contextID, taskID)
    modifies store
    ensures var before, after := old(store.At(contextID, taskID)), store.At(contextID, taskID);
            if before.snapshot.None? then r == Err(NoSuchTask) && after == before
            else if before.snapshot.value.task.status.state.IsTerminal() then r == Err(NotCancelable) && after == before
            else if !Current(before) then r == Err(WriteFailed(Protocol.AppendConflict)) && after == before
            else
              && r.Ok? && r.value.status.state.Canceled?
              && r.value == before.snapshot.value.task.(status := r.value.status)
              && CancelNote(r.value.status.message)
              && after.log == before.log + [StatusChanged(taskID, contextID, r.value.status, true)]
              && after.logVersion == before.logVersion + 1
              && after.snapshot == Some(Snapshot(r.value, after.logVersion))
    ensures forall c, t :: t != taskID ==> store.At(c, t) == old(store.At(c, t))
  {
    hide Uninterrupted, KeepsLast;
    ghost var before := store.At(contextID, taskID);
    var got := store.GetTask(taskID, 1);
    assert got == CellGet(store.At(contextID, taskID), 1);
    if got.Err? {
      return Err(NoSuchTask);
    }
    if !got.value.0.status.state.CanCancel() {
      return Err(NotCancelable);
    }
    var now, messageID: string := *, *;
    var note := NewMessage(messageID, RoleAgent, Some([NewTextPart("Task cancelled by user")]), NO_OPTIONS);
    var status := TaskStatus(Canceled, Some(note), Some(now));
    EditCommitsIffCurrent(before, contextID, taskID, SetStatus(status));
    var outcome := UpdateTask(store, contextID, taskID, [SetStatus(status)]);
    if !outcome.Committed? {
      return Err(WriteFailed(outcome));
    }
    var updated := store.GetTask(taskID, HISTORY_LENGTH_ALL);
    assert updated == CellGet(store.At(contextID, taskID), HISTORY_LENGTH_ALL);
    if updated.Err? {
      return Err(NoSuchTask);
    }
    return Ok(updated.value.0);
  }

  /** The user's message as it was sent, without stamps. */
  ghost predicate UserSaid(m: Message, messageID: string, parts: Option<seq<Part>>, options: MessageOptions) {
    && m.messageID == messageID && m.role.RoleUser? && m.parts == parts && m.contextID == "" && m.taskID == ""
    && m.referenceTaskIDs == options.referenceTaskIDs && m.extensions == options.extensions
    && m.metadata == options.metadata
  }

  /**
    A message for an existing task: refused when terminal or when an append still waits for its save, else added; only
    an interrupted task asks for a new run.
   */
  method ProcessExistingTask(store: FileStore, ghost contextID: string, taskID: string,
                             messageID: string, parts: Option<seq<Part>>, options: MessageOptions)
    returns (r: Result<bool, ServiceError>)
    requires FiledAs(store.At(contextID, taskID), contextID, taskID)
    modifies store
    ensures var before, after := old(store.At(contextID, taskID)), store.At(contextID, taskID);
            if before.snapshot.None? then r == Err(NoSuchTask) && after == before
            else if before.snapshot.value.task.status.state.IsTerminal() then r == Err(TaskIsTerminal)
                && after == before
            else if !Current(before) then r == Err(WriteFailed(Protocol.AppendConflict)) && after == before
            else
              && r == Ok(before.snapshot.value.task.status.state in {InputRequired, AuthRequired})
              && after.logVersion == before.logVersion + 1 && after.snapshot.Some?
              && after.snapshot.value.version == after.logVersion
              && var h := after.snapshot.value.task.history;
                 && after.snapshot.value.task == before.snapshot.value.task.(history := h)
                 && |h| == |before.snapshot.value.task.history| + 1 && before.snapshot.value.task.history <= h
                 && UserSaid(h[|h| - 1], messageID, parts, options)
                 && after.log == before.log + [MessageAdded(h[|h| - 1].(contextID := contextID, taskID := taskID))]
    ensures forall c, t :: t != taskID ==> store.At(c, t) == old(store.At(c, t))
  {
    ghost var before := store.At(contextID, taskID);
    var got := store.GetTask(taskID, HISTORY_LENGTH_ALL);
    assert got == CellGet(store.At(contextID, taskID), HISTORY_LENGTH_ALL);
    if got.Err? {
      return Err(NoSuchTask);
    }
    var state := got.value.0.status.state;
    if state.IsTerminal() {
      return Err(TaskIsTerminal);
    }
    var message := NewMessage(messageID, RoleUser, parts, options);
    EditCommitsIffCurrent(before, contextID, taskID, AddMessage(message));
    var outcome := UpdateTask(store, contextID, taskID, [AddMessage(message)]);
    if !outcome.Committed? {
      return Err(WriteFailed(outcome));
    }
    return Ok(state.IsInterrupted());
  }
}
