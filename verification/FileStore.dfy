/**
  The file-backed store: one event log per (context, task) and one versioned snapshot per task. Every call is atomic.
 */
module FileStores {
  import opened A2A
  import opened EventLog
  import opened TaskUpdaters

  datatype StoreError = VersionMismatch(expected: nat, got: nat) | TaskNotFound

  /** Which of the two writes of a commit was refused. */
  datatype CommitError = AppendFailed(error: StoreError) | SaveFailed(error: StoreError)

  datatype Snapshot = Snapshot(task: Task, version: nat)

  datatype EventsFile = EventsFile(events: seq<Event>, version: nat)

  const HISTORY_LENGTH_ALL := -1

  /** What the store holds about one task of one context. */
  datatype Cell = Cell(log: seq<Event>, logVersion: nat, snapshot: Option<Snapshot>)

  const EMPTY_CELL := Cell([], 0, None)

  function SnapshotVersion(c: Cell): nat {
    if c.snapshot.None? then 0 else c.snapshot.value.version
  }

  function SnapshotTask(c: Cell): Option<Task> {
    if c.snapshot.None? then None else Some(c.snapshot.value.task)
  }

  /** No append waits for its save: the snapshot is as new as the log. */
  ghost predicate Current(c: Cell) {
    c.snapshot.Some? && c.snapshot.value.version == c.logVersion
  }

  // ------------------------------------------------- what each call means for a cell

  function CellAppend(c: Cell, expected: nat, events: seq<Event>): (Cell, Result<nat, StoreError>) {
    if expected != c.logVersion then (c, Err(VersionMismatch(expected, c.logVersion)))
    else
      var next := c.logVersion + |events|;
      (c.(log := c.log + events, logVersion := next), Ok(next))
  }

  /** A missing snapshot is not checked against the expected version. */
  function CellSave(c: Cell, task: Task, expected: nat, next: nat): (Cell, Result<(), StoreError>) {
    if c.snapshot.Some? && expected != c.snapshot.value.version then
      (c, Err(VersionMismatch(expected, c.snapshot.value.version)))
    else
      (c.(snapshot := Some(Snapshot(task, next))), Ok(()))
  }

  /** A positive history length keeps the last messages; zero and negative lengths keep all. */
  function LimitHistory(task: Task, historyLength: int): Task {
    if historyLength > 0 && |task.history| > historyLength then
      task.(history := task.history[|task.history| - historyLength..])
    else task
  }

  /** The same task with its last messages: all of them unless a positive number is asked for. */
  ghost predicate KeepsLast(task: Task, given: Task, historyLength: int) {
    && given.(history := task.history) == task
    && |given.history| <= |task.history| && given.history == task.history[|task.history| - |given.history|..]
    && |given.history| == if 0 < historyLength < |task.history| then historyLength else |task.history|
  }

  lemma LimitKeepsLast(task: Task, historyLength: int)
    ensures KeepsLast(task, LimitHistory(task, historyLength), historyLength)
  {
    assert task.history[0..] == task.history;
  }

  function CellGet(c: Cell, historyLength: int): Result<(Task, nat), StoreError> {
    if c.snapshot.None? then Err(TaskNotFound)
    else Ok((LimitHistory(c.snapshot.value.task, historyLength), c.snapshot.value.version))
  }

  /** The events from index `from` on, at most `limit` of them when the limit is positive. */
  function Window(log: seq<Event>, from: nat, limit: int): seq<Event> {
    if from >= |log| then []
    else if 0 < limit < |log| - from then log[from..from + limit]
    else log[from..]
  }

  /** The events of a log from an index on, in order and without a gap, up to a positive limit. */
  ghost predicate IsWindow(events: seq<Event>, log: seq<Event>, from: nat, limit: int) {
    && (forall i :: 0 <= i < |events| ==> from + i < |log| && events[i] == log[from + i])
    && var rest := if from < |log| then |log| - from else 0;
       |events| == if 0 < limit < rest then limit else rest
  }

  lemma WindowIsWindow(log: seq<Event>, from: nat, limit: int)
    ensures IsWindow(Window(log, from, limit), log, from, limit)
  {
  }

  /** `applyTaskUpdates` on an undisturbed cell: append the pending events, then save the snapshot. */
  function CellCommit(c: Cell, d: Draft): (Cell, Result<nat, CommitError>) {
    if d.pending == [] then (c, Ok(d.expected))
    else
      var (c', appended) := CellAppend(c, d.expected, d.pending);
      match appended
      case Err(e) => (c', Err(AppendFailed(e)))
      case Ok(next) =>
        var (c'', saved) := CellSave(c', d.task, d.expected, next);
        if saved.Err? then (c'', Err(SaveFailed(saved.error))) else (c'', Ok(next))
  }

  /** A batch is good for one commit: once it went through, it is refused by every later state of the log. */
  lemma CommitIsSingleUse(c: Cell, d: Draft, later: Cell)
    requires d.pending != []
    requires CellCommit(c, d).1.Ok?
    requires CellCommit(c, d).0.logVersion <= later.logVersion
    ensures CellCommit(later, d) == (later, Err(AppendFailed(VersionMismatch(d.expected, later.logVersion))))
  {
    assert CellAppend(c, d.expected, d.pending).1.Ok?;
  }

  // ------------------------------------------------------------------ the store object

  class FileStore {
    var tasks: map<string, Snapshot>
    var events: map<(string, string), EventsFile>

    constructor ()
      ensures tasks == map[] && events == map[]
    {
      tasks, events := map[], map[];
    }

    function At(contextID: string, taskID: string): Cell
      reads this
    {
      var f := if (contextID, taskID) in events then events[(contextID, taskID)] else EventsFile([], 0);
      Cell(f.events, f.version, if taskID in tasks then Some(tasks[taskID]) else None)
    }

    method GetTask(taskID: string, historyLength: int) returns (r: Result<(Task, nat), StoreError>)
      ensures forall contextID :: r == CellGet(At(contextID, taskID), historyLength)
      ensures if taskID !in tasks then r == Err(TaskNotFound)
              else
                && r.Ok? && r.value.1 == tasks[taskID].version
                && KeepsLast(tasks[taskID].task, r.value.0, historyLength)
    {
      hide KeepsLast;
      if taskID !in tasks {
        return Err(TaskNotFound);
      }
      var data := tasks[taskID];
      LimitKeepsLast(data.task, historyLength);
      var task := data.task;
      if historyLength > 0 && |task.history| > historyLength {
        task := task.(history := task.history[|task.history| - historyLength..]);
      }
      return Ok((task, data.version));
    }

    method SaveTask(task: Task, expectedVersion: nat, newVersion: nat) returns (r: Result<(), StoreError>)
      modifies this
      ensures events == old(events)
      ensures if task.id in old(tasks) && old(tasks)[task.id].version != expectedVersion
              then r == Err(VersionMismatch(expectedVersion, old(tasks)[task.id].version)) && tasks == old(tasks)
              else r.Ok? && tasks == old(tasks)[task.id := Snapshot(task, newVersion)]
      ensures forall contextID :: (At(contextID, task.id), r)
                == CellSave(old(At(contextID, task.id)), task, expectedVersion, newVersion)
      ensures forall contextID, taskID :: taskID != task.id ==> At(contextID, taskID) == old(At(contextID, taskID))
    {
      if task.id in tasks && expectedVersion != tasks[task.id].version {
        return Err(VersionMismatch(expectedVersion, tasks[task.id].version));
      }
      tasks := tasks[task.id := Snapshot(task, newVersion)];
      return Ok(());
    }

    method Append(contextID: string, taskID: string, expected: nat, newEvents: seq<Event>)
      returns (r: Result<nat, StoreError>)
      modifies this
      ensures tasks == old(tasks)
      ensures (At(contextID, taskID), r) == CellAppend(old(At(contextID, taskID)), expected, newEvents)
      ensures var before, after := old(At(contextID, taskID)), At(contextID, taskID);
              if expected != before.logVersion then
                r == Err(VersionMismatch(expected, before.logVersion)) && after == before
              else
                && r == Ok(after.logVersion) && after.logVersion == expected + |newEvents|
                && after.log == before.log + newEvents && after.snapshot == before.snapshot
      ensures forall c, t :: (c, t) != (contextID, taskID) ==> At(c, t) == old(At(c, t))
    {
      var existing, currentVersion := [], 0;
      if (contextID, taskID) in events {
        existing, currentVersion := events[(contextID, taskID)].events, events[(contextID, taskID)].version;
      }
      if expected != currentVersion {
        return Err(VersionMismatch(expected, currentVersion));
      }
      var newVersion := currentVersion + |newEvents|;
      events := events[(contextID, taskID) := EventsFile(existing + newEvents, newVersion)];
      return Ok(newVersion);
    }

    /** The reported version is that of the whole log, also when the limit cut the batch short. */
    method Load(contextID: string, taskID: string, from: nat, limit: int) returns (filtered: seq<Event>, version: nat)
      ensures filtered == Window(At(contextID, taskID).log, from, limit)
      ensures IsWindow(filtered, At(contextID, taskID).log, from, limit)
      ensures version == At(contextID, taskID).logVersion
    {
      WindowIsWindow(At(contextID, taskID).log, from, limit);
      if (contextID, taskID) !in events {
        return [], 0;
      }
      var log := events[(contextID, taskID)].events;
      filtered := [];
      var i := 0;
      while i < |log|
        invariant 0 <= i <= |log|
        invariant filtered == if i <= from then [] else log[from..i]
        invariant limit > 0 ==> |filtered| < limit
      {
        if i >= from {
          assert log[from..i + 1] == log[from..i] + [log[i]];
          filtered := filtered + [log[i]];
          if limit > 0 && |filtered| >= limit {
            break;
          }
        }
        i := i + 1;
      }
      version := events[(contextID, taskID)].version;
    }
  }

  /** The write of a batch when nobody interferes: log first, snapshot second, both under the updater's read version. */
  method ApplyTaskUpdates(store: FileStore, updater: TaskUpdater) returns (r: Result<nat, CommitError>)
    modifies store, updater`version
    ensures (store.At(updater.contextID, updater.id), r)
         == CellCommit(old(store.At(updater.contextID, updater.id)), old(updater.View()))
    ensures forall c, t :: t != updater.id ==> store.At(c, t) == old(store.At(c, t))
    ensures updater.View() == old(updater.View())
    ensures updater.version == if r.Ok? && updater.pendingEvents != [] then r.value else old(updater.version)
  {
    var pending := updater.pendingEvents;
    if |pending| == 0 {
      return Ok(updater.initialVersion);
    }
    var task := Task(updater.id, updater.contextID, updater.status, updater.history[..], updater.artifacts[..],
        updater.metadata);
    var appended := store.Append(updater.contextID, updater.id, updater.initialVersion, pending);
    if appended.Err? {
      return Err(AppendFailed(appended.error));
    }
    var saved := store.SaveTask(task, updater.initialVersion, appended.value);
    if saved.Err? {
      return Err(SaveFailed(saved.error));
    }
    updater.version := appended.value;
    return Ok(appended.value);
  }
}
