/**
  The optimistic write protocol of one task: any number of writers, each reading, appending and saving in separate
  atomic steps, interleaved in any order and free to stop anywhere.

  A run is a list of actions; an action that is not possible where it stands does nothing. Theorems hold for every list.
 */
module WriterProtocol {
  import opened A2A
  import opened EventLog
  import opened FileStores

  /** `Update` batches edits of an existing task; the program's writers put one edit in each batch. */
  datatype Op = Create(userMessage: Message) | Update(edits: seq<Edit>)

  predicate HasStatus(edits: seq<Edit>) {
    exists i :: 0 <= i < |edits| && edits[i].SetStatus?
  }

  /** A status is always written alone. */
  predicate WellFormed(op: Op) {
    op.Update? && HasStatus(op.edits) ==> |op.edits| == 1
  }

  datatype Outcome = Committed | NothingToDo | NotFound | RefusedCanceled | AppendConflict | SaveConflict

  datatype Writer =
    | Begun(op: Op)
    | Ready(draft: Draft)
    | Saving(draft: Draft, next: nat)
    | Finished(outcome: Outcome)
    | Crashed(afterAppend: bool)

  datatype Action = Begin(w: nat, op: Op) | Read(w: nat) | Append(w: nat) | Save(w: nat) | Crash(w: nat)

  datatype State = State(contextID: string, taskID: string, cell: Cell, writers: map<nat, Writer>)

  ghost predicate Init(s: State) {
    s.cell == EMPTY_CELL && s.writers == map[]
  }

  // ------------------------------------------------------------------------- steps

  function NewTask(contextID: string, taskID: string, userMessage: Message): Task {
    Task(taskID, contextID, TaskStatus(Submitted, None, None), [userMessage], [], map[])
  }

  function CreationDraft(s: State, userMessage: Message): Draft {
    var task := NewTask(s.contextID, s.taskID, userMessage);
    Draft(task, 0, [TaskCreated(task)])
  }

  /**
    Reading takes the snapshot, looks whether the task was canceled when a status is to be written, and edits a copy.
   */
  function AfterRead(s: State, op: Op): Writer {
    match op
    case Create(m) => Ready(CreationDraft(s, m))
    case Update(edits) =>
      match CellGet(s.cell, HISTORY_LENGTH_ALL)
      case Err(_) => Finished(NotFound)
      case Ok((task, version)) =>
        if HasStatus(edits) && task.status.state.Canceled? then Finished(RefusedCanceled)
        else Ready(EditAll(NewDraft(task, version), edits))
  }

  function Step(s: State, a: Action): State {
    match a
    case Begin(w, op) =>
      if w !in s.writers && WellFormed(op) then s.(writers := s.writers[w := Begun(op)]) else s
    case Read(w) =>
      if w in s.writers && s.writers[w].Begun? then s.(writers := s.writers[w := AfterRead(s, s.writers[w].op)]) else s
    case Append(w) =>
      if w !in s.writers || !s.writers[w].Ready? then s
      else
        var d := s.writers[w].draft;
        if d.pending == [] then s.(writers := s.writers[w := Finished(NothingToDo)])
        else
          var (cell, r) := CellAppend(s.cell, d.expected, d.pending);
          s.(cell := cell, writers := s.writers[w := if r.Ok? then Saving(d, r.value) else Finished(AppendConflict)])
    case Save(w) =>
      if w !in s.writers || !s.writers[w].Saving? then s
      else
        var d := s.writers[w].draft;
        var (cell, r) := CellSave(s.cell, d.task, d.expected, s.writers[w].next);
        s.(cell := cell, writers := s.writers[w := Finished(if r.Ok? then Committed else SaveConflict)])
    case Crash(w) =>
      if w !in s.writers || s.writers[w].Finished? || s.writers[w].Crashed? then s
      else s.(writers := s.writers[w := Crashed(s.writers[w].Saving?)])
  }

  function Exec(s: State, acts: seq<Action>): State {
    if acts == [] then s else Step(Exec(s, acts[..|acts| - 1]), acts[|acts| - 1])
  }

  /** A writer that has come to its end, by itself or by a crash, takes no further step. */
  predicate Stopped(w: Writer) {
    w.Finished? || w.Crashed?
  }

  // -------------------------------------------------------------------- well-formed logs

  /**
    Creation comes first and only first and makes a submitted task, final flags tell the truth, and nothing but content
    follows a cancellation.
   */
  ghost predicate GoodLog(log: seq<Event>) {
    && (forall i :: 0 <= i < |log| ==> (log[i].TaskCreated? <==> i == 0))
    && (log != [] ==> log[0].task.status.state.Submitted?)
    && (forall i :: 0 <= i < |log| && log[i].StatusChanged? ==> log[i].final == log[i].status.state.IsTerminal())
    && (forall i, j :: 0 <= i < j < |log| && IsCanceled(log[i]) ==> !log[j].StatusChanged?)
  }

  ghost predicate CanceledIn(log: seq<Event>) {
    exists i :: 0 <= i < |log| && IsCanceled(log[i])
  }

  /** A log with a creation event replays to a task. */
  lemma {:induction false} ReplaySome(log: seq<Event>)
    requires GoodLog(log) && log != []
    ensures Replay(log).Some?
  {
    var n := |log| - 1;
    if n == 0 {
    } else {
      assert GoodLog(log[..n]);
      ReplaySome(log[..n]);
    }
  }

  /** The status events of a log tell its last status, if it has any. */
  ghost function LastStatus(log: seq<Event>): Option<TaskStatus> {
    if log == [] then None
    else if log[|log| - 1].StatusChanged? then Some(log[|log| - 1].status)
    else LastStatus(log[..|log| - 1])
  }

  /** A log means its last status, or the submitted one it began with. */
  lemma {:induction false} ReplayStatus(log: seq<Event>)
    requires GoodLog(log) && log != []
    ensures Replay(log).Some?
    ensures Replay(log).value.status == if LastStatus(log).Some? then LastStatus(log).value else log[0].task.status
  {
    var n := |log| - 1;
    if n == 0 {
      assert log[..0] == [];
    } else {
      assert GoodLog(log[..n]) && log[..n][0] == log[0];
      ReplayStatus(log[..n]);
    }
  }

  lemma {:induction false} LastStatusIsCanceled(log: seq<Event>)
    requires GoodLog(log)
    ensures CanceledIn(log) <==> LastStatus(log).Some? && LastStatus(log).value.state.Canceled?
  {
    if log == [] {
    } else {
      var n := |log| - 1;
      assert GoodLog(log[..n]);
      LastStatusIsCanceled(log[..n]);
      if i :| 0 <= i < |log| && IsCanceled(log[i]) {
        assert i < n ==> IsCanceled(log[..n][i]) && !log[n].StatusChanged?;
      }
      if i :| 0 <= i < n && IsCanceled(log[..n][i]) {
        assert IsCanceled(log[i]);
      }
    }
  }

  /** A log means a canceled task exactly when it holds a cancellation, wherever that is. */
  lemma CanceledReplay(log: seq<Event>)
    requires GoodLog(log)
    ensures CanceledIn(log) <==> Replay(log).Some? && Replay(log).value.status.state.Canceled?
  {
    hide CanceledIn, LastStatus, Replay;
    LastStatusIsCanceled(log);
    if log == [] {
      EmptyReplay();
    } else {
      ReplayStatus(log);
    }
  }

  lemma EmptyReplay()
    ensures Replay([]) == None && LastStatus([]) == None
  {
  }

  // -------------------------------------------------------------------- the invariant

  ghost predicate StatusFree(events: seq<Event>) {
    forall i :: 0 <= i < |events| ==> !events[i].StatusChanged?
  }

  /** Events of an existing task: none creates it again, and final flags tell the truth. */
  ghost predicate UpdateEvents(events: seq<Event>) {
    forall i :: 0 <= i < |events| ==>
      && !events[i].TaskCreated?
      && (events[i].StatusChanged? ==> events[i].final == events[i].status.state.IsTerminal())
  }

  /** A batch that carries a status carries nothing else. */
  ghost predicate StatusAlone(events: seq<Event>) {
    !StatusFree(events) ==> |events| == 1
  }

  /** The part of the log no snapshot covers yet. */
  ghost function Uncovered(c: Cell): seq<Event> {
    if SnapshotVersion(c) <= |c.log| then c.log[SnapshotVersion(c)..] else []
  }

  /** What a writer may hold after reading a log that had `d.expected` events. */
  ghost predicate GoodDraft(s: State, d: Draft) {
    && d.expected <= SnapshotVersion(s.cell) <= |s.cell.log|
    && d.task.id == s.taskID && d.task.contextID == s.contextID
    && SameTask(Some(d.task), ReplayFrom(Replay(s.cell.log[..d.expected]), d.pending))
    && (d.expected == 0 ==> |d.pending| == 1 && d.pending[0].TaskCreated? && d.pending[0].task.status.state.Submitted?)
    && (d.expected > 0 ==> UpdateEvents(d.pending))
    && (!StatusFree(d.pending) ==> !CanceledIn(s.cell.log[..d.expected]))
    && StatusAlone(d.pending)
  }

  ghost predicate Dirty(w: Writer) {
    w.Saving? || w == Crashed(true)
  }

  ghost predicate GoodWriter(s: State, w: Writer) {
    match w
    case Begun(op) => WellFormed(op)
    case Ready(d) => GoodDraft(s, d)
    case Saving(d, next) =>
      && GoodDraft(s, d) && d.pending != []
      && d.expected == SnapshotVersion(s.cell) && next == |s.cell.log|
      && s.cell.log[d.expected..] == d.pending
    case Finished(outcome) => outcome != SaveConflict
    case Crashed(afterAppend) => afterAppend ==> SnapshotVersion(s.cell) < |s.cell.log|
  }

  ghost predicate CellInv(s: State) {
    && s.cell.logVersion == |s.cell.log|
    && SnapshotVersion(s.cell) <= |s.cell.log|
    && SameTask(SnapshotTask(s.cell), Replay(s.cell.log[..SnapshotVersion(s.cell)]))
    && (s.cell.snapshot.Some? ==>
          s.cell.snapshot.value.task.id == s.taskID && s.cell.snapshot.value.task.contextID == s.contextID)
    && GoodLog(s.cell.log)
    && StatusAlone(Uncovered(s.cell))
  }

  ghost predicate Inv(s: State) {
    && CellInv(s)
    && (forall w :: w in s.writers ==> GoodWriter(s, s.writers[w]))
    && (forall v, w :: v in s.writers && w in s.writers && Dirty(s.writers[v]) && Dirty(s.writers[w]) ==> v == w)
    && (SnapshotVersion(s.cell) < |s.cell.log| <==> exists w :: w in s.writers && Dirty(s.writers[w]))
  }

  lemma SnapshotReads(s: State)
    requires CellInv(s)
    ensures s.cell.snapshot.Some? <==> SnapshotVersion(s.cell) > 0
    ensures s.cell.snapshot.Some? ==>
              Replay(s.cell.log[..SnapshotVersion(s.cell)]).Some?
              && Replay(s.cell.log[..SnapshotVersion(s.cell)]).value.status == s.cell.snapshot.value.task.status
    ensures CanceledIn(s.cell.log[..SnapshotVersion(s.cell)]) <==>
              s.cell.snapshot.Some? && s.cell.snapshot.value.task.status.state.Canceled?
  {
    var prefix := s.cell.log[..SnapshotVersion(s.cell)];
    assert GoodLog(prefix);
    hide CanceledIn, GoodLog, StatusAlone, Uncovered, SameTask;
    SameTaskFields(SnapshotTask(s.cell), Replay(prefix));
    if prefix != [] {
      ReplaySome(prefix);
    }
    CanceledReplay(prefix);
  }

  /** What a task reads as is the last status its snapshot covers, or the one it was created with. */
  lemma ReadIsLastCovered(s: State)
    requires CellInv(s) && s.cell.snapshot.Some?
    ensures var last := LastStatus(s.cell.log[..SnapshotVersion(s.cell)]);
            if last.Some? then s.cell.snapshot.value.task.status == last.value
            else s.cell.snapshot.value.task.status.state.Submitted?
  {
    var prefix := s.cell.log[..SnapshotVersion(s.cell)];
    assert GoodLog(prefix);
    hide CanceledIn, GoodLog, StatusAlone, Uncovered, SameTask;
    SnapshotReads(s);
    ReplayStatus(prefix);
    assert prefix[0].task.status.state.Submitted? by {
      SubmittedFirst(s.cell.log);
    }
  }

  lemma SubmittedFirst(log: seq<Event>)
    requires GoodLog(log) && log != []
    ensures log[0].TaskCreated? && log[0].task.status.state.Submitted?
  {
  }

  lemma CreationIsGood(s: State, userMessage: Message)
    requires CellInv(s)
    ensures GoodDraft(s, CreationDraft(s, userMessage))
  {
    hide GoodLog, CanceledIn, SameTask, Erase;
    var d := CreationDraft(s, userMessage);
    assert s.cell.log[..0] == [];
    assert d.pending[..0] == [];
    assert ReplayFrom(None, d.pending) == Some(d.task);
    assert SameTask(Some(d.task), Some(d.task)) by {
      SameTaskItself(Some(d.task));
    }
    assert StatusFree(d.pending);
  }

  lemma SameTaskItself(t: Option<Task>)
    ensures SameTask(t, t)
  {
  }

  /**
    The events of a batch read back its edits: none creates a task, final flags are right, statuses come from edits.
   */
  lemma RecordedEditsAreGood(base: Task, version: nat, edits: seq<Edit>)
    ensures var d := EditAll(NewDraft(base, version), edits);
            && d.expected == version && |d.pending| == |edits|
            && d.task.id == base.id && d.task.contextID == base.contextID
            && UpdateEvents(d.pending)
            && (!StatusFree(d.pending) ==> HasStatus(edits))
  {
    hide EditAll;
    DraftRecords(base, version, edits);
    var pending := EditAll(NewDraft(base, version), edits).pending;
    forall i | 0 <= i < |pending|
      ensures !pending[i].TaskCreated?
      ensures pending[i].StatusChanged? ==> pending[i].final == pending[i].status.state.IsTerminal() && HasStatus(edits)
    {
      assert RecordedAs(base, edits[i], pending[i]);
      if pending[i].StatusChanged? {
        assert edits[i].SetStatus?;
      }
    }
  }

  lemma UpdateIsGood(s: State, edits: seq<Edit>)
    requires CellInv(s) && WellFormed(Update(edits)) && s.cell.snapshot.Some?
    requires HasStatus(edits) ==> !s.cell.snapshot.value.task.status.state.Canceled?
    ensures GoodDraft(s, EditAll(NewDraft(s.cell.snapshot.value.task, s.cell.snapshot.value.version), edits))
  {
    hide GoodLog, CanceledIn, EditAll, SameTask, StatusFree, HasStatus, Replay, ReplayFrom, UpdateEvents, Uncovered;
    var base, version := s.cell.snapshot.value.task, s.cell.snapshot.value.version;
    var d := EditAll(NewDraft(base, version), edits);
    SnapshotReads(s);
    RecordedEditsAreGood(base, version, edits);
    DraftIsReplay(base, version, edits);
    SameTaskReplay(Some(base), Replay(s.cell.log[..version]), d.pending);
    SameTaskChain(Some(d.task), ReplayFrom(Some(base), d.pending),
        ReplayFrom(Replay(s.cell.log[..version]), d.pending));
  }

  lemma SameTaskChain(t: Option<Task>, u: Option<Task>, v: Option<Task>)
    requires SameTask(t, u) && SameTask(u, v)
    ensures SameTask(t, v)
  {
  }

  lemma ReadGivesGoodWriter(s: State, op: Op)
    requires CellInv(s) && WellFormed(op)
    ensures GoodWriter(s, AfterRead(s, op)) && !Dirty(AfterRead(s, op))
  {
    hide CellInv, GoodDraft, EditAll, HasStatus;
    match op {
      case Create(m) => CreationIsGood(s, m);
      case Update(edits) =>
        if AfterRead(s, op).Ready? {
          UpdateIsGood(s, edits);
        }
    }
  }

  /** Appending to the log leaves what the other writers hold true: they only speak of a prefix. */
  lemma DraftStaysGood(s: State, s': State, d: Draft)
    requires GoodDraft(s, d)
    requires s'.contextID == s.contextID && s'.taskID == s.taskID && s.cell.log <= s'.cell.log
    requires SnapshotVersion(s.cell) <= SnapshotVersion(s'.cell) <= |s'.cell.log|
    ensures GoodDraft(s', d)
  {
    assert s'.cell.log[..d.expected] == s.cell.log[..d.expected];
  }

  lemma AppendKeepsGoodLog(s: State, d: Draft)
    requires CellInv(s) && GoodDraft(s, d) && d.expected == |s.cell.log|
    ensures GoodLog(s.cell.log + d.pending)
  {
    var log := s.cell.log;
    assert log[..d.expected] == log;
    forall i, j | 0 <= i < j < |log + d.pending| && IsCanceled((log + d.pending)[i])
      ensures !(log + d.pending)[j].StatusChanged?
    {
      if j >= |log| && i < |log| {
        assert IsCanceled(log[i]);
        assert StatusFree(d.pending);
      }
    }
  }

  /** The cell after an accepted append: exactly the new batch is uncovered. */
  lemma AppendedCell(s: State, d: Draft)
    requires CellInv(s) && GoodDraft(s, d) && d.expected == s.cell.logVersion
    ensures var cell := CellAppend(s.cell, d.expected, d.pending).0;
            && SnapshotVersion(s.cell) == |s.cell.log|
            && CellInv(s.(cell := cell))
            && Uncovered(cell) == cell.log[d.expected..] == d.pending
  {
    hide SameTask, Replay, ReplayFrom, CanceledIn, StatusAlone, StatusFree, UpdateEvents, GoodLog;
    AppendKeepsGoodLog(s, d);
    var cell := CellAppend(s.cell, d.expected, d.pending).0;
    assert cell.log[..SnapshotVersion(s.cell)] == s.cell.log[..SnapshotVersion(s.cell)];
    assert cell.log[d.expected..] == d.pending;
  }

  /** With the snapshot as new as the log, nobody stands between append and save. */
  lemma NobodyDirty(s: State, v: nat)
    requires Inv(s) && SnapshotVersion(s.cell) == |s.cell.log| && v in s.writers
    ensures !Dirty(s.writers[v])
  {
    hide CellInv, GoodWriter;
  }

  /** An accepted append leaves what the other writers hold good. */
  lemma OtherWriterStaysGood(s: State, s': State, wr: Writer)
    requires GoodWriter(s, wr) && !Dirty(wr) && SnapshotVersion(s'.cell) == SnapshotVersion(s.cell)
    requires s'.contextID == s.contextID && s'.taskID == s.taskID && s.cell.log <= s'.cell.log
    ensures GoodWriter(s', wr)
  {
    if wr.Ready? {
      DraftStaysGood(s, s', wr.draft);
    }
  }

  lemma AppendAccepted(s: State, w: nat)
    requires Inv(s) && w in s.writers && s.writers[w].Ready?
    requires s.writers[w].draft.pending != [] && s.writers[w].draft.expected == s.cell.logVersion
    ensures Inv(Step(s, Append(w)))
    ensures SnapshotVersion(s.cell) == |s.cell.log|
  {
    hide GoodLog, SameTask, GoodDraft, StatusAlone, Uncovered, Replay;
    var d := s.writers[w].draft;
    var s' := Step(s, Append(w));
    assert GoodWriter(s, s.writers[w]);
    AppendedCell(s, d);
    DraftStaysGood(s, s', d);
    forall v | v in s'.writers
      ensures GoodWriter(s', s'.writers[v]) && (Dirty(s'.writers[v]) ==> v == w)
    {
      if v != w {
        assert GoodWriter(s, s.writers[v]);
        NobodyDirty(s, v);
        OtherWriterStaysGood(s, s', s.writers[v]);
      }
    }
    assert Dirty(s'.writers[w]);
  }

  /** What a writer between append and save holds is what the whole log means. */
  lemma SavingHoldsReplay(s: State, d: Draft)
    requires GoodDraft(s, d) && s.cell.log[d.expected..] == d.pending
    ensures SameTask(Some(d.task), Replay(s.cell.log))
  {
    hide SameTask, CanceledIn, StatusFree, UpdateEvents, ReplayFrom;
    var log := s.cell.log;
    assert log[..d.expected] + d.pending == log;
    ReplayConcat(None, log[..d.expected], d.pending);
  }

  lemma CoveredCell(c: Cell)
    requires SnapshotVersion(c) == |c.log|
    ensures c.log[..SnapshotVersion(c)] == c.log && StatusAlone(Uncovered(c))
  {
    assert Uncovered(c) == [];
  }

  /** The cell after a save: the snapshot has caught up with the log. */
  lemma SaveCatchesUp(s: State, d: Draft)
    requires CellInv(s) && GoodWriter(s, Saving(d, |s.cell.log|))
    ensures var (cell, r) := CellSave(s.cell, d.task, d.expected, |s.cell.log|);
            && r.Ok?
            && cell.log == s.cell.log
            && cell.snapshot == Some(Snapshot(d.task, |s.cell.log|))
            && CellInv(s.(cell := cell))
  {
    hide SameTask, GoodLog, CanceledIn, StatusFree, StatusAlone, Uncovered, UpdateEvents, Replay, ReplayFrom;
    SavingHoldsReplay(s, d);
    CoveredCell(CellSave(s.cell, d.task, d.expected, |s.cell.log|).0);
  }

  lemma SaveSucceeds(s: State, w: nat)
    requires Inv(s) && w in s.writers && s.writers[w].Saving?
    ensures Step(s, Save(w)).writers[w] == Finished(Committed)
    ensures Step(s, Save(w)).cell.snapshot == Some(Snapshot(s.writers[w].draft.task, |s.cell.log|))
    ensures Inv(Step(s, Save(w)))
  {
    hide CellSave, SameTask, GoodLog;
    var s' := Step(s, Save(w));
    assert GoodWriter(s, s.writers[w]) && Dirty(s.writers[w]);
    SaveCatchesUp(s, s.writers[w].draft);
    forall v | v in s'.writers
      ensures GoodWriter(s', s'.writers[v]) && !Dirty(s'.writers[v])
    {
      assert v in s.writers && GoodWriter(s, s.writers[v]);
      if v != w {
        assert !Dirty(s.writers[v]);
        match s.writers[v] {
          case Ready(e) => DraftStaysGood(s, s', e);
          case _ =>
        }
      }
    }
  }

  /** Steps that touch no storage: only the stepping writer changes, to something good and equally dirty. */
  lemma LocalStep(s: State, w: nat, wr: Writer)
    requires Inv(s)
    requires GoodWriter(s, wr)
    requires Dirty(wr) <==> w in s.writers && Dirty(s.writers[w])
    ensures Inv(s.(writers := s.writers[w := wr]))
  {
    hide CellSave, CellAppend, GoodLog, SameTask, StatusAlone, UpdateEvents, StatusFree, CanceledIn, Replay,
        ReplayFrom, Uncovered;
    var s' := s.(writers := s.writers[w := wr]);
    forall v | v in s'.writers
      ensures GoodWriter(s', s'.writers[v])
    {
      if v != w {
        assert v in s.writers && GoodWriter(s, s.writers[v]);
        match s.writers[v] {
          case Ready(e) => DraftStaysGood(s, s', e);
          case _ =>
        }
      } else {
        match wr {
          case Ready(e) => DraftStaysGood(s, s', e);
          case Saving(e, _) => DraftStaysGood(s, s', e);
          case _ =>
        }
      }
    }
    if SnapshotVersion(s.cell) < |s.cell.log| {
      var v :| v in s.writers && Dirty(s.writers[v]);
      assert v in s'.writers && Dirty(s'.writers[v]);
    }
  }

  lemma StepKeepsInv(s: State, a: Action)
    requires Inv(s)
    ensures Inv(Step(s, a))
  {
    hide CellInv, GoodDraft, AfterRead, CellSave, EditAll;
    if a.w in s.writers {
      assert GoodWriter(s, s.writers[a.w]);
    }
    match a {
      case Begin(w, op) =>
        if Step(s, a) != s {
          LocalStep(s, w, Begun(op));
        }
      case Read(w) =>
        if Step(s, a) != s {
          ReadGivesGoodWriter(s, s.writers[w].op);
          LocalStep(s, w, AfterRead(s, s.writers[w].op));
        }
      case Append(w) =>
        if w in s.writers && s.writers[w].Ready? {
          var d := s.writers[w].draft;
          if d.pending != [] && d.expected == s.cell.logVersion {
            AppendAccepted(s, w);
          } else {
            LocalStep(s, w, Finished(if d.pending == [] then NothingToDo else AppendConflict));
          }
        }
      case Save(w) =>
        if w in s.writers && s.writers[w].Saving? {
          SaveSucceeds(s, w);
        }
      case Crash(w) =>
        if Step(s, a) != s {
          assert Dirty(s.writers[w]) ==> SnapshotVersion(s.cell) < |s.cell.log|;
          LocalStep(s, w, Crashed(s.writers[w].Saving?));
        }
    }
  }

  /** Every reachable state, for any interleaving of any number of writers with crashes anywhere. */
  lemma {:induction false} RunKeepsInv(s: State, acts: seq<Action>)
    requires Init(s) || Inv(s)
    ensures Inv(Exec(s, acts))
  {
    if acts == [] {
    } else {
      RunKeepsInv(s, acts[..|acts| - 1]);
      StepKeepsInv(Exec(s, acts[..|acts| - 1]), acts[|acts| - 1]);
    }
  }

  lemma {:induction false} ExecConcat(s: State, a: seq<Action>, b: seq<Action>)
    ensures Exec(s, a + b) == Exec(Exec(s, a), b)
  {
    hide Step, Exec;
    if b == [] {
      assert a + b == a;
      ExecNothing(Exec(s, a));
    } else {
      var n := |b| - 1;
      ExecConcat(s, a, b[..n]);
      assert (a + b)[..|a + b| - 1] == a + b[..n] && (a + b)[|a + b| - 1] == b[n];
      ExecLast(s, a + b);
      ExecLast(Exec(s, a), b);
    }
  }

  lemma ExecNothing(s: State)
    ensures Exec(s, []) == s
  {
  }

  lemma ExecLast(s: State, acts: seq<Action>)
    requires acts != []
    ensures Exec(s, acts) == Step(Exec(s, acts[..|acts| - 1]), acts[|acts| - 1])
  {
  }

  // -------------------------------------------------------------------- the theorems

  /** The snapshot is the replay of the events it claims to cover, and never claims more than the log holds. */
  lemma SnapshotIsReplay(s0: State, acts: seq<Action>)
    requires Init(s0)
    ensures var c := Exec(s0, acts).cell;
            && c.logVersion == |c.log|
            && SnapshotVersion(c) <= |c.log|
            && SameTask(SnapshotTask(c), Replay(c.log[..SnapshotVersion(c)]))
            && (c.log != [] ==> c.log[0].TaskCreated?)
  {
    RunKeepsInv(s0, acts);
  }

  /** When nobody is between append and save, the snapshot is the replay of the whole log. */
  lemma QuietSnapshotIsCurrent(s0: State, acts: seq<Action>)
    requires Init(s0)
    requires forall w :: w in Exec(s0, acts).writers ==> !Dirty(Exec(s0, acts).writers[w])
    ensures SameTask(SnapshotTask(Exec(s0, acts).cell), Replay(Exec(s0, acts).cell.log))
  {
    RunKeepsInv(s0, acts);
    var c := Exec(s0, acts).cell;
    assert c.log[..|c.log|] == c.log;
  }

  lemma {:induction false} LogGrows(s: State, acts: seq<Action>)
    requires Inv(s)
    ensures s.cell.log <= Exec(s, acts).cell.log
    ensures SnapshotVersion(s.cell) <= SnapshotVersion(Exec(s, acts).cell)
  {
    if acts == [] {
    } else {
      var t := Exec(s, acts[..|acts| - 1]);
      LogGrows(s, acts[..|acts| - 1]);
      RunKeepsInv(s, acts[..|acts| - 1]);
      StepGrows(t, acts[|acts| - 1]);
    }
  }

  lemma StepGrows(s: State, a: Action)
    requires Inv(s)
    ensures s.cell.log <= Step(s, a).cell.log
    ensures SnapshotVersion(s.cell) <= SnapshotVersion(Step(s, a).cell)
    ensures s.cell.snapshot.Some? ==> Step(s, a).cell.snapshot.Some?
    ensures !a.Append? ==> Step(s, a).cell.log == s.cell.log
    ensures !a.Save? ==> Step(s, a).cell.snapshot == s.cell.snapshot
  {
    hide CellInv, AfterRead, GoodDraft;
    if a.Save? && a.w in s.writers && s.writers[a.w].Saving? {
      SaveSucceeds(s, a.w);
    }
  }

  /**
    Cancellation is absorbing: whatever happens later, no status event follows it in the log, the log keeps meaning
    a canceled task, and a snapshot that covers it keeps reading as canceled.
   */
  lemma CanceledIsAbsorbing(s: State, later: seq<Action>)
    requires Inv(s) && CanceledIn(s.cell.log)
    ensures var s' := Exec(s, later);
            && s.cell.log <= s'.cell.log
            && StatusFree(s'.cell.log[|s.cell.log|..])
            && Replay(s'.cell.log).Some? && Replay(s'.cell.log).value.status.state.Canceled?
            && (CanceledIn(s.cell.log[..SnapshotVersion(s.cell)]) ==>
                  s'.cell.snapshot.Some? && s'.cell.snapshot.value.task.status.state.Canceled?)
  {
    hide Step, Exec, GoodWriter, SameTask, Replay;
    var s' := Exec(s, later);
    RunKeepsInv(s, later);
    LogGrows(s, later);
    var i :| 0 <= i < |s.cell.log| && IsCanceled(s.cell.log[i]);
    assert IsCanceled(s'.cell.log[i]);
    CanceledReplay(s'.cell.log);
    if CanceledIn(s.cell.log[..SnapshotVersion(s.cell)]) {
      var j :| 0 <= j < SnapshotVersion(s.cell) && IsCanceled(s.cell.log[..SnapshotVersion(s.cell)][j]);
      assert IsCanceled(s'.cell.log[..SnapshotVersion(s'.cell)][j]);
      SnapshotReads(s');
    }
  }

  /** A cancellation that was saved is final: the task reads as canceled ever after and no status follows it. */
  lemma SavedCancelIsFinal(s: State, w: nat, later: seq<Action>)
    requires Inv(s) && w in s.writers && s.writers[w].Saving? && CanceledIn(s.writers[w].draft.pending)
    ensures var s1 := Step(s, Save(w));
            var s' := Exec(s1, later);
            && s1.writers[w] == Finished(Committed)
            && s'.cell.snapshot.Some? && s'.cell.snapshot.value.task.status.state.Canceled?
            && s1.cell.log <= s'.cell.log && StatusFree(s'.cell.log[|s1.cell.log|..])
  {
    hide Exec, SameTask, Replay, StatusAlone, UpdateEvents;
    var s1 := Step(s, Save(w));
    var d := s.writers[w].draft;
    assert GoodWriter(s, s.writers[w]);
    SaveSucceeds(s, w);
    var i :| 0 <= i < |d.pending| && IsCanceled(d.pending[i]);
    assert s1.cell.log[d.expected..][i] == s1.cell.log[d.expected + i];
    assert IsCanceled(s1.cell.log[d.expected + i]);
    assert s1.cell.log[..SnapshotVersion(s1.cell)] == s1.cell.log;
    CanceledIsAbsorbing(s1, later);
  }

  /** While an append waits for its save, that writer is alone there, its versions fit, and the save goes through. */
  lemma PendingSaveIsSafe(s0: State, acts: seq<Action>, w: nat)
    requires Init(s0)
    requires w in Exec(s0, acts).writers && Exec(s0, acts).writers[w].Saving?
    ensures var s := Exec(s0, acts);
            && SnapshotVersion(s.cell) == s.writers[w].draft.expected
            && s.cell.logVersion == s.writers[w].next
            && (forall v :: v in s.writers && s.writers[v].Saving? ==> v == w)
            && Step(s, Save(w)).writers[w] == Finished(Committed)
  {
    RunKeepsInv(s0, acts);
    var s := Exec(s0, acts);
    assert GoodWriter(s, s.writers[w]);
    forall v | v in s.writers && s.writers[v].Saving?
      ensures v == w
    {
      assert Dirty(s.writers[v]) && Dirty(s.writers[w]);
    }
    SaveSucceeds(s, w);
  }

  /** No writer ever fails at its save. */
  lemma SaveConflictNeverHappens(s0: State, acts: seq<Action>, w: nat)
    requires Init(s0) && w in Exec(s0, acts).writers
    ensures Exec(s0, acts).writers[w] != Finished(SaveConflict)
  {
    RunKeepsInv(s0, acts);
    assert GoodWriter(Exec(s0, acts), Exec(s0, acts).writers[w]);
  }

  /**
    As long as the writer between append and save does not save, the store stands still: every other append is refused.
    A writer that crashed there never saves, so its task is frozen for good.
   */
  lemma {:induction false} OutstandingSaveFreezes(s: State, w: nat, later: seq<Action>)
    requires Inv(s) && w in s.writers && Dirty(s.writers[w])
    requires s.writers[w].Saving? ==> Save(w) !in later
    ensures var s' := Exec(s, later);
            && s'.cell == s.cell
            && w in s'.writers && Dirty(s'.writers[w])
            && (s.writers[w].Crashed? ==> s'.writers[w].Crashed?)
  {
    if later == [] {
    } else {
      var init, a := later[..|later| - 1], later[|later| - 1];
      assert a in later;
      OutstandingSaveFreezes(s, w, init);
      RunKeepsInv(s, init);
      FrozenStep(Exec(s, init), w, a);
    }
  }

  lemma FrozenStep(s: State, w: nat, a: Action)
    requires Inv(s) && w in s.writers && Dirty(s.writers[w])
    requires s.writers[w].Saving? ==> a != Save(w)
    ensures Step(s, a).cell == s.cell
    ensures w in Step(s, a).writers && Dirty(Step(s, a).writers[w])
    ensures s.writers[w].Crashed? ==> Step(s, a).writers[w].Crashed?
  {
    hide GoodLog, SameTask, CanceledIn, UpdateEvents, StatusAlone, AfterRead, Replay;
    assert GoodWriter(s, s.writers[w]);
    if a.w in s.writers {
      assert GoodWriter(s, s.writers[a.w]);
      assert Dirty(s.writers[a.w]) ==> a.w == w;
    }
  }

  /** A crash between append and save freezes the task: in every continuation every append is refused. */
  lemma CrashAfterAppendIsFatal(s0: State, acts: seq<Action>, w: nat, later: seq<Action>, v: nat)
    requires Init(s0)
    requires w in Exec(s0, acts).writers && Exec(s0, acts).writers[w] == Crashed(true)
    requires v in Exec(s0, acts + later).writers && Exec(s0, acts + later).writers[v].Ready?
    requires Exec(s0, acts + later).writers[v].draft.pending != []
    ensures Exec(s0, acts + later).cell == Exec(s0, acts).cell
    ensures Step(Exec(s0, acts + later), Append(v)).writers[v] == Finished(AppendConflict)
    ensures Step(Exec(s0, acts + later), Append(v)).cell == Exec(s0, acts).cell
  {
    hide SameTask, GoodLog, StatusAlone, Replay, UpdateEvents, CanceledIn;
    var s := Exec(s0, acts);
    RunKeepsInv(s0, acts);
    ExecConcat(s0, acts, later);
    OutstandingSaveFreezes(s, w, later);
    RunKeepsInv(s, later);
    var t := Exec(s, later);
    assert GoodWriter(t, t.writers[v]) && GoodWriter(t, t.writers[w]);
  }

  // ------------------------------------------------------------------- log conservation

  datatype Block = Block(writer: nat, events: seq<Event>)

  /** The batches whose append was accepted, in the order of acceptance. */
  ghost function Accepted(s: State, acts: seq<Action>): seq<Block> {
    if acts == [] then []
    else
      var init, a := acts[..|acts| - 1], acts[|acts| - 1];
      var t := Exec(s, init);
      if a.Append? && a.w in t.writers && t.writers[a.w].Ready? && Step(t, a).writers[a.w].Saving? then
        Accepted(s, init) + [Block(a.w, t.writers[a.w].draft.pending)]
      else Accepted(s, init)
  }

  ghost function Flatten(blocks: seq<Block>): seq<Event> {
    if blocks == [] then [] else Flatten(blocks[..|blocks| - 1]) + blocks[|blocks| - 1].events
  }

  /** Past its append: the batch of such a writer is in the log. */
  ghost predicate PastAppend(w: Writer) {
    w.Saving? || w == Crashed(true) || w == Finished(Committed)
  }

  ghost predicate HasBlock(blocks: seq<Block>, w: nat) {
    exists i :: 0 <= i < |blocks| && blocks[i].writer == w
  }

  /** The log is the batches one after another, and their writers are exactly the ones past their append. */
  ghost predicate BatchedLog(s: State, blocks: seq<Block>) {
    && s.cell.log == Flatten(blocks)
    && (forall i, j :: 0 <= i < j < |blocks| ==> blocks[i].writer != blocks[j].writer)
    && (forall i :: 0 <= i < |blocks| ==> blocks[i].writer in s.writers && PastAppend(s.writers[blocks[i].writer]))
    && (forall w :: w in s.writers && PastAppend(s.writers[w]) ==> HasBlock(blocks, w))
  }

  lemma AcceptKeepsBatchedLog(s: State, w: nat, blocks: seq<Block>)
    requires BatchedLog(s, blocks)
    requires w in s.writers && s.writers[w].Ready? && Step(s, Append(w)).writers[w].Saving?
    ensures BatchedLog(Step(s, Append(w)), blocks + [Block(w, s.writers[w].draft.pending)])
  {
    var s' := Step(s, Append(w));
    var blocks' := blocks + [Block(w, s.writers[w].draft.pending)];
    assert blocks'[..|blocks|] == blocks;
    forall v | v in s'.writers && PastAppend(s'.writers[v])
      ensures HasBlock(blocks', v)
    {
      if v == w {
        assert blocks'[|blocks|].writer == w;
      } else {
        var i :| 0 <= i < |blocks| && blocks[i].writer == v;
        assert blocks'[i].writer == v;
      }
    }
  }

  lemma OtherStep(s: State, a: Action)
    requires Inv(s)
    requires !(a.Append? && a.w in s.writers && s.writers[a.w].Ready? && Step(s, a).writers[a.w].Saving?)
    ensures Step(s, a).cell.log == s.cell.log
    ensures forall v :: v in s.writers ==>
              v in Step(s, a).writers && (PastAppend(Step(s, a).writers[v]) <==> PastAppend(s.writers[v]))
    ensures forall v :: v in Step(s, a).writers && v !in s.writers ==> !PastAppend(Step(s, a).writers[v])
  {
    hide Inv;
    if a.w in s.writers && a.Save? && s.writers[a.w].Saving? {
      SaveSucceeds(s, a.w);
    }
  }

  lemma NoBatches(s: State)
    requires Init(s)
    ensures BatchedLog(s, [])
  {
  }

  lemma SamePastSameBatches(s: State, s': State, blocks: seq<Block>)
    requires BatchedLog(s, blocks) && s'.cell.log == s.cell.log
    requires forall v :: v in s.writers ==> v in s'.writers && (PastAppend(s'.writers[v]) <==> PastAppend(s.writers[v]))
    requires forall v :: v in s'.writers && v !in s.writers ==> !PastAppend(s'.writers[v])
    ensures BatchedLog(s', blocks)
  {
  }

  /**
    No lost, torn or phantom update: the log is the accepted batches one after another, each whole and once, and the
    writers of those batches are exactly the ones past their append. A refused writer left no trace.
   */
  lemma {:induction false} LogIsAcceptedBatches(s0: State, acts: seq<Action>)
    requires Init(s0)
    ensures BatchedLog(Exec(s0, acts), Accepted(s0, acts))
  {
    hide BatchedLog, PastAppend, Inv, Init;
    if acts == [] {
      NoBatches(s0);
    } else {
      var init, a := acts[..|acts| - 1], acts[|acts| - 1];
      LogIsAcceptedBatches(s0, init);
      RunKeepsInv(s0, init);
      var t := Exec(s0, init);
      if a.Append? && a.w in t.writers && t.writers[a.w].Ready? && Step(t, a).writers[a.w].Saving? {
        AcceptKeepsBatchedLog(t, a.w, Accepted(s0, init));
      } else {
        OtherStep(t, a);
        SamePastSameBatches(t, Exec(s0, acts), Accepted(s0, init));
      }
    }
  }

  lemma {:induction false} FinishedForGood(s: State, w: nat, later: seq<Action>)
    requires w in s.writers && s.writers[w].Finished?
    ensures w in Exec(s, later).writers && Exec(s, later).writers[w] == s.writers[w]
  {
    if later == [] {
    } else {
      var init := later[..|later| - 1];
      FinishedForGood(s, w, init);
      StepTouchesOneWriter(Exec(s, init), later[|later| - 1]);
    }
  }

  /** A refused append changes nothing, and the batch refused is in the log at no later time. */
  lemma RefusedLeavesNoTrace(s0: State, acts: seq<Action>, w: nat, later: seq<Action>)
    requires Init(s0)
    requires w in Exec(s0, acts).writers && Exec(s0, acts).writers[w].Ready?
    requires Step(Exec(s0, acts), Append(w)).writers[w] == Finished(AppendConflict)
    ensures Exec(s0, acts + [Append(w)]).cell == Exec(s0, acts).cell
    ensures !HasBlock(Accepted(s0, acts + [Append(w)] + later), w)
  {
    var refused := acts + [Append(w)];
    assert refused[..|acts|] == acts;
    ExecConcat(s0, refused, later);
    FinishedForGood(Exec(s0, refused), w, later);
    LogIsAcceptedBatches(s0, refused + later);
    var t, blocks := Exec(s0, refused + later), Accepted(s0, refused + later);
    assert !PastAppend(t.writers[w]);
    assert BatchedLog(t, blocks);
  }

  // ----------------------------------------------------- an undisturbed writer is one commit

  /** Run back to back, the three steps of a writer do what the sequential write does to the cell. */
  lemma UndisturbedWriterCommits(s: State, w: nat)
    requires w in s.writers && s.writers[w].Ready?
    ensures var s' := Exec(s, [Append(w), Save(w)]);
            && s'.cell == CellCommit(s.cell, s.writers[w].draft).0
            && w in s'.writers && s'.writers[w].Finished?
            && (CellCommit(s.cell, s.writers[w].draft).1.Ok? <==> s'.writers[w].outcome in {Committed, NothingToDo})
  {
    var acts := [Append(w), Save(w)];
    assert acts[..1] == [Append(w)] && [Append(w)][..0] == [];
    assert Exec(s, [Append(w)]) == Step(Exec(s, []), Append(w));
    assert Exec(s, acts) == Step(Exec(s, [Append(w)]), Save(w));
  }

  lemma FourSteps(s: State, a: Action, b: Action, c: Action, d: Action)
    ensures Exec(s, [a, b, c, d]) == Step(Step(Step(Step(s, a), b), c), d)
  {
    var acts := [a, b, c, d];
    assert acts[..3] == [a, b, c] && acts[..3][..2] == [a, b] && acts[..3][..2][..1] == [a];
    assert Exec(s, [a, b, c]) == Step(Exec(s, [a, b]), c);
    assert Exec(s, [a, b]) == Step(Exec(s, [a]), b);
    assert Exec(s, [a]) == Step(Exec(s, []), a);
  }

  /** What reading for a single status edit yields. */
  lemma ReadForStatus(s: State, status: TaskStatus)
    requires Inv(s)
    ensures var wr := AfterRead(s, Update([SetStatus(status)]));
            if s.cell.snapshot.None? then wr == Finished(NotFound)
            else if s.cell.snapshot.value.task.status.state.Canceled? then wr == Finished(RefusedCanceled)
            else wr == Ready(Draft(s.cell.snapshot.value.task.(status := status), s.cell.snapshot.value.version,
                                   [StatusChanged(s.taskID, s.contextID, status, status.state.IsTerminal())]))
  {
    var edits := [SetStatus(status)];
    assert edits[0].SetStatus?;
    if s.cell.snapshot.Some? {
      var d := NewDraft(s.cell.snapshot.value.task, s.cell.snapshot.value.version);
      assert edits[..0] == [] && EditAll(d, edits[..0]) == d;
      assert d.pending + [EventOf(d.task, edits[0])] == [EventOf(d.task, edits[0])];
    }
  }

  ghost function StatusEvent(st: State, status: TaskStatus): Event {
    StatusChanged(st.taskID, st.contextID, status, status.state.IsTerminal())
  }

  /** The cell after a status was appended to a quiet one. */
  ghost function Appended(st: State, status: TaskStatus): Cell {
    st.cell.(log := st.cell.log + [StatusEvent(st, status)], logVersion := |st.cell.log| + 1)
  }

  /** The cell after a status was written to a quiet one. */
  ghost function Restated(st: State, status: TaskStatus): Cell
    requires st.cell.snapshot.Some?
  {
    Appended(st, status).(snapshot := Some(Snapshot(st.cell.snapshot.value.task.(status := status), |st.cell.log| + 1)))
  }

  /** `w` is about to write a status to a quiet task that is not canceled. */
  ghost predicate AboutToWrite(st: State, w: nat, status: TaskStatus) {
    && Inv(st) && w in st.writers && st.writers[w] == Begun(Update([SetStatus(status)]))
    && st.cell.snapshot.Some? && !st.cell.snapshot.value.task.status.state.Canceled?
    && SnapshotVersion(st.cell) == |st.cell.log|
  }

  lemma ReadAndAppend(st: State, w: nat, status: TaskStatus)
    requires AboutToWrite(st, w, status)
    ensures w in Step(st, Read(w)).writers && Step(st, Read(w)).writers[w].Ready?
    ensures var st' := Step(Step(st, Read(w)), Append(w));
            && w in st'.writers && st'.writers[w].Saving?
            && st'.writers[w].draft.task == st.cell.snapshot.value.task.(status := status)
            && st' == st.(cell := Appended(st, status), writers := st.writers[w := st'.writers[w]])
            && Inv(st')
  {
    hide Inv, AfterRead;
    ReadForStatus(st, status);
    var wr := AfterRead(st, Update([SetStatus(status)]));
    assert Step(st, Read(w)) == st.(writers := st.writers[w := wr]);
    LogVersionIsLength(st);
    StepKeepsInv(st, Read(w));
    StepKeepsInv(Step(st, Read(w)), Append(w));
  }

  lemma LogVersionIsLength(st: State)
    requires Inv(st)
    ensures st.cell.logVersion == |st.cell.log|
  {
  }

  lemma SaveEnds(st: State, w: nat)
    requires Inv(st) && w in st.writers && st.writers[w].Saving?
    ensures Step(st, Save(w))
         == st.(cell := st.cell.(snapshot := Some(Snapshot(st.writers[w].draft.task, |st.cell.log|))),
                writers := st.writers[w := Finished(Committed)])
  {
    SaveSucceeds(st, w);
    hide Inv;
  }

  /**
    Only cancellation is guarded. An undisturbed status update goes through if and only if the task is not canceled:
    any other status, terminal ones included, is overwritten.
   */
  lemma UndisturbedUpdate(s: State, w: nat, status: TaskStatus)
    requires Inv(s) && w !in s.writers && s.cell.snapshot.Some?
    requires SnapshotVersion(s.cell) == |s.cell.log|
    ensures var s' := Exec(s, [Begin(w, Update([SetStatus(status)])), Read(w), Append(w), Save(w)]);
            var task := s.cell.snapshot.value.task;
            && w in s'.writers
            && (s'.writers[w] == Finished(Committed) <==> !task.status.state.Canceled?)
            && s'.cell == if task.status.state.Canceled? then s.cell else Restated(s, status)
  {
    hide Inv, Exec, AfterRead, CellAppend, CellSave;
    var op := Update([SetStatus(status)]);
    FourSteps(s, Begin(w, op), Read(w), Append(w), Save(w));
    var s1 := s.(writers := s.writers[w := Begun(op)]);
    assert Step(s, Begin(w, op)) == s1;
    StepKeepsInv(s, Begin(w, op));
    if s.cell.snapshot.value.task.status.state.Canceled? {
      ReadForStatus(s1, status);
      assert Step(s1, Read(w)) == s1.(writers := s1.writers[w := Finished(RefusedCanceled)]);
    } else {
      ReadAndAppend(s1, w, status);
      SaveEnds(Step(Step(s1, Read(w)), Append(w)), w);
    }
  }

  /** A step changes at most its own writer, and never one that has come to its end. */
  lemma StepTouchesOneWriter(s: State, a: Action)
    ensures forall w: nat :: w in s.writers && (w != a.w || Stopped(s.writers[w])) ==>
              w in Step(s, a).writers && Step(s, a).writers[w] == s.writers[w]
    ensures forall w: nat :: w in Step(s, a).writers && w !in s.writers ==> a.Begin? && w == a.w
    ensures s.writers.Keys <= Step(s, a).writers.Keys
    ensures Step(s, a).contextID == s.contextID && Step(s, a).taskID == s.taskID
  {
  }
}
