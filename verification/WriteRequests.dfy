/**
  What a run was asked to write is what it wrote: each batch in the log says what its writer was begun with, and the
  history of a task is the message it was created with and the messages added since.
 */
module WriteRequests {
  import opened A2A
  import opened EventLog
  import opened FileStores
  import opened WriterProtocol
  import Handles = TaskHandles

  /** What writer `w` was first begun with; a later beginning under the same number does nothing. */
  ghost function AskedOf(acts: seq<Action>, w: nat): Option<Op> {
    if acts == [] then None
    else
      var earlier, a := AskedOf(acts[..|acts| - 1], w), acts[|acts| - 1];
      if earlier.None? && a.Begin? && a.w == w && WellFormed(a.op) then Some(a.op) else earlier
  }

  /** A task as it is created: submitted, with the user's message as its history and nothing else. */
  ghost predicate CreatedWith(t: Task, contextID: string, taskID: string, m: Message) {
    && t.contextID == contextID && t.id == taskID
    && t.status.state.Submitted? && t.status.message.None?
    && t.history == [m] && t.artifacts == [] && t.metadata == map[]
  }

  /** One edit and the event that stands for it, under the task's ids. */
  ghost predicate WrittenAs(contextID: string, taskID: string, edit: Edit, e: Event) {
    match edit
    case AddMessage(m) =>
      && e.MessageAdded? && SameMessage(e.message, m)
      && e.message.contextID == contextID && e.message.taskID == taskID
    case SetStatus(status) =>
      && e.StatusChanged? && e.taskID == taskID && e.contextID == contextID
      && e.status == status
      && (e.final <==> status.state in {Completed, Failed, Canceled, Rejected})
    case PutArtifact(artifact) =>
      && e.ArtifactUpdated? && e.taskID == taskID && e.contextID == contextID
      && e.artifact == artifact && e.append && e.lastChunk
  }

  /** The events of a batch say what its operation asks for: one creation, or one event for each edit in order. */
  ghost predicate Says(contextID: string, taskID: string, op: Op, events: seq<Event>) {
    match op
    case Create(m) => |events| == 1 && events[0].TaskCreated? && CreatedWith(events[0].task, contextID, taskID, m)
    case Update(edits) =>
      |events| == |edits| && forall i :: 0 <= i < |edits| ==> WrittenAs(contextID, taskID, edits[i], events[i])
  }

  // ---------------------------------------------------------------- what writers hold

  ghost predicate HoldsAsked(s: State, wr: Writer, op: Op) {
    match wr
    case Begun(asked) => asked == op
    case Ready(d) => Says(s.contextID, s.taskID, op, d.pending)
    case Saving(d, _) => Says(s.contextID, s.taskID, op, d.pending)
    case _ => true
  }

  /** The writers are those that were begun, and they hold what they were begun with. */
  ghost predicate AllHoldAsked(s: State, acts: seq<Action>) {
    forall w: nat ::
      && (w in s.writers <==> AskedOf(acts, w).Some?)
      && (w in s.writers ==> HoldsAsked(s, s.writers[w], AskedOf(acts, w).value))
  }

  lemma ReadHoldsAsked(s: State, op: Op)
    requires CellInv(s)
    ensures HoldsAsked(s, AfterRead(s, op), op)
  {
    if op.Update? && AfterRead(s, op).Ready? {
      var base := s.cell.snapshot.value.task;
      DraftRecords(base, s.cell.snapshot.value.version, op.edits);
      forall i | 0 <= i < |op.edits|
        ensures WrittenAs(s.contextID, s.taskID, op.edits[i], AfterRead(s, op).draft.pending[i])
      {
        TaskStates(if op.edits[i].SetStatus? then op.edits[i].status.state else Unknown);
        assert RecordedAs(base, op.edits[i], AfterRead(s, op).draft.pending[i]);
      }
    }
  }

  /** Asking once is enough: later actions do not change what a writer was begun with. */
  lemma AskedStays(acts: seq<Action>, a: Action, w: nat)
    ensures AskedOf(acts + [a], w)
         == if AskedOf(acts, w).None? && a.Begin? && a.w == w && WellFormed(a.op) then Some(a.op) else AskedOf(acts, w)
  {
    hide WellFormed;
    assert (acts + [a])[..|acts|] == acts;
  }

  /** One writer after a step: another's step, or one that only moves its draft on, leaves it with what it held. */
  lemma WriterHoldsAsked(s: State, acts: seq<Action>, a: Action, w: nat)
    requires Inv(s) && AllHoldAsked(s, acts)
    ensures w in Step(s, a).writers <==> AskedOf(acts + [a], w).Some?
    ensures w in Step(s, a).writers ==> HoldsAsked(s, Step(s, a).writers[w], AskedOf(acts + [a], w).value)
  {
    hide Inv, CellInv, Says, AfterRead, WellFormed, AskedOf, CellAppend, CellSave;
    AskedStays(acts, a, w);
    ReadableCell(s);
    if a.Read? && w == a.w && w in s.writers && s.writers[w].Begun? {
      ReadHoldsAsked(s, s.writers[w].op);
    }
  }

  lemma ReadableCell(s: State)
    requires Inv(s)
    ensures CellInv(s)
  {
  }

  lemma StepHoldsAsked(s: State, acts: seq<Action>, a: Action)
    requires Inv(s) && AllHoldAsked(s, acts)
    ensures AllHoldAsked(Step(s, a), acts + [a])
  {
    StepTouchesOneWriter(s, a);
    hide Inv, Step, HoldsAsked, AskedOf;
    var s' := Step(s, a);
    forall w: nat
      ensures w in s'.writers <==> AskedOf(acts + [a], w).Some?
      ensures w in s'.writers ==> HoldsAsked(s', s'.writers[w], AskedOf(acts + [a], w).value)
    {
      WriterHoldsAsked(s, acts, a, w);
      if w in s'.writers {
        SameIdsHold(s, s', s'.writers[w], AskedOf(acts + [a], w).value);
      }
    }
  }

  lemma SameIdsHold(s: State, s': State, wr: Writer, op: Op)
    requires HoldsAsked(s, wr, op) && s'.contextID == s.contextID && s'.taskID == s.taskID
    ensures HoldsAsked(s', wr, op)
  {
  }

  lemma NobodyHolds(s: State)
    requires Init(s)
    ensures AllHoldAsked(s, [])
  {
  }

  lemma {:induction false} RunHoldsAsked(s0: State, acts: seq<Action>)
    requires Init(s0)
    ensures AllHoldAsked(Exec(s0, acts), acts)
  {
    hide AllHoldAsked, Step, Inv, Init;
    if acts == [] {
      NobodyHolds(s0);
    } else {
      var n := |acts| - 1;
      RunHoldsAsked(s0, acts[..n]);
      RunKeepsInv(s0, acts[..n]);
      StepHoldsAsked(Exec(s0, acts[..n]), acts[..n], acts[n]);
      assert acts[..n] + [acts[n]] == acts;
    }
  }

  // ---------------------------------------------------------------- what the log holds

  /** Every batch is what its writer was asked for; the first one, and no other, creates the task. */
  ghost predicate BlocksSay(contextID: string, taskID: string, acts: seq<Action>, blocks: seq<Block>) {
    forall i :: 0 <= i < |blocks| ==>
      && blocks[i].events != []
      && var op := AskedOf(acts, blocks[i].writer);
         && op.Some? && (op.value.Create? <==> i == 0)
         && Says(contextID, taskID, op.value, blocks[i].events)
  }

  lemma BlocksSayOn(contextID: string, taskID: string, acts: seq<Action>, a: Action, blocks: seq<Block>)
    requires BlocksSay(contextID, taskID, acts, blocks)
    ensures BlocksSay(contextID, taskID, acts + [a], blocks)
  {
    hide Says, AskedOf;
    forall i | 0 <= i < |blocks|
      ensures AskedOf(acts + [a], blocks[i].writer) == AskedOf(acts, blocks[i].writer)
    {
      AskedStays(acts, a, blocks[i].writer);
    }
  }

  /** The batch that the first append to an empty log brings is a creation; every later one is an update. */
  lemma CreatesIffFirst(s: State, w: nat, op: Op)
    requires Inv(s) && w in s.writers && s.writers[w].Ready? && Step(s, Append(w)).writers[w].Saving?
    requires Says(s.contextID, s.taskID, op, s.writers[w].draft.pending)
    ensures op.Create? <==> s.cell.log == []
    ensures s.writers[w].draft.pending != []
  {
    hide SameTask, Replay, ReplayFrom, CanceledIn, StatusAlone, StatusFree, GoodLog, WrittenAs, CreatedWith;
    assert GoodWriter(s, s.writers[w]);
    var d := s.writers[w].draft;
    assert d.expected == |s.cell.log|;
    if op.Update? && d.expected == 0 {
      assert d.pending[0].TaskCreated? && WrittenAs(s.contextID, s.taskID, op.edits[0], d.pending[0]);
      NoCreation(s.contextID, s.taskID, op.edits[0], d.pending[0]);
    }
  }

  lemma NoCreation(contextID: string, taskID: string, edit: Edit, e: Event)
    requires WrittenAs(contextID, taskID, edit, e)
    ensures !e.TaskCreated?
  {
  }

  lemma FlattenEmptyIff(blocks: seq<Block>)
    requires forall i :: 0 <= i < |blocks| ==> blocks[i].events != []
    ensures Flatten(blocks) == [] <==> blocks == []
  {
  }

  lemma {:induction false} FlattenFirst(blocks: seq<Block>)
    requires blocks != [] && blocks[0].events != []
    ensures Flatten(blocks) != [] && Flatten(blocks)[0] == blocks[0].events[0]
  {
    if |blocks| > 1 {
      FlattenFirst(blocks[..|blocks| - 1]);
    } else {
      assert Flatten(blocks[..0]) == [];
    }
  }

  /**
    The log is what was asked for: batch by batch, whole and in order, it says what the batch's writer was begun with.
    The first batch is a creation, of a submitted task that holds the user's message; all others are updates.
   */
  lemma {:induction false} LogIsWhatWasAsked(s0: State, acts: seq<Action>)
    requires Init(s0)
    ensures Exec(s0, acts).cell.log == Flatten(Accepted(s0, acts))
    ensures BlocksSay(s0.contextID, s0.taskID, acts, Accepted(s0, acts))
  {
    hide Init, Inv, Step, BatchedLog, BlocksSay, AllHoldAsked, Flatten, AskedOf;
    LogIsAcceptedBatches(s0, acts);
    BatchesMakeLog(Exec(s0, acts), Accepted(s0, acts));
    if acts == [] {
      NoBlocksSay(s0.contextID, s0.taskID, acts);
    } else {
      var n := |acts| - 1;
      var init, a := acts[..n], acts[n];
      assert init + [a] == acts;
      LogIsWhatWasAsked(s0, init);
      BlocksSayOn(s0.contextID, s0.taskID, init, a, Accepted(s0, init));
      if Accepted(s0, acts) != Accepted(s0, init) {
        RunKeepsInv(s0, init);
        RunHoldsAsked(s0, init);
        SameIds(s0, init);
        AcceptedSays(Exec(s0, init), init, a.w, Accepted(s0, init));
      }
    }
  }

  lemma NoBlocksSay(contextID: string, taskID: string, acts: seq<Action>)
    ensures BlocksSay(contextID, taskID, acts, [])
  {
  }

  lemma BatchesMakeLog(s: State, blocks: seq<Block>)
    requires BatchedLog(s, blocks)
    ensures s.cell.log == Flatten(blocks)
  {
  }

  lemma {:induction false} SameIds(s: State, acts: seq<Action>)
    ensures Exec(s, acts).contextID == s.contextID && Exec(s, acts).taskID == s.taskID
  {
    if acts != [] {
      SameIds(s, acts[..|acts| - 1]);
      StepTouchesOneWriter(Exec(s, acts[..|acts| - 1]), acts[|acts| - 1]);
    }
  }

  lemma AcceptedSays(s: State, acts: seq<Action>, w: nat, blocks: seq<Block>)
    requires Inv(s) && AllHoldAsked(s, acts) && s.cell.log == Flatten(blocks)
    requires w in s.writers && s.writers[w].Ready? && Step(s, Append(w)).writers[w].Saving?
    requires BlocksSay(s.contextID, s.taskID, acts + [Append(w)], blocks)
    ensures BlocksSay(s.contextID, s.taskID, acts + [Append(w)], blocks + [Block(w, s.writers[w].draft.pending)])
  {
    hide Inv, Says, AskedOf, Step, WellFormed, BlocksSay, Flatten;
    AskedStays(acts, Append(w), w);
    var op := AskedOf(acts, w).value;
    assert HoldsAsked(s, s.writers[w], op);
    CreatesIffFirst(s, w, op);
    OneMoreSays(s.contextID, s.taskID, acts + [Append(w)], blocks, Block(w, s.writers[w].draft.pending));
  }

  lemma OneMoreSays(contextID: string, taskID: string, acts: seq<Action>, blocks: seq<Block>, b: Block)
    requires BlocksSay(contextID, taskID, acts, blocks) && b.events != [] && AskedOf(acts, b.writer).Some?
    requires AskedOf(acts, b.writer).value.Create? <==> Flatten(blocks) == []
    requires Says(contextID, taskID, AskedOf(acts, b.writer).value, b.events)
    ensures BlocksSay(contextID, taskID, acts, blocks + [b])
  {
    hide Says, AskedOf;
    FlattenEmptyIff(blocks);
  }

  // ---------------------------------------------------------------- what the history holds

  /**
    The history of a task is, up to the stamps, the message of the operation that created it and then the messages
    logged since, up to the version of the snapshot.
   */
  ghost predicate HistoryAsAsked(s0: State, acts: seq<Action>) {
    var c, blocks := Exec(s0, acts).cell, Accepted(s0, acts);
    && blocks != [] && c.log != [] && c.log[0].TaskCreated? && 0 < SnapshotVersion(c) <= |c.log|
    && var op := AskedOf(acts, blocks[0].writer);
       && op.Some? && op.value.Create?
       && CreatedWith(c.log[0].task, s0.contextID, s0.taskID, op.value.userMessage)
       && EraseHistory(SnapshotTask(c).value.history)
       == EraseHistory([op.value.userMessage] + Handles.MessagesOf(c.log[1..SnapshotVersion(c)]))
  }

  lemma HistoryIsWhatWasAsked(s0: State, acts: seq<Action>)
    requires Init(s0) && Exec(s0, acts).cell.snapshot.Some?
    ensures HistoryAsAsked(s0, acts)
  {
    var s, blocks := Exec(s0, acts), Accepted(s0, acts);
    RunKeepsInv(s0, acts);
    LogIsWhatWasAsked(s0, acts);
    SnapshotReads(s);
    Handles.SnapshotHistory(s);
    FlattenEmptyIff(blocks);
    FlattenFirst(blocks);
    var v := SnapshotVersion(s.cell);
    Handles.ReplayExtendsHistory(s.cell.log, 1, v);
    ReplayOfCreation(s.cell.log);
  }

  lemma ReplayOfCreation(log: seq<Event>)
    requires log != [] && log[0].TaskCreated?
    ensures Replay(log[..1]) == Some(log[0].task)
  {
    assert log[..1][..0] == [];
  }
}
