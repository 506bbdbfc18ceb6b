/** Concrete runs from the empty store: what the general theorems leave open does happen. */
module JobRuns {
  import opened A2A
  import opened EventLog
  import opened FileStores
  import opened JobSystem
  import Processing = JobProcessing
  import Protocol = WriterProtocol

  // ------------------------------------------------------------------------ pieces of runs

  /** A write that begins with this step and that nobody disturbs. */
  function Written(begin: Action, w: nat): seq<Action> {
    [begin, Storage(Protocol.Read(w)), Storage(Protocol.Append(w)), Storage(Protocol.Save(w))]
  }

  /** The same write, failing between its append and its save. */
  function HalfWritten(begin: Action, w: nat): seq<Action> {
    [begin, Storage(Protocol.Read(w)), Storage(Protocol.Append(w)), Storage(Protocol.Crash(w))]
  }

  /** The same write, still before its save. */
  function Unsaved(begin: Action, w: nat): seq<Action> {
    [begin, Storage(Protocol.Read(w)), Storage(Protocol.Append(w))]
  }

  /** A user creates the task; a job for it is delivered, gets the lock, and reads the task as not terminal. */
  function Started(userMessage: Message): seq<Action> {
    Written(WriteContent(0, Protocol.Create(userMessage)), 0) + [Enter(0), Acquire(0), Check(0)]
  }

  lemma FourSteps(s: Sys, a: Action, b: Action, c: Action, d: Action)
    ensures Exec(s, [a, b, c, d]) == Step(Step(Step(Step(s, a), b), c), d)
  {
    hide Step;
    ThreeSteps(s, a, b, c);
    assert [a, b, c, d][..3] == [a, b, c];
  }

  lemma ThreeSteps(s: Sys, a: Action, b: Action, c: Action)
    ensures Exec(s, [a, b, c]) == Step(Step(Step(s, a), b), c)
  {
    hide Step;
    assert [a, b, c][..2] == [a, b] && [a, b][..1] == [a] && [a][..0] == [];
    assert Exec(s, [a]) == Step(Exec(s, []), a);
    assert Exec(s, [a, b]) == Step(Exec(s, [a]), b);
  }

  ghost function StartedState(s0: Sys, userMessage: Message): Sys {
    var task := Protocol.NewTask(s0.store.contextID, s0.store.taskID, userMessage);
    s0.(store := s0.store.(cell := Cell([TaskCreated(task)], 1, Some(Snapshot(task, 1))),
                           writers := map[0 := Protocol.Finished(Protocol.Committed)]),
        holder := Some(0),
        workers := map[0 := Active])
  }

  lemma CreatedRun(s0: Sys, userMessage: Message)
    requires Init(s0)
    ensures Exec(s0, Written(WriteContent(0, Protocol.Create(userMessage)), 0))
         == StartedState(s0, userMessage).(holder := None, workers := map[])
  {
    var begin, op := WriteContent(0, Protocol.Create(userMessage)), Protocol.Create(userMessage);
    FourSteps(s0, begin, Storage(Protocol.Read(0)), Storage(Protocol.Append(0)), Storage(Protocol.Save(0)));
    var d := Protocol.CreationDraft(s0.store, userMessage);
    assert [] + d.pending == d.pending;
    var st := s0.store;
    assert Step(s0, begin).store == st.(writers := map[0 := Protocol.Begun(op)]);
    var st2 := st.(writers := map[0 := Protocol.Ready(d)]);
    assert Protocol.Step(Step(s0, begin).store, Protocol.Read(0)) == st2;
    var st3 := st.(cell := Cell(d.pending, 1, None), writers := map[0 := Protocol.Saving(d, 1)]);
    assert Protocol.Step(st2, Protocol.Append(0)) == st3;
  }

  /** With the lock free and the task not terminal, a first job gets to work. */
  lemma JobStarts(s: Sys)
    requires s.holder.None? && s.workers == map[]
    requires s.store.cell.snapshot.Some? && !ReadsTerminal(s.store.cell)
    ensures Step(Step(Step(s, Enter(0)), Acquire(0)), Check(0)) == s.(holder := Some(0), workers := map[0 := Active])
  {
    hide ReadsTerminal;
    assert Step(s, Enter(0)) == s.(workers := map[0 := Waiting]);
    assert Step(Step(s, Enter(0)), Acquire(0)) == s.(holder := Some(0), workers := map[0 := Holding]);
  }

  lemma StartedRun(s0: Sys, userMessage: Message)
    requires Init(s0)
    ensures Exec(s0, Started(userMessage)) == StartedState(s0, userMessage)
    ensures Inv(StartedState(s0, userMessage))
  {
    hide Exec, Step, Inv;
    CreatedRun(s0, userMessage);
    var s := Exec(s0, Written(WriteContent(0, Protocol.Create(userMessage)), 0));
    JobStarts(s);
    ExecConcat(s0, Written(WriteContent(0, Protocol.Create(userMessage)), 0), [Enter(0), Acquire(0), Check(0)]);
    ThreeSteps(s, Enter(0), Acquire(0), Check(0));
    RunKeepsInv(s0, Started(userMessage));
  }

  // -------------------------------------------------------------------- an undisturbed status

  lemma UnsavedRun(s: Sys, begin: Action, w: nat, status: TaskStatus)
    requires Protocol.AboutToWrite(Step(s, begin).store, w, status)
    ensures var s1, s' := Step(s, begin), Exec(s, Unsaved(begin, w));
            var st := s1.store;
            && w in s'.store.writers && s'.store.writers[w].Saving? && Protocol.Inv(s'.store)
            && s'.store.writers[w].draft.task == st.cell.snapshot.value.task.(status := status)
            && s' == s1.(store := st.(cell := Protocol.Appended(st, status),
                  writers := st.writers[w := s'.store.writers[w]]))
  {
    hide Protocol.Inv, Protocol.Step, Step;
    var s1 := Step(s, begin);
    ThreeSteps(s, begin, Storage(Protocol.Read(w)), Storage(Protocol.Append(w)));
    StorageStep(s1, Protocol.Read(w));
    StorageStep(Step(s1, Storage(Protocol.Read(w))), Protocol.Append(w));
    Protocol.ReadAndAppend(s1.store, w, status);
  }

  lemma WrittenRun(s: Sys, begin: Action, w: nat, status: TaskStatus)
    requires Protocol.AboutToWrite(Step(s, begin).store, w, status)
    ensures var s1 := Step(s, begin);
            var st := s1.store;
            Exec(s, Written(begin, w)) == s1.(store := st.(
                cell := Protocol.Restated(st, status),
                writers := st.writers[w := Protocol.Finished(Protocol.Committed)]))
  {
    hide Protocol.Inv, Protocol.Step, Step;
    UnsavedRun(s, begin, w, status);
    var s3 := Exec(s, Unsaved(begin, w));
    assert Written(begin, w)[..3] == Unsaved(begin, w);
    StorageStep(s3, Protocol.Save(w));
    Protocol.SaveEnds(s3.store, w);
  }

  lemma HalfWrittenRun(s: Sys, begin: Action, w: nat, status: TaskStatus)
    requires Protocol.AboutToWrite(Step(s, begin).store, w, status)
    ensures var s1 := Step(s, begin);
            var st := s1.store;
            Exec(s, HalfWritten(begin, w)) ==
            s1.(store := st.(cell := Protocol.Appended(st, status), writers := st.writers[w := Protocol.Crashed(true)]))
  {
    hide Protocol.Inv, Protocol.Step, Step;
    UnsavedRun(s, begin, w, status);
    var s3 := Exec(s, Unsaved(begin, w));
    assert HalfWritten(begin, w)[..3] == Unsaved(begin, w);
    StorageStep(s3, Protocol.Crash(w));
    CrashEnds(s3.store, w);
  }

  lemma CrashEnds(st: Protocol.State, w: nat)
    requires w in st.writers && st.writers[w].Saving?
    ensures Protocol.Step(st, Protocol.Crash(w)) == st.(writers := st.writers[w := Protocol.Crashed(true)])
  {
  }

  /** The first status the worker of job 0 writes in a started run. */
  lemma BeginStatus(s: Sys, w: nat, status: TaskStatus)
    requires Inv(s) && IsActive(s, 0) && w !in s.store.writers
    requires s.store.cell.snapshot.Some? && !s.store.cell.snapshot.value.task.status.state.Canceled?
    requires SnapshotVersion(s.store.cell) == |s.store.cell.log|
    ensures var s' := Step(s, WriteStatus(0, w, status));
            var begun := Protocol.Begun(Protocol.Update([SetStatus(status)]));
            && Protocol.AboutToWrite(s'.store, w, status)
            && s' == s.(store := s.store.(writers := s.store.writers[w := begun]), owner := s.owner[w := 0])
  {
    hide Protocol.Inv, Protocol.Step;
    NewWriter(s, w, Protocol.Update([SetStatus(status)]));
  }

  /** The system after job 0 wrote a status undisturbed. */
  ghost function AfterStatus(s: Sys, w: nat, status: TaskStatus): Sys
    requires s.store.cell.snapshot.Some?
  {
    s.(store := s.store.(cell := Protocol.Restated(s.store, status),
                         writers := s.store.writers[w := Protocol.Finished(Protocol.Committed)]),
       owner := s.owner[w := 0])
  }

  lemma StatusRun(s: Sys, w: nat, status: TaskStatus)
    requires Inv(s) && IsActive(s, 0) && w !in s.store.writers
    requires s.store.cell.snapshot.Some? && !s.store.cell.snapshot.value.task.status.state.Canceled?
    requires SnapshotVersion(s.store.cell) == |s.store.cell.log|
    ensures Exec(s, Written(WriteStatus(0, w, status), w)) == AfterStatus(s, w, status)
    ensures Inv(AfterStatus(s, w, status))
  {
    hide Inv, Step, Exec, Protocol.Inv;
    BeginStatus(s, w, status);
    WrittenRun(s, WriteStatus(0, w, status), w, status);
    RunKeepsInv(s, Written(WriteStatus(0, w, status), w));
  }

  /**
    Terminal is final as a set, not as a state: a cancellation that passed its check before the task completed still
    overwrites the completion, if nobody disturbs it.
   */
  lemma StaleCancelOverwritesCompletion(s: Sys, c: nat, w: nat, status: TaskStatus)
    requires Inv(s) && c in s.cancellers && s.cancellers[c].Approved? && status.state.Canceled?
    requires s.store.cell.snapshot.Some? && s.store.cell.snapshot.value.task.status.state.Completed?
    requires SnapshotVersion(s.store.cell) == |s.store.cell.log| && w !in s.store.writers
    ensures Exec(s, Written(CancelWrite(c, w, status), w)).store.cell.snapshot
         == Some(Snapshot(s.store.cell.snapshot.value.task.(status := status), |s.store.cell.log| + 1))
  {
    hide Protocol.Inv, Protocol.Step, MayRestate, Exec;
    NewWriter(s, w, Protocol.Update([SetStatus(status)]));
    WrittenRun(s, CancelWrite(c, w, status), w, status);
  }

  // --------------------------------------------------------------------------- the runs

  function StaleCancelRun(userMessage: Message, completed: TaskStatus): seq<Action> {
    Started(userMessage) + [CancelCheck(0)] + Written(WriteStatus(0, 1, completed), 1)
  }

  /** A cancellation is approved, the agent completes the task, and then the cancellation overwrites the completion. */
  lemma StaleCancelHappens(s0: Sys, userMessage: Message, completed: TaskStatus, canceled: TaskStatus)
    requires Init(s0) && completed.state.Completed? && canceled.state.Canceled?
    ensures var acts := StaleCancelRun(userMessage, completed);
            var c, c' := Exec(s0, acts).store.cell, Exec(s0, acts + Written(CancelWrite(0, 2, canceled), 2)).store.cell;
            && c.snapshot.Some? && c.snapshot.value.task.status == completed
            && c'.snapshot.Some? && c'.snapshot.value.task.status == canceled
  {
    hide Exec, Inv;
    var acts := StaleCancelRun(userMessage, completed);
    var s1 := StartedState(s0, userMessage);
    StartedRun(s0, userMessage);
    ExecConcat(s0, Started(userMessage), [CancelCheck(0)]);
    OneStep(s1, CancelCheck(0));
    var s2 := s1.(cancellers := s1.cancellers[0 := Approved]);
    ExecConcat(s0, Started(userMessage) + [CancelCheck(0)], Written(WriteStatus(0, 1, completed), 1));
    StepKeepsInv(s1, CancelCheck(0));
    StatusRun(s2, 1, completed);
    ExecConcat(s0, acts, Written(CancelWrite(0, 2, canceled), 2));
    StaleCancelOverwritesCompletion(AfterStatus(s2, 1, completed), 0, 2, canceled);
  }

  lemma OneStep(s: Sys, a: Action)
    ensures Exec(s, [a]) == Step(s, a)
  {
    hide Step;
    assert [a][..0] == [];
  }

  function SplitRun(userMessage: Message, completed: TaskStatus, working: TaskStatus): seq<Action> {
    Started(userMessage) + Written(WriteStatus(0, 1, completed), 1) + HalfWritten(WriteStatus(0, 2, working), 2)
        + [Release(0)]
  }

  /**
    The agent completes the task, then its next update fails between append and save, and the job ends. The task reads
    as completed for good, while its log means a task at work.
   */
  lemma CrashSplitsLogAndSnapshot(s0: Sys, userMessage: Message, completed: TaskStatus, working: TaskStatus)
    requires Init(s0) && completed.state.Completed? && working.state.Working?
    ensures var s := Exec(s0, SplitRun(userMessage, completed, working));
            && s.holder.None? && ReadsTerminal(s.store.cell)
            && s.store.cell.snapshot.value.task.status == completed
            && !LogIsTerminal(s.store.cell.log)
  {
    hide Exec, Inv, Step, LogIsTerminal;
    var first, s1 := Written(WriteStatus(0, 1, completed), 1), StartedState(s0, userMessage);
    StartedRun(s0, userMessage);
    ExecConcat(s0, Started(userMessage), first);
    StatusRun(s1, 1, completed);
    ExecConcat(s0, Started(userMessage) + first, HalfWritten(WriteStatus(0, 2, working), 2) + [Release(0)]);
    assert SplitRun(userMessage, completed, working)
        == Started(userMessage) + first + (HalfWritten(WriteStatus(0, 2, working), 2) + [Release(0)]);
    LeavesHalfWritten(AfterStatus(s1, 1, completed), 2, working);
  }

  /** The worker of job 0 fails in the middle of a status update and leaves. */
  lemma LeavesHalfWritten(s: Sys, w: nat, working: TaskStatus)
    requires Inv(s) && IsActive(s, 0) && OwnWritersStopped(s, 0) && w !in s.store.writers
    requires ReadsTerminal(s.store.cell) && !s.store.cell.snapshot.value.task.status.state.Canceled?
    requires SnapshotVersion(s.store.cell) == |s.store.cell.log| && working.state.Working?
    ensures var s' := Exec(s, HalfWritten(WriteStatus(0, w, working), w) + [Release(0)]);
            && s'.holder.None? && s'.store.cell.snapshot == s.store.cell.snapshot
            && !LogIsTerminal(s'.store.cell.log)
  {
    hide Exec, Inv, Protocol.Inv, LogIsTerminal;
    var acts := HalfWritten(WriteStatus(0, w, working), w);
    BeginStatus(s, w, working);
    HalfWrittenRun(s, WriteStatus(0, w, working), w, working);
    ExecConcat(s, acts, [Release(0)]);
    OneStep(Exec(s, acts), Release(0));
    RunKeepsInv(s, acts + [Release(0)]);
    SplitDisagrees(Exec(s, acts + [Release(0)]), s, working);
  }

  lemma SplitDisagrees(s: Sys, before: Sys, working: TaskStatus)
    requires Inv(s) && ReadsTerminal(s.store.cell) && working.state.Working?
    requires s.store.cell == Protocol.Appended(before.store, working)
    requires SnapshotVersion(before.store.cell) == |before.store.cell.log|
    ensures !LogIsTerminal(s.store.cell.log)
  {
    hide Protocol.CellInv, LogIsTerminal;
    assert Protocol.Uncovered(s.store.cell)[0] == Protocol.StatusEvent(before.store, working);
    LogIsTerminalIff(s.store);
  }

  function AbandonedRun(userMessage: Message, working: TaskStatus): seq<Action> {
    Started(userMessage) + Written(WriteStatus(0, 1, working), 1) + [Execute(0), Release(0)]
  }

  /**
    The steps of a job whose agent returns a cancellation that no user asked for, such as after a failed heartbeat or at
    shutdown. The run is one that `JobProcessing.ProcessJob` promises for its canceled exit, and the condition it gives
    for a terminal task is false of it: the task is left as being worked on, nobody works on it, and no callback was
    called.
   */
  lemma CanceledAgentLeavesTaskWorking(s0: Sys, userMessage: Message, working: TaskStatus)
    requires Init(s0) && working.state.Working?
    ensures var before := Exec(s0, Written(WriteContent(0, Protocol.Create(userMessage)), 0));
            var s := Exec(s0, AbandonedRun(userMessage, working));
            var exit := Processing.AgentCanceled(None, working);
            && Processing.LeftBehind(before, s, exit, [working])
            && !Processing.IsTerminalUpdate(exit.last)
            && SnapshotVersion(s.store.cell) <= |s.store.cell.log|
            && !Protocol.CanceledIn(s.store.cell.log[..SnapshotVersion(s.store.cell)])
            && !ReadsTerminal(s.store.cell)
            && s.executed == [0] && s.holder.None? && s.workers == map[0 := Left]
            && forall w :: w in s.store.writers ==> s.store.writers[w].Finished?
  {
    hide Exec, Inv, Processing.LeftBehind, Protocol.CanceledIn;
    var acts := Started(userMessage) + Written(WriteStatus(0, 1, working), 1);
    CreatedRun(s0, userMessage);
    StartedRun(s0, userMessage);
    var s1 := StartedState(s0, userMessage);
    ExecConcat(s0, Started(userMessage), Written(WriteStatus(0, 1, working), 1));
    StatusRun(s1, 1, working);
    ExecConcat(s0, acts, [Execute(0), Release(0)]);
    var s2 := AfterStatus(s1, 1, working);
    TwoSteps(s2, Execute(0), Release(0));
    RunKeepsInv(s0, AbandonedRun(userMessage, working));
    var s := Exec(s0, AbandonedRun(userMessage, working));
    AbandonedLeavesWorking(Exec(s0, Written(WriteContent(0, Protocol.Create(userMessage)), 0)), s, working);
  }

  lemma AbandonedLeavesWorking(before: Sys, s: Sys, working: TaskStatus)
    requires Inv(s) && working.state.Working? && before.store.cell.snapshot.Some?
    requires s.store.contextID == before.store.contextID && s.store.taskID == before.store.taskID
    requires s.store.cell == Protocol.Restated(before.store, working)
    ensures Processing.LeftBehind(before, s, Processing.AgentCanceled(None, working), [working])
    ensures !Protocol.CanceledIn(s.store.cell.log[..SnapshotVersion(s.store.cell)])
  {
    StoreInv(s);
    hide Inv, Protocol.CellInv, Protocol.CanceledIn;
    Processing.ReadsTerminalIff(s.store, working);
    var log, n := s.store.cell.log, |before.store.cell.log|;
    assert log[n] == Protocol.StatusEvent(before.store, working);
    assert Processing.StatusWritten(before.store.cell.log, log, working);
    assert [working][1..1] == [];
  }

  lemma TwoSteps(s: Sys, a: Action, b: Action)
    ensures Exec(s, [a, b]) == Step(Step(s, a), b)
  {
    hide Step;
    OneStep(s, a);
    assert [a, b][..1] == [a];
  }
}
