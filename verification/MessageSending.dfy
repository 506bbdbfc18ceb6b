/**
  The end of a blocking send: wait for a final event in the log, then answer with the task as the snapshot has it. The
  two are written one after the other, so the answer need not show what ended the wait.
 */
module MessageSending {
  import opened A2A
  import opened EventLog
  import opened FileStores
  import opened EventReaders
  import opened JobSystem
  import Protocol = WriterProtocol
  import Runs = JobRuns

  datatype SendError = WaitInterrupted | NoAnswerYet | NotRetrieved(error: StoreError)

  /** The wait is over at this poll, the first with a final event in its batch. */
  ghost predicate WaitEndsAt(ticks: seq<Tick>, k: nat)
    requires k < |ticks|
  {
    Waits(ticks, k) && ticks[k].Polled? && HasFinal(BatchAt(ticks, k))
  }

  /** `atRead` is what the store holds about the task when the wait is over and the task is read. */
  method AwaitAndAnswer(ticks: seq<Tick>, atRead: Cell, historyLength: int) returns (r: Result<Task, SendError>)
    ensures r.Ok? || (r.Err? && r.error.NotRetrieved?) ==> exists k :: 0 <= k < |ticks| && WaitEndsAt(ticks, k)
    ensures r.Ok? ==> atRead.snapshot.Some? && KeepsLast(atRead.snapshot.value.task, r.value, historyLength)
    ensures r.Err? && r.error.NotRetrieved? ==> atRead.snapshot.None?
    ensures r == Err(WaitInterrupted) ==> exists k :: 0 <= k < |ticks| && Waits(ticks, k) && ticks[k].CtxDone?
    ensures r == Err(NoAnswerYet) ==> Waits(ticks, |ticks|)
  {
    hide HasFinal, Waits, BatchAt;
    var end := WaitForTaskCompletion(ticks);
    match end {
      case Interrupted(_) => return Err(WaitInterrupted);
      case StillWaiting => return Err(NoAnswerYet);
      case Returned(k) =>
        assert WaitEndsAt(ticks, k);
        var got := CellGet(atRead, historyLength);
        if atRead.snapshot.Some? {
          LimitKeepsLast(atRead.snapshot.value.task, historyLength);
        }
        return if got.Err? then Err(NotRetrieved(got.error)) else Ok(got.value.0);
    }
  }

  /**
    A log with a final event is that of a task with a snapshot: its creation was saved before any status was appended.
   */
  lemma FinalHasSnapshot(st: Protocol.State, i: nat)
    requires Protocol.Inv(st) && i < |st.cell.log| && IsFinal(st.cell.log[i])
    ensures st.cell.snapshot.Some?
  {
    assert st.cell.log[0].TaskCreated? && !Protocol.StatusFree(st.cell.log);
    assert st.cell.snapshot.None? ==> Protocol.Uncovered(st.cell) == st.cell.log;
  }

  /** What ended a wait is in the log that was polled. */
  lemma WhatEndedTheWait(ticks: seq<Tick>, k: nat) returns (i: nat)
    requires k < |ticks| && WaitEndsAt(ticks, k)
    ensures i < |ticks[k].log| && IsFinal(ticks[k].log[i])
  {
    hide BatchAt, Waits;
    var n :| 0 <= n < |BatchAt(ticks, k)| && IsFinal(BatchAt(ticks, k)[n]);
    BatchIndices(ticks, k);
    i := VersionAt(ticks, k) + n;
  }

  /** Whether a reachable task reads as terminal is told by the last status its snapshot covers. */
  lemma ReadsTerminalIffCovered(st: Protocol.State)
    requires Protocol.Inv(st)
    ensures SnapshotVersion(st.cell) <= |st.cell.log|
    ensures var last := Protocol.LastStatus(st.cell.log[..SnapshotVersion(st.cell)]);
            ReadsTerminal(st.cell) <==> last.Some? && last.value.state.IsTerminal()
  {
    Protocol.SnapshotReads(st);
    if st.cell.snapshot.Some? {
      Protocol.ReadIsLastCovered(st);
    } else {
      assert st.cell.log[..0] == [];
      Protocol.EmptyReplay();
    }
  }

  /**
    The answer after a blocking wait: along any run, with the log polled after `m` steps and the task read after `n`, a
    wait that ended at that poll is answered with an existing task, and a terminal one if and only if the last status
    event among those the snapshot covers by then is terminal. Without a save outstanding these are all events of the
    log.
   */
  lemma AnswerIsTerminalIff(s0: Protocol.State, acts: seq<Protocol.Action>, m: nat, n: nat, ticks: seq<Tick>, k: nat)
    requires Protocol.Init(s0) && m <= n <= |acts| && k < |ticks| && WaitEndsAt(ticks, k)
    requires ticks[k].log == Protocol.Exec(s0, acts[..m]).cell.log
    ensures var c := Protocol.Exec(s0, acts[..n]).cell;
            && c.snapshot.Some? && SnapshotVersion(c) <= |c.log|
            && var last := Protocol.LastStatus(c.log[..SnapshotVersion(c)]);
               && (ReadsTerminal(c) <==> last.Some? && last.value.state.IsTerminal())
               && (SnapshotVersion(c) == |c.log| ==> last == Protocol.LastStatus(c.log))
  {
    hide Protocol.Exec, Protocol.Init, Protocol.Inv, Protocol.LastStatus, WaitEndsAt, ReadsTerminal;
    var t := Protocol.Exec(s0, acts[..n]);
    Protocol.RunKeepsInv(s0, acts[..n]);
    LaterLogIsLonger(s0, acts, m, n);
    var i := WhatEndedTheWait(ticks, k);
    FinalHasSnapshot(t, i);
    ReadsTerminalIffCovered(t);
    assert t.cell.log[..|t.cell.log|] == t.cell.log;
  }

  /** The agent completes the task of a started job, and the completion is appended but not yet saved. */
  function CompletingRun(userMessage: Message, working: TaskStatus, completed: TaskStatus): seq<Action> {
    Runs.Started(userMessage) + Runs.Written(WriteStatus(0, 1, working), 1)
        + Runs.Unsaved(WriteStatus(0, 2, completed), 2)
  }

  /** At that moment the wait is over, and the answer is a task still being worked on. */
  lemma WaitAnswersWorking(s0: Sys, userMessage: Message, working: TaskStatus, completed: TaskStatus)
    requires Init(s0) && working.state.Working? && completed.state.Completed?
    ensures var c := Exec(s0, CompletingRun(userMessage, working, completed)).store.cell;
            && WaitEndsAt([Polled(c.log, None)], 0)
            && c.snapshot.Some? && c.snapshot.value.task.status == working
  {
    hide Exec, Inv, Protocol.Inv, BatchAt;
    var first, s1 := Runs.Written(WriteStatus(0, 1, working), 1), Runs.StartedState(s0, userMessage);
    Runs.StartedRun(s0, userMessage);
    ExecConcat(s0, Runs.Started(userMessage), first);
    Runs.StatusRun(s1, 1, working);
    var s2 := Runs.AfterStatus(s1, 1, working);
    ExecConcat(s0, Runs.Started(userMessage) + first, Runs.Unsaved(WriteStatus(0, 2, completed), 2));
    Runs.BeginStatus(s2, 2, completed);
    Runs.UnsavedRun(s2, WriteStatus(0, 2, completed), 2, completed);
    var c := Exec(s2, Runs.Unsaved(WriteStatus(0, 2, completed), 2)).store.cell;
    BatchIndices([Polled(c.log, None)], 0);
    assert IsFinal(BatchAt([Polled(c.log, None)], 0)[2]);
  }
}
