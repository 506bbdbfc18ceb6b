/**
  Jobs, cancellations and messages around one task: duplicate and redelivered jobs compete for the task's lock, the
  holder runs the agent, and users cancel or write content at any time, all through the write protocol.

  Workers reach the store only while they hold the lock; an agent uses its handle only while it executes.
 */
module JobSystem {
  import opened A2A
  import opened EventLog
  import opened FileStores
  import Protocol = WriterProtocol

  /**
    `Holding` has the lock but has not read the task; `Active` has read it as not terminal, `Skipping` as anything else.
   */
  datatype Worker = Waiting | Holding | Active | Skipping | Left

  datatype Canceller = Approved | Refused | Sent

  datatype Action =
    | Enter(j: nat)                                   // a delivered job starts to be processed
    | Acquire(j: nat)
    | GiveUp(j: nat)                                  // the context ended while waiting for the lock
    | Check(j: nat)                                   // reads the task under the lock
    | Execute(j: nat)                                 // calls the agent
    | WriteStatus(j: nat, w: nat, status: TaskStatus) // the worker, or the agent it runs, starts a status update
    | Release(j: nat)                                 // on every way out, its own writes having ended or failed
    | CancelCheck(c: nat)
    | CancelWrite(c: nat, w: nat, status: TaskStatus)
    | WriteContent(w: nat, op: Protocol.Op)           // a user or an agent creates the task, adds messages or artifacts
    | Storage(step: Protocol.Action)                  // any writer's next storage step, or its crash

  /** `owner` tells which worker a status writer belongs to; `executed` lists the workers that called the agent. */
  datatype Sys = Sys(
    store: Protocol.State,
    holder: Option<nat>,
    workers: map<nat, Worker>,
    cancellers: map<nat, Canceller>,
    owner: map<nat, nat>,
    executed: seq<nat>)

  ghost predicate Init(s: Sys) {
    Protocol.Init(s.store) && s.holder == None && s.workers == map[] && s.cancellers == map[] && s.owner == map[]
        && s.executed == []
  }

  predicate IsActive(s: Sys, j: nat) {
    j in s.workers && s.workers[j].Active?
  }

  predicate HoldsLock(s: Sys, j: nat) {
    j in s.workers && (s.workers[j].Holding? || s.workers[j].Active? || s.workers[j].Skipping?)
  }

  predicate OwnWritersStopped(s: Sys, j: nat) {
    forall w :: w in s.owner && s.owner[w] == j && w in s.store.writers ==> Protocol.Stopped(s.store.writers[w])
  }

  predicate ReadsTerminal(c: Cell) {
    c.snapshot.Some? && c.snapshot.value.task.status.state.IsTerminal()
  }

  function BeginWriter(s: Sys, w: nat, op: Protocol.Op): Protocol.State {
    Protocol.Step(s.store, Protocol.Begin(w, op))
  }

  function Step(s: Sys, a: Action): Sys {
    match a
    case Enter(j) =>
      if j in s.workers then s else s.(workers := s.workers[j := Waiting])
    case Acquire(j) =>
      if j in s.workers && s.workers[j].Waiting? && s.holder.None?
      then s.(holder := Some(j), workers := s.workers[j := Holding]) else s
    case GiveUp(j) =>
      if j in s.workers && s.workers[j].Waiting? then s.(workers := s.workers[j := Left]) else s
    case Check(j) =>
      if j !in s.workers || !s.workers[j].Holding? then s
      else if s.store.cell.snapshot.None? || ReadsTerminal(s.store.cell) then s.(workers := s.workers[j := Skipping])
      else s.(workers := s.workers[j := Active])
    case Execute(j) =>
      if IsActive(s, j) then s.(executed := s.executed + [j]) else s
    case WriteStatus(j, w, status) =>
      if IsActive(s, j) && w !in s.store.writers
      then s.(store := BeginWriter(s, w, Protocol.Update([SetStatus(status)])), owner := s.owner[w := j]) else s
    case Release(j) =>
      if HoldsLock(s, j) && OwnWritersStopped(s, j)
      then s.(holder := None, workers := s.workers[j := Left]) else s
    case CancelCheck(c) =>
      if c in s.cancellers then s
      else
        var ok := s.store.cell.snapshot.Some? && s.store.cell.snapshot.value.task.status.state.CanCancel();
        s.(cancellers := s.cancellers[c := if ok then Approved else Refused])
    case CancelWrite(c, w, status) =>
      if c in s.cancellers && s.cancellers[c].Approved? && status.state.Canceled? && w !in s.store.writers
      then s.(store := BeginWriter(s, w, Protocol.Update([SetStatus(status)])),
              cancellers := s.cancellers[c := Sent])
      else s
    case WriteContent(w, op) =>
      if op.Update? && Protocol.HasStatus(op.edits) then s else s.(store := BeginWriter(s, w, op))
    case Storage(step) =>
      if step.Begin? then s else s.(store := Protocol.Step(s.store, step))
  }

  function Exec(s: Sys, acts: seq<Action>): Sys {
    if acts == [] then s else Step(Exec(s, acts[..|acts| - 1]), acts[|acts| - 1])
  }

  // --------------------------------------------------------------------- what writers may write

  ghost predicate TerminalOnly(events: seq<Event>) {
    forall i :: 0 <= i < |events| && events[i].StatusChanged? ==> events[i].status.state.IsTerminal()
  }

  ghost predicate CanceledOnly(events: seq<Event>) {
    forall i :: 0 <= i < |events| && events[i].StatusChanged? ==> events[i].status.state.Canceled?
  }

  /** The operation carries a status other than a cancellation. */
  ghost predicate Restating(op: Protocol.Op) {
    op.Update? && exists i :: 0 <= i < |op.edits| && op.edits[i].SetStatus? && !op.edits[i].status.state.Canceled?
  }

  /** This writer may still give the task a status other than canceled. */
  ghost predicate MayRestate(st: Protocol.State, w: nat)
    requires w in st.writers
  {
    match st.writers[w]
    case Begun(op) => Restating(op)
    case Ready(d) => !CanceledOnly(d.pending)
    case Saving(_, _) => !CanceledOnly(Protocol.Uncovered(st.cell))
    case Finished(_) => false
    case Crashed(_) => false
  }

  lemma ReadKeepsKind(st: Protocol.State, op: Protocol.Op)
    requires Protocol.AfterRead(st, op).Ready? && !CanceledOnly(Protocol.AfterRead(st, op).draft.pending)
    ensures Restating(op)
  {
    if op.Update? && st.cell.snapshot.Some? {
      var base, version := st.cell.snapshot.value.task, st.cell.snapshot.value.version;
      DraftRecords(base, version, op.edits);
      var d := EditAll(NewDraft(base, version), op.edits);
      var i :| 0 <= i < |d.pending| && d.pending[i].StatusChanged? && !d.pending[i].status.state.Canceled?;
      assert RecordedAs(base, op.edits[i], d.pending[i]);
    }
  }

  lemma ReadOrCrashKeepsKind(st: Protocol.State, step: Protocol.Action, w: nat)
    requires Protocol.Inv(st) && (step.Read? || step.Crash?)
    requires w in Protocol.Step(st, step).writers && MayRestate(Protocol.Step(st, step), w)
    ensures w in st.writers && MayRestate(st, w)
  {
    hide Protocol.Inv, CanceledOnly, Restating, Protocol.Uncovered;
    if step.Read? && w == step.w && st.writers[w].Begun? {
      if Protocol.AfterRead(st, st.writers[w].op).Ready? {
        ReadKeepsKind(st, st.writers[w].op);
      }
    }
  }

  /** An accepted append leaves exactly its own batch uncovered, and its writer alone between append and save. */
  lemma AcceptedAppend(st: Protocol.State, v: nat)
    requires Protocol.Inv(st) && v in st.writers && st.writers[v].Ready?
    requires Protocol.Step(st, Protocol.Append(v)).writers[v].Saving?
    ensures SnapshotVersion(st.cell) == |st.cell.log|
    ensures Protocol.Uncovered(Protocol.Step(st, Protocol.Append(v)).cell) == st.writers[v].draft.pending
    ensures forall w :: w in st.writers ==> !Protocol.Dirty(st.writers[w])
  {
    hide Protocol.CellInv, Protocol.GoodDraft;
    Protocol.AppendAccepted(st, v);
    var tail := Protocol.Uncovered(Protocol.Step(st, Protocol.Append(v)).cell);
    assert tail == (st.cell.log + st.writers[v].draft.pending)[|st.cell.log|..];
  }

  lemma AppendEnds(st: Protocol.State, v: nat)
    requires v in st.writers && st.writers[v].Ready?
    ensures var st' := Protocol.Step(st, Protocol.Append(v));
            && v in st'.writers && (st'.writers[v].Saving? || st'.writers[v].Finished?)
            && (st'.writers[v].Finished? ==> st'.cell == st.cell)
  {
  }

  lemma AppendKeepsKind(st: Protocol.State, v: nat, w: nat)
    requires Protocol.Inv(st) && v in st.writers && st.writers[v].Ready?
    requires w in Protocol.Step(st, Protocol.Append(v)).writers
    requires MayRestate(Protocol.Step(st, Protocol.Append(v)), w)
    ensures w in st.writers && MayRestate(st, w)
  {
    hide Protocol.Inv, Protocol.Step, Protocol.Uncovered, CanceledOnly, Restating;
    AppendEnds(st, v);
    Protocol.StepTouchesOneWriter(st, Protocol.Append(v));
    if Protocol.Step(st, Protocol.Append(v)).writers[v].Saving? {
      AcceptedAppend(st, v);
    }
  }

  lemma IdleStep(st: Protocol.State, step: Protocol.Action)
    requires step.Append? || step.Save?
    requires step.w !in st.writers || !(if step.Append? then st.writers[step.w].Ready? else st.writers[step.w].Saving?)
    ensures Protocol.Step(st, step) == st
  {
  }

  lemma SaveKeepsKind(st: Protocol.State, v: nat, w: nat)
    requires Protocol.Inv(st) && Protocol.Inv(Protocol.Step(st, Protocol.Save(v)))
    requires w in Protocol.Step(st, Protocol.Save(v)).writers
    requires MayRestate(Protocol.Step(st, Protocol.Save(v)), w)
    ensures w in st.writers && MayRestate(st, w)
  {
    hide Protocol.Inv, Protocol.Step, Restating;
    if v in st.writers && st.writers[v].Saving? {
      Protocol.SaveSucceeds(st, v);
      Protocol.StepGrows(st, Protocol.Save(v));
      Protocol.StepTouchesOneWriter(st, Protocol.Save(v));
      assert Protocol.Uncovered(Protocol.Step(st, Protocol.Save(v)).cell) == [];
    } else {
      IdleStep(st, Protocol.Save(v));
    }
  }

  /** No storage step turns a harmless writer into a restating one. */
  lemma StorageStepKeepsKind(st: Protocol.State, step: Protocol.Action, w: nat)
    requires Protocol.Inv(st) && !step.Begin?
    requires Protocol.Inv(Protocol.Step(st, step))
    requires w in Protocol.Step(st, step).writers && MayRestate(Protocol.Step(st, step), w)
    ensures w in st.writers && MayRestate(st, w)
  {
    match step {
      case Append(v) =>
        Protocol.StepGrows(st, step);
        if v in st.writers && st.writers[v].Ready? {
          AppendKeepsKind(st, v, w);
        }
      case Save(v) => SaveKeepsKind(st, v, w);
      case _ => ReadOrCrashKeepsKind(st, step, w);
    }
  }

  // --------------------------------------------------------------------------- invariant

  /**
    The lock holder is the only worker past the lock, and every status other than canceled is on its way by an active
    worker.
   */
  ghost predicate Inv(s: Sys) {
    && Protocol.Inv(s.store)
    && (forall j: nat :: HoldsLock(s, j) ==> s.holder == Some(j))
    && (forall w :: w in s.owner ==> w in s.store.writers)
    && (forall j :: j in s.executed ==> j in s.workers)
    && (forall w :: w in s.store.writers && MayRestate(s.store, w) ==> w in s.owner && IsActive(s, s.owner[w]))
  }

  lemma StoppedIsHarmless(st: Protocol.State, w: nat)
    requires w in st.writers && MayRestate(st, w)
    ensures !Protocol.Stopped(st.writers[w])
  {
  }

  lemma StoreInv(s: Sys)
    requires Inv(s)
    ensures Protocol.Inv(s.store)
  {
  }

  lemma NewWriter(s: Sys, w: nat, op: Protocol.Op)
    requires Inv(s)
    ensures Protocol.Inv(BeginWriter(s, w, op))
    ensures w !in s.store.writers && Protocol.WellFormed(op) ==>
              BeginWriter(s, w, op) == s.store.(writers := s.store.writers[w := Protocol.Begun(op)])
    ensures w in s.store.writers || !Protocol.WellFormed(op) ==> BeginWriter(s, w, op) == s.store
  {
    Protocol.StepKeepsInv(s.store, Protocol.Begin(w, op));
  }

  /** The store's steps are the protocol's. */
  lemma StorageStep(s: Sys, step: Protocol.Action)
    requires !step.Begin?
    ensures Step(s, Storage(step)) == s.(store := Protocol.Step(s.store, step))
  {
    hide Protocol.Step;
  }

  /** Steps of workers and cancellers that write nothing. */
  predicate IsQuiet(a: Action) {
    !a.WriteStatus? && !a.CancelWrite? && !a.WriteContent? && !a.Storage?
  }

  lemma QuietStepKeepsLock(s: Sys, a: Action, j: nat)
    requires IsQuiet(a) && (forall k: nat :: HoldsLock(s, k) ==> s.holder == Some(k))
    ensures Step(s, a).store == s.store && Step(s, a).owner == s.owner
    ensures HoldsLock(Step(s, a), j) ==> Step(s, a).holder == Some(j)
  {
    hide OwnWritersStopped, ReadsTerminal;
    assert HoldsLock(s, j) ==> s.holder == Some(j);
    if a.Release? && HoldsLock(s, a.j) {
      assert s.holder == Some(a.j);
    }
  }

  /** A worker stops being active only by releasing, once its writers have stopped. */
  lemma QuietStepKeepsActive(s: Sys, a: Action, w: nat)
    requires IsQuiet(a) && w in s.store.writers && !Protocol.Stopped(s.store.writers[w])
    requires w in s.owner && IsActive(s, s.owner[w])
    ensures IsActive(Step(s, a), s.owner[w])
  {
    hide ReadsTerminal;
  }

  lemma QuietStepKeepsInv(s: Sys, a: Action)
    requires Inv(s) && IsQuiet(a)
    ensures Inv(Step(s, a))
  {
    hide Protocol.Inv, MayRestate, Step, HoldsLock, IsActive;
    var s' := Step(s, a);
    QuietStepKeepsLock(s, a, 0);
    ExecutedAreWorkers(s, a);
    forall j: nat
      ensures HoldsLock(s', j) ==> s'.holder == Some(j)
    {
      QuietStepKeepsLock(s, a, j);
    }
    forall w | w in s.store.writers && MayRestate(s.store, w)
      ensures w in s'.owner && IsActive(s', s'.owner[w])
    {
      StoppedIsHarmless(s.store, w);
      QuietStepKeepsActive(s, a, w);
    }
  }

  lemma ExecutedAreWorkers(s: Sys, a: Action)
    requires forall j :: j in s.executed ==> j in s.workers
    ensures forall j :: j in Step(s, a).executed ==> j in Step(s, a).workers
  {
    hide ReadsTerminal, OwnWritersStopped, BeginWriter;
  }

  /** A newly begun writer, which an active worker owns if it carries a status other than canceled. */
  lemma BegunWriterKeepsInv(s: Sys, s': Sys, w: nat, op: Protocol.Op)
    requires Inv(s) && w !in s.store.writers && Protocol.Inv(s'.store)
    requires s'.store == s.store.(writers := s.store.writers[w := Protocol.Begun(op)])
    requires s'.workers == s.workers && s'.holder == s.holder && s'.executed == s.executed
    requires s'.owner == s.owner || (exists j: nat :: s'.owner == s.owner[w := j] && IsActive(s, j))
    requires Restating(op) ==> s'.owner != s.owner
    ensures Inv(s')
  {
    hide Protocol.Inv, Protocol.Step;
    forall v | v in s'.store.writers && MayRestate(s'.store, v)
      ensures v in s'.owner && IsActive(s', s'.owner[v])
    {
      if v != w {
        assert v in s.store.writers && MayRestate(s.store, v);
      }
    }
  }

  lemma WriteStepKeepsInv(s: Sys, a: Action)
    requires Inv(s) && (a.WriteStatus? || a.CancelWrite? || a.WriteContent?)
    ensures Inv(Step(s, a))
  {
    hide Protocol.Inv, Protocol.Step, MayRestate;
    var s' := Step(s, a);
    var op := if a.WriteContent? then a.op else Protocol.Update([SetStatus(a.status)]);
    NewWriter(s, a.w, op);
    if s'.store != s.store {
      assert a.WriteStatus? ==> s'.owner == s.owner[a.w := a.j];
      BegunWriterKeepsInv(s, s', a.w, op);
    }
  }

  lemma StorageStepKeepsInv(s: Sys, step: Protocol.Action)
    requires Inv(s) && !step.Begin?
    ensures Inv(Step(s, Storage(step)))
  {
    hide Protocol.Inv, Protocol.Step, MayRestate;
    Protocol.StepTouchesOneWriter(s.store, step);
    var s' := Step(s, Storage(step));
    Protocol.StepKeepsInv(s.store, step);
    forall w | w in s'.store.writers && MayRestate(s'.store, w)
      ensures w in s'.owner && IsActive(s', s'.owner[w])
    {
      StorageStepKeepsKind(s.store, step, w);
    }
  }

  lemma StepKeepsInv(s: Sys, a: Action)
    requires Inv(s)
    ensures Inv(Step(s, a))
  {
    hide Inv, Protocol.Inv;
    match a {
      case Storage(step) =>
        if !step.Begin? {
          StorageStepKeepsInv(s, step);
        }
      case WriteStatus(_, _, _) => WriteStepKeepsInv(s, a);
      case CancelWrite(_, _, _) => WriteStepKeepsInv(s, a);
      case WriteContent(_, _) => WriteStepKeepsInv(s, a);
      case _ => QuietStepKeepsInv(s, a);
    }
  }

  lemma {:induction false} RunKeepsInv(s: Sys, acts: seq<Action>)
    requires Init(s) || Inv(s)
    ensures Inv(Exec(s, acts))
  {
    if acts == [] {
    } else {
      RunKeepsInv(s, acts[..|acts| - 1]);
      StepKeepsInv(Exec(s, acts[..|acts| - 1]), acts[|acts| - 1]);
    }
  }

  lemma {:induction false} ExecConcat(s: Sys, a: seq<Action>, b: seq<Action>)
    ensures Exec(s, a + b) == Exec(Exec(s, a), b)
  {
    hide Step, Exec;
    if b == [] {
      assert a + b == a;
      ExecNothing(Exec(s, a));
    } else {
      var n := |b| - 1;
      ExecConcat(s, a, b[..n]);
      assert (a + b)[..|a + b| - 1] == a + b[..n] && (a + b)[|a + b| - 1] == b[n];
      ExecLast(s, a + b);
      ExecLast(Exec(s, a), b);
    }
  }

  lemma ExecNothing(s: Sys)
    ensures Exec(s, []) == s
  {
  }

  lemma ExecLast(s: Sys, acts: seq<Action>)
    requires acts != []
    ensures Exec(s, acts) == Step(Exec(s, acts[..|acts| - 1]), acts[|acts| - 1])
  {
  }

  // -------------------------------------------------------------------- guarded and settled tasks

  ghost predicate LogIsTerminal(log: seq<Event>) {
    Replay(log).Some? && Replay(log).value.status.state.IsTerminal()
  }

  /** What one cell reads as the later one does too, or it reads as canceled. */
  ghost predicate StatusKept(earlier: Cell, later: Cell) {
    earlier.snapshot.Some? ==>
      && later.snapshot.Some?
      && (later.snapshot.value.task.status == earlier.snapshot.value.task.status
            || later.snapshot.value.task.status.state.Canceled?)
  }

  /**
    Nothing on its way can give the task a status other than canceled, except worker `me` (if any), who holds the lock,
    through its writer `mine` (if any). Without a worker it is the terminal status that keeps new ones away.
   */
  ghost predicate Guarded(s: Sys, me: Option<nat>, mine: Option<nat>) {
    && Inv(s)
    && (forall j: nat :: IsActive(s, j) ==> me == Some(j))
    && (if me.Some? then HoldsLock(s, me.value) else ReadsTerminal(s.store.cell))
    && (forall w: nat :: w in s.store.writers && MayRestate(s.store, w) ==> mine == Some(w))
  }

  /** The task reads as terminal, and nothing on its way can change that. */
  ghost predicate Settled(s: Sys) {
    Guarded(s, None, None)
  }

  /** The log says what the snapshot says: no non-terminal status waits between them. */
  ghost predicate LogAgrees(c: Cell) {
    TerminalOnly(Protocol.Uncovered(c))
  }

  /** A step that is neither worker `me`'s nor its writer `mine`'s. */
  predicate Outside(a: Action, me: Option<nat>, mine: Option<nat>) {
    match a
    case Enter(_) => true
    case Acquire(j) => me != Some(j)
    case GiveUp(j) => me != Some(j)
    case Check(j) => me != Some(j)
    case Execute(j) => me != Some(j)
    case WriteStatus(j, _, _) => me != Some(j)
    case Release(j) => me != Some(j)
    case CancelCheck(_) => true
    case CancelWrite(_, _, _) => true
    case WriteContent(_, _) => true
    case Storage(step) => mine != Some(step.w)
  }

  lemma {:induction false} TerminalEventsKeepTerminal(t: Option<Task>, events: seq<Event>)
    requires t.Some? && t.value.status.state.IsTerminal()
    requires TerminalOnly(events) && forall i :: 0 <= i < |events| ==> !events[i].TaskCreated?
    ensures ReplayFrom(t, events).Some? && ReplayFrom(t, events).value.status.state.IsTerminal()
  {
    if events == [] {
    } else {
      TerminalEventsKeepTerminal(t, events[..|events| - 1]);
    }
  }

  lemma {:induction false} CanceledEventsKeepStatus(t: Option<Task>, events: seq<Event>)
    requires t.Some?
    requires CanceledOnly(events) && forall i :: 0 <= i < |events| ==> !events[i].TaskCreated?
    ensures ReplayFrom(t, events).Some?
    ensures var status := ReplayFrom(t, events).value.status;
            status == t.value.status || status.state.Canceled?
  {
    if events == [] {
    } else {
      CanceledEventsKeepStatus(t, events[..|events| - 1]);
    }
  }

  /** Over a terminal snapshot, the log is terminal exactly when no non-terminal status is uncovered. */
  lemma LogIsTerminalIff(st: Protocol.State)
    requires Protocol.CellInv(st) && ReadsTerminal(st.cell)
    ensures LogIsTerminal(st.cell.log) <==> LogAgrees(st.cell)
  {
    hide SameTask, Protocol.GoodLog, Protocol.StatusAlone, Protocol.StatusFree, TerminalOnly, ReplayFrom;
    var c, v, tail := st.cell, SnapshotVersion(st.cell), Protocol.Uncovered(st.cell);
    Protocol.SnapshotReads(st);
    TailCreatesNothing(c.log, v);
    ReplayConcat(None, c.log[..v], tail);
    assert c.log[..v] + tail == c.log;
    if LogAgrees(c) {
      TerminalEventsKeepTerminal(Replay(c.log[..v]), tail);
    } else {
      ReopeningTail(Replay(c.log[..v]), tail);
    }
  }

  lemma TailCreatesNothing(log: seq<Event>, v: nat)
    requires Protocol.GoodLog(log) && 0 < v <= |log|
    ensures forall i :: 0 <= i < |log[v..]| ==> !log[v..][i].TaskCreated?
  {
    forall i | 0 <= i < |log[v..]|
      ensures !log[v..][i].TaskCreated?
    {
      assert log[v..][i] == log[v + i];
    }
  }

  lemma ReopeningTail(t: Option<Task>, tail: seq<Event>)
    requires t.Some? && Protocol.StatusAlone(tail) && !TerminalOnly(tail)
    ensures ReplayFrom(t, tail).Some? && !ReplayFrom(t, tail).value.status.state.IsTerminal()
  {
    assert !Protocol.StatusFree(tail);
    assert tail[..0] == [] && ReplayFrom(t, tail[..0]) == t;
  }

  lemma CanceledIsTerminal(events: seq<Event>)
    requires CanceledOnly(events)
    ensures TerminalOnly(events)
  {
  }

  /** Where the snapshot is behind the log, a writer stands between append and save, at work or crashed. */
  lemma DisagreementHasWriter(st: Protocol.State) returns (w: nat)
    requires Protocol.Inv(st) && !LogAgrees(st.cell)
    ensures w in st.writers && Protocol.Dirty(st.writers[w])
    ensures st.writers[w].Saving? ==> MayRestate(st, w)
  {
    assert Protocol.Uncovered(st.cell) != [];
    w :| w in st.writers && Protocol.Dirty(st.writers[w]);
    if CanceledOnly(Protocol.Uncovered(st.cell)) {
      CanceledIsTerminal(Protocol.Uncovered(st.cell));
    }
  }

  /** An append of a batch that carries at most cancellations. */
  lemma HarmlessAppend(st: Protocol.State, w: nat)
    requires Protocol.Inv(st) && (w in st.writers ==> !MayRestate(st, w))
    ensures var c := Protocol.Step(st, Protocol.Append(w)).cell;
            StatusKept(st.cell, c) && (LogAgrees(c) <==> LogAgrees(st.cell))
  {
    hide Protocol.Inv, Protocol.Step, TerminalOnly, CanceledOnly;
    Protocol.StepGrows(st, Protocol.Append(w));
    if w in st.writers && st.writers[w].Ready? {
      AppendEnds(st, w);
      if Protocol.Step(st, Protocol.Append(w)).writers[w].Saving? {
        AcceptedAppend(st, w);
        CanceledIsTerminal(st.writers[w].draft.pending);
        assert Protocol.Uncovered(st.cell) == [];
        NothingToDisagree();
      }
    } else {
      IdleStep(st, Protocol.Append(w));
    }
  }

  lemma NothingToDisagree()
    ensures TerminalOnly([])
  {
  }

  /** A save of a batch that carries at most cancellations. */
  lemma HarmlessSave(st: Protocol.State, w: nat)
    requires Protocol.Inv(st) && (w in st.writers ==> !MayRestate(st, w))
    ensures var c := Protocol.Step(st, Protocol.Save(w)).cell;
            StatusKept(st.cell, c) && (LogAgrees(c) <==> LogAgrees(st.cell))
  {
    hide Protocol.Inv, Protocol.Step, Protocol.Uncovered, TerminalOnly, CanceledOnly, StatusKept;
    if w in st.writers && st.writers[w].Saving? {
      var st' := Protocol.Step(st, Protocol.Save(w));
      Protocol.SaveSucceeds(st, w);
      Protocol.StepGrows(st, Protocol.Save(w));
      SaveReads(st');
      CanceledIsTerminal(Protocol.Uncovered(st.cell));
      LogKeepsStatus(st, st'.cell);
    } else {
      IdleStep(st, Protocol.Save(w));
      KeptItself(st.cell);
    }
  }

  lemma KeptItself(c: Cell)
    ensures StatusKept(c, c)
  {
  }

  lemma KeptOn(a: Cell, b: Cell, c: Cell)
    requires StatusKept(a, b) && StatusKept(b, c)
    ensures StatusKept(a, c)
  {
  }

  /** A snapshot that catches up with a log whose uncovered part holds at most cancellations. */
  lemma LogKeepsStatus(st: Protocol.State, c: Cell)
    requires Protocol.Inv(st) && CanceledOnly(Protocol.Uncovered(st.cell))
    requires c.snapshot.Some? && Replay(st.cell.log).Some?
    requires Replay(st.cell.log).value.status == c.snapshot.value.task.status
    ensures StatusKept(st.cell, c)
  {
    hide SameTask, Protocol.GoodLog, Protocol.StatusAlone, CanceledOnly, ReplayFrom, Protocol.CanceledIn;
    if st.cell.snapshot.Some? {
      var log, v, tail := st.cell.log, SnapshotVersion(st.cell), Protocol.Uncovered(st.cell);
      Protocol.SnapshotReads(st);
      TailCreatesNothing(log, v);
      ReplayConcat(None, log[..v], tail);
      assert log[..v] + tail == log;
      CanceledEventsKeepStatus(Replay(log[..v]), tail);
    }
  }

  /** With no save outstanding, the snapshot's status is the log's. */
  lemma SaveReads(st: Protocol.State)
    requires Protocol.Inv(st) && st.cell.snapshot.Some? && SnapshotVersion(st.cell) == |st.cell.log|
    ensures Replay(st.cell.log).Some? && Replay(st.cell.log).value.status == st.cell.snapshot.value.task.status
    ensures LogAgrees(st.cell)
  {
    Protocol.SnapshotReads(st);
    assert st.cell.log[..|st.cell.log|] == st.cell.log;
  }

  lemma CellUnchanged(st: Protocol.State, step: Protocol.Action)
    requires !step.Append? && !step.Save?
    ensures Protocol.Step(st, step).cell == st.cell
  {
  }

  lemma HarmlessStorage(st: Protocol.State, step: Protocol.Action)
    requires Protocol.Inv(st) && !step.Begin? && (step.w in st.writers ==> !MayRestate(st, step.w))
    ensures var c := Protocol.Step(st, step).cell;
            StatusKept(st.cell, c) && (LogAgrees(c) <==> LogAgrees(st.cell))
  {
    hide Protocol.Inv, LogAgrees, MayRestate, Protocol.Step, StatusKept;
    match step {
      case Append(w) => HarmlessAppend(st, w);
      case Save(w) => HarmlessSave(st, w);
      case _ =>
        CellUnchanged(st, step);
        KeptItself(st.cell);
    }
  }

  lemma KeptTerminal(c: Cell, c': Cell)
    requires StatusKept(c, c') && ReadsTerminal(c)
    ensures ReadsTerminal(c')
  {
  }

  lemma GuardedStorageStep(s: Sys, step: Protocol.Action, me: Option<nat>, mine: Option<nat>)
    requires Guarded(s, me, mine) && mine != Some(step.w) && !step.Begin?
    ensures Guarded(Step(s, Storage(step)), me, mine)
    ensures StatusKept(s.store.cell, Step(s, Storage(step)).store.cell)
    ensures LogAgrees(Step(s, Storage(step)).store.cell) <==> LogAgrees(s.store.cell)
  {
    hide Inv, LogAgrees, MayRestate, ReadsTerminal, Step, Protocol.Step, StatusKept;
    var s' := Step(s, Storage(step));
    StorageStep(s, step);
    StepKeepsInv(s, Storage(step));
    StoreInv(s);
    StoreInv(s');
    HarmlessStorage(s.store, step);
    if me.None? {
      KeptTerminal(s.store.cell, s'.store.cell);
    }
    forall w: nat | w in s'.store.writers && MayRestate(s'.store, w)
      ensures mine == Some(w)
    {
      StorageStepKeepsKind(s.store, step, w);
    }
  }

  /** A new writer that carries no status other than canceled leaves a guarded task guarded. */
  lemma GuardedBegin(s: Sys, s': Sys, w: nat, op: Protocol.Op, me: Option<nat>, mine: Option<nat>)
    requires Guarded(s, me, mine) && Inv(s') && w !in s.store.writers && !Restating(op)
    requires s'.store == s.store.(writers := s.store.writers[w := Protocol.Begun(op)]) && s'.workers == s.workers
    ensures Guarded(s', me, mine)
  {
    hide Inv, Restating;
    forall v: nat | v in s'.store.writers && MayRestate(s'.store, v)
      ensures mine == Some(v)
    {
      assert v != w && MayRestate(s.store, v);
    }
  }

  lemma GuardedWriteStep(s: Sys, a: Action, me: Option<nat>, mine: Option<nat>)
    requires Guarded(s, me, mine) && Outside(a, me, mine) && (a.CancelWrite? || a.WriteContent? || a.WriteStatus?)
    ensures Guarded(Step(s, a), me, mine)
    ensures Step(s, a).store.cell == s.store.cell && Step(s, a).executed == s.executed
  {
    hide Protocol.Inv, Protocol.Step, MayRestate, ReadsTerminal;
    StepKeepsInv(s, a);
    var s' := Step(s, a);
    var op := if a.WriteContent? then a.op else Protocol.Update([SetStatus(a.status)]);
    NewWriter(s, a.w, op);
    if s'.store != s.store {
      assert !a.WriteStatus? && !Restating(op);
      GuardedBegin(s, s', a.w, op, me, mine);
    }
  }

  lemma GuardedQuietStep(s: Sys, a: Action, me: Option<nat>, mine: Option<nat>)
    requires Guarded(s, me, mine) && Outside(a, me, mine)
    requires IsQuiet(a)
    ensures Guarded(Step(s, a), me, mine) && Step(s, a).executed == s.executed && Step(s, a).store == s.store
  {
    hide Protocol.Inv, Protocol.Step, MayRestate;
    QuietStepKeepsInv(s, a);
    assert Step(s, a).store == s.store;
    if me.Some? {
      assert s.holder == me;
    }
  }

  /** Nobody else changes what a guarded task reads as, except to canceled. */
  lemma GuardedStep(s: Sys, a: Action, me: Option<nat>, mine: Option<nat>)
    requires Guarded(s, me, mine) && Outside(a, me, mine)
    ensures Guarded(Step(s, a), me, mine)
    ensures StatusKept(s.store.cell, Step(s, a).store.cell)
    ensures Step(s, a).executed == s.executed
    ensures LogAgrees(Step(s, a).store.cell) <==> LogAgrees(s.store.cell)
  {
    hide Protocol.Inv, Guarded, Protocol.Step, LogAgrees, StatusKept;
    KeptItself(s.store.cell);
    match a {
      case Storage(step) =>
        if !step.Begin? {
          GuardedStorageStep(s, step, me, mine);
        }
      case WriteStatus(_, _, _) => GuardedWriteStep(s, a, me, mine);
      case CancelWrite(_, _, _) => GuardedWriteStep(s, a, me, mine);
      case WriteContent(_, _) => GuardedWriteStep(s, a, me, mine);
      case _ => GuardedQuietStep(s, a, me, mine);
    }
  }

  /**
    As long as a worker holds the lock and does not write, or once a task is settled, the task keeps its status or
    becomes canceled through any steps of the others; and whether the log agrees never changes.
   */
  lemma {:induction false} GuardedForever(s: Sys, acts: seq<Action>, me: Option<nat>, mine: Option<nat>)
    requires Guarded(s, me, mine)
    requires forall i :: 0 <= i < |acts| ==> Outside(acts[i], me, mine)
    ensures Guarded(Exec(s, acts), me, mine)
    ensures StatusKept(s.store.cell, Exec(s, acts).store.cell)
    ensures Exec(s, acts).executed == s.executed
    ensures LogAgrees(Exec(s, acts).store.cell) <==> LogAgrees(s.store.cell)
  {
    hide Guarded, Step, Outside, LogAgrees, StatusKept;
    if acts == [] {
      KeptItself(s.store.cell);
    } else {
      var n := |acts| - 1;
      var t := Exec(s, acts[..n]);
      GuardedForever(s, acts[..n], me, mine);
      GuardedStep(t, acts[n], me, mine);
      KeptOn(s.store.cell, t.store.cell, Exec(s, acts).store.cell);
    }
  }

  lemma OutsideNobody(acts: seq<Action>)
    ensures forall i :: 0 <= i < |acts| ==> Outside(acts[i], None, None)
  {
  }

  /** Reading a terminal task while its lock is free shows a settled task, whatever is still being saved. */
  lemma TerminalReadSettles(s: Sys)
    requires Inv(s) && ReadsTerminal(s.store.cell) && s.holder.None?
    ensures Settled(s)
  {
    hide Protocol.Inv, MayRestate;
    assert forall j: nat :: IsActive(s, j) ==> HoldsLock(s, j);
  }

  /** In a settled task only a crash between append and save can make the log disagree with what is read. */
  lemma AgreesUnlessCrashed(s: Sys)
    requires Settled(s)
    requires forall w :: w in s.store.writers ==> s.store.writers[w] != Protocol.Crashed(true)
    ensures LogAgrees(s.store.cell)
  {
    if !LogAgrees(s.store.cell) {
      var w := DisagreementHasWriter(s.store);
    }
  }

  /** What a settled task is worth, through whatever follows. */
  lemma SettledForever(s: Sys, later: seq<Action>)
    requires Settled(s)
    ensures var s' := Exec(s, later);
            && Settled(s') && ReadsTerminal(s'.store.cell)
            && StatusKept(s.store.cell, s'.store.cell)
            && s'.executed == s.executed
            && (LogIsTerminal(s'.store.cell.log) <==> LogAgrees(s.store.cell))
  {
    hide Exec, Outside, LogAgrees, LogIsTerminal, StatusKept, MayRestate;
    OutsideNobody(later);
    GuardedForever(s, later, None, None);
    StoreInv(Exec(s, later));
    LogIsTerminalIff(Exec(s, later).store);
  }

  /**
    Terminal is final: if the task reads as terminal at a moment when its lock is free, it keeps that very status or
    becomes canceled, and the agent is never called for it again, whatever jobs, cancellations, messages and crashes
    follow. The log means a terminal task ever after if and only if no non-terminal status was left uncovered by then,
    which takes a writer that crashed between its append and its save.
   */
  lemma TerminalIsForever(s0: Sys, acts: seq<Action>, later: seq<Action>)
    requires Init(s0)
    requires Exec(s0, acts).holder.None? && ReadsTerminal(Exec(s0, acts).store.cell)
    ensures var s, s' := Exec(s0, acts), Exec(s0, acts + later);
            && ReadsTerminal(s'.store.cell)
            && StatusKept(s.store.cell, s'.store.cell)
            && s'.executed == s.executed
            && (LogIsTerminal(s'.store.cell.log) <==> LogAgrees(s.store.cell))
            && ((forall w :: w in s.store.writers ==> s.store.writers[w] != Protocol.Crashed(true)) ==>
                  LogAgrees(s.store.cell))
  {
    hide Exec, LogIsTerminal, LogAgrees, Settled, StatusKept;
    var s := Exec(s0, acts);
    RunKeepsInv(s0, acts);
    ExecConcat(s0, acts, later);
    TerminalReadSettles(s);
    SettledForever(s, later);
    if forall w :: w in s.store.writers ==> s.store.writers[w] != Protocol.Crashed(true) {
      AgreesUnlessCrashed(s);
    }
  }

  /** At most one worker is past the lock at any time. */
  lemma OneWorkerAtATime(s0: Sys, acts: seq<Action>, j: nat, k: nat)
    requires Init(s0)
    requires HoldsLock(Exec(s0, acts), j) && HoldsLock(Exec(s0, acts), k)
    ensures j == k
  {
    RunKeepsInv(s0, acts);
  }

  /** A cancellation is written exactly by those who found the task there and not at its end. */
  lemma CancelGate(s: Sys, c: nat, w: nat, status: TaskStatus)
    requires c !in s.cancellers && w !in s.store.writers && status.state.Canceled?
    ensures w in Step(Step(s, CancelCheck(c)), CancelWrite(c, w, status)).store.writers <==>
            && s.store.cell.snapshot.Some?
            && s.store.cell.snapshot.value.task.status.state !in {Completed, Failed, Canceled, Rejected}
    ensures Step(s, CancelCheck(c)).store == s.store
  {
    if s.store.cell.snapshot.Some? {
      TaskStates(s.store.cell.snapshot.value.task.status.state);
    }
  }
}
