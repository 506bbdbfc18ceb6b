/**
  Processing one job, statement by statement, while the rest of the system runs: between any two storage calls the
  environment may do any number of steps of its own (other jobs, cancellations, messages, crashes).
 */
module JobProcessing {
  import opened A2A
  import opened EventLog
  import opened FileStores
  import opened JobSystem
  import Protocol = WriterProtocol

  // ------------------------------------------------------- what others cannot do to a lock holder

  /** Every writer of worker `me` other than `mine` has come to its end. */
  ghost predicate MineStopped(s: Sys, me: nat, mine: Option<nat>) {
    forall w: nat :: w in s.owner && s.owner[w] == me && mine != Some(w) ==>
      w in s.store.writers && Protocol.Stopped(s.store.writers[w])
  }

  /** The worker is where it was, and the store has only moved on. */
  ghost predicate WorkerKept(s: Sys, s': Sys, me: nat) {
    && me in s.workers && me in s'.workers && s'.workers[me] == s.workers[me]
    && (me in s'.executed <==> me in s.executed)
    && s'.store.contextID == s.store.contextID && s'.store.taskID == s.store.taskID
    && s.store.cell.log <= s'.store.cell.log
    && (s.store.cell.snapshot.Some? ==> s'.store.cell.snapshot.Some?)
  }

  /**
    Nothing the environment does touches the worker's place, its writers, or what is already in the log; and while the
    worker holds the lock, what the task reads as changes only to canceled.
   */
  ghost predicate Untouched(s: Sys, s': Sys, me: nat, mine: Option<nat>) {
    && Inv(s')
    && WorkerKept(s, s', me)
    && (mine.Some? && mine.value in s.store.writers ==>
          mine.value in s'.store.writers && s'.store.writers[mine.value] == s.store.writers[mine.value])
    && (mine.Some? && mine.value in s.owner ==> mine.value in s'.owner && s'.owner[mine.value] == s.owner[mine.value])
    && (MineStopped(s, me, mine) ==> MineStopped(s', me, mine))
    && (HoldsLock(s, me) && MineStopped(s, me, mine) ==> StatusKept(s.store.cell, s'.store.cell))
  }

  lemma StorageKeepsWorker(s: Sys, step: Protocol.Action, me: nat)
    requires Inv(s) && me in s.workers
    ensures WorkerKept(s, Step(s, Storage(step)), me)
  {
    hide Inv, Protocol.Inv, Protocol.Step;
    StoreInv(s);
    Protocol.StepGrows(s.store, step);
    Protocol.StepTouchesOneWriter(s.store, step);
  }

  lemma WriteKeepsWorker(s: Sys, a: Action, me: nat)
    requires Inv(s) && me in s.workers && (a.WriteStatus? || a.CancelWrite? || a.WriteContent?)
    ensures WorkerKept(s, Step(s, a), me)
  {
    hide Inv, Protocol.Inv, Protocol.Step, MayRestate;
    NewWriter(s, a.w, if a.WriteContent? then a.op else Protocol.Update([SetStatus(a.status)]));
  }

  lemma OutsideStepWorker(s: Sys, a: Action, me: nat, mine: Option<nat>)
    requires Inv(s) && me in s.workers && Outside(a, Some(me), mine)
    ensures WorkerKept(s, Step(s, a), me)
  {
    hide Inv, Protocol.Step, ReadsTerminal, OwnWritersStopped;
    match a {
      case Storage(step) => StorageKeepsWorker(s, step, me);
      case WriteStatus(_, _, _) => WriteKeepsWorker(s, a, me);
      case CancelWrite(_, _, _) => WriteKeepsWorker(s, a, me);
      case WriteContent(_, _) => WriteKeepsWorker(s, a, me);
      case _ =>
    }
  }

  /** The writers a step leaves alone: all that are at their end, and `mine`. */
  ghost predicate WritersKept(s: Sys, s': Sys, mine: Option<nat>) {
    forall w: nat :: w in s.store.writers && (Protocol.Stopped(s.store.writers[w]) || mine == Some(w)) ==>
      w in s'.store.writers && s'.store.writers[w] == s.store.writers[w]
  }

  lemma OutsideStepWriters(s: Sys, a: Action, me: nat, mine: Option<nat>)
    requires Outside(a, Some(me), mine) && (mine.Some? ==> mine.value in s.store.writers)
    ensures WritersKept(s, Step(s, a), mine)
  {
    match a {
      case Storage(step) => Protocol.StepTouchesOneWriter(s.store, step);
      case WriteStatus(_, w, st) =>
        Protocol.StepTouchesOneWriter(s.store, Protocol.Begin(w, Protocol.Update([SetStatus(st)])));
      case CancelWrite(_, w, st) =>
        Protocol.StepTouchesOneWriter(s.store, Protocol.Begin(w, Protocol.Update([SetStatus(st)])));
      case WriteContent(w, op) =>
        if w in s.store.writers {
          assert Step(s, a).store.writers == s.store.writers;
        } else {
          Protocol.StepTouchesOneWriter(s.store, Protocol.Begin(w, op));
        }
      case _ =>
    }
  }

  lemma OutsideStepOwners(s: Sys, a: Action, me: nat, mine: Option<nat>)
    requires Inv(s) && Outside(a, Some(me), mine)
    ensures forall w: nat :: w in s.owner ==> w in Step(s, a).owner && Step(s, a).owner[w] == s.owner[w]
    ensures forall w: nat :: w in Step(s, a).owner && w !in s.owner ==> Step(s, a).owner[w] != me
  {
    hide Protocol.Inv, Protocol.Step;
  }

  /** While a worker holds the lock, only its own running writer could give the task a status other than canceled. */
  lemma HolderGuards(s: Sys, me: nat, mine: Option<nat>)
    requires Inv(s) && HoldsLock(s, me) && MineStopped(s, me, mine)
    ensures Guarded(s, Some(me), mine)
  {
    hide Protocol.Inv, MayRestate;
    forall j: nat | IsActive(s, j)
      ensures j == me
    {
      assert HoldsLock(s, j);
    }
    forall w: nat | w in s.store.writers && MayRestate(s.store, w)
      ensures mine == Some(w)
    {
      StoppedIsHarmless(s.store, w);
    }
  }

  lemma OutsideStepUntouched(s: Sys, a: Action, me: nat, mine: Option<nat>)
    requires Inv(s) && me in s.workers && Outside(a, Some(me), mine) && (mine.Some? ==> mine.value in s.store.writers)
    ensures Untouched(s, Step(s, a), me, mine)
  {
    hide Guarded, StatusKept, Step, Inv;
    StepKeepsInv(s, a);
    OutsideStepWorker(s, a, me, mine);
    OutsideStepWriters(s, a, me, mine);
    OutsideStepOwners(s, a, me, mine);
    if HoldsLock(s, me) && MineStopped(s, me, mine) {
      HolderGuards(s, me, mine);
      GuardedStep(s, a, Some(me), mine);
    }
  }

  lemma UntouchedCanGoOn(s: Sys, s': Sys, me: nat, mine: Option<nat>)
    requires Untouched(s, s', me, mine) && (mine.Some? ==> mine.value in s.store.writers)
    ensures Inv(s') && me in s'.workers && (mine.Some? ==> mine.value in s'.store.writers)
  {
    hide Inv, StatusKept, MineStopped;
  }

  lemma UntouchedItself(s: Sys, me: nat, mine: Option<nat>)
    requires Inv(s) && me in s.workers
    ensures Untouched(s, s, me, mine)
  {
    hide Inv, MineStopped;
  }

  lemma UntouchedChain(s: Sys, t: Sys, u: Sys, me: nat, mine: Option<nat>)
    requires Untouched(s, t, me, mine) && Untouched(t, u, me, mine)
    ensures Untouched(s, u, me, mine)
  {
    hide Inv, StatusKept, MineStopped;
    if HoldsLock(s, me) && MineStopped(s, me, mine) {
      KeptOn(s.store.cell, t.store.cell, u.store.cell);
    }
  }

  lemma {:induction false} OutsideUntouched(s: Sys, acts: seq<Action>, me: nat, mine: Option<nat>)
    requires Inv(s) && me in s.workers && (mine.Some? ==> mine.value in s.store.writers)
    requires forall i :: 0 <= i < |acts| ==> Outside(acts[i], Some(me), mine)
    ensures Untouched(s, Exec(s, acts), me, mine)
  {
    hide Inv, Untouched, Step, Outside;
    if acts == [] {
      UntouchedItself(s, me, mine);
    } else {
      var n := |acts| - 1;
      OutsideUntouched(s, acts[..n], me, mine);
      var t := Exec(s, acts[..n]);
      UntouchedCanGoOn(s, t, me, mine);
      OutsideStepUntouched(t, acts[n], me, mine);
      UntouchedChain(s, t, Exec(s, acts), me, mine);
    }
  }

  // ------------------------------------------------------------------------ the objects

  /**
    The running system, which every party changes step by step. In a calm one nobody else steps and no store call fails.
   */
  class World {
    const calm: bool
    var sys: Sys

    constructor (calm: bool, contextID: string, taskID: string)
      ensures JobSystem.Init(sys) && this.calm == calm
    {
      this.calm := calm;
      sys := Sys(Protocol.State(contextID, taskID, EMPTY_CELL, map[]), None, map[], map[], map[], []);
    }

    method Do(a: Action)
      modifies this
      ensures sys == Step(old(sys), a)
    {
      sys := Step(sys, a);
    }

    /** Whatever steps the others take; the choice of the steps is left open. */
    method Interfere(me: nat, mine: Option<nat>)
      requires Inv(sys) && me in sys.workers && (mine.Some? ==> mine.value in sys.store.writers)
      modifies this
      ensures Untouched(old(sys), sys, me, mine)
      ensures calm ==> sys == old(sys)
    {
      var acts: seq<Action> := *;
      if !calm && forall i :: 0 <= i < |acts| ==> Outside(acts[i], Some(me), mine) {
        OutsideUntouched(sys, acts, me, mine);
        sys := Exec(sys, acts);
      } else {
        UntouchedItself(sys, me, mine);
      }
    }

    /** Whether the next store call fails. */
    method StoreFails() returns (fails: bool)
      ensures calm ==> !fails
    {
      fails := *;
      if calm {
        fails := false;
      }
    }
  }

  /** A dequeued job's callbacks, counted; each may fail. */
  class Job {
    var completes: nat
    var fails: nat

    constructor ()
      ensures completes == 0 && fails == 0
    {
      completes, fails := 0, 0;
    }

    method CompleteFunc() returns (ok: bool)
      modifies this
      ensures completes == old(completes) + 1 && fails == old(fails)
    {
      completes := completes + 1;
      ok := *;
    }

    method FailFunc() returns (ok: bool)
      modifies this
      ensures completes == old(completes) && fails == old(fails) + 1
    {
      fails := fails + 1;
      ok := *;
    }
  }

  // ------------------------------------------------------------------------ updating the status

  ghost predicate StatusWritten(before: seq<Event>, after: seq<Event>, status: TaskStatus) {
    exists i :: |before| <= i < |after| && after[i].StatusChanged? && after[i].status == status
                && after[i].final == status.state.IsTerminal()
  }

  ghost predicate FinalWritten(before: seq<Event>, after: seq<Event>) {
    exists i :: |before| <= i < |after| && IsFinal(after[i])
  }

  /** The task reads as this status, or as canceled. */
  ghost predicate Reads(c: Cell, status: TaskStatus) {
    c.snapshot.Some? && (c.snapshot.value.task.status == status || c.snapshot.value.task.status.state.Canceled?)
  }

  lemma ReadsOn(c: Cell, c': Cell, status: TaskStatus)
    requires Reads(c, status) && StatusKept(c, c')
    ensures Reads(c', status)
  {
  }

  /** A worker that holds the lock, has read the task as not terminal, and has no write of its own under way. */
  ghost predicate AtWork(s: Sys, me: nat) {
    Inv(s) && IsActive(s, me) && MineStopped(s, me, None)
  }

  function FreshId(writers: map<nat, Protocol.Writer>): (w: nat)
    ensures w !in writers
  {
    FreshAbove(writers.Keys, 0)
  }

  function FreshAbove(keys: set<nat>, n: nat): (w: nat)
    ensures w !in keys && w >= n
    decreases |keys|
  {
    if n !in keys then n
    else FreshAbove(keys - {n}, n + 1)
  }

  /** A worker amid its own status update through writer `w`. */
  ghost predicate Updating(s: Sys, me: nat, w: nat, status: TaskStatus) {
    && Inv(s) && IsActive(s, me) && MineStopped(s, me, Some(w))
    && w in s.owner && s.owner[w] == me && w in s.store.writers
    && (s.store.writers[w].Begun? ==> s.store.writers[w].op == Protocol.Update([SetStatus(status)]))
    && (s.store.writers[w].Ready? ==> StatusDraft(s, s.store.writers[w].draft, status))
    && (s.store.writers[w].Saving? ==> StatusDraft(s, s.store.writers[w].draft, status))
  }

  ghost predicate StatusDraft(s: Sys, d: Draft, status: TaskStatus) {
    && d.task.status == status
    && d.pending == [StatusChanged(s.store.taskID, s.store.contextID, status, status.state.IsTerminal())]
  }

  /** Why an update did not go through: the program refused it, or a store call failed. */
  datatype WriteError = NotWritten(outcome: Protocol.Outcome) | StoreFailed(afterAppend: bool)

  /** The writer has ended without committing. */
  predicate GaveUp(wr: Protocol.Writer) {
    Protocol.Stopped(wr) && wr != Protocol.Finished(Protocol.Committed)
  }

  function ErrorOf(wr: Protocol.Writer): WriteError
    requires GaveUp(wr)
  {
    if wr.Finished? then NotWritten(wr.outcome) else StoreFailed(wr.afterAppend)
  }

  lemma BeginUpdate(s: Sys, me: nat, w: nat, status: TaskStatus)
    requires AtWork(s, me) && w !in s.store.writers
    ensures var s' := Step(s, WriteStatus(me, w, status));
            && Updating(s', me, w, status) && s'.store.writers[w].Begun? && s'.store.cell == s.store.cell
            && s'.executed == s.executed
            && s'.store
                  == s.store.(writers := s.store.writers[w := Protocol.Begun(Protocol.Update([SetStatus(status)]))])
  {
    hide Protocol.Inv, Protocol.Step, MayRestate, ReadsTerminal, HoldsLock;
    StepKeepsInv(s, WriteStatus(me, w, status));
    NewWriter(s, w, Protocol.Update([SetStatus(status)]));
  }

  /** A step of one's own writer that leaves the store alone. */
  lemma OwnStep(s: Sys, s': Sys, me: nat, w: nat, status: TaskStatus, wr: Protocol.Writer)
    requires Updating(s, me, w, status) && Inv(s')
    requires s' == s.(store := s.store.(writers := s.store.writers[w := wr]))
    requires Protocol.Stopped(wr) || (wr.Ready? && StatusDraft(s, wr.draft, status))
    ensures Updating(s', me, w, status)
  {
    hide Inv;
  }

  lemma ReadUpdate(s: Sys, me: nat, w: nat, status: TaskStatus)
    requires Updating(s, me, w, status) && s.store.writers[w].Begun?
    ensures var s' := Step(s, Storage(Protocol.Read(w)));
            && Updating(s', me, w, status)
            && (s'.store.writers[w].Ready? || s'.store.writers[w].Finished?)
            && s'.store.writers[w] != Protocol.Finished(Protocol.Committed)
            && s'.store.cell == s.store.cell && s'.executed == s.executed
  {
    hide Protocol.Inv;
    StepKeepsInv(s, Storage(Protocol.Read(w)));
    Protocol.ReadForStatus(s.store, status);
    var wr := Protocol.AfterRead(s.store, Protocol.Update([SetStatus(status)]));
    OwnStep(s, Step(s, Storage(Protocol.Read(w))), me, w, status, wr);
  }

  lemma AppendUpdate(s: Sys, me: nat, w: nat, status: TaskStatus)
    requires Updating(s, me, w, status) && s.store.writers[w].Ready?
    ensures var s' := Step(s, Storage(Protocol.Append(w)));
            && Updating(s', me, w, status) && (s'.store.writers[w].Saving? || GaveUp(s'.store.writers[w]))
            && !s'.store.writers[w].Crashed?
            && s'.executed == s.executed
            && s.store.cell.log <= s'.store.cell.log && s'.store.cell.snapshot == s.store.cell.snapshot
            && (s'.store.writers[w].Saving? ==> StatusWritten(s.store.cell.log, s'.store.cell.log, status))
  {
    hide Protocol.Inv;
    var s' := Step(s, Storage(Protocol.Append(w)));
    StepKeepsInv(s, Storage(Protocol.Append(w)));
    var d := s.store.writers[w].draft;
    if d.expected == s.store.cell.logVersion {
      AppendGoesThrough(s, me, w, status);
    } else {
      OwnStep(s, s', me, w, status, Protocol.Finished(Protocol.AppendConflict));
    }
  }

  lemma AppendGoesThrough(s: Sys, me: nat, w: nat, status: TaskStatus)
    requires Updating(s, me, w, status) && s.store.writers[w].Ready?
    requires s.store.writers[w].draft.expected == s.store.cell.logVersion
    requires Inv(Step(s, Storage(Protocol.Append(w))))
    ensures var s' := Step(s, Storage(Protocol.Append(w)));
            && Updating(s', me, w, status) && s'.store.writers[w].Saving? && s'.executed == s.executed
            && s.store.cell.log <= s'.store.cell.log && s'.store.cell.snapshot == s.store.cell.snapshot
            && StatusWritten(s.store.cell.log, s'.store.cell.log, status)
  {
    hide Inv;
    var s' := Step(s, Storage(Protocol.Append(w)));
    var d := s.store.writers[w].draft;
    assert s'.store.writers == s.store.writers[w := Protocol.Saving(d, s.store.cell.logVersion + 1)];
    assert s'.store.cell.log == s.store.cell.log + d.pending;
    assert s'.store.cell.log[|s.store.cell.log|] == d.pending[0];
  }

  lemma SaveUpdate(s: Sys, me: nat, w: nat, status: TaskStatus)
    requires Updating(s, me, w, status) && s.store.writers[w].Saving?
    ensures var s' := Step(s, Storage(Protocol.Save(w)));
            && Updating(s', me, w, status) && s'.store.writers[w] == Protocol.Finished(Protocol.Committed)
            && s'.store.cell.log == s.store.cell.log && s'.executed == s.executed
            && s'.store.cell.snapshot.Some? && s'.store.cell.snapshot.value.task.status == status
  {
    hide Protocol.Inv;
    StepKeepsInv(s, Storage(Protocol.Save(w)));
    Protocol.SaveSucceeds(s.store, w);
  }

  /** A store call of the update fails: before its append without a trace, after it with the event in the log. */
  lemma FailUpdate(s: Sys, me: nat, w: nat, status: TaskStatus)
    requires Updating(s, me, w, status) && !Protocol.Stopped(s.store.writers[w])
    ensures var s' := Step(s, Storage(Protocol.Crash(w)));
            && Updating(s', me, w, status) && s'.store.writers[w] == Protocol.Crashed(s.store.writers[w].Saving?)
            && s'.store.cell == s.store.cell && s'.executed == s.executed
  {
    hide Protocol.Inv;
    StepKeepsInv(s, Storage(Protocol.Crash(w)));
    OwnStep(s, Step(s, Storage(Protocol.Crash(w))), me, w, status, Protocol.Crashed(s.store.writers[w].Saving?));
  }

  /** A writer that crashed after its append has left the snapshot behind the log. */
  lemma CrashShows(s: Sys, w: nat)
    requires Inv(s) && w in s.store.writers && s.store.writers[w] == Protocol.Crashed(true)
    ensures SnapshotVersion(s.store.cell) < |s.store.cell.log|
  {
    hide Protocol.CellInv, MayRestate;
    assert Protocol.GoodWriter(s.store, s.store.writers[w]);
  }

  lemma WrittenStays(a: seq<Event>, b: seq<Event>, c: seq<Event>, d: seq<Event>, status: TaskStatus)
    requires a <= b <= c <= d && StatusWritten(b, c, status)
    ensures StatusWritten(a, d, status)
  {
    var i :| |b| <= i < |c| && c[i].StatusChanged? && c[i].status == status && c[i].final == status.state.IsTerminal();
    assert d[i] == c[i];
  }

  /** The same task, whose store has only moved on. */
  ghost predicate MovedOn(s: Sys, s': Sys) {
    && s'.store.contextID == s.store.contextID && s'.store.taskID == s.store.taskID
    && s.store.cell.log <= s'.store.cell.log
    && (s.store.cell.snapshot.Some? ==> s'.store.cell.snapshot.Some?)
  }

  ghost predicate Onward(s: Sys, s': Sys, me: nat) {
    (me in s'.executed <==> me in s.executed) && MovedOn(s, s')
  }

  lemma InterferenceKeepsUpdate(s: Sys, s': Sys, me: nat, w: nat, status: TaskStatus)
    requires Updating(s, me, w, status) && Untouched(s, s', me, Some(w))
    ensures Updating(s', me, w, status) && s'.store.writers[w] == s.store.writers[w]
    ensures Onward(s, s', me) && StatusKept(s.store.cell, s'.store.cell)
  {
    hide Inv, StatusKept;
  }

  lemma InterferenceKeepsWork(s: Sys, s': Sys, me: nat)
    requires AtWork(s, me) && Untouched(s, s', me, None)
    ensures AtWork(s', me) && Onward(s, s', me) && StatusKept(s.store.cell, s'.store.cell)
  {
    hide Inv, StatusKept;
  }

  /** Once its writer has come to its end, the worker is back at work. */
  lemma UpdateEnds(s: Sys, me: nat, w: nat, status: TaskStatus)
    requires Updating(s, me, w, status)
    ensures Inv(s) && w in s.store.writers
    ensures Protocol.Stopped(s.store.writers[w]) ==> AtWork(s, me)
  {
    hide Inv;
  }

  method StartUpdate(world: World, me: nat, status: TaskStatus) returns (w: nat)
    requires AtWork(world.sys, me)
    modifies world
    ensures Updating(world.sys, me, w, status) && world.sys.store.writers[w].Begun?
    ensures Onward(old(world.sys), world.sys, me) && StatusKept(old(world.sys).store.cell, world.sys.store.cell)
    ensures w !in old(world.sys).store.writers
    ensures world.calm ==> world.sys == Step(old(world.sys), WriteStatus(me, w, status))
  {
    hide Inv, Step, Exec, StatusKept;
    w := FreshId(world.sys.store.writers);
    BeginUpdate(world.sys, me, w, status);
    world.Do(WriteStatus(me, w, status));
    InterfereWithUpdate(world, me, w, status);
  }

  /** The store call that `w` is about to make fails. */
  method FailWrite(world: World, me: nat, w: nat, status: TaskStatus)
    requires Updating(world.sys, me, w, status) && !Protocol.Stopped(world.sys.store.writers[w])
    modifies world
    ensures Updating(world.sys, me, w, status)
    ensures world.sys.store.writers[w] == Protocol.Crashed(old(world.sys).store.writers[w].Saving?)
    ensures world.sys.store.cell == old(world.sys).store.cell && Onward(old(world.sys), world.sys, me)
  {
    hide Inv, Step, Exec;
    FailUpdate(world.sys, me, w, status);
    SameTaskAfter(world.sys, Storage(Protocol.Crash(w)));
    world.Do(Storage(Protocol.Crash(w)));
  }

  lemma SameTaskAfter(s: Sys, a: Action)
    ensures Step(s, a).store.contextID == s.store.contextID && Step(s, a).store.taskID == s.store.taskID
  {
  }

  method ReadTask(world: World, me: nat, w: nat, status: TaskStatus)
    requires Updating(world.sys, me, w, status) && world.sys.store.writers[w].Begun?
    modifies world
    ensures Updating(world.sys, me, w, status)
    ensures world.sys.store.writers[w].Ready? || GaveUp(world.sys.store.writers[w])
    ensures world.sys.store.writers[w] != Protocol.Crashed(true)
    ensures Onward(old(world.sys), world.sys, me) && StatusKept(old(world.sys).store.cell, world.sys.store.cell)
    ensures world.calm ==> world.sys == Step(old(world.sys), Storage(Protocol.Read(w)))
  {
    hide Inv, Step, Exec, StatusKept;
    var fails := world.StoreFails();
    if fails {
      FailWrite(world, me, w, status);
    } else {
      ReadUpdate(world.sys, me, w, status);
      SameTaskAfter(world.sys, Storage(Protocol.Read(w)));
      world.Do(Storage(Protocol.Read(w)));
    }
    InterfereWithUpdate(world, me, w, status);
  }

  method InterfereWithUpdate(world: World, me: nat, w: nat, status: TaskStatus)
    requires Updating(world.sys, me, w, status)
    modifies world
    ensures Updating(world.sys, me, w, status) && world.sys.store.writers[w] == old(world.sys).store.writers[w]
    ensures Onward(old(world.sys), world.sys, me) && StatusKept(old(world.sys).store.cell, world.sys.store.cell)
    ensures world.calm ==> world.sys == old(world.sys)
  {
    hide Inv, Step, Exec, StatusKept;
    ghost var s := world.sys;
    world.Interfere(me, Some(w));
    InterferenceKeepsUpdate(s, world.sys, me, w, status);
  }

  lemma SameSnapshotKept(c: Cell, c': Cell)
    requires c'.snapshot == c.snapshot
    ensures StatusKept(c, c')
  {
  }

  method AppendEvents(world: World, me: nat, w: nat, status: TaskStatus)
    requires Updating(world.sys, me, w, status) && world.sys.store.writers[w].Ready?
    modifies world
    ensures Updating(world.sys, me, w, status)
    ensures world.sys.store.writers[w].Saving? || GaveUp(world.sys.store.writers[w])
    ensures world.sys.store.writers[w] != Protocol.Crashed(true)
    ensures Onward(old(world.sys), world.sys, me) && StatusKept(old(world.sys).store.cell, world.sys.store.cell)
    ensures world.sys.store.writers[w].Saving? ==>
              StatusWritten(old(world.sys).store.cell.log, world.sys.store.cell.log, status)
    ensures world.calm ==> world.sys == Step(old(world.sys), Storage(Protocol.Append(w)))
  {
    hide Inv, Step, Exec, StatusKept;
    ghost var before := world.sys.store.cell;
    var fails := world.StoreFails();
    if fails {
      FailWrite(world, me, w, status);
    } else {
      AppendUpdate(world.sys, me, w, status);
      SameTaskAfter(world.sys, Storage(Protocol.Append(w)));
      world.Do(Storage(Protocol.Append(w)));
    }
    ghost var after := world.sys.store.cell;
    SameSnapshotKept(before, after);
    InterfereWithUpdate(world, me, w, status);
    KeptOn(before, after, world.sys.store.cell);
    if world.sys.store.writers[w].Saving? {
      WrittenStays(before.log, before.log, after.log, world.sys.store.cell.log, status);
    }
  }

  method SaveSnapshot(world: World, me: nat, w: nat, status: TaskStatus)
    requires Updating(world.sys, me, w, status) && world.sys.store.writers[w].Saving?
    modifies world
    ensures Updating(world.sys, me, w, status)
    ensures world.sys.store.writers[w] in {Protocol.Finished(Protocol.Committed), Protocol.Crashed(true)}
    ensures Onward(old(world.sys), world.sys, me) && world.sys.store.cell.log == old(world.sys).store.cell.log
    ensures world.sys.store.writers[w].Finished? ==>
              world.sys.store.cell.snapshot.Some? && world.sys.store.cell.snapshot.value.task.status == status
    ensures world.sys.store.writers[w].Crashed? ==> world.sys.store.cell == old(world.sys).store.cell
    ensures world.calm ==>
              world.sys == Step(old(world.sys), Storage(Protocol.Save(w))) && world.sys.store.writers[w].Finished?
  {
    hide Inv, Step, Exec;
    var fails := world.StoreFails();
    if fails {
      FailWrite(world, me, w, status);
    } else {
      SaveUpdate(world.sys, me, w, status);
      SameTaskAfter(world.sys, Storage(Protocol.Save(w)));
      world.Do(Storage(Protocol.Save(w)));
    }
  }

  /** The agent message an update carries: built from its parts, and absent exactly when there are none. */
  ghost predicate CarriesParts(m: Option<Message>, parts: Option<seq<Part>>, options: MessageOptions) {
    && (m.Some? <==> parts.Some?)
    && (m.Some? ==>
          && m.value.role.RoleAgent? && m.value.contextID == "" && m.value.taskID == ""
          && m.value.parts == parts && m.value.referenceTaskIDs == options.referenceTaskIDs
          && m.value.extensions == options.extensions && m.value.metadata == options.metadata)
  }

  /** It passes another message on as the agent's own; there is none where the other is missing or has nil parts. */
  ghost predicate PassesOn(m: Option<Message>, source: Option<Message>) {
    && (m.Some? <==> source.Some? && source.value.parts.Some?)
    && (m.Some? ==>
          && m.value.role.RoleAgent? && m.value.contextID == "" && m.value.taskID == ""
          && m.value.parts == source.value.parts && m.value.referenceTaskIDs == source.value.referenceTaskIDs
          && m.value.extensions == source.value.extensions && m.value.metadata == source.value.metadata)
  }

  /** In a calm world an update of a current task goes through, unless the task is canceled. */
  ghost predicate CalmlyUpdated(s: Sys, c: Cell, status: TaskStatus, error: Option<WriteError>) {
    Current(s.store.cell) ==>
      if s.store.cell.snapshot.value.task.status.state.Canceled? then
        error == Some(NotWritten(Protocol.RefusedCanceled)) && c == s.store.cell
      else error.None? && c == Protocol.Restated(s.store, status)
  }

  lemma CalmRead(s: Sys, me: nat, w: nat, status: TaskStatus)
    requires AtWork(s, me) && w !in s.store.writers && Current(s.store.cell)
    ensures var s1 := Step(s, WriteStatus(me, w, status));
            var s2 := Step(s1, Storage(Protocol.Read(w)));
            && s2.store.cell == s.store.cell && w in s2.store.writers
            && if s.store.cell.snapshot.value.task.status.state.Canceled? then
                 s2.store.writers[w] == Protocol.Finished(Protocol.RefusedCanceled)
               else s2.store.writers[w].Ready?
  {
    hide Protocol.Inv, MayRestate;
    BeginUpdate(s, me, w, status);
    Protocol.ReadForStatus(Step(s, WriteStatus(me, w, status)).store, status);
  }

  lemma CalmCommit(s: Sys, me: nat, w: nat, status: TaskStatus)
    requires AtWork(s, me) && w !in s.store.writers && Current(s.store.cell)
    requires !s.store.cell.snapshot.value.task.status.state.Canceled?
    ensures var s1 := Step(s, WriteStatus(me, w, status));
            var s3 := Step(Step(s1, Storage(Protocol.Read(w))), Storage(Protocol.Append(w)));
            && w in s3.store.writers && s3.store.writers[w].Saving?
            && Step(s3, Storage(Protocol.Save(w))).store.cell == Protocol.Restated(s.store, status)
  {
    hide Protocol.Inv, Protocol.Step;
    var s1 := Step(s, WriteStatus(me, w, status));
    BeginUpdate(s, me, w, status);
    Protocol.LogVersionIsLength(s1.store);
    Protocol.ReadAndAppend(s1.store, w, status);
    Protocol.SaveEnds(Protocol.Step(Protocol.Step(s1.store, Protocol.Read(w)), Protocol.Append(w)), w);
  }

  /**
    Writes a status. It is written exactly when both the append and the save go through, and then the task reads as it;
    if only the append did, the event is in the log but the snapshot is behind it. Unless it is written, the task reads
    as before or as canceled.
   */
  method CommitStatus(world: World, me: nat, status: TaskStatus) returns (error: Option<WriteError>)
    requires AtWork(world.sys, me)
    modifies world
    ensures AtWork(world.sys, me) && Onward(old(world.sys), world.sys, me)
    ensures error.None? || error == Some(StoreFailed(true)) ==>
              StatusWritten(old(world.sys).store.cell.log, world.sys.store.cell.log, status)
    ensures error.None? ==>
              world.sys.store.cell.snapshot.Some? && world.sys.store.cell.snapshot.value.task.status == status
    ensures error.Some? ==> StatusKept(old(world.sys).store.cell, world.sys.store.cell)
    ensures error == Some(StoreFailed(true)) ==> SnapshotVersion(world.sys.store.cell) < |world.sys.store.cell.log|
    ensures world.calm ==> CalmlyUpdated(old(world.sys), world.sys.store.cell, status, error)
  {
    hide Inv, Step, Exec, StatusKept, Protocol.Restated;
    hide Updating, AtWork, StatusWritten;
    ghost var s0 := world.sys;
    var w := StartUpdate(world, me, status);
    ghost var s1 := world.sys;
    ReadTask(world, me, w, status);
    ghost var s2 := world.sys;
    KeptOn(s0.store.cell, s1.store.cell, s2.store.cell);
    UpdateEnds(s2, me, w, status);
    if world.calm && Current(s0.store.cell) {
      CalmRead(s0, me, w, status);
    }
    if Protocol.Stopped(world.sys.store.writers[w]) {
      return Some(ErrorOf(world.sys.store.writers[w]));
    }
    AppendEvents(world, me, w, status);
    ghost var s3 := world.sys;
    KeptOn(s0.store.cell, s2.store.cell, s3.store.cell);
    UpdateEnds(s3, me, w, status);
    if world.calm && Current(s0.store.cell) {
      CalmCommit(s0, me, w, status);
    }
    if Protocol.Stopped(world.sys.store.writers[w]) {
      return Some(ErrorOf(world.sys.store.writers[w]));
    }
    SaveSnapshot(world, me, w, status);
    UpdateEnds(world.sys, me, w, status);
    WrittenStays(s0.store.cell.log, s2.store.cell.log, s3.store.cell.log, world.sys.store.cell.log, status);
    if world.sys.store.writers[w].Crashed? {
      CrashShows(world.sys, w);
      return Some(StoreFailed(true));
    }
    return None;
  }

  /** A worker's `updateStatus`: read with the cancel check, append, save, each amid interference. */
  method UpdateTaskStatus(world: World, me: nat, state: TaskState, parts: Option<seq<Part>>, options: MessageOptions)
    returns (r: Result<TaskStatus, WriteError>)
    requires AtWork(world.sys, me)
    modifies world
    ensures AtWork(world.sys, me) && Onward(old(world.sys), world.sys, me)
    ensures r.Ok? ==> r.value.state == state && CarriesParts(r.value.message, parts, options)
    ensures r.Ok? ==> StatusWritten(old(world.sys).store.cell.log, world.sys.store.cell.log, r.value)
    ensures r.Ok? ==>
              world.sys.store.cell.snapshot.Some? && world.sys.store.cell.snapshot.value.task.status == r.value
    ensures r.Err? ==> StatusKept(old(world.sys).store.cell, world.sys.store.cell)
    ensures world.calm && Current(old(world.sys).store.cell) ==>
              if old(world.sys).store.cell.snapshot.value.task.status.state.Canceled?
              then r.Err? && world.sys.store.cell == old(world.sys).store.cell
              else r.Ok? && world.sys.store.cell == Protocol.Restated(old(world.sys).store, r.value)
  {
    hide Inv, Step, Exec, StatusKept, Protocol.Restated, AtWork, StatusWritten;
    var message: Option<Message> := None;
    if parts.Some? {
      var messageID: string := *;
      message := Some(NewMessage(messageID, RoleAgent, parts, options));
    }
    var now: string := *;
    var status := TaskStatus(state, message, Some(now));
    var error := CommitStatus(world, me, status);
    r := if error.None? then Ok(status) else Err(error.value);
  }

  // ------------------------------------------------------------------------ several updates

  /** The events of these statuses, in order. */
  ghost function StatusEvents(st: Protocol.State, statuses: seq<TaskStatus>): (r: seq<Event>)
    ensures |r| == |statuses|
  {
    seq(|statuses|, i requires 0 <= i < |statuses| => Protocol.StatusEvent(st, statuses[i]))
  }

  /** Exactly these statuses were written: each is one event, and the task reads as the last of them. */
  ghost predicate Wrote(st: Protocol.State, st': Protocol.State, statuses: seq<TaskStatus>) {
    && Current(st'.cell) && st.cell.snapshot.Some?
    && st'.taskID == st.taskID && st'.contextID == st.contextID
    && st'.cell.log == st.cell.log + StatusEvents(st, statuses)
    && var task := st.cell.snapshot.value.task;
       st'.cell.snapshot.value.task == if statuses == [] then task else task.(status := statuses[|statuses| - 1])
  }

  lemma WroteNothing(st: Protocol.State)
    requires Current(st.cell)
    ensures Wrote(st, st, [])
  {
    assert st.cell.log + StatusEvents(st, []) == st.cell.log;
  }

  lemma WroteOneMore(st: Protocol.State, t: Protocol.State, u: Protocol.State, statuses: seq<TaskStatus>,
      status: TaskStatus)
    requires Wrote(st, t, statuses) && u.cell == Protocol.Restated(t, status)
    requires u.taskID == t.taskID && u.contextID == t.contextID
    ensures Wrote(st, u, statuses + [status])
  {
    var event := Protocol.StatusEvent(t, status);
    assert StatusEvents(st, statuses + [status]) == StatusEvents(st, statuses) + [event];
    assert st.cell.log + (StatusEvents(st, statuses) + [event]) == (st.cell.log + StatusEvents(st, statuses)) + [event];
  }

  function LastOf(statuses: seq<TaskStatus>): Option<TaskStatus> {
    if statuses == [] then None else Some(statuses[|statuses| - 1])
  }

  /**
    Where a worker stands that started from `start` and has written `trace` since: all of it is in the log, the task
    reads as the last of it or as canceled, and in a calm world nothing else happened.
   */
  ghost predicate Stands(start: Sys, s: Sys, me: nat, calm: bool, trace: seq<TaskStatus>) {
    && AtWork(s, me) && MovedOn(start, s)
    && (forall k :: 0 <= k < |trace| ==> StatusWritten(start.store.cell.log, s.store.cell.log, trace[k]))
    && (trace != [] ==> Reads(s.store.cell, trace[|trace| - 1]))
    && (calm && Current(start.store.cell) ==> Wrote(start.store, s.store, trace))
  }

  lemma StandsFirst(s: Sys, me: nat, calm: bool)
    requires AtWork(s, me)
    ensures Stands(s, s, me, calm, [])
  {
    hide Inv, Wrote;
    if Current(s.store.cell) {
      WroteNothing(s.store);
    }
  }

  /** Steps that write nothing. */
  lemma StandsOn(start: Sys, s: Sys, s': Sys, me: nat, calm: bool, trace: seq<TaskStatus>)
    requires Stands(start, s, me, calm, trace)
    requires AtWork(s', me) && Onward(s, s', me) && StatusKept(s.store.cell, s'.store.cell)
    requires calm && Current(s.store.cell) ==> s'.store.cell == s.store.cell
    ensures Stands(start, s', me, calm, trace)
  {
    hide Inv, AtWork, StatusWritten, StatusEvents, StatusKept, Reads;
    forall k | 0 <= k < |trace|
      ensures StatusWritten(start.store.cell.log, s'.store.cell.log, trace[k])
    {
      WrittenStays(start.store.cell.log, start.store.cell.log, s.store.cell.log, s'.store.cell.log, trace[k]);
    }
    if trace != [] {
      ReadsOn(s.store.cell, s'.store.cell, trace[|trace| - 1]);
    }
  }

  /** One more status written. */
  lemma StandsFurther(start: Sys, s: Sys, s': Sys, me: nat, calm: bool, trace: seq<TaskStatus>, status: TaskStatus)
    requires Stands(start, s, me, calm, trace)
    requires AtWork(s', me) && Onward(s, s', me) && StatusWritten(s.store.cell.log, s'.store.cell.log, status)
    requires s'.store.cell.snapshot.Some? && s'.store.cell.snapshot.value.task.status == status
    requires calm && Current(s.store.cell) ==> s'.store.cell == Protocol.Restated(s.store, status)
    ensures Stands(start, s', me, calm, trace + [status])
  {
    hide Inv, AtWork, StatusWritten, StatusEvents, StatusKept, Protocol.Restated;
    var more := trace + [status];
    forall k | 0 <= k < |more|
      ensures StatusWritten(start.store.cell.log, s'.store.cell.log, more[k])
    {
      var log := s.store.cell.log;
      if k < |trace| {
        WrittenStays(start.store.cell.log, start.store.cell.log, log, s'.store.cell.log, trace[k]);
      } else {
        WrittenStays(start.store.cell.log, log, s'.store.cell.log, s'.store.cell.log, status);
      }
    }
    if calm && Current(start.store.cell) {
      assert Current(s.store.cell);
      WroteOneMore(start.store, s.store, s'.store, trace, status);
    }
  }

  /** A status update by a worker that stands somewhere, and the trace with it if it went through. */
  method WriteNext(world: World, me: nat, state: TaskState, parts: Option<seq<Part>>, options: MessageOptions,
                   ghost start: Sys, ghost trace: seq<TaskStatus>)
    returns (r: Result<TaskStatus, WriteError>, ghost more: seq<TaskStatus>)
    requires Stands(start, world.sys, me, world.calm, trace)
    modifies world
    ensures Stands(start, world.sys, me, world.calm, more)
    ensures Onward(old(world.sys), world.sys, me)
    ensures more == if r.Ok? then trace + [r.value] else trace
    ensures r.Ok? ==> r.value.state == state && CarriesParts(r.value.message, parts, options)
    ensures world.calm && Current(start.store.cell) && trace != [] ==>
              (r.Ok? <==> !trace[|trace| - 1].state.Canceled?)
    ensures world.calm && Current(start.store.cell) && trace == [] ==>
              start.store.cell.snapshot.value.task.status.state.Canceled? || r.Ok?
  {
    hide Inv, Step, Exec, StatusKept, Protocol.Restated, AtWork, StatusWritten, StatusEvents;
    ghost var s := world.sys;
    r := UpdateTaskStatus(world, me, state, parts, options);
    more := trace;
    if r.Ok? {
      more := trace + [r.value];
      StandsFurther(start, s, world.sys, me, world.calm, trace, r.value);
    } else {
      StandsOn(start, s, world.sys, me, world.calm, trace);
    }
  }

  /** Others step while the worker does something else. */
  method Pause(world: World, me: nat, ghost start: Sys, ghost trace: seq<TaskStatus>)
    requires Stands(start, world.sys, me, world.calm, trace)
    modifies world
    ensures Stands(start, world.sys, me, world.calm, trace)
    ensures Onward(old(world.sys), world.sys, me)
  {
    hide Inv, Step, Exec, StatusKept, StatusWritten, StatusEvents, Wrote, Reads;
    ghost var s := world.sys;
    world.Interfere(me, None);
    InterferenceKeepsWork(s, world.sys, me);
    StandsOn(start, s, world.sys, me, world.calm, trace);
  }

  // ------------------------------------------------------------------------------ the agent

  datatype AgentError = ContextCanceled | StatusError(status: TaskStatus) | OtherError

  /** Wraps the handle the agent is given and remembers the last status update that went through. */
  class StatusTracker {
    var lastStatusUpdate: Option<TaskStatus>

    constructor ()
      ensures lastStatusUpdate == None
    {
      lastStatusUpdate := None;
    }

    method UpdateStatus(world: World, me: nat, state: TaskState, parts: Option<seq<Part>>, options: MessageOptions,
                        ghost start: Sys, ghost trace: seq<TaskStatus>)
      returns (r: Result<TaskStatus, WriteError>, ghost more: seq<TaskStatus>)
      requires Stands(start, world.sys, me, world.calm, trace)
      modifies world, this
      ensures Stands(start, world.sys, me, world.calm, more)
      ensures Onward(old(world.sys), world.sys, me)
      ensures lastStatusUpdate == if r.Ok? then Some(r.value) else old(lastStatusUpdate)
      ensures more == if r.Ok? then trace + [r.value] else trace
      ensures r.Ok? ==> r.value.state == state && CarriesParts(r.value.message, parts, options)
    {
      hide Stands, CarriesParts, Onward;
      r, more := WriteNext(world, me, state, parts, options, start, trace);
      if r.Ok? {
        lastStatusUpdate := Some(r.value);
      }
    }
  }

  /** Any agent: any number of status updates of any kind, with any interference, then any result or error. */
  method RunAgent(world: World, me: nat, tracker: StatusTracker, ghost start: Sys, ghost trace: seq<TaskStatus>)
    returns (result: Option<Message>, failure: Option<AgentError>, ghost more: seq<TaskStatus>)
    requires Stands(start, world.sys, me, world.calm, trace) && tracker.lastStatusUpdate == None
    modifies world, tracker
    ensures Stands(start, world.sys, me, world.calm, more)
    ensures Onward(old(world.sys), world.sys, me)
    ensures trace <= more && tracker.lastStatusUpdate == LastOf(more[|trace|..])
  {
    hide Stands, Step, Exec, CarriesParts;
    more := trace;
    Pause(world, me, start, more);
    var calls: nat := *;
    while calls > 0
      invariant Stands(start, world.sys, me, world.calm, more)
      invariant Onward(old(world.sys), world.sys, me)
      invariant trace <= more && tracker.lastStatusUpdate == LastOf(more[|trace|..])
    {
      var state: TaskState := *;
      var parts: Option<seq<Part>> := *;
      var options: MessageOptions := *;
      ghost var before := more;
      var r;
      r, more := tracker.UpdateStatus(world, me, state, parts, options, start, before);
      if r.Ok? {
        assert more[|trace|..] == before[|trace|..] + [r.value];
      }
      Pause(world, me, start, more);
      calls := calls - 1;
    }
    result, failure := *, *;
  }

  // ------------------------------------------------------------------------------ the job

  /**
    How `ProcessJob` ends. `last` is the agent's last status update that went through; `recorded` is what became of the
    attempt to record the failure, if there was one; `left` is the last status that this job gave the task.
   */
  datatype Exit =
    | LockFailed
    | TaskMissing
    | TaskUnreadable
    | Skipped
    | NotStarted(why: WriteError)
    | AgentCanceled(last: Option<TaskStatus>, left: TaskStatus)
    | AgentFailed(error: AgentError, last: Option<TaskStatus>, recorded: Option<Result<TaskStatus, WriteError>>,
        left: TaskStatus)
    | NotCompleted(why: WriteError, last: Option<TaskStatus>, left: TaskStatus)
    | Succeeded(last: Option<TaskStatus>, result: Option<Message>, left: TaskStatus)
    | CompleteFailed(last: Option<TaskStatus>, result: Option<Message>, left: TaskStatus)

  predicate CallsComplete(exit: Exit) {
    exit.Succeeded? || exit.CompleteFailed?
  }

  predicate CallsFail(exit: Exit) {
    !CallsComplete(exit) && !exit.Skipped? && !exit.AgentCanceled?
  }

  predicate CallsAgent(exit: Exit) {
    CallsComplete(exit) || exit.AgentCanceled? || exit.AgentFailed? || exit.NotCompleted?
  }

  predicate IsTerminalUpdate(last: Option<TaskStatus>) {
    last.Some? && last.value.state.IsTerminal()
  }

  /** No message and a message with nil parts give no parts alike. */
  function ResultParts(result: Option<Message>): Option<seq<Part>> {
    if result.None? then None else result.value.parts
  }

  function ResultOptions(result: Option<Message>): MessageOptions {
    if result.None? then NO_OPTIONS
    else MessageOptions(result.value.referenceTaskIDs, result.value.extensions, result.value.metadata)
  }

  lemma CarriedIsPassedOn(m: Option<Message>, source: Option<Message>)
    ensures CarriesParts(m, ResultParts(source), ResultOptions(source)) <==> PassesOn(m, source)
  {
  }

  lemma NothingPassedOn(m: Option<Message>)
    ensures PassesOn(m, None) <==> m.None?
  {
  }

  /** The job itself wrote the last status, after the agent was through. */
  predicate Closes(exit: Exit) {
    || (CallsComplete(exit) && !IsTerminalUpdate(exit.last))
    || (exit.AgentFailed? && exit.recorded.Some? && exit.recorded.value.Ok?)
  }

  /**
    What a job that called its agent wrote: the working status, the agent's updates, and at most one closing status.
   */
  ghost predicate Accounted(exit: Exit, trace: seq<TaskStatus>)
    requires CallsAgent(exit)
  {
    var n := if Closes(exit) then |trace| - 1 else |trace|;
    && 1 <= n && trace[0].state.Working? && exit.last == LastOf(trace[1..n])
    && exit.left == trace[|trace| - 1]
    && EndsRight(exit)
  }

  /** The task was left as the agent left it, that is with its last update, or still working if it made none. */
  ghost predicate LeftByAgent(last: Option<TaskStatus>, left: TaskStatus) {
    if last.Some? then left == last.value else left.state.Working?
  }

  /**
    What the job did after the agent. A completion carries the agent's result, unless the agent ended the task itself.
    A plain error fails the task without a message, unless the agent ended it; a status error always gives it the
    status of the error, with that status's message.
   */
  ghost predicate EndsRight(exit: Exit) {
    match exit
    case AgentCanceled(last, left) => LeftByAgent(last, left)
    case AgentFailed(error, last, recorded, left) =>
      && !error.ContextCanceled?
      && (recorded.None? <==> error.OtherError? && last.Some? && last.value.state.IsTerminal())
      && if recorded.None? || recorded.value.Err? then LeftByAgent(last, left)
         else
           && recorded.value.value == left
           && (error.OtherError? ==> left.state.Failed? && left.message.None?)
           && (error.StatusError? ==> left.state == error.status.state && PassesOn(left.message, error.status.message))
    case NotCompleted(_, last, left) => LeftByAgent(last, left) && !left.state.IsTerminal()
    case Succeeded(last, result, left) => CompletesRight(last, result, left)
    case CompleteFailed(last, result, left) => CompletesRight(last, result, left)
    case _ => true
  }

  ghost predicate CompletesRight(last: Option<TaskStatus>, result: Option<Message>, left: TaskStatus) {
    if last.Some? && last.value.state.IsTerminal() then left == last.value
    else left.state.Completed? && PassesOn(left.message, result)
  }

  /** In a calm world only a cancellation by the agent itself keeps the closing status from being written. */
  ghost predicate EndsCalmly(exit: Exit) {
    && !exit.NotCompleted?
    && (exit.AgentFailed? && exit.recorded.Some? ==>
          (exit.recorded.value.Ok? <==> !(exit.last.Some? && exit.last.value.state.Canceled?)))
  }

  /** This way of ending leaves the task terminal. */
  predicate LeavesTerminal(exit: Exit) {
    exit.Skipped? || (CallsAgent(exit) && exit.left.state.IsTerminal())
  }

  lemma CompletingIsTerminal(exit: Exit, trace: seq<TaskStatus>)
    requires CallsComplete(exit) && Accounted(exit, trace)
    ensures exit.left.state.IsTerminal()
  {
  }

  lemma EnterStep(s: Sys, me: nat)
    requires Inv(s) && me !in s.workers && (forall w :: w in s.owner ==> s.owner[w] != me)
    ensures var s' := Step(s, Enter(me));
            && Inv(s') && MineStopped(s', me, None) && s'.store == s.store && me !in s'.executed
            && me in s'.workers && s'.workers[me].Waiting? && s'.holder == s.holder
  {
    hide Protocol.Inv, Protocol.Step, MayRestate;
    StepKeepsInv(s, Enter(me));
  }

  lemma LockStep(s: Sys, me: nat)
    requires Inv(s) && me in s.workers && s.workers[me].Waiting? && MineStopped(s, me, None) && s.holder.None?
    ensures var s' := Step(s, Acquire(me));
            && Inv(s') && MineStopped(s', me, None) && Onward(s, s', me) && s'.store == s.store
            && me in s'.workers && s'.workers[me].Holding?
  {
    hide Inv, Protocol.Step, OwnWritersStopped, ReadsTerminal;
    StepKeepsInv(s, Acquire(me));
  }

  lemma GiveUpStep(s: Sys, me: nat)
    requires Inv(s) && me in s.workers && s.workers[me].Waiting? && MineStopped(s, me, None)
    ensures var s' := Step(s, GiveUp(me));
            && Inv(s') && MineStopped(s', me, None) && Onward(s, s', me)
            && me in s'.workers && s'.workers[me].Left?
  {
    hide Inv, Protocol.Step, OwnWritersStopped, ReadsTerminal;
    StepKeepsInv(s, GiveUp(me));
  }

  /** Tries the lock until it is free or the context ends. */
  method AcquireTaskLockWithRetry(world: World, me: nat) returns (locked: bool)
    requires Inv(world.sys) && me in world.sys.workers && world.sys.workers[me].Waiting?
              && MineStopped(world.sys, me, None)
    modifies world
    ensures Inv(world.sys) && MineStopped(world.sys, me, None) && Onward(old(world.sys), world.sys, me)
    ensures me in world.sys.workers && world.sys.workers[me] == if locked then Holding else Left
    ensures world.calm && old(world.sys).holder.None? ==> locked && world.sys.store == old(world.sys).store
  {
    hide Inv, Step, Exec, StatusKept;
    var retries: nat := *;
    while true
      invariant Inv(world.sys) && MineStopped(world.sys, me, None) && Onward(old(world.sys), world.sys, me)
      invariant me in world.sys.workers && world.sys.workers[me].Waiting?
      invariant world.calm ==> world.sys == old(world.sys)
      decreases retries
    {
      world.Interfere(me, None);
      if world.sys.holder.None? {
        LockStep(world.sys, me);
        world.Do(Acquire(me));
        return true;
      }
      if retries == 0 {
        GiveUpStep(world.sys, me);
        world.Do(GiveUp(me));
        return false;
      }
      retries := retries - 1;
    }
  }

  lemma CheckStep(s: Sys, me: nat)
    requires Inv(s) && me in s.workers && s.workers[me].Holding? && MineStopped(s, me, None)
    ensures var s' := Step(s, Check(me));
            && Inv(s') && MineStopped(s', me, None) && Onward(s, s', me) && s'.store == s.store
            && me in s'.workers
            && s'.workers[me] ==
                 if s.store.cell.snapshot.None? || ReadsTerminal(s.store.cell) then Skipping else Active
  {
    hide Inv, Protocol.Step, OwnWritersStopped;
    StepKeepsInv(s, Check(me));
  }

  lemma ExecuteStep(s: Sys, me: nat)
    requires AtWork(s, me)
    ensures var s' := Step(s, Execute(me));
            && AtWork(s', me) && s'.store == s.store && me in s'.executed
  {
    hide Inv, Protocol.Step, OwnWritersStopped, ReadsTerminal;
    StepKeepsInv(s, Execute(me));
    assert s.executed + [me] == Step(s, Execute(me)).executed;
    assert (s.executed + [me])[|s.executed|] == me;
  }

  /** Releasing the lock of a task that reads as terminal leaves it settled for good. */
  lemma ReleaseStep(s: Sys, me: nat)
    requires Inv(s) && HoldsLock(s, me) && MineStopped(s, me, None)
    ensures var s' := Step(s, Release(me));
            && Inv(s') && s'.holder.None? && s'.store == s.store && s'.executed == s.executed
            && me in s'.workers && s'.workers[me].Left?
            && (ReadsTerminal(s'.store.cell) ==> Settled(s'))
  {
    hide Inv, Settled, Protocol.Step;
    StepKeepsInv(s, Release(me));
    var s' := Step(s, Release(me));
    assert OwnWritersStopped(s, me);
    if ReadsTerminal(s'.store.cell) {
      TerminalReadSettles(s');
    }
  }

  /** After the agent returned without an error: complete the task unless the agent ended it itself. */
  method Conclude(world: World, job: Job, me: nat, last: Option<TaskStatus>, result: Option<Message>,
                  working: TaskStatus, ghost start: Sys, ghost trace: seq<TaskStatus>)
    returns (exit: Exit, ghost more: seq<TaskStatus>)
    requires Stands(start, world.sys, me, world.calm, trace)
    requires trace != [] && trace[0] == working && working.state.Working? && last == LastOf(trace[1..])
    modifies world, job
    ensures Stands(start, world.sys, me, world.calm, more) && Onward(old(world.sys), world.sys, me)
    ensures exit.NotCompleted? || (CallsComplete(exit) && exit.result == result)
    ensures exit.last == last && Accounted(exit, more)
    ensures world.calm && Current(start.store.cell) ==> EndsCalmly(exit)
    ensures job.completes == old(job.completes) + (if CallsComplete(exit) then 1 else 0)
    ensures job.fails == old(job.fails) + (if CallsFail(exit) then 1 else 0)
  {
    hide Stands, Step, Exec, CarriesParts, PassesOn, ResultParts, ResultOptions;
    var left := if last.Some? then last.value else working;
    LastOfAll(trace, last);
    more := trace;
    if !(last.Some? && last.value.state.IsTerminal()) {
      var r;
      r, more := WriteNext(world, me, Completed, ResultParts(result), ResultOptions(result), start, trace);
      if r.Err? {
        var _ := job.FailFunc();
        return NotCompleted(r.error, last, left), more;
      }
      assert more[1..|more| - 1] == trace[1..];
      left := r.value;
      CarriedIsPassedOn(left.message, result);
    }
    assert more[1..|more|] == more[1..];
    var ok := job.CompleteFunc();
    return (if ok then Succeeded(last, result, left) else CompleteFailed(last, result, left)), more;
  }

  /** What a trace ends with: the agent's last update, or the working status it began with. */
  lemma LastOfAll(trace: seq<TaskStatus>, last: Option<TaskStatus>)
    requires trace != [] && last == LastOf(trace[1..])
    ensures trace[|trace| - 1] == if last.Some? then last.value else trace[0]
    ensures trace[1..|trace|] == trace[1..]
  {
  }

  /**
    After the agent failed: record the failure unless the agent ended the task itself; a status error always overrides.
   */
  method HandleFailure(world: World, job: Job, me: nat, last: Option<TaskStatus>, failure: AgentError,
                       working: TaskStatus, ghost start: Sys, ghost trace: seq<TaskStatus>)
    returns (exit: Exit, ghost more: seq<TaskStatus>)
    requires Stands(start, world.sys, me, world.calm, trace)
    requires trace != [] && trace[0] == working && working.state.Working? && last == LastOf(trace[1..])
    modifies world, job
    ensures Stands(start, world.sys, me, world.calm, more) && Onward(old(world.sys), world.sys, me)
    ensures exit.AgentCanceled? <==> failure.ContextCanceled?
    ensures exit.AgentCanceled? || (exit.AgentFailed? && exit.error == failure)
    ensures exit.last == last && Accounted(exit, more)
    ensures exit.AgentCanceled? || exit.recorded.None? ==> world.sys == old(world.sys)
    ensures world.calm && Current(start.store.cell) ==> EndsCalmly(exit)
    ensures job.completes == old(job.completes)
    ensures job.fails == old(job.fails) + (if CallsFail(exit) then 1 else 0)
  {
    hide Stands, Step, Exec, CarriesParts, PassesOn, ResultParts, ResultOptions;
    var left := if last.Some? then last.value else working;
    LastOfAll(trace, last);
    more := trace;
    if failure.ContextCanceled? {
      return AgentCanceled(last, left), more;
    }
    var recorded := None;
    if failure.StatusError? || !(last.Some? && last.value.state.IsTerminal()) {
      var failed := if failure.StatusError? then failure.status else TaskStatus(Failed, None, None);
      var r;
      r, more := WriteNext(world, me, failed.state, ResultParts(failed.message), ResultOptions(failed.message),
          start, trace);
      recorded := Some(r);
      if r.Ok? {
        assert more[1..|more| - 1] == trace[1..];
        left := r.value;
        CarriedIsPassedOn(left.message, failed.message);
        NothingPassedOn(left.message);
      }
    }
    var _ := job.FailFunc();
    return AgentFailed(failure, last, recorded, left), more;
  }

  /** Reads the task under the lock; the read may fail, which leaves the worker where it was. */
  method CheckTask(world: World, me: nat) returns (failed: bool)
    requires Inv(world.sys) && me in world.sys.workers && world.sys.workers[me].Holding?
              && MineStopped(world.sys, me, None)
    modifies world
    ensures Inv(world.sys) && MineStopped(world.sys, me, None) && Onward(old(world.sys), world.sys, me)
    ensures me in world.sys.workers
    ensures world.sys.workers[me] ==
              if failed then Holding
              else if world.sys.store.cell.snapshot.None? || ReadsTerminal(world.sys.store.cell) then Skipping
              else Active
    ensures world.calm ==> !failed && world.sys.store == old(world.sys).store
  {
    hide Inv, Step, Exec, StatusKept;
    world.Interfere(me, None);
    failed := world.StoreFails();
    if !failed {
      CheckStep(world.sys, me);
      world.Do(Check(me));
    }
  }

  lemma StandsExecuting(start: Sys, s: Sys, me: nat, calm: bool, trace: seq<TaskStatus>)
    requires Stands(start, s, me, calm, trace)
    ensures Stands(start, Step(s, Execute(me)), me, calm, trace)
    ensures me in Step(s, Execute(me)).executed && MovedOn(s, Step(s, Execute(me)))
  {
    hide AtWork, Inv, Step, StatusWritten, Wrote;
    ExecuteStep(s, me);
  }

  /** Calls the agent and deals with what it returns. */
  method ExecuteAgent(world: World, job: Job, me: nat, working: TaskStatus, ghost start: Sys)
    returns (exit: Exit, ghost trace: seq<TaskStatus>)
    requires Stands(start, world.sys, me, world.calm, [working]) && working.state.Working?
    modifies world, job
    ensures Stands(start, world.sys, me, world.calm, trace)
    ensures CallsAgent(exit) && Accounted(exit, trace) && me in world.sys.executed
    ensures world.calm && Current(start.store.cell) ==> EndsCalmly(exit)
    ensures job.completes == old(job.completes) + (if CallsComplete(exit) then 1 else 0)
    ensures job.fails == old(job.fails) + (if CallsFail(exit) then 1 else 0)
  {
    hide Stands, Step, Exec, Accounted;
    var tracker := new StatusTracker();
    ghost var s := world.sys;
    StandsExecuting(start, s, me, world.calm, [working]);
    world.Do(Execute(me));
    var result, failure;
    result, failure, trace := RunAgent(world, me, tracker, start, [working]);
    if failure.Some? {
      exit, trace := HandleFailure(world, job, me, tracker.lastStatusUpdate, failure.value, working, start, trace);
    } else {
      exit, trace := Conclude(world, job, me, tracker.lastStatusUpdate, result, working, start, trace);
    }
  }

  /** Marks the task as being worked on, then hands it to the agent. */
  method RunActiveJob(world: World, job: Job, me: nat) returns (exit: Exit, ghost trace: seq<TaskStatus>)
    requires AtWork(world.sys, me) && me !in world.sys.executed
    modifies world, job
    ensures Stands(old(world.sys), world.sys, me, world.calm, trace)
    ensures exit.NotStarted? || (CallsAgent(exit) && Accounted(exit, trace))
    ensures exit.NotStarted? ==> trace == []
    ensures me in world.sys.executed <==> CallsAgent(exit)
    ensures world.calm && Current(old(world.sys).store.cell) && !ReadsTerminal(old(world.sys).store.cell) ==>
              !exit.NotStarted? && EndsCalmly(exit)
    ensures job.completes == old(job.completes) + (if CallsComplete(exit) then 1 else 0)
    ensures job.fails == old(job.fails) + (if CallsFail(exit) then 1 else 0)
  {
    hide Stands, Step, Exec, Accounted, AtWork, CarriesParts;
    ghost var start := world.sys;
    StandsFirst(start, me, world.calm);
    var working;
    working, trace := WriteNext(world, me, Working, None, NO_OPTIONS, start, []);
    if working.Err? {
      var _ := job.FailFunc();
      return NotStarted(working.error), trace;
    }
    assert [] + [working.value] == [working.value];
    exit, trace := ExecuteAgent(world, job, me, working.value, start);
  }

  /**
    What a job leaves behind: the statuses it wrote are in the log, and the task reads as the last of them or as
    canceled.
   */
  ghost predicate LeftBehind(s: Sys, s': Sys, exit: Exit, trace: seq<TaskStatus>) {
    && MovedOn(s, s')
    && (forall k :: 0 <= k < |trace| ==> StatusWritten(s.store.cell.log, s'.store.cell.log, trace[k]))
    && (if CallsAgent(exit) then Accounted(exit, trace) && Reads(s'.store.cell, exit.left) else trace == [])
    && (LeavesTerminal(exit) ==> ReadsTerminal(s'.store.cell))
  }

  /** In a calm world a job does exactly what it is for. */
  ghost predicate CalmlyProcessed(s: Sys, s': Sys, exit: Exit, trace: seq<TaskStatus>) {
    if s.store.cell.snapshot.None? then exit.TaskMissing? && s'.store.cell == s.store.cell
    else if ReadsTerminal(s.store.cell) then exit.Skipped? && s'.store.cell == s.store.cell
    else Current(s.store.cell) ==> CallsAgent(exit) && EndsCalmly(exit) && Wrote(s.store, s'.store, trace)
  }

  lemma LeavesBehind(start: Sys, s: Sys, me: nat, calm: bool, exit: Exit, trace: seq<TaskStatus>)
    requires Stands(start, s, me, calm, trace)
    requires exit.NotStarted? || (CallsAgent(exit) && Accounted(exit, trace))
    requires exit.NotStarted? ==> trace == []
    ensures LeftBehind(start, s, exit, trace)
  {
    hide AtWork, StatusWritten, Wrote;
    if CallsAgent(exit) {
      assert exit.left == trace[|trace| - 1];
    }
  }

  /** The part of `ProcessJob` that runs under the lock. */
  method ProcessLocked(world: World, job: Job, me: nat) returns (exit: Exit, ghost trace: seq<TaskStatus>)
    requires Inv(world.sys) && me in world.sys.workers && world.sys.workers[me].Holding?
              && MineStopped(world.sys, me, None)
    requires me !in world.sys.executed
    modifies world, job
    ensures Inv(world.sys) && HoldsLock(world.sys, me) && MineStopped(world.sys, me, None)
    ensures LeftBehind(old(world.sys), world.sys, exit, trace)
    ensures !exit.LockFailed?
    ensures old(world.sys).store.cell.snapshot.Some? ==> !exit.TaskMissing?
    ensures me in world.sys.executed <==> CallsAgent(exit)
    ensures world.calm ==> CalmlyProcessed(old(world.sys), world.sys, exit, trace)
    ensures job.completes == old(job.completes) + (if CallsComplete(exit) then 1 else 0)
    ensures job.fails == old(job.fails) + (if CallsFail(exit) then 1 else 0)
  {
    hide Inv, Step, Exec, Accounted, StatusWritten, StatusEvents;
    trace := [];
    var failed := CheckTask(world, me);
    if failed {
      var _ := job.FailFunc();
      return TaskUnreadable, [];
    }
    if world.sys.workers[me].Skipping? {
      if world.sys.store.cell.snapshot.None? {
        var _ := job.FailFunc();
        return TaskMissing, [];
      }
      return Skipped, [];
    }
    ghost var start := world.sys;
    exit, trace := RunActiveJob(world, job, me);
    LeavesBehind(start, world.sys, me, world.calm, exit, trace);
    LeftBehindEarlier(old(world.sys), start, world.sys, exit, trace);
  }

  lemma LeftBehindEarlier(r: Sys, s: Sys, s': Sys, exit: Exit, trace: seq<TaskStatus>)
    requires LeftBehind(s, s', exit, trace) && MovedOn(r, s)
    ensures LeftBehind(r, s', exit, trace)
  {
    hide StatusWritten, Accounted, Reads, ReadsTerminal;
    forall k | 0 <= k < |trace|
      ensures StatusWritten(r.store.cell.log, s'.store.cell.log, trace[k])
    {
      WrittenStays(r.store.cell.log, s.store.cell.log, s'.store.cell.log, s'.store.cell.log, trace[k]);
    }
  }

  lemma LeftBehindLater(s: Sys, s': Sys, s'': Sys, exit: Exit, trace: seq<TaskStatus>)
    requires LeftBehind(s, s', exit, trace) && MovedOn(s', s'') && StatusKept(s'.store.cell, s''.store.cell)
    ensures LeftBehind(s, s'', exit, trace)
  {
    hide StatusWritten, Accounted, Reads, ReadsTerminal, StatusKept;
    forall k | 0 <= k < |trace|
      ensures StatusWritten(s.store.cell.log, s''.store.cell.log, trace[k])
    {
      WrittenStays(s.store.cell.log, s.store.cell.log, s'.store.cell.log, s''.store.cell.log, trace[k]);
    }
    if CallsAgent(exit) {
      ReadsOn(s'.store.cell, s''.store.cell, exit.left);
    }
    if LeavesTerminal(exit) {
      KeptTerminal(s'.store.cell, s''.store.cell);
    }
  }

  lemma InterferenceKeepsLock(s: Sys, s': Sys, me: nat)
    requires Untouched(s, s', me, None) && HoldsLock(s, me) && MineStopped(s, me, None)
    ensures Inv(s') && HoldsLock(s', me) && MineStopped(s', me, None)
    ensures Onward(s, s', me) && StatusKept(s.store.cell, s'.store.cell)
  {
    hide Inv, StatusKept;
  }

  /** Whether a task reads as terminal tells whether it was left so, or a cancellation was saved. */
  lemma ReadsTerminalIff(st: Protocol.State, status: TaskStatus)
    requires Protocol.Inv(st) && Reads(st.cell, status)
    ensures ReadsTerminal(st.cell) <==>
            status.state.IsTerminal() || Protocol.CanceledIn(st.cell.log[..SnapshotVersion(st.cell)])
  {
    Protocol.SnapshotReads(st);
  }

  /**
    One job, for every agent, every interference and every failure of a store call. Whatever fails, the lock is free
    again unless it was never had, and the callbacks are called as the exit says: one of them once, or none when the job
    is skipped or the agent was canceled. A job that called its agent leaves the task reading as the last status it
    wrote, or as canceled; returning nil leaves it settled, that is terminal for good by `JobSystem.SettledForever`.
    After a canceled agent the task is terminal exactly if the agent's own last update was, or somebody's cancellation
    was saved. In a calm world the log gains exactly what the job wrote.
   */
  method ProcessJob(world: World, job: Job, me: nat) returns (exit: Exit, ghost trace: seq<TaskStatus>)
    requires Inv(world.sys) && me !in world.sys.workers
              && (forall w :: w in world.sys.owner ==> world.sys.owner[w] != me)
    modifies world, job
    ensures Inv(world.sys)
    ensures me in world.sys.workers && world.sys.workers[me].Left?
    ensures !exit.LockFailed? ==> world.sys.holder.None?
    ensures me in world.sys.executed <==> CallsAgent(exit)
    ensures LeftBehind(old(world.sys), world.sys, exit, trace)
    ensures CallsComplete(exit) ==> FinalWritten(old(world.sys).store.cell.log, world.sys.store.cell.log)
    ensures exit.Skipped? || exit.Succeeded? || exit.CompleteFailed? ==> Settled(world.sys)
    ensures CallsAgent(exit) && exit.left.state.IsTerminal() ==> Settled(world.sys)
    ensures exit.AgentCanceled? ==>
              (ReadsTerminal(world.sys.store.cell) <==>
               IsTerminalUpdate(exit.last)
               || Protocol.CanceledIn(world.sys.store.cell.log[..SnapshotVersion(world.sys.store.cell)]))
    ensures old(world.sys).store.cell.snapshot.Some? ==> !exit.TaskMissing?
    ensures world.calm && old(world.sys).holder.None? ==> CalmlyProcessed(old(world.sys), world.sys, exit, trace)
    ensures EndsRight(exit)
    ensures job.completes == old(job.completes) + (if exit.Succeeded? || exit.CompleteFailed? then 1 else 0)
    ensures job.fails == old(job.fails)
              + (if exit.Succeeded? || exit.CompleteFailed? || exit.Skipped? || exit.AgentCanceled? then 0 else 1)
  {
    hide Inv, Step, Exec, Untouched, ReadsTerminal, StatusKept, LeftBehind, CalmlyProcessed, Settled, FinalWritten;
    ghost var s0 := world.sys;
    EnterStep(world.sys, me);
    world.Do(Enter(me));
    var locked := AcquireTaskLockWithRetry(world, me);
    if !locked {
      var _ := job.FailFunc();
      NothingLeftBehind(s0, world.sys, LockFailed);
      return LockFailed, [];
    }
    ghost var s1 := world.sys;
    exit, trace := ProcessLocked(world, job, me);
    ghost var s2 := world.sys;
    world.Interfere(me, None);
    InterferenceKeepsLock(s2, world.sys, me);
    LeftBehindEarlier(s0, s1, s2, exit, trace);
    LeftBehindLater(s0, s2, world.sys, exit, trace);
    ReleaseStep(world.sys, me);
    SameStoreLeftBehind(s0, world.sys, Step(world.sys, Release(me)), exit, trace);
    world.Do(Release(me));
    SameStoreSameJob(s0, s1, s2, world.sys, exit, trace);
    ExitsTell(s0, world.sys, exit, trace);
  }

  /** What a job is said to have done depends on the store only. */
  lemma SameStoreSameJob(r: Sys, s: Sys, s': Sys, s'': Sys, exit: Exit, trace: seq<TaskStatus>)
    ensures CalmlyProcessed(s, s', exit, trace) && r.store == s.store && s''.store == s'.store ==>
              CalmlyProcessed(r, s'', exit, trace)
  {
  }

  lemma NothingLeftBehind(s: Sys, s': Sys, exit: Exit)
    requires MovedOn(s, s') && !CallsAgent(exit) && !exit.Skipped?
    ensures LeftBehind(s, s', exit, [])
  {
  }

  lemma SameStoreLeftBehind(s: Sys, s': Sys, s'': Sys, exit: Exit, trace: seq<TaskStatus>)
    requires LeftBehind(s, s', exit, trace) && s''.store == s'.store
    ensures LeftBehind(s, s'', exit, trace)
  {
  }

  /** What the exit says about the log and the task. */
  lemma ExitsTell(s: Sys, s': Sys, exit: Exit, trace: seq<TaskStatus>)
    requires Inv(s') && LeftBehind(s, s', exit, trace)
    ensures EndsRight(exit)
    ensures CallsComplete(exit) ==> LeavesTerminal(exit) && FinalWritten(s.store.cell.log, s'.store.cell.log)
    ensures LeavesTerminal(exit) ==> ReadsTerminal(s'.store.cell)
    ensures exit.AgentCanceled? ==>
              (ReadsTerminal(s'.store.cell) <==>
               IsTerminalUpdate(exit.last) || Protocol.CanceledIn(s'.store.cell.log[..SnapshotVersion(s'.store.cell)]))
  {
    hide Inv, Protocol.Inv, Protocol.CanceledIn, StatusWritten, FinalWritten, PassesOn, Reads, ReadsTerminal;
    if CallsComplete(exit) {
      CompletingIsTerminal(exit, trace);
      TerminalIsFinal(s.store.cell.log, s'.store.cell.log, trace[|trace| - 1]);
    }
    if exit.AgentCanceled? {
      LastOfAll(trace, exit.last);
      StoreInv(s');
      ReadsTerminalIff(s'.store, exit.left);
    }
  }

  lemma TerminalIsFinal(before: seq<Event>, after: seq<Event>, status: TaskStatus)
    requires StatusWritten(before, after, status) && status.state.IsTerminal()
    ensures FinalWritten(before, after)
  {
    var i :| |before| <= i < |after| && after[i].StatusChanged? && after[i].status == status
             && after[i].final == status.state.IsTerminal();
    assert IsFinal(after[i]);
  }

  /** What a nil return is worth: from then on, for good, the status it left or a cancellation. */
  lemma NilReturnIsFinal(s: Sys, later: seq<Action>)
    requires Settled(s)
    ensures var s' := Exec(s, later);
            && ReadsTerminal(s'.store.cell)
            && (forall status :: Reads(s.store.cell, status) ==> Reads(s'.store.cell, status))
            && (LogIsTerminal(s'.store.cell.log) <==> LogAgrees(s.store.cell))
            && s'.executed == s.executed
  {
    hide Exec, Settled, LogIsTerminal, LogAgrees, ReadsTerminal, StatusKept, Reads;
    SettledForever(s, later);
    forall status | Reads(s.store.cell, status)
      ensures Reads(Exec(s, later).store.cell, status)
    {
      ReadsOn(s.store.cell, Exec(s, later).store.cell, status);
    }
  }
}
