/**
  The lock of `JobSystem` is the lock of `TaskLocker`: every run of jobs makes a run of locker calls that never calls an
  unlock twice, and the two agree after every step on who holds the task.
 */
module LockedJobs {
  import opened A2A
  import Jobs = JobSystem
  import Locker = TaskLocker

  /** The locker calls of a step: an attempt to lock, or the deferred unlock; grants are named after their workers. */
  function CallsOf(s: Jobs.Sys, a: Jobs.Action, taskID: string): seq<Locker.Action> {
    match a
    case Acquire(j) => if j in s.workers && s.workers[j].Waiting? then [Locker.Lock(j, taskID, false)] else []
    case Release(j) => if Jobs.HoldsLock(s, j) && Jobs.OwnWritersStopped(s, j) then [Locker.Unlock(j)] else []
    case _ => []
  }

  function LockerCalls(s0: Jobs.Sys, acts: seq<Jobs.Action>, taskID: string): seq<Locker.Action> {
    if acts == [] then []
    else
      var n := |acts| - 1;
      LockerCalls(s0, acts[..n], taskID) + CallsOf(Jobs.Exec(s0, acts[..n]), acts[n], taskID)
  }

  ghost predicate Mirrors(s: Jobs.Sys, l: Locker.State, taskID: string) {
    && !l.table.closed
    && l.table.held == (if s.holder.Some? then {taskID} else {})
    && (s.holder.Some? ==> Jobs.HoldsLock(s, s.holder.value))
    && (forall j: nat :: Jobs.HoldsLock(s, j) ==> s.holder == Some(j))
    && (forall j: nat :: Locker.Out(l, j) <==> Jobs.HoldsLock(s, j))
    && (forall j: nat :: j in l.grants ==> l.grants[j].taskID == taskID && j in s.workers && !s.workers[j].Waiting?)
  }

  /** An unlock was called only by workers that have left. */
  ghost predicate UnlockedHaveLeft(s: Jobs.Sys, calls: seq<Locker.Action>) {
    forall i :: 0 <= i < |calls| && calls[i].Unlock? ==> calls[i].g in s.workers && s.workers[calls[i].g].Left?
  }

  lemma CallsConcat(calls: seq<Locker.Action>, more: seq<Locker.Action>)
    requires |more| <= 1
    ensures Locker.Exec(calls + more) == if more == [] then Locker.Exec(calls)
              else Locker.Step(Locker.Exec(calls), more[0])
  {
    if more == [] {
      assert calls + more == calls;
    } else {
      assert (calls + more)[..|calls|] == calls;
    }
  }

  lemma AcquireMirrors(s: Jobs.Sys, l: Locker.State, j: nat, taskID: string)
    requires Mirrors(s, l, taskID) && j in s.workers && s.workers[j].Waiting?
    ensures Mirrors(Jobs.Step(s, Jobs.Acquire(j)), Locker.Step(l, Locker.Lock(j, taskID, false)), taskID)
  {
    var s', l' := Jobs.Step(s, Jobs.Acquire(j)), Locker.Step(l, Locker.Lock(j, taskID, false));
    assert j !in l.grants;
    if s.holder.None? {
      assert l'.grants == l.grants[j := Locker.Grant(taskID, true)];
      forall k: nat
        ensures Jobs.HoldsLock(s', k) <==> k == j
        ensures Locker.Out(l', k) <==> k == j
      {
        assert !Jobs.HoldsLock(s, k) && !Locker.Out(l, k);
      }
    }
  }

  lemma ReleaseMirrors(s: Jobs.Sys, l: Locker.State, j: nat, taskID: string)
    requires Mirrors(s, l, taskID) && Jobs.HoldsLock(s, j) && Jobs.OwnWritersStopped(s, j)
    ensures Mirrors(Jobs.Step(s, Jobs.Release(j)), Locker.Step(l, Locker.Unlock(j)), taskID)
  {
    hide Jobs.OwnWritersStopped;
    var s', l' := Jobs.Step(s, Jobs.Release(j)), Locker.Step(l, Locker.Unlock(j));
    assert Locker.Out(l, j) && s.holder == Some(j);
    forall k: nat
      ensures !Jobs.HoldsLock(s', k) && !Locker.Out(l', k)
    {
      assert k != j ==> !Jobs.HoldsLock(s, k) && !Locker.Out(l, k);
    }
  }

  /** Any other step leaves the lock with whoever has it. */
  lemma OtherStepKeepsWorker(s: Jobs.Sys, a: Jobs.Action, taskID: string, k: nat)
    requires CallsOf(s, a, taskID) == []
    ensures Jobs.Step(s, a).holder == s.holder
    ensures Jobs.HoldsLock(Jobs.Step(s, a), k) <==> Jobs.HoldsLock(s, k)
    ensures k in s.workers ==> k in Jobs.Step(s, a).workers
    ensures k in s.workers && !s.workers[k].Waiting? ==> !Jobs.Step(s, a).workers[k].Waiting?
  {
    hide Jobs.ReadsTerminal, Jobs.BeginWriter, Jobs.OwnWritersStopped;
  }

  lemma OtherMirrors(s: Jobs.Sys, l: Locker.State, a: Jobs.Action, taskID: string)
    requires Mirrors(s, l, taskID) && CallsOf(s, a, taskID) == []
    ensures Mirrors(Jobs.Step(s, a), l, taskID)
  {
    hide Jobs.Step, Jobs.HoldsLock, CallsOf, Locker.Out;
    OtherStepKeepsWorker(s, a, taskID, 0);
    forall k: nat
      ensures Jobs.HoldsLock(Jobs.Step(s, a), k) <==> Jobs.HoldsLock(s, k)
      ensures k in s.workers && !s.workers[k].Waiting? ==>
                k in Jobs.Step(s, a).workers && !Jobs.Step(s, a).workers[k].Waiting?
    {
      OtherStepKeepsWorker(s, a, taskID, k);
    }
  }

  lemma StepMirrors(s: Jobs.Sys, l: Locker.State, a: Jobs.Action, taskID: string)
    requires Mirrors(s, l, taskID)
    ensures var calls := CallsOf(s, a, taskID);
            Mirrors(Jobs.Step(s, a), if calls == [] then l else Locker.Step(l, calls[0]), taskID)
  {
    hide Mirrors, Jobs.Step, Locker.Step, Jobs.OwnWritersStopped;
    if CallsOf(s, a, taskID) == [] {
      OtherMirrors(s, l, a, taskID);
    } else if a.Acquire? {
      AcquireMirrors(s, l, a.j, taskID);
    } else {
      ReleaseMirrors(s, l, a.j, taskID);
    }
  }

  lemma LeftStays(s: Jobs.Sys, a: Jobs.Action, calls: seq<Locker.Action>, taskID: string)
    requires UnlockedHaveLeft(s, calls) && Locker.Disciplined(calls)
    ensures UnlockedHaveLeft(Jobs.Step(s, a), calls + CallsOf(s, a, taskID))
    ensures Locker.Disciplined(calls + CallsOf(s, a, taskID))
  {
    hide Jobs.OwnWritersStopped, Jobs.ReadsTerminal, Jobs.BeginWriter;
    forall j | j in s.workers && s.workers[j].Left?
      ensures j in Jobs.Step(s, a).workers && Jobs.Step(s, a).workers[j].Left?
    {
    }
  }

  /** The projection theorem: the calls are disciplined, and locker and jobs agree. */
  lemma {:induction false} RunMirrors(s0: Jobs.Sys, acts: seq<Jobs.Action>, taskID: string)
    requires Jobs.Init(s0)
    ensures var calls := LockerCalls(s0, acts, taskID);
            && Locker.Disciplined(calls)
            && Mirrors(Jobs.Exec(s0, acts), Locker.Exec(calls), taskID)
            && UnlockedHaveLeft(Jobs.Exec(s0, acts), calls)
  {
    hide Mirrors, UnlockedHaveLeft, Locker.Disciplined, Jobs.Step, Locker.Step, CallsOf;
    if acts == [] {
      NothingCalled(s0, taskID);
    } else {
      var n := |acts| - 1;
      var s, calls := Jobs.Exec(s0, acts[..n]), LockerCalls(s0, acts[..n], taskID);
      RunMirrors(s0, acts[..n], taskID);
      StepMirrors(s, Locker.Exec(calls), acts[n], taskID);
      LeftStays(s, acts[n], calls, taskID);
      AtMostOneCall(s, acts[n], taskID);
      CallsConcat(calls, CallsOf(s, acts[n], taskID));
    }
  }

  lemma NothingCalled(s0: Jobs.Sys, taskID: string)
    requires Jobs.Init(s0)
    ensures Locker.Disciplined([]) && Mirrors(s0, Locker.Exec([]), taskID) && UnlockedHaveLeft(s0, [])
  {
  }

  lemma AtMostOneCall(s: Jobs.Sys, a: Jobs.Action, taskID: string)
    ensures |CallsOf(s, a, taskID)| <= 1
  {
  }

  /** The locker's mutual exclusion carries over: two workers past the lock hold one grant. */
  lemma ExclusionCarriesOver(s0: Jobs.Sys, acts: seq<Jobs.Action>, taskID: string, j: nat, k: nat)
    requires Jobs.Init(s0)
    requires Jobs.HoldsLock(Jobs.Exec(s0, acts), j) && Jobs.HoldsLock(Jobs.Exec(s0, acts), k)
    ensures var l := Locker.Exec(LockerCalls(s0, acts, taskID));
            && Locker.Exclusive(l) && Locker.Out(l, j) && Locker.Out(l, k)
            && taskID in l.table.held
            && j == k
  {
    RunMirrors(s0, acts, taskID);
    Locker.MutualExclusion(LockerCalls(s0, acts, taskID));
  }

  /** An attempt to lock succeeds in the jobs' run exactly when the locker grants it. */
  lemma AcquiresIffGranted(s0: Jobs.Sys, acts: seq<Jobs.Action>, taskID: string, j: nat)
    requires Jobs.Init(s0)
    requires j in Jobs.Exec(s0, acts).workers && Jobs.Exec(s0, acts).workers[j].Waiting?
    ensures Jobs.HoldsLock(Jobs.Step(Jobs.Exec(s0, acts), Jobs.Acquire(j)), j) <==>
            Locker.TryLock(Locker.Exec(LockerCalls(s0, acts, taskID)).table, taskID, false).1.Ok?
  {
    RunMirrors(s0, acts, taskID);
  }
}
