/** The in-memory task locker: a table of held locks, unlock closures, and closing. Every call is atomic. */
module TaskLocker {
  import opened A2A

  datatype LockError = AlreadyAcquired | LockerClosed | ContextDone

  class InMemoryTaskLocker {
    var locks: map<string, bool>
    var closed: bool

    constructor ()
      ensures View() == Table({}, false)
    {
      locks, closed := map[], false;
    }

    ghost function View(): Table
      reads this
    {
      Table((set t | t in locks && locks[t]), closed)
    }

    method Lock(taskID: string, contextDone: bool) returns (r: Result<(), LockError>)
      modifies this
      ensures (View(), r) == TryLock(old(View()), taskID, contextDone)
      ensures if old(closed) then r == Err(LockerClosed)
              else if contextDone then r == Err(ContextDone)
              else if taskID in old(View()).held then r == Err(AlreadyAcquired)
              else r == Ok(())
      ensures View() == if r.Ok? then Table(old(View()).held + {taskID}, false) else old(View())
    {
      if closed {
        return Err(LockerClosed);
      }
      if contextDone {
        return Err(ContextDone);
      }
      if taskID in locks && locks[taskID] {
        return Err(AlreadyAcquired);
      }
      locks := locks[taskID := true];
      assert View().held == old(View()).held + {taskID};
      return Ok(());
    }

    /** The closure `Lock` returns for a task: it knows the task, not the acquisition it stems from. */
    method Unlock(taskID: string)
      modifies this
      ensures View() == DoUnlock(old(View()), taskID)
      ensures View() == Table(if closed then old(View()).held else old(View()).held - {taskID}, old(closed))
    {
      if !closed {
        locks := locks - {taskID};
      }
    }

    method Close()
      modifies this
      ensures View() == Table(if old(closed) then old(View()).held else {}, true)
    {
      if !closed {
        closed := true;
        locks := map[];
      }
    }
  }

  /** What the locker remembers: the locked tasks, and whether it is closed. */
  datatype Table = Table(held: set<string>, closed: bool)

  function TryLock(t: Table, taskID: string, contextDone: bool): (Table, Result<(), LockError>) {
    if t.closed then (t, Err(LockerClosed))
    else if contextDone then (t, Err(ContextDone))
    else if taskID in t.held then (t, Err(AlreadyAcquired))
    else (t.(held := t.held + {taskID}), Ok(()))
  }

  function DoUnlock(t: Table, taskID: string): Table {
    if t.closed then t else t.(held := t.held - {taskID})
  }

  // ------------------------------------------------------------------------- interleavings

  /** `grants` lists the locks given out, by grant; a grant is out until its unlock is called. */
  datatype Grant = Grant(taskID: string, out: bool)

  datatype State = State(table: Table, grants: map<nat, Grant>)

  datatype Action = Lock(g: nat, taskID: string, contextDone: bool) | Unlock(g: nat) | Close

  const INITIAL := State(Table({}, false), map[])

  function Step(s: State, a: Action): State {
    match a
    case Lock(g, taskID, contextDone) =>
      if g in s.grants then s
      else
        var (table, r) := TryLock(s.table, taskID, contextDone);
        if r.Ok? then State(table, s.grants[g := Grant(taskID, true)]) else s
    case Unlock(g) =>
      if g !in s.grants then s
      else State(DoUnlock(s.table, s.grants[g].taskID), s.grants[g := s.grants[g].(out := false)])
    case Close => s.(table := Table(if s.table.closed then s.table.held else {}, true))
  }

  function Exec(acts: seq<Action>): State {
    if acts == [] then INITIAL else Step(Exec(acts[..|acts| - 1]), acts[|acts| - 1])
  }

  /** No unlock is called twice. */
  ghost predicate Disciplined(acts: seq<Action>) {
    forall i, j :: 0 <= i < j < |acts| && acts[i].Unlock? && acts[j].Unlock? ==> acts[i].g != acts[j].g
  }

  predicate Out(s: State, g: nat) {
    g in s.grants && s.grants[g].out
  }

  /** Until it is closed, the table holds exactly the tasks of the grants that are out, one grant each. */
  ghost predicate Exclusive(s: State) {
    && (forall g, h: nat :: Out(s, g) && Out(s, h) && s.grants[g].taskID == s.grants[h].taskID ==> g == h)
    && (!s.table.closed ==> forall t :: t in s.table.held <==> exists g: nat :: Out(s, g) && s.grants[g].taskID == t)
  }

  /** A grant that is not out had its unlock called. */
  lemma {:induction false} ReturnedOnlyByUnlock(acts: seq<Action>, n: nat, g: nat)
    requires n <= |acts| && g in Exec(acts[..n]).grants && !Exec(acts[..n]).grants[g].out
    ensures exists i :: 0 <= i < n && acts[i] == Unlock(g)
  {
    if n == 0 {
    } else {
      assert acts[..n][..n - 1] == acts[..n - 1];
      if acts[n - 1] != Unlock(g) {
        ReturnedOnlyByUnlock(acts, n - 1, g);
      }
    }
  }

  lemma StepKeepsExclusive(s: State, a: Action)
    requires Exclusive(s)
    requires a.Unlock? && a.g in s.grants ==> s.grants[a.g].out
    ensures Exclusive(Step(s, a))
  {
    var s' := Step(s, a);
    match a {
      case Lock(g, taskID, _) =>
        if s' != s {
          assert Out(s', g);
          assert forall h: nat :: Out(s, h) ==> Out(s', h) && s.grants[h].taskID != taskID;
        }
      case Unlock(g) =>
        if g in s.grants {
          assert Out(s, g);
          assert forall h: nat :: Out(s', h) <==> Out(s, h) && h != g;
          forall t | t in s'.table.held && !s'.table.closed
            ensures exists h: nat :: Out(s', h) && s'.grants[h].taskID == t
          {
            var h: nat :| Out(s, h) && s.grants[h].taskID == t;
            assert h != g;
            assert Out(s', h);
          }
        }
      case Close =>
        assert forall h: nat :: Out(s', h) <==> Out(s, h);
    }
  }

  /** Mutual exclusion, in every interleaving in which each unlock is called at most once. */
  lemma {:induction false} MutualExclusion(acts: seq<Action>)
    requires Disciplined(acts)
    ensures Exclusive(Exec(acts))
  {
    if acts == [] {
    } else {
      var n := |acts| - 1;
      var init := acts[..n];
      MutualExclusion(init);
      if acts[n].Unlock? && acts[n].g in Exec(init).grants && !Exec(init).grants[acts[n].g].out {
        ReturnedOnlyByUnlock(acts, n, acts[n].g);
        assert false;
      }
      StepKeepsExclusive(Exec(init), acts[n]);
    }
  }

  /** An unlock frees its own lock and nobody else's: every other grant stays out and its task stays locked. */
  lemma UnlockFreesOnlyItsOwn(acts: seq<Action>, g: nat, h: nat)
    requires Disciplined(acts + [Unlock(g)])
    requires Out(Exec(acts), h) && h != g && !Exec(acts).table.closed
    ensures var s' := Exec(acts + [Unlock(g)]);
            Out(s', h) && s'.grants[h].taskID in s'.table.held
  {
    var all := acts + [Unlock(g)];
    assert all[..|acts|] == acts;
    assert Disciplined(acts) by {
      assert forall i :: 0 <= i < |acts| ==> all[i] == acts[i];
    }
    MutualExclusion(all);
    assert Out(Exec(all), h);
  }

  /** After closing no lock is granted any more. */
  lemma {:induction false} NoGrantAfterClose(acts: seq<Action>, later: seq<Action>)
    requires Exec(acts).table.closed
    ensures Exec(acts + later).table.closed
    ensures Exec(acts + later).grants.Keys == Exec(acts).grants.Keys
  {
    if later == [] {
      assert acts + later == acts;
    } else {
      var n := |later| - 1;
      NoGrantAfterClose(acts, later[..n]);
      assert (acts + later)[..|acts + later| - 1] == acts + later[..n];
    }
  }

  /** Exactly when an unlock is harmless: its grant is still out, or nobody holds that task. */
  lemma UnlockIsHarmlessIff(s: State, g: nat)
    requires Exclusive(s) && !s.table.closed && g in s.grants
    ensures Exclusive(Step(s, Unlock(g))) <==>
            s.grants[g].out || forall h: nat :: Out(s, h) ==> s.grants[h].taskID != s.grants[g].taskID
  {
    var s' := Step(s, Unlock(g));
    if s.grants[g].out {
      StepKeepsExclusive(s, Unlock(g));
    } else {
      assert forall h: nat :: Out(s', h) <==> Out(s, h);
      assert forall h: nat :: Out(s, h) ==> s'.grants[h].taskID == s.grants[h].taskID;
      if h: nat :| Out(s, h) && s.grants[h].taskID == s.grants[g].taskID {
        assert Out(s', h) && s'.grants[h].taskID !in s'.table.held;
      } else {
        assert s.grants[g].taskID !in s.table.held;
        assert s'.table.held == s.table.held;
      }
    }
  }

  /** Without the discipline it fails: a second call of an old unlock lets two holders in. */
  lemma SecondUnlockBreaksExclusion()
    ensures var acts := [Lock(0, "t", false), Unlock(0), Lock(1, "t", false), Unlock(0), Lock(2, "t", false)];
            Out(Exec(acts), 1) && Out(Exec(acts), 2) && Exec(acts).grants[1].taskID == Exec(acts).grants[2].taskID
  {
    var a0, a1, a2, a3, a4 := Lock(0, "t", false), Unlock(0), Lock(1, "t", false), Unlock(0), Lock(2, "t", false);
    var acts := [a0, a1, a2, a3, a4];
    assert acts[..4] == [a0, a1, a2, a3] && acts[..4][..3] == [a0, a1, a2] && acts[..4][..3][..2] == [a0, a1]
        && acts[..4][..3][..2][..1] == [a0];
    assert Exec([a0]) == Step(Exec([]), a0);
    assert Exec([a0, a1]) == Step(Exec([a0]), a1);
    assert Exec([a0, a1, a2]) == Step(Exec([a0, a1]), a2);
    assert Exec([a0, a1, a2, a3]) == Step(Exec([a0, a1, a2]), a3);
    assert Exec(acts) == Step(Exec([a0, a1, a2, a3]), a4);
  }
}
