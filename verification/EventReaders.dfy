/** Readers that poll a growing log: the blocking wait for completion and the event stream. */
module EventReaders {
  import opened A2A
  import opened EventLog
  import opened FileStores
  import Protocol = WriterProtocol

  const POLL_LIMIT := 100

  /**
    One turn of a poll loop: the context is done, the load failed, or it saw this log. For a stream, `cut` is the number
    of events sent before the context ended in the middle of sending, if it did.
   */
  datatype Tick = CtxDone | LoadFailed | Polled(log: seq<Event>, cut: Option<nat>)

  /** A later poll sees at least what an earlier one saw. */
  ghost predicate Growing(ticks: seq<Tick>) {
    forall i, j :: 0 <= i < j < |ticks| && ticks[i].Polled? && ticks[j].Polled? ==> ticks[i].log <= ticks[j].log
  }

  /** Polls taken along one run of the write protocol see a growing log. */
  lemma PollsOfARunGrow(s0: Protocol.State, acts: seq<Protocol.Action>, ticks: seq<Tick>, at: seq<nat>)
    requires Protocol.Init(s0) && |at| == |ticks|
    requires forall i, j :: 0 <= i < j < |at| ==> at[i] <= at[j]
    requires forall i :: 0 <= i < |at| ==> at[i] <= |acts|
    requires forall i :: 0 <= i < |ticks| && ticks[i].Polled? ==>
              ticks[i].log == Protocol.Exec(s0, acts[..at[i]]).cell.log
    ensures Growing(ticks)
  {
    hide Protocol.Exec, Protocol.Init;
    forall i, j | 0 <= i < j < |ticks| && ticks[i].Polled? && ticks[j].Polled?
      ensures ticks[i].log <= ticks[j].log
    {
      LaterLogIsLonger(s0, acts, at[i], at[j]);
    }
  }

  lemma LaterLogIsLonger(s0: Protocol.State, acts: seq<Protocol.Action>, m: nat, n: nat)
    requires Protocol.Init(s0) && m <= n <= |acts|
    ensures Protocol.Exec(s0, acts[..m]).cell.log <= Protocol.Exec(s0, acts[..n]).cell.log
  {
    hide Protocol.Exec, Protocol.Inv, Protocol.Init;
    Protocol.RunKeepsInv(s0, acts[..m]);
    Protocol.LogGrows(Protocol.Exec(s0, acts[..m]), acts[m..n]);
    Protocol.ExecConcat(s0, acts[..m], acts[m..n]);
    assert acts[..m] + acts[m..n] == acts[..n];
  }

  /** The version the reader has reached before turn `k`: the longest log seen so far. */
  function VersionAt(ticks: seq<Tick>, k: nat): (v: nat)
    requires k <= |ticks|
  {
    if k == 0 then 0
    else
      var v := VersionAt(ticks, k - 1);
      if ticks[k - 1].Polled? && |ticks[k - 1].log| > v then |ticks[k - 1].log| else v
  }

  function BatchAt(ticks: seq<Tick>, k: nat): seq<Event>
    requires k < |ticks| && ticks[k].Polled?
  {
    Window(ticks[k].log, VersionAt(ticks, k), POLL_LIMIT)
  }

  ghost predicate Backlogged(ticks: seq<Tick>, k: nat)
    requires k < |ticks|
  {
    ticks[k].Polled? && |ticks[k].log| > VersionAt(ticks, k) + POLL_LIMIT
  }

  lemma {:induction false} VersionIsSeen(ticks: seq<Tick>, j: nat, k: nat)
    requires j < k <= |ticks| && ticks[j].Polled?
    ensures VersionAt(ticks, j) <= VersionAt(ticks, k) && |ticks[j].log| <= VersionAt(ticks, k)
  {
    if j == k - 1 {
    } else {
      VersionIsSeen(ticks, j, k - 1);
    }
  }

  /** The version is the length of the longest log seen: none was longer, and some was as long unless it is zero. */
  lemma {:induction false} VersionIsLongestSeen(ticks: seq<Tick>, k: nat)
    requires k <= |ticks|
    ensures forall j: nat :: j < k && ticks[j].Polled? ==> |ticks[j].log| <= VersionAt(ticks, k)
    ensures VersionAt(ticks, k) > 0 ==>
              exists j: nat :: j < k && ticks[j].Polled? && |ticks[j].log| == VersionAt(ticks, k)
  {
    if k == 0 {
    } else {
      VersionIsLongestSeen(ticks, k - 1);
    }
  }

  /** What a poll gets: the events from the reader's version on, a hundred at most; a backlog is what is left behind. */
  lemma BatchMeaning(ticks: seq<Tick>, k: nat)
    requires k < |ticks| && ticks[k].Polled?
    ensures IsWindow(BatchAt(ticks, k), ticks[k].log, VersionAt(ticks, k), 100)
    ensures Backlogged(ticks, k) <==> |ticks[k].log| > VersionAt(ticks, k) + 100
  {
    WindowIsWindow(ticks[k].log, VersionAt(ticks, k), 100);
  }

  /** A reader is never ahead of the log it reads. */
  lemma {:induction false} VersionWithinLog(ticks: seq<Tick>, k: nat, j: nat)
    requires Growing(ticks) && k <= j < |ticks| && ticks[j].Polled?
    ensures VersionAt(ticks, k) <= |ticks[j].log|
  {
    if k == 0 {
    } else {
      VersionWithinLog(ticks, k - 1, j);
      assert ticks[k - 1].Polled? ==> ticks[k - 1].log <= ticks[j].log;
    }
  }

  // --------------------------------------------------------------------- the blocking wait

  predicate HasFinal(events: seq<Event>) {
    exists i :: 0 <= i < |events| && IsFinal(events[i])
  }

  datatype WaitEnd = Returned(at: nat) | Interrupted(at: nat) | StillWaiting

  /** The wait goes on past the first `k` turns. */
  ghost predicate Waits(ticks: seq<Tick>, k: nat)
    requires k <= |ticks|
  {
    forall j: nat :: j < k ==> !ticks[j].CtxDone? && (ticks[j].Polled? ==> !HasFinal(BatchAt(ticks, j)))
  }

  /** Returns nil at exactly the first poll whose batch holds a Final event, unless the context ends before. */
  method WaitForTaskCompletion(ticks: seq<Tick>) returns (end: WaitEnd)
    ensures end.Returned? ==>
              end.at < |ticks| && Waits(ticks, end.at) && ticks[end.at].Polled? && HasFinal(BatchAt(ticks, end.at))
    ensures end.Interrupted? ==> end.at < |ticks| && Waits(ticks, end.at) && ticks[end.at].CtxDone?
    ensures end.StillWaiting? ==> Waits(ticks, |ticks|)
  {
    var lastVersion := 0;
    var k := 0;
    while k < |ticks|
      invariant 0 <= k <= |ticks|
      invariant lastVersion == VersionAt(ticks, k)
      invariant Waits(ticks, k)
    {
      match ticks[k] {
        case CtxDone => return Interrupted(k);
        case LoadFailed =>
        case Polled(log, _) =>
          var events, nextVersion := Window(log, lastVersion, POLL_LIMIT), |log|;
          for i := 0 to |events|
            invariant forall j :: 0 <= j < i ==> !IsFinal(events[j])
          {
            if events[i].StatusChanged? && events[i].final {
              return Returned(k);
            }
          }
          if nextVersion > lastVersion {
            lastVersion := nextVersion;
          }
      }
      k := k + 1;
    }
    return StillWaiting;
  }

  /** In the log of a run the final events are the statuses that end a task. */
  lemma FinalEndsTask(s0: Protocol.State, acts: seq<Protocol.Action>, i: nat)
    requires Protocol.Init(s0) && i < |Protocol.Exec(s0, acts).cell.log|
    ensures var e := Protocol.Exec(s0, acts).cell.log[i];
            IsFinal(e) <==> e.StatusChanged? && e.status.state in {Completed, Failed, Canceled, Rejected}
  {
    Protocol.RunKeepsInv(s0, acts);
    var e := Protocol.Exec(s0, acts).cell.log[i];
    if e.StatusChanged? {
      TaskStates(e.status.state);
    }
  }

  /** Where the events of a batch sit in the log. */
  lemma BatchIndices(ticks: seq<Tick>, k: nat)
    requires k < |ticks| && ticks[k].Polled?
    ensures var v, log := VersionAt(ticks, k), ticks[k].log;
            && (v >= |log| ==> BatchAt(ticks, k) == [])
            && (v < |log| ==> |BatchAt(ticks, k)| == if |log| - v > POLL_LIMIT then POLL_LIMIT else |log| - v)
            && forall i :: 0 <= i < |BatchAt(ticks, k)| ==> v + i < |log| && BatchAt(ticks, k)[i] == log[v + i]
  {
  }

  /** The first poll to see a Final event at all, and the earliest such event. */
  ghost predicate FirstSight(ticks: seq<Tick>, k: nat, i: nat) {
    && k < |ticks| && ticks[k].Polled? && i < |ticks[k].log| && IsFinal(ticks[k].log[i])
    && (forall n :: 0 <= n < i ==> !IsFinal(ticks[k].log[n]))
    && (forall j: nat :: j < k && ticks[j].Polled? ==> !HasFinal(ticks[j].log))
  }

  lemma BatchWithoutFinal(ticks: seq<Tick>, k: nat)
    requires k < |ticks| && ticks[k].Polled? && !HasFinal(ticks[k].log)
    ensures !HasFinal(BatchAt(ticks, k))
  {
    BatchIndices(ticks, k);
  }

  /** The poll that first sees a Final event ends the wait if and only if the event is within its batch. */
  lemma FirstSightEndsWait(ticks: seq<Tick>, k: nat, i: nat)
    requires Growing(ticks) && FirstSight(ticks, k, i)
    ensures HasFinal(BatchAt(ticks, k)) <==> i < VersionAt(ticks, k) + POLL_LIMIT
    ensures !Backlogged(ticks, k) ==> HasFinal(BatchAt(ticks, k))
    ensures forall j: nat :: j < k && ticks[j].Polled? ==> !HasFinal(BatchAt(ticks, j))
  {
    hide BatchAt, VersionAt, Growing;
    BatchIndices(ticks, k);
    var v, log, batch := VersionAt(ticks, k), ticks[k].log, BatchAt(ticks, k);
    VersionBeforeFinal(ticks, k, k, i);
    if i < v + POLL_LIMIT {
      assert IsFinal(batch[i - v]);
    } else {
      forall n | 0 <= n < |batch|
        ensures !IsFinal(batch[n])
      {
        assert batch[n] == log[v + n];
      }
    }
    forall j: nat | j < k && ticks[j].Polled?
      ensures !HasFinal(BatchAt(ticks, j))
    {
      BatchWithoutFinal(ticks, j);
    }
  }

  lemma UnseenFinal(ticks: seq<Tick>, k: nat, j: nat, i: nat)
    requires Growing(ticks) && FirstSight(ticks, k, i) && j < k && ticks[j].Polled?
    ensures |ticks[j].log| <= i
  {
    assert !HasFinal(ticks[j].log) && ticks[j].log <= ticks[k].log;
    assert forall n :: 0 <= n < |ticks[j].log| ==> ticks[j].log[n] == ticks[k].log[n];
  }

  /** Until a Final event is seen the reader has not passed it. */
  lemma {:induction false} VersionBeforeFinal(ticks: seq<Tick>, k: nat, m: nat, i: nat)
    requires Growing(ticks) && FirstSight(ticks, k, i) && m <= k
    ensures VersionAt(ticks, m) <= i
  {
    if m == 0 {
    } else {
      VersionBeforeFinal(ticks, k, m - 1, i);
      if ticks[m - 1].Polled? {
        UnseenFinal(ticks, k, m - 1, i);
      }
    }
  }

  /**
    A Final event beyond the batch of the poll that first saw it is skipped: no later batch holds that position, so a
    wait whose log holds no other Final event never returns, although the task has ended.
   */
  lemma MissedFinalIsMissedForever(ticks: seq<Tick>, k: nat, i: nat, j: nat)
    requires Growing(ticks) && FirstSight(ticks, k, i) && i >= VersionAt(ticks, k) + POLL_LIMIT
    requires k <= j < |ticks| && ticks[j].Polled?
    requires forall n :: 0 <= n < |ticks[j].log| && IsFinal(ticks[j].log[n]) ==> n == i
    ensures !HasFinal(BatchAt(ticks, j))
  {
    BatchIndices(ticks, j);
    if j > k {
      VersionIsSeen(ticks, k, j);
    }
  }

  lemma FirstSightIsFinal(ticks: seq<Tick>, k: nat, i: nat)
    requires FirstSight(ticks, k, i)
    ensures HasFinal(ticks[k].log)
  {
  }

  /** With backlogs within the limit, the wait ends at the first poll after the earliest Final event was appended. */
  lemma PromptWithoutBacklog(ticks: seq<Tick>, k: nat)
    requires Growing(ticks) && k < |ticks| && ticks[k].Polled?
    requires forall j: nat :: j <= k ==> !Backlogged(ticks, j)
    ensures (HasFinal(BatchAt(ticks, k)) && forall j: nat :: j < k && ticks[j].Polled? ==> !HasFinal(BatchAt(ticks, j)))
       <==> (HasFinal(ticks[k].log) && forall j: nat :: j < k && ticks[j].Polled? ==> !HasFinal(ticks[j].log))
  {
    hide BatchAt, VersionAt, HasFinal, Growing;
    if HasFinal(ticks[k].log) {
      var f, i := FirstFinal(ticks, k);
      FirstSightEndsWait(ticks, f, i);
      FirstSightIsFinal(ticks, f, i);
    } else {
      BatchWithoutFinal(ticks, k);
    }
  }

  lemma FirstFinal(ticks: seq<Tick>, k: nat) returns (f: nat, i: nat)
    requires k < |ticks| && ticks[k].Polled? && HasFinal(ticks[k].log)
    ensures f <= k && FirstSight(ticks, f, i)
  {
    f := 0;
    while !(ticks[f].Polled? && HasFinal(ticks[f].log))
      invariant f <= k
      invariant forall j: nat :: j < f && ticks[j].Polled? ==> !HasFinal(ticks[j].log)
      decreases k - f
    {
      f := f + 1;
    }
    i := 0;
    while !IsFinal(ticks[f].log[i])
      invariant i < |ticks[f].log|
      invariant forall n :: 0 <= n < i ==> !IsFinal(ticks[f].log[n])
      invariant exists n :: i <= n < |ticks[f].log| && IsFinal(ticks[f].log[n])
      decreases |ticks[f].log| - i
    {
      i := i + 1;
    }
  }

  // ------------------------------------------------------------------------------ the stream

  function Range(from: nat, to: nat): (r: seq<nat>)
    requires from <= to
    ensures |r| == to - from
  {
    seq(to - from, i requires 0 <= i < to - from => from + i)
  }

  /** The log positions a poll's batch covers. */
  function PositionsAt(ticks: seq<Tick>, k: nat): seq<nat>
    requires k < |ticks|
  {
    if !ticks[k].Polled? then []
    else Range(VersionAt(ticks, k), VersionAt(ticks, k) + |BatchAt(ticks, k)|)
  }

  /** The log positions sent by the first `k` turns when each was completed. */
  function PositionsUpTo(ticks: seq<Tick>, k: nat): seq<nat>
    requires k <= |ticks|
  {
    if k == 0 then [] else PositionsUpTo(ticks, k - 1) + PositionsAt(ticks, k - 1)
  }

  /** The log positions sent by the first `k` turns and by the first `n` events of the batch after them. */
  function Delivered(ticks: seq<Tick>, k: nat, n: nat): seq<nat>
    requires k <= |ticks|
  {
    PositionsUpTo(ticks, k) + Range(VersionAt(ticks, k), VersionAt(ticks, k) + n)
  }

  /** Task events are trimmed to the requested history; negative lengths and no length keep everything. */
  function Trim(e: Event, historyLength: Option<int>): Event {
    if !e.TaskCreated? || historyLength.None? || historyLength.value < 0 then e
    else
      var h := e.task.history;
      if historyLength.value == 0 then TaskCreated(e.task.(history := []))
      else if historyLength.value < |h| then TaskCreated(e.task.(history := h[|h| - historyLength.value..]))
      else e
  }

  /**
    What the reader gets for an event: a created task with its last messages when a number of them is asked for, and
    otherwise the event as it was logged.
   */
  ghost predicate ShownAs(e: Event, shown: Event, historyLength: Option<int>) {
    if e.TaskCreated? && historyLength.Some? && historyLength.value >= 0 then
      && shown.TaskCreated? && shown.task.(history := e.task.history) == e.task
      && |shown.task.history| <= |e.task.history|
      && shown.task.history == e.task.history[|e.task.history| - |shown.task.history|..]
      && |shown.task.history| ==
           if historyLength.value < |e.task.history| then historyLength.value else |e.task.history|
    else shown == e
  }

  lemma TrimShows(e: Event, historyLength: Option<int>)
    ensures ShownAs(e, Trim(e, historyLength), historyLength)
  {
    if e.TaskCreated? {
      assert e.task.history[0..] == e.task.history;
    }
  }

  ghost predicate Shows(delivered: seq<Event>, positions: seq<nat>, log: seq<Event>, historyLength: Option<int>) {
    && |delivered| == |positions|
    && forall i :: 0 <= i < |delivered| ==>
          positions[i] < |log| && ShownAs(log[positions[i]], delivered[i], historyLength)
  }

  /** The most that was ever seen of the log before turn `k`. */
  function SeenLog(ticks: seq<Tick>, k: nat): seq<Event>
    requires k <= |ticks|
  {
    if k == 0 then []
    else if ticks[k - 1].Polled? then ticks[k - 1].log
    else SeenLog(ticks, k - 1)
  }

  datatype StreamEnd = ClosedAfterFinal(at: nat) | ClosedByContext(at: nat) | StillOpen

  lemma {:induction false} SeenLogGrows(ticks: seq<Tick>, k: nat, j: nat)
    requires Growing(ticks) && k <= j < |ticks| && ticks[j].Polled?
    ensures SeenLog(ticks, k) <= ticks[j].log
  {
    if k == 0 {
    } else {
      if !ticks[k - 1].Polled? {
        SeenLogGrows(ticks, k - 1, j);
      }
    }
  }

  lemma NothingShown(ticks: seq<Tick>, historyLength: Option<int>)
    ensures Streams(ticks, 0) && PositionsUpTo(ticks, 0) == [] && Shows([], [], [], historyLength)
    ensures forall e, shown :: IsFinal(e) && ShownAs(e, shown, historyLength) ==> shown == e
  {
  }

  lemma NothingSent(ticks: seq<Tick>, k: nat)
    requires k < |ticks| && ticks[k].LoadFailed?
    ensures PositionsUpTo(ticks, k + 1) == PositionsUpTo(ticks, k)
  {
  }

  lemma ShowsMore(delivered: seq<Event>, positions: seq<nat>, log: seq<Event>, longer: seq<Event>,
      historyLength: Option<int>)
    requires Shows(delivered, positions, log, historyLength) && log <= longer
    ensures Shows(delivered, positions, longer, historyLength)
  {
  }

  /** Sends a batch, trimmed, unless the context ends after `cut` of its events. */
  method SendBatch(events: seq<Event>, cut: Option<nat>, historyLength: Option<int>) returns (sent: seq<Event>)
    ensures |sent| == if cut.Some? && cut.value < |events| then cut.value else |events|
    ensures forall i :: 0 <= i < |sent| ==> ShownAs(events[i], sent[i], historyLength)
  {
    sent := [];
    var i := 0;
    while i < |events|
      invariant 0 <= i == |sent| <= |events|
      invariant cut.Some? && cut.value < |events| ==> i <= cut.value
      invariant forall j :: 0 <= j < i ==> ShownAs(events[j], sent[j], historyLength)
    {
      if cut == Some(i) {
        return;
      }
      TrimShows(events[i], historyLength);
      sent := sent + [Trim(events[i], historyLength)];
      i := i + 1;
    }
  }

  /** Sending the first `|sent|` events of a batch. */
  lemma BatchShown(ticks: seq<Tick>, k: nat, delivered: seq<Event>, sent: seq<Event>, historyLength: Option<int>)
    requires Growing(ticks) && k < |ticks| && ticks[k].Polled? && |sent| <= |BatchAt(ticks, k)|
    requires Shows(delivered, PositionsUpTo(ticks, k), SeenLog(ticks, k), historyLength)
    requires forall i :: 0 <= i < |sent| ==> ShownAs(BatchAt(ticks, k)[i], sent[i], historyLength)
    ensures Shows(delivered + sent, Delivered(ticks, k, |sent|), ticks[k].log, historyLength)
    ensures |sent| == |BatchAt(ticks, k)| ==> Delivered(ticks, k, |sent|) == PositionsUpTo(ticks, k + 1)
  {
    hide PositionsUpTo, VersionAt, Growing, ShownAs, SeenLog, BatchAt;
    SeenLogGrows(ticks, k, k);
    ShowsMore(delivered, PositionsUpTo(ticks, k), SeenLog(ticks, k), ticks[k].log, historyLength);
    BatchIndices(ticks, k);
    WholeBatch(ticks, k);
  }

  lemma WholeBatch(ticks: seq<Tick>, k: nat)
    requires k < |ticks| && ticks[k].Polled?
    ensures Delivered(ticks, k, |BatchAt(ticks, k)|) == PositionsUpTo(ticks, k + 1)
  {
    hide VersionAt, BatchAt;
    assert PositionsUpTo(ticks, k + 1) == PositionsUpTo(ticks, k) + PositionsAt(ticks, k);
  }

  predicate EndsFinal(events: seq<Event>) {
    events != [] && IsFinal(events[|events| - 1])
  }

  /**
    A poll's batch ends the stream exactly when it brought something and the last event it brought is a final status:
    the last one of the log, or the hundredth of a backlog.
   */
  lemma BatchEndsStreamIff(ticks: seq<Tick>, k: nat)
    requires k < |ticks| && ticks[k].Polled?
    ensures var v, log := VersionAt(ticks, k), ticks[k].log;
            var last := if |log| > v + 100 then v + 99 else |log| - 1;
            EndsFinal(BatchAt(ticks, k)) <==> v < |log| && log[last].StatusChanged? && log[last].final
  {
    BatchIndices(ticks, k);
  }

  /** The context ends while the batch of this poll is being sent. */
  predicate CutShort(ticks: seq<Tick>, k: nat)
    requires k < |ticks| && ticks[k].Polled?
  {
    ticks[k].cut.Some? && ticks[k].cut.value < |BatchAt(ticks, k)|
  }

  /** The stream goes on past the first `k` turns. */
  ghost predicate Streams(ticks: seq<Tick>, k: nat)
    requires k <= |ticks|
  {
    forall j: nat :: j < k ==>
      !ticks[j].CtxDone? && (ticks[j].Polled? ==> !CutShort(ticks, j) && !EndsFinal(BatchAt(ticks, j)))
  }

  lemma StreamsOn(ticks: seq<Tick>, k: nat)
    requires k < |ticks| && Streams(ticks, k) && !ticks[k].CtxDone?
    requires ticks[k].Polled? ==> !CutShort(ticks, k) && !EndsFinal(BatchAt(ticks, k))
    ensures Streams(ticks, k + 1)
  {
  }

  /**
    The stream loop. `positions` tells from where in the log each delivered event came: the batches of the completed
    polls, then as much of the last batch as was sent before the context ended.
   */
  method StreamTaskEvents(ticks: seq<Tick>, historyLength: Option<int>)
    returns (delivered: seq<Event>, positions: seq<nat>, end: StreamEnd)
    requires Growing(ticks)
    ensures end.ClosedAfterFinal? ==>
              && end.at < |ticks| && Streams(ticks, end.at)
              && ticks[end.at].Polled? && !CutShort(ticks, end.at) && EndsFinal(BatchAt(ticks, end.at))
              && positions == PositionsUpTo(ticks, end.at + 1)
              && Shows(delivered, positions, ticks[end.at].log, historyLength)
              && delivered != [] && IsFinal(delivered[|delivered| - 1])
    ensures end.ClosedByContext? ==>
              && end.at < |ticks| && Streams(ticks, end.at) && !ticks[end.at].LoadFailed?
              && (ticks[end.at].CtxDone? ==> positions == PositionsUpTo(ticks, end.at))
              && (ticks[end.at].Polled? ==>
                    CutShort(ticks, end.at) && positions == Delivered(ticks, end.at, ticks[end.at].cut.value))
              && Shows(delivered, positions, SeenLog(ticks, end.at + 1), historyLength)
    ensures end.StillOpen? ==>
              && Streams(ticks, |ticks|)
              && positions == PositionsUpTo(ticks, |ticks|)
              && Shows(delivered, positions, SeenLog(ticks, |ticks|), historyLength)
  {
    hide Window, Range, Growing, Shows, ShownAs, PositionsUpTo, PositionsAt, Streams;
    NothingShown(ticks, historyLength);
    delivered, positions := [], [];
    var lastVersion := 0;
    var k := 0;
    while k < |ticks|
      invariant 0 <= k <= |ticks|
      invariant lastVersion == VersionAt(ticks, k)
      invariant positions == PositionsUpTo(ticks, k)
      invariant Streams(ticks, k)
      invariant Shows(delivered, positions, SeenLog(ticks, k), historyLength)
    {
      match ticks[k] {
        case CtxDone =>
          return delivered, positions, ClosedByContext(k);
        case LoadFailed => NothingSent(ticks, k);
        case Polled(log, cut) =>
          var events, nextVersion := Window(log, lastVersion, POLL_LIMIT), |log|;
          var sent := SendBatch(events, cut, historyLength);
          BatchShown(ticks, k, delivered, sent, historyLength);
          delivered, positions := delivered + sent, positions + Range(lastVersion, lastVersion + |sent|);
          if |sent| < |events| {
            return delivered, positions, ClosedByContext(k);
          }
          if nextVersion > lastVersion {
            lastVersion := nextVersion;
          }
          if |events| > 0 {
            var lastEvent := events[|events| - 1];
            if lastEvent.StatusChanged? && lastEvent.final {
              return delivered, positions, ClosedAfterFinal(k);
            }
          }
      }
      StreamsOn(ticks, k);
      k := k + 1;
    }
    return delivered, positions, StillOpen;
  }

  // ---------------------------------------------------------------------------- what a stream misses

  ghost predicate Increasing(p: seq<nat>) {
    forall i, j :: 0 <= i < j < |p| ==> p[i] < p[j]
  }

  ghost predicate Gapless(p: seq<nat>) {
    forall i :: 0 <= i < |p| ==> p[i] == i
  }

  ghost predicate NeverBacklogged(ticks: seq<Tick>, k: nat)
    requires k <= |ticks|
  {
    forall j: nat :: j < k ==> !Backlogged(ticks, j)
  }

  /**
    One completed turn: it sends from the reader's version on, and less than the version moves exactly in a backlog.
   */
  lemma Turn(ticks: seq<Tick>, k: nat)
    requires k < |ticks|
    ensures var v, w, b := VersionAt(ticks, k), VersionAt(ticks, k + 1), |PositionsAt(ticks, k)|;
            && PositionsUpTo(ticks, k + 1) == PositionsUpTo(ticks, k) + PositionsAt(ticks, k)
            && PositionsAt(ticks, k) == Range(v, v + b)
            && v + b <= w && (b == 0 <==> v == w)
            && (Backlogged(ticks, k) <==> v + b < w)
  {
    if ticks[k].Polled? {
      BatchIndices(ticks, k);
    }
  }

  ghost predicate Below(p: seq<nat>, bound: nat) {
    forall i :: 0 <= i < |p| ==> p[i] < bound
  }

  lemma IncreasingMore(p: seq<nat>, from: nat, to: nat, bound: nat)
    requires Increasing(p) && Below(p, from) && from <= to <= bound
    ensures Increasing(p + Range(from, to)) && Below(p + Range(from, to), bound)
  {
    var q := p + Range(from, to);
    forall i, j | 0 <= i < j < |q|
      ensures q[i] < q[j]
    {
      assert q[i] == if i < |p| then p[i] else from + (i - |p|);
      assert q[j] == if j < |p| then p[j] else from + (j - |p|);
    }
  }

  lemma NothingIncreases(ticks: seq<Tick>)
    ensures Increasing(PositionsUpTo(ticks, 0)) && Below(PositionsUpTo(ticks, 0), VersionAt(ticks, 0))
  {
  }

  /** How many events a completed turn sends. */
  lemma SentBy(ticks: seq<Tick>, k: nat) returns (b: nat)
    requires k < |ticks|
    ensures PositionsUpTo(ticks, k + 1) == PositionsUpTo(ticks, k) + Range(VersionAt(ticks, k), VersionAt(ticks, k) + b)
    ensures VersionAt(ticks, k) + b <= VersionAt(ticks, k + 1)
  {
    hide VersionAt, PositionsAt, PositionsUpTo, Range, Backlogged;
    Turn(ticks, k);
    b := |PositionsAt(ticks, k)|;
  }

  /** Sent positions increase strictly (no event twice, none out of order) and stay below the reader's version. */
  lemma {:induction false} PositionsIncrease(ticks: seq<Tick>, k: nat)
    requires k <= |ticks|
    ensures Increasing(PositionsUpTo(ticks, k)) && Below(PositionsUpTo(ticks, k), VersionAt(ticks, k))
  {
    hide VersionAt, PositionsUpTo, Increasing, Below, Range;
    if k == 0 {
      NothingIncreases(ticks);
    } else {
      var p, v := PositionsUpTo(ticks, k - 1), VersionAt(ticks, k - 1);
      PositionsIncrease(ticks, k - 1);
      var b := SentBy(ticks, k - 1);
      assert PositionsUpTo(ticks, k) == p + Range(v, v + b) && v + b <= VersionAt(ticks, k);
      IncreasingMore(p, v, v + b, VersionAt(ticks, k));
    }
  }

  /** Also with a last batch that the context cut short. */
  lemma DeliveredIncrease(ticks: seq<Tick>, k: nat, n: nat)
    requires k <= |ticks|
    ensures Increasing(Delivered(ticks, k, n))
  {
    hide VersionAt, PositionsUpTo, Increasing, Below, Range;
    PositionsIncrease(ticks, k);
    var v := VersionAt(ticks, k);
    IncreasingMore(PositionsUpTo(ticks, k), v, v + n, v + n);
  }

  /** Turns send something exactly when the reader's version moves. */
  lemma {:induction false} SentIffMoved(ticks: seq<Tick>, j: nat, k: nat)
    requires j <= k <= |ticks|
    ensures PositionsUpTo(ticks, j) <= PositionsUpTo(ticks, k) && VersionAt(ticks, j) <= VersionAt(ticks, k)
    ensures |PositionsUpTo(ticks, j)| < |PositionsUpTo(ticks, k)| <==> VersionAt(ticks, j) < VersionAt(ticks, k)
    ensures forall i :: |PositionsUpTo(ticks, j)| <= i < |PositionsUpTo(ticks, k)| ==>
              PositionsUpTo(ticks, k)[i] >= VersionAt(ticks, j)
  {
    hide VersionAt, PositionsAt, PositionsUpTo;
    if j == k {
    } else {
      SentIffMoved(ticks, j, k - 1);
      Turn(ticks, k - 1);
    }
  }

  /** No more is sent than the version says, and as much exactly when no poll found more than its limit waiting. */
  lemma {:induction false} SentUpToVersion(ticks: seq<Tick>, k: nat)
    requires k <= |ticks|
    ensures |PositionsUpTo(ticks, k)| <= VersionAt(ticks, k)
    ensures |PositionsUpTo(ticks, k)| == VersionAt(ticks, k) <==> NeverBacklogged(ticks, k)
    ensures NeverBacklogged(ticks, k) ==> Gapless(PositionsUpTo(ticks, k))
  {
    hide PositionsAt, Backlogged;
    if k == 0 {
    } else {
      SentUpToVersion(ticks, k - 1);
      Turn(ticks, k - 1);
      assert NeverBacklogged(ticks, k) <==> NeverBacklogged(ticks, k - 1) && !Backlogged(ticks, k - 1);
    }
  }

  /** Everything below the reader's version was sent if and only if no poll found more than its limit waiting. */
  lemma CompleteIffNeverBacklogged(ticks: seq<Tick>, k: nat)
    requires k <= |ticks|
    ensures PositionsUpTo(ticks, k) == Range(0, VersionAt(ticks, k)) <==> NeverBacklogged(ticks, k)
  {
    hide PositionsUpTo, VersionAt, NeverBacklogged;
    SentUpToVersion(ticks, k);
  }

  /**
    What was delivered has no gap if and only if the reader did not move on after a poll that found more than its limit
    waiting: its version stayed what that poll made it, and nothing of a last, cut batch was sent.
   */
  lemma GaplessIffQuietAfterBacklog(ticks: seq<Tick>, k: nat, n: nat)
    requires k <= |ticks|
    ensures Gapless(Delivered(ticks, k, n)) <==>
            forall j: nat :: j < k && Backlogged(ticks, j) ==> n == 0 && VersionAt(ticks, k) == VersionAt(ticks, j + 1)
  {
    hide PositionsUpTo, VersionAt, Backlogged, Gapless, Delivered;
    if j: nat :| j < k && Backlogged(ticks, j) && !(n == 0 && VersionAt(ticks, k) == VersionAt(ticks, j + 1)) {
      BacklogLeavesGap(ticks, j, k, n);
    } else if NeverBacklogged(ticks, k) {
      GaplessWithoutBacklog(ticks, k, n);
    } else {
      GaplessUntilBacklog(ticks, k);
      assert Delivered(ticks, k, n) == PositionsUpTo(ticks, k) by {
        NothingCut(ticks, k);
      }
    }
  }

  lemma NothingCut(ticks: seq<Tick>, k: nat)
    requires k <= |ticks|
    ensures Delivered(ticks, k, 0) == PositionsUpTo(ticks, k)
  {
  }

  /** Whatever is sent after a backlog is further on in the log than in the stream. */
  lemma BacklogLeavesGap(ticks: seq<Tick>, j: nat, k: nat, n: nat)
    requires j < k <= |ticks| && Backlogged(ticks, j) && (n > 0 || VersionAt(ticks, k) != VersionAt(ticks, j + 1))
    ensures !Gapless(Delivered(ticks, k, n))
  {
    hide PositionsUpTo, VersionAt, PositionsAt;
    var p, q := PositionsUpTo(ticks, j + 1), Delivered(ticks, k, n);
    SentUpToVersion(ticks, j);
    Turn(ticks, j);
    assert |p| < VersionAt(ticks, j + 1);
    SentIffMoved(ticks, j + 1, k);
    assert |p| < |q|;
    assert q[|p|] >= VersionAt(ticks, j + 1);
  }

  lemma GaplessWithoutBacklog(ticks: seq<Tick>, k: nat, n: nat)
    requires k <= |ticks| && NeverBacklogged(ticks, k)
    ensures Gapless(Delivered(ticks, k, n))
  {
    hide PositionsUpTo, VersionAt, NeverBacklogged;
    SentUpToVersion(ticks, k);
  }

  /**
    A reader that stands still after its first backlog has sent a prefix of the log: the rest of that backlog is
    missing.
   */
  lemma GaplessUntilBacklog(ticks: seq<Tick>, k: nat)
    requires k <= |ticks| && !NeverBacklogged(ticks, k)
    requires forall j: nat :: j < k && Backlogged(ticks, j) ==> VersionAt(ticks, k) == VersionAt(ticks, j + 1)
    ensures Gapless(PositionsUpTo(ticks, k))
  {
    hide PositionsUpTo, VersionAt, PositionsAt, Backlogged;
    var j: nat :| j < k && Backlogged(ticks, j);
    Turn(ticks, j);
    forall i: nat | i < j
      ensures !Backlogged(ticks, i)
    {
      SentIffMoved(ticks, i + 1, j);
    }
    SentUpToVersion(ticks, j);
    SentIffMoved(ticks, j + 1, k);
  }
}
