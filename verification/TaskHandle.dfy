/** The agent's differential reads: take a checkpoint now, later ask for what was added since. */
module TaskHandles {
  import opened A2A
  import opened EventLog
  import opened FileStores
  import Protocol = WriterProtocol

  function LastMessageID(history: seq<Message>): string {
    if history == [] then "" else history[|history| - 1].messageID
  }

  /** The position of the first message with this id, or the length of the history. */
  function FirstWithID(history: seq<Message>, id: string): (i: nat)
    ensures i <= |history|
    ensures i < |history| ==> history[i].messageID == id
    ensures forall j :: 0 <= j < i ==> history[j].messageID != id
  {
    if history == [] || history[0].messageID == id then 0 else 1 + FirstWithID(history[1..], id)
  }

  /** The empty id asks for everything; an unknown id yields nothing. */
  function HistorySince(history: seq<Message>, sinceMessageID: string): seq<Message> {
    if sinceMessageID == "" then history
    else
      var i := FirstWithID(history, sinceMessageID);
      if i < |history| then history[i + 1..] else []
  }

  /**
    What is asked for with an id: everything with the empty one, nothing with an unknown one, and otherwise what follows
    the first message that has it.
   */
  ghost predicate Since(history: seq<Message>, id: string, r: seq<Message>) {
    if id == "" then r == history
    else
      && ((forall j :: 0 <= j < |history| ==> history[j].messageID != id) ==> r == [])
      && (forall i :: 0 <= i < |history| && IsFirst(history, id, i) ==> r == history[i + 1..])
  }

  ghost predicate IsFirst(history: seq<Message>, id: string, i: nat)
    requires i < |history|
  {
    history[i].messageID == id && forall j :: 0 <= j < i ==> history[j].messageID != id
  }

  lemma HistorySinceMeaning(history: seq<Message>, id: string)
    ensures Since(history, id, HistorySince(history, id))
  {
    if id != "" {
      var first := FirstWithID(history, id);
      forall i | 0 <= i < |history| && IsFirst(history, id, i)
        ensures i == first
      {
      }
    }
  }

  /** The first message with an id, or the end of the history without one, settles what is handed out. */
  lemma FirstSettles(history: seq<Message>, id: string, i: nat)
    requires i <= |history| && (i < |history| ==> history[i].messageID == id)
    requires forall j :: 0 <= j < i ==> history[j].messageID != id
    ensures id != "" && i < |history| ==> HistorySince(history, id) == history[i + 1..]
    ensures id != "" && i == |history| ==> HistorySince(history, id) == []
  {
    assert FirstWithID(history, id) == i;
  }

  lemma EmptyIdAsksForAll(history: seq<Message>)
    ensures HistorySince(history, "") == history
  {
  }

  class TaskHandle {
    const contextID: string
    const taskID: string
    const store: FileStore

    constructor (contextID: string, taskID: string, store: FileStore)
      ensures this.contextID == contextID && this.taskID == taskID && this.store == store
    {
      this.contextID, this.taskID, this.store := contextID, taskID, store;
    }

    function Cell(): Cell
      reads store
    {
      store.At(contextID, taskID)
    }

    method GetLastMessageID() returns (r: Result<string, StoreError>)
      ensures r == if Cell().snapshot.None? then Err(TaskNotFound)
                   else Ok(LastMessageID(Cell().snapshot.value.task.history))
      ensures r.Ok? && Cell().snapshot.value.task.history == [] ==> r.value == ""
      ensures forall h: seq<Message>, m: Message ::
                r.Ok? && Cell().snapshot.value.task.history == h + [m] ==> r.value == m.messageID
    {
      hide KeepsLast;
      var got := store.GetTask(taskID, -1);
      assert got == CellGet(Cell(), -1);
      if got.Err? {
        return Err(got.error);
      }
      var history := got.value.0.history;
      if |history| == 0 {
        return Ok("");
      }
      return Ok(history[|history| - 1].messageID);
    }

    method GetHistorySince(sinceMessageID: string) returns (r: Result<seq<Message>, StoreError>)
      ensures r == if Cell().snapshot.None? then Err(TaskNotFound)
                   else Ok(HistorySince(Cell().snapshot.value.task.history, sinceMessageID))
      ensures r.Ok? ==> Cell().snapshot.Some? && Since(Cell().snapshot.value.task.history, sinceMessageID, r.value)
    {
      hide Since, HistorySince, KeepsLast;
      var got := store.GetTask(taskID, -1);
      assert got == CellGet(Cell(), -1);
      if got.Err? {
        return Err(got.error);
      }
      var history := got.value.0.history;
      HistorySinceMeaning(history, sinceMessageID);
      if sinceMessageID == "" {
        EmptyIdAsksForAll(history);
        return Ok(history);
      }
      var afterIndex := |history|;
      var i := 0;
      while i < |history|
        invariant 0 <= i <= |history| && afterIndex == |history|
        invariant forall j :: 0 <= j < i ==> history[j].messageID != sinceMessageID
      {
        if history[i].messageID == sinceMessageID {
          afterIndex := i + 1;
          break;
        }
        i := i + 1;
      }
      FirstSettles(history, sinceMessageID, i);
      if afterIndex < |history| {
        return Ok(history[afterIndex..]);
      }
      assert history[|history|..] == [];
      return Ok([]);
    }

    method GetLastEventVersion() returns (version: nat)
      ensures version == Cell().logVersion
    {
      var _, v := store.Load(contextID, taskID, 0, -1);
      version := v;
    }

    method GetEventsSince(sinceVersion: nat) returns (events: seq<Event>)
      ensures events == if sinceVersion < |Cell().log| then Cell().log[sinceVersion..] else []
    {
      var batch, _ := store.Load(contextID, taskID, sinceVersion, -1);
      events := batch;
    }
  }

  /** One history extends another: message for message the same in front, up to the stamps. */
  ghost predicate Extends(earlier: seq<Message>, later: seq<Message>) {
    && |earlier| <= |later|
    && forall i :: 0 <= i < |earlier| ==> EraseMessage(earlier[i]) == EraseMessage(later[i])
  }

  /** The last id marks its place: it is not empty and no earlier message of the history has it. */
  ghost predicate MarksEnd(history: seq<Message>) {
    history != [] ==>
      && LastMessageID(history) != ""
      && forall i :: 0 <= i < |history| - 1 ==> history[i].messageID != LastMessageID(history)
  }

  /** A checkpoint by message id gives exactly what was added since if and only if the id marked the end back then. */
  lemma HistoryCheckpoint(earlier: seq<Message>, later: seq<Message>)
    requires Extends(earlier, later)
    ensures HistorySince(later, LastMessageID(earlier)) == later[|earlier|..] <==> MarksEnd(earlier)
  {
    var n := |earlier|;
    if n > 0 && LastMessageID(earlier) != "" {
      var i := FirstWithID(later, LastMessageID(earlier));
      assert later[n - 1].messageID == LastMessageID(earlier);
      assert i <= n - 1;
      assert |later[i + 1..]| == |later| - i - 1 && |later[n..]| == |later| - n;
    } else if n > 0 {
      assert |later[n..]| == |later| - n;
    }
  }

  lemma DistinctIdsMarkEnd(history: seq<Message>)
    requires forall i :: 0 <= i < |history| ==> history[i].messageID != ""
    requires forall i, j :: 0 <= i < j < |history| ==> history[i].messageID != history[j].messageID
    ensures MarksEnd(history)
  {
  }

  /** The messages that a stretch of the log adds. */
  ghost function MessagesOf(events: seq<Event>): seq<Message> {
    if events == [] then []
    else
      var last := events[|events| - 1];
      MessagesOf(events[..|events| - 1]) + if last.MessageAdded? then [last.message] else []
  }

  lemma {:induction false} ReplayExtendsHistory(log: seq<Event>, v: nat, w: nat)
    requires Protocol.GoodLog(log) && 0 < v <= w <= |log|
    ensures Replay(log[..v]).Some? && Replay(log[..w]).Some?
    ensures Replay(log[..w]).value.history == Replay(log[..v]).value.history + MessagesOf(log[v..w])
  {
    hide Replay;
    if v == w {
      assert Protocol.GoodLog(log[..v]);
      Protocol.ReplaySome(log[..v]);
    } else {
      ReplayExtendsHistory(log, v, w - 1);
      ReplayOneMore(log, w);
      assert !log[w - 1].TaskCreated?;
      assert log[v..w][..w - 1 - v] == log[v..w - 1] && log[v..w][w - 1 - v] == log[w - 1];
    }
  }

  lemma ReplayOneMore(log: seq<Event>, w: nat)
    requires 0 < w <= |log|
    ensures Replay(log[..w]) == ApplyEvent(Replay(log[..w - 1]), log[w - 1])
  {
    assert log[..w][..w - 1] == log[..w - 1];
  }

  /** What was added to a history is, up to the stamps, the messages that the log holds between the two snapshots. */
  ghost predicate Gained(earlier: Cell, later: Cell)
    requires earlier.snapshot.Some? && later.snapshot.Some?
  {
    var h, h' := earlier.snapshot.value.task.history, later.snapshot.value.task.history;
    && SnapshotVersion(earlier) <= SnapshotVersion(later) <= |later.log|
    && Extends(h, h')
    && EraseHistory(h'[|h|..]) == EraseHistory(MessagesOf(later.log[SnapshotVersion(earlier)..SnapshotVersion(later)]))
  }

  lemma GainedFromReplay(h: seq<Message>, h': seq<Message>, r: seq<Message>, gain: seq<Message>)
    requires EraseHistory(h) == EraseHistory(r) && EraseHistory(h') == EraseHistory(r + gain)
    ensures Extends(h, h') && EraseHistory(h'[|h|..]) == EraseHistory(gain)
  {
    assert |h| == |r| && |h'| == |r| + |gain|;
    forall i | 0 <= i < |h|
      ensures EraseMessage(h[i]) == EraseMessage(h'[i])
    {
      assert EraseHistory(h)[i] == EraseHistory(r)[i];
      assert EraseHistory(h')[i] == EraseHistory(r + gain)[i];
    }
    forall i | 0 <= i < |gain|
      ensures EraseHistory(h'[|h|..])[i] == EraseHistory(gain)[i]
    {
      assert EraseHistory(h')[|h| + i] == EraseHistory(r + gain)[|h| + i];
      assert h'[|h|..][i] == h'[|h| + i] && (r + gain)[|h| + i] == gain[i];
    }
  }

  lemma SnapshotHistory(s: Protocol.State)
    requires Protocol.CellInv(s) && s.cell.snapshot.Some?
    ensures Replay(s.cell.log[..SnapshotVersion(s.cell)]).Some?
    ensures EraseHistory(s.cell.snapshot.value.task.history)
         == EraseHistory(Replay(s.cell.log[..SnapshotVersion(s.cell)]).value.history)
  {
    Protocol.SnapshotReads(s);
    var t, u := SnapshotTask(s.cell), Replay(s.cell.log[..SnapshotVersion(s.cell)]);
    assert Erase(t).value.history == EraseHistory(t.value.history);
    assert Erase(u).value.history == EraseHistory(u.value.history);
  }

  /** Along a run the history of a task only grows at its end, by the messages that were logged. */
  lemma HistoryGrows(s: Protocol.State, later: seq<Protocol.Action>)
    requires Protocol.Inv(s) && s.cell.snapshot.Some?
    ensures var c := Protocol.Exec(s, later).cell;
            c.snapshot.Some? && Gained(s.cell, c)
  {
    hide Protocol.Exec, Protocol.GoodWriter, Protocol.GoodLog, SameTask, Replay, Extends, MessagesOf;
    var t := Protocol.Exec(s, later);
    Protocol.RunKeepsInv(s, later);
    Protocol.LogGrows(s, later);
    var v, w := SnapshotVersion(s.cell), SnapshotVersion(t.cell);
    Protocol.SnapshotReads(s);
    Protocol.SnapshotReads(t);
    SnapshotHistory(s);
    SnapshotHistory(t);
    ReplayExtendsHistory(t.cell.log, v, w);
    assert t.cell.log[..v] == s.cell.log[..v];
    GainedFromReplay(s.cell.snapshot.value.task.history, t.cell.snapshot.value.task.history,
                     Replay(t.cell.log[..v]).value.history, MessagesOf(t.cell.log[v..w]));
  }

  /**
    The round trip: whatever happened in between, the events since the version taken earlier are exactly those appended
    since, and the messages since the id taken earlier are exactly those added since, provided the id marked the end;
    and those are the messages logged between the two snapshots.
   */
  lemma CheckpointRoundTrip(s0: Protocol.State, acts: seq<Protocol.Action>, later: seq<Protocol.Action>)
    requires Protocol.Init(s0)
    ensures var c, c' := Protocol.Exec(s0, acts).cell, Protocol.Exec(s0, acts + later).cell;
            && c.log <= c'.log
            && Window(c'.log, c.logVersion, -1) == c'.log[|c.log|..]
            && (c.snapshot.Some? ==>
                  var h := c.snapshot.value.task.history;
                  && c'.snapshot.Some? && Gained(c, c')
                  && (HistorySince(c'.snapshot.value.task.history, LastMessageID(h))
                        == c'.snapshot.value.task.history[|h|..]
                      <==> MarksEnd(h)))
  {
    hide Protocol.Exec, Protocol.GoodWriter, SameTask, Replay, MessagesOf, HistorySince, MarksEnd, EraseHistory;
    var s := Protocol.Exec(s0, acts);
    Protocol.RunKeepsInv(s0, acts);
    Protocol.ExecConcat(s0, acts, later);
    Protocol.LogGrows(s, later);
    if s.cell.snapshot.Some? {
      HistoryGrows(s, later);
      HistoryCheckpoint(s.cell.snapshot.value.task.history, Protocol.Exec(s, later).cell.snapshot.value.task.history);
    }
  }
}
