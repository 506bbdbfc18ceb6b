/**
  The event vocabulary of the log, what a log means (`Replay`), and the batch of edits an updater collects (`Draft`).
 */
module EventLog {
  import opened A2A

  /** A stream response: exactly one of its four optional fields is set by every producer in the program. */
  datatype Event =
    | TaskCreated(task: Task)
    | MessageAdded(message: Message)
    | StatusChanged(taskID: string, contextID: string, status: TaskStatus, final: bool)
    | ArtifactUpdated(taskID: string, contextID: string, artifact: Artifact, append: bool, lastChunk: bool)

  predicate IsFinal(e: Event) {
    e.StatusChanged? && e.final
  }

  predicate IsCanceled(e: Event) {
    e.StatusChanged? && e.status.state.Canceled?
  }

  // ---------------------------------------------------------------- artifacts

  /** Replaces the first artifact with the same id, or appends. */
  function Upsert(artifacts: seq<Artifact>, a: Artifact): (r: seq<Artifact>)
    ensures |artifacts| <= |r| <= |artifacts| + 1
    ensures a in r
  {
    if artifacts == [] then [a]
    else if artifacts[0].artifactID == a.artifactID then [a] + artifacts[1..]
    else [artifacts[0]] + Upsert(artifacts[1..], a)
  }

  lemma {:induction false} UpsertReplaces(artifacts: seq<Artifact>, a: Artifact, i: nat)
    requires i < |artifacts|
    requires artifacts[i].artifactID == a.artifactID
    requires forall j :: 0 <= j < i ==> artifacts[j].artifactID != a.artifactID
    ensures Upsert(artifacts, a) == artifacts[i := a]
  {
    if i == 0 {
    } else {
      UpsertReplaces(artifacts[1..], a, i - 1);
    }
  }

  lemma {:induction false} UpsertAppends(artifacts: seq<Artifact>, a: Artifact)
    requires forall j :: 0 <= j < |artifacts| ==> artifacts[j].artifactID != a.artifactID
    ensures Upsert(artifacts, a) == artifacts + [a]
  {
    if artifacts == [] {
    } else {
      UpsertAppends(artifacts[1..], a);
    }
  }

  ghost predicate DistinctIds(artifacts: seq<Artifact>) {
    forall i, j :: 0 <= i < j < |artifacts| ==> artifacts[i].artifactID != artifacts[j].artifactID
  }

  /** The list of artifacts as the table it stands for: id to artifact. */
  ghost function ArtifactTable(artifacts: seq<Artifact>): map<string, Artifact> {
    if artifacts == [] then map[]
    else
      var last := artifacts[|artifacts| - 1];
      ArtifactTable(artifacts[..|artifacts| - 1])[last.artifactID := last]
  }

  lemma TableGrows(init: seq<Artifact>, last: Artifact)
    ensures ArtifactTable(init + [last]) == ArtifactTable(init)[last.artifactID := last]
  {
    assert (init + [last])[..|init|] == init;
  }

  /** The table holds exactly the ids of the list, each with its artifact. */
  ghost predicate LooksUp(table: map<string, Artifact>, artifacts: seq<Artifact>) {
    && (forall id :: id in table ==> exists i :: 0 <= i < |artifacts| && artifacts[i].artifactID == id)
    && (forall i :: 0 <= i < |artifacts| ==>
          artifacts[i].artifactID in table && table[artifacts[i].artifactID] == artifacts[i])
  }

  lemma LooksUpMore(table: map<string, Artifact>, init: seq<Artifact>, last: Artifact)
    requires LooksUp(table, init) && DistinctIds(init + [last])
    ensures LooksUp(table[last.artifactID := last], init + [last])
  {
    var artifacts, table' := init + [last], table[last.artifactID := last];
    forall id | id in table'
      ensures exists i :: 0 <= i < |artifacts| && artifacts[i].artifactID == id
    {
      if id == last.artifactID {
        assert artifacts[|init|].artifactID == id;
      } else {
        var i :| 0 <= i < |init| && init[i].artifactID == id;
        assert artifacts[i].artifactID == id;
      }
    }
    forall i | 0 <= i < |init|
      ensures init[i].artifactID != last.artifactID
    {
      assert artifacts[i] == init[i] && artifacts[|init|] == last;
    }
  }

  lemma {:induction false} TableLookup(artifacts: seq<Artifact>)
    requires DistinctIds(artifacts)
    ensures LooksUp(ArtifactTable(artifacts), artifacts)
  {
    if artifacts == [] {
    } else {
      hide ArtifactTable, LooksUp;
      var n := |artifacts| - 1;
      var init, last := artifacts[..n], artifacts[n];
      assert artifacts == init + [last];
      TableLookup(init);
      TableGrows(init, last);
      LooksUpMore(ArtifactTable(init), init, last);
    }
  }

  lemma {:induction false} ReplaceInTable(artifacts: seq<Artifact>, a: Artifact, i: nat)
    requires DistinctIds(artifacts)
    requires i < |artifacts| && artifacts[i].artifactID == a.artifactID
    ensures ArtifactTable(artifacts[i := a]) == ArtifactTable(artifacts)[a.artifactID := a]
  {
    hide ArtifactTable;
    var n := |artifacts| - 1;
    var init, last := artifacts[..n], artifacts[n];
    TableGrows(init, last);
    assert artifacts == init + [last];
    if i == n {
      TableGrows(init, a);
      assert artifacts[i := a] == init + [a];
      OverwriteTwice(ArtifactTable(init), last, a);
    } else {
      assert last.artifactID != a.artifactID;
      ReplaceInTable(init, a, i);
      TableGrows(init[i := a], last);
      assert artifacts[i := a] == init[i := a] + [last];
      UpdatesCommute(ArtifactTable(init), a, last);
    }
  }

  lemma OverwriteTwice(table: map<string, Artifact>, a: Artifact, b: Artifact)
    requires a.artifactID == b.artifactID
    ensures table[a.artifactID := a][b.artifactID := b] == table[b.artifactID := b]
  {
  }

  lemma UpdatesCommute(table: map<string, Artifact>, a: Artifact, b: Artifact)
    requires a.artifactID != b.artifactID
    ensures table[a.artifactID := a][b.artifactID := b] == table[b.artifactID := b][a.artifactID := a]
  {
  }

  /** On lists with distinct ids an upsert is exactly a table update, and ids stay distinct. */
  lemma UpsertRefinesTable(artifacts: seq<Artifact>, a: Artifact)
    requires DistinctIds(artifacts)
    ensures DistinctIds(Upsert(artifacts, a))
    ensures ArtifactTable(Upsert(artifacts, a)) == ArtifactTable(artifacts)[a.artifactID := a]
  {
    hide Upsert, ArtifactTable;
    if i :| 0 <= i < |artifacts| && artifacts[i].artifactID == a.artifactID {
      UpsertReplaces(artifacts, a, i);
      ReplaceInTable(artifacts, a, i);
    } else {
      UpsertAppends(artifacts, a);
      TableGrows(artifacts, a);
    }
  }

  // ------------------------------------------------------------------- replay

  /** The task a single event turns a task into. */
  function ApplyEvent(t: Option<Task>, e: Event): Option<Task> {
    match e
    case TaskCreated(task) => Some(task)
    case MessageAdded(m) => if t.None? then None else Some(t.value.(history := t.value.history + [m]))
    case StatusChanged(_, _, status, _) => if t.None? then None else Some(t.value.(status := status))
    case ArtifactUpdated(_, _, a, _, _) =>
      if t.None? then None else Some(t.value.(artifacts := Upsert(t.value.artifacts, a)))
  }

  function ReplayFrom(t: Option<Task>, events: seq<Event>): Option<Task> {
    if events == [] then t
    else ApplyEvent(ReplayFrom(t, events[..|events| - 1]), events[|events| - 1])
  }

  /** The task a log stands for; an empty log stands for no task. */
  function Replay(log: seq<Event>): Option<Task> {
    ReplayFrom(None, log)
  }

  lemma {:induction false} ReplayConcat(t: Option<Task>, a: seq<Event>, b: seq<Event>)
    ensures ReplayFrom(t, a + b) == ReplayFrom(ReplayFrom(t, a), b)
  {
    if b == [] {
      assert a + b == a;
    } else {
      var n := |b| - 1;
      ReplayConcat(t, a, b[..n]);
      assert (a + b)[..|a + b| - 1] == a + b[..n];
    }
  }

  // ------------------------------------------------------------------ erasure

  /** Log messages carry a context and task stamp that snapshot messages lack. */
  function EraseMessage(m: Message): Message {
    m.(contextID := "", taskID := "")
  }

  function EraseHistory(h: seq<Message>): (r: seq<Message>)
    ensures |r| == |h|
    ensures forall i :: 0 <= i < |h| ==> r[i] == EraseMessage(h[i])
  {
    seq(|h|, i requires 0 <= i < |h| => EraseMessage(h[i]))
  }

  function Erase(t: Option<Task>): Option<Task> {
    if t.None? then None else Some(t.value.(history := EraseHistory(t.value.history)))
  }

  /** Two tasks that agree up to the stamps of their history. */
  ghost predicate SameTask(t: Option<Task>, u: Option<Task>) {
    Erase(t) == Erase(u)
  }

  /** The two stamps aside, the messages agree in everything. */
  ghost predicate SameMessage(m: Message, n: Message) {
    && m.messageID == n.messageID && m.role == n.role && m.parts == n.parts
    && m.referenceTaskIDs == n.referenceTaskIDs && m.extensions == n.extensions && m.metadata == n.metadata
  }

  lemma EraseMessageIff(m: Message, n: Message)
    ensures EraseMessage(m) == EraseMessage(n) <==> SameMessage(m, n)
  {
  }

  /** What comparing tasks up to the stamps means, field by field and message by message. */
  lemma SameTaskIff(t: Task, u: Task)
    ensures SameTask(Some(t), Some(u)) <==>
            && t.(history := []) == u.(history := [])
            && |t.history| == |u.history|
            && forall i :: 0 <= i < |t.history| ==> SameMessage(t.history[i], u.history[i])
  {
    var h, k := EraseHistory(t.history), EraseHistory(u.history);
    assert Erase(Some(t)).value.history == h && Erase(Some(u)).value.history == k;
    assert Erase(Some(t)).value.(history := []) == t.(history := []);
    assert Erase(Some(u)).value.(history := []) == u.(history := []);
    if |t.history| == |u.history| {
      forall i | 0 <= i < |h|
        ensures h[i] == k[i] <==> SameMessage(t.history[i], u.history[i])
      {
        EraseMessageIff(t.history[i], u.history[i]);
      }
      assert h == k <==> forall i :: 0 <= i < |t.history| ==> SameMessage(t.history[i], u.history[i]) by {
        if h == k {
          assert forall i :: 0 <= i < |h| ==> h[i] == k[i];
        }
      }
    }
    assert SameTask(Some(t), Some(u)) <==> h == k && t.(history := []) == u.(history := []) by {
      if h == k && t.(history := []) == u.(history := []) {
        assert t.(history := h) == u.(history := k);
      }
    }
  }

  lemma SameTaskFields(t: Option<Task>, u: Option<Task>)
    requires SameTask(t, u)
    ensures t.Some? <==> u.Some?
    ensures t.Some? ==>
              && t.value.id == u.value.id && t.value.contextID == u.value.contextID
              && t.value.status == u.value.status && t.value.artifacts == u.value.artifacts
              && t.value.metadata == u.value.metadata && |t.value.history| == |u.value.history|
              && forall i :: 0 <= i < |t.value.history| ==>
                   t.value.history[i].messageID == u.value.history[i].messageID
  {
    if t.Some? {
      var h, k := t.value.history, u.value.history;
      assert Erase(t).value.history == EraseHistory(h);
      assert Erase(u).value.history == EraseHistory(k);
      assert Erase(t).value.(history := []) == t.value.(history := []);
      assert Erase(u).value.(history := []) == u.value.(history := []);
      forall i | 0 <= i < |h|
        ensures h[i].messageID == k[i].messageID
      {
        assert EraseHistory(h)[i] == EraseHistory(k)[i];
        assert EraseMessage(h[i]).messageID == EraseMessage(k[i]).messageID;
      }
    }
  }

  lemma SameTaskStep(t: Option<Task>, u: Option<Task>, e: Event)
    requires SameTask(t, u)
    ensures SameTask(ApplyEvent(t, e), ApplyEvent(u, e))
  {
    SameTaskFields(t, u);
    if t.Some? && e.MessageAdded? {
      MessageStep(t.value, u.value, e.message, e.message);
    } else if t.Some? && !e.TaskCreated? {
      assert EraseHistory(t.value.history) == EraseHistory(u.value.history) by {
        assert Erase(t).value.history == EraseHistory(t.value.history);
      }
    }
  }

  lemma MessageStep(t: Task, u: Task, m: Message, n: Message)
    requires SameTask(Some(t), Some(u))
    requires EraseMessage(m) == EraseMessage(n)
    ensures SameTask(Some(t.(history := t.history + [m])), Some(u.(history := u.history + [n])))
  {
    SameTaskFields(Some(t), Some(u));
    assert Erase(Some(t)).value.history == EraseHistory(t.history);
    assert Erase(Some(u)).value.history == EraseHistory(u.history);
    assert EraseHistory(t.history + [m]) == EraseHistory(t.history) + [EraseMessage(m)];
    assert EraseHistory(u.history + [n]) == EraseHistory(u.history) + [EraseMessage(n)];
  }

  lemma {:induction false} SameTaskReplay(t: Option<Task>, u: Option<Task>, events: seq<Event>)
    requires SameTask(t, u)
    ensures SameTask(ReplayFrom(t, events), ReplayFrom(u, events))
  {
    if events == [] {
    } else {
      var n := |events| - 1;
      SameTaskReplay(t, u, events[..n]);
      SameTaskStep(ReplayFrom(t, events[..n]), ReplayFrom(u, events[..n]), events[n]);
    }
  }

  // ------------------------------------------------------------------- drafts

  datatype Edit = AddMessage(message: Message) | SetStatus(status: TaskStatus) | PutArtifact(artifact: Artifact)

  /** An updater's content: the task so far, the version it was read at, and the events collected. */
  datatype Draft = Draft(task: Task, expected: nat, pending: seq<Event>)

  function NewDraft(task: Task, version: nat): Draft {
    Draft(task, version, [])
  }

  /** The event an edit of a task is recorded as. */
  function EventOf(t: Task, e: Edit): Event {
    match e
    case AddMessage(m) => MessageAdded(m.(contextID := t.contextID, taskID := t.id))
    case SetStatus(status) => StatusChanged(t.id, t.contextID, status, status.state.IsTerminal())
    case PutArtifact(a) => ArtifactUpdated(t.id, t.contextID, a, true, true)
  }

  function EditTask(t: Task, e: Edit): Task {
    match e
    case AddMessage(m) => t.(history := t.history + [m])
    case SetStatus(status) => t.(status := status)
    case PutArtifact(a) => t.(artifacts := Upsert(t.artifacts, a))
  }

  function EditDraft(d: Draft, e: Edit): Draft {
    Draft(EditTask(d.task, e), d.expected, d.pending + [EventOf(d.task, e)])
  }

  function EditAll(d: Draft, edits: seq<Edit>): Draft {
    if edits == [] then d
    else EditDraft(EditAll(d, edits[..|edits| - 1]), edits[|edits| - 1])
  }

  /** What an updater has collected always replays, over the task it started from, to the task it holds. */
  ghost predicate Faithful(base: Task, d: Draft) {
    SameTask(Some(d.task), ReplayFrom(Some(base), d.pending))
  }

  /** An edit does to the task what its event does, up to the message stamps. */
  lemma EditMeansItsEvent(t: Task, e: Edit)
    ensures SameTask(Some(EditTask(t, e)), ApplyEvent(Some(t), EventOf(t, e)))
  {
    match e {
      case AddMessage(m) => MessageStep(t, t, m, EventOf(t, e).message);
      case SetStatus(_) =>
      case PutArtifact(_) =>
    }
  }

  lemma EditKeepsFaithful(base: Task, d: Draft, e: Edit)
    requires Faithful(base, d)
    ensures Faithful(base, EditDraft(d, e))
  {
    hide Erase, ApplyEvent, EventOf, EditTask;
    var ev := EventOf(d.task, e);
    var r := ReplayFrom(Some(base), d.pending);
    assert (d.pending + [ev])[..|d.pending|] == d.pending;
    assert ReplayFrom(Some(base), d.pending + [ev]) == ApplyEvent(r, ev);
    EditMeansItsEvent(d.task, e);
    SameTaskStep(Some(d.task), r, ev);
  }

  /** The batch theorem: for any edits, the updater's task is the replay of its events over the snapshot. */
  lemma {:induction false} DraftIsReplay(base: Task, version: nat, edits: seq<Edit>)
    ensures Faithful(base, EditAll(NewDraft(base, version), edits))
  {
    if edits == [] {
    } else {
      var n := |edits| - 1;
      DraftIsReplay(base, version, edits[..n]);
      EditKeepsFaithful(base, EditAll(NewDraft(base, version), edits[..n]), edits[n]);
    }
  }

  /** The version read is kept, and each edit is recorded once, in order, under the task's own ids. */
  lemma {:induction false} DraftRecords(base: Task, version: nat, edits: seq<Edit>)
    ensures var d := EditAll(NewDraft(base, version), edits);
            && d.expected == version
            && |d.pending| == |edits|
            && d.task.id == base.id && d.task.contextID == base.contextID
            && forall i :: 0 <= i < |edits| ==> RecordedAs(base, edits[i], d.pending[i])
  {
    if edits == [] {
    } else {
      var n := |edits| - 1;
      hide RecordedAs, EventOf, EditTask;
      var before := EditAll(NewDraft(base, version), edits[..n]);
      DraftRecords(base, version, edits[..n]);
      EditIsRecorded(base, before.task, edits[n]);
      assert EditAll(NewDraft(base, version), edits) == EditDraft(before, edits[n]);
    }
  }

  lemma EditIsRecorded(base: Task, t: Task, e: Edit)
    requires t.id == base.id && t.contextID == base.contextID
    ensures RecordedAs(base, e, EventOf(t, e))
    ensures EditTask(t, e).id == base.id && EditTask(t, e).contextID == base.contextID
  {
  }

  /** Each event tells which edit it stands for, stamped with the task's own ids. */
  predicate RecordedAs(t: Task, e: Edit, ev: Event) {
    match e
    case AddMessage(m) => ev == MessageAdded(m.(contextID := t.contextID, taskID := t.id))
    case SetStatus(status) => ev == StatusChanged(t.id, t.contextID, status, status.state.IsTerminal())
    case PutArtifact(a) => ev == ArtifactUpdated(t.id, t.contextID, a, true, true)
  }

  /** Any number of upserts keeps artifact ids distinct. */
  lemma {:induction false} DraftKeepsIdsDistinct(d: Draft, edits: seq<Edit>)
    requires DistinctIds(d.task.artifacts)
    ensures DistinctIds(EditAll(d, edits).task.artifacts)
  {
    if edits == [] {
    } else {
      var n := |edits| - 1;
      DraftKeepsIdsDistinct(d, edits[..n]);
      if edits[n].PutArtifact? {
        UpsertRefinesTable(EditAll(d, edits[..n]).task.artifacts, edits[n].artifact);
      }
    }
  }
}
