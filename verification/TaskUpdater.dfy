/** The updater object: private copies of the snapshot's slices, changed in place, and the events collected so far. */
module TaskUpdaters {
  import opened A2A
  import opened EventLog

  class TaskUpdater {
    var id: string
    var contextID: string
    var status: TaskStatus
    var metadata: map<string, Value>
    var history: array<Message>
    var artifacts: array<Artifact>
    const initialVersion: nat
    var version: nat
    var pendingEvents: seq<Event>

    /** The value this object stands for. */
    ghost function View(): Draft
      reads this, history, artifacts
    {
      Draft(Task(id, contextID, status, history[..], artifacts[..], metadata), initialVersion, pendingEvents)
    }

    /** The updater starts from copies: nothing it later writes is reachable from the caller's slices. */
    constructor (task: Task, taskHistory: array<Message>, taskArtifacts: array<Artifact>, snapshotVersion: nat)
      requires task.history == taskHistory[..] && task.artifacts == taskArtifacts[..]
      ensures View() == NewDraft(task, snapshotVersion)
      ensures id == task.id && contextID == task.contextID && status == task.status && metadata == task.metadata
      ensures history[..] == task.history && artifacts[..] == task.artifacts
      ensures pendingEvents == [] && initialVersion == snapshotVersion
      ensures version == snapshotVersion
      ensures fresh(history) && fresh(artifacts)
    {
      id, contextID, status, metadata := task.id, task.contextID, task.status, task.metadata;
      history := new Message[taskHistory.Length](i requires 0 <= i < taskHistory.Length reads taskHistory =>
          taskHistory[i]);
      artifacts := new Artifact[taskArtifacts.Length](i requires 0 <= i < taskArtifacts.Length reads taskArtifacts =>
          taskArtifacts[i]);
      initialVersion, version := snapshotVersion, snapshotVersion;
      pendingEvents := [];
      new;
      assert history[..] == taskHistory[..];
      assert artifacts[..] == taskArtifacts[..];
    }

    method AddMessage(message: Message)
      modifies this
      ensures View() == EditDraft(old(View()), Edit.AddMessage(message))
      ensures history[..] == old(history[..]) + [message]
      ensures pendingEvents == old(pendingEvents) + [MessageAdded(message.(contextID := contextID, taskID := id))]
      ensures id == old(id) && contextID == old(contextID) && status == old(status) && metadata == old(metadata)
      ensures artifacts == old(artifacts) && fresh(history) && version == old(version)
    {
      var cloned := message.(contextID := contextID, taskID := id);
      var n := history.Length;
      var old_ := history;
      history := new Message[n + 1](i requires 0 <= i <= n reads old_ => if i < n then old_[i] else message);
      assert history[..] == old_[..] + [message];
      pendingEvents := pendingEvents + [MessageAdded(cloned)];
    }

    method UpdateStatus(newStatus: TaskStatus)
      modifies this
      ensures View() == EditDraft(old(View()), SetStatus(newStatus))
      ensures status == newStatus
      ensures pendingEvents ==
              old(pendingEvents) + [StatusChanged(id, contextID, newStatus, newStatus.state.IsTerminal())]
      ensures id == old(id) && contextID == old(contextID) && metadata == old(metadata)
      ensures artifacts == old(artifacts) && history == old(history) && version == old(version)
    {
      status := newStatus;
      pendingEvents := pendingEvents + [StatusChanged(id, contextID, newStatus, newStatus.state.IsTerminal())];
    }

    method UpsertArtifact(artifact: Artifact)
      modifies this, artifacts
      ensures View() == EditDraft(old(View()), PutArtifact(artifact))
      ensures Placed(old(artifacts[..]), artifacts[..], artifact)
      ensures history[..] == old(history[..])
      ensures pendingEvents == old(pendingEvents) + [ArtifactUpdated(id, contextID, artifact, true, true)]
      ensures id == old(id) && contextID == old(contextID) && status == old(status) && metadata == old(metadata)
      ensures history == old(history) && version == old(version)
      ensures artifacts == old(artifacts) || fresh(artifacts)
    {
      ghost var before := artifacts[..];
      ghost var beforeHistory := history[..];
      var found, i := false, 0;
      while i < artifacts.Length
        invariant 0 <= i <= artifacts.Length && !found
        invariant artifacts[..] == before && history[..] == beforeHistory
        invariant forall j :: 0 <= j < i ==> before[j].artifactID != artifact.artifactID
      {
        if artifacts[i].artifactID == artifact.artifactID {
          UpsertReplaces(before, artifact, i);
          assert Placed(before, before[i := artifact], artifact);
          artifacts[i] := artifact;
          found := true;
          break;
        }
        i := i + 1;
      }
      if !found {
        UpsertAppends(before, artifact);
        var n := artifacts.Length;
        var old_ := artifacts;
        artifacts := new Artifact[n + 1](k requires 0 <= k <= n reads old_ => if k < n then old_[k] else artifact);
      }
      assert artifacts[..] == Upsert(before, artifact);
      assert history[..] == beforeHistory;
      pendingEvents := pendingEvents + [ArtifactUpdated(id, contextID, artifact, true, true)];
    }
  }

  /** The artifact took the place of the first one with its id, or came last. */
  ghost predicate Placed(before: seq<Artifact>, after: seq<Artifact>, a: Artifact) {
    || (after == before + [a] && forall j :: 0 <= j < |before| ==> before[j].artifactID != a.artifactID)
    || exists i :: 0 <= i < |before| && before[i].artifactID == a.artifactID && after == before[i := a]
                   && forall j :: 0 <= j < i ==> before[j].artifactID != a.artifactID
  }

  /** A whole batch: the updater holds the folded draft, and the caller's slices are as they were. */
  method RunBatch(task: Task, taskHistory: array<Message>, taskArtifacts: array<Artifact>, version: nat,
      edits: seq<Edit>)
    returns (updater: TaskUpdater)
    requires task.history == taskHistory[..] && task.artifacts == taskArtifacts[..]
    ensures updater.View() == EditAll(NewDraft(task, version), edits)
    ensures taskHistory[..] == old(taskHistory[..]) && taskArtifacts[..] == old(taskArtifacts[..])
    ensures fresh(updater) && fresh(updater.history) && fresh(updater.artifacts) && updater.version == version
  {
    updater := new TaskUpdater(task, taskHistory, taskArtifacts, version);
    for i := 0 to |edits|
      invariant updater.View() == EditAll(NewDraft(task, version), edits[..i])
      invariant fresh(updater) && fresh(updater.history) && fresh(updater.artifacts) && updater.version == version
    {
      assert edits[..i + 1][..i] == edits[..i];
      match edits[i] {
        case AddMessage(m) => updater.AddMessage(m);
        case SetStatus(s) => updater.UpdateStatus(s);
        case PutArtifact(a) => updater.UpsertArtifact(a);
      }
    }
    assert edits[..|edits|] == edits;
  }
}
