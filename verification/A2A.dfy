/** The protocol's value types: task states, messages, parts, statuses, artifacts and tasks. */
module A2A {

  datatype Option<+T> = None | Some(value: T)

  datatype Result<+T, +E> = Ok(value: T) | Err(error: E)

  /** A task state is a string in the program; every string outside the nine known ones is `Other`. */
  datatype TaskState =
    | Submitted
    | Working
    | InputRequired
    | Completed
    | Canceled
    | Failed
    | Rejected
    | AuthRequired
    | Unknown
    | Other(name: string)
  {
    predicate IsTerminal() {
      Completed? || Failed? || Canceled? || Rejected?
    }

    predicate IsInterrupted() {
      InputRequired? || AuthRequired?
    }

    predicate CanCancel() {
      !IsTerminal()
    }
  }

  /** Which states end a task, which ask for input, and which are neither, state by state. */
  lemma TaskStates(s: TaskState)
    ensures s in {Completed, Failed, Canceled, Rejected} ==> s.IsTerminal() && !s.IsInterrupted() && !s.CanCancel()
    ensures s in {InputRequired, AuthRequired} ==> !s.IsTerminal() && s.IsInterrupted() && s.CanCancel()
    ensures s in {Submitted, Working, Unknown} || s.Other? ==> !s.IsTerminal() && !s.IsInterrupted() && s.CanCancel()
  {
  }

  datatype Role = RoleUser | RoleAgent | OtherRole(name: string)

  datatype Kind = TextPart | FilePart | DataPart

  /** What a data part's map can hold, as far as tool parts look at it. */
  datatype Value =
    | Text(text: string)
    | Object(fields: map<string, Value>)
    | PartList(parts: seq<Part>)
    | OtherValue(tag: int)

  /** `metadata` is `None` where the program leaves the map nil. */
  datatype Part = Part(kind: Kind, text: string, data: map<string, Value>, metadata: Option<map<string, Value>>)

  function NewTextPart(text: string): Part {
    Part(TextPart, text, map[], None)
  }

  function NewDataPart(data: map<string, Value>): Part {
    Part(DataPart, "", data, None)
  }

  /** `parts` is `None` where the program leaves the slice nil. */
  datatype Message = Message(
    messageID: string,
    contextID: string,
    taskID: string,
    role: Role,
    parts: Option<seq<Part>>,
    referenceTaskIDs: seq<string>,
    extensions: seq<string>,
    metadata: map<string, Value>)
  {
    /** What ranging over the parts visits. */
    function AllParts(): seq<Part> {
      if parts.None? then [] else parts.value
    }
  }

  datatype MessageOptions = MessageOptions(
    referenceTaskIDs: seq<string>, extensions: seq<string>, metadata: map<string, Value>)

  const NO_OPTIONS := MessageOptions([], [], map[])

  /** A new message carries no context or task stamp. */
  function NewMessage(messageID: string, role: Role, parts: Option<seq<Part>>, options: MessageOptions): Message {
    Message(messageID, "", "", role, parts, options.referenceTaskIDs, options.extensions, options.metadata)
  }

  datatype TaskStatus = TaskStatus(state: TaskState, message: Option<Message>, timestamp: Option<string>)

  datatype Artifact = Artifact(
    artifactID: string, name: string, description: string, parts: seq<Part>, metadata: map<string, Value>)

  datatype Task = Task(
    id: string,
    contextID: string,
    status: TaskStatus,
    history: seq<Message>,
    artifacts: seq<Artifact>,
    metadata: map<string, Value>)
}
