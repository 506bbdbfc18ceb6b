/** The tool loop: each `Next` asks the model once, and answers every tool call of a tool-use response. */
module Runners {
  import opened A2A
  import opened ToolParts

  datatype StopReason = MaxTokens | StopWord | ToolUseStop | EndTurn | ErrorStop | OtherReason(name: string)

  datatype Response = Response(message: Message, stopReason: StopReason)

  /** What became of a tool call: no handler, a handler that failed, or a result. */
  datatype ToolOutcome = Unresolved(reason: string) | HandlerFailed(reason: string) | Returned(result: ToolResult)

  datatype ToolUseError = ToolUseError(toolUse: ToolUse, reason: string)

  datatype Step = Step(index: nat, attempt: nat, response: Option<Response>, toolCalls: seq<ToolUse>,
      toolResults: seq<ToolResult>)

  /** How the outside behaves during one `Next`: the model's response, if any, and the fate of its n-th tool call. */
  datatype Turn = Turn(generated: Option<Response>, tools: (nat, ToolUse) -> ToolOutcome)

  function Answer(use: ToolUse, outcome: ToolOutcome): ToolResult {
    match outcome
    case Unresolved(reason) =>
      ToolResult(use.id, use.toolName, [NewTextPart("can not call tool " + use.toolName + ": " + reason)], None)
    case HandlerFailed(reason) =>
      ToolResult(use.id, use.toolName, [NewTextPart("tool " + use.toolName + " call failed: " + reason)], None)
    case Returned(result) => result.(id := use.id, toolName := use.toolName)
  }

  function Answers(calls: seq<ToolUse>, tools: (nat, ToolUse) -> ToolOutcome): (r: seq<ToolResult>)
    ensures |r| == |calls|
    ensures forall i :: 0 <= i < |r| ==> r[i] == Answer(calls[i], tools(i, calls[i]))
  {
    if calls == [] then []
    else Answers(calls[..|calls| - 1], tools) + [Answer(calls[|calls| - 1], tools(|calls| - 1, calls[|calls| - 1]))]
  }

  /** The user message that hands a step's results back to the model. */
  function ResultMessage(results: seq<ToolResult>): Message {
    Message("", "", "", RoleUser, if results == [] then None else Some(ResultPartsOf(results)), [], [], map[])
  }

  function ResultPartsOf(results: seq<ToolResult>): (r: seq<Part>)
    ensures |r| == |results|
    ensures forall i :: 0 <= i < |r| ==> r[i] == NewToolResultPart(results[i].id, results[i].toolName, results[i].parts)
  {
    seq(|results|,
        i requires 0 <= i < |results| => NewToolResultPart(results[i].id, results[i].toolName, results[i].parts))
  }

  // --------------------------------------------------------------------------------- one step

  datatype State = State(messages: seq<Message>, last: Option<Step>)

  function CallsOf(turn: Turn): seq<ToolUse> {
    if turn.generated.None? || !turn.generated.value.stopReason.ToolUseStop? then []
    else ToolUses(turn.generated.value.message.AllParts())
  }

  function ResultsOf(turn: Turn): seq<ToolResult> {
    Answers(CallsOf(turn), turn.tools)
  }

  /** The step a turn makes, given where the previous one stood. */
  function StepOf(index: nat, attempt: nat, turn: Turn): Step {
    Step(index, attempt, turn.generated, CallsOf(turn), ResultsOf(turn))
  }

  function After(s: State, turn: Turn): State {
    if s.last.None? then State(s.messages, Some(StepOf(0, 0, turn)))
    else
      var last := s.last.value;
      if last.response.Some? then
        State(s.messages + [last.response.value.message, ResultMessage(last.toolResults)],
            Some(StepOf(last.index + 1, 0, turn)))
      else State(s.messages, Some(StepOf(last.index, last.attempt + 1, turn)))
  }

  function Run(initial: seq<Message>, turns: seq<Turn>): State {
    if turns == [] then State(initial, None) else After(Run(initial, turns[..|turns| - 1]), turns[|turns| - 1])
  }

  predicate CallFailed(o: ToolOutcome) {
    !o.Returned?
  }

  /** The failed calls, in order. */
  function CallErrors(calls: seq<ToolUse>, tools: (nat, ToolUse) -> ToolOutcome): seq<ToolUseError> {
    if calls == [] then []
    else
      var n := |calls| - 1;
      CallErrors(calls[..n], tools) +
      if CallFailed(tools(n, calls[n])) then [ToolUseError(calls[n], tools(n, calls[n]).reason)] else []
  }

  /** There is an error if and only if some call failed. */
  lemma {:induction false} ErrorsIffCallFailed(calls: seq<ToolUse>, tools: (nat, ToolUse) -> ToolOutcome)
    ensures CallErrors(calls, tools) != [] <==> exists i :: 0 <= i < |calls| && CallFailed(tools(i, calls[i]))
  {
    if calls == [] {
    } else {
      var n := |calls| - 1;
      ErrorsIffCallFailed(calls[..n], tools);
      if i :| 0 <= i < n && CallFailed(tools(i, calls[..n][i])) {
        assert CallFailed(tools(i, calls[i]));
      }
    }
  }

  /** The calls that failed are those at these places, in order. */
  ghost predicate FailedAt(at: seq<nat>, calls: seq<ToolUse>, tools: (nat, ToolUse) -> ToolOutcome) {
    && (forall k :: 0 <= k < |at| ==> at[k] < |calls| && !tools(at[k], calls[at[k]]).Returned?)
    && (forall i, j :: 0 <= i < j < |at| ==> at[i] < at[j])
    && (forall i: nat :: i < |calls| && !tools(i, calls[i]).Returned? ==> i in at)
  }

  lemma FailedAtNext(at: seq<nat>, calls: seq<ToolUse>, tools: (nat, ToolUse) -> ToolOutcome, use: ToolUse)
    requires FailedAt(at, calls, tools)
    ensures var failed := !tools(|calls|, use).Returned?;
            FailedAt(at + if failed then [|calls|] else [], calls + [use], tools)
  {
    var n, more := |calls|, calls + [use];
    var at' := at + if !tools(n, use).Returned? then [n] else [];
    forall i: nat | i < |more| && !tools(i, more[i]).Returned?
      ensures i in at'
    {
      if i < n {
        assert calls[i] == more[i] && i in at;
      } else {
        assert at'[|at|] == n;
      }
    }
  }

  /** The errors are the failed calls in order, each with the reason why it failed. */
  lemma {:induction false} ErrorsAreFailedCalls(calls: seq<ToolUse>, tools: (nat, ToolUse) -> ToolOutcome)
    returns (at: seq<nat>)
    ensures FailedAt(at, calls, tools)
    ensures |at| == |CallErrors(calls, tools)|
    ensures forall k :: 0 <= k < |at| ==>
              CallErrors(calls, tools)[k] == ToolUseError(calls[at[k]], tools(at[k], calls[at[k]]).reason)
  {
    if calls == [] {
      at := [];
    } else {
      var n := |calls| - 1;
      var init, last := calls[..n], calls[n];
      at := ErrorsAreFailedCalls(init, tools);
      FailedAtNext(at, init, tools, last);
      assert calls == init + [last];
      hide FailedAt;
      if !tools(n, last).Returned? {
        at := at + [n];
      } else {
        assert at + [] == at;
      }
    }
  }

  // --------------------------------------------------------------------------------- the object

  /** The step under way; the runner keeps a pointer to it and fills it in. */
  class StepRecord {
    var index: nat
    var attempt: nat
    var response: Option<Response>
    var toolCalls: seq<ToolUse>
    var toolResults: seq<ToolResult>

    constructor (index: nat, attempt: nat)
      ensures View() == Step(index, attempt, None, [], [])
    {
      this.index, this.attempt, response, toolCalls, toolResults := index, attempt, None, [], [];
    }

    function View(): Step
      reads this
    {
      Step(index, attempt, response, toolCalls, toolResults)
    }
  }

  class Runner {
    var messages: seq<Message>
    var lastStep: StepRecord?

    constructor (messages: seq<Message>)
      ensures View() == Run(messages, [])
    {
      this.messages, lastStep := messages, null;
    }

    function View(): State
      reads this, lastStep
    {
      State(messages, if lastStep == null then None else Some(lastStep.View()))
    }

    /** `failed` tells whether the model failed; `errors` lists the tool calls that did. */
    method Next(turn: Turn) returns (step: Step, failed: bool, errors: seq<ToolUseError>)
      modifies this, lastStep
      ensures View() == After(old(View()), turn)
      ensures View().last == Some(step) && step.response == turn.generated
      ensures old(View()).last.None? ==> step.index == 0 && step.attempt == 0 && messages == old(messages)
      ensures var last := old(View()).last;
              last.Some? && last.value.response.None? ==>
                step.index == last.value.index && step.attempt == last.value.attempt + 1 && messages == old(messages)
      ensures var last := old(View()).last;
              last.Some? && last.value.response.Some? ==>
                && step.index == last.value.index + 1 && step.attempt == 0
                && |messages| == |old(messages)| + 2 && messages[..|old(messages)|] == old(messages)
                && messages[|old(messages)|] == last.value.response.value.message
      ensures failed <==> turn.generated.None?
      ensures errors == CallErrors(step.toolCalls, turn.tools)
    {
      hide ResultMessage, Answers, ToolUses;
      NothingCalled(turn.tools);
      var index, attempt := 0, 0;
      if lastStep != null {
        index, attempt := lastStep.index, lastStep.attempt;
        if lastStep.response.Some? {
          var toolResultMessage := CollectResults(lastStep.toolResults);
          messages := messages + [lastStep.response.value.message] + [toolResultMessage];
          index, attempt := index + 1, 0;
        } else {
          attempt := attempt + 1;
        }
      }
      var current := new StepRecord(index, attempt);
      lastStep := current;
      errors := [];
      if turn.generated.None? {
        return current.View(), true, errors;
      }
      current.response := turn.generated;
      if !turn.generated.value.stopReason.ToolUseStop? {
        return current.View(), false, errors;
      }
      errors := CallTools(current, turn.generated.value.message.AllParts(), turn.tools);
      return current.View(), false, errors;
    }
  }

  /** Gathers the results of a step into one user message; without results its parts stay nil. */
  method CollectResults(results: seq<ToolResult>) returns (m: Message)
    ensures m == ResultMessage(results)
  {
    var parts: seq<Part> := [];
    for i := 0 to |results|
      invariant parts == ResultPartsOf(results)[..i]
    {
      parts := parts + [NewToolResultPart(results[i].id, results[i].toolName, results[i].parts)];
    }
    assert parts == ResultPartsOf(results);
    m := Message("", "", "", RoleUser, if parts == [] then None else Some(parts), [], [], map[]);
  }

  /** Answers one tool use; a call that cannot be made or fails is answered with its reason. */
  method CallTool(use: ToolUse, outcome: ToolOutcome) returns (result: ToolResult, errors: seq<ToolUseError>)
    ensures result == Answer(use, outcome)
    ensures errors == if CallFailed(outcome) then [ToolUseError(use, outcome.reason)] else []
  {
    match outcome {
      case Unresolved(reason) =>
        errors := [ToolUseError(use, reason)];
        result := ToolResult(use.id, use.toolName,
            [NewTextPart("can not call tool " + use.toolName + ": " + reason)], None);
      case HandlerFailed(reason) =>
        errors := [ToolUseError(use, reason)];
        result := ToolResult(use.id, use.toolName,
            [NewTextPart("tool " + use.toolName + " call failed: " + reason)], None);
      case Returned(returned) =>
        errors := [];
        result := returned.(id := use.id, toolName := use.toolName);
    }
  }

  /** Adds one call and its answer to the step. */
  method RecordCall(current: StepRecord, use: ToolUse, tools: (nat, ToolUse) -> ToolOutcome)
    returns (failures: seq<ToolUseError>)
    requires current.toolResults == Answers(current.toolCalls, tools)
    modifies current
    ensures current.View() == old(current.View()).(
                                toolCalls := old(current.toolCalls) + [use],
                                toolResults := Answers(old(current.toolCalls) + [use], tools))
    ensures CallErrors(current.toolCalls, tools) == CallErrors(old(current.toolCalls), tools) + failures
  {
    hide Answer, CallFailed;
    ghost var before := current.toolCalls;
    var n := |current.toolCalls|;
    current.toolCalls := current.toolCalls + [use];
    assert current.toolCalls[..n] == before;
    var result, failed := CallTool(use, tools(n, use));
    current.toolResults := current.toolResults + [result];
    failures := failed;
  }

  /** Goes through the parts of a response and answers each tool use, failed ones included. */
  method CallTools(current: StepRecord, parts: seq<Part>, tools: (nat, ToolUse) -> ToolOutcome)
    returns (errors: seq<ToolUseError>)
    requires current.toolCalls == [] && current.toolResults == []
    modifies current
    ensures current.View()
              == old(current.View()).(toolCalls := ToolUses(parts), toolResults := Answers(ToolUses(parts), tools))
    ensures errors == CallErrors(current.toolCalls, tools)
  {
    hide Answers, CallErrors, AsToolUsePart;
    NothingCalled(tools);
    errors := [];
    for k := 0 to |parts|
      invariant current.View()
          == old(current.View()).(toolCalls := ToolUses(parts[..k]),
              toolResults := Answers(ToolUses(parts[..k]), tools))
      invariant errors == CallErrors(current.toolCalls, tools)
    {
      assert parts[..k + 1][..k] == parts[..k];
      var found := AsToolUsePart(parts[k]);
      if found.Some? {
        var failures := RecordCall(current, found.value, tools);
        errors := errors + failures;
      }
    }
    assert parts[..|parts|] == parts;
  }

  lemma NothingCalled(tools: (nat, ToolUse) -> ToolOutcome)
    ensures Answers([], tools) == [] && CallErrors([], tools) == [] && ToolUses([]) == []
  {
  }

  // --------------------------------------------------------------------------------- the theorems

  /** What the turns that got a response add to the transcript: the response, then its results. */
  function Exchanges(turns: seq<Turn>): seq<Message> {
    if turns == [] then []
    else
      var last := turns[|turns| - 1];
      Exchanges(turns[..|turns| - 1]) +
      if last.generated.None? then []
      else [last.generated.value.message, ResultMessage(ResultsOf(last))]
  }

  function Responses(turns: seq<Turn>): nat {
    if turns == [] then 0
    else Responses(turns[..|turns| - 1]) + if turns[|turns| - 1].generated.Some? then 1 else 0
  }

  function TrailingFailures(turns: seq<Turn>): nat {
    if turns == [] || turns[|turns| - 1].generated.Some? then 0 else 1 + TrailingFailures(turns[..|turns| - 1])
  }

  /**
    After any calls of `Next`, whatever the model and the tools did: the transcript is the initial messages followed by
    the exchanges of all earlier calls; the index counts their responses, the attempt the failures right before this
    call.
   */
  lemma {:induction false} Transcript(initial: seq<Message>, turns: seq<Turn>)
    requires turns != []
    ensures var s, earlier := Run(initial, turns), turns[..|turns| - 1];
            && s.last == Some(StepOf(Responses(earlier), TrailingFailures(earlier), turns[|turns| - 1]))
            && s.messages == initial + Exchanges(earlier)
            && |s.messages| == |initial| + 2 * s.last.value.index
  {
    hide Answers, ToolUses, ResultMessage, ResultsOf, CallsOf;
    var n := |turns| - 1;
    var earlier := turns[..n];
    assert Run(initial, turns) == After(Run(initial, earlier), turns[n]);
    if n == 0 {
      assert earlier == [];
    } else {
      Transcript(initial, earlier);
    }
  }

  lemma {:induction false} ExchangeAt(turns: seq<Turn>, j: nat)
    requires j < |turns| && turns[j].generated.Some?
    ensures |Exchanges(turns)| == 2 * Responses(turns)
    ensures var p := 2 * Responses(turns[..j]);
            && p + 1 < |Exchanges(turns)|
            && Exchanges(turns)[p] == turns[j].generated.value.message
            && Exchanges(turns)[p + 1] == ResultMessage(ResultsOf(turns[j]))
  {
    hide ResultMessage, ResultsOf;
    var n := |turns| - 1;
    ExchangesCount(turns);
    if j == n {
      ExchangesCount(turns[..n]);
    } else {
      assert turns[..n][..j] == turns[..j];
      ExchangeAt(turns[..n], j);
    }
  }

  lemma {:induction false} ExchangesCount(turns: seq<Turn>)
    ensures |Exchanges(turns)| == 2 * Responses(turns)
  {
    hide ResultMessage, ResultsOf;
    if turns == [] {
    } else {
      ExchangesCount(turns[..|turns| - 1]);
    }
  }

  /** One user message with a result part for every call, in order, under its id and name. */
  ghost predicate HandsBack(m: Message, calls: seq<ToolUse>, results: seq<ToolResult>) {
    && m.role.RoleUser? && |m.AllParts()| == |calls| == |results|
    && forall i :: 0 <= i < |calls| ==>
         m.AllParts()[i] == NewToolResultPart(calls[i].id, calls[i].toolName, results[i].parts)
  }

  lemma ResultsHandBack(turn: Turn)
    ensures HandsBack(ResultMessage(ResultsOf(turn)), CallsOf(turn), ResultsOf(turn))
  {
    hide CallsOf, NewToolResultPart;
  }

  /**
    Where each exchange is in the transcript and what it holds: behind the initial messages and the exchanges of all
    earlier responses comes the response, and right behind it the message that hands its results back.
   */
  lemma TranscriptHolds(initial: seq<Message>, turns: seq<Turn>, j: nat)
    requires j < |turns| - 1 && turns[j].generated.Some?
    ensures var messages, p := Run(initial, turns).messages, |initial| + 2 * Responses(turns[..j]);
            && initial <= messages && p + 1 < |messages|
            && messages[p] == turns[j].generated.value.message
            && HandsBack(messages[p + 1], CallsOf(turns[j]), ResultsOf(turns[j]))
  {
    hide CallsOf, ResultsOf, ResultMessage, HandsBack, Exchanges, Responses, Run;
    var earlier := turns[..|turns| - 1];
    Transcript(initial, turns);
    assert earlier[j] == turns[j] && earlier[..j] == turns[..j];
    ExchangeAt(earlier, j);
    ResultsHandBack(turns[j]);
    var messages, p := Run(initial, turns).messages, |initial| + 2 * Responses(turns[..j]);
    assert messages[p] == Exchanges(earlier)[p - |initial|] && messages[p + 1] == Exchanges(earlier)[p + 1 - |initial|];
  }

  /**
    What a call is answered with, under its own id and name: the handler's result as it is, or the reason why there is
    none.
   */
  ghost predicate AnswersCall(use: ToolUse, outcome: ToolOutcome, result: ToolResult) {
    && result.id == use.id && result.toolName == use.toolName
    && match outcome
       case Returned(returned) => result.parts == returned.parts && result.metadata == returned.metadata
       case Unresolved(reason) =>
         && result.metadata.None? && |result.parts| == 1 && result.parts[0].kind.TextPart?
         && result.parts[0].text == "can not call tool " + use.toolName + ": " + reason
       case HandlerFailed(reason) =>
         && result.metadata.None? && |result.parts| == 1 && result.parts[0].kind.TextPart?
         && result.parts[0].text == "tool " + use.toolName + " call failed: " + reason
  }

  /**
    Every tool use of a tool-use response is answered in place, whether or not the call worked; nothing else is called.
   */
  lemma Pairing(index: nat, attempt: nat, turn: Turn)
    ensures var step := StepOf(index, attempt, turn);
            && step.response == turn.generated
            && step.toolCalls == (if turn.generated.Some? && turn.generated.value.stopReason.ToolUseStop?
                                  then ToolUses(turn.generated.value.message.AllParts()) else [])
            && |step.toolResults| == |step.toolCalls|
            && forall i :: 0 <= i < |step.toolCalls| ==>
                 && AnswersCall(step.toolCalls[i], turn.tools(i, step.toolCalls[i]), step.toolResults[i])
                 && step.toolResults[i].toolName != ""
  {
  }

  /** A tool-use response made of these uses, with anything else in between, gets exactly these called and answered. */
  lemma NextCallsTheUses(s: State, turn: Turn, uses: seq<ToolUse>, others: seq<seq<Part>>)
    requires turn.generated.Some? && turn.generated.value.stopReason.ToolUseStop?
    requires Sendable(uses) && |others| == |uses| + 1 && forall i :: 0 <= i < |others| ==> NoUseIn(others[i])
    requires turn.generated.value.message.parts == Some(Spread(uses, others))
    ensures var last := After(s, turn).last;
            && last.Some? && last.value.toolCalls == uses && |last.value.toolResults| == |uses|
            && forall i :: 0 <= i < |uses| ==> AnswersCall(uses[i], turn.tools(i, uses[i]), last.value.toolResults[i])
  {
    hide Answers, ToolUses, NoUseIn, Spread, AnswersCall;
    SpreadIsCollected(uses, others);
    var step := After(s, turn).last.value;
    Pairing(step.index, step.attempt, turn);
  }

  function NonEmptyIds(calls: seq<ToolUse>): seq<string> {
    if calls == [] then []
    else NonEmptyIds(calls[..|calls| - 1]) + if calls[|calls| - 1].id == "" then [] else [calls[|calls| - 1].id]
  }

  function IdsOf(results: seq<ToolResult>): (r: seq<string>)
    ensures |r| == |results|
    ensures forall i :: 0 <= i < |r| ==> r[i] == results[i].id
  {
    if results == [] then [] else IdsOf(results[..|results| - 1]) + [results[|results| - 1].id]
  }

  /** Only the calls without an id are left out. */
  lemma NonEmptyIdsNext(calls: seq<ToolUse>, use: ToolUse)
    ensures NonEmptyIds([]) == []
    ensures use.id != "" ==> NonEmptyIds(calls + [use]) == NonEmptyIds(calls) + [use.id]
    ensures use.id == "" ==> NonEmptyIds(calls + [use]) == NonEmptyIds(calls)
  {
    assert (calls + [use])[..|calls|] == calls;
  }

  ghost predicate Answered(calls: seq<ToolUse>, results: seq<ToolResult>) {
    && |results| == |calls|
    && forall i :: 0 <= i < |calls| ==>
         results[i].id == calls[i].id && results[i].toolName == calls[i].toolName && calls[i].toolName != ""
  }

  /**
    Reading the results back from the message that carries them recovers the calls' ids in order, empty ids excepted.
   */
  lemma {:induction false} ResultsReadBack(calls: seq<ToolUse>, results: seq<ToolResult>)
    requires Answered(calls, results)
    ensures IdsOf(ToolResults(ResultPartsOf(results))) == NonEmptyIds(calls)
  {
    hide ResultPartsOf, ToolResults;
    NoResultsReadBack();
    if calls == [] {
    } else {
      var n := |calls| - 1;
      ResultsReadBack(calls[..n], results[..n]);
      LastResultReadsBack(results);
      var inner, back := ToolResults(ResultPartsOf(results[..n])), ToolResults(ResultPartsOf(results));
      if calls[n].id != "" {
        assert back[..|back| - 1] == inner;
      } else {
        assert back == inner;
      }
    }
  }

  lemma NoResultsReadBack()
    ensures ToolResults(ResultPartsOf([])) == []
  {
  }

  lemma LastResultReadsBack(results: seq<ToolResult>)
    requires results != [] && results[|results| - 1].toolName != ""
    ensures var n := |results| - 1;
            ToolResults(ResultPartsOf(results)) == ToolResults(ResultPartsOf(results[..n])) +
              if results[n].id == "" then [] else [results[n].(metadata := Some(TOOL_RESULT_INTENT))]
  {
    hide AsToolResultPart, NewToolResultPart;
    var n := |results| - 1;
    assert ResultPartsOf(results)[..n] == ResultPartsOf(results[..n]);
    ToolResultRoundTrip(results[n].id, results[n].toolName, results[n].parts);
  }

  /** When every call has an id, the results themselves come back, one for one. */
  lemma {:induction false} FullResultsReadBack(calls: seq<ToolUse>, results: seq<ToolResult>)
    requires Answered(calls, results) && forall i :: 0 <= i < |calls| ==> calls[i].id != ""
    ensures var back := ToolResults(ResultPartsOf(results));
            && |back| == |results|
            && forall i :: 0 <= i < |back| ==> back[i] == results[i].(metadata := Some(TOOL_RESULT_INTENT))
  {
    hide ResultPartsOf, ToolResults;
    NoResultsReadBack();
    if calls == [] {
    } else {
      var n := |calls| - 1;
      FullResultsReadBack(calls[..n], results[..n]);
      LastResultReadsBack(results);
    }
  }

  /** The two together: the next transcript message answers exactly the calls that carry an id, in order. */
  lemma NextMessageAnswersCalls(index: nat, attempt: nat, turn: Turn)
    requires turn.generated.Some?
    ensures var step := StepOf(index, attempt, turn);
            && IdsOf(ToolResults(ResultMessage(step.toolResults).AllParts())) == NonEmptyIds(step.toolCalls)
            && ((forall i :: 0 <= i < |step.toolCalls| ==> step.toolCalls[i].id != "") ==>
                  |ToolResults(ResultMessage(step.toolResults).AllParts())| == |step.toolCalls|)
  {
    Pairing(index, attempt, turn);
    if forall i :: 0 <= i < |CallsOf(turn)| ==> CallsOf(turn)[i].id != "" {
      FullResultsReadBack(CallsOf(turn), ResultsOf(turn));
    }
    ResultsReadBack(StepOf(index, attempt, turn).toolCalls, StepOf(index, attempt, turn).toolResults);
  }
}
