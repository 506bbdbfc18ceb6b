/** Tool calls and tool results as data parts of messages. */
module ToolParts {
  import opened A2A

  datatype ToolUse = ToolUse(id: string, toolName: string, arguments: map<string, Value>, metadata: map<string, Value>)

  datatype ToolResult = ToolResult(id: string, toolName: string, parts: seq<Part>, metadata: Option<map<string, Value>>)

  const TOOL_USE_INTENT := map["intent" := Text("tool_use")]
  const TOOL_RESULT_INTENT := map["intent" := Text("tool_result")]

  function NewToolUsePart(toolID: string, toolName: string, arguments: map<string, Value>): Part {
    NewDataPart(map["tool_id" := Text(toolID), "tool_name" := Text(toolName), "arguments" := Object(arguments)])
      .(metadata := Some(TOOL_USE_INTENT))
  }

  function NewToolResultPart(toolID: string, toolName: string, content: seq<Part>): Part {
    NewDataPart(map["tool_id" := Text(toolID), "tool_name" := Text(toolName), "content" := PartList(content)])
      .(metadata := Some(TOOL_RESULT_INTENT))
  }

  predicate HasIntent(part: Part, intent: string) {
    part.kind.DataPart? && part.metadata.Some? && "intent" in part.metadata.value
        && part.metadata.value["intent"] == Text(intent)
  }

  /** A missing tool id reads as the empty id; a missing or empty name, or missing arguments, is no tool use. */
  function AsToolUsePart(part: Part): Option<ToolUse> {
    if !HasIntent(part, "tool_use") then None
    else
      var id := if "tool_id" in part.data && part.data["tool_id"].Text? then part.data["tool_id"].text else "";
      if "tool_name" !in part.data || !part.data["tool_name"].Text? || part.data["tool_name"].text == "" then None
      else if "arguments" !in part.data || !part.data["arguments"].Object? then None
      else Some(ToolUse(id, part.data["tool_name"].text, part.data["arguments"].fields, part.metadata.value))
  }

  /** Unlike a tool use, a tool result needs a non-empty id. */
  function AsToolResultPart(part: Part): Option<ToolResult> {
    if !HasIntent(part, "tool_result") then None
    else if "tool_id" !in part.data || !part.data["tool_id"].Text? || part.data["tool_id"].text == "" then None
    else if "tool_name" !in part.data || !part.data["tool_name"].Text? || part.data["tool_name"].text == "" then None
    else if "content" !in part.data || !part.data["content"].PartList? then None
    else Some(ToolResult(part.data["tool_id"].text, part.data["tool_name"].text, part.data["content"].parts,
        part.metadata))
  }

  lemma KeysDiffer()
    ensures "tool_id" != "tool_name" && "tool_id" != "arguments" && "tool_name" != "arguments"
    ensures "tool_id" != "content" && "tool_name" != "content"
    ensures "tool_use" != "tool_result"
  {
    assert "tool_name"[0] != "arguments"[0];
    assert "tool_id"[0] != "content"[0];
  }

  /** Exactly which parts are tool uses, whoever made them, and what they say. */
  lemma ToolUseIff(part: Part)
    ensures AsToolUsePart(part).Some? <==>
            && part.kind.DataPart?
            && part.metadata.Some?
            && "intent" in part.metadata.value && part.metadata.value["intent"] == Text("tool_use")
            && (exists name :: name != "" && "tool_name" in part.data && part.data["tool_name"] == Text(name))
            && (exists fields :: "arguments" in part.data && part.data["arguments"] == Object(fields))
    ensures AsToolUsePart(part).Some? ==>
              var use := AsToolUsePart(part).value;
              && part.data["tool_name"] == Text(use.toolName) && part.data["arguments"] == Object(use.arguments)
              && Some(use.metadata) == part.metadata
              && (forall id :: "tool_id" in part.data && part.data["tool_id"] == Text(id) ==> use.id == id)
              && ("tool_id" !in part.data || !part.data["tool_id"].Text? ==> use.id == "")
  {
    if AsToolUsePart(part).Some? {
      var use := AsToolUsePart(part).value;
      assert part.data["tool_name"] == Text(use.toolName) && part.data["arguments"] == Object(use.arguments);
    }
  }

  /** Exactly which parts are tool results, and what they say. */
  lemma ToolResultIff(part: Part)
    ensures AsToolResultPart(part).Some? <==>
            && part.kind.DataPart?
            && part.metadata.Some?
            && "intent" in part.metadata.value && part.metadata.value["intent"] == Text("tool_result")
            && (exists id :: id != "" && "tool_id" in part.data && part.data["tool_id"] == Text(id))
            && (exists name :: name != "" && "tool_name" in part.data && part.data["tool_name"] == Text(name))
            && (exists content :: "content" in part.data && part.data["content"] == PartList(content))
    ensures AsToolResultPart(part).Some? ==>
              var result := AsToolResultPart(part).value;
              && part.data["tool_id"] == Text(result.id) && part.data["tool_name"] == Text(result.toolName)
              && part.data["content"] == PartList(result.parts) && result.metadata == part.metadata
  {
    if AsToolResultPart(part).Some? {
      var result := AsToolResultPart(part).value;
      assert part.data["tool_id"] == Text(result.id) && part.data["tool_name"] == Text(result.toolName);
      assert part.data["content"] == PartList(result.parts);
    }
  }

  /** What the parts made for uses and results hold, under which keys. */
  lemma PartLayout(id: string, name: string, arguments: map<string, Value>, content: seq<Part>)
    ensures var part := NewToolUsePart(id, name, arguments);
            && part.kind.DataPart? && part.text == ""
            && part.metadata == Some(map["intent" := Text("tool_use")])
            && part.data.Keys == {"tool_id", "tool_name", "arguments"}
            && part.data["tool_id"] == Text(id) && part.data["tool_name"] == Text(name)
            && part.data["arguments"] == Object(arguments)
    ensures var part := NewToolResultPart(id, name, content);
            && part.kind.DataPart? && part.text == ""
            && part.metadata == Some(map["intent" := Text("tool_result")])
            && part.data.Keys == {"tool_id", "tool_name", "content"}
            && part.data["tool_id"] == Text(id) && part.data["tool_name"] == Text(name)
            && part.data["content"] == PartList(content)
  {
    KeysDiffer();
  }

  /** A tool use survives the trip through a part if and only if it has a name; it is never read as a result. */
  lemma ToolUseRoundTrip(id: string, name: string, arguments: map<string, Value>)
    ensures AsToolUsePart(NewToolUsePart(id, name, arguments))
         == if name == "" then None else Some(ToolUse(id, name, arguments, TOOL_USE_INTENT))
    ensures AsToolResultPart(NewToolUsePart(id, name, arguments)) == None
  {
    KeysDiffer();
  }

  /** A tool result survives if and only if it has an id and a name; it is never read as a use. */
  lemma ToolResultRoundTrip(id: string, name: string, content: seq<Part>)
    ensures AsToolResultPart(NewToolResultPart(id, name, content))
         == if id == "" || name == "" then None else Some(ToolResult(id, name, content, Some(TOOL_RESULT_INTENT)))
    ensures AsToolUsePart(NewToolResultPart(id, name, content)) == None
  {
    KeysDiffer();
  }

  // ----------------------------------------------------------------------- collecting from a message

  function ToolUses(parts: seq<Part>): (r: seq<ToolUse>)
    ensures forall i :: 0 <= i < |r| ==> r[i].toolName != ""
  {
    if parts == [] then []
    else
      var last := AsToolUsePart(parts[|parts| - 1]);
      ToolUses(parts[..|parts| - 1]) + if last.Some? then [last.value] else []
  }

  function ToolResults(parts: seq<Part>): seq<ToolResult> {
    if parts == [] then []
    else
      var last := AsToolResultPart(parts[|parts| - 1]);
      ToolResults(parts[..|parts| - 1]) + if last.Some? then [last.value] else []
  }

  /** Collecting from parts in a row collects from each stretch in turn. */
  lemma {:induction false} ToolUsesConcat(a: seq<Part>, b: seq<Part>)
    ensures ToolUses(a + b) == ToolUses(a) + ToolUses(b)
  {
    hide ToolUses, AsToolUsePart;
    if b == [] {
      NoToolUses();
      assert a + b == a;
    } else {
      var n := |b| - 1;
      ToolUsesConcat(a, b[..n]);
      NextToolUse(b[..n], b[n]);
      NextToolUse(a + b[..n], b[n]);
      assert b == b[..n] + [b[n]] && a + b == (a + b[..n]) + [b[n]];
    }
  }

  lemma NoToolUses()
    ensures ToolUses([]) == []
  {
  }

  lemma NextToolUse(parts: seq<Part>, part: Part)
    ensures ToolUses(parts + [part])
         == ToolUses(parts) + if AsToolUsePart(part).Some? then [AsToolUsePart(part).value] else []
  {
    assert (parts + [part])[..|parts|] == parts;
  }

  /** A single part contributes the use it reads as, or nothing. */
  lemma ToolUsesOfOne(part: Part)
    ensures AsToolUsePart(part).None? ==> ToolUses([part]) == []
    ensures AsToolUsePart(part).Some? ==> ToolUses([part]) == [AsToolUsePart(part).value]
  {
    assert [part][..0] == [];
  }

  ghost predicate NoUseIn(parts: seq<Part>) {
    forall i :: 0 <= i < |parts| ==> AsToolUsePart(parts[i]).None?
  }

  lemma {:induction false} NothingCollected(parts: seq<Part>)
    requires NoUseIn(parts)
    ensures ToolUses(parts) == []
  {
    hide ToolUses, AsToolUsePart;
    if parts == [] {
      NoToolUses();
    } else {
      var n := |parts| - 1;
      NothingCollected(parts[..n]);
      NextToolUse(parts[..n], parts[n]);
      assert parts == parts[..n] + [parts[n]];
    }
  }

  /** Parts made for these uses, in order, with other parts before, between and after them. */
  ghost function Spread(uses: seq<ToolUse>, others: seq<seq<Part>>): seq<Part>
    requires |others| == |uses| + 1
  {
    if uses == [] then others[0]
    else
      var n := |uses| - 1;
      var part := NewToolUsePart(uses[n].id, uses[n].toolName, uses[n].arguments);
      Spread(uses[..n], others[..n + 1]) + [part] + others[n + 1]
  }

  /** Uses as a part carries them: named, and marked by the intent. */
  ghost predicate Sendable(uses: seq<ToolUse>) {
    forall i :: 0 <= i < |uses| ==> uses[i].toolName != "" && uses[i].metadata == TOOL_USE_INTENT
  }

  /** Whatever stands between them, exactly the uses put into a message are collected from it, in order. */
  lemma {:induction false} SpreadIsCollected(uses: seq<ToolUse>, others: seq<seq<Part>>)
    requires Sendable(uses) && |others| == |uses| + 1
    requires forall i :: 0 <= i < |others| ==> NoUseIn(others[i])
    ensures ToolUses(Spread(uses, others)) == uses
  {
    hide ToolUses, AsToolUsePart, NewToolUsePart, NoUseIn;
    if uses == [] {
      NothingCollected(others[0]);
    } else {
      var n := |uses| - 1;
      var part := NewToolUsePart(uses[n].id, uses[n].toolName, uses[n].arguments);
      SpreadIsCollected(uses[..n], others[..n + 1]);
      ToolUseRoundTrip(uses[n].id, uses[n].toolName, uses[n].arguments);
      ToolUsesOfOne(part);
      NothingCollected(others[n + 1]);
      ToolUsesConcat(Spread(uses[..n], others[..n + 1]), [part]);
      ToolUsesConcat(Spread(uses[..n], others[..n + 1]) + [part], others[n + 1]);
      assert uses[..n] + [uses[n]] == uses;
    }
  }

  /** The same of results: each stretch in turn, and of a single part what it reads as. */
  lemma {:induction false} ToolResultsConcat(a: seq<Part>, b: seq<Part>)
    ensures ToolResults(a + b) == ToolResults(a) + ToolResults(b)
  {
    hide ToolResults, AsToolResultPart;
    if b == [] {
      NoToolResults();
      assert a + b == a;
    } else {
      var n := |b| - 1;
      ToolResultsConcat(a, b[..n]);
      NextToolResult(b[..n], b[n]);
      NextToolResult(a + b[..n], b[n]);
      assert b == b[..n] + [b[n]] && a + b == (a + b[..n]) + [b[n]];
    }
  }

  lemma NoToolResults()
    ensures ToolResults([]) == []
  {
  }

  lemma NextToolResult(parts: seq<Part>, part: Part)
    ensures ToolResults(parts + [part])
         == ToolResults(parts) + if AsToolResultPart(part).Some? then [AsToolResultPart(part).value] else []
  {
    assert (parts + [part])[..|parts|] == parts;
  }

  lemma ToolResultsOfOne(part: Part)
    ensures AsToolResultPart(part).None? ==> ToolResults([part]) == []
    ensures AsToolResultPart(part).Some? ==> ToolResults([part]) == [AsToolResultPart(part).value]
  {
    assert [part][..0] == [];
  }

  method GetToolUseParts(msg: Message) returns (toolUses: seq<ToolUse>)
    ensures toolUses == ToolUses(msg.AllParts())
  {
    toolUses := [];
    for i := 0 to |msg.AllParts()|
      invariant toolUses == ToolUses(msg.AllParts()[..i])
    {
      assert msg.AllParts()[..i + 1][..i] == msg.AllParts()[..i];
      var toolUse := AsToolUsePart(msg.AllParts()[i]);
      if toolUse.Some? {
        toolUses := toolUses + [toolUse.value];
      }
    }
    assert msg.AllParts()[..|msg.AllParts()|] == msg.AllParts();
  }

  method GetToolResultParts(msg: Message) returns (toolResults: seq<ToolResult>)
    ensures toolResults == ToolResults(msg.AllParts())
  {
    toolResults := [];
    for i := 0 to |msg.AllParts()|
      invariant toolResults == ToolResults(msg.AllParts()[..i])
    {
      assert msg.AllParts()[..i + 1][..i] == msg.AllParts()[..i];
      var toolResult := AsToolResultPart(msg.AllParts()[i]);
      if toolResult.Some? {
        toolResults := toolResults + [toolResult.value];
      }
    }
    assert msg.AllParts()[..|msg.AllParts()|] == msg.AllParts();
  }
}
