// message.go and provider.go: the values that flow between provider, session and tools.
module Messages {
  import opened Strings

  datatype Option<+T> = None | Some(value: T)

  datatype Role = User | Assistant

  // start_line, end_line, offset and limit as decoded from a read_file call (0 when absent).
  datatype RangeArgs = RangeArgs(path: string, startLine: int, endLine: int, offset: int, limit: int)

  // A file and line range found in a shell command; path "" when there is none.
  datatype Target = Target(path: string, startLine: int, endLine: int)

  // A tool input with the outcome of the JSON decodings the runtime applies to it: None when the
  // decoding fails.  `target` is what the shell-command regular expressions extract from `command`.
  datatype ToolInput = ToolInput(chars: nat, range: Option<RangeArgs>, command: Option<string>, target: Target)

  datatype ToolUse = ToolUse(id: string, name: string, input: ToolInput)

  datatype ToolResult = ToolResult(toolUseId: string, content: string, isError: bool)

  datatype Content = Text(text: string) | Use(use: ToolUse) | Result(result: ToolResult)

  datatype Message = Message(role: Role, content: seq<Content>)

  datatype Usage = Usage(inputTokens: int, outputTokens: int) {
    function Add(other: Usage): Usage {
      Usage(inputTokens + other.inputTokens, outputTokens + other.outputTokens)
    }
  }

  const NO_USAGE := Usage(0, 0)

  datatype Response = Response(content: seq<Content>, stopReason: string, usage: Usage)

  function UserMessage(text: string): Message {
    Message(User, [Text(text)])
  }

  function ToolResultMessage(results: seq<ToolResult>): Message {
    Message(User, seq(|results|, i requires 0 <= i < |results| => Result(results[i])))
  }

  function ToolUses(content: seq<Content>): seq<ToolUse> {
    if content == [] then []
    else (if content[0].Use? then [content[0].use] else []) + ToolUses(content[1..])
  }

  // ChatResponse.Text
  function TextOf(content: seq<Content>): string {
    if content == [] then "" else (if content[0].Text? then content[0].text else "") + TextOf(content[1..])
  }

  // ---------------------------------------------------------------------------------------------
  // What these are in terms of the blocks alone.

  predicate HasUse(content: seq<Content>) {
    exists i :: 0 <= i < |content| && content[i].Use?
  }

  function UseCount(content: seq<Content>): nat {
    if content == [] then 0 else UseCount(content[..|content| - 1]) + if content[|content| - 1].Use? then 1 else 0
  }

  function TextLength(content: seq<Content>): nat {
    if content == [] then 0
    else
      var last := content[|content| - 1];
      TextLength(content[..|content| - 1]) + if last.Text? then |last.text| else 0
  }

  lemma {:induction false} UsesSnoc(content: seq<Content>, c: Content)
    ensures ToolUses(content + [c]) == ToolUses(content) + if c.Use? then [c.use] else []
  {
    if content == [] {
      assert [c][1..] == [] && [] + [c] == [c];
    } else {
      UsesSnoc(content[1..], c);
      assert (content + [c])[1..] == content[1..] + [c];
    }
  }

  lemma {:induction false} TextSnoc(content: seq<Content>, c: Content)
    ensures TextOf(content + [c]) == TextOf(content) + if c.Text? then c.text else ""
  {
    if content == [] {
      assert [c][1..] == [] && [] + [c] == [c];
    } else {
      TextSnoc(content[1..], c);
      assert (content + [c])[1..] == content[1..] + [c];
      Assoc(if content[0].Text? then content[0].text else "", TextOf(content[1..]), if c.Text? then c.text else "");
    }
  }

  method AllToolUses(content: seq<Content>) returns (uses: seq<ToolUse>)
    ensures uses == ToolUses(content)
  {
    uses := [];
    for i := 0 to |content|
      invariant uses == ToolUses(content[..i])
    {
      assert content[..i + 1] == content[..i] + [content[i]];
      UsesSnoc(content[..i], content[i]);
      if content[i].Use? {
        uses := uses + [content[i].use];
      }
    }
    assert content[..|content|] == content;
  }

  method AllText(content: seq<Content>) returns (text: string)
    ensures text == TextOf(content)
  {
    text := "";
    for i := 0 to |content|
      invariant text == TextOf(content[..i])
    {
      assert content[..i + 1] == content[..i] + [content[i]];
      TextSnoc(content[..i], content[i]);
      if content[i].Text? {
        text := text + content[i].text;
      }
    }
    assert content[..|content|] == content;
  }

  lemma FrontOf(content: seq<Content>, i: nat)
    requires i < |content|
    ensures var rest := content[..|content| - 1];
            && content == rest + [content[|content| - 1]] && content[..i] == rest[..i]
            && (i < |rest| ==> rest[i] == content[i])
  {
  }

  // The tool calls of a response are the tool-use blocks of its content, all of them, in order.
  lemma {:induction false} ToolUsesAreTheBlocks(content: seq<Content>)
    ensures |ToolUses(content)| == UseCount(content)
    ensures forall i :: 0 <= i < |content| && content[i].Use? ==>
              UseCount(content[..i]) < |ToolUses(content)|
                && ToolUses(content)[UseCount(content[..i])] == content[i].use
    ensures ToolUses(content) != [] <==> HasUse(content)
  {
    if content != [] {
      var rest, last := content[..|content| - 1], content[|content| - 1];
      ToolUsesAreTheBlocks(rest);
      UsesSnoc(rest, last);
      assert content == rest + [last];
      hide ToolUses;
      forall i | 0 <= i < |content| && content[i].Use?
        ensures UseCount(content[..i]) < |ToolUses(content)|
        ensures ToolUses(content)[UseCount(content[..i])] == content[i].use
      {
        FrontOf(content, i);
      }
    }
  }

  // A text block stands in a text at an offset.
  ghost predicate StandsAt(text: string, part: string, at: nat) {
    at + |part| <= |text| && text[at..at + |part|] == part
  }

  lemma StandsInLonger(text: string, more: string, part: string, at: nat)
    requires StandsAt(text, part, at)
    ensures StandsAt(text + more, part, at)
  {
    assert (text + more)[at..at + |part|] == text[at..at + |part|];
  }

  // The text of a response is that of its text blocks, one behind the other.
  lemma {:induction false} TextIsTheBlocks(content: seq<Content>)
    ensures |TextOf(content)| == TextLength(content)
    ensures forall i :: 0 <= i < |content| && content[i].Text? ==>
              StandsAt(TextOf(content), content[i].text, TextLength(content[..i]))
  {
    if content != [] {
      var rest, last := content[..|content| - 1], content[|content| - 1];
      TextIsTheBlocks(rest);
      TextSnoc(rest, last);
      assert content == rest + [last];
      hide TextOf, StandsAt;
      forall i | 0 <= i < |content| && content[i].Text?
        ensures StandsAt(TextOf(content), content[i].text, TextLength(content[..i]))
      {
        FrontOf(content, i);
        if i < |rest| {
          StandsInLonger(TextOf(rest), if last.Text? then last.text else "", content[i].text, TextLength(rest[..i]));
        } else {
          StandsAtEnd(TextOf(rest), last.text);
        }
      }
    }
  }

  lemma StandsAtEnd(text: string, part: string)
    ensures StandsAt(text + part, part, |text|)
  {
  }

  // session.go: isReadOnlyToolUse
  predicate IsReadOnly(tu: ToolUse) {
    tu.name == "grep" || tu.name == "read_file" || tu.name == "list_files"
  }

  // exploration_budget.go: isMutatingToolUse
  predicate IsMutating(tu: ToolUse) {
    tu.name == "write_file" || tu.name == "edit_file"
    || (tu.name == "shell" && tu.input.command.Some? && MutatingCommand(tu.input.command.value))
  }

  predicate MutatingCommand(cmd: string) {
    Contains(cmd, ">") || Contains(cmd, " -i") || Contains(cmd, "open(") || Contains(cmd, "write(")
    || Contains(cmd, "rm ") || Contains(cmd, "mv ")
  }

  predicate AllReadOnly(uses: seq<ToolUse>) {
    |uses| > 0 && forall i :: 0 <= i < |uses| ==> IsReadOnly(uses[i])
  }

  predicate HasReadOnly(uses: seq<ToolUse>) {
    exists i :: 0 <= i < |uses| && IsReadOnly(uses[i])
  }

  predicate Succeeded(results: seq<ToolResult>, i: nat) {
    i < |results| && !results[i].isError
  }

  predicate MutationSucceeded(uses: seq<ToolUse>, results: seq<ToolResult>) {
    exists i :: 0 <= i < |uses| && IsMutating(uses[i]) && Succeeded(results, i)
  }

  predicate EditFailed(uses: seq<ToolUse>, results: seq<ToolResult>) {
    exists i :: 0 <= i < |uses| && uses[i].name == "edit_file" && i < |results| && results[i].isError
  }
}
