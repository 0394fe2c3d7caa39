// What the guard, the read tracker and the loop each take a tool call for, by its name and command:
// session.go, exploration_budget.go and read_tracker.go.
module ToolKinds {
  import opened Strings
  import opened Messages
  import opened ReadTracking
  import opened RunLog

  const READ_TOOLS: set<string> := {"grep", "read_file", "list_files"}
  const EDIT_TOOLS: set<string> := {"write_file", "edit_file"}

  // The three lists of patterns that make a shell command a change.
  const GUARD_PATTERNS: set<string> := {">", " -i", "open(", "write(", "rm ", "mv "}
  const LOOP_PATTERNS: set<string> := {">", " -i", "open(", "write(", "git checkout", "mv ", "cp ", "mkdir "}
  const TRACKER_PATTERNS: set<string> := {">", " -i ", "open(", "write(", "git checkout", "mv ", "cp ", "mkdir "}
  const READ_PATTERNS: set<string> := {"sed -n", "cat ", "head ", "tail ", "grep ", "find ", "ls ", "wc "}

  predicate Matches(patterns: set<string>, cmd: string) {
    exists p :: p in patterns && Contains(cmd, p)
  }

  lemma NamesDiffer()
    ensures "shell" !in READ_TOOLS && "shell" !in EDIT_TOOLS && READ_TOOLS !! EDIT_TOOLS
    ensures "read_file" != "grep" && "read_file" != "list_files"
  {
    assert "grep"[0] == 'g' && "read_file"[0] == 'r' && "list_files"[0] == 'l';
    assert "shell"[0] == 's' && "write_file"[0] == 'w' && "edit_file"[0] == 'e';
  }

  lemma PatternsByCase(cmd: string)
    ensures MutatingCommand(cmd) <==> Matches(GUARD_PATTERNS, cmd)
    ensures ChangingCommand(cmd) <==> Matches(LOOP_PATTERNS, cmd)
    ensures IsWriteShell(cmd) <==> Matches(TRACKER_PATTERNS, cmd)
    ensures IsReadOnlyShell(cmd) <==> Matches(READ_PATTERNS, cmd)
  {
    hide Contains;
  }

  // For all tools but the shell the three agree: the two edit tools change code, the three read tools only
  // read, and no other does either; but the tracker counts none of the reads except read_file.
  lemma KindByName(tu: ToolUse)
    requires tu.name != "shell"
    ensures IsReadOnly(tu) <==> tu.name in READ_TOOLS
    ensures tu.name in EDIT_TOOLS <==> IsMutating(tu)
    ensures tu.name in EDIT_TOOLS <==> ChangesCode(tu)
    ensures tu.name in EDIT_TOOLS <==> Classify(tu) == Write
    ensures Classify(tu).Read? ==> tu.name == "read_file"
    ensures tu.name in READ_TOOLS ==> tu.name !in EDIT_TOOLS
  {
    NamesDiffer();
  }

  // A shell command is a change if it matches their lists, which are not the same; it is a read for the
  // tracker if it is no change, matches a list of its own and names a file.
  lemma ShellKind(tu: ToolUse, cmd: string)
    requires tu.name == "shell" && tu.input.command == Some(cmd)
    ensures !IsReadOnly(tu)
    ensures IsMutating(tu) <==> Matches(GUARD_PATTERNS, cmd)
    ensures ChangesCode(tu) <==> Matches(LOOP_PATTERNS, cmd)
    ensures Classify(tu) == if Matches(TRACKER_PATTERNS, cmd) then Write
                            else if Matches(READ_PATTERNS, cmd) && tu.input.target.path != "" then
                              Read(ChargedKeys(tu.input.target))
                            else Ignored
  {
    NamesDiffer();
    PatternsByCase(cmd);
    hide Matches, Contains, ChargedKeys;
    assert tu.name !in READ_TOOLS && tu.name !in EDIT_TOOLS;
    assert tu.name != "read_file" by {
      assert "read_file" in READ_TOOLS;
    }
  }

  // So a command that only removes files counts as an edit for the guard, but neither ends the exploration
  // in the loop nor empties the read counters; copying files does both without being an edit.
  lemma ListsDisagree(tu: ToolUse, cmd: string)
    requires tu.name == "shell" && tu.input.command == Some(cmd)
    ensures Contains(cmd, "rm ") && !Matches(LOOP_PATTERNS, cmd) && !Matches(TRACKER_PATTERNS, cmd) ==>
              IsMutating(tu) && !ChangesCode(tu) && Classify(tu) != Write
    ensures Contains(cmd, "cp ") && !Matches(GUARD_PATTERNS, cmd) ==>
              !IsMutating(tu) && ChangesCode(tu) && Classify(tu) == Write
  {
    ShellKind(tu, cmd);
    hide Contains;
    assert "rm " in GUARD_PATTERNS && "cp " in LOOP_PATTERNS && "cp " in TRACKER_PATTERNS;
  }

  // What read_file is charged for is in the terms of its arguments; without a path it is not a read.
  lemma ReadFileKind(tu: ToolUse)
    requires tu.name == "read_file"
    ensures Classify(tu) == if tu.input.range.None? || tu.input.range.value.path == "" then Ignored
                            else Read(ChargedKeys(ReadTarget(tu.input)))
  {
  }

  // A turn is all read-only, or has a read, by the names of its calls.
  lemma TurnsByName(uses: seq<ToolUse>)
    ensures HasReadOnly(uses) <==> exists i :: 0 <= i < |uses| && uses[i].name in READ_TOOLS
    ensures AllReadOnly(uses) <==> uses != [] && forall i :: 0 <= i < |uses| ==> uses[i].name in READ_TOOLS
  {
    assert forall i :: 0 <= i < |uses| ==> (IsReadOnly(uses[i]) <==> uses[i].name in READ_TOOLS);
  }
}
