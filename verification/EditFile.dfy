// tool/edit_file.go: targeted replacement and line insertion.
module EditFileTool {
  import opened Strings
  import opened Whitespace
  import opened EditMatch

  datatype EditError = BothLines | EmptyInsert | AfterPastEnd | BeforePastEnd | NoLine | InvalidLine
                     | NoOldString | NotFound | Ambiguous(count: nat)

  datatype EditResult = Edited(text: string) | Refused(error: EditError)

  // ---------------------------------------------------------------------------------------------
  // Insertion.

  predicate EndsLine(s: string) {
    s != "" && s[|s| - 1] == '\n'
  }

  // The inserted text always ends its last line.
  function Block(insert: string): (r: string)
    ensures EndsLine(r)
  {
    if EndsLine(insert) then insert else insert + "\n"
  }

  function InsertError(content: string, insert: string, afterLine: int, beforeLine: int): (e: seq<EditError>)
    ensures |e| <= 1
  {
    if afterLine > 0 && beforeLine > 0 then [BothLines]
    else if insert == "" then [EmptyInsert]
    else if afterLine > |Split(content)| then [AfterPastEnd]
    else if afterLine > 0 then []
    else if beforeLine > |Split(content)| then [BeforePastEnd]
    else if beforeLine > 0 then []
    else [NoLine]
  }

  // The number of lines that stay in front of the block.
  function Point(afterLine: int, beforeLine: int): int {
    if afterLine > 0 then afterLine else beforeLine - 1
  }

  // The offset where line number k (from 0) starts, or where the text ends.
  function LineStart(content: string, k: nat): (r: nat)
    requires k <= |Split(content)|
    ensures r <= |content|
  {
    SplitAfterLines(content);
    ConcatAppend(SplitAfter(content)[..k], SplitAfter(content)[k..]);
    assert SplitAfter(content)[..k] + SplitAfter(content)[k..] == SplitAfter(content);
    |Concat(SplitAfter(content)[..k])|
  }

  function InsertAt(content: string, block: string, k: nat): string
    requires k <= |Split(content)|
  {
    content[..LineStart(content, k)] + block + content[LineStart(content, k)..]
  }

  function InsertSpec(content: string, insert: string, afterLine: int, beforeLine: int): EditResult {
    var error := InsertError(content, insert, afterLine, beforeLine);
    if error != [] then Refused(error[0]) else Edited(InsertAt(content, Block(insert), Point(afterLine, beforeLine)))
  }

  method WriteAll(builder: string, lines: seq<string>) returns (r: string)
    ensures r == builder + Concat(lines)
  {
    r := builder;
    for i := 0 to |lines|
      invariant r == builder + Concat(lines[..i])
    {
      r := r + lines[i];
      assert lines[..i + 1] == lines[..i] + [lines[i]];
      ConcatAppend(lines[..i], [lines[i]]);
      assert Concat([lines[i]]) == lines[i];
      Assoc(builder, Concat(lines[..i]), lines[i]);
    }
    assert lines[..|lines|] == lines;
  }

  // The pieces before and after a line are the text before and after its start.
  lemma {:induction false} PiecesAtLine(content: string, k: nat)
    requires k <= |Split(content)|
    ensures |SplitAfter(content)| == |Split(content)|
    ensures Concat(SplitAfter(content)[..k]) == content[..LineStart(content, k)]
    ensures Concat(SplitAfter(content)[k..]) == content[LineStart(content, k)..]
  {
    var pieces := SplitAfter(content);
    SplitAfterLines(content);
    assert pieces == pieces[..k] + pieces[k..];
    ConcatAppend(pieces[..k], pieces[k..]);
  }

  method InsertAtLine(content: string, insert: string, afterLine: int, beforeLine: int) returns (r: EditResult)
    ensures r == InsertSpec(content, insert, afterLine, beforeLine)
  {
    if afterLine > 0 && beforeLine > 0 {
      return Refused(BothLines);
    }
    if insert == "" {
      return Refused(EmptyInsert);
    }
    var block := insert;
    if !EndsLine(insert) {
      block := block + "\n";
    }
    var lines := SplitAfter(content);
    var lineCount := |Split(content)|;
    var idx := -1;
    if afterLine > 0 {
      if afterLine > lineCount {
        return Refused(AfterPastEnd);
      }
      idx := afterLine;
    } else if beforeLine > 0 {
      if beforeLine > lineCount {
        return Refused(BeforePastEnd);
      }
      idx := beforeLine - 1;
    } else {
      return Refused(NoLine);
    }
    SplitAfterLines(content);
    if idx < 0 || idx > |lines| {
      assert false; // the range check never fires
    }
    var b := WriteAll("", lines[..idx]);
    b := b + block;
    b := WriteAll(b, lines[idx..]);
    Assembled(content, block, idx);
    return Edited(b);
  }

  lemma {:induction false} Assembled(content: string, block: string, k: nat)
    requires k <= |Split(content)|
    ensures |SplitAfter(content)| == |Split(content)|
    ensures "" + Concat(SplitAfter(content)[..k]) + block + Concat(SplitAfter(content)[k..])
            == InsertAt(content, block, k)
  {
    PiecesAtLine(content, k);
    var before := Concat(SplitAfter(content)[..k]);
    assert "" + before == before;
  }

  // The lines of a text, each with its newline.
  function Ended(lines: seq<string>): string {
    if lines == [] then "" else lines[0] + "\n" + Ended(lines[1..])
  }

  lemma {:induction false} EndedSplit(lines: seq<string>, rest: string)
    requires SingleLines(lines)
    ensures Split(Ended(lines) + rest) == lines + Split(rest)
  {
    if lines == [] {
      assert Ended(lines) + rest == rest;
      assert lines + Split(rest) == Split(rest);
    } else {
      EndedSplit(lines[1..], rest);
      var tail := Ended(lines[1..]) + rest;
      Assoc(lines[0] + "\n", Ended(lines[1..]), rest);
      Assoc(lines[0], "\n", tail);
      assert ("\n" + tail)[1..] == tail;
      SplitLine(lines[0], "\n" + tail);
      assert Split("\n" + tail) == [""] + Split(tail);
      assert lines[0] + "" == lines[0];
      assert [lines[0]] + (lines[1..] + Split(rest)) == lines + Split(rest);
    }
  }

  // The text before a line is the lines before it, the text from a line on is the lines from it on.
  lemma {:induction false} TextBefore(content: string, k: nat)
    requires k < |Split(content)|
    ensures content[..LineStart(content, k)] == Ended(Split(content)[..k])
  {
    PiecesAtLine(content, k);
    SplitAfterLines(content);
    PiecesAreEnded(SplitAfter(content)[..k], Split(content)[..k]);
  }

  lemma {:induction false} PiecesAreEnded(pieces: seq<string>, lines: seq<string>)
    requires |pieces| == |lines| && forall i :: 0 <= i < |lines| ==> pieces[i] == lines[i] + "\n"
    ensures Concat(pieces) == Ended(lines)
  {
    if lines != [] {
      PiecesAreEnded(pieces[1..], lines[1..]);
    }
  }

  lemma {:induction false} TextFrom(content: string, k: nat)
    requires k < |Split(content)|
    ensures Split(content[LineStart(content, k)..]) == Split(content)[k..]
  {
    JoinSplit(content);
    TextBefore(content, k);
    var before, rest := Split(content)[..k], content[LineStart(content, k)..];
    SplitAtOffset(content, LineStart(content, k), Ended(before), rest);
    EndedSplit(before, rest);
    assert (before + Split(rest))[k..] == Split(rest);
  }

  lemma SplitAtOffset(s: string, at: nat, a: string, b: string)
    requires at <= |s| && s[..at] == a && s[at..] == b
    ensures s == a + b
  {
  }

  // A text that ends its last line is its lines, each with its newline, and counts as many newlines.
  lemma {:induction false} BlockLines(block: string)
    requires EndsLine(block)
    ensures var n := NewlineCount(block);
            && 1 <= n == |Split(block)| - 1 && SingleLines(Split(block)[..n])
            && block == Ended(Split(block)[..n]) && Split(block)[n] == ""
  {
    var lines := Split(block);
    var n := |lines| - 1;
    JoinSplit(block);
    SplitAfterLines(block);
    TextBefore(block, n);
    TextFrom(block, n);
    assert lines[n..] == [lines[n]];
    var last := block[LineStart(block, n)..];
    JoinSplit(last);
    assert last == lines[n] && '\n' !in last;
    assert block[..|block|] == block;
  }

  // Line by line: the lines before the point keep their number, the block's lines follow, and all
  // other lines move down by the block's newline count.
  lemma {:induction false} InsertedLines(content: string, block: string, k: nat)
    requires EndsLine(block) && k < |Split(content)|
    ensures var n := NewlineCount(block);
            && |Split(block)| == n + 1
            && Split(InsertAt(content, block, k)) == Split(content)[..k] + Split(block)[..n] + Split(content)[k..]
  {
    var n := NewlineCount(block);
    BlockLines(block);
    TextBefore(content, k);
    TextFrom(content, k);
    JoinSplit(content);
    EndedSplitTwice(Split(content)[..k], Split(block)[..n], content[LineStart(content, k)..]);
  }

  lemma {:induction false} EndedSplitTwice(before: seq<string>, lines: seq<string>, rest: string)
    requires SingleLines(before) && SingleLines(lines)
    ensures Split(Ended(before) + Ended(lines) + rest) == before + lines + Split(rest)
  {
    Assoc(Ended(before), Ended(lines), rest);
    EndedSplit(lines, rest);
    EndedSplit(before, Ended(lines) + rest);
    assert before + (lines + Split(rest)) == before + lines + Split(rest);
  }

  // After the last line, too, unless that line has characters: then the block's first line is glued to it.
  lemma {:induction false} AppendedLines(content: string, block: string)
    requires EndsLine(block)
    ensures var n, lines := NewlineCount(block), Split(content);
            var last := |lines| - 1;
            && |Split(block)| == n + 1 && n >= 1
            && Split(InsertAt(content, block, |lines|))
               == lines[..last] + [lines[last] + Split(block)[0]] + Split(block)[1..n] + [""]
  {
    BlockLines(block);
    JoinSplit(content);
    LastLine(content);
    AppendedAtEnd(content, block);
    var last := |Split(content)| - 1;
    EndedSplitGlued(Split(content)[..last], Split(content)[last], block);
    AppendedShape(Split(content)[..last], Split(content)[last], Split(block), NewlineCount(block));
  }

  lemma {:induction false} EndedSplitGlued(before: seq<string>, tail: string, block: string)
    requires SingleLines(before) && '\n' !in tail
    ensures Split(Ended(before) + tail + block) == before + ([tail + Split(block)[0]] + Split(block)[1..])
  {
    Assoc(Ended(before), tail, block);
    SplitLine(tail, block);
    EndedSplit(before, tail + block);
  }

  lemma {:induction false} AppendedAtEnd(content: string, block: string)
    ensures InsertAt(content, block, |Split(content)|) == content + block
  {
    WholeText(content);
    InsertedAtEnd(content, block, LineStart(content, |Split(content)|));
  }

  lemma InsertedAtEnd(s: string, block: string, at: nat)
    requires at == |s|
    ensures s[..at] + block + s[at..] == s + block
  {
    assert s[..at] == s && s[at..] == "";
  }

  lemma {:induction false} LastLine(content: string)
    ensures content == Ended(Split(content)[..|Split(content)| - 1]) + Split(content)[|Split(content)| - 1]
  {
    TextBefore(content, |Split(content)| - 1);
    LastText(content);
    SplitAtOffset(content, LineStart(content, |Split(content)| - 1),
                  Ended(Split(content)[..|Split(content)| - 1]), Split(content)[|Split(content)| - 1]);
  }

  lemma {:induction false} LastText(content: string)
    ensures content[LineStart(content, |Split(content)| - 1)..] == Split(content)[|Split(content)| - 1]
  {
    TextFrom(content, |Split(content)| - 1);
    OneLine(content[LineStart(content, |Split(content)| - 1)..], Split(content), |Split(content)| - 1);
  }

  lemma {:induction false} OneLine(tail: string, lines: seq<string>, last: nat)
    requires last == |lines| - 1 && Split(tail) == lines[last..]
    ensures tail == lines[last]
  {
    JoinSplit(tail);
    assert lines[last..] == [lines[last]];
    assert tail == Join([lines[last]], "\n");
  }

  lemma AppendedShape(before: seq<string>, last: string, block: seq<string>, n: nat)
    requires n >= 1 && |block| == n + 1 && block[n] == ""
    ensures before + ([last + block[0]] + block[1..]) == before + [last + block[0]] + block[1..n] + [""]
  {
    assert block[1..] == block[1..n] + [""];
  }

  lemma {:induction false} WholeText(content: string)
    ensures LineStart(content, |Split(content)|) == |content|
  {
    SplitAfterLines(content);
    assert SplitAfter(content)[..|Split(content)|] == SplitAfter(content);
  }

  // The lines of an inserted text; a newline at its end starts no line of its own.
  function InsertLines(insert: string): (lines: seq<string>)
    ensures |lines| >= 1
  {
    var lines := Split(insert);
    if |lines| > 1 && lines[|lines| - 1] == "" then lines[..|lines| - 1] else lines
  }

  lemma {:induction false} InsertedLinesAreTheBlock(insert: string)
    requires insert != ""
    ensures NewlineCount(Block(insert)) == |InsertLines(insert)|
    ensures Split(Block(insert)) == InsertLines(insert) + [""]
  {
    JoinSplit(Block(insert));
    var lines := Split(insert);
    if EndsLine(insert) {
      BlockLines(insert);
      assert lines == lines[..|lines| - 1] + [""];
    } else {
      NewlineAdded(insert);
      LastLineOpen(insert);
    }
  }

  lemma {:induction false} NewlineAdded(s: string)
    ensures Split(s + "\n") == Split(s) + [""]
  {
    JoinSplit(s);
    JoinAppend(Split(s), [""]);
    assert Join(Split(s), "\n") + "\n" + "" == s + "\n";
    SplitJoin(Split(s) + [""]);
  }

  lemma {:induction false} LastLineOpen(s: string)
    requires s != "" && !EndsLine(s)
    ensures Split(s)[|Split(s)| - 1] != ""
  {
    var lines := Split(s);
    JoinSplit(s);
    LastLine(s);
    EndedEndsLine(lines[..|lines| - 1]);
    LastOfConcat(Ended(lines[..|lines| - 1]), lines[|lines| - 1]);
  }

  // Where a text goes, by the numbers of the lines alone.
  ghost predicate PlacedBetween(content: string, r: EditResult, k: nat, inserted: seq<string>) {
    && k <= |Split(content)| && r.Edited?
    && Split(r.text) == Split(content)[..k] + inserted + Split(content)[k..]
  }

  ghost predicate GluedToEnd(content: string, r: EditResult, inserted: seq<string>) {
    var lines := Split(content);
    var last := |lines| - 1;
    && inserted != [] && r.Edited?
    && Split(r.text) == lines[..last] + [lines[last] + inserted[0]] + inserted[1..] + [""]
  }

  // After line a: the lines 1..a stay in front of it and the others follow, but behind the last line the
  // first inserted line goes on with that one.  Before line b: the lines 1..b - 1 stay in front.  Anything
  // else is refused.
  lemma {:induction false} InsertionIsPlaced(content: string, insert: string, afterLine: int, beforeLine: int)
    ensures var r, n := InsertSpec(content, insert, afterLine, beforeLine), |Split(content)|;
            if afterLine > 0 && beforeLine > 0 then r == Refused(BothLines)
            else if insert == "" then r == Refused(EmptyInsert)
            else if afterLine > n then r == Refused(AfterPastEnd)
            else if afterLine == n then GluedToEnd(content, r, InsertLines(insert))
            else if afterLine > 0 then PlacedBetween(content, r, afterLine, InsertLines(insert))
            else if beforeLine > n then r == Refused(BeforePastEnd)
            else if beforeLine > 0 then PlacedBetween(content, r, beforeLine - 1, InsertLines(insert))
            else r == Refused(NoLine)
    ensures afterLine > 0 || beforeLine > 0 ==>
              forall oldString :: EditSpec(content, oldString, insert, afterLine, beforeLine)
                                  == InsertSpec(content, insert, afterLine, beforeLine)
  {
    if insert != "" {
      InsertedLinesAreTheBlock(insert);
      var block, inserted := Block(insert), InsertLines(insert);
      assert Split(block)[..|inserted|] == inserted && Split(block)[1..|inserted|] == inserted[1..];
      hide Split, InsertAt, InsertLines, NewlineCount;
      if afterLine == |Split(content)| {
        AppendedLines(content, block);
      } else if 0 < afterLine < |Split(content)| {
        InsertedLines(content, block, afterLine);
      } else if 0 < beforeLine <= |Split(content)| {
        InsertedLines(content, block, beforeLine - 1);
      }
    }
  }

  // The block lands at the start of a line exactly unless it goes after an unterminated last line.
  lemma {:induction false} StartsLineIff(content: string, k: nat)
    requires k <= |Split(content)|
    ensures var start := LineStart(content, k);
            (start == 0 || content[start - 1] == '\n') <==> !(k == |Split(content)| && Split(content)[k - 1] != "")
  {
    if k < |Split(content)| {
      TextBefore(content, k);
      EndedEndsLine(Split(content)[..k]);
    } else {
      WholeText(content);
      JoinSplit(content);
      LastLine(content);
      EndedEndsLine(Split(content)[..k - 1]);
      LastOfConcat(Ended(Split(content)[..k - 1]), Split(content)[k - 1]);
    }
  }

  lemma LastOfConcat(a: string, b: string)
    requires (a == "" || EndsLine(a)) && '\n' !in b
    ensures (a + b == "" || EndsLine(a + b)) <==> b == ""
  {
    if b == "" {
      assert a + b == a;
    } else {
      assert (a + b)[|a + b| - 1] == b[|b| - 1];
    }
  }

  lemma {:induction false} EndedEndsLine(lines: seq<string>)
    ensures lines == [] ==> Ended(lines) == ""
    ensures lines != [] ==> EndsLine(Ended(lines))
  {
    if lines != [] {
      EndedEndsLine(lines[1..]);
    }
  }

  // Removing the inserted lines again restores the text.
  function DeleteLines(text: string, from: nat, count: nat): string
    requires from + count <= |Split(text)|
  {
    Join(Split(text)[..from] + Split(text)[from + count..], "\n")
  }

  lemma {:induction false} InsertionUndone(content: string, insert: string, afterLine: int, beforeLine: int)
    requires InsertSpec(content, insert, afterLine, beforeLine).Edited? && afterLine < |Split(content)|
    ensures var text, k := InsertSpec(content, insert, afterLine, beforeLine).text,
                           if afterLine > 0 then afterLine else beforeLine - 1;
            && 0 <= k && k + |InsertLines(insert)| <= |Split(text)|
            && DeleteLines(text, k, |InsertLines(insert)|) == content
  {
    hide Split, InsertLines, InsertSpec;
    InsertionIsPlaced(content, insert, afterLine, beforeLine);
    var k, lines := if afterLine > 0 then afterLine else beforeLine - 1, Split(content);
    var all := Split(InsertSpec(content, insert, afterLine, beforeLine).text);
    var n := |InsertLines(insert)|;
    assert all[..k] == lines[..k] && all[k + n..] == lines[k..];
    assert lines == lines[..k] + lines[k..];
    JoinSplit(content);
  }

  // ---------------------------------------------------------------------------------------------
  // Replacement.

  function Replaced(content: string, start: nat, end: nat, replacement: string): string
    requires start <= end <= |content|
  {
    content[..start] + replacement + content[end..]
  }

  // An old_string on one line may also match in normalised form.
  predicate MatchesLoosely(content: string, oldString: string) {
    '\n' !in oldString && Normalize(oldString) != "" && Count(Normalize(content), Normalize(oldString)) == 1
  }

  // Where the match lies in the content.
  function MatchStart(content: string, oldString: string): (r: nat)
    requires MatchesLoosely(content, oldString)
    ensures r <= MatchEnd(content, oldString) <= |content|
  {
    var norm, sub := Normalize(content), Normalize(oldString);
    var i := IndexFrom(norm, sub, 0);
    WalkIsMonotone(content, norm, i, i + |sub|);
    WalkPos(content, norm, i)
  }

  function MatchEnd(content: string, oldString: string): nat
    requires MatchesLoosely(content, oldString)
  {
    var norm, sub := Normalize(content), Normalize(oldString);
    WalkPos(content, norm, IndexFrom(norm, sub, 0) + |sub|)
  }

  function ReplaceSpec(content: string, oldString: string, newString: string): EditResult {
    if oldString == "" then Refused(NoOldString)
    else if Count(content, oldString) > 1 then Refused(Ambiguous(Count(content, oldString)))
    else if Count(content, oldString) == 1 then
      var i := IndexFrom(content, oldString, 0);
      Edited(Replaced(content, i, i + |oldString|, newString))
    else if MatchesLoosely(content, oldString) then
      Edited(Replaced(content, MatchStart(content, oldString), MatchEnd(content, oldString), newString))
    else Refused(NotFound)
  }

  function EditSpec(content: string, oldString: string, newString: string, afterLine: int, beforeLine: int): EditResult
  {
    if afterLine > 0 || beforeLine > 0 then InsertSpec(content, newString, afterLine, beforeLine)
    else ReplaceSpec(content, oldString, newString)
  }

  method FindLoosely(content: string, oldString: string) returns (start: int, end: int, ok: bool)
    requires '\n' !in oldString
    ensures ok <==> MatchesLoosely(content, oldString)
    ensures ok ==> start == MatchStart(content, oldString) && end == MatchEnd(content, oldString)
  {
    start, end, ok := FindNormalizedMatch(content, oldString);
  }

  // The tool on a file that can be read and written.
  method EditFile(content: string, oldString: string, newString: string, afterLine: int, beforeLine: int)
      returns (r: EditResult)
    ensures r == EditSpec(content, oldString, newString, afterLine, beforeLine)
  {
    if afterLine > 0 || beforeLine > 0 {
      r := InsertAtLine(content, newString, afterLine, beforeLine);
      return;
    }
    if oldString == "" {
      return Refused(NoOldString);
    }
    var count := Count(content, oldString);
    if count == 0 {
      if '\n' !in oldString {
        var start, end, ok := FindLoosely(content, oldString);
        if ok {
          return Edited(content[..start] + newString + content[end..]);
        }
      }
      return Refused(NotFound);
    }
    if count > 1 {
      return Refused(Ambiguous(count));
    }
    var i := IndexFrom(content, oldString, 0);
    return Edited(content[..i] + newString + content[i + |oldString|..]);
  }

  // A replacement changes one range of the text and nothing else, and what it removes is old_string, or,
  // in aligned content, text that normalises to the same as old_string.
  lemma ReplacementIsLocal(content: string, oldString: string, newString: string) returns (start: nat, end: nat)
    requires ReplaceSpec(content, oldString, newString).Edited?
    ensures start <= end <= |content|
    ensures ReplaceSpec(content, oldString, newString).text == content[..start] + newString + content[end..]
    ensures Count(content, oldString) == 1 ==>
              content[start..end] == oldString && forall j :: 0 <= j < start ==> !OccursAt(content, oldString, j)
    ensures Count(content, oldString) == 0 && Aligned(content, true) ==>
              Normalize(content[start..end]) == Normalize(oldString)
  {
    if Count(content, oldString) == 1 {
      start := IndexFrom(content, oldString, 0);
      end := start + |oldString|;
    } else {
      start, end := MatchStart(content, oldString), MatchEnd(content, oldString);
      if Aligned(content, true) {
        MatchIsFaithful(content, oldString);
      }
    }
  }

  ghost predicate OneUpToOverlaps(s: string, sub: string) {
    exists k :: OccursAt(s, sub, k) && forall j :: OccursAt(s, sub, j) ==> k <= j < k + |sub|
  }

  // When a replacement is made, by the occurrences of old_string alone: its only one, up to overlaps, or, if
  // there is none and it is a single line, the only one in normalised form.
  lemma {:induction false} ReplacesIff(content: string, oldString: string, newString: string, afterLine: int,
          beforeLine: int)
    requires afterLine <= 0 && beforeLine <= 0
    ensures var r := EditSpec(content, oldString, newString, afterLine, beforeLine);
            if oldString == "" then r == Refused(NoOldString)
            else if !(exists k :: OccursAt(content, oldString, k)) then
              if '\n' !in oldString && Normalize(oldString) != ""
                 && OneUpToOverlaps(Normalize(content), Normalize(oldString)) then r.Edited?
              else r == Refused(NotFound)
            else if OneUpToOverlaps(content, oldString) then r.Edited?
            else
              && r.Refused? && r.error.Ambiguous? && r.error.count >= 2
              && (exists ks :: |ks| == r.error.count && Apart(content, oldString, ks, 0))
              && (forall ks :: Apart(content, oldString, ks, 0) ==> |ks| <= r.error.count)
  {
    hide Normalize, OccursAt, Apart, Replaced, MatchStart, MatchEnd, InsertSpec, Count, IndexFrom;
    if oldString != "" {
      CountIsZeroIff(content, oldString);
      CountIsOneIff(content, oldString);
      CountIsMost(content, oldString);
      if Normalize(oldString) != "" {
        CountIsOneIff(Normalize(content), Normalize(oldString));
      }
    }
  }

  // Swapping old and new restores the text exactly when new_string is then unique and its first
  // occurrence is the one that was written.
  lemma {:induction false} UndoIff(content: string, oldString: string, newString: string)
    requires oldString != "" && Count(content, oldString) == 1
    ensures var i := IndexFrom(content, oldString, 0);
            var text := Replaced(content, i, i + |oldString|, newString);
            ReplaceSpec(text, newString, oldString) == Edited(content) <==>
              newString != "" && Count(text, newString) == 1 && IndexFrom(text, newString, 0) == i
  {
    hide IndexFrom;
    var i := IndexFrom(content, oldString, 0);
    var text := Replaced(content, i, i + |oldString|, newString);
    if newString != "" {
      PutBack(content, i, oldString, newString);
      FirstOccurrence(text, newString, i);
      if IndexFrom(text, newString, 0) < i {
        PutElsewhere(content, text, IndexFrom(text, newString, 0), i, oldString, newString);
      }
    }
  }

  lemma {:induction false} FirstOccurrence(s: string, sub: string, i: nat)
    requires sub != "" && OccursAt(s, sub, i)
    ensures 0 <= IndexFrom(s, sub, 0) <= i && OccursAt(s, sub, IndexFrom(s, sub, 0)) && Count(s, sub) >= 1
  {
  }

  lemma PutBack(content: string, i: nat, oldString: string, newString: string)
    requires OccursAt(content, oldString, i)
    ensures var text := Replaced(content, i, i + |oldString|, newString);
            OccursAt(text, newString, i) && Replaced(text, i, i + |newString|, oldString) == content
  {
    var text := Replaced(content, i, i + |oldString|, newString);
    assert text[i..i + |newString|] == newString;
    assert text[..i] == content[..i] && text[i + |newString|..] == content[i + |oldString|..];
  }

  lemma PutElsewhere(content: string, text: string, k: nat, first: nat, oldString: string, newString: string)
    requires OccursAt(text, newString, k) && k < first && forall j :: 0 <= j < first ==>
               !OccursAt(content, oldString, j)
    ensures Replaced(text, k, k + |newString|, oldString) != content
  {
    assert Replaced(text, k, k + |newString|, oldString)[k..k + |oldString|] == oldString;
    assert OccursAt(Replaced(text, k, k + |newString|, oldString), oldString, k);
  }
}
