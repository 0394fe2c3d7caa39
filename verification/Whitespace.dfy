// tool/edit_file.go, normalizeWhitespace: its definition by lines and fields, and the same text in one
// pass over the characters, with the place each character comes from.
module Whitespace {
  import opened Strings

  // White space within a line.
  predicate Blank(c: char) {
    IsSpace(c) && c != '\n'
  }

  function WordLength(s: string): (n: nat)
    ensures n <= |s| && (forall i :: 0 <= i < n ==> !IsSpace(s[i])) && (n < |s| ==> IsSpace(s[n]))
  {
    if s == "" || IsSpace(s[0]) then 0 else 1 + WordLength(s[1..])
  }

  // strings.Fields
  function Fields(s: string): seq<string> {
    if s == "" then []
    else if IsSpace(s[0]) then Fields(s[1..])
    else [s[..WordLength(s)]] + Fields(s[WordLength(s)..])
  }

  function NormalLine(line: string): string {
    Join(Fields(line), " ")
  }

  function NormalLines(lines: seq<string>): (r: seq<string>)
    ensures |r| == |lines| && forall i :: 0 <= i < |lines| ==> r[i] == NormalLine(lines[i])
  {
    seq(|lines|, i requires 0 <= i < |lines| => NormalLine(lines[i]))
  }

  function Normalize(s: string): string {
    Join(NormalLines(Split(s)), "\n")
  }

  method NormalizeWhitespace(s: string) returns (r: string)
    ensures r == Normalize(s)
  {
    var parts := Split(s);
    var lines := new string[|parts|](i requires 0 <= i < |parts| => parts[i]);
    for i := 0 to lines.Length
      invariant forall j :: 0 <= j < lines.Length ==> lines[j] == if j < i then NormalLine(parts[j]) else parts[j]
    {
      lines[i] := Join(Fields(lines[i]), " ");
    }
    assert lines[..] == NormalLines(parts);
    r := Join(lines[..], "\n");
  }

  // ---------------------------------------------------------------------------------------------
  // One pass.

  // How many blanks are at the front.
  function BlankRun(s: string): (n: nat)
    ensures n <= |s| && (forall i :: 0 <= i < n ==> Blank(s[i])) && (n < |s| ==> !Blank(s[n]))
  {
    if s != "" && Blank(s[0]) then 1 + BlankRun(s[1..]) else 0
  }

  function AfterBlanks(s: string): string {
    s[BlankRun(s)..]
  }

  // atStart: nothing has been emitted on the current line.
  function Norm(s: string, atStart: bool): string
    decreases |s|
  {
    if s == "" then ""
    else if s[0] == '\n' then "\n" + Norm(s[1..], true)
    else if !Blank(s[0]) then [s[0]] + Norm(s[1..], false)
    else
      var r := AfterBlanks(s);
      if atStart || r == "" || r[0] == '\n' then Norm(r, atStart) else " " + Norm(r, false)
  }

  // The offset in the text of each emitted character; for a space, where its run of blanks begins.
  function Origins(s: string, atStart: bool, base: nat): (origins: seq<nat>)
    ensures |origins| == |Norm(s, atStart)|
    decreases |s|
  {
    if s == "" then []
    else if s[0] == '\n' then [base] + Origins(s[1..], true, base + 1)
    else if !Blank(s[0]) then [base] + Origins(s[1..], false, base + 1)
    else
      var r := AfterBlanks(s);
      var skipped := BlankRun(s);
      if atStart || r == "" || r[0] == '\n' then Origins(r, atStart, base + skipped)
      else [base] + Origins(r, false, base + skipped)
  }

  lemma {:induction false} NormOfWord(s: string, atStart: bool, n: nat)
    requires n <= |s| && forall i :: 0 <= i < n ==> !IsSpace(s[i])
    ensures Norm(s, atStart) == s[..n] + Norm(s[n..], if n == 0 then atStart else false)
  {
    hide BlankRun;
    if n > 0 {
      NormOfWord(s[1..], false, n - 1);
      assert s[1..][..n - 1] == s[1..n] && s[1..][n - 1..] == s[n..];
      assert s[..n] == [s[0]] + s[1..n];
    } else {
      assert s[n..] == s && s[..n] == "";
    }
  }

  lemma {:induction false} FieldsAfterBlanks(s: string)
    ensures Fields(s) == Fields(AfterBlanks(s))
  {
    if s != "" && Blank(s[0]) {
      FieldsAfterBlanks(s[1..]);
      assert s[1..][BlankRun(s[1..])..] == s[BlankRun(s)..];
    }
  }

  lemma {:induction false} NormOfLine(line: string)
    requires '\n' !in line
    ensures Norm(line, true) == NormalLine(line)
    decreases |line|
  {
    if line == "" {
    } else if Blank(line[0]) {
      FieldsAfterBlanks(line);
      NormOfLine(AfterBlanks(line));
    } else {
      var n := WordLength(line);
      NormOfWord(line, true, n);
      NormAfterWord(line[n..]);
      FieldsAfterBlanks(line[n..]);
      JoinFields(line[..n], Fields(AfterBlanks(line[n..])));
      assert line[n..] != "" ==> line[n..][0] == line[n];
    }
  }

  lemma {:induction false} JoinFields(word: string, fields: seq<string>)
    ensures Join([word] + fields, " ") == if fields == [] then word else word + (" " + Join(fields, " "))
  {
    if fields != [] {
      assert ([word] + fields)[1..] == fields;
    }
  }

  // After a word, the rest of the line adds a space and its own fields.
  lemma {:induction false} NormAfterWord(rest: string)
    requires '\n' !in rest && (rest != "" ==> Blank(rest[0]))
    ensures Norm(rest, false) == if Fields(AfterBlanks(rest)) == [] then "" else " " + NormalLine(AfterBlanks(rest))
    decreases |rest|, 0
  {
    var r := AfterBlanks(rest);
    if r != "" {
      NormOfLine(r);
      assert Norm(r, false) == Norm(r, true);
    }
  }

  lemma BlanksBefore(line: string, tail: string)
    requires '\n' !in line && tail != "" && tail[0] == '\n'
    ensures AfterBlanks(line + tail) == AfterBlanks(line) + tail
  {
    var n, m := BlankRun(line), BlankRun(line + tail);
    assert (line + tail)[n] == if n < |line| then line[n] else tail[0];
    assert forall i :: 0 <= i < |line| ==> (line + tail)[i] == line[i];
    assert n == m;
  }

  // Leading blanks of a line unfold in the same way with and without what follows the line.
  lemma {:induction false} BlanksUnfold(line: string, tail: string, atStart: bool)
    requires '\n' !in line && tail != "" && tail[0] == '\n' && line != "" && Blank(line[0])
    ensures var r := AfterBlanks(line);
            && |r| < |line| && '\n' !in r
            && Norm(line, atStart) == (if atStart || r == "" then Norm(r, atStart) else " " + Norm(r, false))
            && Norm(line + tail, atStart)
                 == (if atStart || r == "" then Norm(r + tail, atStart) else " " + Norm(r + tail, false))
  {
    var r := AfterBlanks(line);
    BlanksBefore(line, tail);
    assert (line + tail)[0] == line[0];
    assert (r + tail)[0] == if r == "" then '\n' else r[0];
  }

  lemma {:induction false} BreakAfterNothing(tail: string, atStart: bool)
    requires tail != "" && tail[0] == '\n'
    ensures Norm("" + tail, atStart) == Norm("", atStart) + Norm(tail, true)
  {
    assert "" + tail == tail;
    assert "" + Norm(tail, true) == Norm(tail, true);
  }

  lemma {:induction false} BreakAfterPlain(line: string, tail: string, atStart: bool)
    requires line != "" && !Blank(line[0]) && line[0] != '\n'
    requires Norm(line[1..] + tail, false) == Norm(line[1..], false) + Norm(tail, true)
    ensures Norm(line + tail, atStart) == Norm(line, atStart) + Norm(tail, true)
  {
    assert (line + tail)[1..] == line[1..] + tail && (line + tail)[0] == line[0];
    Assoc([line[0]], Norm(line[1..], false), Norm(tail, true));
  }

  lemma {:induction false} BreakAfterBlanks(line: string, tail: string, atStart: bool)
    requires '\n' !in line && tail != "" && tail[0] == '\n' && line != "" && Blank(line[0])
    requires var r := AfterBlanks(line);
             Norm(r + tail, atStart) == Norm(r, atStart) + Norm(tail, true)
    ensures Norm(line + tail, atStart) == Norm(line, atStart) + Norm(tail, true)
  {
    BlanksUnfold(line, tail, atStart);
    Assoc(" ", Norm(AfterBlanks(line), false), Norm(tail, true));
  }

  lemma {:induction false} NormOfLineBreak(line: string, tail: string, atStart: bool)
    requires '\n' !in line && tail != "" && tail[0] == '\n'
    ensures Norm(line + tail, atStart) == Norm(line, atStart) + Norm(tail, true)
    decreases |line|
  {
    if line == "" {
      BreakAfterNothing(tail, atStart);
    } else if !Blank(line[0]) {
      NormOfLineBreak(line[1..], tail, false);
      BreakAfterPlain(line, tail, atStart);
    } else {
      var r := AfterBlanks(line);
      BlanksUnfold(line, tail, atStart);
      NormOfLineBreak(r, tail, atStart);
      BreakAfterBlanks(line, tail, atStart);
    }
  }

  // The single pass computes the normalisation by lines and fields.
  lemma {:induction false} NormIsNormalize(s: string)
    ensures Norm(s, true) == Normalize(s)
    decreases |Split(s)|
  {
    var lines := Split(s);
    JoinSplit(s);
    NormOfLine(lines[0]);
    if |lines| > 1 {
      var rest := Join(lines[1..], "\n");
      SplitJoin(lines[1..]);
      NormIsNormalize(rest);
      NormOfLineBreak(lines[0], "\n" + rest, true);
      Assoc(lines[0], "\n", rest);
      Assoc(NormalLine(lines[0]), "\n", Norm(rest, true));
      assert ("\n" + rest)[1..] == rest;
      assert NormalLines(lines)[1..] == NormalLines(lines[1..]);
    }
  }

  // A normalised text neither begins nor ends with a space.
  lemma {:induction false} NormHasNoOuterSpace(s: string, atStart: bool)
    ensures var norm := Norm(s, atStart); norm != "" ==> norm[|norm| - 1] != ' ' && (atStart ==> norm[0] != ' ')
    ensures s != "" && !Blank(s[0]) ==> Norm(s, atStart) != ""
    decreases |s|
  {
    if s != "" {
      if s[0] == '\n' {
        NormHasNoOuterSpace(s[1..], true);
      } else if !Blank(s[0]) {
        NormHasNoOuterSpace(s[1..], false);
      } else {
        NormHasNoOuterSpace(AfterBlanks(s), atStart);
        NormHasNoOuterSpace(AfterBlanks(s), false);
      }
    }
  }

  // ---------------------------------------------------------------------------------------------
  // What normalising does to any text.

  // A text without the white space within its lines.
  function Erased(s: string): string {
    if s == "" then "" else (if s[0] in WHITE && s[0] != '\n' then "" else [s[0]]) + Erased(s[1..])
  }

  lemma {:induction false} ErasedBlanks(s: string)
    ensures Erased(AfterBlanks(s)) == Erased(s)
  {
    if s != "" && Blank(s[0]) {
      ErasedBlanks(s[1..]);
      assert AfterBlanks(s) == AfterBlanks(s[1..]);
      assert "" + Erased(s[1..]) == Erased(s[1..]);
    }
  }

  lemma {:induction false} NormKeepsText(s: string, atStart: bool)
    ensures Erased(Norm(s, atStart)) == Erased(s)
    decreases |s|
  {
    if s != "" {
      if s[0] == '\n' {
        NormKeepsText(s[1..], true);
        assert ("\n" + Norm(s[1..], true))[1..] == Norm(s[1..], true);
      } else if !Blank(s[0]) {
        NormKeepsText(s[1..], false);
        assert ([s[0]] + Norm(s[1..], false))[1..] == Norm(s[1..], false);
      } else {
        var r := AfterBlanks(s);
        ErasedBlanks(s);
        NormKeepsText(r, atStart);
        NormKeepsText(r, false);
        assert (" " + Norm(r, false))[1..] == Norm(r, false) && "" + Erased(r) == Erased(r);
      }
    }
  }

  // Within lines only single spaces, between two other characters.
  ghost predicate Clean(s: string, atStart: bool) {
    forall i :: 0 <= i < |s| ==> s[i] in WHITE ==> s[i] == '\n' || (s[i] == ' ' && Between(s, i, atStart))
  }

  predicate Between(s: string, i: nat, atStart: bool)
    requires i < |s|
  {
    && (if i == 0 then !atStart else s[i - 1] !in WHITE)
    && i + 1 < |s| && s[i + 1] !in WHITE
  }

  lemma {:induction false} CleanCons(c: char, s: string, atStart: bool)
    requires Clean(s, c == '\n')
    requires c !in WHITE || c == '\n' || (c == ' ' && !atStart && s != "" && s[0] !in WHITE)
    ensures Clean([c] + s, atStart)
  {
    var all := [c] + s;
    forall i | 0 <= i < |all| && all[i] in WHITE
      ensures all[i] == '\n' || (all[i] == ' ' && Between(all, i, atStart))
    {
      if i > 0 && s[i - 1] != '\n' {
        assert Between(s, i - 1, c == '\n');
      }
    }
  }

  lemma {:induction false} NormIsClean(s: string, atStart: bool)
    ensures Clean(Norm(s, atStart), atStart)
    decreases |s|
  {
    if s != "" {
      if s[0] == '\n' {
        NormIsClean(s[1..], true);
        CleanCons('\n', Norm(s[1..], true), atStart);
      } else if !Blank(s[0]) {
        NormIsClean(s[1..], false);
        CleanCons(s[0], Norm(s[1..], false), atStart);
      } else {
        var r := AfterBlanks(s);
        NormIsClean(r, atStart);
        NormIsClean(r, false);
        if !atStart && r != "" && r[0] != '\n' {
          CleanCons(' ', Norm(r, false), atStart);
        }
      }
    }
  }

  // Normalising leaves all characters but the white space within lines as they are, in order, and of that
  // only single spaces between two other characters.
  lemma {:induction false} NormalizedText(s: string)
    ensures Erased(Normalize(s)) == Erased(s) && Clean(Normalize(s), true)
  {
    NormIsNormalize(s);
    NormKeepsText(s, true);
    NormIsClean(s, true);
  }
}
