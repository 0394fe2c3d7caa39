// The few operations of Go's strings package that the runtime relies on.
module Strings {

  predicate Contains(s: string, sub: string) {
    exists k | 0 <= k <= |s| :: OccursAt(s, sub, k)
  }

  predicate OccursAt(s: string, sub: string, k: int) {
    0 <= k && k + |sub| <= |s| && s[k..k + |sub|] == sub
  }

  lemma ContainsIff(s: string, sub: string)
    ensures Contains(s, sub) <==> exists before: string, after: string :: s == before + sub + after
  {
    if k :| 0 <= k <= |s| && OccursAt(s, sub, k) {
      assert s == s[..k] + sub + s[k + |sub|..];
    }
    if before: string, after: string :| s == before + sub + after {
      assert OccursAt(s, sub, |before|);
    }
  }

  // The white space of an ASCII text, as unicode.IsSpace has it.
  predicate IsSpace(c: char) {
    c == ' ' || c == '\t' || c == '\n' || c == '\r' || c == '\U{B}' || c == '\U{C}'
  }

  function TrimLeft(s: string): string {
    if s != "" && IsSpace(s[0]) then TrimLeft(s[1..]) else s
  }

  function TrimRight(s: string): string {
    if s != "" && IsSpace(s[|s| - 1]) then TrimRight(s[..|s| - 1]) else s
  }

  function TrimSpace(s: string): string {
    TrimRight(TrimLeft(s))
  }

  const WHITE: string := " \t\n\r\U{B}\U{C}"

  // What is left is the text without the white space at its ends, and with all other characters.
  lemma {:induction false} TrimSpaceIsInner(s: string) returns (i: nat, j: nat)
    ensures i <= j <= |s| && TrimSpace(s) == s[i..j]
    ensures forall k :: 0 <= k < i || j <= k < |s| ==> s[k] in WHITE
    ensures i < j ==> s[i] !in WHITE && s[j - 1] !in WHITE
  {
    i := LeftTrimmed(s);
    var n := RightTrimmed(s[i..]);
    j := i + n;
    assert s[i..][..n] == s[i..j];
    assert forall k :: j <= k < |s| ==> s[k] == s[i..][k - i];
  }

  lemma {:induction false} LeftTrimmed(s: string) returns (i: nat)
    ensures i <= |s| && TrimLeft(s) == s[i..] && forall k :: 0 <= k < i ==> s[k] in WHITE
    ensures i < |s| ==> s[i] !in WHITE
  {
    i := 0;
    if s != "" && IsSpace(s[0]) {
      var n := LeftTrimmed(s[1..]);
      i := n + 1;
      assert s[1..][n..] == s[i..];
      assert forall k :: 1 <= k < i ==> s[k] == s[1..][k - 1];
    } else {
      assert s[0..] == s;
    }
  }

  lemma {:induction false} RightTrimmed(s: string) returns (j: nat)
    ensures j <= |s| && TrimRight(s) == s[..j] && forall k :: j <= k < |s| ==> s[k] in WHITE
    ensures j > 0 ==> s[j - 1] !in WHITE
  {
    j := |s|;
    if s != "" && IsSpace(s[|s| - 1]) {
      j := RightTrimmed(s[..|s| - 1]);
      assert s[..|s| - 1][..j] == s[..j];
    } else {
      assert s[..|s|] == s;
    }
  }

  function NewlineCount(s: string): nat {
    if s == "" then 0 else (if s[0] == '\n' then 1 else 0) + NewlineCount(s[1..])
  }

  // strings.Split(s, "\n")
  function Split(s: string): (lines: seq<string>)
    ensures |lines| >= 1
  {
    if s == "" then [""]
    else
      var rest := Split(s[1..]);
      if s[0] == '\n' then [""] + rest else [[s[0]] + rest[0]] + rest[1..]
  }

  // strings.SplitAfter(s, "\n")
  function SplitAfter(s: string): (pieces: seq<string>)
    ensures |pieces| >= 1
  {
    if s == "" then [""]
    else
      var rest := SplitAfter(s[1..]);
      if s[0] == '\n' then ["\n"] + rest else [[s[0]] + rest[0]] + rest[1..]
  }

  // strings.Join(parts, sep)
  function Join(parts: seq<string>, sep: string): string {
    if |parts| == 0 then ""
    else if |parts| == 1 then parts[0]
    else parts[0] + sep + Join(parts[1..], sep)
  }

  function Concat(parts: seq<string>): string {
    if |parts| == 0 then "" else parts[0] + Concat(parts[1..])
  }

  ghost predicate SingleLines(parts: seq<string>) {
    forall i :: 0 <= i < |parts| ==> '\n' !in parts[i]
  }

  lemma {:induction false} JoinSplit(s: string)
    ensures Join(Split(s), "\n") == s
    ensures SingleLines(Split(s))
    ensures |Split(s)| == NewlineCount(s) + 1
  {
    if s != "" {
      JoinSplit(s[1..]);
      var rest := Split(s[1..]);
      if s[0] == '\n' {
        assert Split(s)[1..] == rest;
      } else if |rest| > 1 {
        assert Split(s)[1..] == rest[1..];
      }
      assert s == [s[0]] + s[1..];
    }
  }

  // Split is the only way to cut a text into newline-free parts.
  lemma {:induction false} SplitJoin(parts: seq<string>)
    requires |parts| >= 1 && SingleLines(parts)
    ensures Split(Join(parts, "\n")) == parts
  {
    if |parts| == 1 {
      SplitLine(parts[0], "");
      assert parts[0] + "" == parts[0];
    } else {
      SplitJoin(parts[1..]);
      var rest := "\n" + Join(parts[1..], "\n");
      SplitLine(parts[0], rest);
      assert Join(parts, "\n") == parts[0] + rest;
      assert rest[1..] == Join(parts[1..], "\n");
      assert parts[0] + "" == parts[0];
    }
  }

  // A newline-free prefix joins the first line of what follows.
  lemma {:induction false} SplitLine(line: string, rest: string)
    requires '\n' !in line
    ensures Split(line + rest) == [line + Split(rest)[0]] + Split(rest)[1..]
  {
    if line == "" {
      assert line + rest == rest;
      assert line + Split(rest)[0] == Split(rest)[0];
    } else {
      SplitLine(line[1..], rest);
      assert (line + rest)[1..] == line[1..] + rest;
      assert line + Split(rest)[0] == [line[0]] + (line[1..] + Split(rest)[0]);
    }
  }

  lemma {:induction false} JoinAppend(a: seq<string>, b: seq<string>)
    requires |a| >= 1 && |b| >= 1
    ensures Join(a + b, "\n") == Join(a, "\n") + "\n" + Join(b, "\n")
  {
    if |a| == 1 {
      assert (a + b)[1..] == b;
    } else {
      JoinAppend(a[1..], b);
      assert (a + b)[1..] == a[1..] + b;
    }
  }

  lemma Assoc(a: string, b: string, c: string)
    ensures a + (b + c) == a + b + c
  {
  }

  lemma {:induction false} ConcatAppend(a: seq<string>, b: seq<string>)
    ensures Concat(a + b) == Concat(a) + Concat(b)
  {
    if a == [] {
      assert a + b == b;
    } else {
      ConcatAppend(a[1..], b);
      assert (a + b)[1..] == a[1..] + b;
      Assoc(a[0], Concat(a[1..]), Concat(b));
    }
  }

  lemma {:induction false} SplitAfterConcat(s: string)
    ensures Concat(SplitAfter(s)) == s
  {
    if s != "" {
      SplitAfterConcat(s[1..]);
      var rest := SplitAfter(s[1..]);
      if s[0] == '\n' {
        assert SplitAfter(s)[1..] == rest;
      } else {
        assert SplitAfter(s)[1..] == rest[1..];
      }
      assert s == [s[0]] + s[1..];
    }
  }

  // Every piece of SplitAfter but the last is a line with its newline; the last has none.
  lemma {:induction false} SplitAfterLines(s: string)
    ensures Concat(SplitAfter(s)) == s
    ensures |SplitAfter(s)| == |Split(s)|
    ensures forall i :: 0 <= i < |Split(s)| - 1 ==> SplitAfter(s)[i] == Split(s)[i] + "\n"
    ensures SplitAfter(s)[|Split(s)| - 1] == Split(s)[|Split(s)| - 1]
  {
    SplitAfterConcat(s);
    if s != "" {
      SplitAfterLines(s[1..]);
    }
  }
}
