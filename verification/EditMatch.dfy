// tool/edit_file.go, findNormalizedMatch: a match found in the normalised text is mapped back to
// offsets in the original by walking both texts in parallel.
module EditMatch {
  import opened Strings
  import opened Whitespace

  // strings.Index from a position on.
  function IndexFrom(s: string, sub: string, k: nat): (r: int)
    ensures r >= 0 ==> k <= r && OccursAt(s, sub, r) && forall j :: k <= j < r ==> !OccursAt(s, sub, j)
    ensures r < 0 ==> forall j :: k <= j ==> !OccursAt(s, sub, j)
    decreases |s| - k
  {
    if k + |sub| > |s| then -1 else if OccursAt(s, sub, k) then k else IndexFrom(s, sub, k + 1)
  }

  // strings.Count: non-overlapping occurrences.
  function CountFrom(s: string, sub: string, k: nat): nat
    requires sub != ""
    decreases |s| - k
  {
    var i := IndexFrom(s, sub, k);
    if i < 0 then 0 else 1 + CountFrom(s, sub, i + |sub|)
  }

  function Count(s: string, sub: string): nat
    requires sub != ""
  {
    CountFrom(s, sub, 0)
  }

  lemma CountIsZeroIff(s: string, sub: string)
    requires sub != ""
    ensures Count(s, sub) == 0 <==> !(exists k :: OccursAt(s, sub, k))
  {
    var i := IndexFrom(s, sub, 0);
    if k :| OccursAt(s, sub, k) {
      assert i >= 0;
    }
  }

  // Count is one exactly when there is an occurrence and all others overlap the first.
  lemma CountIsOneIff(s: string, sub: string)
    requires sub != ""
    ensures Count(s, sub) == 1 <==>
            exists k :: OccursAt(s, sub, k) && forall j :: OccursAt(s, sub, j) ==> k <= j < k + |sub|
  {
    var i := IndexFrom(s, sub, 0);
    if i >= 0 {
      var next := IndexFrom(s, sub, i + |sub|);
      assert CountFrom(s, sub, 0) == 1 + CountFrom(s, sub, i + |sub|);
      assert CountFrom(s, sub, i + |sub|) == 0 <==> next < 0;
      if Count(s, sub) == 1 {
        assert next < 0;
        forall j | OccursAt(s, sub, j)
          ensures i <= j < i + |sub|
        {
          assert j >= 0;
        }
      } else if next >= 0 {
        assert OccursAt(s, sub, i) && OccursAt(s, sub, next);
      }
    }
  }

  // Occurrences from an offset on that do not overlap.
  ghost predicate Apart(s: string, sub: string, ks: seq<int>, from: int) {
    && (forall i :: 0 <= i < |ks| ==> from <= ks[i] && OccursAt(s, sub, ks[i]))
    && (forall i, j :: 0 <= i < j < |ks| ==> ks[i] + |sub| <= ks[j])
  }

  lemma {:induction false} NoMoreApart(s: string, sub: string, ks: seq<int>, from: nat)
    requires sub != "" && Apart(s, sub, ks, from)
    ensures |ks| <= CountFrom(s, sub, from)
    decreases |s| - from
  {
    if ks != [] {
      var i := IndexFrom(s, sub, from);
      assert OccursAt(s, sub, ks[0]);
      assert 0 <= i <= ks[0];
      NoMoreApart(s, sub, ks[1..], i + |sub|);
    }
  }

  lemma {:induction false} SoManyApart(s: string, sub: string, from: nat) returns (ks: seq<int>)
    requires sub != ""
    ensures Apart(s, sub, ks, from) && |ks| == CountFrom(s, sub, from)
    decreases |s| - from
  {
    var i := IndexFrom(s, sub, from);
    if i < 0 {
      ks := [];
    } else {
      var rest := SoManyApart(s, sub, i + |sub|);
      ks := [i] + rest;
    }
  }

  // The count is the largest number of occurrences no two of which overlap.
  lemma {:induction false} CountIsMost(s: string, sub: string)
    requires sub != ""
    ensures exists ks :: |ks| == Count(s, sub) && Apart(s, sub, ks, 0)
    ensures forall ks :: Apart(s, sub, ks, 0) ==> |ks| <= Count(s, sub)
  {
    var ks := SoManyApart(s, sub, 0);
    forall ks | Apart(s, sub, ks, 0)
      ensures |ks| <= Count(s, sub)
    {
      NoMoreApart(s, sub, ks, 0);
    }
  }

  // So an overlapping second occurrence goes unnoticed.
  lemma OverlapGoesUnnoticed()
    ensures Count("aaa", "aa") == 1 && OccursAt("aaa", "aa", 0) && OccursAt("aaa", "aa", 1)
  {
    assert IndexFrom("aaa", "aa", 0) == 0 && IndexFrom("aaa", "aa", 2) < 0;
  }

  // ---------------------------------------------------------------------------------------------
  // The walk.

  function SkipBlanks(content: string, pos: nat): (r: nat)
    requires pos <= |content|
    ensures pos <= r <= |content|
    ensures forall i :: pos <= i < r ==> content[i] == ' ' || content[i] == '\t'
    ensures r < |content| ==> content[r] != ' ' && content[r] != '\t'
    decreases |content| - pos
  {
    if pos < |content| && (content[pos] == ' ' || content[pos] == '\t') then SkipBlanks(content, pos + 1) else pos
  }

  function Advance(content: string, c: char, pos: nat): (r: nat)
    requires pos <= |content|
    ensures pos <= r <= |content| && (pos < |content| ==> pos < r)
  {
    if pos >= |content| then pos else if c == ' ' then SkipBlanks(content, pos + 1) else pos + 1
  }

  // The original offset reached after n normalised characters.
  function WalkPos(content: string, norm: string, n: nat): (r: nat)
    requires n <= |norm|
    ensures r <= |content|
  {
    if n == 0 then 0 else Advance(content, norm[n - 1], WalkPos(content, norm, n - 1))
  }

  method SkipRun(content: string, pos: nat) returns (r: nat)
    requires pos <= |content|
    ensures r == SkipBlanks(content, pos)
  {
    r := pos;
    while r < |content| && (content[r] == ' ' || content[r] == '\t')
      invariant r <= |content| && SkipBlanks(content, r) == SkipBlanks(content, pos)
    {
      r := r + 1;
    }
  }

  // Past one original character, and past the rest of its run if the normalised one is a space.
  method Step(content: string, c: char, pos: nat) returns (r: nat)
    requires pos <= |content|
    ensures r == Advance(content, c, pos)
  {
    r := pos;
    if r < |content| {
      r := r + 1;
      if c == ' ' {
        r := SkipRun(content, r);
      }
    }
  }

  method BuildMap(content: string, normContent: string) returns (normToOrig: array<nat>)
    ensures fresh(normToOrig) && normToOrig.Length == |normContent| + 1
    ensures forall n {:trigger normToOrig[n]} :: 0 <= n <= |normContent| ==>
              normToOrig[n] == WalkPos(content, normContent, n)
  {
    normToOrig := new nat[|normContent| + 1](_ => 0);
    var origPos: nat := 0;
    for ni := 0 to |normContent|
      invariant origPos == WalkPos(content, normContent, ni)
      invariant forall j {:trigger normToOrig[j]} :: 0 <= j < ni ==> normToOrig[j] == WalkPos(content, normContent, j)
    {
      normToOrig[ni] := origPos;
      origPos := Step(content, normContent[ni], origPos);
    }
    normToOrig[|normContent|] := origPos;
  }

  method FindNormalizedMatch(content: string, oldString: string) returns (start: int, end: int, found: bool)
    ensures var norm, sub := Normalize(content), Normalize(oldString);
            && (found <==> sub != "" && Count(norm, sub) == 1)
            && (found ==> var i := IndexFrom(norm, sub, 0);
                          0 <= i && i + |sub| <= |norm| && start == WalkPos(content, norm, i)
                            && end == WalkPos(content, norm, i + |sub|))
  {
    var normContent := NormalizeWhitespace(content);
    var normOld := NormalizeWhitespace(oldString);
    if normOld == "" || Count(normContent, normOld) != 1 {
      return 0, 0, false;
    }
    var normIdx := IndexFrom(normContent, normOld, 0);
    var normEnd := normIdx + |normOld|;
    var normToOrig := BuildMap(content, normContent);
    return normToOrig[normIdx], normToOrig[normEnd], true;
  }

  // For every content the offset map is monotone, so a match is a range of the content.
  lemma {:induction false} WalkIsMonotone(content: string, norm: string, i: nat, j: nat)
    requires i <= j <= |norm|
    ensures WalkPos(content, norm, i) <= WalkPos(content, norm, j) <= |content|
    decreases j
  {
    if i < j {
      WalkIsMonotone(content, norm, i, j - 1);
    }
  }

  // ---------------------------------------------------------------------------------------------
  // When the walk is right.

  // No blanks at the start of a line or before a line break, and runs of blanks in between go on with
  // spaces and tabs only; trailing blanks at the very end do no harm.
  predicate PlainRun(s: string) {
    forall i :: 1 <= i < BlankRun(s) ==> s[i] == ' ' || s[i] == '\t'
  }

  predicate Aligned(s: string, atStart: bool)
    decreases |s|
  {
    if s == "" then true
    else if s[0] == '\n' then Aligned(s[1..], true)
    else if !Blank(s[0]) then Aligned(s[1..], false)
    else
      var r := AfterBlanks(s);
      r == "" || (!atStart && r[0] != '\n' && PlainRun(s) && Aligned(r, false))
  }

  // A text, its normalised form, and where the characters of that form come from.
  datatype Walk = Walk(content: string, norm: string, origins: seq<nat>)

  function WalkOf(content: string): Walk {
    Walk(content, Norm(content, true), Origins(content, true, 0))
  }

  // What is left of both texts at a point where the walk is right.
  ghost predicate InStep(w: Walk, n: nat, pos: nat, atStart: bool) {
    && n <= |w.norm| == |w.origins| && pos == WalkPos(w.content, w.norm, n)
    && Norm(w.content[pos..], atStart) == w.norm[n..]
    && Origins(w.content[pos..], atStart, pos) == w.origins[n..]
  }

  lemma StartsInStep(content: string)
    ensures InStep(WalkOf(content), 0, 0, true)
  {
    assert content[0..] == content;
  }

  lemma DropHead<T>(s: seq<T>, n: nat, head: T, tail: seq<T>)
    requires n <= |s| && s[n..] == [head] + tail
    ensures n < |s| && s[n] == head && s[n + 1..] == tail
  {
    assert |s[n..]| == 1 + |tail|;
    assert s[n..][0] == s[n] && s[n..][1..] == s[n + 1..];
  }

  lemma PlainUnfolds(s: string, atStart: bool, base: nat)
    requires s != "" && !Blank(s[0])
    ensures Norm(s, atStart) == [s[0]] + Norm(s[1..], s[0] == '\n')
    ensures Origins(s, atStart, base) == [base] + Origins(s[1..], s[0] == '\n', base + 1)
  {
  }

  lemma BlankUnfolds(s: string, base: nat)
    requires s != "" && Blank(s[0]) && AfterBlanks(s) != "" && AfterBlanks(s)[0] != '\n'
    ensures Norm(s, false) == [' '] + Norm(AfterBlanks(s), false) && Norm(AfterBlanks(s), false) != ""
    ensures Origins(s, false, base) == [base] + Origins(AfterBlanks(s), false, base + BlankRun(s))
  {
    assert !Blank(AfterBlanks(s)[0]);
    hide BlankRun, AfterBlanks;
  }

  lemma TrimUnfolds(s: string, atStart: bool, base: nat)
    requires s != "" && Blank(s[0]) && AfterBlanks(s) != "" && (atStart || AfterBlanks(s)[0] == '\n')
    ensures Norm(s, atStart) == Norm(AfterBlanks(s), atStart) && Norm(AfterBlanks(s), atStart) != ""
    ensures Origins(s, atStart, base) == Origins(AfterBlanks(s), atStart, base + BlankRun(s))
    ensures Origins(s, atStart, base)[0] == base + BlankRun(s)
  {
    assert !Blank(AfterBlanks(s)[0]);
    hide BlankRun, AfterBlanks;
  }

  lemma PlainStep(w: Walk, n: nat, pos: nat, atStart: bool)
    requires InStep(w, n, pos, atStart) && pos < |w.content| && !Blank(w.content[pos])
    ensures n < |w.norm| && w.norm[n] == w.content[pos] && w.origins[n] == pos
    ensures InStep(w, n + 1, pos + 1, w.content[pos] == '\n')
  {
    var rest := w.content[pos..];
    assert rest[0] == w.content[pos] && rest[1..] == w.content[pos + 1..];
    PlainUnfolds(rest, atStart, pos);
    DropHead(w.norm, n, rest[0], Norm(rest[1..], rest[0] == '\n'));
    DropHead(w.origins, n, pos, Origins(rest[1..], rest[0] == '\n', pos + 1));
  }

  // The offset behind the run of blanks at pos.
  function Behind(content: string, pos: nat): (r: nat)
    requires pos <= |content|
    ensures pos <= r <= |content|
  {
    pos + BlankRun(content[pos..])
  }

  lemma BehindRun(content: string, pos: nat)
    requires pos < |content| && Blank(content[pos])
    ensures var next := Behind(content, pos);
            && pos < next && AfterBlanks(content[pos..]) == content[next..]
            && (next < |content| ==> !Blank(content[next]) && AfterBlanks(content[pos..])[0] == content[next])
  {
    var rest := content[pos..];
    assert rest[0] == content[pos];
    assert forall i :: 0 <= i < |rest| ==> rest[i] == content[pos + i];
  }

  // The walk skips the whole run if it goes on with spaces and tabs only.
  lemma {:induction false} SkipsRun(content: string, pos: nat)
    requires pos < |content| && Blank(content[pos])
    ensures SkipBlanks(content, pos + 1) <= Behind(content, pos)
    ensures SkipBlanks(content, pos + 1) == Behind(content, pos) <==> PlainRun(content[pos..])
  {
    var rest := content[pos..];
    var k, skip := BlankRun(rest), SkipBlanks(content, pos + 1);
    assert rest[0] == content[pos];
    assert forall i :: 1 <= i < k ==> content[pos + i] == rest[i];
    if skip < pos + k {
      assert rest[skip - pos] == content[skip];
    } else if pos + k < |content| {
      assert rest[k] == content[pos + k];
    }
  }

  // A run of blanks that is not at the edge of its line.
  predicate InnerRun(content: string, pos: nat, atStart: bool)
    requires pos < |content| && Blank(content[pos])
  {
    !atStart && Behind(content, pos) < |content| && content[Behind(content, pos)] != '\n'
  }

  lemma BlankStep(w: Walk, n: nat, pos: nat)
    requires InStep(w, n, pos, false) && pos < |w.content| && Blank(w.content[pos]) && InnerRun(w.content, pos, false)
    ensures var next := Behind(w.content, pos);
            && n + 1 < |w.norm| && w.norm[n] == ' ' && w.origins[n] == pos && w.origins[n + 1] == next
            && (WalkPos(w.content, w.norm, n + 1) == next <==> PlainRun(w.content[pos..]))
            && (WalkPos(w.content, w.norm, n + 1) == next ==> InStep(w, n + 1, next, false))
  {
    var rest, next := w.content[pos..], Behind(w.content, pos);
    BehindRun(w.content, pos);
    assert rest[0] == w.content[pos];
    BlankUnfolds(rest, pos);
    DropHead(w.norm, n, ' ', Norm(AfterBlanks(rest), false));
    DropHead(w.origins, n, pos, Origins(AfterBlanks(rest), false, next));
    assert w.content[next..][0] == w.content[next];
    PlainUnfolds(w.content[next..], false, next);
    assert w.origins[n + 1..][0] == w.origins[n + 1];
    SkipsRun(w.content, pos);
    assert WalkPos(w.content, w.norm, n + 1) == Advance(w.content, ' ', pos);
  }

  ghost predicate OnTrack(w: Walk, n: nat, pos: nat, atStart: bool) {
    InStep(w, n, pos, atStart) && Aligned(w.content[pos..], atStart)
  }

  lemma PlainTrack(w: Walk, n: nat, pos: nat, atStart: bool)
    requires OnTrack(w, n, pos, atStart) && pos < |w.content| && !Blank(w.content[pos])
    ensures OnTrack(w, n + 1, pos + 1, w.content[pos] == '\n')
  {
    PlainStep(w, n, pos, atStart);
    assert w.content[pos..][0] == w.content[pos] && w.content[pos..][1..] == w.content[pos + 1..];
  }

  lemma {:induction false} AlignedRun(content: string, pos: nat, atStart: bool)
    requires pos < |content| && Blank(content[pos])
    ensures Aligned(content[pos..], atStart) <==>
            Behind(content, pos) == |content|
            || (InnerRun(content, pos, atStart) && PlainRun(content[pos..])
                && Aligned(content[Behind(content, pos)..], false))
  {
    BehindRun(content, pos);
    assert content[pos..][0] == content[pos];
  }

  // Blanks at the very end leave nothing.
  lemma TrailingIsNothing(w: Walk, n: nat, pos: nat, atStart: bool)
    requires InStep(w, n, pos, atStart) && pos < |w.content| && Blank(w.content[pos])
             && Behind(w.content, pos) == |w.content|
    ensures n == |w.norm|
  {
    BehindRun(w.content, pos);
    assert w.content[pos..][0] == w.content[pos];
    assert Norm(w.content[pos..], atStart) == "";
    assert |w.norm[n..]| == 0;
  }

  lemma BlankTrack(w: Walk, n: nat, pos: nat, atStart: bool)
    requires OnTrack(w, n, pos, atStart) && pos < |w.content| && Blank(w.content[pos]) && n < |w.norm|
    ensures var next := Behind(w.content, pos);
            && !atStart && pos < next < |w.content| && !IsSpace(w.content[next]) && w.origins[n] == pos
            && w.norm[n] == ' ' && OnTrack(w, n + 1, next, false)
  {
    AlignedRun(w.content, pos, atStart);
    BehindRun(w.content, pos);
    if Behind(w.content, pos) == |w.content| {
      TrailingIsNothing(w, n, pos, atStart);
      assert false;
    } else {
      BlankStep(w, n, pos);
    }
  }

  lemma NothingAfterEnd(w: Walk, n: nat, atStart: bool)
    requires InStep(w, n, |w.content|, atStart)
    ensures n == |w.norm|
  {
    assert w.content[|w.content|..] == "";
    assert |w.norm[n..]| == 0;
  }

  lemma TrackNotOver(w: Walk, n: nat, pos: nat, atStart: bool)
    requires InStep(w, n, pos, atStart) && n < |w.norm|
    ensures pos < |w.content|
  {
    if pos == |w.content| {
      NothingAfterEnd(w, n, atStart);
      assert false;
    }
  }

  // What the walk does from pos to next at a normalised character c, where a tells that the line has
  // only begun and b the same for the next character.
  predicate StepOk(content: string, c: char, pos: nat, next: nat, a: bool, b: bool) {
    && pos < |content|
    && if Blank(content[pos]) then
         !a && !b && c == ' ' && next == Behind(content, pos) < |content| && content[next] != '\n'
       else c == content[pos] && next == pos + 1 && b == (content[pos] == '\n')
  }

  // In aligned content the walk is in step at every normalised character.
  lemma TrackStep(w: Walk, n: nat, pos: nat, a: bool) returns (next: nat, b: bool)
    requires n < |w.norm| && OnTrack(w, n, pos, a)
    ensures StepOk(w.content, w.norm[n], pos, next, a, b) && w.origins[n] == pos
    ensures OnTrack(w, n + 1, next, b)
  {
    TrackNotOver(w, n, pos, a);
    next := WalkPos(w.content, w.norm, n + 1);
    if Blank(w.content[pos]) {
      BlankTrack(w, n, pos, a);
      b := false;
    } else {
      PlainTrack(w, n, pos, a);
      PlainStep(w, n, pos, a);
      b := w.content[pos] == '\n';
    }
  }

  // The places and flags of characters n, n + 1, ... of a walk.
  datatype Path = Path(places: seq<nat>, flags: seq<bool>)

  predicate Sized(norm: string, n: nat, p: Path) {
    |p.places| == |p.flags| == |norm| + 1 - n > 0
  }

  predicate StepAt(content: string, norm: string, n: nat, p: Path, k: nat)
    requires Sized(norm, n, p) && k + 1 < |p.places|
  {
    StepOk(content, norm[n + k], p.places[k], p.places[k + 1], p.flags[k], p.flags[k + 1])
  }

  ghost predicate Follows(content: string, norm: string, n: nat, p: Path) {
    && Sized(norm, n, p)
    && (forall k: nat {:trigger p.places[k]} :: k < |p.places| ==> p.places[k] <= |content|)
    && (forall k: nat :: k + 1 < |p.places| ==> StepAt(content, norm, n, p, k))
  }

  ghost predicate Tracks(w: Walk, n: nat, p: Path)
    requires |p.places| == |w.norm| + 1 - n && |w.origins| == |w.norm|
  {
    && (forall k: nat {:trigger p.places[k]} :: k < |p.places| ==> p.places[k] == WalkPos(w.content, w.norm, n + k))
    && (forall k: nat {:trigger p.places[k]} :: k + 1 < |p.places| ==> p.places[k] == w.origins[n + k])
  }

  lemma {:induction false} PathFrom(w: Walk, n: nat, pos: nat, a: bool) returns (p: Path)
    requires n <= |w.norm| && OnTrack(w, n, pos, a)
    ensures Follows(w.content, w.norm, n, p) && p.places[0] == pos && p.flags[0] == a && |w.origins| == |w.norm|
            && Tracks(w, n, p)
    decreases |w.norm| - n
  {
    if n == |w.norm| {
      p := Path([pos], [a]);
    } else {
      var next, b := TrackStep(w, n, pos, a);
      var rest := PathFrom(w, n + 1, next, b);
      p := Path([pos] + rest.places, [a] + rest.flags);
      LongerPath(w.content, w.norm, n, pos, a, rest);
      LongerTrack(w, n, pos, a, rest);
    }
  }

  lemma LongerPath(content: string, norm: string, n: nat, pos: nat, a: bool, rest: Path)
    requires n < |norm| && Follows(content, norm, n + 1, rest)
    requires StepOk(content, norm[n], pos, rest.places[0], a, rest.flags[0])
    ensures Follows(content, norm, n, Path([pos] + rest.places, [a] + rest.flags))
  {
    var p := Path([pos] + rest.places, [a] + rest.flags);
    assert p.places[1..] == rest.places && p.flags[1..] == rest.flags;
    forall k: nat {:trigger p.places[k]} | k < |p.places|
      ensures p.places[k] <= |content|
    {
      if k > 0 {
        assert rest.places[k - 1] == p.places[k];
      }
    }
    forall k: nat | k + 1 < |p.places|
      ensures StepAt(content, norm, n, p, k)
    {
      if k > 0 {
        LaterStep(content, norm, n, rest, k - 1);
      }
    }
  }

  lemma LaterStep(content: string, norm: string, n: nat, rest: Path, k: nat)
    requires n < |norm| && Follows(content, norm, n + 1, rest) && k + 1 < |rest.places|
    ensures StepOk(content, norm[n + (k + 1)], rest.places[k], rest.places[k + 1], rest.flags[k], rest.flags[k + 1])
  {
    assert StepAt(content, norm, n + 1, rest, k) && norm[n + 1 + k] == norm[n + (k + 1)];
  }

  lemma {:induction false} LongerTrack(w: Walk, n: nat, pos: nat, a: bool, rest: Path)
    requires n < |w.norm| == |w.origins| && |rest.places| == |w.norm| - n && Tracks(w, n + 1, rest)
    requires pos == WalkPos(w.content, w.norm, n) == w.origins[n]
    ensures Tracks(w, n, Path([pos] + rest.places, [a] + rest.flags))
  {
    var p := Path([pos] + rest.places, [a] + rest.flags);
    forall k: nat {:trigger p.places[k]} | 0 < k < |p.places|
      ensures p.places[k] == WalkPos(w.content, w.norm, n + k)
              && (k + 1 < |p.places| ==> p.places[k] == w.origins[n + k])
    {
      assert rest.places[k - 1] == p.places[k];
      assert n + 1 + (k - 1) == n + k;
    }
  }

  lemma AlignedPath(content: string) returns (p: Path)
    requires Aligned(content, true)
    ensures Follows(content, Norm(content, true), 0, p) && Tracks(WalkOf(content), 0, p)
  {
    StartsInStep(content);
    assert content[0..] == content;
    p := PathFrom(WalkOf(content), 0, 0, true);
  }

  // The offset map is right for every normalised character.
  ghost predicate MapIsTrue(w: Walk)
    requires |w.norm| == |w.origins|
  {
    forall n: nat :: n < |w.norm| ==> WalkPos(w.content, w.norm, n) == w.origins[n]
  }

  // If it is, the content is aligned from any point where the walk is right.
  lemma {:induction false} TrueWalkIsAligned(w: Walk, n: nat, pos: nat, atStart: bool)
    requires InStep(w, n, pos, atStart) && MapIsTrue(w)
    ensures Aligned(w.content[pos..], atStart)
    decreases |w.content| - pos
  {
    if pos < |w.content| {
      if !Blank(w.content[pos]) {
        PlainStep(w, n, pos, atStart);
        TrueWalkIsAligned(w, n + 1, pos + 1, w.content[pos] == '\n');
        assert w.content[pos..][0] == w.content[pos] && w.content[pos..][1..] == w.content[pos + 1..];
      } else {
        AlignedRun(w.content, pos, atStart);
        if Behind(w.content, pos) < |w.content| {
          BehindRun(w.content, pos);
          TrueBlankIsInner(w, n, pos, atStart);
          BlankStep(w, n, pos);
          assert WalkPos(w.content, w.norm, n + 1) == w.origins[n + 1];
          TrueWalkIsAligned(w, n + 1, Behind(w.content, pos), false);
        }
      }
    }
  }

  // Blanks that are trimmed put the walk behind.
  lemma TrimmedIsBehind(w: Walk, n: nat, pos: nat, atStart: bool)
    requires InStep(w, n, pos, atStart) && pos < |w.content| && Blank(w.content[pos])
    requires Behind(w.content, pos) < |w.content| && !InnerRun(w.content, pos, atStart)
    ensures n < |w.norm| && w.origins[n] > pos
  {
    var rest := w.content[pos..];
    BehindRun(w.content, pos);
    assert rest[0] == w.content[pos];
    TrimUnfolds(rest, atStart, pos);
    assert |w.norm[n..]| > 0;
    assert w.origins[n..][0] == w.origins[n];
  }

  lemma TrueBlankIsInner(w: Walk, n: nat, pos: nat, atStart: bool)
    requires InStep(w, n, pos, atStart) && MapIsTrue(w) && pos < |w.content| && Blank(w.content[pos])
    requires Behind(w.content, pos) < |w.content|
    ensures InnerRun(w.content, pos, atStart)
  {
    if !InnerRun(w.content, pos, atStart) {
      TrimmedIsBehind(w, n, pos, atStart);
      assert false;
    }
  }

  // The offset map is right for every normalised character exactly for aligned content.
  lemma {:induction false} MapIsTrueIff(content: string)
    ensures MapIsTrue(WalkOf(content)) <==> Aligned(content, true)
  {
    if Aligned(content, true) {
      var p := AlignedPath(content);
      forall n: nat | n < |Norm(content, true)|
        ensures WalkPos(content, Norm(content, true), n) == Origins(content, true, 0)[n]
      {
        assert p.places[n] == WalkPos(content, Norm(content, true), 0 + n);
      }
    }
    if MapIsTrue(WalkOf(content)) {
      StartsInStep(content);
      TrueWalkIsAligned(WalkOf(content), 0, 0, true);
      assert content[0..] == content;
    }
  }

  lemma {:induction false} PathMovesOn(content: string, norm: string, p: Path, i: nat, j: nat)
    requires Follows(content, norm, 0, p) && i <= j <= |norm|
    ensures p.places[i] <= p.places[j] <= |content| && (i < j ==> p.places[i] < p.places[j])
    decreases j - i
  {
    if i < j {
      assert StepAt(content, norm, 0, p, i);
      PathMovesOn(content, norm, p, i + 1, j);
    }
  }

  // In aligned content, the original text between two offsets of the map normalises to the normalised
  // text between the two characters, if that does not end with a space.
  lemma {:induction false} SegmentNormalises(content: string, norm: string, p: Path, i: nat, j: nat)
    requires Follows(content, norm, 0, p) && i <= j <= |norm| && (i < j ==> norm[j - 1] != ' ')
    ensures p.places[i] <= p.places[j] <= |content| && Norm(content[p.places[i]..p.places[j]], p.flags[i]) == norm[i..j]
    decreases j - i
  {
    PathMovesOn(content, norm, p, i, j);
    if i == j {
      NothingNormalises(content, p.places[i], p.flags[i]);
      assert norm[i..j] == "";
    } else {
      SegmentNormalises(content, norm, p, i + 1, j);
      SegmentGrows(content, norm, p, i, j);
    }
  }

  lemma {:induction false} NothingNormalises(content: string, pos: nat, atStart: bool)
    requires pos <= |content|
    ensures Norm(content[pos..pos], atStart) == ""
  {
    assert content[pos..pos] == "";
  }

  lemma {:induction false} SegmentGrows(content: string, norm: string, p: Path, i: nat, j: nat)
    requires Follows(content, norm, 0, p) && i < j <= |norm| && norm[j - 1] != ' '
    requires p.places[i] < p.places[j] <= |content| && p.places[i + 1] <= p.places[j]
    requires Norm(content[p.places[i + 1]..p.places[j]], p.flags[i + 1]) == norm[i + 1..j]
    ensures Norm(content[p.places[i]..p.places[j]], p.flags[i]) == norm[i..j]
  {
    PathMovesOn(content, norm, p, i + 1, j);
    assert StepAt(content, norm, 0, p, i);
    SegmentStep(content, norm, i, j, p.places[i], p.places[i + 1], p.places[j], p.flags[i], p.flags[i + 1]);
  }

  lemma {:induction false} SegmentStep(content: string, norm: string, i: nat, j: nat, pos: nat, next: nat, end: nat,
          a: bool, b: bool)
    requires i < j <= |norm| && norm[j - 1] != ' ' && StepOk(content, norm[i], pos, next, a, b)
    requires pos < end <= |content| && next <= end && (i + 1 < j ==> next < end)
    requires Norm(content[next..end], b) == norm[i + 1..j]
    ensures Norm(content[pos..end], a) == norm[i..j]
  {
    if Blank(content[pos]) {
      BlankSegment(content, norm, i, j, pos, end);
    } else {
      PlainSegment(content, norm, i, j, pos, end, a);
    }
  }

  lemma BlankSegment(content: string, norm: string, i: nat, j: nat, pos: nat, end: nat)
    requires i < j <= |norm| && pos < end <= |content| && Blank(content[pos]) && norm[i] == ' '
    requires Behind(content, pos) < end && content[Behind(content, pos)] != '\n'
    requires Norm(content[Behind(content, pos)..end], false) == norm[i + 1..j]
    ensures Norm(content[pos..end], false) == norm[i..j]
  {
    BlankRunOfSegment(content, pos, end);
    var segment := content[pos..end];
    assert segment[0] == content[pos];
    assert AfterBlanks(segment) == content[Behind(content, pos)..end];
    BlankUnfolds(segment, 0);
    SliceHead(norm, i, j);
  }

  lemma {:induction false} PlainSegment(content: string, norm: string, i: nat, j: nat, pos: nat, end: nat,
          atStart: bool)
    requires i < j <= |norm| && pos < end <= |content| && !Blank(content[pos]) && norm[i] == content[pos]
    requires Norm(content[pos + 1..end], content[pos] == '\n') == norm[i + 1..j]
    ensures Norm(content[pos..end], atStart) == norm[i..j]
  {
    var segment := content[pos..end];
    assert segment[0] == content[pos] && segment[1..] == content[pos + 1..end];
    PlainUnfolds(segment, atStart, 0);
    SliceHead(norm, i, j);
  }

  lemma BlankRunOfSegment(content: string, pos: nat, end: nat)
    requires pos <= end <= |content| && Behind(content, pos) < end
    ensures BlankRun(content[pos..end]) == BlankRun(content[pos..])
  {
    var k, m := BlankRun(content[pos..]), BlankRun(content[pos..end]);
    assert !Blank(content[pos..][k]) && content[pos..][k] == content[pos..end][k];
    assert forall i :: 0 <= i < end - pos ==> content[pos..end][i] == content[pos..][i];
  }

  lemma SliceHead(s: string, i: nat, j: nat)
    requires i < j <= |s|
    ensures s[i..j] == [s[i]] + s[i + 1..j]
  {
  }

  // A match found in aligned content is faithful: the text it designates normalises to what was sought.
  lemma {:induction false} MatchIsFaithful(content: string, oldString: string)
    requires Aligned(content, true)
    requires Normalize(oldString) != "" && Count(Normalize(content), Normalize(oldString)) == 1
    ensures var norm, sub := Normalize(content), Normalize(oldString);
            var i := IndexFrom(norm, sub, 0);
            0 <= i && i + |sub| <= |norm| &&
            var start, end := WalkPos(content, norm, i), WalkPos(content, norm, i + |sub|);
            start <= end <= |content| && Normalize(content[start..end]) == sub
  {
    var norm, sub := Normalize(content), Normalize(oldString);
    var i := IndexFrom(norm, sub, 0);
    NormIsNormalize(content);
    HasNoOuterSpace(oldString);
    RangeIsFaithful(content, i, i + |sub|, WalkPos(content, norm, i), WalkPos(content, norm, i + |sub|), sub);
  }

  lemma HasNoOuterSpace(s: string)
    requires Normalize(s) != ""
    ensures Normalize(s)[0] != ' ' && Normalize(s)[|Normalize(s)| - 1] != ' '
  {
    NormIsNormalize(s);
    NormHasNoOuterSpace(s, true);
  }

  lemma {:induction false} RangeIsFaithful(content: string, i: nat, j: nat, start: nat, end: nat, sub: string)
    requires Aligned(content, true) && i < j <= |Norm(content, true)| && Norm(content, true)[i..j] == sub
    requires sub != "" && sub[0] != ' ' && sub[|sub| - 1] != ' '
    requires start == WalkPos(content, Norm(content, true), i) && end == WalkPos(content, Norm(content, true), j)
    ensures start <= end <= |content| && Normalize(content[start..end]) == sub
  {
    assert Norm(content, true)[i..j][j - i - 1] == Norm(content, true)[j - 1];
    var p := AlignedPath(content);
    assert p.places[i] == WalkPos(content, Norm(content, true), 0 + i);
    assert p.places[j] == WalkPos(content, Norm(content, true), 0 + j);
    SegmentNormalises(content, Norm(content, true), p, i, j);
    NormalisesTo(content[start..end], p.flags[i], sub);
  }

  lemma {:induction false} NormalisesTo(s: string, atStart: bool, sub: string)
    requires Norm(s, atStart) == sub && sub != "" && sub[0] != ' '
    ensures Normalize(s) == sub
  {
    NormIsNormalize(s);
    FirstIsNotBlank(s, atStart);
  }

  // A text whose normalisation begins with something other than a space does not begin with a blank, so
  // it is the same at the start of a line.
  lemma {:induction false} FirstIsNotBlank(s: string, atStart: bool)
    requires Norm(s, atStart) != "" && Norm(s, atStart)[0] != ' '
    ensures Norm(s, atStart) == Norm(s, true)
  {
    if !atStart && Blank(s[0]) {
      BlanksThenNewline(s);
    }
  }

  // Trailing blanks of a line are dropped wherever the line is entered.
  lemma {:induction false} BlanksThenNewline(s: string)
    requires s != "" && Blank(s[0]) && Norm(s, false) != "" && Norm(s, false)[0] != ' '
    ensures Norm(s, false) == Norm(s, true)
  {
    var r := AfterBlanks(s);
    assert r != "" && r[0] == '\n';
  }

  // Without alignment it need not be: an indented line yields its indentation.
  lemma IndentedMatchIsNot(c: char)
    requires !IsSpace(c)
    ensures var content, sub := [' ', c], [c];
            && Normalize(content) == sub && Count(Normalize(content), sub) == 1
            && (var norm := Normalize(content);
                Normalize(content[WalkPos(content, norm, 0)..WalkPos(content, norm, 1)]) == "")
  {
    var content := [' ', c];
    assert content[1..] == [c] && [c][1..] == "" && BlankRun([c]) == 0 && BlankRun(content) == 1;
    assert AfterBlanks(content) == [c];
    NormIsNormalize(content);
    NormIsNormalize([' ']);
    assert Norm([c], true) == [c] by {
      assert Norm("", false) == "";
    }
    assert AfterBlanks([' ']) == "";
    assert OccursAt([c], [c], 0) && IndexFrom([c], [c], 0) == 0 && IndexFrom([c], [c], 1) < 0;
    assert CountFrom([c], [c], 0) == 1 + CountFrom([c], [c], 1);
    assert content[0..1] == [' '];
  }
}
