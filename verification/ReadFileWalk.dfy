// tool/read_file.go: reading a file by following the next offsets its pages report, which are served from
// the file or from the output buffer, whichever has the text at the time.
module ReadFileWalk {
  import opened Strings
  import opened Messages
  import opened OutputCache
  import opened ReadTracking
  import opened ReadFileTool
  import ShellTool

  // The bodies of at most n calls, each with the offset the one before reported.
  function Follow(maxSize: int, c: Cache, args: RangeArgs, file: Option<string>, n: nat): seq<string>
    decreases n
  {
    if n == 0 then []
    else
      var (c', reply) := ReadSpec(maxSize, c, args, file);
      if reply.Range? then [reply.body]
      else if !reply.Served? && !reply.FilePage? then []
      else if reply.next.None? then [reply.body]
      else [reply.body] + Follow(maxSize, c', args.(offset := reply.next.value), file, n - 1)
  }

  // A call for pages: it names a file and no range.
  predicate AsksForPages(args: RangeArgs) {
    args.path != "" && args.startLine <= 0 && args.endLine <= 0
  }

  function From(args: RangeArgs): nat {
    if args.offset < 0 then 0 else args.offset
  }

  predicate AnsweredByBuffer(c: Cache, args: RangeArgs) {
    args.offset > 0 && args.path in c.entries
  }

  // The call reads the file, or the buffer caches what the file contains.
  predicate Current(c: Cache, args: RangeArgs, content: string) {
    AnsweredByBuffer(c, args) ==> c.entries[args.path] == EntryOf(content)
  }

  lemma StoredIsCurrent(maxSize: int, c: Cache, args: RangeArgs, content: string)
    ensures Current(StoreSpec(maxSize, c, args.path, content), args, content)
  {
    EvictOnlyRemoves(maxSize, Put(c, args.path, content), args.path);
  }

  // ---------------------------------------------------------------------------------------------
  // One call.

  function PageText(lines: seq<string>, from: nat, size: int): string
    requires from < |lines| && size > 0
  {
    Join(lines[from..if from + size > |lines| then |lines| else from + size], "\n")
  }

  // The lines from one page to the next; those of a page are fewer when the buffer answers without a limit.
  function Stride(limit: int): int {
    if limit <= 0 then 500 else limit
  }

  function Size(buffered: bool, limit: int): int {
    if buffered then DefaultPage(limit) else Stride(limit)
  }

  lemma {:induction false} PagedStep(maxSize: int, c: Cache, args: RangeArgs, content: string, lines: seq<string>)
    requires AsksForPages(args) && Current(c, args, content) && lines == Split(content) && From(args) < |lines|
    ensures var reply, next := ReadSpec(maxSize, c, args, Some(content)).1, From(args) + Stride(args.limit);
            && (reply.Served? || reply.FilePage?)
            && reply.body == PageText(lines, From(args), Size(AnsweredByBuffer(c, args), args.limit))
            && reply.next == if next < |lines| then Some(next) else None
  {
    hide Split, Evict;
    assert AnsweredByBuffer(c, args) ==> c.entries[args.path].lines == lines;
  }

  // The cache after a call for a page.
  function Reread(maxSize: int, c: Cache, args: RangeArgs, content: string): Cache {
    if AnsweredByBuffer(c, args) then c else StoreSpec(maxSize, c, args.path, content)
  }

  lemma {:induction false} FollowFirst(maxSize: int, c: Cache, args: RangeArgs, content: string, lines: seq<string>,
          size: int, n: nat)
    returns (c': Cache)
    requires AsksForPages(args) && Current(c, args, content) && lines == Split(content) && From(args) < |lines|
    requires size == Size(AnsweredByBuffer(c, args), args.limit) && n > 0
    ensures var next, pages := From(args) + Stride(args.limit), Follow(maxSize, c, args, Some(content), n);
            && (next >= |lines| ==> pages == [PageText(lines, From(args), size)])
            && (next < |lines| ==>
                  pages == [PageText(lines, From(args), size)]
                    + Follow(maxSize, c', args.(offset := next), Some(content), n - 1))
            && Current(c', args.(offset := next), content)
    ensures c' == Reread(maxSize, c, args, content)
  {
    hide Split, PageText, Evict;
    c' := ReadSpec(maxSize, c, args, Some(content)).0;
    PagedStep(maxSize, c, args, content, lines);
    StoredIsCurrent(maxSize, c, args.(offset := From(args) + Stride(args.limit)), content);
  }

  // ---------------------------------------------------------------------------------------------
  // The walk.

  // The offset of the first page that the buffer answers, if the walk gets to one: every page read from the
  // file stores it again.
  function FirstServed(maxSize: int, c: Cache, path: string, content: string, from: nat, stride: int,
          total: nat): (served: Option<nat>)
    requires stride > 0
    ensures served.Some? ==> from < served.value
    decreases total - from
  {
    var stored := StoreSpec(maxSize, c, path, content);
    if from + stride >= total then None
    else if path in stored.entries then Some(from + stride)
    else FirstServed(maxSize, stored, path, content, from + stride, stride, total)
  }

  // The pages from an offset on, when the buffer answers from another one on.
  function WalkPages(lines: seq<string>, from: nat, limit: int, served: Option<nat>): (pages: seq<string>)
    requires from < |lines|
    ensures pages != []
    decreases |lines| - from
  {
    var page, next := PageText(lines, from, SizeAt(from, limit, served)), from + Stride(limit);
    if next < |lines| then [page] + WalkPages(lines, next, limit, served) else [page]
  }

  function SizeAt(from: nat, limit: int, served: Option<nat>): int {
    Size(served.Some? && served.value <= from, limit)
  }

  // What the buffer has it keeps answering.
  lemma {:induction false} ServedWalk(maxSize: int, c: Cache, args: RangeArgs, content: string, lines: seq<string>,
          served: Option<nat>, n: nat)
    requires AsksForPages(args) && Current(c, args, content) && AnsweredByBuffer(c, args) && lines == Split(content)
    requires args.offset < |lines| && served.Some? && served.value <= args.offset
    requires n >= |WalkPages(lines, args.offset, args.limit, served)|
    ensures Follow(maxSize, c, args, Some(content), n) == WalkPages(lines, args.offset, args.limit, served)
    decreases n
  {
    hide Follow, Split, PageText, Evict;
    var c' := FollowFirst(maxSize, c, args, content, lines, SizeAt(args.offset, args.limit, served), n);
    if args.offset + Stride(args.limit) < |lines| {
      ServedWalk(maxSize, c, args.(offset := args.offset + Stride(args.limit)), content, lines, served, n - 1);
    }
  }

  lemma {:induction false} FileWalk(maxSize: int, c: Cache, args: RangeArgs, content: string, lines: seq<string>,
          served: Option<nat>, n: nat)
    requires AsksForPages(args) && !AnsweredByBuffer(c, args) && lines == Split(content) && From(args) < |lines|
    requires served == FirstServed(maxSize, c, args.path, content, From(args), Stride(args.limit), |lines|)
    requires n >= |WalkPages(lines, From(args), args.limit, served)|
    ensures Follow(maxSize, c, args, Some(content), n) == WalkPages(lines, From(args), args.limit, served)
    decreases n
  {
    hide Follow, Split, PageText, Evict;
    var next := From(args) + Stride(args.limit);
    var c' := FollowFirst(maxSize, c, args, content, lines, SizeAt(From(args), args.limit, served), n);
    if next < |lines| {
      if args.path in c'.entries {
        ServedWalk(maxSize, c', args.(offset := next), content, lines, served, n - 1);
      } else {
        FileWalk(maxSize, c', args.(offset := next), content, lines, served, n - 1);
      }
    }
  }

  // ---------------------------------------------------------------------------------------------
  // Which walks rebuild the text.

  // Of two parts of a text each is shorter than both together.
  lemma PartsAreShorter(lines: seq<string>, from: nat, to: nat)
    requires from < to < |lines|
    ensures Join(lines[from..], "\n") == Join(lines[from..to], "\n") + "\n" + Join(lines[to..], "\n")
    ensures |Join(lines[from..to], "\n")| < |Join(lines[from..], "\n")|
    ensures |Join(lines[to..], "\n")| < |Join(lines[from..], "\n")|
  {
    assert lines[from..] == lines[from..to] + lines[to..];
    JoinAppend(lines[from..to], lines[to..]);
  }

  // Pages that are the rest of a text, or fall short of it.
  ghost predicate Whole(pages: seq<string>, lines: seq<string>, offset: nat)
    requires offset < |lines|
  {
    Join(pages, "\n") == Join(lines[offset..], "\n")
  }

  ghost predicate Short(pages: seq<string>, lines: seq<string>, offset: nat)
    requires offset < |lines|
  {
    |Join(pages, "\n")| < |Join(lines[offset..], "\n")|
  }

  lemma LastPage(lines: seq<string>, offset: nat, size: int)
    requires offset < |lines| && size > 0
    ensures |lines| - offset <= size ==> Whole([PageText(lines, offset, size)], lines, offset)
    ensures |lines| - offset > size ==> Short([PageText(lines, offset, size)], lines, offset)
  {
    if offset + size < |lines| {
      PartsAreShorter(lines, offset, offset + size);
    } else {
      assert lines[offset..|lines|] == lines[offset..];
    }
  }

  // A page in front that leaves no gap, and one that does.
  lemma {:induction false} PageInFront(lines: seq<string>, from: nat, size: int, pages: seq<string>)
    requires size > 0 && from + size < |lines| && pages != []
    ensures Whole([PageText(lines, from, size)] + pages, lines, from) <==> Whole(pages, lines, from + size)
    ensures Short([PageText(lines, from, size)] + pages, lines, from) <==> Short(pages, lines, from + size)
  {
    var page := PageText(lines, from, size);
    JoinAppend([page], pages);
    PartsAreShorter(lines, from, from + size);
    SameAfter(page, Join(pages, "\n"), Join(lines[from + size..], "\n"));
  }

  lemma SameAfter(head: string, a: string, b: string)
    ensures head + "\n" + a == head + "\n" + b <==> a == b
  {
    if head + "\n" + a == head + "\n" + b {
      assert (head + "\n" + a)[|head| + 1..] == a && (head + "\n" + b)[|head| + 1..] == b;
    }
  }

  lemma {:induction false} GapIsShort(lines: seq<string>, from: nat, size: int, to: nat, pages: seq<string>)
    requires 0 < size && from + size < to < |lines| && pages != []
    requires Whole(pages, lines, to) || Short(pages, lines, to)
    ensures Short([PageText(lines, from, size)] + pages, lines, from)
  {
    PartsAreShorter(lines, from + size, to);
    PageInFront(lines, from, size, pages);
  }

  // From the first page on that the buffer answers without a limit, all pages are short unless it is the last.
  lemma {:induction false} ServedIsWholeIff(lines: seq<string>, from: nat, limit: int, served: Option<nat>)
    requires from < |lines| && limit <= 0 && served.Some? && served.value <= from
    ensures |lines| - from <= 200 ==> Whole(WalkPages(lines, from, limit, served), lines, from)
    ensures |lines| - from > 200 ==> Short(WalkPages(lines, from, limit, served), lines, from)
    decreases |lines| - from
  {
    if from + 500 < |lines| {
      ServedIsWholeIff(lines, from + 500, limit, served);
      GapIsShort(lines, from, 200, from + 500, WalkPages(lines, from + 500, limit, served));
    } else {
      LastPage(lines, from, 200);
    }
  }

  // With a limit the pages are the rest of the text.
  lemma {:induction false} LimitedIsWhole(lines: seq<string>, from: nat, limit: int, served: Option<nat>)
    requires from < |lines| && limit > 0
    ensures Whole(WalkPages(lines, from, limit, served), lines, from)
    decreases |lines| - from
  {
    if from + limit < |lines| {
      LimitedIsWhole(lines, from + limit, limit, served);
      PageInFront(lines, from, limit, WalkPages(lines, from + limit, limit, served));
    } else {
      LastPage(lines, from, limit);
    }
  }

  // The walk comes to the offset.
  predicate Meets(from: nat, served: nat) {
    from <= served && (served - from) % 500 == 0
  }

  lemma {:induction false} UnlimitedIsWholeIff(lines: seq<string>, from: nat, limit: int, served: Option<nat>)
    requires from < |lines| && limit <= 0
    requires served.Some? ==> Meets(from, served.value) && served.value < |lines|
    ensures Whole(WalkPages(lines, from, limit, served), lines, from) <==> served.None? || |lines| - served.value <= 200
    decreases |lines| - from
  {
    if served == Some(from) {
      ServedIsWholeIff(lines, from, limit, served);
    } else if from + 500 < |lines| {
      UnlimitedIsWholeIff(lines, from + 500, limit, served);
      PageInFront(lines, from, 500, WalkPages(lines, from + 500, limit, served));
    } else {
      LastPage(lines, from, 500);
    }
  }

  lemma {:induction false} FirstServedIsMet(maxSize: int, c: Cache, path: string, content: string, from: nat,
          total: nat)
    ensures var served := FirstServed(maxSize, c, path, content, from, 500, total);
            served.Some? ==> Meets(from, served.value) && served.value < total
    decreases total - from
  {
    if from + 500 < total {
      FirstServedIsMet(maxSize, StoreSpec(maxSize, c, path, content), path, content, from + 500, total);
    }
  }

  lemma {:induction false} PagesAreCounted(lines: seq<string>, from: nat, limit: int, served: Option<nat>)
    requires from < |lines|
    ensures |WalkPages(lines, from, limit, served)| == ShellTool.PageCount(|lines| - from, Stride(limit))
    decreases |lines| - from
  {
    if from + Stride(limit) < |lines| {
      PagesAreCounted(lines, from + Stride(limit), limit, served);
    } else {
      assert ShellTool.PageCount(|lines| - from - Stride(limit), Stride(limit)) == 0;
    }
  }

  // The first offset at or behind the one asked for that the buffer answers.
  function ServedFrom(maxSize: int, c: Cache, args: RangeArgs, content: string): Option<nat> {
    if AnsweredByBuffer(c, args) then Some(args.offset)
    else FirstServed(maxSize, c, args.path, content, From(args), Stride(args.limit), |Split(content)|)
  }

  // Following the offsets to the end takes one call for each stride, and the pages join to the rest of the
  // text, whichever of them the buffer answers, exactly if a limit is given, or the buffer answers none,
  // or the first one that it answers shows all that is left.
  lemma {:induction false} WalkRebuildsIff(maxSize: int, c: Cache, args: RangeArgs, content: string, n: nat)
    requires AsksForPages(args) && Current(c, args, content) && From(args) < |Split(content)|
    requires n >= ShellTool.PageCount(|Split(content)| - From(args), Stride(args.limit))
    ensures var pages, served := Follow(maxSize, c, args, Some(content), n), ServedFrom(maxSize, c, args, content);
            && |pages| == ShellTool.PageCount(|Split(content)| - From(args), Stride(args.limit))
            && (Join(pages, "\n") == Join(Split(content)[From(args)..], "\n")
                <==> args.limit > 0 || served.None? || |Split(content)| - served.value <= 200)
  {
    hide Follow, Split, PageText, Evict;
    var lines, served := Split(content), ServedFrom(maxSize, c, args, content);
    PagesAreCounted(lines, From(args), args.limit, served);
    if AnsweredByBuffer(c, args) {
      ServedWalk(maxSize, c, args, content, lines, served, n);
    } else {
      FileWalk(maxSize, c, args, content, lines, served, n);
    }
    if args.limit > 0 {
      LimitedIsWhole(lines, From(args), args.limit, served);
    } else {
      FirstServedIsMet(maxSize, c, args.path, content, From(args), |lines|);
      UnlimitedIsWholeIff(lines, From(args), args.limit, served);
    }
  }

  lemma {:induction false} WholeText(content: string)
    ensures Join(Split(content)[0..], "\n") == content
  {
    JoinSplit(content);
    assert Split(content)[0..] == Split(content);
  }

  lemma {:induction false} OversizedIsNeverServed(maxSize: int, c: Cache, path: string, content: string, from: nat,
          total: nat)
    requires maxSize >= 0 && Consistent(c) && |content| > maxSize
    ensures FirstServed(maxSize, c, path, content, from, 500, total).None?
    decreases total - from
  {
    if from + 500 < total {
      SurvivorFits(c, path, content);
      StoredIsCachedIff(maxSize, c, path, content);
      PutIsConsistent(c, path, content);
      EvictIsConsistent(maxSize, Put(c, path, content));
      OversizedIsNeverServed(maxSize, StoreSpec(maxSize, c, path, content), path, content, from + 500, total);
    }
  }

  // Reading a file from its start. With a limit it always comes back whole. Without one, a text that stays
  // cached does exactly when it has at most 700 lines, and a text too large for the buffer always; for a
  // file without a position in the buffer these are all the cases.
  lemma {:induction false} ReadIsWholeIff(maxSize: int, c: Cache, args: RangeArgs, content: string, n: nat)
    requires maxSize >= 0 && Consistent(c) && AsksForPages(args) && args.offset <= 0
    requires n >= ShellTool.PageCount(|Split(content)|, Stride(args.limit))
    ensures var whole := Join(Follow(maxSize, c, args, Some(content), n), "\n") == content;
            && (args.limit > 0 ==> whole)
            && (args.limit <= 0 && Survives(maxSize, c, args.path, content) ==> (whole <==> |Split(content)| <= 700))
            && (args.limit <= 0 && |content| > maxSize ==> whole)
            && (args.limit <= 0 && args.path !in c.order ==>
                  (whole <==> |content| > maxSize || |Split(content)| <= 700))
  {
    WalkRebuildsIff(maxSize, c, args, content, n);
    WholeText(content);
    StoredIsCachedIff(maxSize, c, args.path, content);
    if args.limit <= 0 {
      if |content| > maxSize {
        OversizedIsNeverServed(maxSize, c, args.path, content, 0, |Split(content)|);
        SurvivorFits(c, args.path, content);
      } else if args.path !in c.order {
        CachedIffFits(maxSize, c, args.path, content);
      }
    }
  }
}
