// tool/shell.go: running a command, storing its output and serving it in pages.
module ShellTool {
  import opened Strings
  import opened Messages
  import opened OutputCache

  datatype ShellInput = ShellInput(command: string, offset: int, limit: int)

  // What running the command gives.
  datatype CommandRun = SandboxError(text: string) | Exited(output: string, error: Option<string>)

  datatype ShellReply = Page(body: string, next: Option<int>) | Failure(error: string, output: string)

  function DefaultLimit(limit: int): int {
    if limit <= 0 then 200 else limit
  }

  // A page, and the offset of the next one if more lines follow.
  function PageAt(lines: seq<string>, offset: int, limit: int): ShellReply {
    Page(Paginate(lines, offset, limit).0, if offset + limit < |lines| then Some(offset + limit) else None)
  }

  function ShellSpec(maxSize: int, c: Cache, in_: ShellInput, run: CommandRun): (Cache, ShellReply) {
    var limit := DefaultLimit(in_.limit);
    if in_.offset > 0 && in_.command in c.entries then (c, PageAt(c.entries[in_.command].lines, in_.offset, limit))
    else if run.SandboxError? then (c, Failure(run.text, ""))
    else
      var result := TrimSpace(run.output);
      if run.error.Some? then (c, Failure(run.error.value, result))
      else (StoreSpec(maxSize, c, in_.command, result), PageAt(Split(result), 0, limit))
  }

  method Shell(buf: OutputBuffer, in_: ShellInput, run: CommandRun) returns (reply: ShellReply)
    modifies buf
    ensures (buf.State(), reply) == ShellSpec(buf.maxSize, old(buf.State()), in_, run)
  {
    var limit := in_.limit;
    if limit <= 0 {
      limit := 200;
    }
    if in_.offset > 0 {
      var (page, total, exists_) := buf.TryGetPage(in_.command, in_.offset, limit);
      if exists_ {
        var hasMore := in_.offset + limit < total;
        if hasMore {
          return Page(page, Some(in_.offset + limit));
        }
        return Page(page, None);
      }
    }
    if run.SandboxError? {
      return Failure(run.text, "");
    }
    var result := TrimSpace(run.output);
    if run.error.Some? {
      return Failure(run.error.value, result);
    }
    buf.Store(in_.command, result);
    var lines := Split(result);
    var total, end := |lines|, limit;
    if end > total {
      end := total;
    }
    var page := Join(lines[0..end], "\n");
    if end < total {
      return Page(page, Some(end));
    }
    return Page(page, None);
  }

  // ---------------------------------------------------------------------------------------------
  // The replies, from the input and what the command gives alone.

  // A positive offset into a cached output is answered without running the command: 200 lines if no limit
  // is given.
  lemma CachedPageIsReturned(maxSize: int, c: Cache, in_: ShellInput, run: CommandRun)
    requires in_.offset > 0 && in_.command in c.entries
    ensures var lines, end := c.entries[in_.command].lines, in_.offset + if in_.limit > 0 then in_.limit else 200;
            ShellSpec(maxSize, c, in_, run)
            == (c, Page(if in_.offset >= |lines| then ""
                        else Join(lines[in_.offset..if end <= |lines| then end else |lines|], "\n"),
                        if end < |lines| then Some(end) else None))
  {
  }

  // Otherwise it is run: an error is reported with the output so far and stores nothing; the trimmed output
  // of a command that succeeds is stored, and its first page returned whatever the offset.
  lemma {:induction false} OutputIsReturned(maxSize: int, c: Cache, in_: ShellInput, run: CommandRun)
    requires in_.offset <= 0 || in_.command !in c.entries
    ensures ShellSpec(maxSize, c, in_, run)
            == match run
               case SandboxError(text) => (c, Failure(text, ""))
               case Exited(output, Some(error)) => (c, Failure(error, TrimSpace(output)))
               case Exited(output, None) =>
                 var lines, end := Split(TrimSpace(output)), if in_.limit > 0 then in_.limit else 200;
                 (StoreSpec(maxSize, c, in_.command, TrimSpace(output)),
                  if end < |lines| then Page(Join(lines[..end], "\n"), Some(end)) else Page(TrimSpace(output), None))
  {
    if run.Exited? {
      var lines := Split(TrimSpace(run.output));
      JoinSplit(TrimSpace(run.output));
      assert lines[0..|lines|] == lines;
    }
  }

  // ---------------------------------------------------------------------------------------------
  // Following the next offsets.

  // The bodies of at most n calls, each with the offset the one before reported.
  function Follow(maxSize: int, c: Cache, in_: ShellInput, run: CommandRun, n: nat): seq<string>
    decreases n
  {
    if n == 0 then []
    else
      var (c', reply) := ShellSpec(maxSize, c, in_, run);
      if reply.Failure? then []
      else if reply.next.None? then [reply.body]
      else [reply.body] + Follow(maxSize, c', in_.(offset := reply.next.value), run, n - 1)
  }

  // total / limit, rounded up.
  function PageCount(total: int, limit: int): nat
    requires limit > 0
    decreases total
  {
    if total <= 0 then 0 else 1 + PageCount(total - limit, limit)
  }

  lemma {:induction false} PageCountIsCeiling(total: int, limit: int)
    requires limit > 0 && total > 0
    ensures (PageCount(total, limit) - 1) * limit < total <= PageCount(total, limit) * limit
    decreases total
  {
    if total > limit {
      PageCountIsCeiling(total - limit, limit);
      assert PageCount(total, limit) * limit == PageCount(total - limit, limit) * limit + limit;
    } else {
      assert PageCount(total - limit, limit) == 0;
    }
  }

  // The pages of a text from an offset on.
  function Pages(lines: seq<string>, offset: nat, limit: int): seq<string>
    requires limit > 0
    decreases |lines| - offset
  {
    if offset + limit < |lines| then [PageAt(lines, offset, limit).body] + Pages(lines, offset + limit, limit)
    else [PageAt(lines, offset, limit).body]
  }

  lemma {:induction false} JoinTwoParts(lines: seq<string>, from: nat, to: nat, pages: seq<string>)
    requires from < to < |lines| && pages != [] && Join(pages, "\n") == Join(lines[to..], "\n")
    ensures Join([Join(lines[from..to], "\n")] + pages, "\n") == Join(lines[from..], "\n")
  {
    JoinAppend([Join(lines[from..to], "\n")], pages);
    JoinAppend(lines[from..to], lines[to..]);
    assert lines[from..] == lines[from..to] + lines[to..];
  }

  lemma {:induction false} PagesJoin(lines: seq<string>, offset: nat, limit: int)
    requires limit > 0 && offset < |lines|
    ensures Pages(lines, offset, limit) != [] && Join(Pages(lines, offset, limit), "\n") == Join(lines[offset..], "\n")
    ensures |Pages(lines, offset, limit)| == PageCount(|lines| - offset, limit)
    decreases |lines| - offset
  {
    if offset + limit < |lines| {
      PagesJoin(lines, offset + limit, limit);
      JoinTwoParts(lines, offset, offset + limit, Pages(lines, offset + limit, limit));
    } else {
      assert lines[offset..|lines|] == lines[offset..];
      assert PageCount(|lines| - offset - limit, limit) == 0;
    }
  }

  // The pages join to the rest of the text, and are the number of its lines over the limit, rounded up.
  lemma {:induction false} PagesTile(lines: seq<string>, offset: nat, limit: int)
    requires limit > 0 && offset < |lines|
    ensures Pages(lines, offset, limit) != [] && Join(Pages(lines, offset, limit), "\n") == Join(lines[offset..], "\n")
    ensures |Pages(lines, offset, limit)| == PageCount(|lines| - offset, limit)
    ensures (|Pages(lines, offset, limit)| - 1) * limit < |lines| - offset <= |Pages(lines, offset, limit)| * limit
  {
    PagesJoin(lines, offset, limit);
    PageCountIsCeiling(|lines| - offset, limit);
  }

  lemma {:induction false} FollowServesPages(maxSize: int, c: Cache, in_: ShellInput, run: CommandRun, n: nat)
    requires in_.offset > 0 && in_.command in c.entries && in_.offset < |c.entries[in_.command].lines|
    requires n >= PageCount(|c.entries[in_.command].lines| - in_.offset, DefaultLimit(in_.limit))
    ensures Follow(maxSize, c, in_, run, n) == Pages(c.entries[in_.command].lines, in_.offset, DefaultLimit(in_.limit))
    decreases n
  {
    var lines, limit := c.entries[in_.command].lines, DefaultLimit(in_.limit);
    assert PageCount(|lines| - in_.offset, limit) == 1 + PageCount(|lines| - in_.offset - limit, limit);
    if in_.offset + limit < |lines| {
      FollowServesPages(maxSize, c, in_.(offset := in_.offset + limit), run, n - 1);
    }
  }

  predicate Fits(maxSize: int, run: CommandRun) {
    run.Exited? && |TrimSpace(run.output)| <= maxSize
  }

  // The call runs the command, whose output takes more than one page.
  predicate RunsLong(c: Cache, in_: ShellInput, run: CommandRun) {
    && (in_.offset <= 0 || in_.command !in c.entries)
    && run.Exited? && run.error.None? && |Split(TrimSpace(run.output))| > DefaultLimit(in_.limit)
  }

  function AllPages(in_: ShellInput, run: CommandRun): seq<string>
    requires run.Exited?
  {
    Pages(Split(TrimSpace(run.output)), 0, DefaultLimit(in_.limit))
  }

  function Afterwards(maxSize: int, c: Cache, in_: ShellInput, run: CommandRun): Cache
    requires run.Exited?
  {
    StoreSpec(maxSize, c, in_.command, TrimSpace(run.output))
  }

  function Again(in_: ShellInput): ShellInput {
    in_.(offset := DefaultLimit(in_.limit))
  }

  // Such a call answers with the first page and points behind it, whatever offset was asked for.
  lemma FirstPage(maxSize: int, c: Cache, in_: ShellInput, run: CommandRun, n: nat)
    requires RunsLong(c, in_, run) && n > 0
    ensures AllPages(in_, run) != []
    ensures Follow(maxSize, c, in_, run, n)
            == [AllPages(in_, run)[0]] + Follow(maxSize, Afterwards(maxSize, c, in_, run), Again(in_), run, n - 1)
  {
  }

  // If the output survives being stored, the calls that follow serve the pages.
  lemma {:induction false} SurvivorIsPaged(maxSize: int, c: Cache, in_: ShellInput, run: CommandRun, n: nat)
    requires Consistent(c) && RunsLong(c, in_, run) && Survives(maxSize, c, in_.command, TrimSpace(run.output))
    requires n >= |AllPages(in_, run)|
    ensures Follow(maxSize, c, in_, run, n) == AllPages(in_, run)
  {
    hide Follow, Pages, Split, Evict;
    var lines, limit := Split(TrimSpace(run.output)), DefaultLimit(in_.limit);
    PagesHead(lines, limit);
    StoredIsCachedIff(maxSize, c, in_.command, TrimSpace(run.output));
    FirstPage(maxSize, c, in_, run, n);
    ServedFromStart(maxSize, Afterwards(maxSize, c, in_, run), in_, run, lines, n - 1);
  }

  lemma {:induction false} PagesHead(lines: seq<string>, limit: int)
    requires 0 < limit < |lines|
    ensures Pages(lines, 0, limit) == [PageAt(lines, 0, limit).body] + Pages(lines, limit, limit)
    ensures |Pages(lines, limit, limit)| == PageCount(|lines| - limit, limit)
  {
    PagesJoin(lines, limit, limit);
  }

  lemma {:induction false} ServedFromStart(maxSize: int, c: Cache, in_: ShellInput, run: CommandRun,
          lines: seq<string>, n: nat)
    requires in_.command in c.entries && c.entries[in_.command].lines == lines && |lines| > DefaultLimit(in_.limit)
    requires n >= PageCount(|lines| - DefaultLimit(in_.limit), DefaultLimit(in_.limit))
    ensures Follow(maxSize, c, Again(in_), run, n) == Pages(lines, DefaultLimit(in_.limit), DefaultLimit(in_.limit))
  {
    FollowServesPages(maxSize, c, Again(in_), run, n);
  }

  // If it does not, the next call runs the command again.
  lemma LostIsRunAgain(maxSize: int, c: Cache, in_: ShellInput, run: CommandRun)
    requires maxSize >= 0 && Consistent(c) && RunsLong(c, in_, run)
             && !Survives(maxSize, c, in_.command, TrimSpace(run.output))
    ensures Consistent(Afterwards(maxSize, c, in_, run)) && RunsLong(Afterwards(maxSize, c, in_, run), Again(in_), run)
    ensures AllPages(Again(in_), run) == AllPages(in_, run)
  {
    StoredIsCachedIff(maxSize, c, in_.command, TrimSpace(run.output));
    PutIsConsistent(c, in_.command, TrimSpace(run.output));
    EvictIsConsistent(maxSize, Put(c, in_.command, TrimSpace(run.output)));
  }

  function Copies(page: string, k: nat): seq<string> {
    if k == 0 then [] else [page] + Copies(page, k - 1)
  }

  // Following the offsets of a command whose output fits the buffer repeats the first page once for every
  // time the output does not survive, but not for ever: each time at least one stale position is used up.
  lemma {:induction false} FirstPageRepeats(maxSize: int, c: Cache, in_: ShellInput, run: CommandRun) returns (k: nat)
    requires maxSize >= 0 && Consistent(c) && RunsLong(c, in_, run) && Fits(maxSize, run)
    ensures AllPages(in_, run) != []
    ensures k == 0 <==> Survives(maxSize, c, in_.command, TrimSpace(run.output))
    ensures k <= Stale(c, in_.command)
    ensures forall n: nat :: n >= k + |AllPages(in_, run)| ==>
              Follow(maxSize, c, in_, run, n) == Copies(AllPages(in_, run)[0], k) + AllPages(in_, run)
    decreases Stale(c, in_.command)
  {
    hide Follow, Pages, Split, Evict;
    var result, pages := TrimSpace(run.output), AllPages(in_, run);
    FirstPage(maxSize, c, in_, run, 1);
    if Survives(maxSize, c, in_.command, result) {
      k := 0;
      forall n: nat | n >= |pages|
        ensures Follow(maxSize, c, in_, run, n) == Copies(pages[0], 0) + pages
      {
        SurvivorIsPaged(maxSize, c, in_, run, n);
        assert [] + pages == pages;
      }
    } else {
      LostIsRunAgain(maxSize, c, in_, run);
      LostUsesStale(maxSize, c, in_.command, result);
      var rest := FirstPageRepeats(maxSize, Afterwards(maxSize, c, in_, run), Again(in_), run);
      k := rest + 1;
      forall n: nat | n >= k + |pages|
        ensures Follow(maxSize, c, in_, run, n) == Copies(pages[0], k) + pages
      {
        FirstPage(maxSize, c, in_, run, n);
        assert [pages[0]] + (Copies(pages[0], rest) + pages) == [pages[0]] + Copies(pages[0], rest) + pages;
      }
    }
  }

  lemma {:induction false} CopiesLengthen(page: string, k: nat, pages: seq<string>)
    requires pages != []
    ensures |Join(Copies(page, k) + pages, "\n")| >= k + |Join(pages, "\n")|
  {
    if k == 0 {
      assert [] + pages == pages;
    } else {
      CopiesLengthen(page, k - 1, pages);
      assert (Copies(page, k) + pages)[1..] == Copies(page, k - 1) + pages;
    }
  }

  // For any cache, a command run before or not, whose output fits the buffer: following the next offsets
  // from 0 rebuilds the output, in ceil(total / limit) calls, exactly if it survives being stored or takes
  // a single page.
  lemma {:induction false} PagesRebuildOutput(maxSize: int, c: Cache, in_: ShellInput, run: CommandRun, n: nat)
    requires maxSize >= 0 && Consistent(c) && (in_.offset <= 0 || in_.command !in c.entries)
    requires Fits(maxSize, run) && run.error.None?
    requires n >= Stale(c, in_.command) + PageCount(|Split(TrimSpace(run.output))|, DefaultLimit(in_.limit))
    ensures var long := |Split(TrimSpace(run.output))| > DefaultLimit(in_.limit);
            && (Join(Follow(maxSize, c, in_, run, n), "\n") == TrimSpace(run.output)
                <==> !long || Survives(maxSize, c, in_.command, TrimSpace(run.output)))
            && (|Follow(maxSize, c, in_, run, n)| == PageCount(|Split(TrimSpace(run.output))|, DefaultLimit(in_.limit))
                <==> !long || Survives(maxSize, c, in_.command, TrimSpace(run.output)))
  {
    var lines, pages := Split(TrimSpace(run.output)), AllPages(in_, run);
    JoinSplit(TrimSpace(run.output));
    PagesJoin(lines, 0, DefaultLimit(in_.limit));
    assert lines[0..] == lines;
    hide Follow, Split, Join, TrimSpace, Survives, Stale, Pages;
    if RunsLong(c, in_, run) {
      var k := FirstPageRepeats(maxSize, c, in_, run);
      CopiesLengthen(pages[0], k, pages);
      CopiesCount(pages[0], k);
      assert k == 0 ==> Copies(pages[0], k) + pages == pages;
    } else {
      SinglePage(maxSize, c, in_, run, n);
    }
  }

  lemma {:induction false} SinglePage(maxSize: int, c: Cache, in_: ShellInput, run: CommandRun, n: nat)
    requires in_.offset <= 0 || in_.command !in c.entries
    requires run.Exited? && run.error.None? && |Split(TrimSpace(run.output))| <= DefaultLimit(in_.limit) && n > 0
    ensures Follow(maxSize, c, in_, run, n) == AllPages(in_, run)
  {
  }

  lemma {:induction false} CopiesCount(page: string, k: nat)
    ensures |Copies(page, k)| == k
  {
    if k > 0 {
      CopiesCount(page, k - 1);
    }
  }

  // For a command without a position in the buffer, fitting is enough.
  lemma FirstRunSurvives(maxSize: int, c: Cache, in_: ShellInput, run: CommandRun)
    requires maxSize >= 0 && Consistent(c) && in_.command !in c.order && run.Exited?
    ensures Survives(maxSize, c, in_.command, TrimSpace(run.output)) <==> Fits(maxSize, run)
  {
    CachedIffFits(maxSize, c, in_.command, TrimSpace(run.output));
    StoredIsCachedIff(maxSize, c, in_.command, TrimSpace(run.output));
  }

  // An output too large for the buffer is never cached: every later call runs the command again and
  // answers with its first page, whatever the offset.
  lemma {:induction false} OversizedNeverEnds(maxSize: int, c: Cache, in_: ShellInput, run: CommandRun, n: nat)
    requires maxSize >= 0 && Consistent(c) && RunsLong(c, in_, run) && !Fits(maxSize, run)
    ensures |Follow(maxSize, c, in_, run, n)| == n
    ensures forall i :: 0 <= i < n ==>
              Follow(maxSize, c, in_, run, n)[i] ==
              PageAt(Split(TrimSpace(run.output)), 0, DefaultLimit(in_.limit)).body
    decreases n
  {
    if n > 0 {
      SurvivorFits(c, in_.command, TrimSpace(run.output));
      LostIsRunAgain(maxSize, c, in_, run);
      FirstPage(maxSize, c, in_, run, n);
      OversizedNeverEnds(maxSize, Afterwards(maxSize, c, in_, run), Again(in_), run, n - 1);
    }
  }

  // So following the offsets from 0 ends, for any cache, exactly when the output fits the buffer or a
  // single page.
  lemma {:induction false} PagingEndsIff(maxSize: int, c: Cache, in_: ShellInput, run: CommandRun)
    requires maxSize >= 0 && Consistent(c) && in_.offset <= 0
    requires run.Exited? && run.error.None?
    ensures (exists n: nat :: |Follow(maxSize, c, in_, run, n)| < n)
            <==> Fits(maxSize, run) || |Split(TrimSpace(run.output))| <= DefaultLimit(in_.limit)
  {
    if |Split(TrimSpace(run.output))| <= DefaultLimit(in_.limit) {
      assert |Follow(maxSize, c, in_, run, 2)| < 2;
    } else if Fits(maxSize, run) {
      var k := FirstPageRepeats(maxSize, c, in_, run);
      var n := k + |AllPages(in_, run)| + 1;
      CopiesCount(AllPages(in_, run)[0], k);
      assert |Follow(maxSize, c, in_, run, n)| < n;
    } else {
      forall n: nat
        ensures |Follow(maxSize, c, in_, run, n)| == n
      {
        OversizedNeverEnds(maxSize, c, in_, run, n);
      }
    }
  }
}
