// tool/read_file.go: which lines of a file a call returns, and what it says about the next page.
module ReadFileTool {
  import opened Strings
  import opened Messages
  import opened OutputCache
  import opened ReadTracking

  datatype ReadReply =
    | Served(body: string, next: Option<int>)
    | Range(first: int, last: int, total: int, body: string)
    | FilePage(first: int, last: int, total: int, body: string, next: Option<int>)
    | PathRequired
    | Unreadable
    | PastEnd(asked: int, total: int)

  function ReadSpec(maxSize: int, c: Cache, args: RangeArgs, file: Option<string>): (Cache, ReadReply) {
    if args.path == "" then (c, PathRequired)
    else if args.offset > 0 && args.path in c.entries then
      (c, ServedReply(c.entries[args.path].lines, args.offset, args.limit))
    else if file.None? then (c, Unreadable)
    else if args.startLine > 0 || args.endLine > 0 then (c, RangeReply(Split(file.value), args.startLine, args.endLine))
    else (StoreSpec(maxSize, c, args.path, file.value), PageReply(Split(file.value), args.offset, args.limit))
  }

  // The page is cut with the buffer's default of 200 lines, the next offset with this tool's default of 500.
  function ServedReply(lines: seq<string>, offset: int, limit: int): ReadReply {
    var step := if limit <= 0 then 500 else limit;
    Served(Paginate(lines, offset, limit).0, if offset + step < |lines| then Some(offset + step) else None)
  }

  function RangeReply(lines: seq<string>, startLine: int, endLine: int): ReadReply {
    var first := if startLine < 1 then 1 else startLine;
    var end := if endLine < first then first + 50 else endLine;
    if first > |lines| then PastEnd(first, |lines|)
    else
      var last := if end > |lines| then |lines| else end;
      Range(first, last, |lines|, Join(lines[first - 1..last], "\n"))
  }

  function PageReply(lines: seq<string>, offset: int, limit: int): ReadReply {
    var limit := if limit <= 0 then 500 else limit;
    var offset := if offset < 0 then 0 else offset;
    if offset >= |lines| then PastEnd(offset, |lines|)
    else
      var end := if offset + limit > |lines| then |lines| else offset + limit;
      FilePage(offset + 1, end, |lines|, Join(lines[offset..end], "\n"), if end < |lines| then Some(end) else None)
  }

  method ReadFile(buf: OutputBuffer, args: RangeArgs, file: Option<string>) returns (reply: ReadReply)
    modifies buf
    ensures (buf.State(), reply) == ReadSpec(buf.maxSize, old(buf.State()), args, file)
  {
    var RangeArgs(path, startLine, endLine, offset, limit) := args;
    if path == "" {
      return PathRequired;
    }
    if offset > 0 {
      var (page, total, cached) := buf.TryGetPage(path, offset, limit);
      if cached {
        if limit <= 0 {
          limit := 500;
        }
        var hasMore := offset + limit < total;
        return Served(page, if hasMore then Some(offset + limit) else None);
      }
    }
    if file.None? {
      return Unreadable;
    }
    var content := file.value;
    var lines := Split(content);
    if startLine > 0 || endLine > 0 {
      reply := ReadRange(lines, startLine, endLine);
      return;
    }
    buf.Store(path, content);
    reply := ReadPage(lines, offset, limit);
  }

  // The lines of a range, which takes precedence over an offset.
  method ReadRange(lines: seq<string>, first: int, last: int) returns (reply: ReadReply)
    ensures reply == RangeReply(lines, first, last)
  {
    var startLine, endLine := first, last;
    if startLine < 1 {
      startLine := 1;
    }
    if endLine < startLine {
      endLine := startLine + 50;
    }
    if startLine > |lines| {
      return PastEnd(startLine, |lines|);
    }
    if endLine > |lines| {
      endLine := |lines|;
    }
    return Range(startLine, endLine, |lines|, Join(lines[startLine - 1..endLine], "\n"));
  }

  method ReadPage(lines: seq<string>, from: int, atMost: int) returns (reply: ReadReply)
    ensures reply == PageReply(lines, from, atMost)
  {
    var offset, limit := from, atMost;
    if limit <= 0 {
      limit := 500;
    }
    if offset < 0 {
      offset := 0;
    }
    var total := |lines|;
    if offset >= total {
      return PastEnd(offset, total);
    }
    var end := offset + limit;
    if end > total {
      end := total;
    }
    var page := Join(lines[offset..end], "\n");
    return FilePage(offset + 1, end, total, page, if end < total then Some(end) else None);
  }

  // ---------------------------------------------------------------------------------------------
  // The replies, from the arguments and the lines of the text alone.

  // A range that the buffer does not answer: the named lines, as far as the file has them; a range that ends
  // before it starts, or has no end, is read as 51 lines.
  lemma {:induction false} NamedRangeIsReturned(maxSize: int, c: Cache, args: RangeArgs, content: string)
    requires args.path != "" && (args.startLine > 0 || args.endLine > 0)
             && (args.offset <= 0 || args.path !in c.entries)
    ensures var lines, first := Split(content), if args.startLine > 0 then args.startLine else 1;
            var end := if args.endLine >= first then args.endLine else first + 50;
            var last := if end <= |lines| then end else |lines|;
            ReadSpec(maxSize, c, args, Some(content))
            == (c, if first > |lines| then PastEnd(first, |lines|)
                   else Range(first, last, |lines|, Join(lines[first - 1..last], "\n")))
  {
  }

  // In particular every named line that the file has is one of the lines returned.
  lemma {:induction false} EveryNamedLineIsReturned(maxSize: int, c: Cache, args: RangeArgs, content: string, line: int)
    requires args.path != "" && 0 < args.startLine <= line <= args.endLine && line <= |Split(content)|
    requires args.offset <= 0 || args.path !in c.entries
    ensures var reply := ReadSpec(maxSize, c, args, Some(content)).1;
            && reply.Range? && reply.first == args.startLine && reply.first <= line <= reply.last <= |Split(content)|
            && reply.body == Join(Split(content)[reply.first - 1..reply.last], "\n")
  {
    NamedRangeIsReturned(maxSize, c, args, content);
  }

  // The page at an offset: 500 lines if no limit is given.
  lemma PageOf(lines: seq<string>, offset: int, limit: int)
    ensures var from := if offset > 0 then offset else 0;
            var next := from + if limit > 0 then limit else 500;
            PageReply(lines, offset, limit)
            == if from >= |lines| then PastEnd(from, |lines|)
               else if next < |lines| then FilePage(from + 1, next, |lines|, Join(lines[from..next], "\n"), Some(next))
               else FilePage(from + 1, |lines|, |lines|, Join(lines[from..], "\n"), None)
  {
    var from := if offset > 0 then offset else 0;
    if from < |lines| {
      assert lines[from..|lines|] == lines[from..];
    }
  }

  // A call without a range that the buffer does not answer gets a page of the file, which is then stored.
  lemma {:induction false} PageIsReturned(maxSize: int, c: Cache, args: RangeArgs, content: string)
    requires args.path != "" && args.startLine <= 0 && args.endLine <= 0
             && (args.offset <= 0 || args.path !in c.entries)
    ensures var lines, from := Split(content), if args.offset > 0 then args.offset else 0;
            var next := from + if args.limit > 0 then args.limit else 500;
            ReadSpec(maxSize, c, args, Some(content))
            == (StoreSpec(maxSize, c, args.path, content),
                if from >= |lines| then PastEnd(from, |lines|)
                else if next < |lines| then FilePage(from + 1, next, |lines|, Join(lines[from..next], "\n"), Some(next))
                else FilePage(from + 1, |lines|, |lines|, Join(lines[from..], "\n"), None))
  {
    hide Split, Evict, Join, PageReply;
    PageOf(Split(content), args.offset, args.limit);
  }

  // A positive offset into a cached text: 200 lines if no limit is given, without looking at the file.
  lemma CachedPageIsReturned(maxSize: int, c: Cache, args: RangeArgs, file: Option<string>)
    requires args.path != "" && args.offset > 0 && args.path in c.entries
    ensures var lines := c.entries[args.path].lines;
            var end := args.offset + if args.limit > 0 then args.limit else 200;
            var next := args.offset + if args.limit > 0 then args.limit else 500;
            ReadSpec(maxSize, c, args, file)
            == (c, Served(if args.offset >= |lines| then ""
                          else Join(lines[args.offset..if end <= |lines| then end else |lines|], "\n"),
                          if next < |lines| then Some(next) else None))
  {
  }

  // Without a path, or without a file to read, nothing happens.
  lemma NothingIsReturned(maxSize: int, c: Cache, args: RangeArgs, file: Option<string>)
    ensures args.path == "" ==> ReadSpec(maxSize, c, args, file) == (c, PathRequired)
    ensures args.path != "" && (args.offset <= 0 || args.path !in c.entries) && file.None? ==>
              ReadSpec(maxSize, c, args, file) == (c, Unreadable)
  {
  }

  // ---------------------------------------------------------------------------------------------
  // The lines a reply shows.

  // One-based, inclusive; None when no line is returned.
  datatype Shown = Shown(first: int, last: int, lines: seq<string>)

  function ShownBy(c: Cache, args: RangeArgs, file: Option<string>): Option<Shown> {
    if args.path == "" then None
    else if args.offset > 0 && args.path in c.entries then
      var lines, step := c.entries[args.path].lines, if args.limit <= 0 then 200 else args.limit;
      if args.offset >= |lines| then None
      else Some(Shown(args.offset + 1, if args.offset + step > |lines| then |lines| else args.offset + step, lines))
    else if file.None? then None
    else
      var lines := Split(file.value);
      var reply := if args.startLine > 0 || args.endLine > 0 then RangeReply(lines, args.startLine, args.endLine)
                   else PageReply(lines, args.offset, args.limit);
      match reply
      case Range(first, last, _, _) => Some(Shown(first, last, lines))
      case FilePage(first, last, _, _, _) => Some(Shown(first, last, lines))
      case _ => None
  }

  lemma RangeIsInText(lines: seq<string>, startLine: int, endLine: int)
    requires RangeReply(lines, startLine, endLine).Range?
    ensures var r := RangeReply(lines, startLine, endLine);
            1 <= r.first <= r.last <= |lines| && r.body == Join(lines[r.first - 1..r.last], "\n")
  {
  }

  lemma PageIsInText(lines: seq<string>, offset: int, limit: int)
    requires PageReply(lines, offset, limit).FilePage?
    ensures var r := PageReply(lines, offset, limit);
            1 <= r.first <= r.last <= |lines| && r.body == Join(lines[r.first - 1..r.last], "\n")
  {
  }

  // The body of the reply is exactly those lines, and they are lines of the text.
  ghost predicate Shows(reply: ReadReply, shown: Shown) {
    && 1 <= shown.first <= shown.last <= |shown.lines|
    && (reply.Served? || reply.Range? || reply.FilePage?)
    && reply.body == Join(shown.lines[shown.first - 1..shown.last], "\n")
  }

  lemma ServedIsShown(lines: seq<string>, offset: int, limit: int)
    requires 0 < offset < |lines|
    ensures var step := DefaultPage(limit);
            Shows(ServedReply(lines, offset, limit),
              Shown(offset + 1, if offset + step > |lines| then |lines| else offset + step, lines))
  {
  }

  lemma FileIsShown(maxSize: int, c: Cache, args: RangeArgs, file: Option<string>)
    requires ShownBy(c, args, file).Some? && !(args.offset > 0 && args.path in c.entries)
    ensures Shows(ReadSpec(maxSize, c, args, file).1, ShownBy(c, args, file).value)
  {
    if args.startLine > 0 || args.endLine > 0 {
      RangeIsInText(Split(file.value), args.startLine, args.endLine);
    } else {
      PageIsInText(Split(file.value), args.offset, args.limit);
    }
  }

  lemma BodyIsShown(maxSize: int, c: Cache, args: RangeArgs, file: Option<string>)
    requires ShownBy(c, args, file).Some?
    ensures Shows(ReadSpec(maxSize, c, args, file).1, ShownBy(c, args, file).value)
  {
    if args.offset > 0 && args.path in c.entries {
      ServedIsShown(c.entries[args.path].lines, args.offset, args.limit);
    } else {
      FileIsShown(maxSize, c, args, file);
    }
  }

  // A cached page and the next offset it reports leave no gap and no overlap exactly when a limit is
  // given, or when the rest of the file fits the buffer's default page.
  lemma ServedPageTilesIff(lines: seq<string>, offset: int, limit: int)
    requires 0 < offset < |lines|
    ensures var shownLines := if offset + DefaultPage(limit) > |lines| then |lines| - offset else DefaultPage(limit);
            var next := ServedReply(lines, offset, limit).next;
            (if next.Some? then next.value == offset + shownLines else offset + shownLines == |lines|)
            <==> limit > 0 || |lines| - offset <= 200
  {
  }

  function DefaultPage(limit: int): int {
    if limit <= 0 then 200 else limit
  }

  // ---------------------------------------------------------------------------------------------
  // What the read tracker charges for the call.

  function CallInput(args: RangeArgs): ToolInput {
    ToolInput(0, Some(args), None, Target("", 0, 0))
  }

  function Charges(args: RangeArgs): seq<Key> {
    ChargedKeys(ReadTarget(CallInput(args)))
  }

  ghost predicate EveryLineCharged(args: RangeArgs, shown: Shown) {
    forall line :: shown.first <= line <= shown.last ==> LineKey(args.path, line) in Charges(args)
  }

  // The lines a call names, with the tracker's defaults.
  function FirstNamed(t: Target): int {
    if t.startLine <= 0 then 1 else t.startLine
  }

  function LastNamed(t: Target): int {
    if t.endLine <= 0 then FirstNamed(t) + REGION_SIZE else t.endLine
  }

  function RegionOf(line: int): int {
    (line - 1) / REGION_SIZE
  }

  lemma RegionsAreMonotone(a: int, b: int)
    requires a <= b
    ensures RegionOf(a) <= RegionOf(b)
  {
  }

  lemma ChargedBetween(args: RangeArgs, k: Key)
    ensures var t := ReadTarget(CallInput(args));
            k in Charges(args) <==>
              if t.startLine <= 0 && t.endLine <= 0 then k == Key(args.path, Whole)
              else
                && k.path == args.path && k.region.Bucket?
                && RegionOf(FirstNamed(t)) <= k.region.index <= RegionOf(LastNamed(t))
  {
    var t := ReadTarget(CallInput(args));
    BucketKeys(args.path, RegionOf(FirstNamed(t)), RegionOf(LastNamed(t)));
  }

  // What a call is charged for: the whole file if it names no lines; else the regions of the lines it names,
  // where a missing start is line 1, a missing end 50 lines behind the start, and an offset alone names the
  // lines behind it, 500 if no limit is given.
  lemma CallIsChargedFor(args: RangeArgs, k: Key)
    ensures var first := if args.startLine > 0 then args.startLine else if args.endLine > 0 then 1 else args.offset + 1;
            var last := if args.endLine > 0 then args.endLine
                        else if args.startLine > 0 then args.startLine + 50
                        else args.offset + if args.limit > 0 then args.limit else 500;
            k in Charges(args) <==>
              k.path == args.path
              && (if args.startLine <= 0 && args.endLine <= 0 && args.offset <= 0 then k.region == Whole
                  else k.region.Bucket? && (first - 1) / 50 <= k.region.index <= (last - 1) / 50)
  {
    ChargedBetween(args, k);
  }

  // For every call that returns lines: each of them lies in a region charged for the call exactly if the
  // call names lines and the regions of the lines it returns lie between those of the lines it names.
  lemma LinesChargedIff(c: Cache, args: RangeArgs, file: Option<string>)
    requires ShownBy(c, args, file).Some?
    ensures var t, shown := ReadTarget(CallInput(args)), ShownBy(c, args, file).value;
            EveryLineCharged(args, shown) <==>
              && (t.startLine > 0 || t.endLine > 0)
              && RegionOf(FirstNamed(t)) <= RegionOf(shown.first) && RegionOf(shown.last) <= RegionOf(LastNamed(t))
  {
    var t, shown := ReadTarget(CallInput(args)), ShownBy(c, args, file).value;
    BodyIsShown(0, c, args, file);
    ChargedBetween(args, LineKey(args.path, shown.first));
    ChargedBetween(args, LineKey(args.path, shown.last));
    if && (t.startLine > 0 || t.endLine > 0)
       && RegionOf(FirstNamed(t)) <= RegionOf(shown.first) && RegionOf(shown.last) <= RegionOf(LastNamed(t)) {
      forall line: int | shown.first <= line <= shown.last
        ensures LineKey(args.path, line) in Charges(args)
      {
        RegionsAreMonotone(shown.first, line);
        RegionsAreMonotone(line, shown.last);
        ChargedBetween(args, LineKey(args.path, line));
      }
    }
  }

  // Calls with a forward range that is not answered from the buffer, or with a positive offset alone.
  predicate NamesLines(args: RangeArgs, c: Cache) {
    if args.startLine <= 0 && args.endLine <= 0 then args.offset > 0
    else (args.endLine <= 0 || args.startLine <= args.endLine) && !(args.offset > 0 && args.path in c.entries)
  }

  // For these every line returned lies in a charged region.
  lemma ReturnedLinesAreCharged(c: Cache, args: RangeArgs, file: Option<string>)
    requires ShownBy(c, args, file).Some? && NamesLines(args, c)
    ensures EveryLineCharged(args, ShownBy(c, args, file).value)
  {
    var shown, t := ShownBy(c, args, file).value, ReadTarget(CallInput(args));
    RegionsAreMonotone(FirstNamed(t), shown.first);
    RegionsAreMonotone(shown.last, LastNamed(t));
    LinesChargedIff(c, args, file);
  }

  // A range whose end lies before its start is read as 51 lines but charged as given: all lines are
  // charged exactly when both ends and the last line returned share one region.
  lemma ReversedRangeChargedIff(c: Cache, args: RangeArgs, file: Option<string>)
    requires ShownBy(c, args, file).Some? && 0 < args.endLine < args.startLine
    requires args.offset <= 0 || args.path !in c.entries
    ensures EveryLineCharged(args, ShownBy(c, args, file).value)
            <==> RegionOf(args.endLine) == RegionOf(args.startLine) == RegionOf(ShownBy(c, args, file).value.last)
  {
    RegionsAreMonotone(args.endLine, args.startLine);
    RegionsAreMonotone(args.startLine, ShownBy(c, args, file).value.last);
    LinesChargedIff(c, args, file);
  }

  // A page served from the buffer ignores the range, while the tracker charges the named lines: all lines
  // are charged exactly when the page happens to lie within the regions of the range.
  lemma CachedPageIgnoresRange(c: Cache, args: RangeArgs, file: Option<string>)
    requires ShownBy(c, args, file).Some? && args.offset > 0 && args.path in c.entries
    requires args.startLine > 0 || args.endLine > 0
    ensures var named, last := Target(args.path, args.startLine, args.endLine), ShownBy(c, args, file).value.last;
            && ShownBy(c, args, file) == ShownBy(c, RangeArgs(args.path, 0, 0, args.offset, args.limit), file)
            && (EveryLineCharged(args, ShownBy(c, args, file).value) <==>
                  RegionOf(FirstNamed(named)) <= args.offset / REGION_SIZE
                    && RegionOf(last) <= RegionOf(LastNamed(named)))
  {
    LinesChargedIff(c, args, file);
  }

  // A call that names no lines is charged to the whole file, whatever it returns.
  lemma WholeFileChargesNoLine(c: Cache, args: RangeArgs, file: Option<string>)
    requires ShownBy(c, args, file).Some? && args.startLine <= 0 && args.endLine <= 0 && args.offset <= 0
    ensures Charges(args) == [Key(args.path, Whole)] && !EveryLineCharged(args, ShownBy(c, args, file).value)
  {
    LinesChargedIff(c, args, file);
  }
}
