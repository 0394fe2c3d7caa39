// read_tracker.go: counting reads of 50-line regions since the last write.
module ReadTracking {
  import opened Strings
  import opened Messages

  const REGION_SIZE: int := 50
  const THRESHOLD: nat := 3

  // "path#all" and "path#r".
  datatype Region = Whole | Bucket(index: int)
  datatype Key = Key(path: string, region: Region)

  datatype Nudge = Nudge(key: Key, times: nat)

  type Counts = map<Key, nat>

  function Get(m: Counts, k: Key): nat {
    if k in m then m[k] else 0
  }

  // extractPathAndLines
  function ReadTarget(input: ToolInput): Target {
    if input.range.None? then Target("", 0, 0)
    else
      var raw := input.range.value;
      if raw.startLine <= 0 && raw.endLine <= 0 && raw.offset > 0 then
        var limit := if raw.limit <= 0 then 500 else raw.limit;
        Target(raw.path, raw.offset + 1, raw.offset + 1 + limit - 1)
      else
        Target(raw.path, raw.startLine, raw.endLine)
  }

  // The counters that a read of lines startLine..endLine increments, in order.
  function ChargedKeys(t: Target): (keys: seq<Key>)
    ensures Distinct(keys)
  {
    if t.startLine <= 0 && t.endLine <= 0 then [Key(t.path, Whole)]
    else
      var first := if t.startLine <= 0 then 1 else t.startLine;
      var last := if t.endLine <= 0 then first + REGION_SIZE else t.endLine;
      BucketKeys(t.path, (first - 1) / REGION_SIZE, (last - 1) / REGION_SIZE);
      Buckets(t.path, (first - 1) / REGION_SIZE, (last - 1) / REGION_SIZE)
  }

  function Buckets(path: string, lo: int, hi: int): seq<Key> {
    seq(if hi < lo then 0 else hi - lo + 1, i => Key(path, Bucket(lo + i)))
  }

  lemma BucketKeys(path: string, lo: int, hi: int)
    ensures forall k :: k in Buckets(path, lo, hi) <==> k.path == path && k.region.Bucket? && lo <= k.region.index <= hi
    ensures Distinct(Buckets(path, lo, hi))
  {
    var keys := Buckets(path, lo, hi);
    assert forall r :: lo <= r <= hi ==> keys[r - lo] == Key(path, Bucket(r));
  }

  // What one tool call means to the tracker.
  datatype Access = Read(keys: seq<Key>) | Write | Ignored

  predicate IsWriteShell(cmd: string) {
    Contains(cmd, ">") || Contains(cmd, " -i ") || Contains(cmd, "open(") || Contains(cmd, "write(")
    || Contains(cmd, "git checkout") || Contains(cmd, "mv ") || Contains(cmd, "cp ") || Contains(cmd, "mkdir ")
  }

  predicate IsReadOnlyShell(cmd: string) {
    Contains(cmd, "sed -n") || Contains(cmd, "cat ") || Contains(cmd, "head ") || Contains(cmd, "tail ")
    || Contains(cmd, "grep ") || Contains(cmd, "find ") || Contains(cmd, "ls ") || Contains(cmd, "wc ")
  }

  function ShellCommand(input: ToolInput): string {
    if input.command.Some? then input.command.value else ""
  }

  function ReadOf(t: Target): Access {
    if t.path == "" then Ignored else Read(ChargedKeys(t))
  }

  function Classify(tu: ToolUse): (a: Access)
    ensures WellFormed([a])
  {
    if tu.name == "read_file" then ReadOf(ReadTarget(tu.input))
    else if tu.name == "shell" then
      if IsWriteShell(ShellCommand(tu.input)) then Write
      else if IsReadOnlyShell(ShellCommand(tu.input)) then ReadOf(tu.input.target)
      else Ignored
    else if tu.name == "write_file" || tu.name == "edit_file" then Write
    else Ignored
  }

  function Accesses(uses: seq<ToolUse>): (log: seq<Access>)
    ensures |log| == |uses|
    ensures WellFormed(log)
  {
    if uses == [] then [] else [Classify(uses[0])] + Accesses(uses[1..])
  }

  predicate Distinct(keys: seq<Key>) {
    forall i, j :: 0 <= i < j < |keys| ==> keys[i] != keys[j]
  }

  predicate WellFormed(log: seq<Access>) {
    forall n :: 0 <= n < |log| && log[n].Read? ==> Distinct(log[n].keys)
  }

  // trackRegions: increments in order and stops at the first counter that reaches the threshold.
  function Bump(m: Counts, keys: seq<Key>): (Counts, Option<Nudge>)
    decreases keys
  {
    if keys == [] then (m, None)
    else
      var k := keys[0];
      var n := Get(m, k) + 1;
      if n >= THRESHOLD then (m[k := n], Some(Nudge(k, n))) else Bump(m[k := n], keys[1..])
  }

  function TrackOne(m: Counts, a: Access): (Counts, Option<Nudge>) {
    match a
    case Write => (map[], None)
    case Ignored => (m, None)
    case Read(keys) => Bump(m, keys)
  }

  // Track: a write ends the batch, and so does a nudge; the rest of the batch is not looked at.
  function TrackBatch(m: Counts, batch: seq<Access>): (Counts, Option<Nudge>)
    decreases batch
  {
    if batch == [] then (m, None)
    else
      var (m', nudge) := TrackOne(m, batch[0]);
      if batch[0].Write? || nudge.Some? then (m', nudge) else TrackBatch(m', batch[1..])
  }

  class ReadTracker {
    var regionReads: Counts

    constructor ()
      ensures regionReads == map[]
    {
      regionReads := map[];
    }

    // Stands for replacing the tracker by a new one.
    method Clear()
      modifies this
      ensures regionReads == map[]
    {
      regionReads := map[];
    }

    method Track(uses: seq<ToolUse>) returns (nudge: Option<Nudge>)
      modifies this
      ensures (regionReads, nudge) == TrackBatch(old(regionReads), Accesses(uses))
    {
      var i := 0;
      while i < |uses|
        invariant 0 <= i <= |uses|
        invariant TrackBatch(regionReads, Accesses(uses[i..])) == TrackBatch(old(regionReads), Accesses(uses))
      {
        var tu := uses[i];
        assert uses[i..][0] == tu && uses[i..][1..] == uses[i + 1..];
        if tu.name == "read_file" {
          var t := ReadTarget(tu.input);
          if t.path != "" {
            var n := TrackRegions(t);
            if n.Some? {
              return n;
            }
          }
        } else if tu.name == "shell" {
          var cmd := ShellCommand(tu.input);
          if IsWriteShell(cmd) {
            regionReads := map[];
            return None;
          }
          if IsReadOnlyShell(cmd) && tu.input.target.path != "" {
            var n := TrackRegions(tu.input.target);
            if n.Some? {
              return n;
            }
          }
        } else if tu.name == "write_file" || tu.name == "edit_file" {
          regionReads := map[];
          return None;
        }
        i := i + 1;
      }
      return None;
    }

    method TrackRegions(t: Target) returns (nudge: Option<Nudge>)
      modifies this
      ensures (regionReads, nudge) == Bump(old(regionReads), ChargedKeys(t))
    {
      if t.startLine <= 0 && t.endLine <= 0 {
        var key := Key(t.path, Whole);
        regionReads := regionReads[key := Get(regionReads, key) + 1];
        if regionReads[key] >= THRESHOLD {
          return Some(Nudge(key, regionReads[key]));
        }
        return None;
      }
      var startLine, endLine := t.startLine, t.endLine;
      if startLine <= 0 {
        startLine := 1;
      }
      if endLine <= 0 {
        endLine := startLine + REGION_SIZE;
      }
      nudge := TrackBuckets(t.path, (startLine - 1) / REGION_SIZE, (endLine - 1) / REGION_SIZE);
    }

    // The loop over the regions of a range.
    method TrackBuckets(path: string, startRegion: int, endRegion: int) returns (nudge: Option<Nudge>)
      modifies this
      ensures (regionReads, nudge) == Bump(old(regionReads), Buckets(path, startRegion, endRegion))
    {
      var r := startRegion;
      while r <= endRegion
        invariant Bump(regionReads, Buckets(path, r, endRegion))
                  == Bump(old(regionReads), Buckets(path, startRegion, endRegion))
      {
        var key := Key(path, Bucket(r));
        BumpBuckets(regionReads, path, r, endRegion);
        regionReads := regionReads[key := Get(regionReads, key) + 1];
        if regionReads[key] >= THRESHOLD {
          return Some(Nudge(key, regionReads[key]));
        }
        r := r + 1;
      }
      BumpBuckets(regionReads, path, r, endRegion);
      return None;
    }
  }

  lemma {:induction false} BumpBuckets(m: Counts, path: string, lo: int, hi: int)
    ensures Bump(m, Buckets(path, lo, hi))
            == if lo > hi then (m, None)
               else
                 var k := Key(path, Bucket(lo));
                 var n := Get(m, k) + 1;
                 if n >= THRESHOLD then (m[k := n], Some(Nudge(k, n))) else Bump(m[k := n], Buckets(path, lo + 1, hi))
  {
    if lo <= hi {
      assert Buckets(path, lo, hi) == [Key(path, Bucket(lo))] + Buckets(path, lo + 1, hi);
      BumpFirst(m, Key(path, Bucket(lo)), Buckets(path, lo + 1, hi));
    }
  }

  lemma {:induction false} BumpFirst(m: Counts, k: Key, keys: seq<Key>)
    ensures Bump(m, [k] + keys)
            == var n := Get(m, k) + 1; if n >= THRESHOLD then (m[k := n], Some(Nudge(k, n))) else Bump(m[k := n], keys)
  {
    assert ([k] + keys)[1..] == keys;
  }

  // ---------------------------------------------------------------------------------------------
  // The reads that really happened since the last write.

  function TrueReads(log: seq<Access>, k: Key): nat {
    if log == [] then 0
    else
      var rest := log[..|log| - 1];
      match log[|log| - 1]
      case Write => 0
      case Ignored => TrueReads(rest, k)
      case Read(keys) => TrueReads(rest, k) + if k in keys then 1 else 0
  }

  // The tracker after single-call Track invocations on each access of the log.
  function CountsAfter(log: seq<Access>): Counts {
    if log == [] then map[] else TrackOne(CountsAfter(log[..|log| - 1]), log[|log| - 1]).0
  }

  // The nudge returned by the last of those invocations.
  function LastNudge(log: seq<Access>): Option<Nudge>
    requires log != []
  {
    TrackOne(CountsAfter(log[..|log| - 1]), log[|log| - 1]).1
  }

  // No nudge has been given since the last write.
  predicate Quiet(log: seq<Access>) {
    log != [] && !log[|log| - 1].Write? ==> LastNudge(log).None? && Quiet(log[..|log| - 1])
  }

  lemma {:induction false} Snoc(log: seq<Access>, a: Access, k: Key)
    ensures (log + [a])[..|log|] == log
    ensures CountsAfter(log + [a]) == TrackOne(CountsAfter(log), a).0
    ensures LastNudge(log + [a]) == TrackOne(CountsAfter(log), a).1
    ensures TrueReads(log + [a], k) ==
            match a
            case Write => 0
            case Ignored => TrueReads(log, k)
            case Read(keys) => TrueReads(log, k) + if k in keys then 1 else 0
  {
    assert (log + [a])[..|log|] == log;
  }

  lemma {:induction false} BumpCounts(m: Counts, keys: seq<Key>, k: Key)
    requires Distinct(keys)
    ensures var (m', nudge) := Bump(m, keys);
            && (k in keys || Get(m', k) == Get(m, k))
            && Get(m, k) <= Get(m', k) <= Get(m, k) + 1
            && (nudge.Some? ==> nudge.value.key in keys && nudge.value.times == Get(m', nudge.value.key) >= THRESHOLD
                                && Get(m', nudge.value.key) == Get(m, nudge.value.key) + 1)
            && (nudge.None? && k in keys ==> Get(m', k) == Get(m, k) + 1 < THRESHOLD)
    decreases keys
  {
    if keys != [] {
      var n := Get(m, keys[0]) + 1;
      if n < THRESHOLD {
        BumpCounts(m[keys[0] := n], keys[1..], k);
        BumpCounts(m[keys[0] := n], keys[1..], keys[0]);
      }
    }
  }

  // Stored counts never exceed the reads that happened, on any run.
  lemma {:induction false} CountsAreSound(log: seq<Access>, k: Key)
    requires WellFormed(log)
    ensures Get(CountsAfter(log), k) <= TrueReads(log, k)
  {
    if log != [] {
      var rest := log[..|log| - 1];
      CountsAreSound(rest, k);
      if log[|log| - 1].Read? {
        BumpCounts(CountsAfter(rest), log[|log| - 1].keys, k);
      }
    }
  }

  // A nudge always names a covered region that really was read at least three times.
  lemma {:induction false} NudgeIsJustified(log: seq<Access>)
    requires WellFormed(log) && log != [] && LastNudge(log).Some?
    ensures log[|log| - 1].Read?
    ensures var nudge := LastNudge(log).value;
            nudge.key in log[|log| - 1].keys && THRESHOLD <= nudge.times <= TrueReads(log, nudge.key)
  {
    var rest, nudge := log[..|log| - 1], LastNudge(log).value;
    BumpCounts(CountsAfter(rest), log[|log| - 1].keys, nudge.key);
    CountsAreSound(log, nudge.key);
  }

  // Every read nudged since the last write was nudged at the last of its regions, so that none was left out.
  predicate NudgedAtEnds(log: seq<Access>) {
    log == [] ||
    var rest, a := log[..|log| - 1], log[|log| - 1];
    match a
    case Write => true
    case Ignored => NudgedAtEnds(rest)
    case Read(keys) => NudgedAtEnds(rest) && (LastNudge(log).Some? ==> AtEnd(keys, LastNudge(log).value.key))
  }

  predicate AtEnd(keys: seq<Key>, k: Key) {
    keys != [] && keys[|keys| - 1] == k
  }

  // A read counts all its regions exactly if it is not nudged or nudged at the last one.
  lemma {:induction false} BumpCountsAll(m: Counts, keys: seq<Key>, k: Key)
    requires Distinct(keys)
    ensures var (m', nudge) := Bump(m, keys);
            && (nudge.None? || AtEnd(keys, nudge.value.key) ==> Get(m', k) == Get(m, k) + if k in keys then 1 else 0)
            && (nudge.Some? && !AtEnd(keys, nudge.value.key) ==>
                  keys != [] && Get(m', keys[|keys| - 1]) == Get(m, keys[|keys| - 1]))
    decreases keys
  {
    if keys != [] {
      var n := Get(m, keys[0]) + 1;
      assert keys == [keys[0]] + keys[1..];
      if n < THRESHOLD {
        BumpCountsAll(m[keys[0] := n], keys[1..], k);
        BumpCounts(m[keys[0] := n], keys[1..], k);
      }
    }
  }

  predicate ExactAt(log: seq<Access>, k: Key) {
    Get(CountsAfter(log), k) == TrueReads(log, k)
  }

  // The stored counts are the true ones exactly if every nudge since the last write came at the last
  // region of its read; otherwise the early return has left regions uncounted, for good.
  lemma {:induction false} CountsAreExactIff(log: seq<Access>)
    requires WellFormed(log)
    ensures (forall k :: ExactAt(log, k)) <==> NudgedAtEnds(log)
  {
    if log != [] {
      var rest, a := log[..|log| - 1], log[|log| - 1];
      CountsAreExactIff(rest);
      match a
      case Write =>
      case Ignored => assert forall k :: ExactAt(log, k) == ExactAt(rest, k);
      case Read(keys) =>
        assert log == rest + [Read(keys)];
        ReadIsExactIff(rest, keys);
    }
  }

  lemma {:induction false} ReadIsExactAt(rest: seq<Access>, keys: seq<Key>, k: Key)
    requires WellFormed(rest) && Distinct(keys)
    ensures var log := rest + [Read(keys)];
            && (ExactAt(log, k) ==> ExactAt(rest, k))
            && (LastNudge(log).None? || AtEnd(keys, LastNudge(log).value.key) ==>
                  (ExactAt(rest, k) ==> ExactAt(log, k)))
            && (LastNudge(log).Some? && !AtEnd(keys, LastNudge(log).value.key) ==>
                  keys != [] && !ExactAt(log, keys[|keys| - 1]))
  {
    CountsAreSound(rest, k);
    Snoc(rest, Read(keys), k);
    BumpCounts(CountsAfter(rest), keys, k);
    BumpCountsAll(CountsAfter(rest), keys, k);
    if keys != [] {
      CountsAreSound(rest, keys[|keys| - 1]);
      Snoc(rest, Read(keys), keys[|keys| - 1]);
    }
  }

  lemma {:induction false} ReadIsExactIff(rest: seq<Access>, keys: seq<Key>)
    requires WellFormed(rest) && Distinct(keys)
    ensures var log := rest + [Read(keys)];
            (forall k :: ExactAt(log, k)) <==>
              (forall k :: ExactAt(rest, k)) && (LastNudge(log).Some? ==> AtEnd(keys, LastNudge(log).value.key))
  {
    var log := rest + [Read(keys)];
    var atEnd := LastNudge(log).Some? ==> AtEnd(keys, LastNudge(log).value.key);
    forall k
      ensures ExactAt(log, k) ==> ExactAt(rest, k)
      ensures atEnd && ExactAt(rest, k) ==> ExactAt(log, k)
    {
      ReadIsExactAt(rest, keys, k);
    }
    if !atEnd {
      ReadIsExactAt(rest, keys, LastNudge(log).value.key);
      assert !ExactAt(log, keys[|keys| - 1]);
    }
  }

  // While the counts are exact, a read is nudged exactly if it brings a region to three.
  lemma {:induction false} NudgeIsPrompt(log: seq<Access>)
    requires WellFormed(log) && log != [] && NudgedAtEnds(log[..|log| - 1]) && log[|log| - 1].Read?
    ensures LastNudge(log).Some? <==> exists k :: k in log[|log| - 1].keys && TrueReads(log, k) >= THRESHOLD
  {
    var rest, keys := log[..|log| - 1], log[|log| - 1].keys;
    if LastNudge(log).Some? {
      NudgeIsJustified(log);
      assert LastNudge(log).value.key in keys;
    } else {
      assert NudgedAtEnds(log);
      CountsAreExactIff(log);
      forall k | k in keys
        ensures TrueReads(log, k) < THRESHOLD
      {
        BumpCounts(CountsAfter(rest), keys, k);
        assert ExactAt(log, k);
      }
    }
  }

  // In particular up to the first nudge after a write.
  lemma {:induction false} QuietIsExact(log: seq<Access>)
    requires Quiet(log)
    ensures NudgedAtEnds(log)
  {
    if log != [] && !log[|log| - 1].Write? {
      QuietIsExact(log[..|log| - 1]);
    }
  }

  lemma {:induction false} QuietIsBelow(log: seq<Access>, k: Key)
    requires WellFormed(log) && Quiet(log)
    ensures Get(CountsAfter(log), k) < THRESHOLD
  {
    if log != [] && !log[|log| - 1].Write? {
      QuietIsBelow(log[..|log| - 1], k);
      if log[|log| - 1].Read? {
        BumpCounts(CountsAfter(log[..|log| - 1]), log[|log| - 1].keys, k);
      }
    }
  }

  // Until then the stored counts are exact and below the threshold.
  lemma {:induction false} CountsAreExactWhileQuiet(log: seq<Access>, k: Key)
    requires WellFormed(log) && Quiet(log)
    ensures Get(CountsAfter(log), k) == TrueReads(log, k) < THRESHOLD
  {
    QuietIsExact(log);
    QuietIsBelow(log, k);
    CountsAreExactIff(log);
    assert ExactAt(log, k);
  }

  // After a nudge the promptness is lost: the early return leaves later regions uncounted.
  lemma {:induction false} NudgeMayComeLate(a: Key, b: Key)
    requires a != b
    ensures var log := [Read([a]), Read([a]), Read([a, b]), Read([b]), Read([b])];
            TrueReads(log, b) == THRESHOLD && LastNudge(log).None?
  {
    var ra, rb, both := Read([a]), Read([b]), Read([a, b]);
    assert [] + [ra] + [ra] + [both] + [rb] + [rb] == [ra, ra, both, rb, rb];
    assert CountsAfter([]) == map[] && TrueReads([], b) == 0;
    LateFrom([], a, b);
  }

  lemma {:induction false} LateFrom(log: seq<Access>, a: Key, b: Key)
    requires a != b && Get(CountsAfter(log), a) == Get(CountsAfter(log), b) == TrueReads(log, b) == 0
    ensures var after := log + [Read([a])] + [Read([a])] + [Read([a, b])] + [Read([b])] + [Read([b])];
            TrueReads(after, b) == THRESHOLD && LastNudge(after).None?
  {
    hide CountsAfter, TrueReads, LastNudge, Get;
    var log2 := log + [Read([a])] + [Read([a])];
    var log4 := log2 + [Read([a, b])] + [Read([b])];
    OneRead(log, a, b);
    OneRead(log + [Read([a])], a, b);
    TwoReads(log2, a, b);
    OneRead(log2 + [Read([a, b])], b, a);
    OneRead(log4, b, a);
  }

  lemma {:induction false} OneRead(log: seq<Access>, k: Key, other: Key)
    requires k != other
    ensures var after, n := log + [Read([k])], Get(CountsAfter(log), k) + 1;
            && Get(CountsAfter(after), k) == n && Get(CountsAfter(after), other) == Get(CountsAfter(log), other)
            && TrueReads(after, k) == TrueReads(log, k) + 1 && TrueReads(after, other) == TrueReads(log, other)
            && (LastNudge(after).Some? <==> n >= THRESHOLD)
  {
    Snoc(log, Read([k]), k);
    Snoc(log, Read([k]), other);
    BumpFirst(CountsAfter(log), k, []);
    assert [k] + [] == [k];
  }

  // A nudge at the first of two regions leaves the second uncounted.
  lemma {:induction false} TwoReads(log: seq<Access>, a: Key, b: Key)
    requires a != b && Get(CountsAfter(log), a) + 1 >= THRESHOLD
    ensures var after := log + [Read([a, b])];
            && Get(CountsAfter(after), b) == Get(CountsAfter(log), b)
            && TrueReads(after, b) == TrueReads(log, b) + 1
  {
    Snoc(log, Read([a, b]), b);
    BumpFirst(CountsAfter(log), a, [b]);
    assert [a] + [b] == [a, b];
  }

  // A batch with a write clears the counters exactly if no call before its first write is nudged.
  lemma {:induction false} BatchClearsIff(m: Counts, batch: seq<Access>, w: nat)
    requires w < |batch| && batch[w].Write? && forall i :: 0 <= i < w ==> !batch[i].Write?
    ensures TrackBatch(m, batch).0 == map[] <==> TrackBatch(m, batch[..w]).1.None?
    decreases w
  {
    if w > 0 {
      var (m', nudge) := TrackOne(m, batch[0]);
      assert batch[..w][0] == batch[0] && batch[..w][1..] == batch[1..][..w - 1];
      if nudge.None? {
        BatchClearsIff(m', batch[1..], w - 1);
      } else {
        NudgedIsCounted(m, batch[0].keys);
      }
    }
  }

  lemma {:induction false} NudgedIsCounted(m: Counts, keys: seq<Key>)
    ensures var (m', nudge) := Bump(m, keys); nudge.Some? ==> nudge.value.key in m'
    decreases keys
  {
    if keys != [] && Get(m, keys[0]) + 1 < THRESHOLD {
      NudgedIsCounted(m[keys[0] := Get(m, keys[0]) + 1], keys[1..]);
    }
  }

  // So within one batch a nudge skips a later write, and the counters survive an edit.
  lemma {:induction false} BatchNudgeHidesWrite(m: Counts, k: Key)
    requires Get(m, k) == THRESHOLD - 1
    ensures TrackBatch(m, [Read([k]), Write]).0 == m[k := THRESHOLD] != map[]
    ensures TrackBatch(m, [Write]).0 == map[]
  {
    var batch := [Read([k]), Write];
    assert batch[..1] == [Read([k])];
    BatchClearsIff(m, batch, 1);
  }

  // How many calls of a batch Track looks at: all of them, or up to a write or a nudge.
  function LookedAt(m: Counts, batch: seq<Access>): (n: nat)
    ensures n <= |batch|
    decreases batch
  {
    if batch == [] then 0
    else
      var (m', nudge) := TrackOne(m, batch[0]);
      if batch[0].Write? || nudge.Some? then 1 else 1 + LookedAt(m', batch[1..])
  }

  ghost predicate Processed(log: seq<Access>, batch: seq<Access>, n: nat)
  {
    && n <= |batch|
    && TrackBatch(CountsAfter(log), batch).0 == CountsAfter(log + batch[..n])
    && (n < |batch| ==> n > 0 && (batch[n - 1].Write? || LastNudge(log + batch[..n]).Some?))
    && (n > 0 ==> TrackBatch(CountsAfter(log), batch).1 == LastNudge(log + batch[..n]))
    && (n == 0 ==> TrackBatch(CountsAfter(log), batch).1 == None)
  }

  // Tracking a batch is tracking that prefix of it one call at a time, so the run lemmas above apply.
  lemma {:induction false} BatchIsAPrefix(log: seq<Access>, batch: seq<Access>)
    ensures Processed(log, batch, LookedAt(CountsAfter(log), batch))
    decreases |batch|
  {
    if batch == [] {
      assert log + batch[..0] == log;
    } else {
      var log' := log + [batch[0]];
      assert log'[..|log|] == log && log + batch[..1] == log';
      if !(batch[0].Write? || LastNudge(log').Some?) {
        BatchIsAPrefix(log', batch[1..]);
        var n := LookedAt(CountsAfter(log'), batch[1..]);
        assert log' + batch[1..][..n] == log + batch[..n + 1];
      }
    }
  }

  function LineKey(path: string, line: int): Key {
    Key(path, Bucket((line - 1) / REGION_SIZE))
  }

  // The regions charged for lines a..b are exactly the 50-line buckets those lines lie in.
  lemma ChargedRegionsAreExact(path: string, a: int, b: int, k: Key)
    requires 1 <= a <= b
    ensures k in ChargedKeys(Target(path, a, b)) <==>
            exists line :: a <= line <= b && k == LineKey(path, line)
  {
    BucketKeys(path, (a - 1) / REGION_SIZE, (b - 1) / REGION_SIZE);
    if k in ChargedKeys(Target(path, a, b)) {
      var r := k.region.index;
      var line := if r == (a - 1) / REGION_SIZE then a else r * REGION_SIZE + 1;
      assert (line - 1) / REGION_SIZE == r;
      assert a <= line <= b && k == LineKey(path, line);
    } else {
      forall line: int | a <= line <= b
        ensures k != LineKey(path, line)
      {
        assert (a - 1) / REGION_SIZE <= (line - 1) / REGION_SIZE <= (b - 1) / REGION_SIZE;
      }
    }
  }
}
