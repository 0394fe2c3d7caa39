// output_buffer.go: a size-bounded cache of tool outputs, read in pages of lines.
module OutputCache {
  import opened Strings

  datatype BufferEntry = BufferEntry(lines: seq<string>, size: nat)

  datatype Cache = Cache(entries: map<string, BufferEntry>, order: seq<string>, size: int)

  const EMPTY := Cache(map[], [], 0)

  function EntryOf(content: string): BufferEntry {
    BufferEntry(Split(content), |content|)
  }

  // The entry is replaced or added, and the id is appended to the order: a stale position may remain.
  function Put(c: Cache, id: string, content: string): Cache {
    var replaced := if id in c.entries then c.entries[id].size else 0;
    Cache(c.entries[id := EntryOf(content)], c.order + [id], c.size - replaced + |content|)
  }

  function Pop(c: Cache): Cache
    requires c.order != []
  {
    var oldest := c.order[0];
    if oldest in c.entries then Cache(c.entries - {oldest}, c.order[1..], c.size - c.entries[oldest].size)
    else c.(order := c.order[1..])
  }

  function Evict(maxSize: int, c: Cache): Cache
    decreases |c.order|
  {
    if c.size > maxSize && c.order != [] then Evict(maxSize, Pop(c)) else c
  }

  function StoreSpec(maxSize: int, c: Cache, id: string, content: string): Cache {
    Evict(maxSize, Put(c, id, content))
  }

  // paginate
  function Paginate(lines: seq<string>, offset: int, limit: int): (string, int, bool) {
    var offset := if offset < 0 then 0 else offset;
    var limit := if limit <= 0 then 200 else limit;
    var total := |lines|;
    if offset >= total then ("", total, false)
    else
      var end := if offset + limit > total then total else offset + limit;
      (Join(lines[offset..end], "\n"), total, end < total)
  }

  class OutputBuffer {
    var entries: map<string, BufferEntry>
    var order: seq<string>
    var size: int
    const maxSize: int

    constructor (maxSize: int)
      ensures State() == EMPTY && this.maxSize == if maxSize <= 0 then 50 * 1024 * 1024 else maxSize
    {
      entries, order, size := map[], [], 0;
      this.maxSize := if maxSize <= 0 then 50 * 1024 * 1024 else maxSize;
    }

    ghost function State(): Cache
      reads this
    {
      Cache(entries, order, size)
    }

    method Store(id: string, content: string)
      modifies this
      ensures State() == StoreSpec(maxSize, old(State()), id, content)
    {
      hide Split;
      var lines := Split(content);
      if id in entries {
        size := size - entries[id].size;
      }
      entries := entries[id := BufferEntry(lines, |content|)];
      order := order + [id];
      size := size + |content|;
      while size > maxSize && |order| > 0
        invariant Evict(maxSize, State()) == StoreSpec(maxSize, old(State()), id, content)
        decreases |order|
      {
        var oldest := order[0];
        order := order[1..];
        if oldest in entries {
          size := size - entries[oldest].size;
          entries := entries - {oldest};
        }
      }
    }

    // The third component tells whether the entry exists.
    function TryGetPage(id: string, offset: int, limit: int): (string, int, bool)
      reads this
    {
      if id in entries then
        var (page, total, _) := Paginate(entries[id].lines, offset, limit);
        (page, total, true)
      else ("", 0, false)
    }
  }

  // ---------------------------------------------------------------------------------------------
  // Accounting, for any ids.

  ghost function TotalSize(m: map<string, BufferEntry>): nat
    decreases |m|
  {
    if m == map[] then 0
    else
      var k :| k in m;
      m[k].size + TotalSize(m - {k})
  }

  lemma {:induction false} TotalWithout(m: map<string, BufferEntry>, k: string)
    requires k in m
    ensures TotalSize(m) == m[k].size + TotalSize(m - {k})
    decreases |m|
  {
    var j :| j in m && TotalSize(m) == m[j].size + TotalSize(m - {j});
    if j != k {
      TotalWithout(m - {j}, k);
      TotalWithout(m - {k}, j);
      assert m - {j} - {k} == m - {k} - {j};
    }
  }

  lemma TotalWith(m: map<string, BufferEntry>, k: string, e: BufferEntry)
    ensures TotalSize(m[k := e]) == TotalSize(m) - (if k in m then m[k].size else 0) + e.size
  {
    TotalWithout(m[k := e], k);
    if k in m {
      TotalWithout(m, k);
      assert m[k := e] - {k} == m - {k};
    } else {
      assert m[k := e] - {k} == m;
    }
  }

  ghost predicate Consistent(c: Cache) {
    c.size == TotalSize(c.entries) && forall id :: id in c.entries ==> id in c.order
  }

  lemma PopIsConsistent(c: Cache)
    requires Consistent(c) && c.order != []
    ensures Consistent(Pop(c))
  {
    var oldest := c.order[0];
    assert c.order == [oldest] + c.order[1..];
    if oldest in c.entries {
      TotalWithout(c.entries, oldest);
    }
  }

  lemma UnorderedIsEmpty(c: Cache)
    requires Consistent(c)
    ensures c.order == [] ==> c.size == 0
  {
    if c.order == [] {
      assert c.entries == map[];
    }
  }

  lemma {:induction false} EvictIsConsistent(maxSize: int, c: Cache)
    requires Consistent(c) && maxSize >= 0
    ensures Consistent(Evict(maxSize, c)) && Evict(maxSize, c).size <= maxSize
    decreases |c.order|
  {
    if c.size > maxSize {
      UnorderedIsEmpty(c);
      PopIsConsistent(c);
      EvictIsConsistent(maxSize, Pop(c));
    }
  }

  // ---------------------------------------------------------------------------------------------
  // Storing, from the positions and sizes alone.

  function IdsIn(order: seq<string>): set<string> {
    set id | id in order
  }

  // Eviction takes positions from the front, as few as bring the size within the limit, and with each the
  // entry of its id.
  ghost predicate Evicted(maxSize: int, entries: map<string, BufferEntry>, order: seq<string>, c: Cache, k: nat) {
    && k <= |order| && c.order == order[k..] && c.entries == entries - IdsIn(order[..k])
    && c.size == TotalSize(c.entries) && (c.size <= maxSize || k == |order|)
    && forall j :: 0 <= j < k ==> TooMany(maxSize, entries, order, j)
  }

  ghost predicate TooMany(maxSize: int, entries: map<string, BufferEntry>, order: seq<string>, j: nat)
    requires j <= |order|
  {
    TotalSize(entries - IdsIn(order[..j])) > maxSize
  }

  lemma {:induction false} EvictsOldest(maxSize: int, c: Cache) returns (k: nat)
    requires Consistent(c)
    ensures Evicted(maxSize, c.entries, c.order, Evict(maxSize, c), k)
    decreases |c.order|
  {
    hide TotalSize, IdsIn;
    NonePopped(c);
    if c.size > maxSize && c.order != [] {
      PopIsConsistent(c);
      var rest := EvictsOldest(maxSize, Pop(c));
      k := rest + 1;
      assert c.order[k..] == c.order[1..][rest..];
      PoppedIds(c, k);
      forall j | 0 <= j < k
        ensures TooMany(maxSize, c.entries, c.order, j)
      {
        if j > 0 {
          PoppedIds(c, j);
          assert TooMany(maxSize, Pop(c).entries, Pop(c).order, j - 1);
        }
      }
    } else {
      k := 0;
    }
  }

  lemma NonePopped(c: Cache)
    ensures c.entries - IdsIn(c.order[..0]) == c.entries && c.order[0..] == c.order
  {
  }

  lemma {:induction false} PoppedIds(c: Cache, j: nat)
    requires c.order != [] && 1 <= j <= |c.order|
    ensures c.entries - IdsIn(c.order[..j]) == Pop(c).entries - IdsIn(c.order[1..][..j - 1])
  {
    assert c.order[..j] == [c.order[0]] + c.order[1..][..j - 1];
    assert IdsIn(c.order[..j]) == {c.order[0]} + IdsIn(c.order[1..][..j - 1]);
  }

  // What is stored replaces the entry of its id and gets a further position at the end, and the positions
  // that are then too many are evicted from the front.
  lemma {:induction false} StoreEvictsOldest(maxSize: int, c: Cache, id: string, content: string) returns (k: nat)
    requires Consistent(c)
    ensures Evicted(maxSize, c.entries[id := BufferEntry(Split(content), |content|)], c.order + [id],
                    StoreSpec(maxSize, c, id, content), k)
  {
    PutIsConsistent(c, id, content);
    k := EvictsOldest(maxSize, Put(c, id, content));
  }

  datatype Stored = Stored(id: string, content: string)

  function BufferAfter(maxSize: int, log: seq<Stored>): Cache {
    if log == [] then EMPTY
    else StoreSpec(maxSize, BufferAfter(maxSize, log[..|log| - 1]), log[|log| - 1].id, log[|log| - 1].content)
  }

  // On any run, re-stored ids included, the size is that of the cached entries, every cached id has a
  // place in the order, and eviction gets below the limit.
  lemma {:induction false} SizeIsExact(maxSize: int, log: seq<Stored>)
    requires maxSize >= 0
    ensures Consistent(BufferAfter(maxSize, log)) && BufferAfter(maxSize, log).size <= maxSize
  {
    if log != [] {
      var before, last := BufferAfter(maxSize, log[..|log| - 1]), log[|log| - 1];
      SizeIsExact(maxSize, log[..|log| - 1]);
      TotalWith(before.entries, last.id, EntryOf(last.content));
      EvictIsConsistent(maxSize, Put(before, last.id, last.content));
    }
  }

  // ---------------------------------------------------------------------------------------------
  // Distinct ids: the cache is the longest suffix of the log that fits.

  function SizeOf(log: seq<Stored>): nat {
    if log == [] then 0 else |log[0].content| + SizeOf(log[1..])
  }

  ghost predicate Distinct(log: seq<Stored>) {
    forall i, j :: 0 <= i < j < |log| ==> log[i].id != log[j].id
  }

  function Ids(log: seq<Stored>): seq<string> {
    seq(|log|, i requires 0 <= i < |log| => log[i].id)
  }

  function EntriesOf(log: seq<Stored>): map<string, BufferEntry>
    requires Distinct(log)
  {
    map i | 0 <= i < |log| :: log[i].id := EntryOf(log[i].content)
  }

  // A buffer that caches exactly the stores of a log.
  function CacheOf(log: seq<Stored>): Cache
    requires Distinct(log)
  {
    Cache(EntriesOf(log), Ids(log), SizeOf(log))
  }

  // k starts the longest suffix of the log whose total size fits.
  ghost predicate LongestFit(maxSize: int, log: seq<Stored>, k: nat) {
    k <= |log| && SizeOf(log[k..]) <= maxSize && forall j :: 0 <= j < k ==> SizeOf(log[j..]) > maxSize
  }

  lemma PopDropsFirst(log: seq<Stored>)
    requires Distinct(log) && log != []
    ensures Distinct(log[1..]) && Pop(CacheOf(log)) == CacheOf(log[1..])
  {
    DistinctTail(log, 1);
    assert Ids(log)[1..] == Ids(log[1..]) && Ids(log)[0] == log[0].id;
    EntriesTail(log);
  }

  lemma EntriesTail(log: seq<Stored>)
    requires Distinct(log) && log != [] && Distinct(log[1..])
    ensures log[0].id in EntriesOf(log) && EntriesOf(log)[log[0].id] == EntryOf(log[0].content)
    ensures EntriesOf(log) - {log[0].id} == EntriesOf(log[1..])
  {
    var rest := log[1..];
    assert forall i :: 0 <= i < |rest| ==> rest[i] == log[i + 1];
    assert forall i :: 1 <= i < |log| ==> log[i] == rest[i - 1];
  }

  lemma {:induction false} EvictToFit(maxSize: int, log: seq<Stored>, k: nat) returns (fit: nat)
    requires maxSize >= 0 && Distinct(log) && k <= |log| && Distinct(log[k..])
    requires forall j :: 0 <= j < k ==> SizeOf(log[j..]) > maxSize
    ensures LongestFit(maxSize, log, fit) && Distinct(log[fit..])
    ensures Evict(maxSize, CacheOf(log[k..])) == CacheOf(log[fit..])
    decreases |log| - k
  {
    if SizeOf(log[k..]) > maxSize {
      PopDropsFirst(log[k..]);
      assert log[k..][1..] == log[k + 1..];
      fit := EvictToFit(maxSize, log, k + 1);
    } else {
      fit := k;
    }
  }

  lemma PutAppends(log: seq<Stored>, last: Stored)
    requires Distinct(log + [last])
    ensures Distinct(log) && Put(CacheOf(log), last.id, last.content) == CacheOf(log + [last])
  {
    DistinctFront(log, last);
    assert Ids(log + [last]) == Ids(log) + [last.id];
    SizeAppend(log, last);
    EntriesSnoc(log, last);
  }

  lemma DistinctFront(log: seq<Stored>, last: Stored)
    requires Distinct(log + [last])
    ensures Distinct(log) && forall i :: 0 <= i < |log| ==> log[i].id != last.id
  {
    var all := log + [last];
    assert all[|log|] == last && forall i :: 0 <= i < |log| ==> log[i] == all[i];
  }

  lemma EntriesSnoc(log: seq<Stored>, last: Stored)
    requires Distinct(log + [last]) && Distinct(log)
    ensures EntriesOf(log)[last.id := EntryOf(last.content)] == EntriesOf(log + [last])
  {
    var all := log + [last];
    assert all[|log|] == last && forall i :: 0 <= i < |log| ==> log[i] == all[i];
  }

  lemma {:induction false} SizeAppend(log: seq<Stored>, last: Stored)
    ensures SizeOf(log + [last]) == SizeOf(log) + |last.content|
  {
    if log == [] {
      assert [last][1..] == [];
    } else {
      SizeAppend(log[1..], last);
      assert (log + [last])[1..] == log[1..] + [last];
    }
  }

  lemma DistinctTail(log: seq<Stored>, k: nat)
    requires Distinct(log) && k <= |log|
    ensures Distinct(log[k..])
  {
  }

  // After any run of stores with pairwise distinct ids the buffer caches exactly the longest suffix of
  // the log that fits, in order.
  lemma {:induction false} CachesLongestFit(maxSize: int, log: seq<Stored>) returns (k: nat)
    requires maxSize >= 0 && Distinct(log)
    ensures LongestFit(maxSize, log, k) && Distinct(log[k..]) && BufferAfter(maxSize, log) == CacheOf(log[k..])
  {
    if log == [] {
      k := 0;
    } else {
      var rest, last := log[..|log| - 1], log[|log| - 1];
      var before := CachesLongestFit(maxSize, rest);
      assert log == rest + [last];
      PutInFit(maxSize, rest, last, before);
      k := EvictToFit(maxSize, log, before);
    }
  }

  lemma PutInFit(maxSize: int, rest: seq<Stored>, last: Stored, k: nat)
    requires Distinct(rest + [last]) && LongestFit(maxSize, rest, k) && Distinct(rest[k..])
    ensures var log := rest + [last];
            && Distinct(log[k..]) && Put(CacheOf(rest[k..]), last.id, last.content) == CacheOf(log[k..])
            && forall j :: 0 <= j < k ==> SizeOf(log[j..]) > maxSize
  {
    var log := rest + [last];
    assert log[k..] == rest[k..] + [last];
    DistinctTail(log, k);
    PutAppends(rest[k..], last);
    forall j | 0 <= j < k
      ensures SizeOf(log[j..]) > maxSize
    {
      SizeAppend(rest[j..], last);
      assert log[j..] == rest[j..] + [last];
    }
  }

  // ---------------------------------------------------------------------------------------------
  // Which entry survives being stored, for any cache.

  // The ids that eviction reaches before the first position of this one.
  function Ahead(order: seq<string>, id: string): set<string> {
    if order == [] || order[0] == id then {} else {order[0]} + Ahead(order[1..], id)
  }

  // The entries left when eviction gets to the first position of an id.
  function LeftAt(c: Cache, id: string): map<string, BufferEntry> {
    c.entries - Ahead(c.order, id)
  }

  lemma {:induction false} NotAheadOfItself(order: seq<string>, id: string)
    ensures id !in Ahead(order, id)
  {
    if order != [] && order[0] != id {
      NotAheadOfItself(order[1..], id);
    }
  }

  lemma {:induction false} AheadAppend(order: seq<string>, more: seq<string>, id: string)
    ensures id in order ==> Ahead(order + more, id) == Ahead(order, id)
    ensures id !in order ==> Ahead(order + more, id) == (set k | k in order) + Ahead(more, id)
  {
    if order == [] {
      assert order + more == more;
    } else if order[0] != id {
      AheadAppend(order[1..], more, id);
      assert (order + more)[1..] == order[1..] + more;
      assert order == [order[0]] + order[1..];
    }
  }

  lemma {:induction false} PartIsSmaller(m: map<string, BufferEntry>, gone: set<string>)
    ensures TotalSize(m - gone) <= TotalSize(m)
    decreases |gone|
  {
    if gone == {} {
      assert m - gone == m;
    } else {
      var k :| k in gone;
      PartIsSmaller(m, gone - {k});
      var before := m - (gone - {k});
      if k in before {
        TotalWithout(before, k);
        assert m - gone == before - {k};
      } else {
        assert m - gone == before;
      }
    }
  }

  lemma {:induction false} EvictOnlyRemoves(maxSize: int, c: Cache, id: string)
    ensures id in Evict(maxSize, c).entries ==> id in c.entries && Evict(maxSize, c).entries[id] == c.entries[id]
    decreases |c.order|
  {
    if c.size > maxSize && c.order != [] {
      EvictOnlyRemoves(maxSize, Pop(c), id);
    }
  }

  lemma PopLeft(c: Cache, id: string)
    requires c.order != [] && c.order[0] != id
    ensures LeftAt(Pop(c), id) == LeftAt(c, id)
  {
    assert LeftAt(c, id) == c.entries - ({c.order[0]} + Ahead(c.order[1..], id));
  }

  lemma {:induction false} SurvivesEvictionIff(maxSize: int, c: Cache, id: string)
    requires Consistent(c) && id in c.entries
    ensures id in Evict(maxSize, c).entries <==> TotalSize(LeftAt(c, id)) <= maxSize
    decreases |c.order|
  {
    PartIsSmaller(c.entries, Ahead(c.order, id));
    if c.size > maxSize {
      PopIsConsistent(c);
      if c.order[0] == id {
        EvictOnlyRemoves(maxSize, Pop(c), id);
        assert LeftAt(c, id) == c.entries;
      } else {
        PopLeft(c, id);
        SurvivesEvictionIff(maxSize, Pop(c), id);
      }
    }
  }

  lemma PutIsConsistent(c: Cache, id: string, content: string)
    requires Consistent(c)
    ensures Consistent(Put(c, id, content)) && id in Put(c, id, content).entries
  {
    TotalWith(c.entries, id, EntryOf(content));
    assert (c.order + [id])[|c.order|] == id;
  }

  // What is stored stays exactly if it fits together with the entries that have no position ahead of the
  // first one of its id, be that the fresh one at the end or a stale one.
  ghost predicate Survives(maxSize: int, c: Cache, id: string, content: string) {
    TotalSize(LeftAt(Put(c, id, content), id)) <= maxSize
  }

  lemma StoredIsCachedIff(maxSize: int, c: Cache, id: string, content: string)
    requires Consistent(c)
    ensures id in StoreSpec(maxSize, c, id, content).entries <==> TotalSize(LeftAt(Put(c, id, content), id)) <= maxSize
    ensures id in StoreSpec(maxSize, c, id, content).entries ==>
              StoreSpec(maxSize, c, id, content).entries[id] == EntryOf(content)
  {
    PutIsConsistent(c, id, content);
    SurvivesEvictionIff(maxSize, Put(c, id, content), id);
    EvictOnlyRemoves(maxSize, Put(c, id, content), id);
  }

  // In particular it must fit itself.
  lemma SurvivorFits(c: Cache, id: string, content: string)
    ensures TotalSize(LeftAt(Put(c, id, content), id)) >= |content|
  {
    NotAheadOfItself(c.order + [id], id);
    TotalWithout(LeftAt(Put(c, id, content), id), id);
  }

  // For an id without a position that is all.
  lemma CachedIffFits(maxSize: int, c: Cache, id: string, content: string)
    requires maxSize >= 0 && Consistent(c) && id !in c.order
    ensures id in StoreSpec(maxSize, c, id, content).entries <==> |content| <= maxSize
    ensures |content| <= maxSize ==> StoreSpec(maxSize, c, id, content).entries[id] == EntryOf(content)
    ensures |content| > maxSize ==> StoreSpec(maxSize, c, id, content) == EMPTY
  {
    var put := Put(c, id, content);
    StoredIsCachedIff(maxSize, c, id, content);
    PutIsConsistent(c, id, content);
    AheadAppend(c.order, [id], id);
    TotalWithout(LeftAt(put, id), id);
    assert LeftAt(put, id) - {id} == map[];
    if |content| > maxSize {
      OversizedEmpties(maxSize, put, id);
    }
  }

  lemma {:induction false} TwoStored(maxSize: int, first: Stored, second: Stored)
    requires first.id != second.id && |first.content| + |second.content| <= maxSize
    ensures var c := BufferAfter(maxSize, [first, second]);
            && Consistent(c) && c.order == [first.id, second.id]
            && c.entries == map[first.id := EntryOf(first.content), second.id := EntryOf(second.content)]
  {
    var log := [first, second];
    assert log[..1] == [first] && [first][..0] == [];
    var c1 := Put(EMPTY, first.id, first.content);
    assert BufferAfter(maxSize, [first]) == c1 && c1.order == [first.id] && c1.size == |first.content|;
    assert BufferAfter(maxSize, log) == Put(c1, second.id, second.content);
    SizeIsExact(maxSize, log);
  }

  // An id stored before another one survives only if both fit together, whatever its new content.
  lemma {:induction false} RestoredNeedsRoom(maxSize: int, first: Stored, second: Stored, content: string)
    requires first.id != second.id && |first.content| + |second.content| <= maxSize
    ensures Survives(maxSize, BufferAfter(maxSize, [first, second]), first.id, content)
            <==> |content| + |second.content| <= maxSize
  {
    TwoStored(maxSize, first, second);
    var put := Put(BufferAfter(maxSize, [first, second]), first.id, content);
    assert LeftAt(put, first.id) == put.entries;
    TotalOfTwo(put.entries, first.id, second.id);
  }

  lemma {:induction false} TotalOfTwo(m: map<string, BufferEntry>, a: string, b: string)
    requires a != b && m.Keys == {a, b}
    ensures TotalSize(m) == m[a].size + m[b].size
  {
    TotalWithout(m, a);
    TotalWithout(m - {a}, b);
    assert m - {a} - {b} == map[];
  }

  // The positions of an id that some other entry has a position behind.
  function Stale(c: Cache, id: string): nat {
    StalePositions(c.order, c.entries.Keys - {id}, id)
  }

  function StalePositions(order: seq<string>, others: set<string>, id: string): nat {
    if order == [] then 0
    else
      StalePositions(order[1..], others, id)
      + if order[0] == id && exists i :: 1 <= i < |order| && order[i] in others then 1 else 0
  }

  lemma {:induction false} StaleShrinks(order: seq<string>, others: set<string>, fewer: set<string>, id: string)
    requires fewer <= others
    ensures StalePositions(order, fewer, id) <= StalePositions(order, others, id)
  {
    if order != [] {
      StaleShrinks(order[1..], others, fewer, id);
    }
  }

  // A position at the very end is not stale, and makes no other stale.
  lemma {:induction false} FreshIsNotStale(order: seq<string>, others: set<string>, id: string)
    requires id !in others
    ensures StalePositions(order + [id], others, id) == StalePositions(order, others, id)
  {
    if order == [] {
      assert ([] + [id])[1..] == [];
    } else {
      var longer := order + [id];
      FreshIsNotStale(order[1..], others, id);
      assert longer[1..] == order[1..] + [id];
      assert forall i :: 0 <= i < |order| ==> longer[i] == order[i];
      assert longer[|order|] == id;
      if i :| 1 <= i < |order| && order[i] in others {
        assert longer[i] in others;
      }
    }
  }

  lemma PopIsNotStaler(c: Cache, id: string)
    requires c.order != []
    ensures Stale(Pop(c), id) <= Stale(c, id)
  {
    StaleShrinks(c.order[1..], c.entries.Keys - {id}, Pop(c).entries.Keys - {id}, id);
  }

  lemma {:induction false} EvictIsNotStaler(maxSize: int, c: Cache, id: string)
    ensures Stale(Evict(maxSize, c), id) <= Stale(c, id)
    decreases |c.order|
  {
    if c.size > maxSize && c.order != [] {
      PopIsNotStaler(c, id);
      EvictIsNotStaler(maxSize, Pop(c), id);
    }
  }

  lemma {:induction false} NotAheadComesLater(order: seq<string>, id: string, other: string)
    requires other in order && other != id && other !in Ahead(order, id)
    ensures order[0] == id ==> exists i :: 1 <= i < |order| && order[i] == other
    ensures order[0] != id ==> other in order[1..] && other !in Ahead(order[1..], id)
  {
    var i :| 0 <= i < |order| && order[i] == other;
    if order[0] != id {
      assert i > 0 && order[1..][i - 1] == other;
    }
  }

  // Evicting the id while another entry is left behind its first position uses that position up.
  lemma {:induction false} EvictionUsesStale(maxSize: int, c: Cache, id: string, other: string)
    requires Consistent(c) && id in c.entries && id !in Evict(maxSize, c).entries
    requires other in c.entries && other != id && other !in Ahead(c.order, id)
    ensures Stale(Evict(maxSize, c), id) < Stale(c, id)
    decreases |c.order|
  {
    PopIsConsistent(c);
    NotAheadComesLater(c.order, id, other);
    if c.order[0] == id {
      StaleShrinks(c.order[1..], c.entries.Keys - {id}, Pop(c).entries.Keys - {id}, id);
      EvictIsNotStaler(maxSize, Pop(c), id);
    } else {
      PopIsNotStaler(c, id);
      EvictionUsesStale(maxSize, Pop(c), id, other);
    }
  }

  // A fitting output that is lost in storing was evicted at a stale position.
  lemma LostUsesStale(maxSize: int, c: Cache, id: string, content: string)
    requires Consistent(c) && |content| <= maxSize && !Survives(maxSize, c, id, content)
    ensures Stale(StoreSpec(maxSize, c, id, content), id) < Stale(c, id)
  {
    var put := Put(c, id, content);
    PutIsConsistent(c, id, content);
    SurvivesEvictionIff(maxSize, put, id);
    NotAheadOfItself(put.order, id);
    TotalWithout(LeftAt(put, id), id);
    if LeftAt(put, id) - {id} == map[] {
      assert false;
    } else {
      var other :| other in LeftAt(put, id) - {id};
      EvictionUsesStale(maxSize, put, id, other);
      FreshIsNotStale(c.order, c.entries.Keys - {id}, id);
      assert put.entries.Keys - {id} == c.entries.Keys - {id};
    }
  }

  // An entry larger than the limit empties the buffer when its only position is the last.
  lemma {:induction false} OversizedEmpties(maxSize: int, c: Cache, id: string)
    requires maxSize >= 0 && Consistent(c) && id in c.entries && c.entries[id].size > maxSize
    requires c.order != [] && c.order[|c.order| - 1] == id && forall i :: 0 <= i < |c.order| - 1 ==> c.order[i] != id
    ensures Evict(maxSize, c) == EMPTY
    decreases |c.order|
  {
    hide TotalSize;
    TotalWithout(c.entries, id);
    PopIsConsistent(c);
    if |c.order| == 1 {
      AloneIsEvicted(maxSize, c, id);
    } else {
      PopKeepsSize(c, id);
      OversizedEmpties(maxSize, Pop(c), id);
    }
  }

  lemma {:induction false} AloneIsEvicted(maxSize: int, c: Cache, id: string)
    requires maxSize >= 0 && Consistent(c) && id in c.entries && c.entries[id].size > maxSize
    requires c.order == [id]
    ensures Evict(maxSize, c) == EMPTY
  {
    TotalWithout(c.entries, id);
    assert forall i :: i in c.entries ==> i == id;
    assert c.entries - {id} == map[] && c.order[1..] == [];
    assert Evict(maxSize, Pop(c)) == Pop(c);
  }

  // ---------------------------------------------------------------------------------------------
  // Storing an id again.

  // What the comment on Store says: the entry is updated and moved to the end of the order.
  function Documented(maxSize: int, c: Cache, id: string, content: string): Cache {
    var moved := Put(c, id, content);
    Evict(maxSize, moved.(order := Without(c.order, id) + [id]))
  }

  function Without(order: seq<string>, id: string): seq<string> {
    if order == [] then []
    else if order[0] == id then Without(order[1..], id)
    else [order[0]] + Without(order[1..], id)
  }

  lemma {:induction false} WithoutSnoc(order: seq<string>, id: string)
    ensures Without(order + [id], id) == Without(order, id)
  {
    if order == [] {
      assert [] + [id] == [id] && [id][1..] == [];
    } else {
      WithoutSnoc(order[1..], id);
      assert (order + [id])[1..] == order[1..] + [id];
    }
  }

  lemma {:induction false} WithoutAbsent(order: seq<string>, id: string)
    requires id !in order
    ensures Without(order, id) == order
  {
    if order != [] {
      WithoutAbsent(order[1..], id);
    }
  }

  lemma {:induction false} WithoutKeepsOthers(order: seq<string>, id: string)
    ensures id !in Without(order, id)
    ensures forall other :: other in order && other != id ==> other in Without(order, id)
  {
    if order != [] {
      WithoutKeepsOthers(order[1..], id);
      assert order == [order[0]] + order[1..];
    }
  }

  // Every other entry is reached by eviction before the first position of the id.
  ghost predicate OthersAhead(entries: map<string, BufferEntry>, order: seq<string>, id: string) {
    forall k :: k in entries && k != id ==> k in Ahead(order, id)
  }

  function Moved(c: Cache, id: string): Cache {
    c.(order := Without(c.order, id) + [id])
  }

  lemma MovedIsConsistent(c: Cache, id: string)
    requires Consistent(c)
    ensures Consistent(Moved(c, id))
    ensures Moved(c, id).order[|Moved(c, id).order| - 1] == id
    ensures forall i :: 0 <= i < |Moved(c, id).order| - 1 ==> Moved(c, id).order[i] != id
  {
    WithoutKeepsOthers(c.order, id);
  }

  lemma MovedPop(c: Cache, id: string)
    requires c.order != [] && c.order[0] != id
    ensures Pop(Moved(c, id)) == Moved(Pop(c), id)
  {
    assert (Without(c.order, id) + [id])[1..] == Without(c.order[1..], id) + [id];
  }

  // Then it makes no difference whether its stale positions are removed.
  lemma {:induction false} MovingIsNeutral(maxSize: int, c: Cache, id: string)
    requires maxSize >= 0 && Consistent(c) && id in c.entries && OthersAhead(c.entries, c.order, id)
    ensures Evict(maxSize, c).entries == Evict(maxSize, Moved(c, id)).entries
    decreases |c.order|
  {
    if c.size > maxSize {
      PopIsConsistent(c);
      if c.order[0] == id {
        OnlyEntry(maxSize, c, id);
      } else {
        MovedPop(c, id);
        MovingIsNeutral(maxSize, Pop(c), id);
      }
    }
  }

  lemma {:induction false} OnlyEntry(maxSize: int, c: Cache, id: string)
    requires maxSize >= 0 && Consistent(c) && c.order != [] && c.order[0] == id && id in c.entries && c.size > maxSize
    requires OthersAhead(c.entries, c.order, id)
    ensures Evict(maxSize, c).entries == Evict(maxSize, Moved(c, id)).entries
  {
    assert c.entries - {id} == map[];
    TotalWithout(c.entries, id);
    assert Evict(maxSize, Pop(c)) == Pop(c);
    MovedIsConsistent(c, id);
    OversizedEmpties(maxSize, Moved(c, id), id);
  }

  // An oversized entry is evicted at its first position, and what is only behind that stays.
  lemma {:induction false} StaleEvictsEarly(maxSize: int, c: Cache, id: string, other: string)
    requires maxSize >= 0 && Consistent(c) && id in c.entries && c.entries[id].size > maxSize
    requires c.size - c.entries[id].size <= maxSize
    requires other in c.entries && other != id && other !in Ahead(c.order, id)
    ensures other in Evict(maxSize, c).entries
    decreases |c.order|
  {
    TotalWithout(c.entries, id);
    UnorderedIsEmpty(c);
    PopIsConsistent(c);
    if c.order[0] == id {
      assert Evict(maxSize, Pop(c)) == Pop(c);
    } else {
      PopKeepsSize(c, id);
      StaleEvictsEarly(maxSize, Pop(c), id, other);
    }
  }

  lemma PopKeepsSize(c: Cache, id: string)
    requires c.order != [] && c.order[0] != id && id in c.entries
    ensures id in Pop(c).entries && Pop(c).entries[id] == c.entries[id] && Pop(c).size <= c.size
  {
  }

  function Oversized(maxSize: int): (content: string)
    requires maxSize >= 0
    ensures |content| == maxSize + 1
  {
    seq(maxSize + 1, _ => 'x')
  }

  // From any cache within its limit Store does what its comment says, whatever the content, exactly when
  // the id has no position yet or every other entry has one ahead of its first; otherwise the stale
  // position evicts a fresh entry that the comment would have kept longer.
  lemma {:induction false} StoreAsDocumentedIff(maxSize: int, c: Cache, id: string)
    requires maxSize >= 0 && Consistent(c) && c.size <= maxSize
    ensures (forall content ::
               StoreSpec(maxSize, c, id, content).entries == Documented(maxSize, c, id, content).entries)
            <==> id !in c.order || forall k :: k in c.entries && k != id ==> k in Ahead(c.order, id)
  {
    if id !in c.order {
      WithoutAbsent(c.order, id);
    } else if OthersAhead(c.entries, c.order, id) {
      forall content
        ensures StoreSpec(maxSize, c, id, content).entries == Documented(maxSize, c, id, content).entries
      {
        PutIsConsistent(c, id, content);
        AheadAppend(c.order, [id], id);
        WithoutSnoc(c.order, id);
        MovingIsNeutral(maxSize, Put(c, id, content), id);
      }
    } else {
      var other :| other in c.entries && other != id && other !in Ahead(c.order, id);
      StaleDiffers(maxSize, c, id, other);
    }
  }

  lemma {:induction false} StaleDiffers(maxSize: int, c: Cache, id: string, other: string)
    requires maxSize >= 0 && Consistent(c) && c.size <= maxSize && id in c.order
    requires other in c.entries && other != id && other !in Ahead(c.order, id)
    ensures StoreSpec(maxSize, c, id, Oversized(maxSize)).entries
            != Documented(maxSize, c, id, Oversized(maxSize)).entries
  {
    var put := Put(c, id, Oversized(maxSize));
    PutIsConsistent(c, id, Oversized(maxSize));
    AheadAppend(c.order, [id], id);
    StaleEvictsEarly(maxSize, put, id, other);
    WithoutSnoc(c.order, id);
    MovedIsConsistent(put, id);
    OversizedEmpties(maxSize, Moved(put, id), id);
  }
}
