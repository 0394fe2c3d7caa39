// memory_compress.go and memory.go: a bounded conversation history that summarises its middle.
module History {
  import opened Messages

  type Condition = Message -> bool

  function Max(a: int, b: int): int {
    if a > b then a else b
  }

  datatype Config = Config(recentWindow: int, maxMessages: int)

  ghost predicate Legal(c: Config) {
    c.maxMessages >= 1 && 0 <= c.recentWindow < c.maxMessages
  }

  // NewCompressMemory
  function MakeConfig(recentWindow: int, maxMessages: int): (c: Config)
    ensures Legal(c)
    ensures 0 < recentWindow < maxMessages ==> c == Config(recentWindow, maxMessages)
    ensures c.maxMessages == if maxMessages > 0 then maxMessages else 50
    ensures recentWindow <= 0 && c.maxMessages > 10 ==> c.recentWindow == 10
    ensures (if recentWindow > 0 then recentWindow else 10) >= c.maxMessages ==> c.recentWindow == c.maxMessages / 2
  {
    var rw := if recentWindow <= 0 then 10 else recentWindow;
    var mm := if maxMessages <= 0 then 50 else maxMessages;
    Config(if rw >= mm then mm / 2 else rw, mm)
  }

  // Where compress cuts n > 3 messages: the first and last zones, with the fallback.
  function KeepFirst(c: Config, n: nat): int {
    if Fallback(c, n) then 1 else Max(1, n / 10)
  }

  function KeepLast(c: Config, n: nat): int {
    if Fallback(c, n) then Max(1, n / 2) else Max(c.recentWindow, n / 10)
  }

  predicate Fallback(c: Config, n: nat) {
    Max(1, n / 10) + Max(c.recentWindow, n / 10) >= n
  }

  // All cuts stay in range and leave something to compress.
  lemma CutsAreInRange(c: Config, n: nat)
    requires n > 3 && c.recentWindow >= 0
    ensures 1 <= KeepFirst(c, n) && 0 <= KeepLast(c, n) && KeepFirst(c, n) + KeepLast(c, n) < n
  {
  }

  // ---------------------------------------------------------------------------------------------
  // The history with provenance: each stored message is an added one, known by its number, or a
  // summary, known by the numbers of the added messages it stands for.

  datatype Entry = Added(id: nat, msg: Message) | Summary(covers: multiset<nat>, msg: Message)

  predicate AnyOf(conditions: seq<Condition>, msg: Message) {
    exists i :: 0 <= i < |conditions| && conditions[i](msg)
  }

  datatype Policy = Policy(config: Config, keep: seq<Condition>, drop: seq<Condition>)

  // The three categories; keep wins over drop.
  datatype Class = Keep | Drop | Squeeze

  function ClassOf(p: Policy, e: Entry): Class {
    if AnyOf(p.keep, e.msg) then Keep else if AnyOf(p.drop, e.msg) then Drop else Squeeze
  }

  function Select(p: Policy, es: seq<Entry>, classes: set<Class>): seq<Entry> {
    if es == [] then []
    else
      var before, last := Select(p, es[..|es| - 1], classes), es[|es| - 1];
      if ClassOf(p, last) in classes then before + [last] else before
  }

  function Covers(es: seq<Entry>): multiset<nat> {
    if es == [] then multiset{} else Covers(es[..|es| - 1]) + CoversOf(es[|es| - 1])
  }

  function CoversOf(e: Entry): multiset<nat> {
    if e.Added? then multiset{e.id} else e.covers
  }

  function Msgs(es: seq<Entry>): (ms: seq<Message>)
    ensures |ms| == |es| && forall i :: 0 <= i < |es| ==> ms[i] == es[i].msg
  {
    seq(|es|, i requires 0 <= i < |es| => es[i].msg)
  }

  // The drop pre-pass.
  function Prepass(p: Policy, es: seq<Entry>): seq<Entry> {
    Select(p, es, {Keep, Squeeze})
  }

  datatype Zones = Zones(first: seq<Entry>, middle: seq<Entry>, recent: seq<Entry>)

  // Splitting n > 3 messages in three.
  function Cut(c: Config, es: seq<Entry>): (z: Zones)
    requires |es| > 3 && c.recentWindow >= 0
    ensures z.first + z.middle + z.recent == es && |z.middle| >= 1
    ensures |z.first| == KeepFirst(c, |es|) >= 1 && |z.recent| == KeepLast(c, |es|)
  {
    CutsAreInRange(c, |es|);
    var first, end := KeepFirst(c, |es|), |es| - KeepLast(c, |es|);
    Zones(es[..first], es[first..end], es[end..])
  }

  // The summary of the compressible part of the middle, if there is any.
  function SummaryOf(p: Policy, middle: seq<Entry>, text: string): seq<Entry> {
    var compressible := Select(p, middle, {Squeeze});
    if compressible == [] then [] else [Summary(Covers(compressible), UserMessage(text))]
  }

  function Assemble(p: Policy, z: Zones, text: string): seq<Entry> {
    z.first + SummaryOf(p, z.middle, text) + Select(p, z.middle, {Keep}) + z.recent
  }

  function Rebuild(p: Policy, es: seq<Entry>, text: string): seq<Entry>
    requires |es| > 3 && p.config.recentWindow >= 0
  {
    Assemble(p, Cut(p.config, es), text)
  }

  function CompressSpec(p: Policy, es: seq<Entry>, text: string): seq<Entry>
    requires p.config.recentWindow >= 0
  {
    var passed := Prepass(p, es);
    if |passed| <= 3 then passed else Rebuild(p, passed, text)
  }

  // One Add: the message, the outcome of the token trigger, and the text of the summary if one is made.
  datatype Addition = Addition(msg: Message, overTokens: bool, text: string)

  function AddSpec(p: Policy, es: seq<Entry>, id: nat, a: Addition): seq<Entry>
    requires p.config.recentWindow >= 0
  {
    var more := es + [Added(id, a.msg)];
    if |more| > p.config.maxMessages || a.overTokens then CompressSpec(p, more, a.text) else more
  }

  function StoredAfter(p: Policy, run: seq<Addition>): seq<Entry>
    requires p.config.recentWindow >= 0
  {
    if run == [] then [] else AddSpec(p, StoredAfter(p, run[..|run| - 1]), |run| - 1, run[|run| - 1])
  }

  // ---------------------------------------------------------------------------------------------

  class CompressMemory {
    var messages: seq<Message>
    const policy: Policy
    ghost var entries: seq<Entry>
    ghost var run: seq<Addition>

    constructor (recentWindow: int, maxMessages: int, keep: seq<Condition>, drop: seq<Condition>)
      ensures Valid() && run == [] && messages == []
      ensures policy == Policy(MakeConfig(recentWindow, maxMessages), keep, drop)
    {
      messages, entries, run := [], [], [];
      policy := Policy(MakeConfig(recentWindow, maxMessages), keep, drop);
    }

    ghost predicate Valid()
      reads this
    {
      policy.config.recentWindow >= 0 && messages == Msgs(entries) && entries == StoredAfter(policy, run)
    }

    method ShouldKeep(msg: Message) returns (kept: bool)
      ensures kept == AnyOf(policy.keep, msg)
    {
      for i := 0 to |policy.keep|
        invariant forall j :: 0 <= j < i ==> !policy.keep[j](msg)
      {
        if policy.keep[i](msg) {
          return true;
        }
      }
      return false;
    }

    method ShouldDrop(msg: Message) returns (dropped: bool)
      ensures dropped == AnyOf(policy.drop, msg)
    {
      for i := 0 to |policy.drop|
        invariant forall j :: 0 <= j < i ==> !policy.drop[j](msg)
      {
        if policy.drop[i](msg) {
          return true;
        }
      }
      return false;
    }

    method Add(a: Addition)
      requires Valid()
      modifies this
      ensures Valid() && run == old(run) + [a]
    {
      StoredSnoc(policy, run, a);
      messages := messages + [a.msg];
      entries := entries + [Added(|run|, a.msg)];
      run := run + [a];
      if |messages| > policy.config.maxMessages || a.overTokens {
        CompressHistory(a.text);
      }
    }

    // The pre-pass over all zones.
    method DropPass(ghost es: seq<Entry>) returns (filtered: seq<Message>)
      requires messages == Msgs(es)
      ensures filtered == Msgs(Prepass(policy, es))
    {
      if |policy.drop| == 0 {
        NothingDropped(policy, es);
        return messages;
      }
      filtered := [];
      for i := 0 to |messages|
        invariant filtered == Msgs(Prepass(policy, es[..i]))
      {
        assert es[..i + 1][..i] == es[..i];
        var drop := ShouldDrop(messages[i]);
        var keep := ShouldKeep(messages[i]);
        if drop && !keep {
          continue;
        }
        filtered := filtered + [messages[i]];
      }
      assert es[..|messages|] == es;
    }

    // The three-way split of the middle.
    method Split(middle: seq<Message>, ghost es: seq<Entry>) returns (pinned: seq<Message>, compressible: seq<Message>)
      requires middle == Msgs(es)
      ensures pinned == Msgs(Select(policy, es, {Keep})) && compressible == Msgs(Select(policy, es, {Squeeze}))
    {
      pinned, compressible := [], [];
      for i := 0 to |middle|
        invariant pinned == Msgs(Select(policy, es[..i], {Keep}))
                  && compressible == Msgs(Select(policy, es[..i], {Squeeze}))
      {
        assert es[..i + 1][..i] == es[..i];
        var keep := ShouldKeep(middle[i]);
        var drop := ShouldDrop(middle[i]);
        if keep {
          pinned := pinned + [middle[i]];
        } else if drop {
        } else {
          compressible := compressible + [middle[i]];
        }
      }
      assert es[..|middle|] == es;
    }

    // The dynamic split: the first tenth and the recent window or last tenth are left alone.
    method Cuts(n: nat) returns (keepFirst: int, keepLast: int)
      requires n > 3 && policy.config.recentWindow >= 0
      ensures keepFirst == KeepFirst(policy.config, n) && keepLast == KeepLast(policy.config, n)
      ensures 1 <= keepFirst && 0 <= keepLast && keepFirst + keepLast < n
    {
      keepFirst := Max(1, n / 10);
      keepLast := Max(policy.config.recentWindow, n / 10);
      if keepFirst + keepLast >= n {
        keepFirst := 1;
        keepLast := Max(1, n / 2);
      }
    }

    // Splitting and rebuilding, for more than three messages.
    method RebuildHistory(text: string, ghost es: seq<Entry>) returns (result: seq<Message>)
      requires policy.config.recentWindow >= 0 && messages == Msgs(es) && |es| > 3
      ensures result == Msgs(Rebuild(policy, es, text))
    {
      var keepFirst, keepLast := Cuts(|messages|);
      MsgsOfMiddle(policy.config, es);
      MsgsOfRebuild(policy, es, text);
      var first, middle, recent :=
        messages[..keepFirst], messages[keepFirst..|messages| - keepLast], messages[|messages| - keepLast..];
      var pinned, compressible := Split(middle, Cut(policy.config, es).middle);
      var summary := if |compressible| > 0 then [UserMessage(text)] else [];
      result := first + summary + pinned + recent;
    }

    method CompressHistory(text: string)
      requires policy.config.recentWindow >= 0 && messages == Msgs(entries)
      modifies `messages, `entries
      ensures entries == CompressSpec(policy, old(entries), text) && messages == Msgs(entries)
    {
      messages := DropPass(entries);
      entries := Prepass(policy, entries);
      if |messages| <= 3 {
        return;
      }
      messages := RebuildHistory(text, entries);
      entries := Rebuild(policy, entries, text);
    }
  }

  lemma {:induction false} StoredSnoc(p: Policy, run: seq<Addition>, a: Addition)
    requires p.config.recentWindow >= 0
    ensures StoredAfter(p, run + [a]) == AddSpec(p, StoredAfter(p, run), |run|, a)
  {
    var all := run + [a];
    assert all[..|all| - 1] == run && all[|all| - 1] == a && |all| - 1 == |run|;
  }

  lemma MsgsAppend(a: seq<Entry>, b: seq<Entry>)
    ensures Msgs(a + b) == Msgs(a) + Msgs(b)
  {
  }

  lemma MsgsOfCut(c: Config, es: seq<Entry>)
    requires |es| > 3 && c.recentWindow >= 0
    ensures var z, end := Cut(c, es), |es| - KeepLast(c, |es|);
            && KeepFirst(c, |es|) <= end <= |es|
            && Msgs(z.first) == Msgs(es)[..KeepFirst(c, |es|)] && Msgs(z.middle) == Msgs(es)[KeepFirst(c, |es|)..end]
            && Msgs(z.recent) == Msgs(es)[end..]
  {
    CutsAreInRange(c, |es|);
  }

  lemma {:induction false} MsgsOfMiddle(c: Config, es: seq<Entry>)
    requires |es| > 3 && c.recentWindow >= 0
    ensures var end := |es| - KeepLast(c, |es|);
            0 <= KeepFirst(c, |es|) <= end <= |es| && Msgs(Cut(c, es).middle) == Msgs(es)[KeepFirst(c, |es|)..end]
  {
    MsgsOfCut(c, es);
  }

  lemma {:induction false} MsgsOfAssemble(p: Policy, z: Zones, text: string)
    ensures Msgs(Assemble(p, z, text))
            == Msgs(z.first) + (if |Select(p, z.middle, {Squeeze})| > 0 then [UserMessage(text)] else [])
                                          + Msgs(Select(p, z.middle, {Keep})) + Msgs(z.recent)
  {
    var summary, pinned := SummaryOf(p, z.middle, text), Select(p, z.middle, {Keep});
    MsgsAppend(z.first + summary + pinned, z.recent);
    MsgsAppend(z.first + summary, pinned);
    MsgsAppend(z.first, summary);
  }

  lemma {:induction false} MsgsOfRebuild(p: Policy, es: seq<Entry>, text: string)
    requires |es| > 3 && p.config.recentWindow >= 0
    ensures var middle, end := Cut(p.config, es).middle, |es| - KeepLast(p.config, |es|);
            && 0 <= KeepFirst(p.config, |es|) <= end <= |es|
            && Msgs(Rebuild(p, es, text))
               == Msgs(es)[..KeepFirst(p.config, |es|)]
                 + (if |Select(p, middle, {Squeeze})| > 0 then [UserMessage(text)] else [])
                  + Msgs(Select(p, middle, {Keep})) + Msgs(es)[end..]
  {
    MsgsOfCut(p.config, es);
    MsgsOfAssemble(p, Cut(p.config, es), text);
  }

  lemma {:induction false} NothingDropped(p: Policy, es: seq<Entry>)
    requires p.drop == []
    ensures Prepass(p, es) == es
  {
    if es != [] {
      NothingDropped(p, es[..|es| - 1]);
      assert es == es[..|es| - 1] + [es[|es| - 1]];
    }
  }

  // memory.go: WindowMemory
  class WindowMemory {
    var messages: seq<Message>
    const size: int
    ghost var log: seq<Message>

    constructor (n: int)
      ensures size == n && log == [] && (n >= 0 ==> Valid())
    {
      messages, log, size := [], [], n;
    }

    ghost predicate Valid()
      reads this
    {
      size >= 0 && messages == LastOf(log, size)
    }

    method Add(msg: Message)
      requires Valid()
      modifies this
      ensures Valid() && log == old(log) + [msg]
    {
      messages := messages + [msg];
      log := log + [msg];
      if |messages| > size {
        messages := messages[|messages| - size..];
      }
    }
  }

  function LastOf<T>(s: seq<T>, n: nat): (r: seq<T>)
    ensures |r| == (if |s| < n then |s| else n) && r == s[|s| - |r|..]
  {
    if |s| <= n then s else s[|s| - n..]
  }
}
