// What CompressMemory promises over any run of Add.
module HistoryFacts {
  import opened Messages
  import opened History

  function AllAdded(run: seq<Addition>): (es: seq<Entry>)
    ensures |es| == |run| && forall i :: 0 <= i < |run| ==> es[i] == Added(i, run[i].msg)
  {
    seq(|run|, i requires 0 <= i < |run| => Added(i, run[i].msg))
  }

  lemma AllAddedSnoc(run: seq<Addition>)
    requires run != []
    ensures AllAdded(run) == AllAdded(run[..|run| - 1]) + [Added(|run| - 1, run[|run| - 1].msg)]
  {
  }

  lemma {:induction false} SelectIsWithin(p: Policy, es: seq<Entry>, classes: set<Class>)
    ensures |Select(p, es, classes)| <= |es|
    ensures forall i :: 0 <= i < |Select(p, es, classes)| ==> ClassOf(p, Select(p, es, classes)[i]) in classes
    ensures (forall i :: 0 <= i < |es| ==> ClassOf(p, es[i]) in classes) ==> Select(p, es, classes) == es
  {
    if es != [] {
      SelectIsWithin(p, es[..|es| - 1], classes);
    }
    if forall i :: 0 <= i < |es| ==> ClassOf(p, es[i]) in classes {
      SelectAll(p, es, classes);
    }
  }

  lemma {:induction false} SelectAll(p: Policy, es: seq<Entry>, classes: set<Class>)
    requires forall i :: 0 <= i < |es| ==> ClassOf(p, es[i]) in classes
    ensures Select(p, es, classes) == es
  {
    if es != [] {
      var rest, last := es[..|es| - 1], es[|es| - 1];
      SelectAll(p, rest, classes);
      assert ClassOf(p, last) in classes;
      assert es == rest + [last];
    }
  }

  // ---------------------------------------------------------------------------------------------
  // Order: the added messages still stored, and among them those that match a keep condition.

  // The added messages of the given classes, in order.
  function Genuine(p: Policy, es: seq<Entry>, classes: set<Class>): seq<Entry> {
    if es == [] then []
    else
      var before, last := Genuine(p, es[..|es| - 1], classes), es[|es| - 1];
      if last.Added? && ClassOf(p, last) in classes then before + [last] else before
  }

  ghost predicate Subsequence(a: seq<Entry>, b: seq<Entry>) {
    a == [] || (b != [] && (Subsequence(a, b[..|b| - 1])
                            || (a[|a| - 1] == b[|b| - 1] && Subsequence(a[..|a| - 1], b[..|b| - 1]))))
  }

  lemma {:induction false} GenuineAppend(p: Policy, a: seq<Entry>, b: seq<Entry>, classes: set<Class>)
    ensures Genuine(p, a + b, classes) == Genuine(p, a, classes) + Genuine(p, b, classes)
  {
    if b == [] {
      assert a + b == a;
    } else {
      GenuineAppend(p, a, b[..|b| - 1], classes);
      assert (a + b)[..|a + b| - 1] == a + b[..|b| - 1];
    }
  }

  lemma {:induction false} GenuineSnoc(p: Policy, es: seq<Entry>, e: Entry, classes: set<Class>)
    ensures Genuine(p, es + [e], classes) == if e.Added? && ClassOf(p, e) in classes then Genuine(p, es, classes) + [e]
            else Genuine(p, es, classes)
  {
    assert (es + [e])[..|es|] == es;
  }

  lemma {:induction false} GenuineOfSelect(p: Policy, es: seq<Entry>, classes: set<Class>, among: set<Class>)
    ensures Genuine(p, Select(p, es, among), classes) == Genuine(p, es, classes * among)
  {
    if es != [] {
      var last := es[|es| - 1];
      GenuineOfSelect(p, es[..|es| - 1], classes, among);
      if ClassOf(p, last) in among {
        GenuineSnoc(p, Select(p, es[..|es| - 1], among), last, classes);
      }
    }
  }

  // A summary is not an added message, so assembling only removes the squeezed ones from the middle.
  lemma {:induction false} GenuineOfAssemble(p: Policy, z: Zones, text: string, classes: set<Class>)
    ensures Genuine(p, Assemble(p, z, text), classes)
            == Genuine(p, z.first, classes) + Genuine(p, z.middle, classes * {Keep}) + Genuine(p, z.recent, classes)
    ensures Genuine(p, z.first + z.middle + z.recent, classes)
            == Genuine(p, z.first, classes) + Genuine(p, z.middle, classes) + Genuine(p, z.recent, classes)
  {
    var summary, pinned := SummaryOf(p, z.middle, text), Select(p, z.middle, {Keep});
    GenuineAppend(p, z.first + summary + pinned, z.recent, classes);
    GenuineAppend(p, z.first + summary, pinned, classes);
    GenuineOfSelect(p, z.middle, classes, {Keep});
    if summary == [] {
      assert z.first + summary == z.first;
    } else {
      GenuineSnoc(p, z.first, summary[0], classes);
    }
    GenuineAppend(p, z.first + z.middle, z.recent, classes);
    GenuineAppend(p, z.first, z.middle, classes);
  }

  lemma {:induction false} KeptSurviveCompress(p: Policy, es: seq<Entry>, text: string)
    requires p.config.recentWindow >= 0
    ensures Genuine(p, CompressSpec(p, es, text), {Keep}) == Genuine(p, es, {Keep})
  {
    var passed := Prepass(p, es);
    GenuineOfSelect(p, es, {Keep}, {Keep, Squeeze});
    assert {Keep} * {Keep, Squeeze} == {Keep};
    if |passed| > 3 {
      GenuineOfAssemble(p, Cut(p.config, passed), text, {Keep});
      assert {Keep} * {Keep} == {Keep};
    }
  }

  // Every added message that matches a keep condition is still stored, in the order added, whatever
  // drop conditions it also matches.
  lemma {:induction false} KeptMessagesSurvive(p: Policy, run: seq<Addition>)
    requires p.config.recentWindow >= 0
    ensures Genuine(p, StoredAfter(p, run), {Keep}) == Genuine(p, AllAdded(run), {Keep})
  {
    if run != [] {
      var rest := run[..|run| - 1];
      var last := Added(|run| - 1, run[|run| - 1].msg);
      KeptMessagesSurvive(p, rest);
      AllAddedSnoc(run);
      GenuineAppend(p, AllAdded(rest), [last], {Keep});
      GenuineAppend(p, StoredAfter(p, rest), [last], {Keep});
      KeptSurviveCompress(p, StoredAfter(p, rest) + [last], run[|run| - 1].text);
    }
  }

  lemma {:induction false} SubsequenceAppend(a: seq<Entry>, b: seq<Entry>, c: seq<Entry>, d: seq<Entry>)
    requires Subsequence(a, b) && Subsequence(c, d)
    ensures Subsequence(a + c, b + d)
    decreases |d|
  {
    if c == [] {
      assert a + c == a;
      if d == [] {
        assert b + d == b;
      } else {
        SubsequenceAppend(a, b, c, d[..|d| - 1]);
        assert (b + d)[..|b + d| - 1] == b + d[..|d| - 1];
      }
    } else {
      assert (b + d)[..|b + d| - 1] == b + d[..|d| - 1];
      assert (a + c)[..|a + c| - 1] == a + c[..|c| - 1];
      if Subsequence(c, d[..|d| - 1]) {
        SubsequenceAppend(a, b, c, d[..|d| - 1]);
      } else {
        SubsequenceAppend(a, b, c[..|c| - 1], d[..|d| - 1]);
      }
    }
  }

  lemma {:induction false} FewerClasses(p: Policy, es: seq<Entry>, some: set<Class>, all: set<Class>)
    requires some <= all
    ensures Subsequence(Genuine(p, es, some), Genuine(p, es, all))
  {
    if es != [] {
      FewerClasses(p, es[..|es| - 1], some, all);
    }
  }

  lemma {:induction false} SubsequenceTrans(a: seq<Entry>, b: seq<Entry>, c: seq<Entry>)
    requires Subsequence(a, b) && Subsequence(b, c)
    ensures Subsequence(a, c)
    decreases |c|
  {
    if a != [] {
      if Subsequence(b, c[..|c| - 1]) {
        SubsequenceTrans(a, b, c[..|c| - 1]);
      } else if Subsequence(a, b[..|b| - 1]) {
        SubsequenceTrans(a, b[..|b| - 1], c[..|c| - 1]);
      } else {
        SubsequenceTrans(a[..|a| - 1], b[..|b| - 1], c[..|c| - 1]);
      }
    }
  }

  const ANY: set<Class> := {Keep, Drop, Squeeze}

  lemma {:induction false} AssembleOnlyRemoves(p: Policy, z: Zones, text: string)
    ensures Subsequence(Genuine(p, Assemble(p, z, text), ANY), Genuine(p, z.first + z.middle + z.recent, ANY))
  {
    GenuineOfAssemble(p, z, text, ANY);
    FewerClasses(p, z.first, ANY, ANY);
    FewerClasses(p, z.middle, ANY * {Keep}, ANY);
    FewerClasses(p, z.recent, ANY, ANY);
    SubsequenceAppend(Genuine(p, z.first, ANY), Genuine(p, z.first, ANY), Genuine(p, z.middle, ANY * {Keep}),
      Genuine(p, z.middle, ANY));
    SubsequenceAppend(Genuine(p, z.first, ANY) + Genuine(p, z.middle, ANY * {Keep}),
      Genuine(p, z.first, ANY) + Genuine(p, z.middle, ANY),
                      Genuine(p, z.recent, ANY), Genuine(p, z.recent, ANY));
  }

  lemma {:induction false} CompressOnlyRemoves(p: Policy, es: seq<Entry>, text: string)
    requires p.config.recentWindow >= 0
    ensures Subsequence(Genuine(p, CompressSpec(p, es, text), ANY), Genuine(p, es, ANY))
  {
    var passed := Prepass(p, es);
    GenuineOfSelect(p, es, ANY, {Keep, Squeeze});
    FewerClasses(p, es, ANY * {Keep, Squeeze}, ANY);
    if |passed| > 3 {
      AssembleOnlyRemoves(p, Cut(p.config, passed), text);
      SubsequenceTrans(Genuine(p, Rebuild(p, passed, text), ANY), Genuine(p, passed, ANY), Genuine(p, es, ANY));
    }
  }

  // With the summaries erased, what is stored is an order-preserving subsequence of what was added.
  lemma {:induction false} StoredIsASubsequence(p: Policy, run: seq<Addition>)
    requires p.config.recentWindow >= 0
    ensures Subsequence(Genuine(p, StoredAfter(p, run), ANY), AllAdded(run))
  {
    if run != [] {
      StoredIsASubsequence(p, run[..|run| - 1]);
      AllAddedSnoc(run);
      SubsequenceStep(p, StoredAfter(p, run[..|run| - 1]), |run| - 1, run[|run| - 1], AllAdded(run[..|run| - 1]));
    }
  }

  lemma {:induction false} SubsequenceStep(p: Policy, es: seq<Entry>, id: nat, a: Addition, log: seq<Entry>)
    requires p.config.recentWindow >= 0 && Subsequence(Genuine(p, es, ANY), log)
    ensures Subsequence(Genuine(p, AddSpec(p, es, id, a), ANY), log + [Added(id, a.msg)])
  {
    var last := Added(id, a.msg);
    GenuineSnoc(p, es, last, ANY);
    assert ClassOf(p, last) in ANY;
    assert [last][..0] == [] && Subsequence([], []);
    SubsequenceAppend(Genuine(p, es, ANY), log, [last], [last]);
    CompressOnlyRemoves(p, es + [last], a.text);
    if AddSpec(p, es, id, a) != es + [last] {
      SubsequenceTrans(Genuine(p, AddSpec(p, es, id, a), ANY), Genuine(p, es + [last], ANY), log + [last]);
    }
  }

  // The shape of a compressed history: with n messages left by the drop conditions, the first tenth, at
  // least one, and the recent window, or the last tenth if that is more, stay as they are; if they leave
  // nothing in between, the first message and the last half.  What is in between becomes one summary,
  // followed by its messages that a keep condition matches.
  lemma CompressedShape(p: Policy, es: seq<Entry>, text: string) returns (first: nat, last: nat)
    requires p.config.recentWindow >= 0 && |Prepass(p, es)| > 3
    ensures var passed := Prepass(p, es);
            var n, tenth := |passed|, if |passed| / 10 > 1 then |passed| / 10 else 1;
            var recent := if p.config.recentWindow > n / 10 then p.config.recentWindow else n / 10;
            && first + last < n
            && (first, last) == (if tenth + recent < n then (tenth, recent) else (1, n / 2))
            && CompressSpec(p, es, text)
               == passed[..first] + SummaryOf(p, passed[first..n - last], text)
                  + Select(p, passed[first..n - last], {Keep}) + passed[n - last..]
  {
    var passed := Prepass(p, es);
    first, last := KeepFirst(p.config, |passed|), KeepLast(p.config, |passed|);
    CutsAreInRange(p.config, |passed|);
  }

  // An addition over the message limit, or over the token threshold, leaves a compressed history.
  lemma {:induction false} AdditionCompressesIff(p: Policy, run: seq<Addition>, a: Addition)
    requires p.config.recentWindow >= 0
    ensures var more := StoredAfter(p, run) + [Added(|run|, a.msg)];
            StoredAfter(p, run + [a])
            == if |StoredAfter(p, run)| >= p.config.maxMessages || a.overTokens then CompressSpec(p, more, a.text)
              else more
  {
    StoredSnoc(p, run, a);
  }

  // ---------------------------------------------------------------------------------------------
  // Conservation: every added message is stored, stands in a stored summary, or was dropped.

  // How often added message number `id` is stored or stands in a stored summary.
  function Count(es: seq<Entry>, id: nat): int {
    if es == [] then 0 else Count(es[..|es| - 1], id) + CoversOf(es[|es| - 1])[id]
  }

  lemma {:induction false} CountIsCover(es: seq<Entry>, id: nat)
    ensures Covers(es)[id] == Count(es, id)
  {
    if es != [] {
      CountIsCover(es[..|es| - 1], id);
    }
  }

  lemma {:induction false} CountSnoc(es: seq<Entry>, e: Entry, id: nat)
    ensures Count(es + [e], id) == Count(es, id) + CoversOf(e)[id]
  {
    assert (es + [e])[..|es|] == es;
  }

  lemma {:induction false} CountAppend(a: seq<Entry>, b: seq<Entry>, id: nat)
    ensures Count(a + b, id) == Count(a, id) + Count(b, id)
  {
    if b == [] {
      assert a + b == a;
    } else {
      CountAppend(a, b[..|b| - 1], id);
      assert (a + b)[..|a + b| - 1] == a + b[..|b| - 1];
    }
  }

  lemma CountSelect(p: Policy, es: seq<Entry>, classes: set<Class>, id: nat)
    requires es != []
    ensures Count(Select(p, es, classes), id) == Count(Select(p, es[..|es| - 1], classes), id)
            + if ClassOf(p, es[|es| - 1]) in classes then CoversOf(es[|es| - 1])[id] else 0
  {
    CountSnoc(Select(p, es[..|es| - 1], classes), es[|es| - 1], id);
  }

  // The three classes partition a history.
  lemma {:induction false} ClassesPartition(p: Policy, es: seq<Entry>, id: nat)
    ensures Count(Select(p, es, {Keep, Squeeze}), id) + Count(Select(p, es, {Drop}), id) == Count(es, id)
    ensures Count(Select(p, es, {Keep}), id) + Count(Select(p, es, {Squeeze}), id)
            == Count(Select(p, es, {Keep, Squeeze}), id)
  {
    if es != [] {
      ClassesPartition(p, es[..|es| - 1], id);
      CountSelect(p, es, {Keep, Squeeze}, id);
      CountSelect(p, es, {Keep}, id);
      CountSelect(p, es, {Squeeze}, id);
      CountSelect(p, es, {Drop}, id);
    }
  }

  // How often message number `id` was discarded by a drop condition, directly or inside a summary.
  function Discarded(p: Policy, run: seq<Addition>, id: nat): int
    requires p.config.recentWindow >= 0
  {
    if run == [] then 0
    else
      var rest, a := run[..|run| - 1], run[|run| - 1];
      var more := StoredAfter(p, rest) + [Added(|rest|, a.msg)];
      Discarded(p, rest, id) + if |more| > p.config.maxMessages || a.overTokens then
        Count(Select(p, more, {Drop}), id) else 0
  }

  lemma {:induction false} AssembleConserves(p: Policy, z: Zones, text: string, id: nat)
    requires Select(p, z.middle, {Keep, Squeeze}) == z.middle
    ensures Count(Assemble(p, z, text), id) == Count(z.first + z.middle + z.recent, id)
  {
    var summary, pinned := SummaryOf(p, z.middle, text), Select(p, z.middle, {Keep});
    ClassesPartition(p, z.middle, id);
    SummaryCounts(Select(p, z.middle, {Squeeze}), UserMessage(text), id);
    CountAppend(z.first + summary + pinned, z.recent, id);
    CountAppend(z.first + summary, pinned, id);
    CountAppend(z.first, summary, id);
    CountAppend(z.first + z.middle, z.recent, id);
    CountAppend(z.first, z.middle, id);
  }

  lemma SummaryCounts(compressible: seq<Entry>, msg: Message, id: nat)
    ensures Count(if compressible == [] then [] else [Summary(Covers(compressible), msg)], id)
            == Count(compressible, id)
  {
    CountIsCover(compressible, id);
    CountSnoc([], Summary(Covers(compressible), msg), id);
    assert [] + [Summary(Covers(compressible), msg)] == [Summary(Covers(compressible), msg)];
  }

  lemma {:induction false} CompressConserves(p: Policy, es: seq<Entry>, text: string, id: nat)
    requires p.config.recentWindow >= 0
    ensures Count(CompressSpec(p, es, text), id) + Count(Select(p, es, {Drop}), id) == Count(es, id)
  {
    ClassesPartition(p, es, id);
    SelectIsWithin(p, es, {Keep, Squeeze});
    if |Prepass(p, es)| > 3 {
      RebuildConserves(p, Prepass(p, es), text, id);
    }
  }

  lemma {:induction false} RebuildConserves(p: Policy, passed: seq<Entry>, text: string, id: nat)
    requires p.config.recentWindow >= 0 && |passed| > 3 && forall e :: e in passed ==> ClassOf(p, e) in {Keep, Squeeze}
    ensures Count(Rebuild(p, passed, text), id) == Count(passed, id)
  {
    var z := Cut(p.config, passed);
    MiddleIsWithin(p, z.first, z.middle, z.recent);
    AssembleConserves(p, z, text, id);
  }

  lemma {:induction false} MiddleIsWithin(p: Policy, a: seq<Entry>, b: seq<Entry>, c: seq<Entry>)
    requires forall e :: e in a + b + c ==> ClassOf(p, e) in {Keep, Squeeze}
    ensures Select(p, b, {Keep, Squeeze}) == b
  {
    forall i | 0 <= i < |b|
      ensures ClassOf(p, b[i]) in {Keep, Squeeze}
    {
      assert (a + b + c)[|a| + i] == b[i];
    }
    SelectIsWithin(p, b, {Keep, Squeeze});
  }

  lemma {:induction false} ConserveStep(p: Policy, es: seq<Entry>, added: nat, a: Addition, id: nat)
    requires p.config.recentWindow >= 0
    ensures var more := es + [Added(added, a.msg)];
            Count(AddSpec(p, es, added, a), id)
            + (if |more| > p.config.maxMessages || a.overTokens then Count(Select(p, more, {Drop}), id) else 0)
            == Count(es, id) + if id == added then 1 else 0
  {
    var last := Added(added, a.msg);
    CountSnoc(es, last, id);
    assert CoversOf(last)[id] == if id == added then 1 else 0;
    CompressConserves(p, es + [last], a.text, id);
  }

  // Over any run, each added message is stored, stands in one stored summary, or was discarded: it is
  // counted exactly once.
  lemma {:induction false} HistoryIsConserved(p: Policy, run: seq<Addition>, id: nat)
    requires p.config.recentWindow >= 0
    ensures Count(StoredAfter(p, run), id) + Discarded(p, run, id) == if id < |run| then 1 else 0
  {
    if run != [] {
      HistoryIsConserved(p, run[..|run| - 1], id);
      ConserveStep(p, StoredAfter(p, run[..|run| - 1]), |run| - 1, run[|run| - 1], id);
    }
  }

  lemma {:induction false} NothingIsDropped(p: Policy, es: seq<Entry>)
    requires p.drop == []
    ensures Select(p, es, {Drop}) == []
  {
    if es != [] {
      NothingIsDropped(p, es[..|es| - 1]);
    }
  }

  // Without drop conditions every added message is stored itself or stands in exactly one stored summary.
  lemma {:induction false} EveryMessageIsAccountedFor(p: Policy, run: seq<Addition>, id: nat)
    requires p.config.recentWindow >= 0 && p.drop == []
    ensures Covers(StoredAfter(p, run))[id] == if id < |run| then 1 else 0
    ensures Discarded(p, run, id) == 0
  {
    CountIsCover(StoredAfter(p, run), id);
    HistoryIsConserved(p, run, id);
    if run != [] {
      var rest := run[..|run| - 1];
      EveryMessageIsAccountedFor(p, rest, id);
      NothingIsDropped(p, StoredAfter(p, rest) + [Added(|rest|, run[|run| - 1].msg)]);
    }
  }

  lemma InOneOfFour(e: Entry, a: seq<Entry>, b: seq<Entry>, c: seq<Entry>, d: seq<Entry>)
    requires e in a + b + c + d
    ensures e in a || e in b || e in c || e in d
  {
  }

  lemma InNeitherEnd(e: Entry, a: seq<Entry>, b: seq<Entry>, c: seq<Entry>)
    requires e !in a + b + c
    ensures e !in a && e !in c
  {
    var all := a + b + c;
    assert forall i :: 0 <= i < |a| ==> all[i] == a[i];
    assert forall i :: 0 <= i < |c| ==> all[|a| + |b| + i] == c[i];
  }

  // Compression leaves no message that a drop condition takes, in any zone, but for its own summary.
  lemma DroppedDoNotSurvive(p: Policy, es: seq<Entry>, text: string, e: Entry)
    requires p.config.recentWindow >= 0
    requires e in CompressSpec(p, es, text) && ClassOf(p, e) == Drop
    ensures e.Summary? && e.msg == UserMessage(text)
  {
    SelectIsWithin(p, es, {Keep, Squeeze});
    assert e !in Prepass(p, es);
    if |Prepass(p, es)| > 3 {
      OnlySummaryIsNew(p, Prepass(p, es), text, e);
    }
  }

  lemma OnlySummaryIsNew(p: Policy, passed: seq<Entry>, text: string, e: Entry)
    requires p.config.recentWindow >= 0 && |passed| > 3 && e !in passed && ClassOf(p, e) == Drop
    requires e in Rebuild(p, passed, text)
    ensures e.Summary? && e.msg == UserMessage(text)
  {
    var z := Cut(p.config, passed);
    SelectIsWithin(p, z.middle, {Keep});
    InNeitherEnd(e, z.first, z.middle, z.recent);
    InOneOfFour(e, z.first, SummaryOf(p, z.middle, text), Select(p, z.middle, {Keep}), z.recent);
  }

  // The first message ever added stays first, unless a drop condition takes it.
  lemma {:induction false} FirstMessageStays(p: Policy, run: seq<Addition>)
    requires p.config.recentWindow >= 0 && run != [] && ClassOf(p, Added(0, run[0].msg)) != Drop
    ensures StoredAfter(p, run) != [] && StoredAfter(p, run)[0] == Added(0, run[0].msg)
  {
    var rest := run[..|run| - 1];
    var more := StoredAfter(p, rest) + [Added(|rest|, run[|run| - 1].msg)];
    if rest != [] {
      FirstMessageStays(p, rest);
    }
    FirstIsSelected(p, more);
    var passed := Prepass(p, more);
    if |passed| > 3 {
      CutsAreInRange(p.config, |passed|);
    }
  }

  lemma {:induction false} FirstIsSelected(p: Policy, es: seq<Entry>)
    requires es != [] && ClassOf(p, es[0]) != Drop
    ensures Prepass(p, es) != [] && Prepass(p, es)[0] == es[0]
  {
    if |es| > 1 {
      FirstIsSelected(p, es[..|es| - 1]);
    } else {
      assert Select(p, es[..|es| - 1], {Keep, Squeeze}) == [] && ClassOf(p, es[|es| - 1]) in {Keep, Squeeze};
    }
  }
}
