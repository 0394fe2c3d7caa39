// How long a compressed history can get, and how much of the recent past it is sure to hold.
module HistoryBounds {
  import opened Messages
  import opened History
  import opened HistoryFacts

  ghost predicate KeepsNothing(p: Policy) {
    forall m: Message :: !AnyOf(p.keep, m)
  }

  // ---------------------------------------------------------------------------------------------
  // Length.

  // The length after compressing n > 3 messages of which none is pinned.
  function SplitLength(c: Config, n: nat): int {
    KeepFirst(c, n) + 1 + KeepLast(c, n)
  }

  // The lengths a history can reach: above the limit only where compressing does not shorten.
  ghost predicate Reachable(c: Config, len: nat) {
    || len <= c.maxMessages
    || len <= 3
    || (len == c.maxMessages + 1 && SplitLength(c, c.maxMessages + 1) == c.maxMessages + 1)
    || (len == c.maxMessages + 2 && SplitLength(c, c.maxMessages + 1) == c.maxMessages + 1
        && SplitLength(c, c.maxMessages + 2) == c.maxMessages + 2)
  }

  lemma SplitStaysReachable(c: Config, len: nat, n: nat)
    requires Legal(c) && Reachable(c, len) && 3 < n <= len + 1
    ensures Reachable(c, SplitLength(c, n))
  {
    CutsAreInRange(c, n);
    assert SplitLength(c, n) <= n;
  }

  lemma {:induction false} PinsNothing(p: Policy, es: seq<Entry>)
    requires KeepsNothing(p)
    ensures Select(p, es, {Keep}) == []
    ensures (forall i :: 0 <= i < |es| ==> ClassOf(p, es[i]) in {Keep, Squeeze}) ==> Select(p, es, {Squeeze}) == es
  {
    SelectIsWithin(p, es, {Squeeze});
    SelectNone(p, es, {Keep});
  }

  lemma {:induction false} SelectNone(p: Policy, es: seq<Entry>, classes: set<Class>)
    requires forall i :: 0 <= i < |es| ==> ClassOf(p, es[i]) !in classes
    ensures Select(p, es, classes) == []
  {
    if es != [] {
      SelectNone(p, es[..|es| - 1], classes);
    }
  }

  lemma RebuiltLength(p: Policy, es: seq<Entry>, text: string)
    requires KeepsNothing(p) && p.config.recentWindow >= 0 && |es| > 3
    requires forall i :: 0 <= i < |es| ==> ClassOf(p, es[i]) in {Keep, Squeeze}
    ensures |Rebuild(p, es, text)| == SplitLength(p.config, |es|)
  {
    var z := Cut(p.config, es);
    forall i | 0 <= i < |z.middle|
      ensures ClassOf(p, z.middle[i]) in {Keep, Squeeze}
    {
      assert z.middle[i] == es[|z.first| + i];
    }
    PinsNothing(p, z.middle);
  }

  lemma CompressedLength(p: Policy, es: seq<Entry>, text: string, len: nat)
    requires KeepsNothing(p) && Legal(p.config) && Reachable(p.config, len) && |es| == len + 1
    ensures Reachable(p.config, |CompressSpec(p, es, text)|)
  {
    var passed := Prepass(p, es);
    SelectIsWithin(p, es, {Keep, Squeeze});
    if |passed| > 3 {
      RebuiltLength(p, passed, text);
      SplitStaysReachable(p.config, len, |passed|);
    }
  }

  lemma {:induction false} LengthIsReachable(p: Policy, run: seq<Addition>)
    requires KeepsNothing(p) && Legal(p.config)
    ensures Reachable(p.config, |StoredAfter(p, run)|)
  {
    if run != [] {
      var rest, a := run[..|run| - 1], run[|run| - 1];
      LengthIsReachable(p, rest);
      CompressedLength(p, StoredAfter(p, rest) + [Added(|rest|, a.msg)], a.text, |StoredAfter(p, rest)|);
    }
  }

  // The history never holds more than maxMessages + 2 messages ...
  lemma {:induction false} LengthIsBounded(p: Policy, run: seq<Addition>)
    requires KeepsNothing(p) && Legal(p.config)
    ensures |StoredAfter(p, run)| <= p.config.maxMessages + 2
  {
    LengthIsReachable(p, run);
  }

  function Times(a: Addition, n: nat): (run: seq<Addition>)
    ensures |run| == n && forall i :: 0 <= i < n ==> run[i] == a
  {
    seq(n, _ => a)
  }

  // ... on every run, exactly when no message matches a keep condition: kept messages pile up.
  lemma {:induction false} BoundedIffNothingKept(p: Policy)
    requires Legal(p.config)
    ensures (forall run :: |StoredAfter(p, run)| <= p.config.maxMessages + 2) <==> KeepsNothing(p)
  {
    if KeepsNothing(p) {
      forall run
        ensures |StoredAfter(p, run)| <= p.config.maxMessages + 2
      {
        LengthIsBounded(p, run);
      }
    } else {
      var m: Message :| AnyOf(p.keep, m);
      KeptPileUp(p, m, p.config.maxMessages + 3);
    }
  }

  lemma {:induction false} KeptPileUp(p: Policy, m: Message, n: nat)
    requires Legal(p.config) && AnyOf(p.keep, m)
    ensures |StoredAfter(p, Times(Addition(m, false, ""), n))| >= n
  {
    var run := Times(Addition(m, false, ""), n);
    KeptMessagesSurvive(p, run);
    AllGenuine(p, AllAdded(run));
    GenuineLength(p, StoredAfter(p, run), {Keep});
  }

  lemma {:induction false} AllGenuine(p: Policy, es: seq<Entry>)
    requires forall i :: 0 <= i < |es| ==> es[i].Added? && ClassOf(p, es[i]) == Keep
    ensures Genuine(p, es, {Keep}) == es
  {
    if es != [] {
      AllGenuine(p, es[..|es| - 1]);
      assert es == es[..|es| - 1] + [es[|es| - 1]];
    }
  }

  lemma {:induction false} GenuineLength(p: Policy, es: seq<Entry>, classes: set<Class>)
    ensures |Genuine(p, es, classes)| <= |es|
  {
    if es != [] {
      GenuineLength(p, es[..|es| - 1], classes);
    }
  }

  // ---------------------------------------------------------------------------------------------
  // Recent messages, with neither keep nor drop conditions and the count trigger alone.

  ghost predicate Plain(p: Policy, run: seq<Addition>) {
    p.keep == [] && p.drop == [] && Legal(p.config) && forall i :: 0 <= i < |run| ==> !run[i].overTokens
  }

  lemma PlainSqueezesAll(p: Policy, es: seq<Entry>)
    requires p.keep == [] && p.drop == []
    ensures KeepsNothing(p) && Prepass(p, es) == es
    ensures forall i :: 0 <= i < |es| ==> ClassOf(p, es[i]) == Squeeze
  {
    NothingDropped(p, es);
  }

  lemma {:induction false} UncompressedBelowLimit(p: Policy, run: seq<Addition>)
    requires Plain(p, run) && |run| <= p.config.maxMessages
    ensures StoredAfter(p, run) == AllAdded(run)
  {
    if run != [] {
      UncompressedBelowLimit(p, run[..|run| - 1]);
      AllAddedSnoc(run);
    }
  }

  lemma PlainAddLength(p: Policy, es: seq<Entry>, id: nat, a: Addition)
    requires p.keep == [] && p.drop == [] && Legal(p.config) && |es| >= p.config.maxMessages && |es| >= 3
    ensures |AddSpec(p, es, id, a)| == SplitLength(p.config, |es| + 1)
  {
    var more := es + [Added(id, a.msg)];
    PlainSqueezesAll(p, more);
    RebuiltLength(p, more, a.text);
  }

  // The bound is reached: window 17 of 18 messages holds 20 after twenty additions.
  lemma {:induction false} BoundIsReached(run: seq<Addition>)
    requires Plain(Policy(Config(17, 18), [], []), run) && |run| == 20
    ensures |StoredAfter(Policy(Config(17, 18), [], []), run)| == 20
  {
    var p := Policy(Config(17, 18), [], []);
    var run18, run19 := run[..18], run[..19];
    assert run19[..18] == run18 && run[..19] == run19;
    UncompressedBelowLimit(p, run18);
    PlainAddLength(p, StoredAfter(p, run18), 18, run[18]);
    PlainAddLength(p, StoredAfter(p, run19), 19, run[19]);
    assert run[..20] == run;
  }

  // The window survives: the room that the first zone leaves is enough at the moment of compression.
  predicate KeepsWindow(c: Config) {
    Max(1, (c.maxMessages + 1) / 10) + c.recentWindow <= c.maxMessages
  }

  lemma NoFallback(c: Config, n: nat)
    requires Legal(c) && KeepsWindow(c) && n > 3 && c.maxMessages < n <= c.maxMessages + 3
    ensures !Fallback(c, n) && KeepLast(c, n) >= c.recentWindow
  {
  }

  ghost predicate HoldsWindow(c: Config, stored: seq<Entry>, added: seq<Entry>)
    requires c.recentWindow >= 0
  {
    LastOf(stored, c.recentWindow) == LastOf(added, c.recentWindow)
    && (|stored| < c.recentWindow ==> stored == added)
  }

  lemma SuffixSurvives(p: Policy, es: seq<Entry>, text: string)
    requires Plain(p, []) && KeepsWindow(p.config) && |es| > 3
             && p.config.maxMessages < |es| <= p.config.maxMessages + 3
    ensures var rebuilt := Rebuild(p, es, text);
            |rebuilt| >= p.config.recentWindow
              && LastOf(rebuilt, p.config.recentWindow) == LastOf(es, p.config.recentWindow)
  {
    NoFallback(p.config, |es|);
    var z, rw := Cut(p.config, es), p.config.recentWindow;
    LastOfTail(z.first + z.middle, z.recent, rw);
    LastOfTail(z.first + SummaryOf(p, z.middle, text) + Select(p, z.middle, {Keep}), z.recent, rw);
  }

  lemma LastOfTail<T>(front: seq<T>, tail: seq<T>, n: nat)
    requires |tail| >= n
    ensures |front + tail| >= n && LastOf(front + tail, n) == LastOf(tail, n)
  {
    assert (front + tail)[|front + tail| - n..] == tail[|tail| - n..];
  }

  lemma LastOfSnoc<T>(a: seq<T>, b: seq<T>, x: T, n: nat)
    requires LastOf(a, n) == LastOf(b, n) && (|a| < n ==> a == b)
    ensures LastOf(a + [x], n) == LastOf(b + [x], n)
  {
    if |a| >= n {
      assert |LastOf(a, n)| == n && |LastOf(b, n)| <= |b|;
      if n > 0 {
        assert (a + [x])[|a| + 1 - n..] == a[|a| - n..][1..] + [x];
        assert (b + [x])[|b| + 1 - n..] == b[|b| - n..][1..] + [x];
      }
    }
  }

  lemma {:induction false} WindowIsHeld(p: Policy, run: seq<Addition>)
    requires Plain(p, run) && KeepsWindow(p.config)
    ensures HoldsWindow(p.config, StoredAfter(p, run), AllAdded(run))
  {
    if run != [] {
      var rest, a := run[..|run| - 1], run[|run| - 1];
      WindowIsHeld(p, rest);
      AllAddedSnoc(run);
      PlainSqueezesAll(p, []);
      LengthIsBounded(p, rest);
      WindowStep(p, StoredAfter(p, rest), AllAdded(rest), |rest|, a);
    }
  }

  lemma WindowStep(p: Policy, stored: seq<Entry>, added: seq<Entry>, id: nat, a: Addition)
    requires Plain(p, []) && KeepsWindow(p.config) && !a.overTokens
    requires |stored| <= p.config.maxMessages + 2 && HoldsWindow(p.config, stored, added)
    ensures HoldsWindow(p.config, AddSpec(p, stored, id, a), added + [Added(id, a.msg)])
  {
    var more := stored + [Added(id, a.msg)];
    LastOfSnoc(stored, added, Added(id, a.msg), p.config.recentWindow);
    PlainSqueezesAll(p, more);
    if |more| > p.config.maxMessages && |more| > 3 {
      SuffixSurvives(p, more, a.text);
    }
  }

  lemma FallbackIsTooShort(c: Config)
    requires Legal(c) && !KeepsWindow(c)
    ensures c.maxMessages >= 19 && Fallback(c, c.maxMessages + 1) && SplitLength(c, c.maxMessages + 1) < c.recentWindow
  {
  }

  lemma {:induction false} WindowIsLost(p: Policy, run: seq<Addition>)
    requires Plain(p, run) && !KeepsWindow(p.config) && |run| == p.config.maxMessages + 1
    ensures |StoredAfter(p, run)| < p.config.recentWindow < |run|
  {
    FallbackIsTooShort(p.config);
    UncompressedBelowLimit(p, run[..|run| - 1]);
    PlainAddLength(p, StoredAfter(p, run[..|run| - 1]), |run| - 1, run[|run| - 1]);
  }

  // The last recentWindow stored messages are always those a sliding window of that size would hold,
  // exactly for the configurations that leave room for the first zone at the moment of compression;
  // for the others the fallback cuts the recent zone to half.
  lemma {:induction false} WindowHeldIffRoom(c: Config)
    requires Legal(c)
    ensures (forall run :: Plain(Policy(c, [], []), run) ==>
               LastOf(Msgs(StoredAfter(Policy(c, [], []), run)), c.recentWindow)
                 == LastOf(Msgs(AllAdded(run)), c.recentWindow))
            <==> KeepsWindow(c)
  {
    var p := Policy(c, [], []);
    if KeepsWindow(c) {
      forall run | Plain(p, run)
        ensures LastOf(Msgs(StoredAfter(p, run)), c.recentWindow) == LastOf(Msgs(AllAdded(run)), c.recentWindow)
      {
        WindowIsHeld(p, run);
        LastOfMsgs(StoredAfter(p, run), c.recentWindow);
        LastOfMsgs(AllAdded(run), c.recentWindow);
      }
    } else {
      var run := Times(Addition(UserMessage(""), false, ""), c.maxMessages + 1);
      WindowIsLost(p, run);
      assert Plain(p, run);
      assert |LastOf(Msgs(StoredAfter(p, run)), c.recentWindow)| < |LastOf(Msgs(AllAdded(run)), c.recentWindow)|;
    }
  }

  lemma LastOfMsgs(es: seq<Entry>, n: nat)
    ensures LastOf(Msgs(es), n) == Msgs(LastOf(es, n))
  {
  }

  // A window of at most half the limit always has room.
  lemma HalfWindowHasRoom(c: Config)
    requires Legal(c) && 2 * c.recentWindow <= c.maxMessages && c.maxMessages >= 2
    ensures KeepsWindow(c)
  {
  }
}
