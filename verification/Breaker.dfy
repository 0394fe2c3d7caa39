// circuit_breaker.go: after too many failures of the primary compactor in a row only the fallback is used,
// until a cooldown has passed.
module Breaker {
  import opened Messages

  datatype Circuit = Closed | Open | HalfOpen

  datatype State = State(circuit: Circuit, failures: nat, lastFailure: int)

  // Times are in nanoseconds.
  datatype Settings = Settings(maxFailures: int, cooldown: int)

  const DEFAULT := Settings(3, 300_000_000_000)
  const START := State(Closed, 0, 0)

  predicate Positive(p: Settings) {
    p.maxFailures > 0 && p.cooldown > 0
  }

  // The first critical section of Compact.
  function Entered(p: Settings, s: State, now: int): State {
    if s.circuit == Open && now - s.lastFailure > p.cooldown then s.(circuit := HalfOpen) else s
  }

  function Failed(p: Settings, s: State, now: int): State {
    State(if s.failures + 1 >= p.maxFailures then Open else s.circuit, s.failures + 1, now)
  }

  function Recovered(s: State): State {
    State(Closed, 0, s.lastFailure)
  }

  class CircuitBreaker {
    var circuit: Circuit
    var failures: nat
    var lastFailure: int
    const settings: Settings

    function Now(): State
      reads this
    {
      State(circuit, failures, lastFailure)
    }

    constructor ()
      ensures Now() == START && settings == DEFAULT
    {
      circuit, failures, lastFailure := Closed, 0, 0;
      settings := DEFAULT;
    }

    method Enter(now: int) returns (usePrimary: bool)
      modifies this
      ensures Now() == Entered(settings, old(Now()), now) && usePrimary == (Now().circuit != Open)
    {
      if circuit == Open && now - lastFailure > settings.cooldown {
        circuit := HalfOpen;
      }
      usePrimary := circuit != Open;
    }

    method RecordFailure(now: int)
      modifies this
      ensures Now() == Failed(settings, old(Now()), now)
    {
      failures := failures + 1;
      lastFailure := now;
      if failures >= settings.maxFailures {
        circuit := Open;
      }
    }

    method RecordSuccess()
      modifies this
      ensures Now() == Recovered(old(Now()))
    {
      failures := 0;
      circuit := Closed;
    }

    // One call with no other in between; `primary` and `fallback` are what the compactors would return,
    // None an error, and `end` is when the primary returns.
    method Compact(begin: int, primary: Option<string>, end: int, fallback: Option<string>) returns (r: Option<string>)
      modifies this
      ensures Now() == AfterCall(settings, old(Now()), Call(begin, end, primary.Some?))
      ensures r == if RunsPrimary(settings, old(Now()), begin) && primary.Some? then primary else fallback
    {
      var usePrimary := Enter(begin);
      if !usePrimary {
        return fallback;
      }
      if primary.None? {
        RecordFailure(end);
        return fallback;
      }
      RecordSuccess();
      return primary;
    }
  }

  predicate RunsPrimary(p: Settings, s: State, now: int) {
    Entered(p, s, now).circuit != Open
  }

  datatype Call = Call(begin: int, end: int, ok: bool)

  function AfterCall(p: Settings, s: State, c: Call): State {
    if !RunsPrimary(p, s, c.begin) then Entered(p, s, c.begin)
    else if c.ok then Recovered(Entered(p, s, c.begin))
    else Failed(p, Entered(p, s, c.begin), c.end)
  }

  // ---------------------------------------------------------------------------------------------
  // Overlapping calls: between a call's decision and the recording of its outcome others may decide and record.

  datatype Event = Begin(id: nat, now: int) | Fail(id: nat, now: int) | Succeed(id: nat, now: int)

  function Step(p: Settings, s: State, e: Event): State {
    match e
    case Begin(id, now) => Entered(p, s, now)
    case Fail(id, now) => Failed(p, s, now)
    case Succeed(id, now) => Recovered(s)
  }

  function After(p: Settings, log: seq<Event>): State {
    if log == [] then START else Step(p, After(p, log[..|log| - 1]), log[|log| - 1])
  }

  // The calls whose primary is running.
  function Running(p: Settings, log: seq<Event>): set<nat> {
    if log == [] then {}
    else
      var before, e := Running(p, log[..|log| - 1]), log[|log| - 1];
      if !e.Begin? then before - {e.id}
      else if RunsPrimary(p, After(p, log[..|log| - 1]), e.now) then before + {e.id}
      else before
  }

  // Only running calls record an outcome, and the clock does not go back.
  predicate Legal(p: Settings, log: seq<Event>) {
    log == [] ||
    var rest, e := log[..|log| - 1], log[|log| - 1];
    && Legal(p, rest)
    && (e.Begin? <==> e.id !in Running(p, rest))
    && (rest != [] ==> rest[|rest| - 1].now <= e.now)
  }

  lemma {:induction false} LegalLast(p: Settings, log: seq<Event>, e: Event)
    requires Legal(p, log + [e])
    ensures Legal(p, log) && (log != [] ==> log[|log| - 1].now <= e.now) && (e.Begin? <==> e.id !in Running(p, log))
  {
    assert (log + [e])[..|log + [e]| - 1] == log;
  }

  // Failures recorded since the last recorded success.
  function Streak(log: seq<Event>): nat {
    if log == [] then 0
    else match log[|log| - 1]
         case Begin(_, _) => Streak(log[..|log| - 1])
         case Fail(_, _) => Streak(log[..|log| - 1]) + 1
         case Succeed(_, _) => 0
  }

  function LastFail(log: seq<Event>): int {
    if log == [] then 0
    else if log[|log| - 1].Fail? then log[|log| - 1].now
    else LastFail(log[..|log| - 1])
  }

  // Under any interleaving the breaker is closed exactly while fewer than maxFailures failures have been
  // recorded in a row, and half open only once the cooldown has passed.
  lemma {:induction false} StateMeans(p: Settings, log: seq<Event>)
    requires Positive(p) && Legal(p, log)
    ensures var s := After(p, log);
            && s.failures == Streak(log) && s.lastFailure == LastFail(log)
            && (s.circuit == Closed <==> Streak(log) < p.maxFailures)
            && (s.circuit == HalfOpen ==> log != [] && log[|log| - 1].now - LastFail(log) > p.cooldown)
  {
    if log != [] {
      var rest, e := log[..|log| - 1], log[|log| - 1];
      assert log == rest + [e];
      LegalLast(p, rest, e);
      StateMeans(p, rest);
    }
  }

  // So the half-open state adds nothing: a call runs the primary exactly if fewer than maxFailures
  // failures have been recorded in a row or the last is more than the cooldown ago.
  lemma {:induction false} PrimaryIff(p: Settings, log: seq<Event>, id: nat, now: int)
    requires Positive(p) && Legal(p, log + [Begin(id, now)])
    ensures RunsPrimary(p, After(p, log), now) <==> Streak(log) < p.maxFailures || now - LastFail(log) > p.cooldown
  {
    LegalLast(p, log, Begin(id, now));
    StateMeans(p, log);
  }

  // ---------------------------------------------------------------------------------------------
  // Probing.

  predicate Late(p: Settings, e: Event, log: seq<Event>) {
    e.now - LastFail(log) > p.cooldown
  }

  function LateCount(p: Settings, begins: seq<Event>, log: seq<Event>): nat {
    if begins == [] then 0
    else LateCount(p, begins[..|begins| - 1], log) + if Late(p, begins[|begins| - 1], log) then 1 else 0
  }

  // Once too many failures have been recorded, the primaries running grow, until the next outcome is
  // recorded, by one for every call that comes after the cooldown: it is probed once exactly if one comes.
  lemma {:induction false} EveryLateCallProbes(p: Settings, log: seq<Event>, begins: seq<Event>)
    requires Positive(p) && Legal(p, log + begins) && Streak(log) >= p.maxFailures && forall e :: e in begins ==>
               e.Begin?
    ensures Streak(log + begins) == Streak(log) && LastFail(log + begins) == LastFail(log)
    ensures |Running(p, log + begins)| == |Running(p, log)| + LateCount(p, begins, log)
  {
    if begins == [] {
      assert log + begins == log;
    } else {
      var rest, last := begins[..|begins| - 1], begins[|begins| - 1];
      assert log + begins == log + rest + [last];
      LegalLast(p, log + rest, last);
      EveryLateCallProbes(p, log, rest);
      PrimaryIff(p, log + rest, last.id, last.now);
      BeginSnoc(p, log + rest, last);
    }
  }

  lemma {:induction false} BeginSnoc(p: Settings, log: seq<Event>, e: Event)
    requires e.Begin? && e.id !in Running(p, log)
    ensures Streak(log + [e]) == Streak(log) && LastFail(log + [e]) == LastFail(log)
    ensures |Running(p, log + [e])| == |Running(p, log)| + if RunsPrimary(p, After(p, log), e.now) then 1 else 0
  {
    assert (log + [e])[..|log + [e]| - 1] == log;
  }

  // ---------------------------------------------------------------------------------------------
  // Calls that do not overlap.

  // A call that nothing comes in between is its decision followed by the recording of its outcome.
  lemma {:induction false} CallIsItsEvents(p: Settings, log: seq<Event>, id: nat, c: Call)
    ensures AfterCall(p, After(p, log), c)
            == After(p, if !RunsPrimary(p, After(p, log), c.begin) then log + [Begin(id, c.begin)]
                        else log + [Begin(id, c.begin)] + [if c.ok then Succeed(id, c.end) else Fail(id, c.end)])
  {
    var begun := log + [Begin(id, c.begin)];
    assert begun[..|begun| - 1] == log;
    var ended := begun + [if c.ok then Succeed(id, c.end) else Fail(id, c.end)];
    assert ended[..|ended| - 1] == begun;
  }

  // The calls that ran the primary and failed since the last that ran it with success, and the end of the last.
  function FailedRuns(p: Settings, calls: seq<Call>): nat {
    if calls == [] then 0
    else
      var rest, c := calls[..|calls| - 1], calls[|calls| - 1];
      if !RunsPrimary(p, AfterCalls(p, rest), c.begin) then FailedRuns(p, rest)
      else if c.ok then 0
      else FailedRuns(p, rest) + 1
  }

  function LastFailedEnd(p: Settings, calls: seq<Call>): int {
    if calls == [] then 0
    else
      var rest, c := calls[..|calls| - 1], calls[|calls| - 1];
      if RunsPrimary(p, AfterCalls(p, rest), c.begin) && !c.ok then c.end else LastFailedEnd(p, rest)
  }

  // After any calls, successful ones included, the circuit is closed exactly if fewer than maxFailures runs
  // of the primary have failed in a row, and otherwise open; the next call runs the primary exactly if it is
  // closed or the last failure is more than the cooldown ago.
  lemma {:induction false} CallsDecide(p: Settings, calls: seq<Call>, now: int)
    requires Positive(p)
    ensures var s := AfterCalls(p, calls);
            && s.failures == FailedRuns(p, calls) && s.lastFailure == LastFailedEnd(p, calls)
            && s.circuit == (if FailedRuns(p, calls) < p.maxFailures then Closed else Open)
            && (RunsPrimary(p, s, now) <==>
                  FailedRuns(p, calls) < p.maxFailures || now - LastFailedEnd(p, calls) > p.cooldown)
  {
    if calls != [] {
      CallsDecide(p, calls[..|calls| - 1], calls[|calls| - 1].begin);
    }
  }

  // With a primary that always fails.

  ghost predicate InOrder(calls: seq<Call>) {
    && (forall k: nat :: k < |calls| ==> calls[k].begin <= calls[k].end)
    && (forall j: nat, k: nat :: j < k < |calls| ==> calls[j].end <= calls[k].begin)
  }

  function AfterCalls(p: Settings, calls: seq<Call>): State {
    if calls == [] then START else AfterCall(p, AfterCalls(p, calls[..|calls| - 1]), calls[|calls| - 1])
  }

  function PrimaryRuns(p: Settings, calls: seq<Call>): nat {
    if calls == [] then 0
    else
      PrimaryRuns(p, calls[..|calls| - 1])
      + if RunsPrimary(p, AfterCalls(p, calls[..|calls| - 1]), calls[|calls| - 1].begin) then 1 else 0
  }

  // When the breaker first opened, or the end of the calls.
  function OpenTime(p: Settings, calls: seq<Call>): int
    requires calls != []
  {
    if |calls| == 1 || PrimaryRuns(p, calls[..|calls| - 1]) < p.maxFailures then calls[|calls| - 1].end
    else OpenTime(p, calls[..|calls| - 1])
  }

  // One call: a failing primary that runs records its failure, and once the breaker has opened it runs only
  // after the cooldown.
  lemma FailingCall(p: Settings, s: State, c: Call, n: nat)
    requires Positive(p) && !c.ok && c.begin <= c.end && (s.circuit == Open ==> s.lastFailure <= c.begin)
    requires s.failures == n && (s.circuit == Closed <==> n < p.maxFailures) && s.circuit != HalfOpen
    ensures var s', n' := AfterCall(p, s, c), n + if RunsPrimary(p, s, c.begin) then 1 else 0;
            && s'.failures == n' && (s'.circuit == Closed <==> n' < p.maxFailures) && s'.circuit != HalfOpen
            && s'.lastFailure == (if RunsPrimary(p, s, c.begin) then c.end else s.lastFailure) <= c.end
            && (n' > n >= p.maxFailures ==> s.lastFailure + p.cooldown < s'.lastFailure)
  {
  }

  // After the breaker has opened every run of the primary took a cooldown.
  predicate Spaced(p: Settings, n: int, open: int, last: int) {
    n >= p.maxFailures ==> open + (n - p.maxFailures) * p.cooldown <= last
  }

  lemma OneMoreSpaced(p: Settings, n: int, open: int, last: int, next: int)
    requires n >= p.maxFailures && Spaced(p, n, open, last) && last + p.cooldown <= next
    ensures Spaced(p, n + 1, open, next)
  {
    OneMore(n - p.maxFailures, p.cooldown);
  }

  lemma JustOpened(p: Settings, n: int, open: int)
    requires n <= p.maxFailures
    ensures Spaced(p, n, open, open)
  {
  }

  lemma {:induction false} RunsAreSpaced(p: Settings, calls: seq<Call>)
    requires Positive(p) && calls != [] && InOrder(calls) && forall c :: c in calls ==> !c.ok
    ensures var s, n := AfterCalls(p, calls), PrimaryRuns(p, calls);
            && s.failures == n && (s.circuit == Closed <==> n < p.maxFailures) && s.circuit != HalfOpen
            && s.lastFailure <= calls[|calls| - 1].end
            && Spaced(p, n, OpenTime(p, calls), s.lastFailure)
  {
    var rest, c := calls[..|calls| - 1], calls[|calls| - 1];
    assert c in calls;
    hide Spaced;
    if rest == [] {
      FailingCall(p, START, c, 0);
      JustOpened(p, 1, c.end);
    } else {
      var before, n := AfterCalls(p, rest), PrimaryRuns(p, rest);
      RunsAreSpaced(p, rest);
      assert calls[|rest| - 1] == rest[|rest| - 1];
      FailingCall(p, before, c, n);
      if n < p.maxFailures {
        JustOpened(p, PrimaryRuns(p, calls), c.end);
      } else if RunsPrimary(p, before, c.begin) {
        OneMoreSpaced(p, n, OpenTime(p, rest), before.lastFailure, c.end);
      }
    }
  }

  lemma OneMore(k: int, c: int)
    ensures (k + 1) * c == k * c + c
  {
  }

  lemma Product(a: int, b: int, c: int)
    requires c > 0
    ensures a <= b <==> a * c <= b * c
  {
  }

  lemma Quotient(k: int, c: int, t: int)
    requires k >= 0 && c > 0 && k * c <= t
    ensures 0 <= t && k <= t / c
  {
    var q := t / c;
    Product(0, k, c);
    OneMore(q, c);
    Product(q + 1, k, c);
  }

  // By time T the primary has run at most maxFailures times and once per cooldown since the breaker opened.
  lemma {:induction false} FailingPrimaryIsSpared(p: Settings, calls: seq<Call>, T: int)
    requires Positive(p) && calls != [] && InOrder(calls) && (forall c :: c in calls ==> !c.ok)
             && calls[|calls| - 1].end <= T
    ensures OpenTime(p, calls) <= T && PrimaryRuns(p, calls) <= p.maxFailures + (T - OpenTime(p, calls)) / p.cooldown
  {
    RunsAreSpaced(p, calls);
    var n := PrimaryRuns(p, calls);
    if n < p.maxFailures {
      FewRuns(p, calls);
    } else {
      Quotient(n - p.maxFailures, p.cooldown, T - OpenTime(p, calls));
    }
  }

  lemma {:induction false} FewRuns(p: Settings, calls: seq<Call>)
    requires calls != [] && PrimaryRuns(p, calls) < p.maxFailures
    ensures OpenTime(p, calls) == calls[|calls| - 1].end
  {
    if |calls| > 1 {
      assert PrimaryRuns(p, calls[..|calls| - 1]) <= PrimaryRuns(p, calls);
    }
  }
}
