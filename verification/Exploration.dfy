// exploration_budget.go: a token budget for tool calls, refilled by a successful mutation.
module Exploration {
  import opened Messages
  import opened ReadTracking

  // The numbers of the nudge text: tokens used when it was activated, and the initial budget.
  datatype BudgetNudge = BudgetNudge(used: int, budget: int)

  datatype BudgetState = BudgetState(budget: int, remaining: int, counts: Counts, nudgeActive: bool,
          nudge: Option<BudgetNudge>)

  function Fresh(budget: int): BudgetState {
    BudgetState(budget, budget, map[], false, None)
  }

  function ToolCost(tu: ToolUse): int {
    if tu.name == "grep" then 0 else 1
  }

  // The deduction loop: grep is free and untracked, a repeated read costs double.
  function Charge(b: BudgetState, uses: seq<ToolUse>): BudgetState
    decreases uses
  {
    if uses == [] then b
    else if ToolCost(uses[0]) == 0 then Charge(b, uses[1..])
    else
      var (counts, nudge) := TrackBatch(b.counts, Accesses([uses[0]]));
      Charge(b.(remaining := b.remaining - (if nudge.Some? then 2 else 1), counts := counts), uses[1..])
  }

  function Activate(b: BudgetState): BudgetState {
    if b.remaining <= 0 && !b.nudgeActive then
      b.(nudgeActive := true, nudge := Some(BudgetNudge(b.budget - b.remaining, b.budget)))
    else b
  }

  function ConsumeSpec(b: BudgetState, uses: seq<ToolUse>, results: seq<ToolResult>): BudgetState {
    if MutationSucceeded(uses, results) then Fresh(b.budget) else Activate(Charge(b, uses))
  }

  class ExplorationBudget {
    var budget: int
    var remaining: int
    const tracker: ReadTracker
    var nudgeActive: bool
    var nudgeMsg: Option<BudgetNudge>

    constructor (budget: int)
      ensures State() == Fresh(budget)
      ensures fresh(tracker)
    {
      this.budget := budget;
      remaining := budget;
      tracker := new ReadTracker();
      nudgeActive := false;
      nudgeMsg := None;
    }

    ghost function State(): BudgetState
      reads this, tracker
    {
      BudgetState(budget, remaining, tracker.regionReads, nudgeActive, nudgeMsg)
    }

    method Consume(uses: seq<ToolUse>, results: seq<ToolResult>)
      modifies this, tracker
      ensures State() == ConsumeSpec(old(State()), uses, results)
    {
      for i := 0 to |uses|
        invariant State() == old(State())
        invariant forall j :: 0 <= j < i ==> !(IsMutating(uses[j]) && Succeeded(results, j))
      {
        if IsMutating(uses[i]) && i < |results| && !results[i].isError {
          Reset();
          return;
        }
      }
      for i := 0 to |uses|
        invariant Charge(State(), uses[i..]) == Charge(old(State()), uses)
        invariant !MutationSucceeded(uses, results)
      {
        assert uses[i..][0] == uses[i] && uses[i..][1..] == uses[i + 1..];
        var cost := ToolCost(uses[i]);
        if cost == 0 {
          continue;
        }
        var nudge := tracker.Track([uses[i]]);
        if nudge.Some? {
          cost := 2;
        }
        remaining := remaining - cost;
      }
      if remaining <= 0 && !nudgeActive {
        nudgeActive := true;
        nudgeMsg := Some(BudgetNudge(budget - remaining, budget));
      }
    }

    function ActiveNudge(): Option<BudgetNudge>
      reads this
    {
      nudgeMsg
    }

    method Reset()
      modifies this, tracker
      ensures State() == Fresh(old(budget))
    {
      remaining := budget;
      tracker.Clear();
      nudgeActive := false;
      nudgeMsg := None;
    }
  }

  // ---------------------------------------------------------------------------------------------
  // Runs of Consume.

  datatype Batch = Batch(uses: seq<ToolUse>, results: seq<ToolResult>)

  function BudgetAfter(budget: int, run: seq<Batch>): BudgetState {
    if run == [] then Fresh(budget)
    else
      var last := run[|run| - 1];
      ConsumeSpec(BudgetAfter(budget, run[..|run| - 1]), last.uses, last.results)
  }

  function Charged(uses: seq<ToolUse>): seq<ToolUse>
    decreases uses
  {
    if uses == [] then [] else (if uses[0].name == "grep" then [] else [uses[0]]) + Charged(uses[1..])
  }

  // The accesses of the non-grep calls since the last batch with a successful mutation, in order.
  function ChargedSinceReset(run: seq<Batch>): (log: seq<Access>)
    ensures WellFormed(log)
  {
    if run == [] then []
    else
      var last := run[|run| - 1];
      if MutationSucceeded(last.uses, last.results) then []
      else ChargedSinceReset(run[..|run| - 1]) + Accesses(Charged(last.uses))
  }

  // How many accesses of a log made the tracker nudge.
  function Repeats(log: seq<Access>): nat {
    if log == [] then 0
    else Repeats(log[..|log| - 1]) + if LastNudge(log).Some? then 1 else 0
  }

  lemma {:induction false} RepeatsGrow(log: seq<Access>, more: seq<Access>)
    ensures Repeats(log) <= Repeats(log + more) <= Repeats(log) + |more|
  {
    if more == [] {
      assert log + more == log;
    } else {
      RepeatsGrow(log, more[..|more| - 1]);
      assert (log + more)[..|log + more| - 1] == log + more[..|more| - 1];
    }
  }

  // The deduction loop seen as a loop over the charged accesses only.
  function ChargeLog(b: BudgetState, log: seq<Access>): BudgetState
    decreases log
  {
    if log == [] then b else ChargeLog(ChargeOne(b, log[0]), log[1..])
  }

  function ChargeOne(b: BudgetState, a: Access): BudgetState {
    var (counts, nudge) := TrackOne(b.counts, a);
    b.(remaining := b.remaining - (if nudge.Some? then 2 else 1), counts := counts)
  }

  lemma {:induction false} TrackSingle(m: Counts, tu: ToolUse)
    ensures TrackBatch(m, Accesses([tu])) == TrackOne(m, Classify(tu))
  {
    assert [tu][1..] == [];
    assert Accesses([tu]) == [Classify(tu)] && [Classify(tu)][1..] == [];
  }

  lemma {:induction false} GrepIsFree(b: BudgetState, uses: seq<ToolUse>)
    ensures Charge(b, uses) == ChargeLog(b, Accesses(Charged(uses)))
    decreases uses
  {
    if uses == [] {
    } else if uses[0].name == "grep" {
      GrepIsFree(b, uses[1..]);
      assert Charged(uses) == Charged(uses[1..]);
    } else {
      TrackSingle(b.counts, uses[0]);
      var (counts, nudge) := TrackOne(b.counts, Classify(uses[0]));
      GrepIsFree(b.(remaining := b.remaining - (if nudge.Some? then 2 else 1), counts := counts), uses[1..]);
      assert Charged(uses)[1..] == Charged(uses[1..]);
    }
  }

  // Charging spends one token per access plus one per repeated read, and leaves the tracker as if it
  // had been called on each access alone.
  lemma {:induction false} ChargeSpends(b: BudgetState, log: seq<Access>, before: seq<Access>)
    requires b.counts == CountsAfter(before)
    requires b.remaining == b.budget - |before| - Repeats(before)
    ensures var all := before + log;
            ChargeLog(b, log) == b.(counts := CountsAfter(all), remaining := b.budget - |all| - Repeats(all))
    decreases log
  {
    if log == [] {
      assert before + log == before;
    } else {
      ChargedSnoc(before, log[0]);
      assert before + [log[0]] + log[1..] == before + log;
      ChargeSpends(ChargeOne(b, log[0]), log[1..], before + [log[0]]);
    }
  }

  lemma {:induction false} ChargedSnoc(before: seq<Access>, a: Access)
    ensures CountsAfter(before + [a]) == TrackOne(CountsAfter(before), a).0
    ensures Repeats(before + [a]) == Repeats(before) + if TrackOne(CountsAfter(before), a).1.Some? then 1 else 0
  {
    assert (before + [a])[..|before|] == before;
  }

  // What is spent is exactly the calls charged since the last successful mutation plus the repeated
  // reads among them, so it lies between k and 2k; the nudge is there exactly when nothing remains.
  ghost predicate Ledger(budget: int, b: BudgetState, log: seq<Access>) {
    && b.budget == budget
    && b.counts == CountsAfter(log)
    && budget - b.remaining == |log| + Repeats(log)
    && |log| <= budget - b.remaining <= 2 * |log|
    && b.remaining <= budget
    && (b.nudge.Some? <==> b.remaining <= 0)
    && (b.nudgeActive <==> b.nudge.Some?)
    && (b.nudge.Some? ==> b.nudge.value.budget == budget <= b.nudge.value.used <= budget - b.remaining)
  }

  lemma {:induction false} LedgerStep(budget: int, b: BudgetState, log: seq<Access>, more: seq<Access>)
    requires budget > 0 && Ledger(budget, b, log)
    ensures Ledger(budget, Activate(ChargeLog(b, more)), log + more)
  {
    ChargeSpends(b, more, log);
    RepeatsGrow(log, more);
    RepeatsGrow([], log + more);
    assert [] + (log + more) == log + more;
  }

  // The ledger balances after any run of Consume, for any positive budget.
  lemma {:induction false} BudgetLedger(budget: int, run: seq<Batch>)
    requires budget > 0
    ensures Ledger(budget, BudgetAfter(budget, run), ChargedSinceReset(run))
  {
    if run != [] {
      var rest, last := run[..|run| - 1], run[|run| - 1];
      BudgetLedger(budget, rest);
      if !MutationSucceeded(last.uses, last.results) {
        GrepIsFree(BudgetAfter(budget, rest), last.uses);
        LedgerStep(budget, BudgetAfter(budget, rest), ChargedSinceReset(rest), Accesses(Charged(last.uses)));
      }
    }
  }

  // The nudge tells what was spent when it was given, and stays as it is until the next refill.
  lemma {:induction false} NudgeTellsWhatWasSpent(budget: int, run: seq<Batch>)
    requires budget > 0 && run != []
    ensures var before, after, log := BudgetAfter(budget, run[..|run| - 1]), BudgetAfter(budget, run),
            ChargedSinceReset(run);
            && (before.nudge.None? && after.nudge.Some? ==>
                  after.nudge == Some(BudgetNudge(|log| + Repeats(log), budget)))
            && (before.nudge.Some? && after.nudge.Some? ==> after.nudge == before.nudge)
  {
    var rest, last := run[..|run| - 1], run[|run| - 1];
    BudgetLedger(budget, rest);
    if !MutationSucceeded(last.uses, last.results) {
      GrepIsFree(BudgetAfter(budget, rest), last.uses);
      ChargeSpends(BudgetAfter(budget, rest), Accesses(Charged(last.uses)), ChargedSinceReset(rest));
    }
  }

  // Every double charge is for a region that was read at least three times since the last write.
  lemma {:induction false} RepeatIsAThirdRead(run: seq<Batch>, n: nat)
    requires n < |ChargedSinceReset(run)|
    requires LastNudge(ChargedSinceReset(run)[..n + 1]).Some?
    ensures var log := ChargedSinceReset(run);
            log[n].Read? && exists k :: k in log[n].keys && TrueReads(log[..n + 1], k) >= THRESHOLD
  {
    NudgeIsJustified(ChargedSinceReset(run)[..n + 1]);
  }

  // Only a successful mutation refills: a failed edit costs one token, yet clears the read counters.
  lemma FailedEditIsCharged(b: BudgetState, tu: ToolUse, result: ToolResult)
    requires tu.name == "edit_file" && result.isError
    ensures ConsumeSpec(b, [tu], [result]).remaining == b.remaining - 1
    ensures ConsumeSpec(b, [tu], [result]).counts == map[]
  {
    assert "edit_file"[0] == 'e' && "read_file"[0] == 'r';
    assert Classify(tu) == Write;
    TrackSingle(b.counts, tu);
    assert ToolCost(tu) == 1 by {
      assert |"edit_file"| != |"grep"|;
    }
    assert [tu][1..] == [] && [tu][0] == tu;
    assert Charge(b, [tu]) == Charge(b.(remaining := b.remaining - 1, counts := map[]), []);
    assert !MutationSucceeded([tu], [result]);
  }
}
