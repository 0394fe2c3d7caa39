// session.go, guardBeforeTools and noteToolResults: the convergence guard as a state machine over
// the tool turns of a session, across any number of runs.
module Convergence {
  import opened Messages
  import opened ReadTracking
  import opened Exploration

  datatype GuardConfig = GuardConfig(
    enabled: bool, maxReadOnlyTurns: int, stopOnRepeatedRead: bool, stopOnBudgetExhausted: bool,
      stopReadOnlyAfterEdit: bool)

  datatype GuardReason =
    | ReadOnlyAfterEdit
    | BudgetExhausted
    | MaxReadOnlyTurns(limit: int)
    | RepeatedRead
    | LegacyExplorationTurns(limit: int)

  datatype GuardState = GuardState(
    readOnlyTurns: int, editSucceeded: bool, editRecoveryReads: int, warned: bool, guardNudge: Option<Nudge>,
    guardCounts: Counts, budget: Option<BudgetState>)

  function InitialState(budget: int): GuardState {
    GuardState(0, false, 0, false, None, map[], if budget > 0 then Some(Fresh(budget)) else None)
  }

  predicate NudgeActive(g: GuardState) {
    g.budget.Some? && g.budget.value.nudge.Some?
  }

  // guardBeforeTools
  function Decide(cfg: Option<GuardConfig>, g: GuardState, uses: seq<ToolUse>): (GuardState, Option<GuardReason>) {
    if cfg.None? || !cfg.value.enabled then (g, None)
    else if cfg.value.stopReadOnlyAfterEdit && g.editSucceeded && HasReadOnly(uses) then (g, Some(ReadOnlyAfterEdit))
    else if g.editRecoveryReads > 0 && HasReadOnly(uses) then (g, None)
    else if cfg.value.stopOnBudgetExhausted && NudgeActive(g) && HasReadOnly(uses) then (g, Some(BudgetExhausted))
    else if cfg.value.maxReadOnlyTurns > 0 && AllReadOnly(uses)
      && g.readOnlyTurns + 1 >= cfg.value.maxReadOnlyTurns then
      (g, Some(MaxReadOnlyTurns(cfg.value.maxReadOnlyTurns)))
    else if cfg.value.stopOnRepeatedRead then
      var (counts, nudge) := TrackBatch(g.guardCounts, Accesses(uses));
      var g' := g.(guardCounts := counts);
      if nudge.None? then (g', None)
      else if !g.warned then (g'.(warned := true, guardNudge := nudge), None)
      else (g', Some(RepeatedRead))
    else (g, None)
  }

  // noteToolResults
  function NoteSpec(g: GuardState, uses: seq<ToolUse>, results: seq<ToolResult>): GuardState {
    if MutationSucceeded(uses, results) then
      g.(editSucceeded := true, editRecoveryReads := 0, warned := false, guardNudge := None, readOnlyTurns := 0)
    else
      var recovery := if EditFailed(uses, results) then 1 else g.editRecoveryReads;
      if AllReadOnly(uses) then
        g.(readOnlyTurns := g.readOnlyTurns + 1, editRecoveryReads := if recovery > 0 then recovery - 1 else recovery)
      else
        g.(readOnlyTurns := 0, editRecoveryReads := recovery)
  }

  function AfterTools(g: GuardState, uses: seq<ToolUse>, results: seq<ToolResult>): GuardState {
    var g' := NoteSpec(g, uses, results);
    if g'.budget.None? then g' else g'.(budget := Some(ConsumeSpec(g'.budget.value, uses, results)))
  }

  // The tool calls of one model response, with the results they give if they are executed.
  datatype Attempt = Attempt(uses: seq<ToolUse>, results: seq<ToolResult>)

  // An executed turn; nudged: the exhaustion nudge was active; flagged: the guard let a repeated read pass.
  datatype Turn = Turn(uses: seq<ToolUse>, results: seq<ToolResult>, nudged: bool, flagged: bool)

  datatype History = History(g: GuardState, executed: seq<Turn>)

  function Step(cfg: Option<GuardConfig>, h: History, a: Attempt): History {
    var (g, reason) := Decide(cfg, h.g, a.uses);
    if reason.Some? then h.(g := g)
    else
      var turn := Turn(a.uses, a.results, NudgeActive(h.g), g.warned && !h.g.warned);
      History(AfterTools(g, a.uses, a.results), h.executed + [turn])
  }

  // The session after any sequence of attempts.
  function HistoryAfter(cfg: Option<GuardConfig>, budget: int, attempts: seq<Attempt>): History {
    if attempts == [] then History(InitialState(budget), [])
    else Step(cfg, HistoryAfter(cfg, budget, attempts[..|attempts| - 1]), attempts[|attempts| - 1])
  }

  lemma {:induction false} HistorySnoc(cfg: Option<GuardConfig>, budget: int, attempts: seq<Attempt>, a: Attempt)
    ensures HistoryAfter(cfg, budget, attempts + [a]) == Step(cfg, HistoryAfter(cfg, budget, attempts), a)
  {
    assert (attempts + [a])[..|attempts|] == attempts;
  }

  // ---------------------------------------------------------------------------------------------

  predicate Guarded(cfg: Option<GuardConfig>) {
    cfg.Some? && cfg.value.enabled
  }

  // How many of the last executed turns are all read-only.
  function TrailingReadOnly(executed: seq<Turn>): nat {
    if executed == [] || !AllReadOnly(executed[|executed| - 1].uses) then 0
    else 1 + TrailingReadOnly(executed[..|executed| - 1])
  }

  function ReadOnlyBound(cfg: Option<GuardConfig>): int
    requires cfg.Some?
  {
    if cfg.value.maxReadOnlyTurns - 1 > 1 then cfg.value.maxReadOnlyTurns - 1 else 1
  }

  lemma ReadOnlyNamesDoNotMutate(uses: seq<ToolUse>, results: seq<ToolResult>)
    requires AllReadOnly(uses)
    ensures !MutationSucceeded(uses, results) && !EditFailed(uses, results)
  {
    assert "write_file"[0] == 'w' && "edit_file"[0] == 'e' && "shell"[0] == 's';
    assert "grep"[0] == 'g' && "read_file"[0] == 'r' && "list_files"[0] == 'l';
    forall i | 0 <= i < |uses|
      ensures !IsMutating(uses[i]) && uses[i].name != "edit_file"
    {
      assert IsReadOnly(uses[i]);
    }
  }

  // The counter is exact, the recovery credit is at most one, and a credit means the counter is zero.
  ghost predicate CountersExact(cfg: Option<GuardConfig>, h: History) {
    && h.g.readOnlyTurns == TrailingReadOnly(h.executed)
    && 0 <= h.g.editRecoveryReads <= 1
    && (h.g.editRecoveryReads > 0 ==> h.g.readOnlyTurns == 0)
    && (Guarded(cfg) && cfg.value.maxReadOnlyTurns >= 1 ==> h.g.readOnlyTurns <= ReadOnlyBound(cfg))
  }

  // What the guard lets pass leaves the counters alone; an all-read-only turn passes only below the
  // limit or on the recovery credit.
  lemma DecideKeepsCounters(cfg: Option<GuardConfig>, g: GuardState, uses: seq<ToolUse>)
    ensures var (g', reason) := Decide(cfg, g, uses);
            && g'.readOnlyTurns == g.readOnlyTurns && g'.editRecoveryReads == g.editRecoveryReads
            && (Guarded(cfg) && cfg.value.maxReadOnlyTurns >= 1 && AllReadOnly(uses) && reason.None? ==>
                  g.editRecoveryReads > 0 || g.readOnlyTurns + 1 < cfg.value.maxReadOnlyTurns)
  {
  }

  // What the results of an executed turn do to the counters.
  lemma NoteCounters(g: GuardState, uses: seq<ToolUse>, results: seq<ToolResult>)
    ensures var g' := AfterTools(g, uses, results);
            && g'.readOnlyTurns == (if AllReadOnly(uses) then g.readOnlyTurns + 1 else 0)
            && g'.editRecoveryReads == (if AllReadOnly(uses) then if g.editRecoveryReads > 0 then
                 g.editRecoveryReads - 1 else g.editRecoveryReads
                                        else if MutationSucceeded(uses, results) then 0
                                        else if EditFailed(uses, results) then 1 else g.editRecoveryReads)
  {
    if AllReadOnly(uses) {
      ReadOnlyNamesDoNotMutate(uses, results);
    }
  }

  lemma {:induction false} TrailingSnoc(executed: seq<Turn>, turn: Turn)
    ensures TrailingReadOnly(executed + [turn]) == if AllReadOnly(turn.uses) then 1 + TrailingReadOnly(executed) else 0
  {
    assert (executed + [turn])[..|executed|] == executed;
  }

  lemma CountersPassed(cfg: Option<GuardConfig>, h: History, g: GuardState, turn: Turn)
    requires CountersExact(cfg, h) && g.readOnlyTurns == h.g.readOnlyTurns
             && g.editRecoveryReads == h.g.editRecoveryReads
    requires Guarded(cfg) && cfg.value.maxReadOnlyTurns >= 1 && AllReadOnly(turn.uses) ==>
               g.editRecoveryReads > 0 || g.readOnlyTurns + 1 < cfg.value.maxReadOnlyTurns
    ensures CountersExact(cfg, History(AfterTools(g, turn.uses, turn.results), h.executed + [turn]))
  {
    NoteCounters(g, turn.uses, turn.results);
    TrailingSnoc(h.executed, turn);
  }

  lemma CountersStep(cfg: Option<GuardConfig>, h: History, a: Attempt)
    requires CountersExact(cfg, h)
    ensures CountersExact(cfg, Step(cfg, h, a))
  {
    DecideKeepsCounters(cfg, h.g, a.uses);
    var (g, reason) := Decide(cfg, h.g, a.uses);
    if reason.None? {
      CountersPassed(cfg, h, g, Turn(a.uses, a.results, NudgeActive(h.g), g.warned && !h.g.warned));
    }
  }

  lemma {:induction false} CounterInvariant(cfg: Option<GuardConfig>, budget: int, attempts: seq<Attempt>)
    ensures CountersExact(cfg, HistoryAfter(cfg, budget, attempts))
  {
    if attempts != [] {
      CounterInvariant(cfg, budget, attempts[..|attempts| - 1]);
      CountersStep(cfg, HistoryAfter(cfg, budget, attempts[..|attempts| - 1]), attempts[|attempts| - 1]);
    }
  }

  lemma {:induction false} SpanWithinTrailing(executed: seq<Turn>, i: nat)
    requires i <= |executed| && forall k :: i <= k < |executed| ==> AllReadOnly(executed[k].uses)
    ensures |executed| - i <= TrailingReadOnly(executed)
  {
    if i < |executed| {
      SpanWithinTrailing(executed[..|executed| - 1], i);
    }
  }

  // At most max(1, N - 1) consecutive executed turns are all read-only, over any sequence of runs.
  lemma {:induction false} ReadOnlySpansAreBounded(cfg: Option<GuardConfig>, budget: int, attempts: seq<Attempt>,
          i: nat, j: nat)
    requires Guarded(cfg) && cfg.value.maxReadOnlyTurns >= 1
    requires i <= j <= |HistoryAfter(cfg, budget, attempts).executed|
    requires forall k :: i <= k < j ==> AllReadOnly(HistoryAfter(cfg, budget, attempts).executed[k].uses)
    ensures j - i <= ReadOnlyBound(cfg)
  {
    if attempts != [] {
      var h, before := HistoryAfter(cfg, budget, attempts), HistoryAfter(cfg, budget, attempts[..|attempts| - 1]);
      if j <= |before.executed| {
        forall k | i <= k < j
          ensures before.executed[k] == h.executed[k]
        {
        }
        ReadOnlySpansAreBounded(cfg, budget, attempts[..|attempts| - 1], i, j);
      } else {
        SpanWithinTrailing(h.executed, i);
        CounterInvariant(cfg, budget, attempts);
      }
    }
  }

  // The bound is reached: without a budget N - 1 searches are executed and the N-th is refused.
  lemma {:induction false} BoundIsReached(cfg: Option<GuardConfig>, budget: int, greps: seq<Attempt>, grep: Attempt)
    requires Guarded(cfg) && |greps| == cfg.value.maxReadOnlyTurns - 1 && budget <= 0
    requires IsSearch(grep) && forall i :: 0 <= i < |greps| ==> IsSearch(greps[i])
    ensures var h := HistoryAfter(cfg, budget, greps);
            && |h.executed| == TrailingReadOnly(h.executed) == |greps|
            && Decide(cfg, h.g, grep.uses).1 == Some(MaxReadOnlyTurns(|greps| + 1))
  {
    CounterInvariant(cfg, budget, greps);
    GrepsAreExecuted(cfg, budget, greps);
    GrepIsStopped(cfg, grep, HistoryAfter(cfg, budget, greps), |greps|);
  }

  predicate IsSearch(a: Attempt) {
    |a.uses| == 1 && a.uses[0].name == "grep"
  }

  predicate Counted(h: History, n: nat) {
    |h.executed| == n && h.g == GuardState(n, false, 0, false, None, map[], None)
  }

  lemma {:induction false} GrepsAreExecuted(cfg: Option<GuardConfig>, budget: int, greps: seq<Attempt>)
    requires Guarded(cfg) && |greps| <= cfg.value.maxReadOnlyTurns - 1 && budget <= 0
    requires forall i :: 0 <= i < |greps| ==> IsSearch(greps[i])
    ensures Counted(HistoryAfter(cfg, budget, greps), |greps|)
  {
    if greps != [] {
      var rest := greps[..|greps| - 1];
      GrepsAreExecuted(cfg, budget, rest);
      GrepCounts(cfg, HistoryAfter(cfg, budget, rest), greps[|greps| - 1], |rest|);
    }
  }

  lemma {:induction false} GrepCounts(cfg: Option<GuardConfig>, h: History, grep: Attempt, n: nat)
    requires Guarded(cfg) && n + 1 < cfg.value.maxReadOnlyTurns && IsSearch(grep) && Counted(h, n)
    ensures Counted(Step(cfg, h, grep), n + 1)
  {
    GrepIsFine(cfg, grep, h.g, n);
  }

  lemma {:induction false} GrepIsStopped(cfg: Option<GuardConfig>, grep: Attempt, h: History, n: nat)
    requires Guarded(cfg) && n + 1 == cfg.value.maxReadOnlyTurns && Counted(h, n) && CountersExact(cfg, h)
             && IsSearch(grep)
    ensures |h.executed| == TrailingReadOnly(h.executed) == n
            && Decide(cfg, h.g, grep.uses).1 == Some(MaxReadOnlyTurns(n + 1))
  {
    assert AllReadOnly(grep.uses);
  }

  lemma GrepIsFine(cfg: Option<GuardConfig>, grep: Attempt, g: GuardState, n: nat)
    requires Guarded(cfg) && n + 1 < cfg.value.maxReadOnlyTurns && IsSearch(grep)
    requires g == GuardState(n, false, 0, false, None, map[], None)
    ensures Decide(cfg, g, grep.uses) == (g, None)
    ensures AfterTools(g, grep.uses, grep.results) == g.(readOnlyTurns := n + 1)
  {
    assert AllReadOnly(grep.uses) && grep.uses == [grep.uses[0]];
    ReadOnlyNamesDoNotMutate(grep.uses, grep.results);
    assert Classify(grep.uses[0]) == Ignored by {
      assert "grep"[0] == 'g' && "read_file"[0] == 'r' && "shell"[0] == 's' && "write_file"[0] == 'w'
             && "edit_file"[0] == 'e';
    }
    TrackSingle(map[], grep.uses[0]);
  }

  ghost predicate EditKnown(h: History) {
    h.g.editSucceeded <==>
    exists i :: 0 <= i < |h.executed| && MutationSucceeded(h.executed[i].uses, h.executed[i].results)
  }

  lemma EditKnownPassed(h: History, g: GuardState, turn: Turn)
    requires EditKnown(h) && g.editSucceeded == h.g.editSucceeded
    ensures EditKnown(History(AfterTools(g, turn.uses, turn.results), h.executed + [turn]))
  {
    var executed := h.executed + [turn];
    assert executed[|h.executed|] == turn && forall i :: 0 <= i < |h.executed| ==> executed[i] == h.executed[i];
    if h.g.editSucceeded {
      var i :| 0 <= i < |h.executed| && MutationSucceeded(h.executed[i].uses, h.executed[i].results);
      assert MutationSucceeded(executed[i].uses, executed[i].results);
    }
    if MutationSucceeded(turn.uses, turn.results) {
      assert MutationSucceeded(executed[|h.executed|].uses, executed[|h.executed|].results);
    }
  }

  lemma DecideKeepsEdit(cfg: Option<GuardConfig>, g: GuardState, uses: seq<ToolUse>)
    ensures Decide(cfg, g, uses).0.editSucceeded == g.editSucceeded
  {
  }

  lemma {:induction false} EditIsRemembered(cfg: Option<GuardConfig>, budget: int, attempts: seq<Attempt>)
    ensures var h := HistoryAfter(cfg, budget, attempts);
            h.g.editSucceeded <==>
            exists i :: 0 <= i < |h.executed| && MutationSucceeded(h.executed[i].uses, h.executed[i].results)
  {
    if attempts != [] {
      var h, a := HistoryAfter(cfg, budget, attempts[..|attempts| - 1]), attempts[|attempts| - 1];
      EditIsRemembered(cfg, budget, attempts[..|attempts| - 1]);
      assert EditKnown(h);
      EditKnownStep(cfg, h, a);
    }
  }

  lemma EditKnownStep(cfg: Option<GuardConfig>, h: History, a: Attempt)
    requires EditKnown(h)
    ensures EditKnown(Step(cfg, h, a))
  {
    DecideKeepsEdit(cfg, h.g, a.uses);
    var (g, reason) := Decide(cfg, h.g, a.uses);
    if reason.None? {
      EditKnownPassed(h, g, Turn(a.uses, a.results, NudgeActive(h.g), g.warned && !h.g.warned));
    }
  }

  // Once a mutating tool has succeeded, no later executed turn contains a read-only tool.
  lemma {:induction false} NoReadAfterEdit(cfg: Option<GuardConfig>, budget: int, attempts: seq<Attempt>, i: nat,
          j: nat)
    requires Guarded(cfg) && cfg.value.stopReadOnlyAfterEdit
    requires i < j < |HistoryAfter(cfg, budget, attempts).executed|
    requires var turn := HistoryAfter(cfg, budget, attempts).executed[i]; MutationSucceeded(turn.uses, turn.results)
    ensures !HasReadOnly(HistoryAfter(cfg, budget, attempts).executed[j].uses)
  {
    if attempts != [] {
      var rest := attempts[..|attempts| - 1];
      var before := HistoryAfter(cfg, budget, rest);
      if j < |before.executed| {
        NoReadAfterEdit(cfg, budget, rest, i, j);
      } else {
        EditIsRemembered(cfg, budget, rest);
        assert MutationSucceeded(before.executed[i].uses, before.executed[i].results);
      }
    }
  }

  function NudgedReadTurns(executed: seq<Turn>): nat {
    if executed == [] then 0
    else
      var last := executed[|executed| - 1];
      NudgedReadTurns(executed[..|executed| - 1]) + if last.nudged && AllReadOnly(last.uses) then 1 else 0
  }

  function FailedEditTurns(executed: seq<Turn>): nat {
    if executed == [] then 0
    else
      var last := executed[|executed| - 1];
      FailedEditTurns(executed[..|executed| - 1]) + if EditFailed(last.uses, last.results) then 1 else 0
  }

  ghost predicate PaidFor(h: History) {
    NudgedReadTurns(h.executed) + h.g.editRecoveryReads <= FailedEditTurns(h.executed)
  }

  lemma DecideRefusesNudged(cfg: Option<GuardConfig>, g: GuardState, uses: seq<ToolUse>)
    requires Guarded(cfg) && cfg.value.stopOnBudgetExhausted && NudgeActive(g) && HasReadOnly(uses)
    requires Decide(cfg, g, uses).1.None?
    ensures g.editRecoveryReads > 0
  {
  }

  lemma PaidForPassed(h: History, g: GuardState, turn: Turn)
    requires PaidFor(h) && g.editRecoveryReads == h.g.editRecoveryReads >= 0
    requires turn.nudged && AllReadOnly(turn.uses) ==> g.editRecoveryReads > 0
    ensures PaidFor(History(AfterTools(g, turn.uses, turn.results), h.executed + [turn]))
  {
    NoteCounters(g, turn.uses, turn.results);
    assert (h.executed + [turn])[..|h.executed|] == h.executed;
    if AllReadOnly(turn.uses) {
      ReadOnlyNamesDoNotMutate(turn.uses, turn.results);
    }
  }

  // While the exhaustion nudge is active, every all-read-only turn is paid for by its own failed edit.
  lemma {:induction false} RecoveryIsPaidFor(cfg: Option<GuardConfig>, budget: int, attempts: seq<Attempt>)
    requires Guarded(cfg) && cfg.value.stopOnBudgetExhausted
    ensures var h := HistoryAfter(cfg, budget, attempts);
            NudgedReadTurns(h.executed) + h.g.editRecoveryReads <= FailedEditTurns(h.executed)
  {
    if attempts != [] {
      var rest, a := attempts[..|attempts| - 1], attempts[|attempts| - 1];
      RecoveryIsPaidFor(cfg, budget, rest);
      CounterInvariant(cfg, budget, rest);
      PaidForStep(cfg, HistoryAfter(cfg, budget, rest), a);
    }
  }

  lemma PaidForStep(cfg: Option<GuardConfig>, h: History, a: Attempt)
    requires Guarded(cfg) && cfg.value.stopOnBudgetExhausted && PaidFor(h) && CountersExact(cfg, h)
    ensures PaidFor(Step(cfg, h, a))
  {
    DecideKeepsCounters(cfg, h.g, a.uses);
    var (g, reason) := Decide(cfg, h.g, a.uses);
    if reason.None? {
      if NudgeActive(h.g) && AllReadOnly(a.uses) {
        assert IsReadOnly(a.uses[0]);
        DecideRefusesNudged(cfg, h.g, a.uses);
      }
      PaidForPassed(h, g, Turn(a.uses, a.results, NudgeActive(h.g), g.warned && !h.g.warned));
    }
  }

  function NudgedTurnsWithRead(executed: seq<Turn>): nat {
    if executed == [] then 0
    else
      var last := executed[|executed| - 1];
      NudgedTurnsWithRead(executed[..|executed| - 1]) + if last.nudged && HasReadOnly(last.uses) then 1 else 0
  }

  // A turn that mixes a read with another call, neither mutating anything nor failing an edit.
  predicate Mixed(uses: seq<ToolUse>, results: seq<ToolResult>) {
    HasReadOnly(uses) && !AllReadOnly(uses) && !MutationSucceeded(uses, results) && !EditFailed(uses, results)
  }

  function NudgedMixedTurns(executed: seq<Turn>): nat {
    if executed == [] then 0
    else
      var last := executed[|executed| - 1];
      NudgedMixedTurns(executed[..|executed| - 1]) + if last.nudged && Mixed(last.uses, last.results) then 1 else 0
  }

  ghost predicate PaidOrMixed(h: History) {
    NudgedTurnsWithRead(h.executed) + h.g.editRecoveryReads
      <= FailedEditTurns(h.executed) + NudgedMixedTurns(h.executed)
  }

  lemma PaidOrMixedPassed(h: History, g: GuardState, turn: Turn)
    requires PaidOrMixed(h) && 0 <= g.editRecoveryReads == h.g.editRecoveryReads <= 1
    requires turn.nudged && HasReadOnly(turn.uses) ==> g.editRecoveryReads > 0
    ensures PaidOrMixed(History(AfterTools(g, turn.uses, turn.results), h.executed + [turn]))
  {
    NoteCounters(g, turn.uses, turn.results);
    assert (h.executed + [turn])[..|h.executed|] == h.executed;
    if AllReadOnly(turn.uses) {
      ReadOnlyNamesDoNotMutate(turn.uses, turn.results);
    }
  }

  lemma PaidOrMixedStep(cfg: Option<GuardConfig>, h: History, a: Attempt)
    requires Guarded(cfg) && cfg.value.stopOnBudgetExhausted && PaidOrMixed(h) && CountersExact(cfg, h)
    ensures PaidOrMixed(Step(cfg, h, a))
  {
    DecideKeepsCounters(cfg, h.g, a.uses);
    var (g, reason) := Decide(cfg, h.g, a.uses);
    if reason.None? {
      if NudgeActive(h.g) && HasReadOnly(a.uses) {
        DecideRefusesNudged(cfg, h.g, a.uses);
      }
      PaidOrMixedPassed(h, g, Turn(a.uses, a.results, NudgeActive(h.g), g.warned && !h.g.warned));
    }
  }

  // Of all turns with a read that are executed while the exhaustion nudge is active, the mixed ones are the
  // only ones not paid for by a failed edit each.
  lemma {:induction false} OnlyMixedTurnsAreFree(cfg: Option<GuardConfig>, budget: int, attempts: seq<Attempt>)
    requires Guarded(cfg) && cfg.value.stopOnBudgetExhausted
    ensures var h := HistoryAfter(cfg, budget, attempts);
            NudgedTurnsWithRead(h.executed) + h.g.editRecoveryReads
              <= FailedEditTurns(h.executed) + NudgedMixedTurns(h.executed)
  {
    if attempts != [] {
      var rest, a := attempts[..|attempts| - 1], attempts[|attempts| - 1];
      OnlyMixedTurnsAreFree(cfg, budget, rest);
      CounterInvariant(cfg, budget, rest);
      PaidOrMixedStep(cfg, HistoryAfter(cfg, budget, rest), a);
    }
  }

  // A state in which the credit is open under the nudge, with the turns counted so far.
  ghost predicate LivesOnCredit(h: History, failed: nat, n: nat) {
    && NudgedTurnsWithRead(h.executed) == n && FailedEditTurns(h.executed) == failed
    && h.g.editRecoveryReads == 1 && !h.g.editSucceeded && NudgeActive(h.g) && h.g.budget.value.nudgeActive
  }

  // Mixed turns never use the credit up: from any such state, under any enabled policy, any number of them
  // is executed, and the credit is still open.
  lemma {:induction false} MixedTurnsAreFree(cfg: Option<GuardConfig>, budget: int, attempts: seq<Attempt>,
          failed: nat, from: nat, more: seq<Attempt>)
    requires Guarded(cfg) && LivesOnCredit(HistoryAfter(cfg, budget, attempts), failed, from)
    requires forall i :: 0 <= i < |more| ==> Mixed(more[i].uses, more[i].results)
    ensures LivesOnCredit(HistoryAfter(cfg, budget, attempts + more), failed, from + |more|)
  {
    if more == [] {
      assert attempts + more == attempts;
    } else {
      var rest, last := more[..|more| - 1], more[|more| - 1];
      MixedTurnsAreFree(cfg, budget, attempts, failed, from, rest);
      assert attempts + more == attempts + rest + [last];
      CreditLasts(cfg, budget, attempts + rest, failed, last, from + |rest|);
    }
  }

  lemma {:induction false} CreditLasts(cfg: Option<GuardConfig>, budget: int, attempts: seq<Attempt>, failed: nat,
          mixed: Attempt, n: nat)
    requires Guarded(cfg) && Mixed(mixed.uses, mixed.results)
             && LivesOnCredit(HistoryAfter(cfg, budget, attempts), failed, n)
    ensures LivesOnCredit(HistoryAfter(cfg, budget, attempts + [mixed]), failed, n + 1)
  {
    HistorySnoc(cfg, budget, attempts, mixed);
    MixedStep(cfg, HistoryAfter(cfg, budget, attempts), failed, mixed, n);
  }

  lemma MixedStep(cfg: Option<GuardConfig>, h: History, failed: nat, mixed: Attempt, n: nat)
    requires Guarded(cfg) && Mixed(mixed.uses, mixed.results) && LivesOnCredit(h, failed, n)
    ensures LivesOnCredit(Step(cfg, h, mixed), failed, n + 1)
  {
    assert Decide(cfg, h.g, mixed.uses) == (h.g, None);
    ChargeKeepsNudge(h.g.budget.value, mixed.uses);
    var turn := Turn(mixed.uses, mixed.results, true, false);
    assert (h.executed + [turn])[..|h.executed|] == h.executed;
  }

  predicate FailingEdit(a: Attempt) {
    |a.uses| == 1 && a.uses[0].name == "edit_file" && a.results != [] && a.results[0].isError
  }

  // Such a state is reached for every budget, by as many failing edits; so the mixed turns executed under
  // the nudge are not bounded by the failed edits.
  lemma {:induction false} MixedTurnsAreNotPaidFor(cfg: Option<GuardConfig>, edits: seq<Attempt>, more: seq<Attempt>)
    requires Guarded(cfg) && |edits| > 0 && forall i :: 0 <= i < |edits| ==> FailingEdit(edits[i])
    requires forall i :: 0 <= i < |more| ==> Mixed(more[i].uses, more[i].results)
    ensures LivesOnCredit(HistoryAfter(cfg, |edits|, edits + more), |edits|, |more|)
  {
    EditsExhaust(cfg, |edits|, edits);
    MixedTurnsAreFree(cfg, |edits|, edits, |edits|, 0, more);
  }

  ghost predicate EditedTimes(h: History, budget: int, n: nat) {
    && NudgedTurnsWithRead(h.executed) == 0 && FailedEditTurns(h.executed) == n
    && (n > 0 ==> h.g.editRecoveryReads == 1) && !h.g.editSucceeded
    && h.g.budget.Some? && Tokens(h.g.budget.value, budget, n)
  }

  // n tokens of the budget are spent.
  predicate Tokens(b: BudgetState, budget: int, n: nat) {
    b.remaining == budget - n && (b.nudgeActive <==> budget <= n) && (b.nudge.Some? <==> budget <= n)
  }

  lemma {:induction false} EditsExhaust(cfg: Option<GuardConfig>, budget: int, edits: seq<Attempt>)
    requires Guarded(cfg) && budget > 0 && forall i :: 0 <= i < |edits| ==> FailingEdit(edits[i])
    ensures EditedTimes(HistoryAfter(cfg, budget, edits), budget, |edits|)
  {
    if edits != [] {
      var rest := edits[..|edits| - 1];
      EditsExhaust(cfg, budget, rest);
      EditStep(cfg, HistoryAfter(cfg, budget, rest), budget, edits[|edits| - 1], |rest|);
    }
  }

  lemma {:induction false} NotAllReadOnly(uses: seq<ToolUse>)
    requires !HasReadOnly(uses)
    ensures !AllReadOnly(uses)
  {
    assert uses != [] ==> uses[0] in uses;
  }

  // What a failed edit without reads does to a guard whose budget charges one token for it.
  lemma {:induction false} EditNoted(g: GuardState, uses: seq<ToolUse>, results: seq<ToolResult>, budget: int, n: nat)
    requires !AllReadOnly(uses) && EditFailed(uses, results) && !MutationSucceeded(uses, results)
    requires g.budget.Some? && Tokens(g.budget.value, budget, n)
    requires Charge(g.budget.value, uses) == g.budget.value.(remaining := g.budget.value.remaining - 1, counts := map[])
    ensures var g' := AfterTools(g, uses, results);
            && g'.editRecoveryReads == 1 && g'.editSucceeded == g.editSucceeded
            && g'.budget.Some? && Tokens(g'.budget.value, budget, n + 1)
  {
  }

  lemma {:induction false} EditCounted(h: History, g: GuardState, turn: Turn, budget: int, n: nat)
    requires EditedTimes(h, budget, n) && !HasReadOnly(turn.uses) && EditFailed(turn.uses, turn.results)
    requires g.editRecoveryReads == 1 && !g.editSucceeded && g.budget.Some? && Tokens(g.budget.value, budget, n + 1)
    ensures EditedTimes(History(g, h.executed + [turn]), budget, n + 1)
  {
    assert (h.executed + [turn])[..|h.executed|] == h.executed;
  }

  lemma {:induction false} EditStep(cfg: Option<GuardConfig>, h: History, budget: int, edit: Attempt, n: nat)
    requires Guarded(cfg) && FailingEdit(edit) && EditedTimes(h, budget, n)
    ensures EditedTimes(Step(cfg, h, edit), budget, n + 1)
  {
    EditIsPassed(cfg, h.g, edit);
    EditIsNoted(h.g.budget.value, edit);
    NotAllReadOnly(edit.uses);
    var g := Decide(cfg, h.g, edit.uses).0;
    EditNoted(g, edit.uses, edit.results, budget, n);
    var turn := Turn(edit.uses, edit.results, NudgeActive(h.g), g.warned && !h.g.warned);
    EditCounted(h, AfterTools(g, edit.uses, edit.results), turn, budget, n);
  }

  lemma FailingEditNames(edit: Attempt)
    requires FailingEdit(edit)
    ensures !HasReadOnly(edit.uses) && EditFailed(edit.uses, edit.results)
            && !MutationSucceeded(edit.uses, edit.results)
    ensures edit.uses == [edit.uses[0]] && Classify(edit.uses[0]) == Write && edit.uses[0].name != "grep"
  {
    assert "edit_file"[0] == 'e' && "read_file"[0] == 'r' && "list_files"[0] == 'l' && "shell"[0] == 's'
           && |"grep"| == 4;
    assert edit.uses[0].name == "edit_file" && edit.results[0].isError;
  }

  lemma EditIsPassed(cfg: Option<GuardConfig>, g: GuardState, edit: Attempt)
    requires Guarded(cfg) && FailingEdit(edit)
    ensures var (g', reason) := Decide(cfg, g, edit.uses);
            reason.None? && g'.budget == g.budget && g'.editSucceeded == g.editSucceeded
    ensures !HasReadOnly(edit.uses) && EditFailed(edit.uses, edit.results)
            && !MutationSucceeded(edit.uses, edit.results)
  {
    FailingEditNames(edit);
    TrackSingle(g.guardCounts, edit.uses[0]);
  }

  lemma {:induction false} EditIsNoted(b: BudgetState, edit: Attempt)
    requires FailingEdit(edit)
    ensures Charge(b, edit.uses) == b.(remaining := b.remaining - 1, counts := map[])
  {
    FailingEditNames(edit);
    TrackSingle(b.counts, edit.uses[0]);
    assert Charge(b, edit.uses) == Charge(b.(remaining := b.remaining - 1, counts := map[]), []);
  }

  lemma {:induction false} ChargeKeepsNudge(b: BudgetState, uses: seq<ToolUse>)
    ensures Charge(b, uses).nudge == b.nudge && Charge(b, uses).nudgeActive == b.nudgeActive
    decreases uses
  {
    if uses != [] {
      var (counts, nudge) := TrackBatch(b.counts, Accesses([uses[0]]));
      ChargeKeepsNudge(b, uses[1..]);
      ChargeKeepsNudge(b.(remaining := b.remaining - (if nudge.Some? then 2 else 1), counts := counts), uses[1..]);
    }
  }

  ghost predicate WarningKnown(h: History, i: nat) {
    i < |h.executed| && h.executed[i].flagged && !h.g.warned ==>
      exists k :: i <= k < |h.executed| && MutationSucceeded(h.executed[k].uses, h.executed[k].results)
  }

  lemma DecideWarns(cfg: Option<GuardConfig>, g: GuardState, uses: seq<ToolUse>)
    ensures g.warned ==> Decide(cfg, g, uses).0.warned
  {
  }

  lemma WarningKnownPassed(h: History, g: GuardState, turn: Turn, i: nat)
    requires WarningKnown(h, i) && (h.g.warned ==> g.warned) && turn.flagged == (g.warned && !h.g.warned)
    ensures WarningKnown(History(AfterTools(g, turn.uses, turn.results), h.executed + [turn]), i)
  {
    var executed := h.executed + [turn];
    assert executed[|h.executed|] == turn && forall k :: 0 <= k < |h.executed| ==> executed[k] == h.executed[k];
    if MutationSucceeded(turn.uses, turn.results) {
      assert MutationSucceeded(executed[|h.executed|].uses, executed[|h.executed|].results);
    } else if i < |h.executed| && h.executed[i].flagged && !h.g.warned {
      var k :| i <= k < |h.executed| && MutationSucceeded(h.executed[k].uses, h.executed[k].results);
      assert MutationSucceeded(executed[k].uses, executed[k].results);
    }
  }

  lemma {:induction false} WarningIsRemembered(cfg: Option<GuardConfig>, budget: int, attempts: seq<Attempt>, i: nat)
    ensures WarningKnown(HistoryAfter(cfg, budget, attempts), i)
  {
    if attempts != [] {
      WarningIsRemembered(cfg, budget, attempts[..|attempts| - 1], i);
      WarningKnownStep(cfg, HistoryAfter(cfg, budget, attempts[..|attempts| - 1]), attempts[|attempts| - 1], i);
    }
  }

  lemma WarningKnownStep(cfg: Option<GuardConfig>, h: History, a: Attempt, i: nat)
    requires WarningKnown(h, i)
    ensures WarningKnown(Step(cfg, h, a), i)
  {
    DecideWarns(cfg, h.g, a.uses);
    var (g, reason) := Decide(cfg, h.g, a.uses);
    if reason.None? {
      WarningKnownPassed(h, g, Turn(a.uses, a.results, NudgeActive(h.g), g.warned && !h.g.warned), i);
    } else if !g.warned {
      assert !h.g.warned;
    }
  }

  // While the warning stands, the repeated read it was given for has been let pass, and nothing has been
  // mutated since.
  ghost predicate WarningEarned(h: History) {
    h.g.warned ==>
      exists i :: 0 <= i < |h.executed| && h.executed[i].flagged && NoMutationFrom(h.executed, i)
  }

  predicate NoMutationFrom(executed: seq<Turn>, i: nat) {
    forall k :: i <= k < |executed| ==> !MutationSucceeded(executed[k].uses, executed[k].results)
  }

  lemma WarningEarnedPassed(h: History, g: GuardState, turn: Turn)
    requires WarningEarned(h) && turn.flagged == (g.warned && !h.g.warned)
    ensures WarningEarned(History(AfterTools(g, turn.uses, turn.results), h.executed + [turn]))
  {
    var executed := h.executed + [turn];
    assert executed[|h.executed|] == turn && forall k :: 0 <= k < |h.executed| ==> executed[k] == h.executed[k];
    if g.warned && !MutationSucceeded(turn.uses, turn.results) {
      if h.g.warned {
        var i :| 0 <= i < |h.executed| && h.executed[i].flagged && NoMutationFrom(h.executed, i);
        assert executed[i].flagged && NoMutationFrom(executed, i);
      } else {
        assert executed[|h.executed|].flagged && NoMutationFrom(executed, |h.executed|);
      }
    }
  }

  lemma WarningNeedsPass(cfg: Option<GuardConfig>, g: GuardState, uses: seq<ToolUse>)
    ensures var (g', reason) := Decide(cfg, g, uses);
            reason.Some? ==> g'.warned == g.warned
  {
  }

  lemma WarningEarnedStep(cfg: Option<GuardConfig>, h: History, a: Attempt)
    requires WarningEarned(h)
    ensures WarningEarned(Step(cfg, h, a))
  {
    WarningNeedsPass(cfg, h.g, a.uses);
    var (g, reason) := Decide(cfg, h.g, a.uses);
    if reason.None? {
      WarningEarnedPassed(h, g, Turn(a.uses, a.results, NudgeActive(h.g), g.warned && !h.g.warned));
    } else if g.warned {
      var i :| 0 <= i < |h.executed| && h.executed[i].flagged && NoMutationFrom(h.executed, i);
      assert h.executed[i].flagged && NoMutationFrom(Step(cfg, h, a).executed, i);
    }
  }

  lemma {:induction false} WarningIsEarned(cfg: Option<GuardConfig>, budget: int, attempts: seq<Attempt>)
    ensures WarningEarned(HistoryAfter(cfg, budget, attempts))
  {
    if attempts != [] {
      WarningIsEarned(cfg, budget, attempts[..|attempts| - 1]);
      WarningEarnedStep(cfg, HistoryAfter(cfg, budget, attempts[..|attempts| - 1]), attempts[|attempts| - 1]);
    }
  }

  // The guard lets at most one repeated read pass between successful mutations.
  lemma {:induction false} OneWarningPerEdit(cfg: Option<GuardConfig>, budget: int, attempts: seq<Attempt>, i: nat,
          j: nat)
    requires i < j < |HistoryAfter(cfg, budget, attempts).executed|
    requires HistoryAfter(cfg, budget, attempts).executed[i].flagged
             && HistoryAfter(cfg, budget, attempts).executed[j].flagged
    ensures var executed := HistoryAfter(cfg, budget, attempts).executed;
            exists k :: i <= k < j && MutationSucceeded(executed[k].uses, executed[k].results)
  {
    if attempts != [] {
      var rest := attempts[..|attempts| - 1];
      var executed, before := HistoryAfter(cfg, budget, attempts).executed, HistoryAfter(cfg, budget, rest);
      if j < |before.executed| {
        OneWarningPerEdit(cfg, budget, rest, i, j);
      } else {
        WarningIsRemembered(cfg, budget, rest, i);
      }
      var k :| i <= k < j && MutationSucceeded(before.executed[k].uses, before.executed[k].results);
      assert executed[k] == before.executed[k];
    }
  }
}
