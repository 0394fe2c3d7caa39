// session.go, guardBeforeTools: every verdict of the guard, in terms of the turns executed before it.
module GuardVerdicts {
  import opened Messages
  import opened ReadTracking
  import opened Exploration
  import opened Convergence
  import opened RepeatedReads
  import opened ToolKinds

  // ---------------------------------------------------------------------------------------------
  // The fields of the guard.

  // Some call that changes files, by its name or by the command it runs, was executed with success.
  predicate Edits(turn: Turn) {
    exists i :: && 0 <= i < |turn.uses| && i < |turn.results| && !turn.results[i].isError
                && (turn.uses[i].name in EDIT_TOOLS || RunsChange(turn.uses[i]))
  }

  predicate RunsChange(tu: ToolUse) {
    tu.name == "shell" && tu.input.command.Some? && Matches(GUARD_PATTERNS, tu.input.command.value)
  }

  predicate FailsEdit(turn: Turn) {
    exists i :: 0 <= i < |turn.uses| && i < |turn.results| && turn.results[i].isError
      && turn.uses[i].name == "edit_file"
  }

  predicate Reads(uses: seq<ToolUse>) {
    exists i :: 0 <= i < |uses| && uses[i].name in READ_TOOLS
  }

  predicate OnlyReads(uses: seq<ToolUse>) {
    uses != [] && forall i :: 0 <= i < |uses| ==> uses[i].name in READ_TOOLS
  }

  lemma TurnByName(turn: Turn)
    ensures Edits(turn) <==> MutationSucceeded(turn.uses, turn.results)
    ensures FailsEdit(turn) <==> EditFailed(turn.uses, turn.results)
    ensures OnlyReads(turn.uses) <==> AllReadOnly(turn.uses)
  {
  }

  predicate UsesUpCredit(turn: Turn) {
    Edits(turn) || OnlyReads(turn.uses)
  }

  // Some edit failed in a turn without a successful mutation, and neither a successful mutation nor an
  // all-read-only turn has followed.
  ghost predicate CreditOpen(executed: seq<Turn>) {
    exists i: nat :: CreditSince(executed, i)
  }

  ghost predicate CreditSince(executed: seq<Turn>, i: nat) {
    i < |executed| && FailsEdit(executed[i]) && forall j :: i <= j < |executed| ==> !UsesUpCredit(executed[j])
  }

  lemma {:induction false} CreditSnoc(executed: seq<Turn>, turn: Turn)
    ensures CreditOpen(executed + [turn])
            <==> !UsesUpCredit(turn) && (FailsEdit(turn) || CreditOpen(executed))
  {
    hide UsesUpCredit, FailsEdit;
    var all := executed + [turn];
    assert all[|executed|] == turn && forall i :: 0 <= i < |executed| ==> all[i] == executed[i];
    if i: nat :| CreditSince(all, i) {
      assert !UsesUpCredit(all[|executed|]);
      assert i < |executed| ==> CreditSince(executed, i);
    }
    if !UsesUpCredit(turn) {
      if FailsEdit(turn) {
        assert CreditSince(all, |executed|);
      } else if i: nat :| CreditSince(executed, i) {
        assert CreditSince(all, i);
      }
    }
  }

  // The recovery credit is there exactly if such an edit is still to be recovered from.
  lemma {:induction false} CreditIff(cfg: Option<GuardConfig>, budget: int, attempts: seq<Attempt>)
    ensures var h := HistoryAfter(cfg, budget, attempts);
            h.g.editRecoveryReads == if CreditOpen(h.executed) then 1 else 0
  {
    if attempts != [] {
      var rest, a := attempts[..|attempts| - 1], attempts[|attempts| - 1];
      CreditIff(cfg, budget, rest);
      CreditStep(cfg, HistoryAfter(cfg, budget, rest), a);
    }
  }

  lemma {:induction false} CreditStep(cfg: Option<GuardConfig>, h: History, a: Attempt)
    requires h.g.editRecoveryReads == if CreditOpen(h.executed) then 1 else 0
    ensures Step(cfg, h, a).g.editRecoveryReads == if CreditOpen(Step(cfg, h, a).executed) then 1 else 0
  {
    hide Decide, CreditOpen, ConsumeSpec, Edits, FailsEdit, OnlyReads, MutationSucceeded, EditFailed, AllReadOnly;
    DecideKeepsCounters(cfg, h.g, a.uses);
    var (g, reason) := Decide(cfg, h.g, a.uses);
    if reason.None? {
      NoteCounters(g, a.uses, a.results);
      var turn := Turn(a.uses, a.results, NudgeActive(h.g), g.warned && !h.g.warned);
      TurnByName(turn);
      CreditSnoc(h.executed, turn);
      if AllReadOnly(a.uses) {
        ReadOnlyNamesDoNotMutate(a.uses, a.results);
      }
    }
  }

  function BatchesOf(executed: seq<Turn>): seq<Batch> {
    if executed == [] then []
    else
      var last := executed[|executed| - 1];
      BatchesOf(executed[..|executed| - 1]) + [Batch(last.uses, last.results)]
  }

  // The budget in the guard's view is the one that has consumed the executed turns and no other.
  lemma {:induction false} BudgetFollowsTurns(cfg: Option<GuardConfig>, budget: int, attempts: seq<Attempt>)
    ensures var h := HistoryAfter(cfg, budget, attempts);
            h.g.budget == if budget > 0 then Some(BudgetAfter(budget, BatchesOf(h.executed))) else None
  {
    if attempts != [] {
      var rest, a := attempts[..|attempts| - 1], attempts[|attempts| - 1];
      BudgetFollowsTurns(cfg, budget, rest);
      BudgetStep(cfg, HistoryAfter(cfg, budget, rest), budget, a);
    }
  }

  lemma {:induction false} BatchesSnoc(budget: int, executed: seq<Turn>, turn: Turn)
    ensures BudgetAfter(budget, BatchesOf(executed + [turn]))
            == ConsumeSpec(BudgetAfter(budget, BatchesOf(executed)), turn.uses, turn.results)
  {
  }

  lemma {:induction false} BudgetStep(cfg: Option<GuardConfig>, h: History, budget: int, a: Attempt)
    requires h.g.budget == if budget > 0 then Some(BudgetAfter(budget, BatchesOf(h.executed))) else None
    ensures var next := Step(cfg, h, a);
            next.g.budget == if budget > 0 then Some(BudgetAfter(budget, BatchesOf(next.executed))) else None
  {
    hide ConsumeSpec, BudgetAfter, BatchesOf, Decide;
    DecideKeepsBudget(cfg, h.g, a.uses);
    var (g, reason) := Decide(cfg, h.g, a.uses);
    BatchesSnoc(budget, h.executed, Turn(a.uses, a.results, NudgeActive(h.g), g.warned && !h.g.warned));
  }

  lemma DecideKeepsBudget(cfg: Option<GuardConfig>, g: GuardState, uses: seq<ToolUse>)
    ensures Decide(cfg, g, uses).0.budget == g.budget
  {
  }

  // The text appended to the system prompt is there exactly from a repeated read let pass to the next
  // successful mutation, and names a region counted three times.
  lemma {:induction false} GuardNudgeIff(cfg: Option<GuardConfig>, budget: int, attempts: seq<Attempt>)
    ensures var g := HistoryAfter(cfg, budget, attempts).g;
            (g.guardNudge.Some? <==> g.warned) && (g.guardNudge.Some? ==> g.guardNudge.value.times >= THRESHOLD)
  {
    if attempts != [] {
      var rest, a := attempts[..|attempts| - 1], attempts[|attempts| - 1];
      GuardNudgeIff(cfg, budget, rest);
      hide Step;
      NudgeStep(cfg, HistoryAfter(cfg, budget, rest), a);
    }
  }

  ghost predicate NudgeKnown(g: GuardState) {
    (g.guardNudge.Some? <==> g.warned) && (g.guardNudge.Some? ==> g.guardNudge.value.times >= THRESHOLD)
  }

  lemma {:induction false} NudgeStep(cfg: Option<GuardConfig>, h: History, a: Attempt)
    requires NudgeKnown(h.g)
    ensures NudgeKnown(Step(cfg, h, a).g)
  {
    hide TrackBatch, Accesses, ConsumeSpec;
    NudgeTimes(h.g.guardCounts, Accesses(a.uses));
    assert NudgeKnown(Decide(cfg, h.g, a.uses).0);
  }

  lemma {:induction false} NudgeTimes(m: Counts, batch: seq<Access>)
    ensures TrackBatch(m, batch).1.Some? ==> TrackBatch(m, batch).1.value.times >= THRESHOLD
    decreases batch
  {
    if batch != [] {
      var (m', nudge) := TrackOne(m, batch[0]);
      if batch[0].Read? {
        BumpTimes(m, batch[0].keys);
      }
      NudgeTimes(m', batch[1..]);
    }
  }

  lemma {:induction false} BumpTimes(m: Counts, keys: seq<Key>)
    ensures Bump(m, keys).1.Some? ==> Bump(m, keys).1.value.times >= THRESHOLD
    decreases keys
  {
    if keys != [] {
      BumpTimes(m[keys[0] := Get(m, keys[0]) + 1], keys[1..]);
    }
  }

  ghost predicate Edited(executed: seq<Turn>) {
    exists i :: 0 <= i < |executed| && Edits(executed[i])
  }

  lemma {:induction false} EditedIff(cfg: Option<GuardConfig>, budget: int, attempts: seq<Attempt>)
    ensures var h := HistoryAfter(cfg, budget, attempts); h.g.editSucceeded <==> Edited(h.executed)
  {
    var executed := HistoryAfter(cfg, budget, attempts).executed;
    EditIsRemembered(cfg, budget, attempts);
    forall i | 0 <= i < |executed|
      ensures Edits(executed[i]) <==> MutationSucceeded(executed[i].uses, executed[i].results)
    {
      TurnByName(executed[i]);
    }
    hide Edits, MutationSucceeded, HistoryAfter;
  }

  // A repeated read has been let pass with no successful mutation in or after its turn.
  ghost predicate Warned(executed: seq<Turn>) {
    exists i: nat :: WarnedSince(executed, i)
  }

  ghost predicate WarnedSince(executed: seq<Turn>, i: nat) {
    i < |executed| && executed[i].flagged && forall j :: i <= j < |executed| ==> !Edits(executed[j])
  }

  lemma {:induction false} WarnedIff(cfg: Option<GuardConfig>, budget: int, attempts: seq<Attempt>)
    ensures var h := HistoryAfter(cfg, budget, attempts); h.g.warned <==> Warned(h.executed)
  {
    var h := HistoryAfter(cfg, budget, attempts);
    WarningIsEarned(cfg, budget, attempts);
    forall j | 0 <= j < |h.executed|
      ensures Edits(h.executed[j]) <==> MutationSucceeded(h.executed[j].uses, h.executed[j].results)
    {
      TurnByName(h.executed[j]);
    }
    hide Edits, MutationSucceeded, HistoryAfter;
    if i: nat :| WarnedSince(h.executed, i) {
      WarningIsRemembered(cfg, budget, attempts, i);
      assert WarningKnown(h, i);
    }
    if i :| 0 <= i < |h.executed| && h.executed[i].flagged && NoMutationFrom(h.executed, i) {
      assert WarnedSince(h.executed, i);
    }
  }

  // ---------------------------------------------------------------------------------------------
  // The verdicts.

  // The exhaustion nudge, from what the executed turns have spent.
  ghost predicate Exhausted(budget: int, executed: seq<Turn>) {
    budget > 0 && BudgetAfter(budget, BatchesOf(executed)).nudge.Some?
  }

  // The verdict that the policy asks for, check by check.
  ghost function Verdict(cfg: GuardConfig, budget: int, executed: seq<Turn>, heard: seq<Access>, uses: seq<ToolUse>):
      Option<GuardReason>
  {
    if cfg.stopReadOnlyAfterEdit && Edited(executed) && Reads(uses) then Some(ReadOnlyAfterEdit)
    else if CreditOpen(executed) && Reads(uses) then None
    else if cfg.stopOnBudgetExhausted && Exhausted(budget, executed) && Reads(uses) then Some(BudgetExhausted)
    else if cfg.maxReadOnlyTurns > 0 && OnlyReads(uses) && TrailingReadOnly(executed) + 1 >= cfg.maxReadOnlyTurns then
      Some(MaxReadOnlyTurns(cfg.maxReadOnlyTurns))
    else if cfg.stopOnRepeatedRead && Warned(executed) && TrackBatch(CountsAfter(heard), Accesses(uses)).1.Some? then
      Some(RepeatedRead)
    else None
  }

  // The guard decides as if it looked at the executed turns, the accesses its tracker has heard of, and the
  // names of the calls; without a policy it lets everything pass.
  lemma {:induction false} VerdictsFollowTheTurns(cfg: Option<GuardConfig>, budget: int, attempts: seq<Attempt>,
          uses: seq<ToolUse>)
    ensures var h := HistoryAfter(cfg, budget, attempts);
            Decide(cfg, h.g, uses).1
            == if cfg.None? || !cfg.value.enabled then None
               else Verdict(cfg.value, budget, h.executed, GuardLog(cfg, budget, attempts), uses)
  {
    CreditIff(cfg, budget, attempts);
    BudgetFollowsTurns(cfg, budget, attempts);
    WarnedIff(cfg, budget, attempts);
    EditedIff(cfg, budget, attempts);
    CounterInvariant(cfg, budget, attempts);
    GuardCountsItsLog(cfg, budget, attempts);
    TurnsByName(uses);
    hide HistoryAfter, CreditOpen, Warned, Edited, BudgetAfter, TrackBatch, Accesses, CountsAfter, GuardLog;
  }

  // A repeated read that the guard lets pass, for the first time since the last successful mutation, flags
  // its turn.
  lemma {:induction false} FlagsFollowTheTurns(cfg: Option<GuardConfig>, budget: int, attempts: seq<Attempt>,
          a: Attempt)
    requires Decide(cfg, HistoryAfter(cfg, budget, attempts).g, a.uses).1.None?
    ensures var executed, next := HistoryAfter(cfg, budget, attempts).executed,
            HistoryAfter(cfg, budget, attempts + [a]).executed;
            && |next| == |executed| + 1 && next[|executed|].uses == a.uses && next[|executed|].results == a.results
            && (next[|executed|].flagged <==>
                  && cfg.Some? && cfg.value.enabled && cfg.value.stopOnRepeatedRead
                  && !(CreditOpen(executed) && Reads(a.uses)) && !Warned(executed)
                  && TrackBatch(CountsAfter(GuardLog(cfg, budget, attempts)), Accesses(a.uses)).1.Some?)
  {
    CreditIff(cfg, budget, attempts);
    WarnedIff(cfg, budget, attempts);
    GuardCountsItsLog(cfg, budget, attempts);
    HistorySnoc(cfg, budget, attempts, a);
    TurnsByName(a.uses);
    hide HistoryAfter, CreditOpen, Warned, BudgetAfter, TrackBatch, Accesses, CountsAfter, GuardLog, ConsumeSpec;
  }
}
