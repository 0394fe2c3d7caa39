// session.go, guardBeforeTools: what the verdict on a repeated read rests on.
module RepeatedReads {
  import opened Messages
  import opened ReadTracking
  import opened Exploration
  import opened Convergence

  // The guard gets as far as its read tracker: no earlier check decides.
  predicate Consults(cfg: Option<GuardConfig>, g: GuardState, uses: seq<ToolUse>) {
    && Guarded(cfg) && cfg.value.stopOnRepeatedRead
    && !(cfg.value.stopReadOnlyAfterEdit && g.editSucceeded && HasReadOnly(uses))
    && !(g.editRecoveryReads > 0 && HasReadOnly(uses))
    && !(cfg.value.stopOnBudgetExhausted && NudgeActive(g) && HasReadOnly(uses))
    && !(cfg.value.maxReadOnlyTurns > 0 && AllReadOnly(uses) && g.readOnlyTurns + 1 >= cfg.value.maxReadOnlyTurns)
  }

  // The accesses of an attempt that the tracker looks at.
  function Seen(cfg: Option<GuardConfig>, g: GuardState, uses: seq<ToolUse>): seq<Access> {
    if Consults(cfg, g, uses) then Accesses(uses)[..LookedAt(g.guardCounts, Accesses(uses))] else []
  }

  // All accesses the guard's tracker has looked at, over any runs.  Attempts that the recovery credit lets
  // pass are missing, and so is whatever comes behind a nudge or a write in its batch.
  function GuardLog(cfg: Option<GuardConfig>, budget: int, attempts: seq<Attempt>): seq<Access> {
    if attempts == [] then []
    else
      var rest := attempts[..|attempts| - 1];
      GuardLog(cfg, budget, rest) + Seen(cfg, HistoryAfter(cfg, budget, rest).g, attempts[|attempts| - 1].uses)
  }

  lemma {:induction false} DecideTracks(cfg: Option<GuardConfig>, g: GuardState, uses: seq<ToolUse>)
    ensures var (g', reason) := Decide(cfg, g, uses);
            var (counts, nudge) := TrackBatch(g.guardCounts, Accesses(uses));
            && g'.guardCounts == (if Consults(cfg, g, uses) then counts else g.guardCounts)
            && (reason == Some(RepeatedRead) <==> Consults(cfg, g, uses) && nudge.Some? && g.warned)
  {
    var (g', reason) := Decide(cfg, g, uses);
    var (counts, nudge) := TrackBatch(g.guardCounts, Accesses(uses));
    if Consults(cfg, g, uses) {
      assert nudge.Some? ==> reason == if g.warned then Some(RepeatedRead) else None;
      assert nudge.None? ==> reason == None;
    } else if reason.Some? {
      assert reason.value != RepeatedRead;
    }
  }

  lemma ToolsKeepCounts(g: GuardState, uses: seq<ToolUse>, results: seq<ToolResult>)
    ensures AfterTools(g, uses, results).guardCounts == g.guardCounts
  {
  }

  lemma {:induction false} WellFormedAppend(log: seq<Access>, more: seq<Access>, n: nat)
    requires WellFormed(log) && WellFormed(more) && n <= |more|
    ensures WellFormed(log + more[..n])
  {
  }

  // One attempt moves the tracker by the accesses it looks at.
  lemma {:induction false} CountsStep(cfg: Option<GuardConfig>, h: History, a: Attempt, log: seq<Access>)
    requires h.g.guardCounts == CountsAfter(log) && WellFormed(log)
    ensures Step(cfg, h, a).g.guardCounts == CountsAfter(log + Seen(cfg, h.g, a.uses))
            && WellFormed(log + Seen(cfg, h.g, a.uses))
  {
    DecideTracks(cfg, h.g, a.uses);
    var (g, reason) := Decide(cfg, h.g, a.uses);
    ToolsKeepCounts(g, a.uses, a.results);
    if Consults(cfg, h.g, a.uses) {
      BatchIsAPrefix(log, Accesses(a.uses));
      WellFormedAppend(log, Accesses(a.uses), LookedAt(h.g.guardCounts, Accesses(a.uses)));
    } else {
      assert log + [] == log;
    }
  }

  // Over any sequence of runs the guard's counters are those of the accesses it has looked at.
  lemma {:induction false} GuardCountsItsLog(cfg: Option<GuardConfig>, budget: int, attempts: seq<Attempt>)
    ensures HistoryAfter(cfg, budget, attempts).g.guardCounts == CountsAfter(GuardLog(cfg, budget, attempts))
    ensures WellFormed(GuardLog(cfg, budget, attempts))
  {
    if attempts != [] {
      var rest, a := attempts[..|attempts| - 1], attempts[|attempts| - 1];
      GuardCountsItsLog(cfg, budget, rest);
      CountsStep(cfg, HistoryAfter(cfg, budget, rest), a, GuardLog(cfg, budget, rest));
    }
  }

  // An attempt is refused as a repeated read only if the last access looked at is a read with a region that
  // the attempts, this one included, have read at least three times since the last write among the
  // accesses looked at, and a repeated read has been let pass since the last successful mutation.
  lemma {:induction false} RepeatedReadIsJustified(cfg: Option<GuardConfig>, budget: int, attempts: seq<Attempt>,
          a: Attempt)
    returns (k: Key)
    requires Decide(cfg, HistoryAfter(cfg, budget, attempts).g, a.uses).1 == Some(RepeatedRead)
    ensures var log := GuardLog(cfg, budget, attempts + [a]);
            && log != [] && log[|log| - 1].Read? && k in log[|log| - 1].keys && TrueReads(log, k) >= THRESHOLD
    ensures var executed := HistoryAfter(cfg, budget, attempts).executed;
            exists i :: && 0 <= i < |executed| && executed[i].flagged
                        && forall j :: i <= j < |executed| ==> !MutationSucceeded(executed[j].uses, executed[j].results)
  {
    WarningIsEarned(cfg, budget, attempts);
    RefusalWasWarned(cfg, budget, attempts, a);
    var g, batch := HistoryAfter(cfg, budget, attempts).g, Accesses(a.uses);
    var log := GuardLog(cfg, budget, attempts);
    GuardCountsItsLog(cfg, budget, attempts);
    DecideTracks(cfg, g, a.uses);
    BatchIsAPrefix(log, batch);
    LogAppend(cfg, budget, attempts, a);
    k := NudgedRead(log, batch);
  }

  lemma {:induction false} RefusalWasWarned(cfg: Option<GuardConfig>, budget: int, attempts: seq<Attempt>, a: Attempt)
    requires WarningEarned(HistoryAfter(cfg, budget, attempts))
    requires Decide(cfg, HistoryAfter(cfg, budget, attempts).g, a.uses).1 == Some(RepeatedRead)
    ensures var executed := HistoryAfter(cfg, budget, attempts).executed;
            exists i :: && 0 <= i < |executed| && executed[i].flagged
                        && forall j :: i <= j < |executed| ==> !MutationSucceeded(executed[j].uses, executed[j].results)
  {
    var h := HistoryAfter(cfg, budget, attempts);
    DecideTracks(cfg, h.g, a.uses);
    var i :| 0 <= i < |h.executed| && h.executed[i].flagged && NoMutationFrom(h.executed, i);
    assert h.executed[i].flagged;
  }

  lemma {:induction false} LogAppend(cfg: Option<GuardConfig>, budget: int, attempts: seq<Attempt>, a: Attempt)
    ensures GuardLog(cfg, budget, attempts + [a])
            == GuardLog(cfg, budget, attempts) + Seen(cfg, HistoryAfter(cfg, budget, attempts).g, a.uses)
  {
    var all := attempts + [a];
    assert all[..|all| - 1] == attempts && all[|all| - 1] == a;
  }

  lemma {:induction false} NudgedRead(log: seq<Access>, batch: seq<Access>) returns (k: Key)
    requires WellFormed(log) && WellFormed(batch) && TrackBatch(CountsAfter(log), batch).1.Some?
    ensures var all := log + batch[..LookedAt(CountsAfter(log), batch)];
            all != [] && all[|all| - 1].Read? && k in all[|all| - 1].keys && TrueReads(all, k) >= THRESHOLD
  {
    var n := LookedAt(CountsAfter(log), batch);
    BatchIsAPrefix(log, batch);
    WellFormedAppend(log, batch, n);
    NudgeIsJustified(log + batch[..n]);
    k := LastNudge(log + batch[..n]).value.key;
  }

  // ---------------------------------------------------------------------------------------------
  // The accesses looked at against the turns that were executed.

  function ExecutedLog(executed: seq<Turn>): seq<Access> {
    if executed == [] then []
    else ExecutedLog(executed[..|executed| - 1]) + Accesses(executed[|executed| - 1].uses)
  }

  predicate Writes(log: seq<Access>) {
    exists i :: 0 <= i < |log| && log[i].Write?
  }

  predicate EndsInWrite(log: seq<Access>) {
    log != [] && log[|log| - 1].Write?
  }

  // Back to the last write that the guard has heard of, every write executed was heard of, not made under an
  // open credit nor behind a nudge, and no attempt was refused as a repeated read.
  predicate Agrees(cfg: Option<GuardConfig>, budget: int, attempts: seq<Attempt>) {
    attempts == [] ||
    var rest, a := attempts[..|attempts| - 1], attempts[|attempts| - 1];
    var g := HistoryAfter(cfg, budget, rest).g;
    EndsInWrite(Seen(cfg, g, a.uses)) || (Agrees(cfg, budget, rest) && AgreesHere(cfg, g, a.uses))
  }

  predicate AgreesHere(cfg: Option<GuardConfig>, g: GuardState, uses: seq<ToolUse>) {
    var reason := Decide(cfg, g, uses).1;
    (reason.None? ==> !Writes(Accesses(uses))) && reason != Some(RepeatedRead)
  }

  lemma {:induction false} ReadsAppend(a: seq<Access>, b: seq<Access>, more: seq<Access>, k: Key)
    requires TrueReads(a, k) <= TrueReads(b, k)
    ensures TrueReads(a + more, k) <= TrueReads(b + more, k)
  {
    if more == [] {
      assert a + more == a && b + more == b;
    } else {
      var rest, last := more[..|more| - 1], more[|more| - 1];
      ReadsAppend(a, b, rest, k);
      assert a + more == a + rest + [last] && b + more == b + rest + [last];
      Snoc(a + rest, last, k);
      Snoc(b + rest, last, k);
    }
  }

  lemma {:induction false} ReadsGrow(log: seq<Access>, more: seq<Access>, k: Key)
    requires !Writes(more)
    ensures TrueReads(log, k) <= TrueReads(log + more, k)
  {
    if more == [] {
      assert log + more == log;
    } else {
      var rest, last := more[..|more| - 1], more[|more| - 1];
      assert forall i :: 0 <= i < |rest| ==> rest[i] == more[i];
      assert !last.Write?;
      ReadsGrow(log, rest, k);
      assert log + more == log + rest + [last];
      Snoc(log + rest, last, k);
    }
  }

  // Looking at a part of a batch without a write counts no more than executing all of it.
  lemma {:induction false} PartReadsLess(looked: seq<Access>, executed: seq<Access>, batch: seq<Access>, n: nat, k: Key)
    requires TrueReads(looked, k) <= TrueReads(executed, k) && n <= |batch| && !Writes(batch)
    ensures TrueReads(looked + batch[..n], k) <= TrueReads(executed + batch, k)
  {
    ReadsAppend(looked, executed, batch[..n], k);
    assert forall i :: 0 <= i < |batch[n..]| ==> batch[n..][i] == batch[n + i];
    ReadsGrow(executed + batch[..n], batch[n..], k);
    assert executed + batch == executed + batch[..n] + batch[n..];
  }

  lemma {:induction false} AgreesStep(cfg: Option<GuardConfig>, h: History, a: Attempt, log: seq<Access>, k: Key)
    requires EndsInWrite(Seen(cfg, h.g, a.uses))
             || (AgreesHere(cfg, h.g, a.uses) && TrueReads(log, k) <= TrueReads(ExecutedLog(h.executed), k))
    ensures TrueReads(log + Seen(cfg, h.g, a.uses), k) <= TrueReads(ExecutedLog(Step(cfg, h, a).executed), k)
  {
    hide TrueReads, TrackBatch, Accesses, LookedAt;
    var seen := Seen(cfg, h.g, a.uses);
    if EndsInWrite(seen) {
      assert log + seen == log + seen[..|seen| - 1] + [seen[|seen| - 1]];
      Snoc(log + seen[..|seen| - 1], seen[|seen| - 1], k);
    } else if Decide(cfg, h.g, a.uses).1.None? {
      ExecutedSnoc(cfg, h, a);
      PartReadsLess(log, ExecutedLog(h.executed), Accesses(a.uses), |seen|, k);
      assert seen == Accesses(a.uses)[..|seen|];
    } else {
      RefusedElsewhere(cfg, h.g, a.uses);
      assert log + seen == log;
    }
  }

  lemma {:induction false} ExecutedSnoc(cfg: Option<GuardConfig>, h: History, a: Attempt)
    requires Decide(cfg, h.g, a.uses).1.None?
    ensures ExecutedLog(Step(cfg, h, a).executed) == ExecutedLog(h.executed) + Accesses(a.uses)
  {
    var executed := Step(cfg, h, a).executed;
    assert executed[..|executed| - 1] == h.executed && executed[|executed| - 1].uses == a.uses;
  }

  // Any other refusal comes before the tracker is consulted.
  lemma {:induction false} RefusedElsewhere(cfg: Option<GuardConfig>, g: GuardState, uses: seq<ToolUse>)
    requires Decide(cfg, g, uses).1.Some? && Decide(cfg, g, uses).1 != Some(RepeatedRead)
    ensures Seen(cfg, g, uses) == []
  {
    DecideTracks(cfg, g, uses);
  }

  // Then the guard has counted no read that was not executed.
  lemma {:induction false} AgreeingReadsAreReal(cfg: Option<GuardConfig>, budget: int, attempts: seq<Attempt>, k: Key)
    requires Agrees(cfg, budget, attempts)
    ensures TrueReads(GuardLog(cfg, budget, attempts), k)
            <= TrueReads(ExecutedLog(HistoryAfter(cfg, budget, attempts).executed), k)
  {
    if attempts != [] {
      var rest, a := attempts[..|attempts| - 1], attempts[|attempts| - 1];
      var h := HistoryAfter(cfg, budget, rest);
      if !EndsInWrite(Seen(cfg, h.g, a.uses)) {
        AgreeingReadsAreReal(cfg, budget, rest, k);
      }
      AgreesStep(cfg, h, a, GuardLog(cfg, budget, rest), k);
    }
  }

  // So an attempt refused as a repeated read brings a region to three reads since the last write, counting
  // those of executed turns and its own.
  lemma {:induction false} RefusalIsAThirdRead(cfg: Option<GuardConfig>, budget: int, attempts: seq<Attempt>,
          a: Attempt)
    returns (k: Key)
    requires Agrees(cfg, budget, attempts)
    requires Decide(cfg, HistoryAfter(cfg, budget, attempts).g, a.uses).1 == Some(RepeatedRead)
    ensures var h := HistoryAfter(cfg, budget, attempts);
            var seen := Seen(cfg, h.g, a.uses);
            && seen != [] && seen[|seen| - 1].Read? && k in seen[|seen| - 1].keys && seen <= Accesses(a.uses)
            && TrueReads(ExecutedLog(h.executed) + seen, k) >= THRESHOLD
  {
    hide HistoryAfter, TrueReads, TrackBatch, Accesses, GuardLog, ExecutedLog, Agrees, LookedAt, CountsAfter;
    var h, log := HistoryAfter(cfg, budget, attempts), GuardLog(cfg, budget, attempts);
    var seen := Seen(cfg, h.g, a.uses);
    k := RepeatedReadIsJustified(cfg, budget, attempts, a);
    LogAppend(cfg, budget, attempts, a);
    SeenAtRefusal(cfg, h.g, a.uses);
    AgreeingReadsAreReal(cfg, budget, attempts, k);
    ReadsAppend(log, ExecutedLog(h.executed), seen, k);
    assert (log + seen)[|log + seen| - 1] == seen[|seen| - 1];
  }

  lemma {:induction false} SeenAtRefusal(cfg: Option<GuardConfig>, g: GuardState, uses: seq<ToolUse>)
    requires Decide(cfg, g, uses).1 == Some(RepeatedRead)
    ensures Seen(cfg, g, uses) != [] && Seen(cfg, g, uses) <= Accesses(uses)
  {
    DecideTracks(cfg, g, uses);
  }

  // ---------------------------------------------------------------------------------------------
  // Without the agreement this is false.

  // A guard that has not noticed anything but the counters.
  predicate Watching(h: History, m: Counts, warned: bool, n: nat) {
    && h.g.budget.None? && !h.g.editSucceeded && h.g.editRecoveryReads == 0
    && h.g.guardCounts == m && h.g.warned == warned && |h.executed| == n
  }

  predicate OnlyCountsReads(cfg: Option<GuardConfig>) {
    Guarded(cfg) && cfg.value.stopOnRepeatedRead && cfg.value.maxReadOnlyTurns <= 0
  }

  // An attempt in which no tool changes anything.
  predicate ChangesNothing(a: Attempt) {
    !MutationSucceeded(a.uses, a.results) && !EditFailed(a.uses, a.results)
  }

  lemma {:induction false} WatchingStep(cfg: Option<GuardConfig>, h: History, m: Counts, warned: bool, n: nat,
          a: Attempt)
    requires OnlyCountsReads(cfg) && Watching(h, m, warned, n) && ChangesNothing(a)
    ensures var (m', nudge) := TrackBatch(m, Accesses(a.uses));
            if nudge.Some? && warned then Decide(cfg, h.g, a.uses).1 == Some(RepeatedRead)
            else
              && Watching(Step(cfg, h, a), m', warned || nudge.Some?, n + 1)
              && Step(cfg, h, a).executed[n].uses == a.uses
              && Step(cfg, h, a).executed[..n] == h.executed
  {
    hide TrackBatch, Accesses;
    var (counts, nudge) := TrackBatch(m, Accesses(a.uses));
    var (g, reason) := Decide(cfg, h.g, a.uses);
    assert Consults(cfg, h.g, a.uses);
    DecideTracks(cfg, h.g, a.uses);
    assert g.warned == (warned || nudge.Some?) && g.budget.None? && !g.editSucceeded && g.editRecoveryReads == 0;
  }

  lemma {:induction false} ReadCharges(m: Counts, read: ToolUse, k: Key)
    requires Classify(read) == Read([k])
    ensures Accesses([read]) == [Read([k])]
    ensures var (m', nudge) := TrackBatch(m, [Read([k])]);
            Get(m', k) == Get(m, k) + 1 && (nudge.Some? <==> Get(m', k) >= THRESHOLD)
  {
    var batch := [Read([k])];
    BumpFirst(m, k, []);
    assert [k] + [] == [k];
    assert batch[1..] == [] && Accesses([]) == [] && [read][1..] == [];
  }

  lemma {:induction false} NudgeHidesWrite(m: Counts, read: ToolUse, write: ToolUse, k: Key)
    requires Classify(read) == Read([k]) && Classify(write) == Write && Get(m, k) + 1 >= THRESHOLD
    ensures Accesses([read, write]) == [Read([k]), Write]
    ensures var (m', nudge) := TrackBatch(m, [Read([k]), Write]);
            Get(m', k) == Get(m, k) + 1 && nudge.Some?
  {
    BumpFirst(m, k, []);
    assert [k] + [] == [k];
    assert [read, write][1..] == [write] && [write][1..] == [] && Accesses([]) == [];
    assert Accesses([write]) == [Write];
  }

  lemma {:induction false} FourthIsRefused(cfg: Option<GuardConfig>, h0: History, read: Attempt, both: Attempt, k: Key)
    returns (h3: History)
    requires OnlyCountsReads(cfg) && Watching(h0, map[], false, 0) && ChangesNothing(read) && ChangesNothing(both)
    requires |read.uses| == 1 && Classify(read.uses[0]) == Read([k])
    requires |both.uses| == 2 && both.uses[0] == read.uses[0] && Classify(both.uses[1]) == Write
    ensures h3 == Step(cfg, Step(cfg, Step(cfg, h0, read), read), both)
    ensures Decide(cfg, h3.g, read.uses).1 == Some(RepeatedRead)
    ensures |h3.executed| == 3 && h3.executed[2].uses == both.uses
    ensures Accesses(read.uses) == [Read([k])] && Accesses(both.uses) == [Read([k]), Write]
  {
    assert read.uses == [read.uses[0]] && both.uses == [both.uses[0], both.uses[1]];
    hide Step, Decide, Accesses, TrackBatch, Classify, ChangesNothing;
    var h1, h2 := Step(cfg, h0, read), Step(cfg, Step(cfg, h0, read), read);
    h3 := Step(cfg, h2, both);
    var m1 := TrackBatch(map[], [Read([k])]).0;
    var m2 := TrackBatch(m1, [Read([k])]).0;
    var m3 := TrackBatch(m2, [Read([k]), Write]).0;
    ReadCharges(map[], read.uses[0], k);
    WatchingStep(cfg, h0, map[], false, 0, read);
    ReadCharges(m1, read.uses[0], k);
    WatchingStep(cfg, h1, m1, false, 1, read);
    NudgeHidesWrite(m2, both.uses[0], both.uses[1], k);
    WatchingStep(cfg, h2, m2, false, 2, both);
    ReadCharges(m3, read.uses[0], k);
    WatchingStep(cfg, h3, m3, true, 3, read);
  }

  // Two reads of a region, a third in one response with a write, and a fourth: the nudge for the third hides
  // the write, and the fourth is refused although it is the first read of the region since that write.
  lemma {:induction false} RefusalMayBeTheFirstRead(cfg: Option<GuardConfig>, budget: int, read: Attempt,
          both: Attempt, k: Key)
    requires OnlyCountsReads(cfg) && budget <= 0 && ChangesNothing(read) && ChangesNothing(both)
    requires |read.uses| == 1 && Classify(read.uses[0]) == Read([k])
    requires |both.uses| == 2 && both.uses[0] == read.uses[0] && Classify(both.uses[1]) == Write
    ensures var h := HistoryAfter(cfg, budget, [read, read, both]);
            && Decide(cfg, h.g, read.uses).1 == Some(RepeatedRead)
            && TrueReads(ExecutedLog(h.executed) + Accesses(read.uses), k) == 1
  {
    var h0 := HistoryAfter(cfg, budget, []);
    assert Watching(h0, map[], false, 0);
    assert [] + [read] == [read] && [read] + [read] == [read, read] && [read, read] + [both] == [read, read, both];
    hide HistoryAfter, Step, Decide, Accesses, TrackBatch, TrueReads, ExecutedLog, Classify, Watching, ChangesNothing;
    HistorySnoc(cfg, budget, [], read);
    HistorySnoc(cfg, budget, [read], read);
    HistorySnoc(cfg, budget, [read, read], both);
    var h3 := FourthIsRefused(cfg, h0, read, both, k);
    OneReadSinceWrite(h3.executed, both, read.uses, k);
  }

  lemma {:induction false} OneReadSinceWrite(executed: seq<Turn>, both: Attempt, uses: seq<ToolUse>, k: Key)
    requires executed != [] && executed[|executed| - 1].uses == both.uses
    requires |Accesses(both.uses)| == 2 && Accesses(both.uses)[1] == Write && Accesses(uses) == [Read([k])]
    ensures TrueReads(ExecutedLog(executed) + Accesses(uses), k) == 1
  {
    var rest, batch := ExecutedLog(executed[..|executed| - 1]), Accesses(both.uses);
    assert ExecutedLog(executed) == rest + batch;
    assert rest + batch == rest + [batch[0]] + [Write];
    Snoc(rest + [batch[0]], Write, k);
    Snoc(ExecutedLog(executed), Read([k]), k);
  }
}
