// session.go, Run without an exploration budget: the abort after too many turns without a change, and the
// read tracker whose notices go to the model.
module LegacyRuns {
  import opened Messages
  import opened ReadTracking
  import opened Convergence
  import opened ToolRuns
  import opened RunLog
  import opened RunTurns
  import opened RepeatedReads

  // ---------------------------------------------------------------------------------------------
  // Turns without a change.

  // No call of the turn is one that may change code.
  predicate ChangesNothing(rec: TurnRecord) {
    rec.Executed? ==> forall i :: 0 <= i < |UsesOf(rec)| ==> !ChangesCode(UsesOf(rec)[i])
  }

  function ExecutedCount(log: seq<TurnRecord>): nat {
    if log == [] then 0
    else ExecutedCount(log[..|log| - 1]) + if log[|log| - 1].Executed? then 1 else 0
  }

  predicate QuietSince(log: seq<TurnRecord>, i: nat) {
    i <= |log| && forall k :: i <= k < |log| ==> ChangesNothing(log[k])
  }

  lemma {:induction false} QuietCounts(log: seq<TurnRecord>, i: nat)
    requires QuietSince(log, i)
    ensures ExecutedCount(log[i..]) <= Exploring(log)
  {
    if i < |log| {
      var rest := log[..|log| - 1];
      assert forall k :: i <= k < |rest| ==> rest[k] == log[k];
      QuietCounts(rest, i);
      assert log[i..][..|log[i..]| - 1] == rest[i..];
      assert ChangesNothing(log[|log| - 1]);
    }
  }

  lemma {:induction false} QuietFrom(log: seq<TurnRecord>) returns (i: nat)
    ensures QuietSince(log, i) && ExecutedCount(log[i..]) == Exploring(log)
  {
    if log == [] {
      i := 0;
    } else if ChangesNothing(log[|log| - 1]) {
      var rest := log[..|log| - 1];
      i := QuietFrom(rest);
      assert forall k :: i <= k < |rest| ==> rest[k] == log[k];
      assert log[i..][..|log[i..]| - 1] == rest[i..];
    } else {
      i := |log|;
      assert log[i..] == [];
    }
  }

  // An executed turn aborts the run exactly if it makes N executed turns in a row without a call that may
  // change code.
  lemma {:induction false} AbortsIff(limits: Limits, world: World, g: GuardState, counts: Counts, log: seq<TurnRecord>)
    requires LogOk(limits, world, g, counts, log) && log != [] && log[|log| - 1].Executed?
    requires limits.budget <= 0 && limits.maxExplorationTurns > 0
    ensures log[|log| - 1].abort.Some? <==>
            exists i: nat :: QuietSince(log, i) && ExecutedCount(log[i..]) >= limits.maxExplorationTurns
    ensures log[|log| - 1].abort.Some? ==>
              log[|log| - 1].abort == Some(LegacyExplorationTurns(limits.maxExplorationTurns))
  {
    hide Decide, GuardAfter, LegacyCounts, RecordOk;
    var rest, last := log[..|log| - 1], log[|log| - 1];
    LastIsLegacy(limits, world, g, counts, log);
    var i := QuietFrom(log);
    if j: nat :| QuietSince(log, j) && ExecutedCount(log[j..]) >= limits.maxExplorationTurns {
      QuietCounts(log, j);
    }
    assert Exploring(log) == if ChangesCodeBatch(UsesOf(last)) then 0 else Exploring(rest) + 1;
  }

  lemma {:induction false} LastIsLegacy(limits: Limits, world: World, g: GuardState, counts: Counts,
          log: seq<TurnRecord>)
    requires LogOk(limits, world, g, counts, log) && log != [] && log[|log| - 1].Executed?
    ensures LegacyOk(limits, LegacyCounts(limits, counts, log[..|log| - 1]), log[..|log| - 1], log[|log| - 1])
  {
  }

  lemma {:induction false} ExploringIsBelow(limits: Limits, world: World, g: GuardState, counts: Counts,
          log: seq<TurnRecord>)
    requires LogOk(limits, world, g, counts, log) && limits.budget <= 0 && limits.maxExplorationTurns > 0
    ensures Exploring(log) <= limits.maxExplorationTurns
    ensures AllContinue(log) ==> Exploring(log) < limits.maxExplorationTurns
  {
    hide Decide, GuardAfter, LegacyCounts;
    if log != [] {
      ExploringIsBelow(limits, world, g, counts, log[..|log| - 1]);
      if log[|log| - 1].Executed? {
        LastIsLegacy(limits, world, g, counts, log);
        assert AllContinue(log) ==> Continues(log[|log| - 1]);
      }
    }
  }

  // So no run makes more than N executed turns in a row without one.
  lemma {:induction false} QuietSpansAreBounded(limits: Limits, world: World, g: GuardState, counts: Counts,
          log: seq<TurnRecord>, i: nat, j: nat)
    requires LogOk(limits, world, g, counts, log) && limits.budget <= 0 && limits.maxExplorationTurns > 0
    requires i <= j <= |log| && forall k :: i <= k < j ==> ChangesNothing(log[k])
    ensures ExecutedCount(log[i..j]) <= limits.maxExplorationTurns
  {
    hide LogOk, Exploring, ExecutedCount;
    if j < |log| {
      RecordAt(limits, world, g, counts, log, j);
    } else {
      assert log[..j] == log;
    }
    assert log[..j][i..] == log[i..j] && forall k :: i <= k < j ==> log[..j][k] == log[k];
    ExploringIsBelow(limits, world, g, counts, log[..j]);
    QuietCounts(log[..j], i);
  }

  // ---------------------------------------------------------------------------------------------
  // Notices.

  // What the tracker has looked at in the turns of a log.
  function Heard(limits: Limits, counts: Counts, log: seq<TurnRecord>): seq<Access> {
    if log == [] then []
    else
      var rest, last := log[..|log| - 1], log[|log| - 1];
      Heard(limits, counts, rest) + HeardIn(limits, LegacyCounts(limits, counts, rest), last)
  }

  function HeardIn(limits: Limits, counts: Counts, rec: TurnRecord): seq<Access> {
    if limits.budget <= 0 && rec.Executed? && rec.abort.None? then
      Accesses(UsesOf(rec))[..LookedAt(counts, Accesses(UsesOf(rec)))]
    else []
  }

  // Over any runs of a session without a budget its counts are those of the accesses it has looked at.
  lemma {:induction false} LegacyCountsItsLog(limits: Limits, counts: Counts, base: seq<Access>, log: seq<TurnRecord>)
    requires counts == CountsAfter(base) && WellFormed(base)
    ensures LegacyCounts(limits, counts, log) == CountsAfter(base + Heard(limits, counts, log))
    ensures WellFormed(base + Heard(limits, counts, log))
  {
    if log == [] {
      assert base + [] == base;
    } else {
      var rest, last := log[..|log| - 1], log[|log| - 1];
      LegacyCountsItsLog(limits, counts, base, rest);
      HeardStep(limits, LegacyCounts(limits, counts, rest), base + Heard(limits, counts, rest), last);
      Append3(base, Heard(limits, counts, rest), HeardIn(limits, LegacyCounts(limits, counts, rest), last));
    }
  }

  lemma {:induction false} HeardStep(limits: Limits, counts: Counts, log: seq<Access>, rec: TurnRecord)
    requires counts == CountsAfter(log) && WellFormed(log)
    ensures LegacyStep(limits, counts, rec) == CountsAfter(log + HeardIn(limits, counts, rec))
    ensures WellFormed(log + HeardIn(limits, counts, rec))
  {
    if limits.budget <= 0 && rec.Executed? && rec.abort.None? {
      var batch := Accesses(UsesOf(rec));
      BatchIsAPrefix(log, batch);
      WellFormedAppend(log, batch, LookedAt(counts, batch));
    } else {
      assert log + [] == log;
    }
  }

  // A notice names a region of the last access looked at that has been read at least three times since the
  // last write.
  lemma {:induction false} NoticeIsJustified(limits: Limits, world: World, g: GuardState, counts: Counts,
          base: seq<Access>, log: seq<TurnRecord>)
    requires LogOk(limits, world, g, counts, log) && log != [] && log[|log| - 1].Executed?
    requires log[|log| - 1].notice.Some? && counts == CountsAfter(base) && WellFormed(base)
    ensures var heard, k := base + Heard(limits, counts, log), log[|log| - 1].notice.value.key;
            && heard != [] && heard[|heard| - 1].Read? && k in heard[|heard| - 1].keys
            && TrueReads(heard, k) >= log[|log| - 1].notice.value.times >= THRESHOLD
  {
    hide Decide, GuardAfter, LegacyStep, TrackOne, TrueReads;
    var rest, last := log[..|log| - 1], log[|log| - 1];
    var before := base + Heard(limits, counts, rest);
    LastIsLegacy(limits, world, g, counts, log);
    LegacyCountsItsLog(limits, counts, base, rest);
    var batch := Accesses(UsesOf(last));
    BatchIsAPrefix(before, batch);
    WellFormedAppend(before, batch, LookedAt(CountsAfter(before), batch));
    Append3(base, Heard(limits, counts, rest), HeardIn(limits, LegacyCounts(limits, counts, rest), last));
    NudgeIsJustified(before + batch[..LookedAt(CountsAfter(before), batch)]);
  }
}
