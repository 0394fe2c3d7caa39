// session.go: a Session, whose fields live across runs, and the agent loop Run.
module SessionLoop {
  import opened Messages
  import opened ReadTracking
  import opened Exploration
  import opened Convergence
  import opened ToolRuns
  import opened RunLog

  // The output is the text of an answer; the notices that stand for it otherwise are left out.
  datatype RunResult = RunResult(
    output: Option<string>,
    messages: seq<Message>, turns: int, usage: Usage, stopReason: StopReason, guardReason: Option<GuardReason>,
      metrics: Metrics)

  class Session {
    const limits: Limits
    const hasProvider: bool
    const sink: EventSink
    const guardTracker: ReadTracker
    const readTracker: ReadTracker
    const budget: ExplorationBudget
    var transcript: seq<Message>
    var metrics: Metrics
    var readOnlyTurns: int
    var editSucceeded: bool
    var editRecoveryReads: int
    var repeatedReadWarned: bool
    var guardNudge: Option<Nudge>
    ghost var attempts: seq<Attempt>
    ghost var runs: seq<PastRun>

    // NewSession.  The budget is in use when its size is positive, the legacy read tracker otherwise.
    constructor (limits: Limits, hasProvider: bool, sink: EventSink)
      ensures Valid() && this.limits == limits && this.hasProvider == hasProvider && this.sink == sink
      ensures transcript == [] && attempts == [] && runs == [] && metrics == NO_METRICS
              && readTracker.regionReads == map[]
      ensures fresh(Repr() - {sink})
    {
      this.limits := limits;
      this.hasProvider := hasProvider;
      this.sink := sink;
      guardTracker := new ReadTracker();
      readTracker := new ReadTracker();
      budget := new ExplorationBudget(limits.budget);
      transcript := [];
      metrics := NO_METRICS;
      readOnlyTurns, editSucceeded, editRecoveryReads, repeatedReadWarned, guardNudge := 0, false, 0, false, None;
      attempts, runs := [], [];
    }

    ghost function Repr(): set<object> {
      {this, sink, guardTracker, readTracker, budget, budget.tracker}
    }

    predicate HasBudget() {
      limits.budget > 0
    }

    // The guard's view of the session.
    ghost function Guard(): GuardState
      reads this, guardTracker, budget, budget.tracker
    {
      GuardState(readOnlyTurns, editSucceeded, editRecoveryReads, repeatedReadWarned, guardNudge,
        guardTracker.regionReads,
                 if HasBudget() then Some(budget.State()) else None)
    }

    // The tool turns executed so far, over all runs.
    ghost function ExecutedTurns(): seq<Turn>
      reads this
    {
      HistoryAfter(limits.guard, limits.budget, attempts).executed
    }

    ghost predicate Apart() {
      guardTracker != readTracker && budget.tracker != guardTracker && budget.tracker != readTracker
    }

    // The fields are always those of the guard automaton after the attempts made so far, and the transcript
    // that of the runs made so far.
    ghost predicate Valid()
      reads Repr()
    {
      && Apart() && Guard() == HistoryAfter(limits.guard, limits.budget, attempts).g
      && AllHappened(limits, runs) && transcript == SessionMessages(runs)
    }

    method RecordToolUses(uses: seq<ToolUse>)
      modifies `metrics
      ensures metrics == RecordUses(old(metrics), uses)
    {
      assert metrics == RecordUses(metrics, uses[..0]);
      for n := 0 to |uses|
        invariant metrics == RecordUses(old(metrics), uses[..n])
      {
        hide RecordUses;
        var tu := uses[n];
        assert uses[..n + 1] == uses[..n] + [tu];
        RecordSnoc(old(metrics), uses[..n], tu);
        var m := metrics;
        m := m.(toolCalls := m.toolCalls + 1);
        if tu.name == "grep" {
          m := m.(grepCalls := m.grepCalls + 1);
        } else if tu.name == "read_file" {
          m := m.(readFileCalls := m.readFileCalls + 1);
        } else if tu.name == "edit_file" {
          m := m.(editFileCalls := m.editFileCalls + 1);
        }
        if IsReadOnly(tu) {
          m := m.(readOnly := m.readOnly + 1);
        }
        if IsMutating(tu) {
          m := m.(mutations := m.mutations + 1);
        }
        NamesDiffer();
        metrics := m;
      }
      assert uses[..|uses|] == uses;
    }

    // The loop over the calls at the start of the guard.
    method ReadOnlyFlags(uses: seq<ToolUse>) returns (hasReadOnly: bool, allReadOnly: bool)
      ensures hasReadOnly == HasReadOnly(uses) && allReadOnly == AllReadOnly(uses)
    {
      hasReadOnly, allReadOnly := false, |uses| > 0;
      for n := 0 to |uses|
        invariant hasReadOnly <==> exists i :: 0 <= i < n && IsReadOnly(uses[i])
        invariant allReadOnly <==> |uses| > 0 && forall i :: 0 <= i < n ==> IsReadOnly(uses[i])
      {
        if IsReadOnly(uses[n]) {
          hasReadOnly := true;
        } else {
          allReadOnly := false;
        }
      }
    }

    method GuardBeforeTools(uses: seq<ToolUse>) returns (reason: Option<GuardReason>)
      requires Apart()
      modifies `metrics, `repeatedReadWarned, `guardNudge, guardTracker
      ensures Apart()
      ensures (Guard(), reason) == Decide(limits.guard, old(Guard()), uses)
      ensures metrics == if reason == Some(ReadOnlyAfterEdit) then
                           old(metrics).(readOnlyAfterEditBlocks := old(metrics).readOnlyAfterEditBlocks + 1)
                         else old(metrics)
    {
      if limits.guard.None? || !limits.guard.value.enabled {
        return None;
      }
      var cfg := limits.guard.value;
      var hasReadOnly, allReadOnly := ReadOnlyFlags(uses);
      if cfg.stopReadOnlyAfterEdit && editSucceeded && hasReadOnly {
        metrics := metrics.(readOnlyAfterEditBlocks := metrics.readOnlyAfterEditBlocks + 1);
        return Some(ReadOnlyAfterEdit);
      }
      if editRecoveryReads > 0 && hasReadOnly {
        return None;
      }
      if cfg.stopOnBudgetExhausted && HasBudget() && hasReadOnly {
        if budget.ActiveNudge().Some? {
          return Some(BudgetExhausted);
        }
      }
      if cfg.maxReadOnlyTurns > 0 && allReadOnly && readOnlyTurns + 1 >= cfg.maxReadOnlyTurns {
        return Some(MaxReadOnlyTurns(cfg.maxReadOnlyTurns));
      }
      if cfg.stopOnRepeatedRead {
        var nudge := guardTracker.Track(uses);
        if nudge.Some? {
          if !repeatedReadWarned {
            repeatedReadWarned := true;
            guardNudge := nudge;
            return None;
          }
          return Some(RepeatedRead);
        }
      }
      return None;
    }

    method NoteToolResults(uses: seq<ToolUse>, results: seq<ToolResult>, turn: int)
      requires Apart()
      modifies `metrics, `readOnlyTurns, `editSucceeded, `editRecoveryReads, `repeatedReadWarned, `guardNudge
      ensures Guard() == NoteSpec(old(Guard()), uses, results)
      ensures metrics == NoteFirstEdit(old(metrics), uses, results, turn)
    {
      var successfulMutation, failedEdit, edited := false, false, false;
      for n := 0 to |uses|
        invariant successfulMutation <==> exists i :: 0 <= i < n && IsMutating(uses[i]) && Succeeded(results, i)
        invariant failedEdit <==>
                  exists i :: 0 <= i < n && uses[i].name == "edit_file" && i < |results| && results[i].isError
        invariant edited <==> exists i :: 0 <= i < n && uses[i].name == "edit_file" && Succeeded(results, i)
      {
        if IsMutating(uses[n]) && n < |results| && !results[n].isError {
          successfulMutation := true;
          if uses[n].name == "edit_file" {
            edited := true;
          }
        }
        if uses[n].name == "edit_file" && n < |results| && results[n].isError {
          failedEdit := true;
        }
      }
      if edited && metrics.firstEditTurn == 0 {
        metrics := metrics.(firstEditTurn := turn);
      }
      if successfulMutation {
        editSucceeded := true;
        editRecoveryReads := 0;
        repeatedReadWarned := false;
        guardNudge := None;
        readOnlyTurns := 0;
        return;
      }
      if failedEdit {
        editRecoveryReads := 1;
      }
      var allReadOnly := |uses| > 0;
      for n := 0 to |uses|
        invariant allReadOnly == (|uses| > 0 && forall i :: 0 <= i < n ==> IsReadOnly(uses[i]))
      {
        if !IsReadOnly(uses[n]) {
          allReadOnly := false;
          break;
        }
      }
      if allReadOnly {
        readOnlyTurns := readOnlyTurns + 1;
        if editRecoveryReads > 0 {
          editRecoveryReads := editRecoveryReads - 1;
        }
      } else {
        readOnlyTurns := 0;
      }
    }

    ghost function Snap(): Snapshot
      reads Repr()
    {
      Snapshot(sink.events, transcript, metrics, readTracker.regionReads, Guard())
    }

    // Counting the calls and asking the guard; a reason ends the turn here.
    method CheckTurn(uses: seq<ToolUse>, turn: int) returns (reason: Option<GuardReason>)
      requires Apart()
      modifies `metrics, `repeatedReadWarned, `guardNudge, guardTracker, sink
      ensures Checked(limits, turn, uses, reason, old(Snap()), Snap())
    {
      RecordToolUses(uses);
      reason := GuardBeforeTools(uses);
      if reason.Some? {
        metrics := NoteTrigger(metrics, reason.value);
        sink.Emit(GuardTriggered(turn, ToolNames(uses), reason.value));
      }
    }

    // Executing the calls the guard let pass, and feeding the results back.
    method RunTools(world: World, index: nat, uses: seq<ToolUse>)
        returns (results: seq<ToolResult>, ghost schedule: seq<Tick>)
      requires Apart()
      modifies sink, budget, budget.tracker
      modifies `metrics, `transcript, `readOnlyTurns, `editSucceeded, `editRecoveryReads, `repeatedReadWarned,
               `guardNudge
      ensures Apart()
      ensures |results| == |uses| && forall i :: 0 <= i < |uses| ==>
                results[i] == ToolOutcome(uses[i], world.tool(index, i))
      ensures Legal(schedule, |uses|, limits.maxConcurrency) && Complete(schedule, |uses|)
      ensures forall t :: t in schedule ==> t.i < |uses|
      ensures Ran(index + 1, old(Snap()), uses, results, schedule, Snap())
    {
      hide Legal, Complete, Emitted, ToolOutcome, NoteSpec, Charge, NoteFirstEdit;
      var envs := seq(|uses|, i requires 0 <= i < |uses| => world.tool(index, i));
      results, schedule := ExecuteTools(sink, uses, index + 1, envs, limits.maxConcurrency);
      NoteToolResults(uses, results, index + 1);
      if HasBudget() {
        budget.Consume(uses, results);
      }
      transcript := transcript + [ToolResultMessage(results)];
    }

    // The checks that apply only without an exploration budget.
    method LegacyChecks(uses: seq<ToolUse>, explored: int, turn: int)
        returns (abort: Option<GuardReason>, notice: Option<Nudge>)
      requires Apart()
      modifies `metrics, `transcript, sink, readTracker
      ensures Looked(limits, uses, explored, turn, old(Snap()), abort, notice, Snap())
    {
      abort, notice := None, None;
      if !HasBudget() {
        if limits.maxExplorationTurns > 0 && explored >= limits.maxExplorationTurns {
          abort := Some(LegacyExplorationTurns(limits.maxExplorationTurns));
          metrics := NoteTrigger(metrics, abort.value);
          sink.Emit(GuardTriggered(turn, ToolNames(uses), abort.value));
          return;
        }
        notice := readTracker.Track(uses);
        if notice.Some? {
          transcript := transcript + [NudgeMessage(notice.value)];
        }
      }
    }

    method ChangesSomething(uses: seq<ToolUse>) returns (hasMutatingTool: bool)
      ensures hasMutatingTool == ChangesCodeBatch(uses)
    {
      hasMutatingTool := false;
      for n := 0 to |uses|
        invariant hasMutatingTool <==> exists i :: 0 <= i < n && ChangesCode(uses[i])
      {
        if ChangesCode(uses[n]) {
          return true;
        }
      }
    }

    // A turn whose calls the guard let pass.
    method ExecutedTurn(world: World, index: nat, resp: Response, uses: seq<ToolUse>, exploring: int,
            ghost log: seq<TurnRecord>)
      returns (stuck: bool, explored: int, ghost rec: TurnRecord)
      requires Apart() && index == |log| && exploring == Exploring(log) && uses == ToolUses(resp.content)
      modifies sink, guardTracker, readTracker, budget, budget.tracker
      modifies `transcript, `metrics, `readOnlyTurns, `editSucceeded, `editRecoveryReads, `repeatedReadWarned,
               `guardNudge
      ensures Apart()
      ensures rec.Executed? && rec.resp == resp && Proper(rec) && ToolsOk(limits, world, log, rec)
      ensures LegacyOk(limits, old(readTracker.regionReads), log, rec)
      ensures Performed(limits, index + 1, old(Snap()), rec, Snap())
      ensures stuck == rec.abort.Some?
      ensures explored == if ChangesCodeBatch(uses) then 0 else exploring + 1
    {
      var hasMutatingTool := ChangesSomething(uses);
      var results; ghost var schedule;
      ghost var before := Snap();
      results, schedule := RunTools(world, index, uses);
      ghost var ran := Snap();
      explored := if hasMutatingTool then 0 else exploring + 1;
      var abort, notice := LegacyChecks(uses, explored, index + 1);
      stuck := abort.Some?;
      rec := Executed(resp, results, schedule, abort, notice);
      RanAndLooked(limits, index + 1, before, ran, rec, explored, Snap());
    }

    // The part of a turn after a response with tool calls.
    method ToolTurn(world: World, index: nat, resp: Response, uses: seq<ToolUse>, exploring: int,
            ghost log: seq<TurnRecord>)
      returns (stuck: bool, blocked: bool, explored: int, ghost rec: TurnRecord)
      requires Apart() && index == |log| && exploring == Exploring(log)
      requires uses == ToolUses(resp.content)
      modifies sink, guardTracker, readTracker, budget, budget.tracker
      modifies `transcript, `metrics, `readOnlyTurns, `editSucceeded, `editRecoveryReads, `repeatedReadWarned,
               `guardNudge
      ensures Proper(rec) && !rec.NoResponse? && rec.resp == resp
      ensures ToolTurnOk(limits, world, old(Guard()), old(readTracker.regionReads), log, rec)
      ensures ToolAdvanced(limits, log, old(Snap()), rec, Snap())
      ensures blocked <==> rec.Blocked?
      ensures stuck <==> rec.Executed? && rec.abort.Some?
      ensures explored == if !rec.Executed? then exploring else if ChangesCodeBatch(uses) then 0 else exploring + 1
    {
      explored, stuck := exploring, false;
      ghost var now := Snap();
      var reason := CheckTurn(uses, index + 1);
      blocked := reason.Some?;
      ghost var checked := Snap();
      if blocked {
        rec := Blocked(resp, reason.value);
        BlockedAdvance(limits, world, log, resp, reason.value, now, checked);
      } else {
        stuck, explored, rec := ExecutedTurn(world, index, resp, uses, exploring, log);
        PassedTurnOk(limits, world, log, rec, now, checked);
        PassedAdvance(limits, log, rec, now, checked, Snap());
      }
    }

    // A response that was cut off, or that calls no tool.
    method PlainTurn(world: World, index: nat, resp: Response, continuations: int, ghost log: seq<TurnRecord>)
      returns (end: Option<Ending>, continued: int, ghost rec: TurnRecord)
      requires index == |log| && continuations == Continuations(log) <= MAX_CONTINUATIONS
      requires resp.stopReason == "max_tokens" || ToolUses(resp.content) == []
      modifies `transcript
      ensures PlainTurnOk(limits, world, log, resp, rec)
      ensures Snap() == old(Snap()).(transcript := old(transcript) + Replies(rec))
      ensures end == if Continues(rec) then None else Some(StopOf(rec))
      ensures continued == if resp.stopReason == "max_tokens" then continuations + 1 else 0
    {
      end, continued := None, 0;
      if resp.stopReason == "max_tokens" {
        continued := continuations + 1;
        if continued > MAX_CONTINUATIONS {
          rec := TruncatedTooOften(resp);
          end := Some(Ending(MaxTurns, Some(TooManyContinuations), None));
        } else {
          rec := Truncated(resp);
          transcript := transcript + [UserMessage("[continue]")];
        }
      } else if limits.hasSkills && world.skill(index).Some? {
        rec := SkillMatched(resp, world.skill(index).value);
        transcript := transcript + [SkillNotice(world.skill(index).value)];
      } else {
        rec := Answered(resp);
        var text := AllText(resp.content);
        end := Some(Ending(SuccessText, None, Some(text)));
      }
    }

    // What follows a response.
    method Respond(world: World, index: nat, resp: Response, continuations: int, exploring: int,
            ghost log: seq<TurnRecord>)
      returns (end: Option<Ending>, continued: int, explored: int, ghost rec: TurnRecord)
      requires Apart() && index == |log| && world.provider(index) == Some(resp)
      requires continuations == Continuations(log) <= MAX_CONTINUATIONS && exploring == Exploring(log)
      modifies sink, guardTracker, readTracker, budget, budget.tracker
      modifies `transcript, `metrics, `readOnlyTurns, `editSucceeded, `editRecoveryReads, `repeatedReadWarned,
               `guardNudge
      ensures Apart() && !rec.NoResponse? && rec.resp == resp && Proper(rec)
      ensures RecordOk(limits, world, old(Guard()), old(readTracker.regionReads), log, rec)
      ensures ToolAdvanced(limits, log, old(Snap()), rec, Snap())
      ensures end == if Continues(rec) then None else Some(StopOf(rec))
      ensures end.None? ==> continued == if rec.Truncated? then continuations + 1 else 0
      ensures explored == if !rec.Executed? then exploring else if ChangesCodeBatch(UsesOf(rec)) then 0
              else exploring + 1
    {
      explored := exploring;
      var uses := AllToolUses(resp.content);
      if resp.stopReason == "max_tokens" || |uses| == 0 {
        end, continued, rec := PlainTurn(world, index, resp, continuations, log);
        PlainRecordOk(limits, world, Guard(), readTracker.regionReads, log, resp, rec);
      } else {
        continued := 0;
        var stuck, blocked;
        stuck, blocked, explored, rec := ToolTurn(world, index, resp, uses, exploring, log);
        end := if blocked then Some(Ending(StoppedByGuard, None, None))
          else if stuck then Some(Ending(StoppedByGuard, Some(StuckInExploration), None)) else None;
        ToolRecordOk(limits, world, old(Guard()), old(readTracker.regionReads), log, rec);
      }
    }

    // One turn of the loop.
    method TakeTurn(world: World, index: nat, usage: Usage, continuations: int, exploring: int,
            ghost log: seq<TurnRecord>)
      returns (end: Option<Ending>, used: Usage, continued: int, explored: int,
        ghost rec: TurnRecord)
      requires Apart() && index == |log|
      requires continuations == Continuations(log) <= MAX_CONTINUATIONS && exploring == Exploring(log)
      modifies sink, guardTracker, readTracker, budget, budget.tracker
      modifies `transcript, `metrics, `readOnlyTurns, `editSucceeded, `editRecoveryReads, `repeatedReadWarned,
               `guardNudge
      ensures Apart()
      ensures RecordOk(limits, world, old(Guard()), old(readTracker.regionReads), log, rec)
      ensures Advanced(limits, log, old(Snap()), rec, Snap())
      ensures used == usage.Add(UsageOf(rec))
      ensures end == if Continues(rec) then None else Some(StopOf(rec))
      ensures end.None? ==> continued == if rec.Truncated? then continuations + 1 else 0
      ensures explored == if !rec.Executed? then exploring else if ChangesCodeBatch(UsesOf(rec)) then 0
              else exploring + 1
    {
      used, continued, explored := usage, continuations, exploring;
      var answer := world.provider(index);
      if answer.None? {
        rec := NoResponse;
        end := Some(Ending(ProviderFailure, Some(ProviderError), None));
        return;
      }
      var resp := answer.value;
      used := usage.Add(resp.usage);
      sink.Emit(ModelResponse(index + 1, resp.stopReason, resp.usage));
      transcript := transcript + [Message(Assistant, resp.content)];
      ghost var heard := Snap();
      end, continued, explored, rec := Respond(world, index, resp, continuations, exploring, log);
      WithResponse(limits, log, old(Snap()), heard, rec, Snap());
    }

    method FinishRun(output: Option<string>, turns: int, usage: Usage, stopReason: StopReason)
      returns (result: RunResult)
      requires Apart()
      modifies sink
      ensures Apart()
      ensures Snap() == old(Snap()).(events := sink.events)
      ensures result == RunResult(output, transcript, turns, usage, stopReason, metrics.guardReason, metrics)
      ensures sink.events == old(sink.events) + [RunFinished(turns, stopReason, metrics.guardReason, usage)]
    {
      result := RunResult(output, transcript, turns, usage, stopReason, metrics.guardReason, metrics);
      sink.Emit(RunFinished(turns, stopReason, result.guardReason, usage));
    }

    // One more turn of a run.
    method AddTurn(input: string, world: World, ghost start: Snapshot, index: nat, usage: Usage, continuations: int,
            exploring: int, ghost log: seq<TurnRecord>)
      returns (end: Option<Ending>, used: Usage, continued: int, explored: int,
        ghost longer: seq<TurnRecord>)
      requires Apart() && index == |log| < limits.maxTurns && AllContinue(log)
      requires continuations == Continuations(log) <= MAX_CONTINUATIONS && exploring == Exploring(log)
      modifies sink, guardTracker, readTracker, budget, budget.tracker
      modifies `transcript, `metrics, `readOnlyTurns, `editSucceeded, `editRecoveryReads, `repeatedReadWarned,
               `guardNudge
      ensures Apart() && |longer| == index + 1
      ensures Going(limits, world, start, input, log, old(Snap())) ==>
                Reached(limits, world, start, longer, Snap()) && Said(start, input, longer, Snap())
      ensures usage == TotalUsage(log) ==> used == TotalUsage(longer)
      ensures end.Some? ==> Ended(limits, longer, end)
      ensures end.None? ==> AllContinue(longer) && continued == Continuations(longer) <= MAX_CONTINUATIONS
      ensures end.None? ==> explored == Exploring(longer)
    {
      hide LogOk, Decide, AllMetrics, GuardAfter, LegacyCounts, AllEvents, AllMessages, TotalUsage, RecordOk, Advanced;
      ghost var now := Snap();
      ghost var rec;
      end, used, continued, explored, rec := TakeTurn(world, index, usage, continuations, exploring, log);
      longer := log + [rec];
      CounterSnoc(log, rec);
      if Going(limits, world, start, input, log, now) {
        NextTurn(limits, world, start, input, log, now, rec, Snap());
      }
      if end.Some? {
        EndedHere(limits, log, rec);
      }
    }

    // The turns of a run, until one ends it or the limit is reached.
    method Turns(input: string, world: World, ghost start: Snapshot)
      returns (end: Option<Ending>, turns: int, usage: Usage, ghost log: seq<TurnRecord>)
      requires Apart() && Reached(limits, world, start, [], Snap()) && Said(start, input, [], Snap())
      modifies sink, guardTracker, readTracker, budget, budget.tracker
      modifies `transcript, `metrics, `readOnlyTurns, `editSucceeded, `editRecoveryReads, `repeatedReadWarned,
               `guardNudge
      ensures Apart()
      ensures Reached(limits, world, start, log, Snap()) && Said(start, input, log, Snap()) && Ended(limits, log, end)
      ensures turns == (if end.None? then limits.maxTurns else |log|) && usage == TotalUsage(log)
    {
      var exploring, continuations, turn := 0, 0, 0;
      end, usage, log := None, NO_USAGE, [];
      while turn < limits.maxTurns
        invariant 0 <= turn == |log| && (turn <= limits.maxTurns || turn == 0) && end.None?
        invariant Apart()
        invariant Going(limits, world, start, input, log, Snap())
        invariant usage == TotalUsage(log) && continuations == Continuations(log) <= MAX_CONTINUATIONS
                  && exploring == Exploring(log)
      {
        end, usage, continuations, exploring, log :=
          AddTurn(input, world, start, turn, usage, continuations, exploring, log);
        turn := turn + 1;
        if end.Some? {
          return end, turn, usage, log;
        }
      }
      turns := limits.maxTurns;
    }

    // The agent loop.  The log tells what happened in each turn; everything else is a function of it.
    method Run(input: string, world: World)
        returns (result: Option<RunResult>, error: Option<RunError>, ghost log: seq<TurnRecord>)
      requires Valid()
      modifies Repr()
      ensures Valid() && attempts == old(attempts) + AllAttempts(log)
      ensures runs == old(runs) + if result.None? then []
              else [PastRun(input, world, old(Guard()), old(readTracker.regionReads), log)]
      ensures result.None? <==> input == "" || !hasProvider
      ensures result.None? ==> Snap() == old(Snap()) && log == []
      ensures result.None? ==> error == Some(if input == "" then EmptyInput else NoProvider)
      ensures result.Some? ==> RunDone(limits, world, input, old(Snap()), log, Snap(), result.value, error)
      ensures ExecutedTurns() == old(ExecutedTurns()) + TurnsOf(limits, old(Guard()), log)
    {
      log := [];
      if input == "" || !hasProvider {
        result, error := None, Some(if input == "" then EmptyInput else NoProvider);
        assert attempts == attempts + AllAttempts(log)
               && ExecutedTurns() == ExecutedTurns() + TurnsOf(limits, Guard(), log);
      } else {
        ghost var start := Snap();
        ghost var run := PastRun(input, world, Guard(), readTracker.regionReads, []);
        result, error, log := Converse(input, world);
        WhenDone(limits, world, input, start, log, Snap(), result.value, error);
        hide RunDone, LogOk, HistoryAfter, Decide, SessionMessages, AllHappened, GuardAfter;
        run := run.(log := log);
        RunsSnoc(limits, runs, run);
        runs := runs + [run];
        ReplayAttempts(limits, world, attempts, old(readTracker.regionReads), log);
        attempts := attempts + AllAttempts(log);
      }
    }

    method Converse(input: string, world: World)
        returns (result: Option<RunResult>, error: Option<RunError>, ghost log: seq<TurnRecord>)
      requires Apart()
      modifies sink, guardTracker, readTracker, budget, budget.tracker
      modifies `transcript, `metrics, `readOnlyTurns, `editSucceeded, `editRecoveryReads, `repeatedReadWarned,
               `guardNudge
      ensures result.Some? && RunDone(limits, world, input, old(Snap()), log, Snap(), result.value, error)
    {
      ghost var start := Snap();
      transcript := transcript + [UserMessage(input)];
      sink.Emit(RunStarted);
      var end, turns, usage;
      end, turns, usage, log := Turns(input, world, start);
      ghost var now := Snap();
      var stop := if end.Some? then end.value else OUT_OF_TURNS;
      var finished := FinishRun(stop.output, turns, usage, stop.stop);
      result, error := Some(finished), stop.error;
      assert sink.events[..|sink.events| - 1] == now.events;
    }
  }

  // What a finished run promises.
  ghost predicate RunDone(limits: Limits, world: World, input: string, start: Snapshot, log: seq<TurnRecord>,
          now: Snapshot, result: RunResult, error: Option<RunError>)
  {
    && now.events != []
    && now.events[|now.events| - 1] == RunFinished(result.turns, result.stopReason, result.guardReason, result.usage)
    && Reached(limits, world, start, log, now.(events := now.events[..|now.events| - 1]))
         && Said(start, input, log, now)
    && result.messages == now.transcript && result.metrics == now.metrics
         && result.guardReason == now.metrics.guardReason
    && result.usage == TotalUsage(log)
    && exists end :: && Ended(limits, log, end)
                     && result.turns == (if end.None? then limits.maxTurns else |log|)
                     && Ending(result.stopReason, error, result.output)
                        == if end.Some? then end.value else OUT_OF_TURNS
  }

  lemma {:induction false} WhenDone(limits: Limits, world: World, input: string, start: Snapshot,
          log: seq<TurnRecord>, now: Snapshot, result: RunResult, error: Option<RunError>)
    requires RunDone(limits, world, input, start, log, now, result, error)
    ensures LogOk(limits, world, start.guard, start.counts, log)
    ensures now.guard == GuardAfter(limits, start.guard, log)
    ensures now.transcript == start.transcript + [UserMessage(input)] + AllMessages(log)
  {
  }

  // What one call adds to the counts.
  lemma RecordSnoc(m: Metrics, uses: seq<ToolUse>, tu: ToolUse)
    ensures var before := RecordUses(m, uses);
            RecordUses(m, uses + [tu]) ==
            before.(toolCalls := before.toolCalls + 1,
                    readOnly := before.readOnly + if IsReadOnly(tu) then 1 else 0,
                    mutations := before.mutations + if IsMutating(tu) then 1 else 0,
                    grepCalls := before.grepCalls + if tu.name == "grep" then 1 else 0,
                    readFileCalls := before.readFileCalls + if tu.name == "read_file" then 1 else 0,
                    editFileCalls := before.editFileCalls + if tu.name == "edit_file" then 1 else 0)
  {
    assert (uses + [tu])[..|uses|] == uses;
  }

  lemma NamesDiffer()
    ensures "grep" != "read_file" && "grep" != "edit_file" && "read_file" != "edit_file"
  {
    assert "read_file"[0] == 'r' && "edit_file"[0] == 'e';
  }
}
