// session.go, Run: every turn of a run in terms of the provider's answer and the tools' outcomes alone.
module RunTurns {
  import opened Messages
  import opened ReadTracking
  import opened Convergence
  import opened ToolRuns
  import opened RunLog
  import opened SessionLoop
  import opened RunFacts
  import opened RepeatedReads

  lemma {:induction false} RecordAt(limits: Limits, world: World, g: GuardState, counts: Counts, log: seq<TurnRecord>,
          k: nat)
    requires LogOk(limits, world, g, counts, log) && k < |log|
    ensures AllContinue(log[..k]) && LogOk(limits, world, g, counts, log[..k])
    ensures RecordOk(limits, world, GuardAfter(limits, g, log[..k]), LegacyCounts(limits, counts, log[..k]), log[..k],
                     log[k])
    decreases |log|
  {
    var rest := log[..|log| - 1];
    if k < |rest| {
      RecordAt(limits, world, g, counts, rest, k);
      assert rest[..k] == log[..k];
    }
  }

  // The three answers before it were continued too.
  predicate ThreeContinued(log: seq<TurnRecord>, k: nat)
    requires k <= |log|
  {
    k >= 3 && log[k - 1].Truncated? && log[k - 2].Truncated? && log[k - 3].Truncated?
  }

  lemma {:induction false} ContinuationsAreThree(log: seq<TurnRecord>)
    requires Continuations(log) <= 3
    ensures Continuations(log) == 3 <==> ThreeContinued(log, |log|)
  {
    if log != [] && log[|log| - 1].Truncated? {
      var one := log[..|log| - 1];
      if one != [] && one[|one| - 1].Truncated? {
        var two := one[..|one| - 1];
        assert Continuations(two) > 0 <==> two != [] && two[|two| - 1].Truncated?;
      }
    }
  }

  // What becomes of the provider's answer: an error ends the run; an answer that was cut off is continued,
  // but not a fourth time in a row; one without tool-use blocks activates a skill or is the result; the
  // calls of any other are executed unless the guard has a reason against them.
  ghost predicate KindOf(limits: Limits, world: World, g: GuardState, log: seq<TurnRecord>, k: nat)
    requires k < |log|
  {
    var answer, rec := world.provider(k), log[k];
    && (answer.None? <==> rec.NoResponse?)
    && (answer.Some? ==>
          var resp := answer.value;
          var reason := Decide(limits.guard, g, ToolUses(resp.content)).1;
          && rec.resp == resp
          && (resp.stopReason == "max_tokens" ==>
                if ThreeContinued(log, k) then rec.TruncatedTooOften? else rec.Truncated?)
          && (resp.stopReason != "max_tokens" && !HasUse(resp.content) ==>
                if limits.hasSkills && world.skill(k).Some? then rec == SkillMatched(resp, world.skill(k).value)
                else rec.Answered?)
          && (resp.stopReason != "max_tokens" && HasUse(resp.content) ==>
                if reason.Some? then rec == Blocked(resp, reason.value) else rec.Executed?))
  }

  lemma {:induction false} TurnsFollowTheAnswers(limits: Limits, world: World, g: GuardState, counts: Counts,
          log: seq<TurnRecord>, k: nat)
    requires LogOk(limits, world, g, counts, log) && k < |log|
    ensures KindOf(limits, world, GuardAfter(limits, g, log[..k]), log, k)
  {
    hide LogOk, Decide, GuardAfter, LegacyCounts;
    RecordAt(limits, world, g, counts, log, k);
    ContinuationsAreBounded(limits, world, g, counts, log[..k], k, k);
    assert log[..k][..k] == log[..k];
    ContinuationsAreThree(log[..k]);
    if world.provider(k).Some? {
      ToolUsesAreTheBlocks(world.provider(k).value.content);
    }
  }

  // One result for every tool-use block of the answer, in order: the outcome of that call.
  ghost predicate HasOutcomes(results: seq<ToolResult>, content: seq<Content>, world: World, k: nat) {
    && |results| == UseCount(content)
    && forall i :: 0 <= i < |content| && content[i].Use? ==>
         var p := UseCount(content[..i]);
         p < |results| && results[p] == ToolOutcome(content[i].use, world.tool(k, p))
  }

  lemma {:induction false} EveryCallIsExecuted(limits: Limits, world: World, g: GuardState, counts: Counts,
          log: seq<TurnRecord>, k: nat)
    requires LogOk(limits, world, g, counts, log) && k < |log| && log[k].Executed?
    ensures world.provider(k) == Some(log[k].resp)
    ensures HasOutcomes(log[k].results, log[k].resp.content, world, k)
  {
    hide LogOk, Decide, GuardAfter, LegacyCounts;
    RecordAt(limits, world, g, counts, log, k);
    ToolUsesAreTheBlocks(log[k].resp.content);
  }

  // ---------------------------------------------------------------------------------------------
  // The events of a turn.

  // A start event names the call and the size of its input, a finish event also its outcome.
  ghost predicate IsTickOf(e: Event, t: Tick, uses: seq<ToolUse>, results: seq<ToolResult>, turn: int) {
    && t.i < |uses| == |results|
    && match t
       case Start(i) => e == ToolStarted(turn, uses[i].name, uses[i].input.chars)
       case Finish(i) =>
         e == ToolFinished(turn, uses[i].name, results[i].isError, uses[i].input.chars, |results[i].content|)
  }

  lemma {:induction false} EventsNameTheirTool(s: seq<Tick>, uses: seq<ToolUse>, results: seq<ToolResult>, turn: int,
          p: nat)
    requires |uses| == |results| && (forall t :: t in s ==> t.i < |uses|) && p < |s|
    ensures IsTickOf(Emitted(s, uses, results, turn)[p], s[p], uses, results, turn)
  {
    if p < |s| - 1 {
      EventsNameTheirTool(s[..|s| - 1], uses, results, turn, p);
    }
  }

  ghost predicate IsTrigger(e: Event, uses: seq<ToolUse>, reason: GuardReason, turn: int) {
    && e.GuardTriggered? && e.turn == turn && e.reason == reason
    && |e.tools| == |uses| && forall i :: 0 <= i < |uses| ==> e.tools[i] == uses[i].name
  }

  // The answer; then the events of the calls, in the order of the schedule; then what stopped the run.
  ghost predicate TurnEvents(events: seq<Event>, rec: TurnRecord, turn: int) {
    if rec.NoResponse? then events == []
    else
      && events != [] && events[0] == ModelResponse(turn, rec.resp.stopReason, rec.resp.usage)
      && match rec
         case Blocked(_, reason) => |events| == 2 && IsTrigger(events[1], UsesOf(rec), reason, turn)
         case Executed(_, results, schedule, abort, _) =>
           && |events| == 1 + |schedule| + (if abort.Some? then 1 else 0)
           && (forall p :: 0 <= p < |schedule| ==> IsTickOf(events[1 + p], schedule[p], UsesOf(rec), results, turn))
           && (abort.Some? ==> IsTrigger(events[|events| - 1], UsesOf(rec), abort.value, turn))
         case _ => |events| == 1
  }

  lemma {:induction false} EventsOfATurn(rec: TurnRecord, turn: int)
    requires Proper(rec)
    ensures TurnEvents(EventsOf(rec, turn), rec, turn)
  {
    if rec.Executed? {
      forall p | 0 <= p < |rec.schedule|
        ensures IsTickOf(EventsOf(rec, turn)[1 + p], rec.schedule[p], UsesOf(rec), rec.results, turn)
      {
        EventsNameTheirTool(rec.schedule, UsesOf(rec), rec.results, turn, p);
      }
    }
  }

  // The events of a run are those of its turns, one turn behind the other, numbered from one.
  lemma {:induction false} EventsFollowTheTurns(log: seq<TurnRecord>, k: nat) returns (events: seq<Event>)
    requires k < |log| && forall i :: 0 <= i < |log| ==> Proper(log[i])
    ensures AllEvents(log[..k]) + events == AllEvents(log[..k + 1]) <= AllEvents(log)
    ensures TurnEvents(events, log[k], k + 1)
    decreases |log|
  {
    hide EventsOf, TurnEvents;
    var rest := log[..|log| - 1];
    if k < |rest| {
      events := EventsFollowTheTurns(rest, k);
      assert rest[..k] == log[..k] && rest[..k + 1] == log[..k + 1];
    } else {
      events := EventsOf(log[k], k + 1);
      assert log[..k + 1] == log && log[..k] == rest;
      EventsOfATurn(log[k], k + 1);
    }
  }

  // ---------------------------------------------------------------------------------------------
  // The messages of a turn.

  ghost predicate IsResults(m: Message, results: seq<ToolResult>) {
    && m.role == User && |m.content| == |results|
    && forall i :: 0 <= i < |results| ==> m.content[i] == Result(results[i])
  }

  // The answer as it came; then the request to go on, the notice about a skill, or all results of the calls
  // and the notice of the tracker.
  ghost predicate TurnMessages(messages: seq<Message>, rec: TurnRecord) {
    if rec.NoResponse? then messages == []
    else
      && messages != [] && messages[0] == Message(Assistant, rec.resp.content)
      && match rec
         case Truncated(_) => |messages| == 2 && messages[1] == Message(User, [Text("[continue]")])
         case SkillMatched(_, skill) =>
           && |messages| == 2
           && messages[1] == Message(User,
                [Text("[System: Skill " + skill + " auto-activated. Follow its instructions.]")])
         case Executed(_, results, _, _, notice) =>
           && |messages| == (if notice.Some? then 3 else 2) && IsResults(messages[1], results)
           && (notice.Some? ==> messages[2] == NudgeMessage(notice.value))
         case _ => |messages| == 1
  }

  lemma MessagesOfATurn(rec: TurnRecord)
    ensures TurnMessages(MessagesOf(rec), rec)
  {
  }

  // The messages of a run are those of its turns, one turn behind the other.
  lemma {:induction false} MessagesFollowTheTurns(log: seq<TurnRecord>, k: nat) returns (messages: seq<Message>)
    requires k < |log|
    ensures AllMessages(log[..k]) + messages == AllMessages(log[..k + 1]) <= AllMessages(log)
    ensures TurnMessages(messages, log[k])
    decreases |log|
  {
    hide MessagesOf, TurnMessages;
    var rest := log[..|log| - 1];
    if k < |rest| {
      messages := MessagesFollowTheTurns(rest, k);
      assert rest[..k] == log[..k] && rest[..k + 1] == log[..k + 1];
    } else {
      messages := MessagesOf(log[k]);
      assert log[..k + 1] == log && log[..k] == rest;
      MessagesOfATurn(log[k]);
    }
  }

  // What the model is told about the calls of an executed turn: the outcome of each, in order.
  lemma {:induction false} OutcomesReachTheModel(limits: Limits, world: World, input: string, start: Snapshot,
          log: seq<TurnRecord>, now: Snapshot, result: RunResult, error: Option<RunError>, k: nat)
    returns (at: nat)
    requires RunDone(limits, world, input, start, log, now, result, error) && k < |log| && log[k].Executed?
    ensures at + 1 < |result.messages| && world.provider(k).Some?
    ensures result.messages[at] == Message(Assistant, world.provider(k).value.content)
    ensures exists results :: IsResults(result.messages[at + 1], results)
                              && HasOutcomes(results, world.provider(k).value.content, world, k)
  {
    hide LogOk, AllMessages, AllEvents, AllMetrics, GuardAfter, LegacyCounts, HasOutcomes, IsResults, UseCount;
    EveryCallIsExecuted(limits, world, start.guard, start.counts, log, k);
    var messages := MessagesFollowTheTurns(log, k);
    var before := start.transcript + [UserMessage(input)];
    at := |before| + |AllMessages(log[..k])|;
    PlacedAt(before, AllMessages(log), AllMessages(log[..k]), messages, now.transcript);
    assert IsResults(result.messages[at + 1], log[k].results);
  }

  lemma PlacedAt<T>(before: seq<T>, all: seq<T>, front: seq<T>, part: seq<T>, whole: seq<T>)
    requires front + part <= all && whole == before + all
    ensures |before| + |front| + |part| <= |whole|
    ensures forall i :: 0 <= i < |part| ==> whole[|before| + |front| + i] == part[i]
  {
  }

  // ---------------------------------------------------------------------------------------------
  // The metrics.

  // The calls that were asked for, executed or not.
  function AllCalls(log: seq<TurnRecord>): seq<ToolUse> {
    if log == [] then []
    else
      var last := log[|log| - 1];
      AllCalls(log[..|log| - 1]) + if last.Blocked? || last.Executed? then UsesOf(last) else []
  }

  lemma {:induction false} CountAppend(a: seq<ToolUse>, b: seq<ToolUse>, p: ToolUse -> bool)
    ensures CountIf(a + b, p) == CountIf(a, p) + CountIf(b, p)
  {
    if b == [] {
      assert a + b == a;
    } else {
      CountAppend(a, b[..|b| - 1], p);
      assert (a + b)[..|a + b| - 1] == a + b[..|b| - 1];
    }
  }

  predicate SameCalls(a: Metrics, b: Metrics) {
    && a.toolCalls == b.toolCalls && a.readOnly == b.readOnly && a.mutations == b.mutations
    && a.grepCalls == b.grepCalls && a.readFileCalls == b.readFileCalls && a.editFileCalls == b.editFileCalls
  }

  lemma {:induction false} RecordAppend(m: Metrics, a: seq<ToolUse>, b: seq<ToolUse>)
    ensures RecordUses(RecordUses(m, a), b) == RecordUses(m, a + b)
  {
    CountAppend(a, b, IsReadOnly);
    CountAppend(a, b, IsMutating);
    CountAppend(a, b, (tu: ToolUse) => tu.name == "grep");
    CountAppend(a, b, (tu: ToolUse) => tu.name == "read_file");
    CountAppend(a, b, (tu: ToolUse) => tu.name == "edit_file");
  }

  lemma {:induction false} CallsInTurn(m: Metrics, n: Metrics, rec: TurnRecord, turn: int)
    requires SameCalls(m, n)
    ensures SameCalls(MetricsAfter(m, rec, turn), if rec.Blocked? || rec.Executed? then
            RecordUses(n, UsesOf(rec)) else n)
  {
  }

  lemma {:induction false} CallsAreRecorded(m: Metrics, log: seq<TurnRecord>)
    ensures SameCalls(AllMetrics(m, log), RecordUses(m, AllCalls(log)))
  {
    if log != [] {
      var rest, last := log[..|log| - 1], log[|log| - 1];
      CallsAreRecorded(m, rest);
      CallsInTurn(AllMetrics(m, rest), RecordUses(m, AllCalls(rest)), last, |log|);
      if last.Blocked? || last.Executed? {
        RecordAppend(m, AllCalls(rest), UsesOf(last));
      } else {
        assert AllCalls(rest) + [] == AllCalls(rest);
      }
      hide RecordUses, MetricsAfter, SameCalls;
    }
  }

  // The call counters grow by the calls of their kind.
  lemma {:induction false} CallsAreCounted(m: Metrics, log: seq<TurnRecord>)
    ensures var after, calls := AllMetrics(m, log), AllCalls(log);
            && after.toolCalls == m.toolCalls + |calls|
            && after.readOnly == m.readOnly + CountIf(calls, IsReadOnly)
            && after.mutations == m.mutations + CountIf(calls, IsMutating)
            && after.grepCalls == m.grepCalls + CountIf(calls, (tu: ToolUse) => tu.name == "grep")
            && after.readFileCalls == m.readFileCalls + CountIf(calls, (tu: ToolUse) => tu.name == "read_file")
            && after.editFileCalls == m.editFileCalls + CountIf(calls, (tu: ToolUse) => tu.name == "edit_file")
  {
    CallsAreRecorded(m, log);
  }

  // Turn k + 1 executed an edit_file call with success.
  predicate EditTurn(log: seq<TurnRecord>, k: nat)
    requires k < |log|
  {
    log[k].Executed? && exists i :: && 0 <= i < |UsesOf(log[k])| && UsesOf(log[k])[i].name == "edit_file"
                                    && i < |log[k].results| && !log[k].results[i].isError
  }

  // The first edit turn is the first such turn of the session.
  lemma {:induction false} FirstEditIsFirst(m: Metrics, log: seq<TurnRecord>)
    ensures var first := AllMetrics(m, log).firstEditTurn;
            if m.firstEditTurn != 0 then first == m.firstEditTurn
            else if first == 0 then forall k :: 0 <= k < |log| ==> !EditTurn(log, k)
            else 1 <= first <= |log| && EditTurn(log, first - 1) && forall k :: 0 <= k < first - 1 ==> !EditTurn(log, k)
  {
    if log != [] {
      var rest, last := log[..|log| - 1], log[|log| - 1];
      FirstEditIsFirst(m, rest);
      assert forall k: nat :: k < |rest| ==> rest[k] == log[k];
      assert forall k: nat :: k < |rest| ==> EditTurn(rest, k) == EditTurn(log, k);
      assert last.Executed? ==> (EditTurn(log, |rest|) <==> EditSucceeded(UsesOf(last), last.results));
    }
  }

  // A run has at most one trigger, its last turn, which leaves its reason.
  lemma {:induction false} StopIsCounted(m: Metrics, log: seq<TurnRecord>)
    requires log != [] ==> AllContinue(log[..|log| - 1])
    ensures var after, reason := AllMetrics(m, log), if log == [] then None else Stopping(log[|log| - 1]);
            && after.guardTriggers == m.guardTriggers + (if reason.Some? then 1 else 0)
            && after.guardReason == (if reason.Some? then reason else m.guardReason)
            && after.readOnlyAfterEditBlocks == m.readOnlyAfterEditBlocks
                                                + if reason == Some(ReadOnlyAfterEdit)
                                                  && log[|log| - 1].Blocked? then 1 else 0
  {
    if log != [] {
      var rest := log[..|log| - 1];
      assert rest != [] ==> Continues(rest[|rest| - 1]);
      assert forall i :: 0 <= i < |rest| ==> Continues(rest[i]);
      StopIsCounted(m, rest);
    }
  }

  // ---------------------------------------------------------------------------------------------
  // The end of a run.

  // Every way a run can end, with the stop reason and the error.
  lemma {:induction false} RunsEnd(limits: Limits, world: World, input: string, start: Snapshot, log: seq<TurnRecord>,
          now: Snapshot, result: RunResult, error: Option<RunError>)
    requires RunDone(limits, world, input, start, log, now, result, error)
    ensures if log == [] || Continues(log[|log| - 1]) then
              && result.stopReason == MaxTurns && error == Some(MaxTurnsExceeded) && result.output.None?
              && |log| == (if limits.maxTurns < 0 then 0 else limits.maxTurns)
            else match log[|log| - 1]
                 case NoResponse =>
                   result.stopReason == ProviderFailure && error == Some(ProviderError) && result.output.None?
                 case TruncatedTooOften(_) =>
                   result.stopReason == MaxTurns && error == Some(TooManyContinuations) && result.output.None?
                 case Answered(resp) => result.stopReason == SuccessText && error.None?
                   && IsAnswer(result.output, resp.content)
                 case Blocked(_, reason) =>
                   result.stopReason == StoppedByGuard && error.None? && result.output.None?
                     && result.guardReason == Some(reason)
                 case Executed(_, _, _, abort, _) =>
                   && result.stopReason == StoppedByGuard && error == Some(StuckInExploration) && result.output.None?
                   && result.guardReason == abort
                 case _ => false
  {
    hide LogOk, AllEvents, AllMessages, GuardAfter, LegacyCounts;
    StopIsCounted(start.metrics, log);
    if log != [] && log[|log| - 1].Answered? {
      TextIsTheBlocks(log[|log| - 1].resp.content);
    }
  }

  // The texts of the blocks, one behind the other.
  ghost predicate IsAnswer(output: Option<string>, content: seq<Content>) {
    && output.Some? && |output.value| == TextLength(content)
    && forall i :: 0 <= i < |content| && content[i].Text? ==>
         StandsAt(output.value, content[i].text, TextLength(content[..i]))
  }
}
