// What every run promises, for every provider, tool set and schedule: consequences of the log.
module RunFacts {
  import opened Messages
  import opened ReadTracking
  import opened Convergence
  import opened ToolRuns
  import opened RunLog
  import opened SessionLoop

  ghost predicate Inner(events: seq<Event>) {
    forall i :: 0 <= i < |events| ==> !events[i].RunStarted? && !events[i].RunFinished?
  }

  lemma {:induction false} SumAppend(m: Measure, a: seq<Event>, b: seq<Event>)
    ensures Sum(m, a + b) == Sum(m, a) + Sum(m, b)
  {
    if b == [] {
      assert a + b == a;
    } else {
      SumAppend(m, a, b[..|b| - 1]);
      assert (a + b)[..|a + b| - 1] == a + b[..|b| - 1];
    }
  }

  lemma {:induction false} SumOne(m: Measure, e: Event)
    ensures Sum(m, [e]) == Of(m, e)
  {
    assert [e][..0] == [];
  }

  // Executing tools emits only tool events.
  lemma {:induction false} ToolEventsOnly(m: Measure, s: seq<Tick>, uses: seq<ToolUse>, results: seq<ToolResult>,
          turn: int)
    requires |uses| == |results| && forall t :: t in s ==> t.i < |uses|
    ensures Inner(Emitted(s, uses, results, turn))
    ensures !m.Starts? && !m.Finishes? ==> Sum(m, Emitted(s, uses, results, turn)) == 0
  {
    if s != [] {
      ToolEventsOnly(m, s[..|s| - 1], uses, results, turn);
      SumSnoc(m, Emitted(s[..|s| - 1], uses, results, turn), EventOf(s[|s| - 1], uses, results, turn));
    }
  }

  // The reason with which a turn stopped the run.
  function Stopping(rec: TurnRecord): Option<GuardReason> {
    match rec
    case Blocked(_, reason) => Some(reason)
    case Executed(_, _, _, abort, _) => abort
    case _ => None
  }

  // What a turn must add to each measure: one start and one finish per executed tool, one response
  // with its usage, one trigger if it stopped the run.
  function TurnTotal(m: Measure, rec: TurnRecord): int {
    match m
    case Starts => if rec.Executed? then |UsesOf(rec)| else 0
    case Finishes => if rec.Executed? then |UsesOf(rec)| else 0
    case Responses => if rec.NoResponse? then 0 else 1
    case Triggers => if Stopping(rec).Some? then 1 else 0
    case InputTokens => UsageOf(rec).inputTokens
    case OutputTokens => UsageOf(rec).outputTokens
  }

  function LogTotal(m: Measure, log: seq<TurnRecord>): int {
    if log == [] then 0 else LogTotal(m, log[..|log| - 1]) + TurnTotal(m, log[|log| - 1])
  }

  ghost predicate ToolsPaired(rec: TurnRecord) {
    rec.Executed? ==> exists limit :: Legal(rec.schedule, |UsesOf(rec)|, limit) && Complete(rec.schedule, |UsesOf(rec)|)
  }

  lemma {:induction false} ToolsSum(m: Measure, rec: TurnRecord, turn: int)
    requires Proper(rec) && rec.Executed? && ToolsPaired(rec)
    ensures Inner(Emitted(rec.schedule, UsesOf(rec), rec.results, turn))
    ensures Sum(m, Emitted(rec.schedule, UsesOf(rec), rec.results, turn)) == if m.Starts? || m.Finishes? then
            |UsesOf(rec)| else 0
  {
    var limit :| Legal(rec.schedule, |UsesOf(rec)|, limit) && Complete(rec.schedule, |UsesOf(rec)|);
    OnePairPerTool(rec.schedule, |UsesOf(rec)|, limit, UsesOf(rec), rec.results, turn);
    ToolEventsOnly(m, rec.schedule, UsesOf(rec), rec.results, turn);
  }

  lemma {:induction false} ExecutedEvents(rec: TurnRecord, turn: int)
    requires Proper(rec) && rec.Executed?
    ensures var tools := Emitted(rec.schedule, UsesOf(rec), rec.results, turn);
            ToolEvents(rec, turn) == if rec.abort.Some? then
              tools + [GuardTriggered(turn, ToolNames(UsesOf(rec)), rec.abort.value)] else tools
  {
    var tools := Emitted(rec.schedule, UsesOf(rec), rec.results, turn);
    assert tools + [] == tools;
  }

  lemma {:induction false} WithTrigger(m: Measure, tools: seq<Event>, trigger: Event)
    requires Inner(tools) && trigger.GuardTriggered?
    ensures Inner(tools + [trigger]) && Sum(m, tools + [trigger]) == Sum(m, tools) + if m.Triggers? then 1 else 0
  {
    SumSnoc(m, tools, trigger);
  }

  lemma {:induction false} ExecutedSum(m: Measure, rec: TurnRecord, turn: int)
    requires Proper(rec) && rec.Executed? && ToolsPaired(rec)
    ensures Inner(ToolEvents(rec, turn))
    ensures Sum(m, ToolEvents(rec, turn)) == (if m.Starts? || m.Finishes? then |UsesOf(rec)| else 0)
                                             + if m.Triggers? && rec.abort.Some? then 1 else 0
  {
    ToolsSum(m, rec, turn);
    ExecutedEvents(rec, turn);
    if rec.abort.Some? {
      WithTrigger(m, Emitted(rec.schedule, UsesOf(rec), rec.results, turn),
        GuardTriggered(turn, ToolNames(UsesOf(rec)), rec.abort.value));
    }
  }

  lemma {:induction false} RestSum(m: Measure, rec: TurnRecord, turn: int)
    requires Proper(rec) && ToolsPaired(rec) && !rec.NoResponse?
    ensures Inner(ToolEvents(rec, turn))
    ensures Sum(m, ToolEvents(rec, turn)) == (if (m.Starts? || m.Finishes?) && rec.Executed? then |UsesOf(rec)| else 0)
                                             + if m.Triggers? && Stopping(rec).Some? then 1 else 0
  {
    if rec.Executed? {
      ExecutedSum(m, rec, turn);
    } else if rec.Blocked? {
      SumOne(m, GuardTriggered(turn, ToolNames(UsesOf(rec)), rec.reason));
    }
  }

  lemma {:induction false} HeadAndRest(m: Measure, head: Event, rest: seq<Event>)
    requires Inner(rest) && head.ModelResponse?
    ensures Inner([head] + rest) && Sum(m, [head] + rest) == Of(m, head) + Sum(m, rest)
  {
    SumOne(m, head);
    SumAppend(m, [head], rest);
  }

  lemma {:induction false} TurnSum(m: Measure, rec: TurnRecord, turn: int)
    requires Proper(rec) && ToolsPaired(rec)
    ensures Inner(EventsOf(rec, turn)) && Sum(m, EventsOf(rec, turn)) == TurnTotal(m, rec)
  {
    if !rec.NoResponse? {
      RestSum(m, rec, turn);
      HeadAndRest(m, ModelResponse(turn, rec.resp.stopReason, rec.resp.usage), ToolEvents(rec, turn));
    }
  }

  lemma {:induction false} LogIsPaired(limits: Limits, world: World, g: GuardState, counts: Counts,
          log: seq<TurnRecord>)
    requires LogOk(limits, world, g, counts, log)
    ensures forall i :: 0 <= i < |log| ==> Proper(log[i]) && ToolsPaired(log[i])
    ensures forall i :: 0 <= i < |log| ==> (log[i].NoResponse? <==> world.provider(i).None?)
    ensures forall i :: 0 <= i < |log| && !log[i].NoResponse? ==> world.provider(i) == Some(log[i].resp)
  {
    if log != [] {
      LogIsPaired(limits, world, g, counts, log[..|log| - 1]);
      var last := log[|log| - 1];
      if last.Executed? {
        assert Legal(last.schedule, |UsesOf(last)|, limits.maxConcurrency);
      }
    }
  }

  // Between run_started and run_finished the events are balanced, whatever the provider, the tools and
  // the schedule did.
  lemma {:induction false} EventsBalance(m: Measure, limits: Limits, world: World, g: GuardState, counts: Counts,
          log: seq<TurnRecord>)
    requires LogOk(limits, world, g, counts, log) && forall i :: 0 <= i < |log| ==> Proper(log[i])
    ensures Inner(AllEvents(log)) && Sum(m, AllEvents(log)) == LogTotal(m, log)
  {
    if log != [] {
      var rest, last := log[..|log| - 1], log[|log| - 1];
      LogIsPaired(limits, world, g, counts, log);
      EventsBalance(m, limits, world, g, counts, rest);
      TurnSum(m, last, |log|);
      SumAppend(m, AllEvents(rest), EventsOf(last, |log|));
    }
  }

  // The usage of a run is the sum over its responses, and the stop events are those in the metrics.
  lemma {:induction false} TotalsAgree(m: Metrics, log: seq<TurnRecord>)
    ensures TotalUsage(log).inputTokens == LogTotal(InputTokens, log)
    ensures TotalUsage(log).outputTokens == LogTotal(OutputTokens, log)
    ensures AllMetrics(m, log).guardTriggers == m.guardTriggers + LogTotal(Triggers, log)
    ensures LogTotal(Starts, log) == LogTotal(Finishes, log)
  {
    UsageAgrees(log);
    TriggersAgree(m, log);
    PairsAgree(log);
  }

  lemma {:induction false} UsageAgrees(log: seq<TurnRecord>)
    ensures TotalUsage(log).inputTokens == LogTotal(InputTokens, log)
    ensures TotalUsage(log).outputTokens == LogTotal(OutputTokens, log)
  {
    if log != [] {
      UsageAgrees(log[..|log| - 1]);
    }
  }

  lemma {:induction false} TriggersAgree(m: Metrics, log: seq<TurnRecord>)
    ensures AllMetrics(m, log).guardTriggers == m.guardTriggers + LogTotal(Triggers, log)
  {
    if log != [] {
      TriggersAgree(m, log[..|log| - 1]);
    }
  }

  lemma {:induction false} PairsAgree(log: seq<TurnRecord>)
    ensures LogTotal(Starts, log) == LogTotal(Finishes, log)
  {
    if log != [] {
      PairsAgree(log[..|log| - 1]);
    }
  }

  // The events are what was there before, run_started, the body and run_finished.
  ghost predicate Framed(base: seq<Event>, body: seq<Event>, result: RunResult, events: seq<Event>) {
    && events != [] && events[..|events| - 1] == base + [RunStarted] + body
    && events[|events| - 1] == RunFinished(result.turns, result.stopReason, result.guardReason, result.usage)
  }

  lemma FramedEvents(base: seq<Event>, body: seq<Event>, result: RunResult, events: seq<Event>)
    requires Framed(base, body, result, events)
    ensures events == base + [RunStarted] + body
            + [RunFinished(result.turns, result.stopReason, result.guardReason, result.usage)]
  {
  }

  // A finished run emits run_started first and run_finished last and nowhere else, with balanced events
  // in between.
  lemma {:induction false} FinishedRunIsFramed(m: Measure, limits: Limits, world: World, input: string,
          start: Snapshot, log: seq<TurnRecord>, now: Snapshot, result: RunResult, error: Option<RunError>)
    requires RunDone(limits, world, input, start, log, now, result, error)
    ensures forall i :: 0 <= i < |log| ==> Proper(log[i])
    ensures now.events == start.events + [RunStarted] + AllEvents(log)
                          + [RunFinished(result.turns, result.stopReason, result.guardReason, result.usage)]
    ensures Inner(AllEvents(log)) && Sum(m, AllEvents(log)) == LogTotal(m, log)
  {
    RunIsFramed(limits, world, input, start, log, now, result, error);
    FramedEvents(start.events, AllEvents(log), result, now.events);
    EventsBalance(m, limits, world, start.guard, start.counts, log);
  }

  lemma {:induction false} RunIsFramed(limits: Limits, world: World, input: string, start: Snapshot,
          log: seq<TurnRecord>, now: Snapshot, result: RunResult, error: Option<RunError>)
    requires RunDone(limits, world, input, start, log, now, result, error)
    ensures LogOk(limits, world, start.guard, start.counts, log) && forall i :: 0 <= i < |log| ==> Proper(log[i])
    ensures Framed(start.events, AllEvents(log), result, now.events)
  {
  }

  // It counts one turn per provider call, never more than the limit, reports the usage it received, and
  // gives no error exactly when the model answered or the guard refused the last tool calls.
  lemma {:induction false} FinishedRunAddsUp(limits: Limits, world: World, input: string, start: Snapshot,
          log: seq<TurnRecord>, now: Snapshot, result: RunResult, error: Option<RunError>)
    requires RunDone(limits, world, input, start, log, now, result, error)
    ensures limits.maxTurns >= 0 ==> result.turns == |log| <= limits.maxTurns
    ensures result.usage.inputTokens == LogTotal(InputTokens, log)
            && result.usage.outputTokens == LogTotal(OutputTokens, log)
    ensures LogTotal(Responses, log) == |log| - if result.stopReason == ProviderFailure then 1 else 0
    ensures error.None? <==> result.stopReason == SuccessText || (log != [] && log[|log| - 1].Blocked?)
  {
    TotalsAgree(start.metrics, log);
    ContinuedTurnsHadResponses(log);
  }

  lemma {:induction false} ContinuedTurnsHadResponses(log: seq<TurnRecord>)
    requires log != [] ==> AllContinue(log[..|log| - 1])
    ensures LogTotal(Responses, log) == |log| - if log != [] && log[|log| - 1].NoResponse? then 1 else 0
  {
    if log != [] {
      assert forall i :: 0 <= i < |log| - 1 ==> log[..|log| - 1][i] == log[i];
      ContinuedTurnsHadResponses(log[..|log| - 1]);
    }
  }

  // At most three consecutive max_tokens responses are continued.
  lemma {:induction false} ContinuationsAreBounded(limits: Limits, world: World, g: GuardState, counts: Counts,
          log: seq<TurnRecord>, i: nat, j: nat)
    requires LogOk(limits, world, g, counts, log) && i <= j <= |log|
    requires forall k :: i <= k < j ==> log[k].Truncated?
    ensures j - i <= Continuations(log[..j]) <= MAX_CONTINUATIONS
  {
    if j < |log| {
      assert log[..|log| - 1][..j] == log[..j];
      ContinuationsAreBounded(limits, world, g, counts, log[..|log| - 1], i, j);
    } else if j > 0 {
      assert log[..j] == log && log[..|log| - 1][..j - 1] == log[..|log| - 1];
      if i < j {
        ContinuationsAreBounded(limits, world, g, counts, log[..|log| - 1], i, j - 1);
      } else if log[j - 1].Truncated? {
        ContinuationsAreBounded(limits, world, g, counts, log[..|log| - 1], j - 1, j - 1);
      }
    }
  }

  // ---------------------------------------------------------------------------------------------
  // The transcript.

  // The message has one result for every tool-use block, in the order of the blocks and with their ids.
  ghost predicate AnswersBlocks(m: Message, content: seq<Content>) {
    && m.role == User && |m.content| == UseCount(content)
    && forall i :: 0 <= i < |content| && content[i].Use? ==>
         var p := UseCount(content[..i]);
         p < |m.content| && m.content[p].Result? && m.content[p].result.toolUseId == content[i].use.id
  }

  lemma {:induction false} ResultsAnswer(content: seq<Content>, results: seq<ToolResult>)
    requires |results| == |ToolUses(content)|
    requires forall k :: 0 <= k < |results| ==> results[k].toolUseId == ToolUses(content)[k].id
    ensures AnswersBlocks(ToolResultMessage(results), content)
  {
    ToolUsesAreTheBlocks(content);
  }

  // Every assistant message with tool calls is followed by their results, in order, unless it was cut
  // off (then by the continuation request) or the guard stopped it (then it is the last one).
  ghost predicate Paired(messages: seq<Message>) {
    forall i :: 0 <= i < |messages| - 1 && messages[i].role == Assistant && HasUse(messages[i].content) ==>
      messages[i + 1] == UserMessage("[continue]") || AnswersBlocks(messages[i + 1], messages[i].content)
  }

  ghost predicate AwaitsModel(messages: seq<Message>) {
    messages == [] || messages[|messages| - 1].role == User
  }

  lemma PairedAppend(a: seq<Message>, b: seq<Message>)
    requires Paired(a) && Paired(b) && AwaitsModel(a)
    ensures Paired(a + b)
    ensures AwaitsModel(b) ==> AwaitsModel(a + b)
  {
    var c := a + b;
    forall i | 0 <= i < |c| - 1 && c[i].role == Assistant && HasUse(c[i].content)
      ensures c[i + 1] == UserMessage("[continue]") || AnswersBlocks(c[i + 1], c[i].content)
    {
      if i < |a| - 1 {
        assert c[i] == a[i] && c[i + 1] == a[i + 1];
      } else if i >= |a| {
        assert c[i] == b[i - |a|] && c[i + 1] == b[i - |a| + 1];
      }
    }
  }

  lemma PairedTurn(m: Message, replies: seq<Message>)
    requires m.role == Assistant && forall r :: r in replies ==> r.role == User
    requires replies == [] || !HasUse(m.content) || replies[0] == UserMessage("[continue]")
             || AnswersBlocks(replies[0], m.content)
    ensures Paired([m] + replies) && (replies != [] ==> AwaitsModel([m] + replies))
  {
    var turn := [m] + replies;
    assert forall i :: 0 < i < |turn| ==> turn[i] == replies[i - 1] && turn[i].role == User;
  }

  lemma TurnIsPaired(rec: TurnRecord)
    requires Proper(rec)
    requires rec.Executed? ==> forall k :: 0 <= k < |rec.results| ==> rec.results[k].toolUseId == UsesOf(rec)[k].id
    requires rec.SkillMatched? || rec.Answered? ==> !HasUse(rec.resp.content)
    ensures Paired(MessagesOf(rec))
    ensures Continues(rec) ==> AwaitsModel(MessagesOf(rec))
  {
    if !rec.NoResponse? {
      if rec.Executed? {
        ResultsAnswer(rec.resp.content, rec.results);
      }
      PairedTurn(Message(Assistant, rec.resp.content), Replies(rec));
    }
  }

  // The messages of a run, however it ends, answer every tool call they can.
  lemma {:induction false} TranscriptIsPaired(limits: Limits, world: World, g: GuardState, counts: Counts,
          log: seq<TurnRecord>)
    requires LogOk(limits, world, g, counts, log)
    ensures Paired(AllMessages(log))
    ensures AllContinue(log) ==> AwaitsModel(AllMessages(log))
  {
    if log != [] {
      var rest, last := log[..|log| - 1], log[|log| - 1];
      TranscriptIsPaired(limits, world, g, counts, rest);
      if !last.NoResponse? {
        ToolUsesAreTheBlocks(last.resp.content);
      }
      TurnIsPaired(last);
      PairedAppend(AllMessages(rest), MessagesOf(last));
    }
  }

  // The run ended with tool calls that nobody answered: the guard stopped them, or they were cut off once
  // too often.
  predicate EndsUnanswered(log: seq<TurnRecord>) {
    log != [] && (log[|log| - 1].Blocked? || log[|log| - 1].TruncatedTooOften?)
    && HasUse(log[|log| - 1].resp.content)
  }

  predicate OpenEnd(messages: seq<Message>) {
    messages != [] && messages[|messages| - 1].role == Assistant && HasUse(messages[|messages| - 1].content)
  }

  lemma {:induction false} LogEnd(limits: Limits, r: PastRun)
    requires Happened(limits, r)
    ensures OpenEnd(AllMessages(r.log)) <==> EndsUnanswered(r.log)
  {
    if r.log != [] {
      var rest, last := r.log[..|r.log| - 1], r.log[|r.log| - 1];
      EarlierRunOn(limits, r);
      NoUsesWhenAnswered(limits, r, last);
      TurnEnd(last);
      LastMessage(AllMessages(rest), MessagesOf(last));
    }
  }

  lemma EarlierRunOn(limits: Limits, r: PastRun)
    requires Happened(limits, r) && r.log != []
    ensures !OpenEnd(AllMessages(r.log[..|r.log| - 1]))
  {
    TranscriptIsPaired(limits, r.world, r.guard, r.counts, r.log[..|r.log| - 1]);
  }

  lemma NoUsesWhenAnswered(limits: Limits, r: PastRun, last: TurnRecord)
    requires Happened(limits, r) && r.log != [] && last == r.log[|r.log| - 1]
    ensures Proper(last) && (last.Answered? ==> !HasUse(last.resp.content))
    ensures AllContinue(r.log[..|r.log| - 1])
  {
    if !last.NoResponse? {
      ToolUsesAreTheBlocks(last.resp.content);
    }
  }

  lemma TurnEnd(rec: TurnRecord)
    requires Proper(rec) && (rec.Answered? ==> !HasUse(rec.resp.content))
    ensures OpenEnd(MessagesOf(rec)) <==> EndsUnanswered([rec])
    ensures MessagesOf(rec) == [] <==> rec.NoResponse?
  {
  }

  lemma LastMessage(a: seq<Message>, b: seq<Message>)
    ensures OpenEnd(a + b) <==> if b == [] then OpenEnd(a) else OpenEnd(b)
  {
    if b == [] {
      assert a + b == a;
    }
  }

  lemma {:induction false} RunIsPaired(limits: Limits, r: PastRun)
    requires Happened(limits, r)
    ensures Paired(RunMessages(r)) && (OpenEnd(RunMessages(r)) <==> EndsUnanswered(r.log))
  {
    TranscriptIsPaired(limits, r.world, r.guard, r.counts, r.log);
    PairedAppend([UserMessage(r.input)], AllMessages(r.log));
    LogEnd(limits, r);
    LastMessage([UserMessage(r.input)], AllMessages(r.log));
  }

  lemma PairedJoin(a: seq<Message>, input: string, b: seq<Message>)
    requires b != [] && b[0] == UserMessage(input)
    ensures Paired(a + b) <==> Paired(a) && Paired(b) && (OpenEnd(a) ==> input == "[continue]")
  {
    var c := a + b;
    assert forall i :: 0 <= i < |a| ==> c[i] == a[i];
    assert forall i :: 0 <= i < |b| ==> c[|a| + i] == b[i];
    if Paired(c) {
      JoinedArePaired(a, input, b);
    }
    if Paired(a) && Paired(b) && (OpenEnd(a) ==> input == "[continue]") {
      forall i | 0 <= i < |c| - 1 && c[i].role == Assistant && HasUse(c[i].content)
        ensures c[i + 1] == UserMessage("[continue]") || AnswersBlocks(c[i + 1], c[i].content)
      {
        if i < |a| - 1 {
          assert c[i] == a[i] && c[i + 1] == a[i + 1];
        } else if i >= |a| {
          assert c[i] == b[i - |a|] && c[i + 1] == b[i - |a| + 1];
        }
      }
    }
  }

  lemma JoinedArePaired(a: seq<Message>, input: string, b: seq<Message>)
    requires b != [] && b[0] == UserMessage(input) && Paired(a + b)
    ensures Paired(a) && Paired(b) && (OpenEnd(a) ==> input == "[continue]")
  {
    var c := a + b;
    forall i | 0 <= i < |a| - 1 && a[i].role == Assistant && HasUse(a[i].content)
      ensures a[i + 1] == UserMessage("[continue]") || AnswersBlocks(a[i + 1], a[i].content)
    {
      assert c[i] == a[i] && c[i + 1] == a[i + 1];
    }
    forall i | 0 <= i < |b| - 1 && b[i].role == Assistant && HasUse(b[i].content)
      ensures b[i + 1] == UserMessage("[continue]") || AnswersBlocks(b[i + 1], b[i].content)
    {
      assert c[|a| + i] == b[i] && c[|a| + i + 1] == b[i + 1];
    }
    if OpenEnd(a) {
      assert c[|a| - 1] == a[|a| - 1] && c[|a| - 1 + 1] == b[0];
      assert b[0].content == [Text(input)] && UserMessage("[continue]").content == [Text("[continue]")];
      assert Text(input) == b[0].content[0];
    }
  }

  // No run but the last leaves tool calls that the next input does not ask the model to go on from.
  ghost predicate AllAnswered(runs: seq<PastRun>) {
    forall i :: 0 <= i < |runs| - 1 && EndsUnanswered(runs[i].log) ==> runs[i + 1].input == "[continue]"
  }

  lemma {:induction false} AnsweredSnoc(runs: seq<PastRun>)
    requires runs != []
    ensures var rest, last := runs[..|runs| - 1], runs[|runs| - 1];
            AllAnswered(runs) <==>
              AllAnswered(rest) && (rest != [] && EndsUnanswered(rest[|rest| - 1].log) ==> last.input == "[continue]")
  {
    var rest, last := runs[..|runs| - 1], runs[|runs| - 1];
    if AllAnswered(runs) {
      forall i | 0 <= i < |rest| - 1 && EndsUnanswered(rest[i].log)
        ensures rest[i + 1].input == "[continue]"
      {
        assert runs[i] == rest[i] && runs[i + 1] == rest[i + 1];
      }
      if rest != [] {
        assert runs[|rest| - 1] == rest[|rest| - 1] && runs[|rest| - 1 + 1] == last;
      }
    } else {
      var i :| 0 <= i < |runs| - 1 && EndsUnanswered(runs[i].log) && runs[i + 1].input != "[continue]";
      assert rest[i] == runs[i];
      if i + 1 < |rest| {
        assert rest[i + 1] == runs[i + 1];
      }
    }
  }

  // Over a session the pairing holds exactly if no run but the last ends with unanswered tool calls, unless
  // the next input happens to be the text that asks the model to go on.
  lemma {:induction false} SessionIsPairedIff(limits: Limits, runs: seq<PastRun>)
    requires AllHappened(limits, runs)
    ensures Paired(SessionMessages(runs)) <==> AllAnswered(runs)
    ensures OpenEnd(SessionMessages(runs)) <==> runs != [] && EndsUnanswered(runs[|runs| - 1].log)
  {
    if runs != [] {
      SessionIsPairedIff(limits, runs[..|runs| - 1]);
      SessionSnoc(limits, SessionMessages(runs[..|runs| - 1]), runs[|runs| - 1]);
      AnsweredSnoc(runs);
    }
  }

  lemma {:induction false} SessionSnoc(limits: Limits, before: seq<Message>, r: PastRun)
    requires Happened(limits, r)
    ensures Paired(before + RunMessages(r)) <==> Paired(before) && (OpenEnd(before) ==> r.input == "[continue]")
    ensures OpenEnd(before + RunMessages(r)) <==> EndsUnanswered(r.log)
  {
    RunIsPaired(limits, r);
    PairedJoin(before, r.input, RunMessages(r));
    LastMessage(before, RunMessages(r));
  }

  // ---------------------------------------------------------------------------------------------
  // What holds of a live session, whatever runs it has been through.

  lemma SessionReadsAreBounded(s: Session, i: nat, j: nat)
    requires s.Valid() && Guarded(s.limits.guard) && s.limits.guard.value.maxReadOnlyTurns >= 1
    requires i <= j <= |s.ExecutedTurns()| && forall k :: i <= k < j ==> AllReadOnly(s.ExecutedTurns()[k].uses)
    ensures j - i <= ReadOnlyBound(s.limits.guard)
  {
    ReadOnlySpansAreBounded(s.limits.guard, s.limits.budget, s.attempts, i, j);
  }

  lemma SessionTranscriptIsPairedIff(s: Session)
    requires s.Valid()
    ensures Paired(s.transcript) <==> AllAnswered(s.runs)
  {
    SessionIsPairedIff(s.limits, s.runs);
  }
}
