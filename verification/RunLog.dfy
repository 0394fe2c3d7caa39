// session.go, Run: what one run does, turn by turn, and the events, messages and counters it leaves.
module RunLog {
  import opened Strings
  import opened Messages
  import opened ReadTracking
  import opened Convergence
  import opened ToolRuns

  const MAX_CONTINUATIONS: nat := 3

  // The outside of one run: the provider's answer to each call (None for an error), the skill that
  // matches a text answer, and what happens to each tool call.
  datatype World = World(provider: nat -> Option<Response>, skill: nat -> Option<string>, tool: (nat, nat) -> ToolEnv)

  datatype TurnRecord =
    | NoResponse
    | Truncated(resp: Response)
    | TruncatedTooOften(resp: Response)
    | SkillMatched(resp: Response, skill: string)
    | Answered(resp: Response)
    | Blocked(resp: Response, reason: GuardReason)
    | Executed(resp: Response, results: seq<ToolResult>, schedule: seq<Tick>, abort: Option<GuardReason>,
      notice: Option<Nudge>)

  predicate Continues(rec: TurnRecord) {
    rec.Truncated? || rec.SkillMatched? || (rec.Executed? && rec.abort.None?)
  }

  predicate AllContinue(log: seq<TurnRecord>) {
    forall i :: 0 <= i < |log| ==> Continues(log[i])
  }

  function UsesOf(rec: TurnRecord): seq<ToolUse>
    requires !rec.NoResponse?
  {
    ToolUses(rec.resp.content)
  }

  function UsageOf(rec: TurnRecord): Usage {
    if rec.NoResponse? then NO_USAGE else rec.resp.usage
  }

  function ToolNames(uses: seq<ToolUse>): seq<string> {
    seq(|uses|, i requires 0 <= i < |uses| => uses[i].name)
  }

  // A record whose interleaving talks about its own tool calls.
  ghost predicate Proper(rec: TurnRecord) {
    rec.Executed? ==> |rec.results| == |UsesOf(rec)| && forall t :: t in rec.schedule ==> t.i < |UsesOf(rec)|
  }

  ghost function EventsOf(rec: TurnRecord, turn: int): seq<Event>
    requires Proper(rec)
  {
    if rec.NoResponse? then [] else [ModelResponse(turn, rec.resp.stopReason, rec.resp.usage)] + ToolEvents(rec, turn)
  }

  ghost function ToolEvents(rec: TurnRecord, turn: int): seq<Event>
    requires Proper(rec)
  {
    match rec
    case Blocked(_, reason) => [GuardTriggered(turn, ToolNames(UsesOf(rec)), reason)]
    case Executed(_, results, schedule, abort, _) =>
      Emitted(schedule, UsesOf(rec), results, turn)
      + if abort.Some? then [GuardTriggered(turn, ToolNames(UsesOf(rec)), abort.value)] else []
    case _ => []
  }

  function SkillNotice(skill: string): Message {
    UserMessage("[System: Skill " + skill + " auto-activated. Follow its instructions.]")
  }

  function NudgeMessage(nudge: Nudge): Message {
    UserMessage("[System notice] You have read " + nudge.key.path)
  }

  function MessagesOf(rec: TurnRecord): seq<Message> {
    if rec.NoResponse? then [] else [Message(Assistant, rec.resp.content)] + Replies(rec)
  }

  // What the session answers in the user's place.
  function Replies(rec: TurnRecord): seq<Message> {
    match rec
    case Truncated(_) => [UserMessage("[continue]")]
    case SkillMatched(_, skill) => [SkillNotice(skill)]
    case Executed(_, results, _, _, notice) =>
      [ToolResultMessage(results)] + if notice.Some? then [NudgeMessage(notice.value)] else []
    case _ => []
  }

  function AttemptsOf(rec: TurnRecord): seq<Attempt> {
    match rec
    case Blocked(_, _) => [Attempt(UsesOf(rec), [])]
    case Executed(_, results, _, _, _) => [Attempt(UsesOf(rec), results)]
    case _ => []
  }

  ghost function AllEvents(log: seq<TurnRecord>): seq<Event>
    requires forall i :: 0 <= i < |log| ==> Proper(log[i])
  {
    if log == [] then [] else AllEvents(log[..|log| - 1]) + EventsOf(log[|log| - 1], |log|)
  }

  function AllMessages(log: seq<TurnRecord>): seq<Message> {
    if log == [] then [] else AllMessages(log[..|log| - 1]) + MessagesOf(log[|log| - 1])
  }

  function AllAttempts(log: seq<TurnRecord>): seq<Attempt> {
    if log == [] then [] else AllAttempts(log[..|log| - 1]) + AttemptsOf(log[|log| - 1])
  }

  function TotalUsage(log: seq<TurnRecord>): Usage {
    if log == [] then NO_USAGE else TotalUsage(log[..|log| - 1]).Add(UsageOf(log[|log| - 1]))
  }

  // continuationCount: truncated responses in a row.
  function Continuations(log: seq<TurnRecord>): nat {
    if log == [] || !log[|log| - 1].Truncated? then 0 else 1 + Continuations(log[..|log| - 1])
  }

  // Run's own test for a mutating call; its shell patterns differ from those of IsMutating.
  predicate ChangesCode(tu: ToolUse) {
    tu.name == "write_file" || tu.name == "edit_file"
    || (tu.name == "shell" && tu.input.command.Some? && ChangingCommand(tu.input.command.value))
  }

  predicate ChangingCommand(cmd: string) {
    Contains(cmd, ">") || Contains(cmd, " -i") || Contains(cmd, "open(") || Contains(cmd, "write(")
    || Contains(cmd, "git checkout") || Contains(cmd, "mv ") || Contains(cmd, "cp ") || Contains(cmd, "mkdir ")
  }

  predicate ChangesCodeBatch(uses: seq<ToolUse>) {
    exists i :: 0 <= i < |uses| && ChangesCode(uses[i])
  }

  // consecutiveExplorationTurns: executed turns since the last one with a mutating call.
  function Exploring(log: seq<TurnRecord>): nat {
    if log == [] then 0
    else
      var before, last := Exploring(log[..|log| - 1]), log[|log| - 1];
      if !last.Executed? then before else if ChangesCodeBatch(UsesOf(last)) then 0 else before + 1
  }

  datatype Limits = Limits(
    guard: Option<GuardConfig>, budget: int, maxTurns: int, maxExplorationTurns: int, maxConcurrency: int,
      hasSkills: bool)

  // The guard after a turn and after a whole log.
  function GuardStep(limits: Limits, g: GuardState, rec: TurnRecord): GuardState {
    match rec
    case Blocked(_, _) => Decide(limits.guard, g, UsesOf(rec)).0
    case Executed(_, results, _, _, _) => AfterTools(Decide(limits.guard, g, UsesOf(rec)).0, UsesOf(rec), results)
    case _ => g
  }

  function GuardAfter(limits: Limits, g: GuardState, log: seq<TurnRecord>): GuardState {
    if log == [] then g else GuardStep(limits, GuardAfter(limits, g, log[..|log| - 1]), log[|log| - 1])
  }

  // The legacy read tracker, used without a budget, after an executed turn and after a whole log.
  function LegacyStep(limits: Limits, counts: Counts, rec: TurnRecord): Counts {
    if limits.budget <= 0 && rec.Executed? && rec.abort.None? then TrackBatch(counts, Accesses(UsesOf(rec))).0
      else counts
  }

  function LegacyCounts(limits: Limits, counts: Counts, log: seq<TurnRecord>): Counts {
    if log == [] then counts else LegacyStep(limits, LegacyCounts(limits, counts, log[..|log| - 1]), log[|log| - 1])
  }

  // The record that the code makes of turn number |log| when the guard is at g.
  ghost predicate RecordOk(limits: Limits, world: World, g: GuardState, counts: Counts, log: seq<TurnRecord>,
          rec: TurnRecord)
  {
    var answer := world.provider(|log|);
    && Proper(rec)
    && (rec.NoResponse? <==> answer.None?)
    && (answer.Some? ==>
          var uses := ToolUses(answer.value.content);
          && rec.resp == answer.value
          && (answer.value.stopReason == "max_tokens" <==> rec.Truncated? || rec.TruncatedTooOften?)
          && (rec.TruncatedTooOften? ==> Continuations(log) == MAX_CONTINUATIONS)
          && (rec.Truncated? ==> Continuations(log) < MAX_CONTINUATIONS)
          && (answer.value.stopReason != "max_tokens" ==>
                && (uses == [] <==> rec.SkillMatched? || rec.Answered?)
                && (uses == [] ==> rec == if limits.hasSkills && world.skill(|log|).Some? then
                      SkillMatched(answer.value, world.skill(|log|).value)
                                          else Answered(answer.value))
                && (uses != [] ==> ToolTurnOk(limits, world, g, counts, log, rec))))
  }

  lemma ToolRecordOk(limits: Limits, world: World, g: GuardState, counts: Counts, log: seq<TurnRecord>, rec: TurnRecord)
    requires Proper(rec) && !rec.NoResponse? && ToolTurnOk(limits, world, g, counts, log, rec)
    requires world.provider(|log|) == Some(rec.resp) && rec.resp.stopReason != "max_tokens" && UsesOf(rec) != []
    ensures RecordOk(limits, world, g, counts, log, rec)
  {
  }

  // A turn without tool calls.
  ghost predicate PlainTurnOk(limits: Limits, world: World, log: seq<TurnRecord>, resp: Response, rec: TurnRecord) {
    if resp.stopReason == "max_tokens" then
      && Continuations(log) <= MAX_CONTINUATIONS
      && rec == if Continuations(log) == MAX_CONTINUATIONS then TruncatedTooOften(resp) else Truncated(resp)
    else
      && ToolUses(resp.content) == []
      && rec == if limits.hasSkills && world.skill(|log|).Some? then SkillMatched(resp, world.skill(|log|).value)
           else Answered(resp)
  }

  lemma PlainRecordOk(limits: Limits, world: World, g: GuardState, counts: Counts, log: seq<TurnRecord>,
          resp: Response, rec: TurnRecord)
    requires world.provider(|log|) == Some(resp) && PlainTurnOk(limits, world, log, resp, rec)
    ensures RecordOk(limits, world, g, counts, log, rec)
  {
  }

  ghost predicate ToolTurnOk(limits: Limits, world: World, g: GuardState, counts: Counts, log: seq<TurnRecord>,
          rec: TurnRecord)
    requires Proper(rec) && !rec.NoResponse?
  {
    var reason := Decide(limits.guard, g, UsesOf(rec)).1;
    if reason.Some? then rec == Blocked(rec.resp, reason.value)
    else
      rec.Executed? && ToolsOk(limits, world, log, rec) && LegacyOk(limits, counts, log, rec)
  }

  // Every call has the result of its own execution, in its own slot, under some legal interleaving.
  ghost predicate ToolsOk(limits: Limits, world: World, log: seq<TurnRecord>, rec: TurnRecord)
    requires Proper(rec) && rec.Executed?
  {
    && (forall i :: 0 <= i < |rec.results| ==> rec.results[i] == ToolOutcome(UsesOf(rec)[i], world.tool(|log|, i)))
    && Legal(rec.schedule, |rec.results|, limits.maxConcurrency) && Complete(rec.schedule, |rec.results|)
  }

  // The counter and read tracker that are used when there is no exploration budget.
  ghost predicate LegacyOk(limits: Limits, counts: Counts, log: seq<TurnRecord>, rec: TurnRecord)
    requires rec.Executed?
  {
    var exploring := if ChangesCodeBatch(UsesOf(rec)) then 0 else Exploring(log) + 1;
    if limits.budget > 0 then rec.abort.None? && rec.notice.None?
    else if limits.maxExplorationTurns > 0 && exploring >= limits.maxExplorationTurns then
      rec.abort == Some(LegacyExplorationTurns(limits.maxExplorationTurns)) && rec.notice.None?
    else rec.abort.None? && rec.notice == TrackBatch(counts, Accesses(UsesOf(rec))).1
  }

  ghost predicate LogOk(limits: Limits, world: World, g: GuardState, counts: Counts, log: seq<TurnRecord>) {
    log != [] ==>
      var rest, last := log[..|log| - 1], log[|log| - 1];
      && LogOk(limits, world, g, counts, rest)
      && AllContinue(rest)
      && RecordOk(limits, world, GuardAfter(limits, g, rest), LegacyCounts(limits, counts, rest), rest, last)
  }

  // The observable state of a session.
  datatype Snapshot = Snapshot(events: seq<Event>, transcript: seq<Message>, metrics: Metrics, counts: Counts,
          guard: GuardState)

  // A run that began at `start` and has made the turns of the log is now at `now`.
  ghost predicate Reached(limits: Limits, world: World, start: Snapshot, log: seq<TurnRecord>, now: Snapshot) {
    && LogOk(limits, world, start.guard, start.counts, log)
    && (forall i :: 0 <= i < |log| ==> Proper(log[i]))
    && now.events == start.events + [RunStarted] + AllEvents(log)
    && now.guard == GuardAfter(limits, start.guard, log)
    && now.metrics == AllMetrics(start.metrics, log)
    && now.counts == LegacyCounts(limits, start.counts, log)
  }

  ghost predicate Said(start: Snapshot, input: string, log: seq<TurnRecord>, now: Snapshot) {
    now.transcript == start.transcript + [UserMessage(input)] + AllMessages(log)
  }

  // A run that is over: its input, what it met, and what happened.
  datatype PastRun = PastRun(input: string, world: World, guard: GuardState, counts: Counts, log: seq<TurnRecord>)

  ghost predicate Happened(limits: Limits, r: PastRun) {
    LogOk(limits, r.world, r.guard, r.counts, r.log)
  }

  ghost predicate AllHappened(limits: Limits, runs: seq<PastRun>) {
    runs != [] ==> AllHappened(limits, runs[..|runs| - 1]) && Happened(limits, runs[|runs| - 1])
  }

  function RunMessages(r: PastRun): seq<Message> {
    [UserMessage(r.input)] + AllMessages(r.log)
  }

  // The messages of a session's runs.
  function SessionMessages(runs: seq<PastRun>): seq<Message> {
    if runs == [] then [] else SessionMessages(runs[..|runs| - 1]) + RunMessages(runs[|runs| - 1])
  }

  lemma {:induction false} RunsSnoc(limits: Limits, runs: seq<PastRun>, r: PastRun)
    requires AllHappened(limits, runs) && Happened(limits, r)
    ensures AllHappened(limits, runs + [r])
    ensures SessionMessages(runs + [r]) == SessionMessages(runs) + [UserMessage(r.input)] + AllMessages(r.log)
  {
    assert (runs + [r])[..|runs|] == runs;
    Regroup(SessionMessages(runs), UserMessage(r.input), AllMessages(r.log));
  }

  lemma {:induction false} TextSnoc(messages: seq<Message>, log: seq<TurnRecord>, rec: TurnRecord)
    ensures messages + AllMessages(log + [rec]) == messages + AllMessages(log) + MessagesOf(rec)
  {
    assert (log + [rec])[..|log|] == log;
    Append3(messages, AllMessages(log), MessagesOf(rec));
  }

  // The executed turns of a log, with the guard's state at the time.
  function TurnsOf(limits: Limits, g: GuardState, log: seq<TurnRecord>): seq<Turn> {
    if log == [] then []
    else
      TurnsOf(limits, g, log[..|log| - 1]) + TurnOf(limits, GuardAfter(limits, g, log[..|log| - 1]), log[|log| - 1])
  }

  function TurnOf(limits: Limits, g: GuardState, rec: TurnRecord): seq<Turn> {
    if !rec.Executed? then []
    else [Turn(UsesOf(rec), rec.results, NudgeActive(g), Decide(limits.guard, g, UsesOf(rec)).0.warned && !g.warned)]
  }

  // A run takes the guard automaton through exactly the attempts of its log.
  lemma {:induction false} ReplayAttempts(limits: Limits, world: World, attempts: seq<Attempt>, counts: Counts,
          log: seq<TurnRecord>)
    requires LogOk(limits, world, HistoryAfter(limits.guard, limits.budget, attempts).g, counts, log)
    ensures var before := HistoryAfter(limits.guard, limits.budget, attempts);
            HistoryAfter(limits.guard, limits.budget, attempts + AllAttempts(log))
            == History(GuardAfter(limits, before.g, log), before.executed + TurnsOf(limits, before.g, log))
  {
    var before := HistoryAfter(limits.guard, limits.budget, attempts);
    if log == [] {
      assert attempts + AllAttempts(log) == attempts;
      assert before.executed + [] == before.executed;
    } else {
      var rest, last := log[..|log| - 1], log[|log| - 1];
      ReplayAttempts(limits, world, attempts, counts, rest);
      LastVerdict(limits, world, before.g, counts, log);
      ReplayStep(limits, attempts + AllAttempts(rest), last);
      Append3(attempts, AllAttempts(rest), AttemptsOf(last));
      Append3(before.executed, TurnsOf(limits, before.g, rest),
        TurnOf(limits, GuardAfter(limits, before.g, rest), last));
    }
  }

  lemma {:induction false} LastVerdict(limits: Limits, world: World, g: GuardState, counts: Counts,
          log: seq<TurnRecord>)
    requires LogOk(limits, world, g, counts, log) && log != []
    ensures VerdictFits(limits, GuardAfter(limits, g, log[..|log| - 1]), log[|log| - 1])
  {
  }

  ghost predicate VerdictFits(limits: Limits, g: GuardState, rec: TurnRecord) {
    && (rec.Blocked? ==> Decide(limits.guard, g, UsesOf(rec)).1 == Some(rec.reason))
    && (rec.Executed? ==> Decide(limits.guard, g, UsesOf(rec)).1.None?)
  }

  lemma {:induction false} ReplayStep(limits: Limits, attempts: seq<Attempt>, rec: TurnRecord)
    requires VerdictFits(limits, HistoryAfter(limits.guard, limits.budget, attempts).g, rec)
    ensures var before := HistoryAfter(limits.guard, limits.budget, attempts);
            HistoryAfter(limits.guard, limits.budget, attempts + AttemptsOf(rec))
            == History(GuardStep(limits, before.g, rec), before.executed + TurnOf(limits, before.g, rec))
  {
    if rec.Blocked? {
      HistorySnoc(limits.guard, limits.budget, attempts, Attempt(UsesOf(rec), []));
    } else if rec.Executed? {
      HistorySnoc(limits.guard, limits.budget, attempts, Attempt(UsesOf(rec), rec.results));
    } else {
      assert attempts + [] == attempts;
      var before := HistoryAfter(limits.guard, limits.budget, attempts);
      assert before.executed + [] == before.executed;
    }
  }

  lemma {:induction false} GuardSnoc(limits: Limits, g: GuardState, log: seq<TurnRecord>, rec: TurnRecord)
    ensures GuardAfter(limits, g, log + [rec]) == GuardStep(limits, GuardAfter(limits, g, log), rec)
  {
    assert (log + [rec])[..|log|] == log;
  }

  lemma {:induction false} CounterSnoc(log: seq<TurnRecord>, rec: TurnRecord)
    requires AllContinue(log)
    ensures Continues(rec) ==> AllContinue(log + [rec])
    ensures TotalUsage(log + [rec]) == TotalUsage(log).Add(UsageOf(rec))
    ensures Continuations(log + [rec]) == if rec.Truncated? then Continuations(log) + 1 else 0
    ensures Exploring(log + [rec]) ==
            if !rec.Executed? then Exploring(log) else if ChangesCodeBatch(UsesOf(rec)) then 0 else Exploring(log) + 1
  {
    assert (log + [rec])[..|log|] == log;
  }

  lemma {:induction false} StateSnoc(limits: Limits, m: Metrics, counts: Counts, log: seq<TurnRecord>, rec: TurnRecord)
    ensures AllMetrics(m, log + [rec]) == MetricsAfter(AllMetrics(m, log), rec, |log| + 1)
    ensures LegacyCounts(limits, counts, log + [rec]) == LegacyStep(limits, LegacyCounts(limits, counts, log), rec)
  {
    assert (log + [rec])[..|log|] == log;
  }

  lemma {:induction false} EventsSnoc(base: seq<Event>, log: seq<TurnRecord>, rec: TurnRecord)
    requires Proper(rec) && forall i :: 0 <= i < |log| ==> Proper(log[i])
    ensures forall i :: 0 <= i < |log + [rec]| ==> Proper((log + [rec])[i])
    ensures base + AllEvents(log + [rec]) == base + AllEvents(log) + EventsOf(rec, |log| + 1)
  {
    assert (log + [rec])[..|log|] == log;
    Append3(base, AllEvents(log), EventsOf(rec, |log| + 1));
  }

  lemma {:induction false} LogOkSnoc(limits: Limits, world: World, g: GuardState, counts: Counts,
          log: seq<TurnRecord>, rec: TurnRecord)
    requires LogOk(limits, world, g, counts, log) && AllContinue(log)
    requires RecordOk(limits, world, GuardAfter(limits, g, log), LegacyCounts(limits, counts, log), log, rec)
    ensures LogOk(limits, world, g, counts, log + [rec])
  {
    assert (log + [rec])[..|log|] == log;
  }

  // The session went from `now` to `next` by the turn of the record.
  ghost predicate Advanced(limits: Limits, log: seq<TurnRecord>, now: Snapshot, rec: TurnRecord, next: Snapshot)
    requires Proper(rec)
  {
    && next.events == now.events + EventsOf(rec, |log| + 1)
    && next.transcript == now.transcript + MessagesOf(rec)
    && next.guard == GuardStep(limits, now.guard, rec)
    && next.metrics == MetricsAfter(now.metrics, rec, |log| + 1)
    && next.counts == LegacyStep(limits, now.counts, rec)
  }

  // The same for the part of a turn that follows the response.
  ghost predicate ToolAdvanced(limits: Limits, log: seq<TurnRecord>, now: Snapshot, rec: TurnRecord, next: Snapshot)
    requires Proper(rec)
  {
    && next.events == now.events + ToolEvents(rec, |log| + 1)
    && next.transcript == now.transcript + Replies(rec)
    && next.guard == GuardStep(limits, now.guard, rec)
    && next.metrics == MetricsAfter(now.metrics, rec, |log| + 1)
    && next.counts == LegacyStep(limits, now.counts, rec)
  }

  // The guard let the calls pass: `checked` is the state after the check.
  ghost predicate Checked(limits: Limits, turn: int, uses: seq<ToolUse>, reason: Option<GuardReason>, now: Snapshot,
          checked: Snapshot)
  {
    && (checked.guard, reason) == Decide(limits.guard, now.guard, uses)
    && checked.metrics == CheckedMetrics(now.metrics, uses, reason)
    && checked.events == now.events
         + (if reason.Some? then [GuardTriggered(turn, ToolNames(uses), reason.value)] else [])
    && checked.transcript == now.transcript && checked.counts == now.counts
  }

  lemma BlockedAdvance(limits: Limits, world: World, log: seq<TurnRecord>, resp: Response, reason: GuardReason,
          now: Snapshot, next: Snapshot)
    requires Checked(limits, |log| + 1, ToolUses(resp.content), Some(reason), now, next)
    ensures ToolTurnOk(limits, world, now.guard, now.counts, log, Blocked(resp, reason))
    ensures ToolAdvanced(limits, log, now, Blocked(resp, reason), next)
  {
  }

  // What executing the calls adds to the checked state.
  ghost predicate Performed(limits: Limits, turn: int, checked: Snapshot, rec: TurnRecord, next: Snapshot)
    requires rec.Executed? && Proper(rec)
  {
    && next.events == checked.events + ToolEvents(rec, turn)
    && next.transcript == checked.transcript + Replies(rec)
    && next.guard == AfterTools(checked.guard, UsesOf(rec), rec.results)
    && next.metrics == (var m := NoteFirstEdit(checked.metrics, UsesOf(rec), rec.results, turn);
                        if rec.abort.Some? then NoteTrigger(m, rec.abort.value) else m)
    && next.counts == LegacyStep(limits, checked.counts, rec)
  }

  // Running the tools, up to their results.
  ghost predicate Ran(turn: int, before: Snapshot, uses: seq<ToolUse>, results: seq<ToolResult>, schedule: seq<Tick>,
          after: Snapshot)
    requires |results| == |uses| && forall t :: t in schedule ==> t.i < |uses|
  {
    && after.guard == AfterTools(before.guard, uses, results)
    && after.events == before.events + Emitted(schedule, uses, results, turn)
    && after.transcript == before.transcript + [ToolResultMessage(results)]
    && after.metrics == NoteFirstEdit(before.metrics, uses, results, turn)
    && after.counts == before.counts
  }

  // The checks that apply only without an exploration budget.
  ghost predicate Looked(limits: Limits, uses: seq<ToolUse>, explored: int, turn: int, before: Snapshot,
          abort: Option<GuardReason>, notice: Option<Nudge>, after: Snapshot)
  {
    && abort == (if limits.budget <= 0 && limits.maxExplorationTurns > 0 && explored >= limits.maxExplorationTurns then
                   Some(LegacyExplorationTurns(limits.maxExplorationTurns)) else None)
    && notice == (if limits.budget > 0 || abort.Some? then None else TrackBatch(before.counts, Accesses(uses)).1)
    && after.counts == (if limits.budget > 0 || abort.Some? then before.counts
         else TrackBatch(before.counts, Accesses(uses)).0)
    && after.metrics == (if abort.Some? then NoteTrigger(before.metrics, abort.value) else before.metrics)
    && after.events == before.events
         + (if abort.Some? then [GuardTriggered(turn, ToolNames(uses), abort.value)] else [])
    && after.transcript == before.transcript + (if notice.Some? then [NudgeMessage(notice.value)] else [])
    && after.guard == before.guard
  }

  lemma RanAndLooked(limits: Limits, turn: int, before: Snapshot, ran: Snapshot, rec: TurnRecord, explored: int,
          after: Snapshot)
    requires rec.Executed? && Proper(rec)
    requires Ran(turn, before, UsesOf(rec), rec.results, rec.schedule, ran)
    requires Looked(limits, UsesOf(rec), explored, turn, ran, rec.abort, rec.notice, after)
    ensures Performed(limits, turn, before, rec, after)
  {
    Append3(before.events, Emitted(rec.schedule, UsesOf(rec), rec.results, turn),
            if rec.abort.Some? then [GuardTriggered(turn, ToolNames(UsesOf(rec)), rec.abort.value)] else []);
    Append3(before.transcript, [ToolResultMessage(rec.results)], if rec.notice.Some? then
      [NudgeMessage(rec.notice.value)] else []);
  }

  lemma PassedTurnOk(limits: Limits, world: World, log: seq<TurnRecord>, rec: TurnRecord, now: Snapshot,
          checked: Snapshot)
    requires rec.Executed? && Proper(rec)
    requires Checked(limits, |log| + 1, UsesOf(rec), None, now, checked)
    requires ToolsOk(limits, world, log, rec) && LegacyOk(limits, checked.counts, log, rec)
    ensures ToolTurnOk(limits, world, now.guard, now.counts, log, rec)
  {
  }

  lemma PassedAdvance(limits: Limits, log: seq<TurnRecord>, rec: TurnRecord, now: Snapshot, checked: Snapshot,
          next: Snapshot)
    requires rec.Executed? && Proper(rec)
    requires Checked(limits, |log| + 1, UsesOf(rec), None, now, checked)
    requires Performed(limits, |log| + 1, checked, rec, next)
    ensures ToolAdvanced(limits, log, now, rec, next)
  {
    assert checked.events == now.events + [] == now.events;
  }

  lemma WithResponse(limits: Limits, log: seq<TurnRecord>, now: Snapshot, heard: Snapshot, rec: TurnRecord,
          next: Snapshot)
    requires Proper(rec) && !rec.NoResponse? && ToolAdvanced(limits, log, heard, rec, next)
    requires heard == now.(events := now.events + [ModelResponse(|log| + 1, rec.resp.stopReason, rec.resp.usage)],
                           transcript := now.transcript + [Message(Assistant, rec.resp.content)])
    ensures Advanced(limits, log, now, rec, next)
  {
    Regroup(now.transcript, Message(Assistant, rec.resp.content), Replies(rec));
    Regroup(now.events, ModelResponse(|log| + 1, rec.resp.stopReason, rec.resp.usage), ToolEvents(rec, |log| + 1));
  }

  lemma Append3<T>(a: seq<T>, b: seq<T>, c: seq<T>)
    ensures a + (b + c) == a + b + c
  {
  }

  lemma Regroup<T>(base: seq<T>, head: T, tail: seq<T>)
    ensures base + [head] + tail == base + ([head] + tail)
  {
  }

  datatype RunError = EmptyInput | NoProvider | ProviderError | TooManyContinuations | StuckInExploration
          | MaxTurnsExceeded

  // How a run ended, and the text of the answer if there is one.
  datatype Ending = Ending(stop: StopReason, error: Option<RunError>, output: Option<string>)

  function StopOf(rec: TurnRecord): Ending
    requires !Continues(rec)
  {
    match rec
    case NoResponse => Ending(ProviderFailure, Some(ProviderError), None)
    case TruncatedTooOften(_) => Ending(MaxTurns, Some(TooManyContinuations), None)
    case Answered(_) => Ending(SuccessText, None, Some(TextOf(rec.resp.content)))
    case Blocked(_, _) => Ending(StoppedByGuard, None, None)
    case Executed(_, _, _, _, _) => Ending(StoppedByGuard, Some(StuckInExploration), None)
  }

  const OUT_OF_TURNS := Ending(MaxTurns, Some(MaxTurnsExceeded), None)

  // All turns but the last continue the run; without an ending turn the limit was reached.
  ghost predicate Ended(limits: Limits, log: seq<TurnRecord>, end: Option<Ending>) {
    && (log != [] ==> AllContinue(log[..|log| - 1]))
    && if log != [] && !Continues(log[|log| - 1]) then
         |log| <= limits.maxTurns && end == Some(StopOf(log[|log| - 1]))
       else
         |log| == (if limits.maxTurns < 0 then 0 else limits.maxTurns) && end.None?
  }

  lemma EndedHere(limits: Limits, log: seq<TurnRecord>, rec: TurnRecord)
    requires AllContinue(log) && !Continues(rec) && |log| < limits.maxTurns
    ensures Ended(limits, log + [rec], Some(StopOf(rec)))
  {
    assert (log + [rec])[..|log|] == log;
  }

  // The invariant of the loop over the turns.
  ghost predicate Going(limits: Limits, world: World, start: Snapshot, input: string, log: seq<TurnRecord>,
          now: Snapshot)
  {
    Reached(limits, world, start, log, now) && Said(start, input, log, now) && AllContinue(log)
  }

  lemma NextTurn(limits: Limits, world: World, start: Snapshot, input: string, log: seq<TurnRecord>, now: Snapshot,
          rec: TurnRecord, next: Snapshot)
    requires Going(limits, world, start, input, log, now)
    requires RecordOk(limits, world, now.guard, now.counts, log, rec) && Advanced(limits, log, now, rec, next)
    ensures Reached(limits, world, start, log + [rec], next) && Said(start, input, log + [rec], next)
    ensures Continues(rec) ==> AllContinue(log + [rec])
  {
    TextSnoc(start.transcript + [UserMessage(input)], log, rec);
    GuardSnoc(limits, start.guard, log, rec);
    StateSnoc(limits, start.metrics, start.counts, log, rec);
    EventsSnoc(start.events + [RunStarted], log, rec);
    LogOkSnoc(limits, world, start.guard, start.counts, log, rec);
  }

  // RunMetrics
  datatype Metrics = Metrics(
    toolCalls: nat, readOnly: nat, mutations: nat, guardTriggers: nat, readOnlyAfterEditBlocks: nat, firstEditTurn: int,
    guardReason: Option<GuardReason>, grepCalls: nat, readFileCalls: nat, editFileCalls: nat)

  const NO_METRICS := Metrics(0, 0, 0, 0, 0, 0, None, 0, 0, 0)

  function CountIf(uses: seq<ToolUse>, p: ToolUse -> bool): nat {
    if uses == [] then 0 else CountIf(uses[..|uses| - 1], p) + if p(uses[|uses| - 1]) then 1 else 0
  }

  // recordToolUses
  function RecordUses(m: Metrics, uses: seq<ToolUse>): Metrics {
    m.(toolCalls := m.toolCalls + |uses|,
       readOnly := m.readOnly + CountIf(uses, IsReadOnly),
       mutations := m.mutations + CountIf(uses, IsMutating),
       grepCalls := m.grepCalls + CountIf(uses, (tu: ToolUse) => tu.name == "grep"),
       readFileCalls := m.readFileCalls + CountIf(uses, (tu: ToolUse) => tu.name == "read_file"),
       editFileCalls := m.editFileCalls + CountIf(uses, (tu: ToolUse) => tu.name == "edit_file"))
  }

  predicate EditSucceeded(uses: seq<ToolUse>, results: seq<ToolResult>) {
    exists i :: 0 <= i < |uses| && uses[i].name == "edit_file" && Succeeded(results, i)
  }

  function NoteFirstEdit(m: Metrics, uses: seq<ToolUse>, results: seq<ToolResult>, turn: int): Metrics {
    if m.firstEditTurn == 0 && EditSucceeded(uses, results) then m.(firstEditTurn := turn) else m
  }

  function NoteTrigger(m: Metrics, reason: GuardReason): Metrics {
    m.(guardTriggers := m.guardTriggers + 1, guardReason := Some(reason))
  }

  function CheckedMetrics(m: Metrics, uses: seq<ToolUse>, reason: Option<GuardReason>): Metrics {
    var m' := RecordUses(m, uses);
    if reason.None? then m'
    else
      NoteTrigger(if reason.value.ReadOnlyAfterEdit? then
        m'.(readOnlyAfterEditBlocks := m'.readOnlyAfterEditBlocks + 1) else m',
                  reason.value)
  }

  function MetricsAfter(m: Metrics, rec: TurnRecord, turn: int): Metrics {
    match rec
    case Blocked(_, reason) => CheckedMetrics(m, UsesOf(rec), Some(reason))
    case Executed(_, results, _, abort, _) =>
      var m' := NoteFirstEdit(RecordUses(m, UsesOf(rec)), UsesOf(rec), results, turn);
      if abort.Some? then NoteTrigger(m', abort.value) else m'
    case _ => m
  }

  function AllMetrics(m: Metrics, log: seq<TurnRecord>): Metrics {
    if log == [] then m else MetricsAfter(AllMetrics(m, log[..|log| - 1]), log[|log| - 1], |log|)
  }
}
