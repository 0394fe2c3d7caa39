// event.go and session.go, executeTools and executeSingleTool: tools run concurrently, each emitting
// a start and a finish event and filling its own slot of the results.
module ToolRuns {
  import opened Messages
  import opened Convergence

  datatype StopReason = SuccessText | MaxTurns | StoppedByGuard | ProviderFailure

  datatype Event =
    | RunStarted
    | ModelResponse(turn: int, stop: string, usage: Usage)
    | ToolStarted(turn: int, tool: string, inputChars: nat)
    | ToolFinished(turn: int, tool: string, isError: bool, inputChars: nat, outputChars: nat)
    | GuardTriggered(turn: int, tools: seq<string>, reason: GuardReason)
    | RunFinished(turn: int, stopReason: StopReason, guardReason: Option<GuardReason>, usage: Usage)

  class EventSink {
    var events: seq<Event>

    constructor ()
      ensures events == []
    {
      events := [];
    }

    method Emit(e: Event)
      modifies this
      ensures events == old(events) + [e]
    {
      events := events + [e];
    }
  }

  // What the world answers to one tool call: the registry, the approver, the sandbox, the hook and
  // finally the tool itself.
  datatype Approval = NoApprover | Approved | Denied | ApprovalError(text: string)
  datatype Execution = Output(text: string) | Failed(text: string) | TimedOut(text: string)
  datatype ToolEnv = ToolEnv(
    registered: bool, approval: Approval, sandboxBlock: Option<string>, hookBlock: Option<string>, execution: Execution)

  predicate Runs(env: ToolEnv) {
    env.registered && (env.approval.NoApprover? || env.approval.Approved?) && env.sandboxBlock.None?
      && env.hookBlock.None?
  }

  // executeSingleTool: the checks in order, each of which can answer instead of the tool.
  function ToolOutcome(tu: ToolUse, env: ToolEnv): (result: ToolResult)
    ensures result.toolUseId == tu.id
    ensures !result.isError <==> Runs(env) && env.execution.Output?
    ensures Runs(env) ==> result.content == env.execution.text
  {
    if !env.registered then ToolResult(tu.id, "tool not found", true)
    else if env.approval.ApprovalError? then ToolResult(tu.id, env.approval.text, true)
    else if env.approval.Denied? then ToolResult(tu.id, "tool call denied by user", true)
    else if env.sandboxBlock.Some? then ToolResult(tu.id, env.sandboxBlock.value, true)
    else if env.hookBlock.Some? then ToolResult(tu.id, env.hookBlock.value, true)
    else ToolResult(tu.id, env.execution.text, !env.execution.Output?)
  }

  // What each check has to say against a call, in the order of the checks.
  function Objections(env: ToolEnv): seq<Option<string>> {
    [if env.registered then None else Some("tool not found"),
     match env.approval
     case ApprovalError(text) => Some(text)
     case Denied => Some("tool call denied by user")
     case _ => None,
     env.sandboxBlock, env.hookBlock]
  }

  predicate FirstObjection(o: seq<Option<string>>, i: nat) {
    i < |o| && o[i].Some? && forall j :: 0 <= j < i ==> o[j].None?
  }

  // The first objection is the answer; without one it is what the tool gives.
  lemma FirstObjectionAnswers(tu: ToolUse, env: ToolEnv)
    ensures forall i :: 0 <= i < 4 && FirstObjection(Objections(env), i) ==>
              ToolOutcome(tu, env) == ToolResult(tu.id, Objections(env)[i].value, true)
    ensures (forall i :: 0 <= i < 4 ==> Objections(env)[i].None?) ==>
              ToolOutcome(tu, env) == ToolResult(tu.id, env.execution.text, !env.execution.Output?)
  {
    var o := Objections(env);
    forall i | 0 <= i < 4 && FirstObjection(o, i)
      ensures ToolOutcome(tu, env) == ToolResult(tu.id, o[i].value, true)
    {
      assert i > 0 ==> o[0].None?;
      assert i > 1 ==> o[1].None?;
      assert i > 2 ==> o[2].None?;
    }
    if forall i :: 0 <= i < 4 ==> o[i].None? {
      assert o[0].None? && o[1].None? && o[2].None? && o[3].None?;
    }
  }

  ghost predicate Answers(results: seq<ToolResult>, uses: seq<ToolUse>, envs: seq<ToolEnv>) {
    |results| == |uses| == |envs| && forall i :: 0 <= i < |uses| ==> results[i] == ToolOutcome(uses[i], envs[i])
  }

  lemma SomeAnswers(uses: seq<ToolUse>, envs: seq<ToolEnv>) returns (results: seq<ToolResult>)
    requires |uses| == |envs|
    ensures Answers(results, uses, envs)
  {
    results := seq(|uses|, i requires 0 <= i < |uses| => ToolOutcome(uses[i], envs[i]));
  }

  // The visible steps of the goroutines.
  datatype Tick = Start(i: nat) | Finish(i: nat)

  ghost function InFlight(s: seq<Tick>): int {
    if s == [] then 0 else InFlight(s[..|s| - 1]) + if s[|s| - 1].Start? then 1 else -1
  }

  // An interleaving of n tools: each starts at most once and finishes at most once, after its start,
  // and a positive limit bounds how many are between the two.
  ghost predicate Legal(s: seq<Tick>, n: nat, limit: int) {
    s != [] ==>
      var before, last := s[..|s| - 1], s[|s| - 1];
      && Legal(before, n, limit)
      && match last
         case Start(i) => i < n && last !in before && (limit > 0 ==> InFlight(before) < limit)
         case Finish(i) => Start(i) in before && last !in before
  }

  ghost predicate Complete(s: seq<Tick>, n: nat) {
    forall i: nat :: i < n ==> Finish(i) in s
  }

  ghost function EventOf(t: Tick, uses: seq<ToolUse>, results: seq<ToolResult>, turn: int): Event
    requires t.i < |uses| == |results|
  {
    var tu := uses[t.i];
    match t
    case Start(_) => ToolStarted(turn, tu.name, tu.input.chars)
    case Finish(i) => ToolFinished(turn, tu.name, results[i].isError, tu.input.chars, |results[i].content|)
  }

  lemma {:induction false} LegalTick(s: seq<Tick>, n: nat, limit: int, p: nat)
    requires Legal(s, n, limit) && p < |s|
    ensures s[p].i < n
    ensures Legal(s[..p], n, limit) && Legal(s[..p + 1], n, limit)
    ensures s[p] !in s[..p]
    ensures s[p].Finish? ==> Start(s[p].i) in s[..p]
  {
    if p < |s| - 1 {
      LegalTick(s[..|s| - 1], n, limit, p);
      assert s[..|s| - 1][..p] == s[..p] && s[..|s| - 1][..p + 1] == s[..p + 1];
    } else {
      assert s[..p + 1] == s;
      if s[p].Finish? {
        var q :| 0 <= q < p && s[q] == Start(s[p].i);
        LegalTick(s[..p], n, limit, q);
      }
    }
  }

  ghost function Emitted(s: seq<Tick>, uses: seq<ToolUse>, results: seq<ToolResult>, turn: int): (events: seq<Event>)
    requires |uses| == |results| && forall t :: t in s ==> t.i < |uses|
    ensures |events| == |s|
  {
    if s == [] then [] else Emitted(s[..|s| - 1], uses, results, turn) + [EventOf(s[|s| - 1], uses, results, turn)]
  }

  lemma {:induction false} LegalSnoc(s: seq<Tick>, t: Tick, n: nat, limit: int)
    requires Legal(s, n, limit) && t !in s
    requires if t.Start? then t.i < n && (limit > 0 ==> InFlight(s) < limit) else Start(t.i) in s
    ensures Legal(s + [t], n, limit)
    ensures InFlight(s + [t]) == InFlight(s) + if t.Start? then 1 else -1
  {
    assert (s + [t])[..|s|] == s;
  }

  // Where a goroutine stands.
  datatype Phase = Waiting | Spawned | Running | Done

  function StepsLeft(p: Phase): nat {
    match p case Waiting => 3 case Spawned => 2 case Running => 1 case Done => 0
  }

  function Active(p: Phase): nat {
    if p.Spawned? || p.Running? then 1 else 0
  }

  function Begun(p: Phase): nat {
    if p.Running? then 1 else 0
  }

  function Total(phase: seq<Phase>, f: Phase -> nat): nat {
    if phase == [] then 0 else f(phase[0]) + Total(phase[1..], f)
  }

  lemma {:induction false} TotalUpdate(phase: seq<Phase>, i: nat, p: Phase, f: Phase -> nat)
    requires i < |phase|
    ensures Total(phase[i := p], f) == Total(phase, f) - f(phase[i]) + f(p)
    decreases phase
  {
    if i == 0 {
      assert phase[i := p][1..] == phase[1..];
    } else {
      TotalUpdate(phase[1..], i - 1, p, f);
      assert phase[i := p][1..] == phase[1..][i - 1 := p];
    }
  }

  lemma {:induction false} TotalAtMost(phase: seq<Phase>, f: Phase -> nat, g: Phase -> nat)
    requires forall i :: 0 <= i < |phase| ==> f(phase[i]) <= g(phase[i])
    ensures Total(phase, f) <= Total(phase, g)
    decreases phase
  {
    if phase != [] {
      TotalAtMost(phase[1..], f, g);
    }
  }

  predicate CanStep(phase: seq<Phase>, i: nat, spawned: nat, active: nat, limit: int)
    requires i < |phase|
  {
    if phase[i].Waiting? then i == spawned && (limit <= 0 || active < limit) else !phase[i].Done?
  }

  function NextPhase(p: Phase): Phase {
    if p.Waiting? then Spawned else if p.Spawned? then Running else Done
  }

  // What every step of the group keeps.
  ghost predicate Group(phase: seq<Phase>, spawned: nat, active: nat, schedule: seq<Tick>, limit: int) {
    && spawned <= |phase|
    && (forall i :: 0 <= i < |phase| ==> (phase[i].Waiting? <==> spawned <= i))
    && active == Total(phase, Active) && InFlight(schedule) == Total(phase, Begun)
    && (limit > 0 ==> active <= limit)
    && Legal(schedule, |phase|, limit) && Scheduled(phase, schedule)
  }

  function ScheduleStep(phase: seq<Phase>, schedule: seq<Tick>, i: nat): seq<Tick>
    requires i < |phase|
  {
    match phase[i]
    case Spawned => schedule + [Start(i)]
    case Running => schedule + [Finish(i)]
    case _ => schedule
  }

  // The schedule names the tools that have started and those that have finished.
  ghost predicate Scheduled(phase: seq<Phase>, schedule: seq<Tick>) {
    && (forall t :: t in schedule ==> t.i < |phase|)
    && (forall i: nat :: i < |phase| ==> (Start(i) in schedule <==> phase[i].Running? || phase[i].Done?))
    && (forall i: nat :: i < |phase| ==> (Finish(i) in schedule <==> phase[i].Done?))
  }

  lemma TotalsStep(phase: seq<Phase>, i: nat)
    requires i < |phase| && !phase[i].Done?
    ensures var phase' := phase[i := NextPhase(phase[i])];
            && Total(phase', Active) == Total(phase, Active)
                 + (if phase[i].Waiting? then 1 else if phase[i].Running? then -1 else 0)
            && Total(phase', Begun) == Total(phase, Begun)
                 + (if phase[i].Spawned? then 1 else if phase[i].Running? then -1 else 0)
            && Total(phase', StepsLeft) < Total(phase, StepsLeft)
            && Total(phase', Begun) <= Total(phase', Active)
  {
    var next := NextPhase(phase[i]);
    TotalUpdate(phase, i, next, StepsLeft);
    TotalUpdate(phase, i, next, Active);
    TotalUpdate(phase, i, next, Begun);
    TotalAtMost(phase[i := next], Begun, Active);
  }

  lemma ScheduledStep(phase: seq<Phase>, schedule: seq<Tick>, i: nat)
    requires Scheduled(phase, schedule) && i < |phase| && !phase[i].Done?
    ensures Scheduled(phase[i := NextPhase(phase[i])], ScheduleStep(phase, schedule, i))
  {
  }

  lemma SpawnStep(phase: seq<Phase>, spawned: nat, active: nat, schedule: seq<Tick>, limit: int, i: nat)
    requires Group(phase, spawned, active, schedule, limit)
    requires i < |phase| && CanStep(phase, i, spawned, active, limit) && phase[i].Waiting?
    ensures Group(phase[i := Spawned], spawned + 1, Total(phase[i := Spawned], Active), schedule, limit)
  {
    TotalsStep(phase, i);
    ScheduledStep(phase, schedule, i);
  }

  lemma StartStep(phase: seq<Phase>, spawned: nat, active: nat, schedule: seq<Tick>, limit: int, i: nat)
    requires Group(phase, spawned, active, schedule, limit) && i < |phase| && phase[i].Spawned?
    ensures Group(phase[i := Running], spawned, Total(phase[i := Running], Active), schedule + [Start(i)], limit)
  {
    TotalsStep(phase, i);
    ScheduledStep(phase, schedule, i);
    LegalSnoc(schedule, Start(i), |phase|, limit);
  }

  lemma FinishStep(phase: seq<Phase>, spawned: nat, active: nat, schedule: seq<Tick>, limit: int, i: nat)
    requires Group(phase, spawned, active, schedule, limit) && i < |phase| && phase[i].Running?
    ensures Group(phase[i := Done], spawned, Total(phase[i := Done], Active), schedule + [Finish(i)], limit)
  {
    TotalsStep(phase, i);
    ScheduledStep(phase, schedule, i);
    LegalSnoc(schedule, Finish(i), |phase|, limit);
  }

  lemma GroupStep(phase: seq<Phase>, spawned: nat, active: nat, schedule: seq<Tick>, limit: int, i: nat)
    requires Group(phase, spawned, active, schedule, limit)
    requires i < |phase| && CanStep(phase, i, spawned, active, limit)
    ensures var phase' := phase[i := NextPhase(phase[i])];
            && Group(phase', if phase[i].Waiting? then spawned + 1 else spawned, Total(phase', Active),
                     ScheduleStep(phase, schedule, i), limit)
            && Total(phase', Active) == active + (if phase[i].Waiting? then 1 else if phase[i].Running? then -1 else 0)
            && Total(phase', StepsLeft) < Total(phase, StepsLeft)
  {
    TotalsStep(phase, i);
    match phase[i]
    case Waiting => SpawnStep(phase, spawned, active, schedule, limit, i);
    case Spawned => StartStep(phase, spawned, active, schedule, limit, i);
    case Running => FinishStep(phase, spawned, active, schedule, limit, i);
  }

  // The group never deadlocks: while some tool is not done, some goroutine can move.
  lemma SomeoneCanStep(phase: seq<Phase>, spawned: nat, active: nat, schedule: seq<Tick>, limit: int, i: nat)
    requires Group(phase, spawned, active, schedule, limit)
    requires i < |phase| && !phase[i].Done?
    ensures exists j: nat :: j < |phase| && CanStep(phase, j, spawned, active, limit)
  {
    if j: nat :| j < |phase| && !phase[j].Waiting? && !phase[j].Done? {
      assert CanStep(phase, j, spawned, active, limit);
    } else {
      NoneActive(phase);
      assert CanStep(phase, spawned, spawned, active, limit);
    }
  }

  lemma {:induction false} NoneActive(phase: seq<Phase>)
    requires forall i :: 0 <= i < |phase| ==> Active(phase[i]) == 0
    ensures Total(phase, Active) == 0 == Total(phase, Begun)
  {
    if phase != [] {
      NoneActive(phase[1..]);
    }
  }

  // ---------------------------------------------------------------------------------------------
  // The limit is used up: as many tools can be running at once as it allows.

  // Where a group can get to, with every step one that CanStep allows.
  ghost predicate Reachable(n: nat, limit: int, phase: seq<Phase>, spawned: nat, active: nat, moves: seq<nat>)
    decreases moves, 1
  {
    |phase| == n
    && if moves == [] then phase == seq(n, _ => Waiting) && spawned == 0 == active
       else exists before: seq<Phase>, spawned', active' ::
              MovesTo(n, limit, before, spawned', active', moves, phase, spawned, active)
  }

  ghost predicate MovesTo(n: nat, limit: int, before: seq<Phase>, spawned': nat, active': nat, moves: seq<nat>,
          phase: seq<Phase>, spawned: nat, active: nat)
    requires moves != []
    decreases moves, 0
  {
    var i := moves[|moves| - 1];
    && Reachable(n, limit, before, spawned', active', moves[..|moves| - 1])
    && i < n && CanStep(before, i, spawned', active', limit)
    && phase == before[i := NextPhase(before[i])]
    && spawned == (if before[i].Waiting? then spawned' + 1 else spawned')
    && active == active' + (if before[i].Waiting? then 1 else if before[i].Running? then -1 else 0)
  }

  function FirstRunning(n: nat, m: nat): seq<Phase> {
    seq(n, i => if i < m then Running else Waiting)
  }

  lemma Moved(n: nat, limit: int, phase: seq<Phase>, spawned: nat, active: nat, moves: seq<nat>, i: nat)
    requires Reachable(n, limit, phase, spawned, active, moves) && i < n == |phase|
    requires CanStep(phase, i, spawned, active, limit) && !phase[i].Running?
    ensures Reachable(n, limit, phase[i := NextPhase(phase[i])], if phase[i].Waiting? then spawned + 1 else spawned,
                      if phase[i].Waiting? then active + 1 else active, moves + [i])
  {
    assert (moves + [i])[..|moves|] == moves;
    assert MovesTo(n, limit, phase, spawned, active, moves + [i], phase[i := NextPhase(phase[i])],
                   if phase[i].Waiting? then spawned + 1 else spawned, if phase[i].Waiting? then active + 1
                     else active);
  }

  lemma {:induction false} LimitIsUsed(n: nat, limit: int, m: nat) returns (moves: seq<nat>)
    requires m <= n && (limit > 0 ==> m <= limit)
    ensures Reachable(n, limit, FirstRunning(n, m), m, m, moves)
  {
    if m == 0 {
      moves := [];
      assert FirstRunning(n, 0) == seq(n, _ => Waiting);
    } else {
      hide Reachable;
      var before := LimitIsUsed(n, limit, m - 1);
      var waiting := FirstRunning(n, m - 1);
      var spawned := waiting[m - 1 := Spawned];
      Moved(n, limit, waiting, m - 1, m - 1, before, m - 1);
      Moved(n, limit, spawned, m, m, before + [m - 1], m - 1);
      assert spawned[m - 1 := Running] == FirstRunning(n, m);
      moves := before + [m - 1] + [m - 1];
    }
  }

  function TickEvents(phase: Phase, tu: ToolUse, env: ToolEnv, turn: int): seq<Event> {
    match phase
    case Spawned => [ToolStarted(turn, tu.name, tu.input.chars)]
    case Running =>
      var result := ToolOutcome(tu, env);
      [ToolFinished(turn, tu.name, result.isError, tu.input.chars, |result.content|)]
    case _ => []
  }

  // One step of goroutine i: starting the tool, or finishing it and writing its slot.
  method Advance(sink: EventSink, slots: array<ToolResult>, i: nat, phase: Phase, tu: ToolUse, env: ToolEnv, turn: int)
    requires i < slots.Length
    modifies sink, slots
    ensures slots[..] == if phase.Running? then old(slots[..])[i := ToolOutcome(tu, env)] else old(slots[..])
    ensures sink.events == old(sink.events) + TickEvents(phase, tu, env, turn)
  {
    if phase.Spawned? {
      sink.Emit(ToolStarted(turn, tu.name, tu.input.chars));
    } else if phase.Running? {
      var result := ToolOutcome(tu, env);
      slots[i] := result;
      sink.Emit(ToolFinished(turn, tu.name, result.isError, tu.input.chars, |result.content|));
    }
  }

  lemma {:induction false} EmittedStep(base: seq<Event>, phase: seq<Phase>, s: seq<Tick>, i: nat, uses: seq<ToolUse>,
          envs: seq<ToolEnv>, results: seq<ToolResult>, turn: int)
    requires Answers(results, uses, envs) && |phase| == |uses| && i < |uses| && forall t :: t in s ==> t.i < |uses|
    ensures forall t :: t in ScheduleStep(phase, s, i) ==> t.i < |uses|
    ensures base + Emitted(ScheduleStep(phase, s, i), uses, results, turn)
            == base + Emitted(s, uses, results, turn) + TickEvents(phase[i], uses[i], envs[i], turn)
  {
    if phase[i].Spawned? {
      assert (s + [Start(i)])[..|s|] == s;
    } else if phase[i].Running? {
      assert (s + [Finish(i)])[..|s|] == s;
    }
  }

  ghost predicate Filled(slots: seq<ToolResult>, phase: seq<Phase>, results: seq<ToolResult>) {
    |slots| == |phase| == |results| && forall i :: 0 <= i < |phase| && phase[i].Done? ==> slots[i] == results[i]
  }

  lemma FilledStep(slots: seq<ToolResult>, phase: seq<Phase>, results: seq<ToolResult>, i: nat)
    requires Filled(slots, phase, results) && i < |phase| && !phase[i].Done?
    ensures Filled(if phase[i].Running? then slots[i := results[i]]
            else slots, phase[i := NextPhase(phase[i])], results)
  {
  }

  lemma {:induction false} WhenAllDone(phase: seq<Phase>, spawned: nat, active: nat, schedule: seq<Tick>, limit: int,
          slots: seq<ToolResult>, results: seq<ToolResult>)
    requires Group(phase, spawned, active, schedule, limit) && Filled(slots, phase, results)
    requires forall i :: 0 <= i < |phase| ==> phase[i].Done?
    ensures slots == results
    ensures Legal(schedule, |phase|, limit) && Complete(schedule, |phase|)
    ensures forall t :: t in schedule ==> t.i < |phase|
  {
  }

  // The caller spawns the goroutines in order, waiting for a free slot when there is a limit; every live
  // goroutine may take its next step at any time.
  method StepOne(sink: EventSink, slots: array<ToolResult>, uses: seq<ToolUse>, turn: int, envs: seq<ToolEnv>,
          limit: int, phase: seq<Phase>, spawned: nat, active: nat, ghost base: seq<Event>, ghost schedule: seq<Tick>,
          ghost outcomes: seq<ToolResult>)
    returns (phase': seq<Phase>, spawned': nat, active': nat, ghost schedule': seq<Tick>)
    requires |envs| == |uses| == |phase| == slots.Length && Answers(outcomes, uses, envs)
    requires Group(phase, spawned, active, schedule, limit) && exists i :: 0 <= i < |phase| && !phase[i].Done?
    requires Filled(slots[..], phase, outcomes) && sink.events == base + Emitted(schedule, uses, outcomes, turn)
    modifies sink, slots
    ensures |phase'| == |phase| && Group(phase', spawned', active', schedule', limit)
    ensures Filled(slots[..], phase', outcomes) && sink.events == base + Emitted(schedule', uses, outcomes, turn)
    ensures Total(phase', StepsLeft) < Total(phase, StepsLeft)
  {
    hide Filled, Total, Legal, Emitted, Complete;
    ghost var pending :| 0 <= pending < |phase| && !phase[pending].Done?;
    SomeoneCanStep(phase, spawned, active, schedule, limit, pending);
    var i: nat :| i < |phase| && CanStep(phase, i, spawned, active, limit);
    GroupStep(phase, spawned, active, schedule, limit, i);
    EmittedStep(base, phase, schedule, i, uses, envs, outcomes, turn);
    FilledStep(slots[..], phase, outcomes, i);
    Advance(sink, slots, i, phase[i], uses[i], envs[i], turn);
    schedule' := ScheduleStep(phase, schedule, i);
    spawned', active' := spawned, active;
    if phase[i].Waiting? {
      spawned', active' := spawned + 1, active + 1;
    } else if phase[i].Running? {
      active' := active - 1;
    }
    phase' := phase[i := NextPhase(phase[i])];
  }

  // executeTools
  method ExecuteTools(sink: EventSink, uses: seq<ToolUse>, turn: int, envs: seq<ToolEnv>, limit: int)
    returns (results: seq<ToolResult>, ghost schedule: seq<Tick>)
    requires |envs| == |uses|
    modifies sink
    ensures Answers(results, uses, envs)
    ensures Legal(schedule, |uses|, limit) && Complete(schedule, |uses|)
    ensures forall t :: t in schedule ==> t.i < |uses|
    ensures sink.events == old(sink.events) + Emitted(schedule, uses, results, turn)
  {
    var n := |uses|;
    var slots := new ToolResult[n](_ => ToolResult("", "", false));
    var phase: seq<Phase> := seq(n, _ => Waiting);
    var spawned: nat, active: nat := 0, 0;
    ghost var base := sink.events;
    ghost var outcomes := SomeAnswers(uses, envs);
    schedule := [];
    NoneActive(phase);
    assert Group(phase, spawned, active, schedule, limit) && Filled(slots[..], phase, outcomes);
    assert sink.events == base + Emitted(schedule, uses, outcomes, turn);
    hide Group, Filled, Total, Legal, Emitted, Complete;
    while exists i :: 0 <= i < n && !phase[i].Done?
      invariant |phase| == n && Group(phase, spawned, active, schedule, limit)
      invariant Filled(slots[..], phase, outcomes)
      invariant sink.events == base + Emitted(schedule, uses, outcomes, turn)
      decreases Total(phase, StepsLeft)
    {
      phase, spawned, active, schedule :=
        StepOne(sink, slots, uses, turn, envs, limit, phase, spawned, active, base, schedule, outcomes);
    }
    WhenAllDone(phase, spawned, active, schedule, limit, slots[..], outcomes);
    results := slots[..];
  }

  // ---------------------------------------------------------------------------------------------

  lemma {:induction false} InFlightIsBounded(s: seq<Tick>, n: nat, limit: int, p: nat)
    requires Legal(s, n, limit) && p <= |s| && limit > 0
    ensures InFlight(s[..p]) <= limit
    decreases p
  {
    if p > 0 {
      InFlightIsBounded(s, n, limit, p - 1);
      LegalTick(s, n, limit, p - 1);
      assert s[..p][..p - 1] == s[..p - 1];
    }
  }

  // What can be added up over an event stream.
  datatype Measure = Starts | Finishes | Responses | Triggers | InputTokens | OutputTokens

  function Of(m: Measure, e: Event): int {
    match m
    case Starts => if e.ToolStarted? then 1 else 0
    case Finishes => if e.ToolFinished? then 1 else 0
    case Responses => if e.ModelResponse? then 1 else 0
    case Triggers => if e.GuardTriggered? then 1 else 0
    case InputTokens => if e.ModelResponse? then e.usage.inputTokens else 0
    case OutputTokens => if e.ModelResponse? then e.usage.outputTokens else 0
  }

  function Sum(m: Measure, events: seq<Event>): int {
    if events == [] then 0 else Sum(m, events[..|events| - 1]) + Of(m, events[|events| - 1])
  }

  lemma {:induction false} SumSnoc(m: Measure, events: seq<Event>, e: Event)
    ensures Sum(m, events + [e]) == Sum(m, events) + Of(m, e)
  {
    assert (events + [e])[..|events|] == events;
  }

  ghost function Started(s: seq<Tick>): set<nat> {
    set t | t in s && t.Start? :: t.i
  }

  ghost function Finished(s: seq<Tick>): set<nat> {
    set t | t in s && t.Finish? :: t.i
  }

  lemma StartedSnoc(s: seq<Tick>, t: Tick)
    ensures Started(s + [t]) == if t.Start? then Started(s) + {t.i} else Started(s)
    ensures Finished(s + [t]) == if t.Finish? then Finished(s) + {t.i} else Finished(s)
    ensures t.Start? && t !in s ==> t.i !in Started(s)
    ensures t.Finish? && t !in s ==> t.i !in Finished(s)
  {
    forall i: nat
      ensures i in Started(s + [t]) <==> Start(i) in s + [t]
      ensures i in Finished(s + [t]) <==> Finish(i) in s + [t]
      ensures i in Started(s) <==> Start(i) in s
      ensures i in Finished(s) <==> Finish(i) in s
    {
      TickSets(s + [t], i);
      TickSets(s, i);
    }
  }

  lemma TickSets(s: seq<Tick>, i: nat)
    ensures i in Started(s) <==> Start(i) in s
    ensures i in Finished(s) <==> Finish(i) in s
  {
    assert Start(i).i == i && Finish(i).i == i;
  }

  lemma {:induction false} EventCounts(s: seq<Tick>, n: nat, limit: int, uses: seq<ToolUse>, results: seq<ToolResult>,
          turn: int)
    requires Legal(s, n, limit) && |uses| == |results| == n && forall t :: t in s ==> t.i < n
    ensures Sum(Starts, Emitted(s, uses, results, turn)) == |Started(s)|
    ensures Sum(Finishes, Emitted(s, uses, results, turn)) == |Finished(s)|
    ensures |s| == |Started(s)| + |Finished(s)|
  {
    if s != [] {
      var before, last := s[..|s| - 1], s[|s| - 1];
      assert s == before + [last];
      EventCounts(before, n, limit, uses, results, turn);
      StartedSnoc(before, last);
      SumSnoc(Starts, Emitted(before, uses, results, turn), EventOf(last, uses, results, turn));
      SumSnoc(Finishes, Emitted(before, uses, results, turn), EventOf(last, uses, results, turn));
    }
  }

  lemma {:induction false} UpTo(n: nat, s: set<nat>)
    requires forall i: nat :: i in s <==> i < n
    ensures |s| == n
  {
    if n > 0 {
      UpTo(n - 1, s - {n - 1});
    }
  }

  // Whatever the interleaving, every tool emits exactly one start and one finish event and nothing else.
  lemma {:induction false} OnePairPerTool(s: seq<Tick>, n: nat, limit: int, uses: seq<ToolUse>,
          results: seq<ToolResult>, turn: int)
    requires Legal(s, n, limit) && Complete(s, n) && |uses| == |results| == n && forall t :: t in s ==> t.i < n
    ensures Sum(Starts, Emitted(s, uses, results, turn)) == n == Sum(Finishes, Emitted(s, uses, results, turn))
    ensures |Emitted(s, uses, results, turn)| == 2 * n
    ensures forall i: nat :: i < n ==> Start(i) in s && Finish(i) in s
    ensures forall p, q :: 0 <= p < q < |s| ==> s[p] != s[q]
    ensures forall p :: 0 <= p < |s| && s[p].Finish? ==> Start(s[p].i) in s[..p]
  {
    EventCounts(s, n, limit, uses, results, turn);
    forall p | 0 <= p < |s|
      ensures s[p] !in s[..p] && (s[p].Finish? ==> Start(s[p].i) in s[..p])
    {
      LegalTick(s, n, limit, p);
    }
    forall i: nat | i < n
      ensures Start(i) in s
    {
      assert Finish(i) in s;
      var p :| 0 <= p < |s| && s[p] == Finish(i);
      assert Start(i) in s[..p];
    }
    forall p, q | 0 <= p < q < |s|
      ensures s[p] != s[q]
    {
      assert s[q] !in s[..q] && s[..q][p] == s[p];
    }
    forall i: nat
      ensures i in Started(s) <==> i < n
      ensures i in Finished(s) <==> i < n
    {
      TickSets(s, i);
      if i < n {
        assert Finish(i) in s;
      }
    }
    UpTo(n, Started(s));
    UpTo(n, Finished(s));
  }
}
