// bus.go: what goroutines get from the bus, in terms of what other goroutines gave to it.
module BusCalls {
  import opened Messages
  import opened Bus
  import opened BusRuns

  lemma OneStepLogs(sys: System, step: Step)
    ensures sys.log <= Next(sys, step).log && |Next(sys, step).log| <= |sys.log| + 1
  {
  }

  lemma {:induction false} StepSnoc(steps: seq<Step>)
    requires steps != []
    ensures Run(steps) == Next(Run(steps[..|steps| - 1]), steps[|steps| - 1])
  {
  }

  lemma {:induction false} LogGrows(steps: seq<Step>, j: nat)
    requires j <= |steps|
    ensures Run(steps[..j]).log <= Run(steps).log
    decreases |steps|
  {
    var rest := steps[..|steps| - if steps == [] then 0 else 1];
    if j < |steps| {
      LogGrows(rest, j);
      assert rest[..j] == steps[..j];
      StepSnoc(steps);
      OneStepLogs(Run(rest), steps[|steps| - 1]);
    } else {
      assert steps[..j] == steps;
    }
  }

  // ---------------------------------------------------------------------------------------------
  // Where values come from.

  // The call under way was started with just these arguments; a request has a reply channel made for it.
  ghost predicate StartedBy(step: Step, call: nat, c: Call, before: System) {
    match c
    case Pushing(_, env) =>
      step == StartPush(call, env.topic, env.from, env.payload)
        && env == Envelope(env.from, "", env.topic, env.payload, None)
    case Pulling(queue, _) => step == StartPull(call, queue)
    case Asking(_, env) => AskedBy(step, call, env, before)
    case Waiting(env) => AskedBy(step, call, env, before)
  }

  ghost predicate AskedBy(step: Step, call: nat, env: Envelope, before: System) {
    && step == StartRequest(call, env.from, env.to, env.payload)
    && env == Envelope(env.from, env.to, "", env.payload, Some(|before.store.chans|))
  }

  lemma CallAfterStep(sys: System, step: Step, call: nat)
    requires call in Next(sys, step).calls
    ensures (call in sys.calls && StartedAlike(sys.calls[call], Next(sys, step).calls[call]))
            || StartedBy(step, call, Next(sys, step).calls[call], sys)
  {
  }

  predicate StartedAlike(before: Call, after: Call) {
    before == after || (before.Asking? && after == Waiting(before.env))
  }

  lemma {:induction false} CallsWereStarted(steps: seq<Step>, call: nat) returns (j: nat)
    requires call in Run(steps).calls
    ensures j < |steps| && StartedBy(steps[j], call, Run(steps).calls[call], Run(steps[..j]))
  {
    var rest := steps[..|steps| - 1];
    StepSnoc(steps);
    hide Run, Next;
    CallAfterStep(Run(rest), steps[|steps| - 1], call);
    if StartedBy(steps[|steps| - 1], call, Run(steps).calls[call], Run(rest)) {
      j := |steps| - 1;
    } else {
      j := CallsWereStarted(rest, call);
      assert rest[..j] == steps[..j];
    }
  }

  // A task was given to Push and a request to Request just as it was sent; a reply was given to Reply on a
  // request that a responder had received.
  ghost predicate Given(steps: seq<Step>, e: Event, j: nat)
    requires j < |steps|
  {
    match e.who
    case Push(call) =>
      && steps[j] == StartPush(call, e.env.topic, e.env.from, e.env.payload)
      && e.env == Envelope(e.env.from, "", e.env.topic, e.env.payload, None)
    case Ask(call) => AskedBy(steps[j], call, e.env, Run(steps[..j]))
    case Answer(request) =>
      && steps[j].Reply? && e.env == Envelope(request.to, request.from, "", steps[j].payload, None)
      && var before := Run(steps[..j]).log;
         && steps[j].served < |before| && before[steps[j].served].Took?
         && before[steps[j].served].who.Serve? && before[steps[j].served].env == request
    case _ => false
  }

  lemma LastWasGiven(sys: System, step: Step)
    requires |Next(sys, step).log| > |sys.log| && Next(sys, step).log[|sys.log|].Sent?
    ensures var e := Next(sys, step).log[|sys.log|];
            match e.who
            case Push(call) => call in sys.calls && sys.calls[call] == Pushing(e.ch, e.env)
            case Ask(call) => call in sys.calls && sys.calls[call] == Asking(e.ch, e.env)
            case Answer(request) =>
              && step.Reply? && e.env == Envelope(request.to, request.from, "", step.payload, None)
              && step.served < |sys.log| && sys.log[step.served].Took? && sys.log[step.served].who.Serve?
              && sys.log[step.served].env == request
            case _ => false
  {
  }

  lemma {:induction false} GivenBefore(steps: seq<Step>, e: Event, j: nat)
    requires j + 1 < |steps| && Given(steps[..|steps| - 1], e, j)
    ensures Given(steps, e, j)
  {
    hide Run;
    assert steps[..|steps| - 1][..j] == steps[..j];
  }

  lemma {:induction false} LastIsGiven(steps: seq<Step>, e: Event) returns (j: nat)
    requires steps != [] && e.Sent?
    requires var rest := Run(steps[..|steps| - 1]); Next(rest, steps[|steps| - 1]).log == rest.log + [e]
    ensures j < |steps| && Given(steps, e, j)
  {
    var rest, last := steps[..|steps| - 1], steps[|steps| - 1];
    LastWasGiven(Run(rest), last);
    hide Run, Next;
    match e.who
    case Answer(_) =>
      j := |rest|;
    case Push(call) =>
      j := CallsWereStarted(rest, call);
      assert rest[..j] == steps[..j];
    case Ask(call) =>
      j := CallsWereStarted(rest, call);
      assert rest[..j] == steps[..j];
  }

  lemma {:induction false} SentWasGiven(steps: seq<Step>, k: nat) returns (j: nat)
    requires k < |Run(steps).log| && Run(steps).log[k].Sent?
    ensures j < |steps| && Given(steps, Run(steps).log[k], j)
    decreases |steps|
  {
    assert steps != [] by {
      assert Run([]).log == [];
    }
    var rest, last := steps[..|steps| - 1], steps[|steps| - 1];
    StepSnoc(steps);
    hide Run, RunFrom, Next, Given;
    OneStepLogs(Run(rest), last);
    if k < |Run(rest).log| {
      j := SentWasGiven(rest, k);
      GivenBefore(steps, Run(steps).log[k], j);
    } else {
      j := LastIsGiven(steps, Run(steps).log[k]);
    }
  }

  // What Request returns is the payload given to Reply, by a responder that had received the very payload
  // given to Request.
  lemma {:induction false} ReturnedWasGiven(steps: seq<Step>, k: nat) returns (asked: nat, replied: nat)
    requires k < |Run(steps).log| && Run(steps).log[k].Took? && Run(steps).log[k].who.Await?
    ensures asked < |steps| && steps[asked].StartRequest? && steps[asked].call == Run(steps).log[k].who.call
    ensures replied < |steps| && steps[replied].Reply? && steps[replied].payload == Run(steps).log[k].env.payload
    ensures var before := Run(steps[..replied]).log;
            var served := steps[replied].served;
            && served < |before| && before[served].Took? && before[served].who.Serve?
            && before[served].env == Envelope(steps[asked].from, steps[asked].to, "", steps[asked].payload,
                                              Some(Run(steps).log[k].ch))
  {
    var a, s, r := ReturnedWasReplied(steps, k);
    asked := SentWasGiven(steps, a);
    replied := SentWasGiven(steps, r);
  }

  // What Pull takes was given to Push for that queue.
  lemma {:induction false} PulledWasGiven(steps: seq<Step>, k: nat) returns (pushed: nat)
    requires k < |Run(steps).log| && Run(steps).log[k].Took? && Run(steps).log[k].who.Pull?
    ensures pushed < |steps| && steps[pushed].StartPush? && steps[pushed].queue == Run(steps).log[k].who.queue
    ensures Run(steps).log[k].env
            == Envelope(steps[pushed].from, "", steps[pushed].queue, steps[pushed].payload, None)
  {
    var sys := Run(steps);
    RunsKeepInv(steps);
    assert Justified(sys.log, k, sys.roles);
    var i :| 0 <= i < k && sys.log[i].Sent? && sys.log[i].ch == sys.log[k].ch && sys.log[i].env == sys.log[k].env;
    assert Justified(sys.log, i, sys.roles);
    pushed := SentWasGiven(steps, i);
  }

  // ---------------------------------------------------------------------------------------------
  // When an operation goes through.

  // A call or a responder moves exactly if its channel has room, or something in it; a receive gets what
  // has waited longest.
  lemma OperationsBlockIff(sys: System, call: nat)
    requires call in sys.calls
    ensures var next, chans := Next(sys, Proceed(call)), sys.store.chans;
            match sys.calls[call]
            case Pushing(ch, env) =>
              if ch < |chans| && |chans[ch].buf| < chans[ch].cap then
                next.log == sys.log + [Sent(Push(call), ch, env)] && call !in next.calls
              else next == sys
            case Pulling(queue, ch) =>
              if ch < |chans| && |chans[ch].buf| > 0 then
                next.log == sys.log + [Took(Pull(call, queue), ch, chans[ch].buf[0])] && call !in next.calls
              else next == sys
            case Asking(ch, env) =>
              if ch < |chans| && |chans[ch].buf| < chans[ch].cap then
                next.log == sys.log + [Sent(Ask(call), ch, env)] && next.calls == sys.calls[call := Waiting(env)]
              else next == sys
            case Waiting(env) =>
              if env.replyTo.Some? && env.replyTo.value < |chans| && |chans[env.replyTo.value].buf| > 0 then
                && next.log == sys.log + [Took(Await(call), env.replyTo.value, chans[env.replyTo.value].buf[0])]
                && call !in next.calls
              else next == sys
  {
  }

  // The capacities: as asked for, or 256 for a queue, 16 for an endpoint, 64 for a subscription; one for a
  // reply.  Every new channel is empty and leaves the others alone.
  lemma NewChannels(s: Store, name: string, bufSize: int)
    ensures var made := CreateQueueSpec(s, name, bufSize);
            if name in s.queues then made == s
            else
              && made.chans == s.chans + [Chan(if bufSize > 0 then bufSize else 256, [])]
              && made.queues == s.queues[name := |s.chans|]
              && made.endpoints == s.endpoints && made.subscribers == s.subscribers
    ensures var made := RegisterSpec(s, name, bufSize);
            && made.chans == s.chans + [Chan(if bufSize > 0 then bufSize else 16, [])]
            && made.endpoints == s.endpoints[name := |s.chans|]
            && made.queues == s.queues && made.subscribers == s.subscribers
    ensures var made := SubscribeSpec(s, name, bufSize);
            && made.chans == s.chans + [Chan(if bufSize > 0 then bufSize else 64, [])]
            && made.queues == s.queues && made.endpoints == s.endpoints
            && made.subscribers == s.subscribers[name := (if name in s.subscribers then s.subscribers[name] else [])
                                                         + [|s.chans|]]
    ensures OpenSpec(s) == Store(s.queues, s.endpoints, s.subscribers, s.chans + [Chan(1, [])])
  {
  }

  // Whoever has subscribed to a topic gets what is published on it from then on, as long as there is room.
  lemma {:induction false} SubscribersHear(steps: seq<Step>, topic: string, bufSize: int, more: seq<Step>,
          from: string, payload: string)
    ensures var ch := |Run(steps).store.chans|;
            var sys := RunFrom(Next(Run(steps), Subscribe(topic, bufSize)), more);
            var next := Next(sys, Publish(topic, from, payload));
            && ch < |sys.store.chans| == |next.store.chans|
            && (|sys.store.chans[ch].buf| < sys.store.chans[ch].cap ==>
                  next.store.chans[ch].buf == sys.store.chans[ch].buf + [Envelope(from, "", topic, payload, None)])
            && (|sys.store.chans[ch].buf| >= sys.store.chans[ch].cap ==> next.store.chans[ch] == sys.store.chans[ch])
  {
    var ch, first := |Run(steps).store.chans|, Next(Run(steps), Subscribe(topic, bufSize));
    assert Subscribers(first.store, topic)[|Subscribers(first.store, topic)| - 1] == ch;
    hide Run, RunFrom, Shape, Flow, AllJustified, Once, CallsOk;
    RunsKeepInv(steps);
    StepKeeps(Run(steps), Subscribe(topic, bufSize));
    RunKeepsInv(first, more);
    StaysSubscribed(first, topic, ch, more);
    var sys := RunFrom(first, more);
    assert TopicOk(sys.store.subscribers[topic], topic, sys.roles);
    PublishReaches(sys.store.chans, Subscribers(sys.store, topic), Envelope(from, "", topic, payload, None), ch);
  }

  lemma {:induction false} StaysSubscribed(sys: System, topic: string, ch: nat, more: seq<Step>)
    requires ch in Subscribers(sys.store, topic) && ch < |sys.store.chans|
    ensures ch in Subscribers(RunFrom(sys, more).store, topic) && ch < |RunFrom(sys, more).store.chans|
  {
    if more != [] {
      StaysSubscribed(sys, topic, ch, more[..|more| - 1]);
      StepKeepsSubscribed(RunFrom(sys, more[..|more| - 1]), topic, ch, more[|more| - 1]);
    }
  }

  lemma StepKeepsSubscribed(sys: System, topic: string, ch: nat, step: Step)
    requires ch in Subscribers(sys.store, topic) && ch < |sys.store.chans|
    ensures ch in Subscribers(Next(sys, step).store, topic) && ch < |Next(sys, step).store.chans|
  {
  }
}
