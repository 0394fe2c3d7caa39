// Any number of goroutines using one bus, in any interleaving.
module BusRuns {
  import opened Messages
  import opened Bus

  // What a channel was made for: a queue, an endpoint, a topic, or the reply to one request, which the
  // given call sends to the given endpoint channel.
  datatype Role = QueueOf(name: string) | EndpointOf(name: string) | TopicOf(topic: string)
                | ReplyFor(call: nat, endpoint: nat, request: Envelope)

  // A Push, Pull or Request that has looked its channel up and is about to use it, and a Request that
  // waits for its reply.
  datatype Call = Pushing(ch: nat, env: Envelope) | Pulling(queue: string, ch: nat) | Asking(ch: nat, env: Envelope)
          | Waiting(env: Envelope)

  datatype Origin = Push(call: nat) | Pull(call: nat, queue: string) | Ask(call: nat) | Serve
          | Answer(request: Envelope) | Await(call: nat)

  datatype Event = Sent(who: Origin, ch: nat, env: Envelope) | Took(who: Origin, ch: nat, env: Envelope)

  // The bus, the calls under way, and for the record the role of every channel and all completed sends
  // and receives on queues, endpoints and reply channels.
  datatype System = System(store: Store, calls: map<nat, Call>, roles: seq<Role>, log: seq<Event>)

  datatype Step =
    | CreateQueue(name: string, bufSize: int)
    | Register(name: string, bufSize: int)
    | Subscribe(topic: string, bufSize: int)
    | Publish(topic: string, from: string, payload: string)
    | ReadTopic(ch: nat)
    | StartPush(call: nat, queue: string, from: string, payload: string)
    | StartPull(call: nat, queue: string)
    | StartRequest(call: nat, from: string, to: string, payload: string)
    | Proceed(call: nat)
    | Cancel(call: nat)
    | Handle(ch: nat)
    | Reply(served: nat, payload: string)

  function Sending(sys: System, who: Origin, ch: nat, env: Envelope): System
    requires HasRoom(sys.store.chans, ch)
  {
    sys.(store := sys.store.(chans := Send(sys.store.chans, ch, env)), log := sys.log + [Sent(who, ch, env)])
  }

  function Taking(sys: System, who: Origin, ch: nat): System
    requires HasNext(sys.store.chans, ch)
  {
    sys.(store := sys.store.(chans := Take(sys.store.chans, ch)),
      log := sys.log + [Took(who, ch, sys.store.chans[ch].buf[0])])
  }

  // A call's channel operation; nothing happens while it blocks.
  function ProceedSpec(sys: System, call: nat): System
    requires call in sys.calls
  {
    var chans := sys.store.chans;
    match sys.calls[call]
    case Pushing(ch, env) => if HasRoom(chans, ch) then
      Sending(sys, Push(call), ch, env).(calls := sys.calls - {call}) else sys
    case Pulling(queue, ch) =>
      if HasNext(chans, ch) then Taking(sys, Pull(call, queue), ch).(calls := sys.calls - {call}) else sys
    case Asking(ch, env) =>
      if HasRoom(chans, ch) then Sending(sys, Ask(call), ch, env).(calls := sys.calls[call := Waiting(env)]) else sys
    case Waiting(env) =>
      if env.replyTo.Some? && HasNext(chans, env.replyTo.value)
      then Taking(sys, Await(call), env.replyTo.value).(calls := sys.calls - {call}) else sys
  }

  function Open(sys: System, call: nat, from: string, to: string, payload: string): System
    requires to in sys.store.endpoints
  {
    var env := RequestEnvelope(sys.store, from, to, payload);
    var ch := sys.store.endpoints[to];
    sys.(store := OpenSpec(sys.store), calls := sys.calls[call := Asking(ch, env)],
      roles := sys.roles + [ReplyFor(call, ch, env)])
  }

  function Next(sys: System, step: Step): System {
    match step
    case CreateQueue(name, bufSize) =>
      if name in sys.store.queues then sys
      else sys.(store := CreateQueueSpec(sys.store, name, bufSize), roles := sys.roles + [QueueOf(name)])
    case Register(name, bufSize) =>
      sys.(store := RegisterSpec(sys.store, name, bufSize), roles := sys.roles + [EndpointOf(name)])
    case Subscribe(topic, bufSize) =>
      sys.(store := SubscribeSpec(sys.store, topic, bufSize), roles := sys.roles + [TopicOf(topic)])
    case Publish(topic, from, payload) =>
      sys.(store := sys.store.(chans := PublishTo(sys.store.chans, Subscribers(sys.store, topic),
        Envelope(from, "", topic, payload, None))))
    case ReadTopic(ch) =>
      if HasNext(sys.store.chans, ch) && ch < |sys.roles| && sys.roles[ch].TopicOf?
      then sys.(store := sys.store.(chans := Take(sys.store.chans, ch))) else sys
    case StartPush(call, queue, from, payload) =>
      if call in sys.calls || queue !in sys.store.queues then sys
      else sys.(calls := sys.calls[call := Pushing(sys.store.queues[queue], TaskEnvelope(queue, from, payload))])
    case StartPull(call, queue) =>
      if call in sys.calls || queue !in sys.store.queues then sys
      else sys.(calls := sys.calls[call := Pulling(queue, sys.store.queues[queue])])
    case StartRequest(call, from, to, payload) =>
      if call in sys.calls || to !in sys.store.endpoints then sys else Open(sys, call, from, to, payload)
    case Proceed(call) => if call in sys.calls then ProceedSpec(sys, call) else sys
    case Cancel(call) => sys.(calls := sys.calls - {call})
    case Handle(ch) =>
      if HasNext(sys.store.chans, ch) && ch < |sys.roles| && sys.roles[ch].EndpointOf? then
        Taking(sys, Serve, ch) else sys
    case Reply(served, payload) =>
      if served < |sys.log| && sys.log[served].Took? && sys.log[served].who.Serve? then
        var request := sys.log[served].env;
        if request.replyTo.Some? && HasRoom(sys.store.chans, request.replyTo.value)
        then Sending(sys, Answer(request), request.replyTo.value, ReplyEnvelope(request, payload)) else sys
      else sys
  }

  const START := System(EMPTY, map[], [], [])

  function RunFrom(sys: System, steps: seq<Step>): System {
    if steps == [] then sys else Next(RunFrom(sys, steps[..|steps| - 1]), steps[|steps| - 1])
  }

  function Run(steps: seq<Step>): System {
    RunFrom(START, steps)
  }

  // What has been put into and taken out of a channel, in order.
  function SentOn(log: seq<Event>, ch: nat): seq<Envelope> {
    if log == [] then []
    else
      var before, e := SentOn(log[..|log| - 1], ch), log[|log| - 1];
      if e.Sent? && e.ch == ch then before + [e.env] else before
  }

  function TookOn(log: seq<Event>, ch: nat): seq<Envelope> {
    if log == [] then []
    else
      var before, e := TookOn(log[..|log| - 1], ch), log[|log| - 1];
      if e.Took? && e.ch == ch then before + [e.env] else before
  }

  lemma {:induction false} LogSnoc(log: seq<Event>, e: Event, ch: nat)
    ensures SentOn(log + [e], ch) == if e.Sent? && e.ch == ch then SentOn(log, ch) + [e.env] else SentOn(log, ch)
    ensures TookOn(log + [e], ch) == if e.Took? && e.ch == ch then TookOn(log, ch) + [e.env] else TookOn(log, ch)
  {
    assert (log + [e])[..|log + [e]| - 1] == log;
  }

  lemma {:induction false} SentIsLogged(log: seq<Event>, ch: nat, env: Envelope) returns (i: nat)
    requires env in SentOn(log, ch)
    ensures i < |log| && log[i].Sent? && log[i].ch == ch && log[i].env == env
  {
    var last := |log| - 1;
    if log[last].Sent? && log[last].ch == ch && log[last].env == env {
      i := last;
    } else {
      i := SentIsLogged(log[..last], ch, env);
    }
  }

  // ---------------------------------------------------------------------------------------------
  // The invariant.

  ghost predicate RoleOk(roles: seq<Role>, ch: nat)
    requires ch < |roles|
  {
    roles[ch].ReplyFor? ==>
      && roles[ch].request.replyTo == Some(ch)
      && roles[ch].endpoint < |roles| && roles[roles[ch].endpoint] == EndpointOf(roles[ch].request.to)
  }

  ghost predicate Shape(sys: System) {
    && |sys.roles| == |sys.store.chans|
    && (forall ch: nat :: ch < |sys.roles| ==> RoleOk(sys.roles, ch))
    && (forall ch: nat :: ch < |sys.roles| ==> ChanOk(sys.store.chans[ch], sys.roles[ch]))
  }

  predicate ChanOk(c: Chan, role: Role) {
    c.cap > 0 && |c.buf| <= c.cap && (role.ReplyFor? ==> c.cap == 1)
  }

  predicate HasRole(roles: seq<Role>, ch: nat, role: Role) {
    ch < |roles| && roles[ch] == role
  }

  // The tables point to channels of the right role, and a queue's channel never changes.
  ghost predicate Tables(s: Store, roles: seq<Role>) {
    && (forall q :: q in s.queues ==> HasRole(roles, s.queues[q], QueueOf(q)))
    && (forall ch: nat :: ch < |roles| && roles[ch].QueueOf? ==>
          roles[ch].name in s.queues && s.queues[roles[ch].name] == ch)
    && (forall n :: n in s.endpoints ==> HasRole(roles, s.endpoints[n], EndpointOf(n)))
    && (forall t :: t in s.subscribers ==> TopicOk(s.subscribers[t], t, roles))
  }

  ghost predicate TopicOk(subs: seq<nat>, topic: string, roles: seq<Role>) {
    Distinct(subs) && forall i :: 0 <= i < |subs| ==> HasRole(roles, subs[i], TopicOf(topic))
  }

  predicate CallOk(call: nat, c: Call, roles: seq<Role>) {
    match c
    case Pushing(ch, env) => HasRole(roles, ch, QueueOf(env.topic))
    case Pulling(queue, ch) => HasRole(roles, ch, QueueOf(queue))
    case Asking(ch, env) => env.replyTo.Some? && HasRole(roles, env.replyTo.value, ReplyFor(call, ch, env))
    case Waiting(env) =>
      && env.replyTo.Some? && env.replyTo.value < |roles|
      && var role := roles[env.replyTo.value]; role.ReplyFor? && role.call == call && role.request == env
  }

  ghost predicate CallsOk(sys: System) {
    forall call :: call in sys.calls ==> CallOk(call, sys.calls[call], sys.roles)
  }

  // Nothing is lost, made up, doubled or reordered in a channel.
  ghost predicate Flow(sys: System) {
    forall ch: nat :: ch < |sys.store.chans| && ch < |sys.roles| && !sys.roles[ch].TopicOf? ==> FlowAt(sys, ch)
  }

  ghost predicate FlowAt(sys: System, ch: nat)
    requires ch < |sys.store.chans|
  {
    SentOn(sys.log, ch) == TookOn(sys.log, ch) + sys.store.chans[ch].buf
  }

  // What every event of the log rests on: the role of its channel and earlier events.
  ghost predicate Justified(log: seq<Event>, k: nat, roles: seq<Role>)
    requires k < |log|
  {
    var e := log[k];
    && e.ch < |roles|
    && if e.Sent? then SendJustified(log, k, roles) else TakeJustified(log, k, roles)
  }

  ghost predicate SendJustified(log: seq<Event>, k: nat, roles: seq<Role>)
    requires k < |log| && log[k].Sent? && log[k].ch < |roles|
  {
    var e := log[k];
    match e.who
    case Push(call) => roles[e.ch] == QueueOf(e.env.topic)
    case Ask(call) =>
      && e.env.replyTo.Some? && HasRole(roles, e.env.replyTo.value, ReplyFor(call, e.ch, e.env))
      && roles[e.ch].EndpointOf?
    case Answer(request) =>
      && roles[e.ch].ReplyFor? && roles[e.ch].request == request && e.env == ReplyEnvelope(request, e.env.payload)
      && exists i :: 0 <= i < k && log[i] == Took(Serve, roles[e.ch].endpoint, request)
    case _ => false
  }

  ghost predicate TakeJustified(log: seq<Event>, k: nat, roles: seq<Role>)
    requires k < |log| && log[k].Took? && log[k].ch < |roles|
  {
    var e := log[k];
    && (exists i :: 0 <= i < k && log[i].Sent? && log[i].ch == e.ch && log[i].env == e.env)
    && match e.who
       case Pull(call, queue) => roles[e.ch] == QueueOf(queue)
       case Serve => roles[e.ch].EndpointOf?
       case Await(call) => roles[e.ch].ReplyFor? && roles[e.ch].call == call
       case _ => false
  }

  ghost predicate AllJustified(sys: System) {
    forall k: nat :: k < |sys.log| ==> Justified(sys.log, k, sys.roles)
  }

  // A request returns at most once, and not while it is under way.
  predicate UnderWay(calls: map<nat, Call>, role: Role)
    requires role.ReplyFor?
  {
    role.call in calls && (calls[role.call].Asking? || calls[role.call].Waiting?)
      && calls[role.call].env == role.request
  }

  ghost predicate OnceAt(sys: System, ch: nat)
    requires ch < |sys.roles|
  {
    sys.roles[ch].ReplyFor? ==> |TookOn(sys.log, ch)| <= if UnderWay(sys.calls, sys.roles[ch]) then 0 else 1
  }

  ghost predicate Once(sys: System) {
    forall ch: nat :: ch < |sys.roles| ==> OnceAt(sys, ch)
  }

  ghost predicate Inv(sys: System) {
    Shape(sys) && Tables(sys.store, sys.roles) && CallsOk(sys) && Flow(sys) && AllJustified(sys) && Once(sys)
  }

  // ---------------------------------------------------------------------------------------------
  // A new channel keeps it.

  lemma {:induction false} NoTraffic(log: seq<Event>, ch: nat)
    requires forall k: nat :: k < |log| ==> log[k].ch < ch
    ensures SentOn(log, ch) == [] && TookOn(log, ch) == []
  {
    if log != [] {
      NoTraffic(log[..|log| - 1], ch);
    }
  }

  lemma JustifiedGrows(log: seq<Event>, more: seq<Event>, k: nat, roles: seq<Role>, added: seq<Role>)
    requires k < |log| && Justified(log, k, roles)
    ensures Justified(log + more, k, roles + added)
  {
    var e, all := log[k], log + more;
    assert all[k] == e && forall i :: 0 <= i < k ==> all[i] == log[i];
    if e.Sent? && e.who.Answer? {
      var i :| 0 <= i < k && log[i] == Took(Serve, roles[e.ch].endpoint, e.who.request);
      assert all[i] == log[i];
    }
    if e.Took? {
      var i :| 0 <= i < k && log[i].Sent? && log[i].ch == e.ch && log[i].env == e.env;
      assert all[i] == log[i];
    }
  }

  // The effect of a step that makes a channel.
  ghost predicate Adds(sys: System, next: System, c: Chan, role: Role) {
    && next.store.chans == sys.store.chans + [c] && next.roles == sys.roles + [role] && next.log == sys.log
    && c.buf == [] && ChanOk(c, role)
  }

  lemma AddKeepsShape(sys: System, next: System, c: Chan, role: Role)
    requires Inv(sys) && Adds(sys, next, c, role)
    requires role.ReplyFor? ==> role.request.replyTo == Some(|sys.roles|)
    requires role.ReplyFor? ==> HasRole(sys.roles, role.endpoint, EndpointOf(role.request.to))
    ensures Shape(next)
  {
    forall ch: nat | ch < |next.roles|
      ensures RoleOk(next.roles, ch) && ChanOk(next.store.chans[ch], next.roles[ch])
    {
      if ch < |sys.roles| {
        assert RoleOk(sys.roles, ch) && next.roles[ch] == sys.roles[ch];
        assert ChanOk(sys.store.chans[ch], sys.roles[ch]);
      }
    }
  }

  lemma AddKeepsFlow(sys: System, next: System, c: Chan, role: Role)
    requires Inv(sys) && Adds(sys, next, c, role)
    ensures Flow(next) && AllJustified(next)
  {
    forall k: nat | k < |sys.log|
      ensures Justified(sys.log, k, next.roles) && sys.log[k].ch < |sys.roles|
    {
      assert Justified(sys.log, k, sys.roles);
      JustifiedGrows(sys.log, [], k, sys.roles, [role]);
      assert sys.log + [] == sys.log;
    }
    NoTraffic(sys.log, |sys.roles|);
    forall ch: nat | ch < |next.roles| && !next.roles[ch].TopicOf?
      ensures FlowAt(next, ch)
    {
      if ch < |sys.roles| {
        assert FlowAt(sys, ch) && next.store.chans[ch] == sys.store.chans[ch];
      }
    }
  }

  lemma AddKeepsOnce(sys: System, next: System, c: Chan, role: Role)
    requires Inv(sys) && Adds(sys, next, c, role)
    requires next.calls == sys.calls || exists call: nat, now ::
        call !in sys.calls && next.calls == sys.calls[call := now] && now.Asking?
          && now.env.replyTo == Some(|sys.roles|)
    ensures Once(next)
  {
    forall k: nat | k < |sys.log|
      ensures sys.log[k].ch < |sys.roles|
    {
      assert Justified(sys.log, k, sys.roles);
    }
    NoTraffic(sys.log, |sys.roles|);
    forall ch: nat | ch < |next.roles|
      ensures OnceAt(next, ch)
    {
      if ch < |sys.roles| {
        assert OnceAt(sys, ch) && next.roles[ch] == sys.roles[ch] && RoleOk(sys.roles, ch);
      }
    }
  }

  lemma AddKeepsCalls(sys: System, next: System, c: Chan, role: Role)
    requires Inv(sys) && Adds(sys, next, c, role) && next.calls == sys.calls
    ensures CallsOk(next)
  {
    forall call | call in next.calls
      ensures CallOk(call, next.calls[call], next.roles)
    {
      assert CallOk(call, sys.calls[call], sys.roles);
    }
  }

  // ---------------------------------------------------------------------------------------------
  // A send or a receive keeps it.

  lemma SendKeeps(sys: System, who: Origin, ch: nat, env: Envelope)
    requires Inv(sys) && HasRoom(sys.store.chans, ch) && !sys.roles[ch].TopicOf?
    ensures var next := Sending(sys, who, ch, env); Shape(next) && Flow(next) && Once(next)
  {
    var next := Sending(sys, who, ch, env);
    forall c: nat | c < |next.roles|
      ensures ChanOk(next.store.chans[c], next.roles[c]) && OnceAt(next, c)
      ensures next.roles[c].TopicOf? || FlowAt(next, c)
    {
      assert ChanOk(sys.store.chans[c], sys.roles[c]) && OnceAt(sys, c);
      LogSnoc(sys.log, Sent(who, ch, env), c);
      if !sys.roles[c].TopicOf? {
        assert FlowAt(sys, c);
      }
    }
  }

  lemma TakeKeeps(sys: System, who: Origin, ch: nat)
    requires Inv(sys) && HasNext(sys.store.chans, ch) && !sys.roles[ch].TopicOf?
    ensures var next := Taking(sys, who, ch); Shape(next) && Flow(next)
  {
    var next := Taking(sys, who, ch);
    forall c: nat | c < |next.roles|
      ensures ChanOk(next.store.chans[c], next.roles[c])
    {
      assert ChanOk(sys.store.chans[c], sys.roles[c]);
    }
    forall c: nat | c < |next.roles| && !next.roles[c].TopicOf?
      ensures FlowAt(next, c)
    {
      TakeKeepsFlowAt(sys, who, ch, c);
    }
  }

  lemma TakeKeepsFlowAt(sys: System, who: Origin, ch: nat, c: nat)
    requires HasNext(sys.store.chans, ch) && c < |sys.store.chans| && FlowAt(sys, c)
    ensures FlowAt(Taking(sys, who, ch), c)
  {
    LogSnoc(sys.log, Took(who, ch, sys.store.chans[ch].buf[0]), c);
    if c == ch {
      MoveHead(TookOn(sys.log, ch), sys.store.chans[ch].buf);
    }
  }

  lemma MoveHead<T>(a: seq<T>, b: seq<T>)
    requires b != []
    ensures a + b == a + [b[0]] + b[1..]
  {
  }

  // A receive on anything but a reply channel does not count as a return; one on a reply channel ends the call.
  lemma TakeKeepsOnce(sys: System, who: Origin, ch: nat, calls: map<nat, Call>)
    requires Inv(sys) && HasNext(sys.store.chans, ch)
    requires !sys.roles[ch].ReplyFor? || (UnderWay(sys.calls, sys.roles[ch]) && sys.roles[ch].call !in calls)
    requires calls == sys.calls || exists call: nat :: calls == sys.calls - {call}
    ensures Once(Taking(sys, who, ch).(calls := calls))
  {
    var next := Taking(sys, who, ch).(calls := calls);
    forall c: nat | c < |next.roles|
      ensures OnceAt(next, c)
    {
      LogSnoc(sys.log, Took(who, ch, sys.store.chans[ch].buf[0]), c);
      assert OnceAt(sys, c);
    }
  }

  lemma JustifyLast(sys: System, e: Event)
    requires Inv(sys) && Justified(sys.log + [e], |sys.log|, sys.roles)
    ensures forall k: nat :: k < |sys.log + [e]| ==> Justified(sys.log + [e], k, sys.roles)
  {
    forall k: nat | k < |sys.log|
      ensures Justified(sys.log + [e], k, sys.roles)
    {
      assert Justified(sys.log, k, sys.roles);
      JustifiedGrows(sys.log, [e], k, sys.roles, []);
      assert sys.roles + [] == sys.roles;
    }
  }

  // What is taken out of a channel has been sent on it before.
  lemma TakenWasSent(sys: System, who: Origin, ch: nat)
    requires Inv(sys) && HasNext(sys.store.chans, ch) && !sys.roles[ch].TopicOf?
    ensures var e := Took(who, ch, sys.store.chans[ch].buf[0]);
            exists i :: 0 <= i < |sys.log| && (sys.log + [e])[i].Sent? && (sys.log + [e])[i].ch == ch
              && (sys.log + [e])[i].env == e.env
  {
    var e := Took(who, ch, sys.store.chans[ch].buf[0]);
    assert FlowAt(sys, ch);
    assert e.env in SentOn(sys.log, ch) by {
      assert SentOn(sys.log, ch)[|TookOn(sys.log, ch)|] == e.env;
    }
    var i := SentIsLogged(sys.log, ch, e.env);
    assert (sys.log + [e])[i] == sys.log[i];
  }

  lemma CallsKeep(sys: System, calls: map<nat, Call>)
    requires Inv(sys)
    requires forall call :: call in calls ==> CallOk(call, calls[call], sys.roles)
    requires forall call :: call in calls && (calls[call].Asking? || calls[call].Waiting?) ==>
                              call in sys.calls && (sys.calls[call].Asking? || sys.calls[call].Waiting?)
                                && sys.calls[call].env == calls[call].env
    ensures Inv(sys.(calls := calls))
  {
    var next := sys.(calls := calls);
    forall ch: nat | ch < |sys.roles|
      ensures OnceAt(next, ch)
    {
      assert OnceAt(sys, ch);
    }
    forall ch: nat | ch < |sys.roles| && !sys.roles[ch].TopicOf?
      ensures FlowAt(next, ch)
    {
      assert FlowAt(sys, ch);
    }
  }

  lemma SendKeepsInv(sys: System, who: Origin, ch: nat, env: Envelope)
    requires Inv(sys) && HasRoom(sys.store.chans, ch) && !sys.roles[ch].TopicOf?
    requires Justified(sys.log + [Sent(who, ch, env)], |sys.log|, sys.roles)
    ensures Inv(Sending(sys, who, ch, env))
  {
    SendKeeps(sys, who, ch, env);
    JustifyLast(sys, Sent(who, ch, env));
  }

  lemma TakeKeepsInv(sys: System, who: Origin, ch: nat, calls: map<nat, Call>)
    requires Inv(sys) && HasNext(sys.store.chans, ch) && !sys.roles[ch].TopicOf?
    requires !sys.roles[ch].ReplyFor? || (UnderWay(sys.calls, sys.roles[ch]) && sys.roles[ch].call !in calls)
    requires calls == sys.calls || exists call: nat :: calls == sys.calls - {call}
    requires match who
             case Pull(call, queue) => sys.roles[ch] == QueueOf(queue)
             case Serve => sys.roles[ch].EndpointOf?
             case Await(call) => sys.roles[ch].ReplyFor? && sys.roles[ch].call == call
             case _ => false
    ensures Inv(Taking(sys, who, ch).(calls := calls))
  {
    var e := Took(who, ch, sys.store.chans[ch].buf[0]);
    TakeKeeps(sys, who, ch);
    TakeKeepsOnce(sys, who, ch, calls);
    TakenWasSent(sys, who, ch);
    assert Justified(sys.log + [e], |sys.log|, sys.roles);
    JustifyLast(sys, e);
    var next := Taking(sys, who, ch).(calls := calls);
    assert Flow(next) by {
      forall c: nat | c < |next.roles| && !next.roles[c].TopicOf?
        ensures FlowAt(next, c)
      {
        assert FlowAt(Taking(sys, who, ch), c);
      }
    }
  }

  lemma TaskKeeps(sys: System, call: nat)
    requires Inv(sys) && call in sys.calls && (sys.calls[call].Pushing? || sys.calls[call].Pulling?)
    ensures Inv(ProceedSpec(sys, call))
  {
    var chans := sys.store.chans;
    assert CallOk(call, sys.calls[call], sys.roles);
    match sys.calls[call]
    case Pushing(ch, env) =>
      if HasRoom(chans, ch) {
        SendKeepsInv(sys, Push(call), ch, env);
        CallsKeep(Sending(sys, Push(call), ch, env), sys.calls - {call});
      }
    case Pulling(queue, ch) =>
      if HasNext(chans, ch) {
        TakeKeepsInv(sys, Pull(call, queue), ch, sys.calls - {call});
      }
    case _ =>
  }

  lemma RequestKeeps(sys: System, call: nat)
    requires Inv(sys) && call in sys.calls && (sys.calls[call].Asking? || sys.calls[call].Waiting?)
    ensures Inv(ProceedSpec(sys, call))
  {
    var chans := sys.store.chans;
    assert CallOk(call, sys.calls[call], sys.roles);
    match sys.calls[call]
    case Asking(ch, env) =>
      if HasRoom(chans, ch) {
        assert RoleOk(sys.roles, env.replyTo.value);
        SendKeepsInv(sys, Ask(call), ch, env);
        CallsKeep(Sending(sys, Ask(call), ch, env), sys.calls[call := Waiting(env)]);
      }
    case Waiting(env) =>
      if HasNext(chans, env.replyTo.value) {
        TakeKeepsInv(sys, Await(call), env.replyTo.value, sys.calls - {call});
      }
    case _ =>
  }

  lemma ProceedKeeps(sys: System, call: nat)
    requires Inv(sys)
    ensures Inv(Next(sys, Proceed(call)))
  {
    if call in sys.calls {
      if sys.calls[call].Pushing? || sys.calls[call].Pulling? {
        TaskKeeps(sys, call);
      } else {
        RequestKeeps(sys, call);
      }
    }
  }

  lemma HandleKeeps(sys: System, ch: nat)
    requires Inv(sys)
    ensures Inv(Next(sys, Handle(ch)))
  {
    if HasNext(sys.store.chans, ch) && ch < |sys.roles| && sys.roles[ch].EndpointOf? {
      TakeKeepsInv(sys, Serve, ch, sys.calls);
      assert Next(sys, Handle(ch)) == Taking(sys, Serve, ch).(calls := sys.calls);
    }
  }

  lemma ReplyKeeps(sys: System, served: nat, payload: string)
    requires Inv(sys)
    ensures Inv(Next(sys, Reply(served, payload)))
  {
    if served < |sys.log| && sys.log[served].Took? && sys.log[served].who.Serve? {
      var request := sys.log[served].env;
      var h := ServedWasAsked(sys, served);
      if HasRoom(sys.store.chans, request.replyTo.value) {
        var e := Sent(Answer(request), request.replyTo.value, ReplyEnvelope(request, payload));
        assert (sys.log + [e])[served] == Took(Serve, sys.log[served].ch, request);
        SendKeepsInv(sys, Answer(request), request.replyTo.value, ReplyEnvelope(request, payload));
      }
    }
  }

  // A request taken off an endpoint channel was sent there by the call it belongs to.
  lemma ServedWasAsked(sys: System, i: nat) returns (h: nat)
    requires Inv(sys) && i < |sys.log| && sys.log[i].Took? && sys.log[i].who.Serve?
    ensures h < i && sys.log[h].Sent? && sys.log[h].who.Ask? && sys.log[h].ch == sys.log[i].ch
            && sys.log[h].env == sys.log[i].env
    ensures var request := sys.log[i].env;
            && request.replyTo.Some?
            && HasRole(sys.roles, request.replyTo.value, ReplyFor(sys.log[h].who.call, sys.log[i].ch, request))
  {
    assert Justified(sys.log, i, sys.roles);
    h :| 0 <= h < i && sys.log[h].Sent? && sys.log[h].ch == sys.log[i].ch && sys.log[h].env == sys.log[i].env;
    assert Justified(sys.log, h, sys.roles);
  }

  lemma OpenKeeps(sys: System, call: nat, from: string, to: string, payload: string)
    requires Inv(sys) && call !in sys.calls && to in sys.store.endpoints
    ensures Inv(Open(sys, call, from, to, payload))
  {
    var next := Open(sys, call, from, to, payload);
    var env, ch := RequestEnvelope(sys.store, from, to, payload), sys.store.endpoints[to];
    var c, role := Chan(1, []), ReplyFor(call, ch, env);
    AddKeepsShape(sys, next, c, role);
    AddKeepsFlow(sys, next, c, role);
    AddKeepsOnce(sys, next, c, role) by {
      assert next.calls == sys.calls[call := Asking(ch, env)];
    }
    assert CallsOk(next) by {
      forall other | other in next.calls
        ensures CallOk(other, next.calls[other], next.roles)
      {
        if other != call {
          assert CallOk(other, sys.calls[other], sys.roles);
        }
      }
    }
    TablesGrow(sys.store, sys.roles, role);
  }

  lemma TablesGrow(s: Store, roles: seq<Role>, role: Role)
    requires Tables(s, roles) && !role.QueueOf?
    ensures Tables(s, roles + [role])
  {
    forall t | t in s.subscribers
      ensures TopicOk(s.subscribers[t], t, roles + [role])
    {
      assert TopicOk(s.subscribers[t], t, roles);
    }
  }

  lemma CreateQueueKeeps(sys: System, name: string, bufSize: int)
    requires Inv(sys)
    ensures Inv(Next(sys, CreateQueue(name, bufSize)))
  {
    if name !in sys.store.queues {
      var next := Next(sys, CreateQueue(name, bufSize));
      var c, role := NewChan(bufSize, 256), QueueOf(name);
      AddKeepsShape(sys, next, c, role);
      AddKeepsFlow(sys, next, c, role);
      AddKeepsOnce(sys, next, c, role);
      AddKeepsCalls(sys, next, c, role);
      forall t | t in next.store.subscribers
        ensures TopicOk(next.store.subscribers[t], t, next.roles)
      {
        assert TopicOk(sys.store.subscribers[t], t, sys.roles);
      }
    }
  }

  lemma RegisterKeeps(sys: System, name: string, bufSize: int)
    requires Inv(sys)
    ensures Inv(Next(sys, Register(name, bufSize)))
  {
    var next := Next(sys, Register(name, bufSize));
    var c, role := NewChan(bufSize, 16), EndpointOf(name);
    AddKeepsShape(sys, next, c, role);
    AddKeepsFlow(sys, next, c, role);
    AddKeepsOnce(sys, next, c, role);
    AddKeepsCalls(sys, next, c, role);
    TablesGrow(sys.store, sys.roles, role);
  }

  lemma SubscribeKeeps(sys: System, topic: string, bufSize: int)
    requires Inv(sys)
    ensures Inv(Next(sys, Subscribe(topic, bufSize)))
  {
    var next := Next(sys, Subscribe(topic, bufSize));
    var c, role := NewChan(bufSize, 64), TopicOf(topic);
    AddKeepsShape(sys, next, c, role);
    AddKeepsFlow(sys, next, c, role);
    AddKeepsOnce(sys, next, c, role);
    AddKeepsCalls(sys, next, c, role);
    TablesGrow(sys.store, sys.roles, role);
    forall t | t in next.store.subscribers
      ensures TopicOk(next.store.subscribers[t], t, next.roles)
    {
      if t in sys.store.subscribers {
        assert TopicOk(sys.store.subscribers[t], t, sys.roles);
      }
    }
  }

  // Publishing and reading a topic touch no other channel.
  ghost predicate OnlyTopics(sys: System, next: System) {
    && next == sys.(store := sys.store.(chans := next.store.chans)) && |next.store.chans| == |sys.store.chans|
    && forall ch: nat :: ch < |sys.roles| && ch < |sys.store.chans| ==>
                           if sys.roles[ch].TopicOf? then ChanOk(next.store.chans[ch], sys.roles[ch])
                           else next.store.chans[ch] == sys.store.chans[ch]
  }

  lemma TopicsKeep(sys: System, next: System)
    requires Inv(sys) && OnlyTopics(sys, next)
    ensures Inv(next)
  {
    forall ch: nat | ch < |next.roles|
      ensures ChanOk(next.store.chans[ch], next.roles[ch]) && OnceAt(next, ch)
      ensures next.roles[ch].TopicOf? || FlowAt(next, ch)
    {
      assert ChanOk(sys.store.chans[ch], sys.roles[ch]) && OnceAt(sys, ch);
      if !sys.roles[ch].TopicOf? {
        assert FlowAt(sys, ch);
      }
    }
  }

  lemma PublishKeeps(sys: System, topic: string, from: string, payload: string)
    requires Inv(sys)
    ensures Inv(Next(sys, Publish(topic, from, payload)))
  {
    var next := Next(sys, Publish(topic, from, payload));
    var subs, env := Subscribers(sys.store, topic), Envelope(from, "", topic, payload, None);
    assert TopicOk(subs, topic, sys.roles);
    forall ch: nat | ch < |sys.roles|
      ensures if sys.roles[ch].TopicOf? then ChanOk(next.store.chans[ch], sys.roles[ch])
              else next.store.chans[ch] == sys.store.chans[ch]
    {
      assert ChanOk(sys.store.chans[ch], sys.roles[ch]);
      PublishReaches(sys.store.chans, subs, env, ch);
    }
    TopicsKeep(sys, next);
  }

  lemma CancelKeeps(sys: System, call: nat)
    requires Inv(sys)
    ensures Inv(Next(sys, Cancel(call)))
  {
    CallsKeep(sys, sys.calls - {call});
  }

  lemma StepKeeps(sys: System, step: Step)
    requires Inv(sys)
    ensures Inv(Next(sys, step))
  {
    if step.Proceed? || step.Cancel? || step.Handle? || step.Reply? {
      TrafficKeeps(sys, step);
    } else if step.StartPush? || step.StartPull? || step.StartRequest? {
      StartKeeps(sys, step);
    } else {
      TableKeeps(sys, step);
    }
  }

  lemma TableKeeps(sys: System, step: Step)
    requires Inv(sys) && (step.CreateQueue? || step.Register? || step.Subscribe? || step.Publish? || step.ReadTopic?)
    ensures Inv(Next(sys, step))
  {
    match step
    case CreateQueue(name, bufSize) => CreateQueueKeeps(sys, name, bufSize);
    case Register(name, bufSize) => RegisterKeeps(sys, name, bufSize);
    case Subscribe(topic, bufSize) => SubscribeKeeps(sys, topic, bufSize);
    case Publish(topic, from, payload) => PublishKeeps(sys, topic, from, payload);
    case ReadTopic(ch) => ReadKeeps(sys, ch);
    case _ =>
  }

  lemma TrafficKeeps(sys: System, step: Step)
    requires Inv(sys) && (step.Proceed? || step.Cancel? || step.Handle? || step.Reply?)
    ensures Inv(Next(sys, step))
  {
    match step
    case Proceed(call) => ProceedKeeps(sys, call);
    case Cancel(call) => CancelKeeps(sys, call);
    case Handle(ch) => HandleKeeps(sys, ch);
    case Reply(served, payload) => ReplyKeeps(sys, served, payload);
    case _ =>
  }

  lemma ReadKeeps(sys: System, ch: nat)
    requires Inv(sys)
    ensures Inv(Next(sys, ReadTopic(ch)))
  {
    if HasNext(sys.store.chans, ch) && sys.roles[ch].TopicOf? {
      forall c: nat | c < |sys.roles|
        ensures ChanOk(sys.store.chans[c], sys.roles[c])
      {
      }
      TopicsKeep(sys, Next(sys, ReadTopic(ch)));
    }
  }

  lemma StartKeeps(sys: System, step: Step)
    requires Inv(sys) && (step.StartPush? || step.StartPull? || step.StartRequest?)
    ensures Inv(Next(sys, step))
  {
    if step.call !in sys.calls {
      if step.StartRequest? {
        if step.to in sys.store.endpoints {
          OpenKeeps(sys, step.call, step.from, step.to, step.payload);
        }
      } else if step.queue in sys.store.queues {
        CallsKeep(sys, Next(sys, step).calls);
      }
    }
  }

  lemma {:induction false} RunKeepsInv(sys: System, steps: seq<Step>)
    requires Inv(sys)
    ensures Inv(RunFrom(sys, steps))
  {
    if steps != [] {
      RunKeepsInv(sys, steps[..|steps| - 1]);
      StepKeeps(RunFrom(sys, steps[..|steps| - 1]), steps[|steps| - 1]);
    }
  }

  lemma RunsKeepInv(steps: seq<Step>)
    ensures Inv(Run(steps))
  {
    RunKeepsInv(START, steps);
  }

  // ---------------------------------------------------------------------------------------------
  // What holds of every run.

  function PushedTo(log: seq<Event>, queue: string): seq<Envelope> {
    if log == [] then []
    else
      var before, e := PushedTo(log[..|log| - 1], queue), log[|log| - 1];
      if e.Sent? && e.who.Push? && e.env.topic == queue then before + [e.env] else before
  }

  function PulledFrom(log: seq<Event>, queue: string): seq<Envelope> {
    if log == [] then []
    else
      var before, e := PulledFrom(log[..|log| - 1], queue), log[|log| - 1];
      if e.Took? && e.who.Pull? && e.who.queue == queue then before + [e.env] else before
  }

  // The traffic under a queue's name is the traffic of its one channel.
  lemma {:induction false} NamedTraffic(log: seq<Event>, queue: string, ch: nat)
    requires forall k: nat :: k < |log| && log[k].Sent? ==>
               (log[k].ch == ch <==> log[k].who.Push? && log[k].env.topic == queue)
    requires forall k: nat :: k < |log| && log[k].Took? ==>
               (log[k].ch == ch <==> log[k].who.Pull? && log[k].who.queue == queue)
    ensures PushedTo(log, queue) == SentOn(log, ch) && PulledFrom(log, queue) == TookOn(log, ch)
  {
    if log != [] {
      NamedTraffic(log[..|log| - 1], queue, ch);
    }
  }

  lemma {:induction false} NoNamedTraffic(log: seq<Event>, queue: string)
    requires forall k: nat :: k < |log| ==> !(log[k].Sent? && log[k].who.Push? && log[k].env.topic == queue)
    requires forall k: nat :: k < |log| ==> !(log[k].Took? && log[k].who.Pull? && log[k].who.queue == queue)
    ensures PushedTo(log, queue) == [] && PulledFrom(log, queue) == []
  {
    if log != [] {
      NoNamedTraffic(log[..|log| - 1], queue);
    }
  }

  // Whatever producers and workers do, and however often the queue is created again: what was pushed is
  // what was pulled followed by what is waiting, in order, and no more waits than the queue can hold.
  lemma {:induction false} QueueIsFifo(steps: seq<Step>, queue: string)
    ensures var sys := Run(steps);
            && PushedTo(sys.log, queue) == PulledFrom(sys.log, queue) + Pending(sys.store, queue)
            && (queue in sys.store.queues ==>
                  sys.store.queues[queue] < |sys.store.chans|
                    && |Pending(sys.store, queue)| <= sys.store.chans[sys.store.queues[queue]].cap)
  {
    var sys := Run(steps);
    RunsKeepInv(steps);
    forall k: nat | k < |sys.log|
      ensures sys.log[k].Sent? && sys.log[k].who.Push? ==>
                HasRole(sys.roles, sys.log[k].ch, QueueOf(sys.log[k].env.topic))
      ensures sys.log[k].Sent? && !sys.log[k].who.Push? ==>
                sys.log[k].ch < |sys.roles| && !sys.roles[sys.log[k].ch].QueueOf?
      ensures sys.log[k].Took? && sys.log[k].who.Pull? ==>
                HasRole(sys.roles, sys.log[k].ch, QueueOf(sys.log[k].who.queue))
      ensures sys.log[k].Took? && !sys.log[k].who.Pull? ==>
                sys.log[k].ch < |sys.roles| && !sys.roles[sys.log[k].ch].QueueOf?
    {
      assert Justified(sys.log, k, sys.roles);
    }
    if queue in sys.store.queues {
      var ch := sys.store.queues[queue];
      assert HasRole(sys.roles, ch, QueueOf(queue)) && ChanOk(sys.store.chans[ch], sys.roles[ch]);
      NamedTraffic(sys.log, queue, ch);
      assert FlowAt(sys, ch);
    } else {
      NoNamedTraffic(sys.log, queue);
    }
  }

  // What QueueLen reports is what has been pushed and not yet pulled.
  lemma {:induction false} QueueLenIsBacklog(steps: seq<Step>, queue: string)
    ensures var sys := Run(steps);
            |Pending(sys.store, queue)| == |PushedTo(sys.log, queue)| - |PulledFrom(sys.log, queue)|
  {
    QueueIsFifo(steps, queue);
  }

  // The channel that Push and Pull look up stays the queue's, and no other queue, endpoint or topic gets it,
  // whatever happens between the look-up and the use.
  lemma {:induction false} LookUpStaysValid(sys: System, queue: string, more: seq<Step>)
    requires Inv(sys) && queue in sys.store.queues
    ensures var later, ch := RunFrom(sys, more).store, sys.store.queues[queue];
            && queue in later.queues && later.queues[queue] == ch < |later.chans|
            && (forall q :: q in later.queues && later.queues[q] == ch ==> q == queue)
            && ch !in later.endpoints.Values && forall t :: t in later.subscribers ==> ch !in later.subscribers[t]
  {
    RunKeepsInv(sys, more);
    QueueStays(sys, queue, more);
    var later := RunFrom(sys, more);
    assert HasRole(later.roles, sys.store.queues[queue], QueueOf(queue));
    forall t | t in later.store.subscribers
      ensures sys.store.queues[queue] !in later.store.subscribers[t]
    {
      assert TopicOk(later.store.subscribers[t], t, later.roles);
    }
  }

  lemma {:induction false} QueueStays(sys: System, queue: string, more: seq<Step>)
    requires queue in sys.store.queues
    ensures queue in RunFrom(sys, more).store.queues
            && RunFrom(sys, more).store.queues[queue] == sys.store.queues[queue]
  {
    if more != [] {
      QueueStays(sys, queue, more[..|more| - 1]);
      StepKeepsQueue(RunFrom(sys, more[..|more| - 1]), queue, more[|more| - 1]);
    }
  }

  lemma StepKeepsQueue(sys: System, queue: string, step: Step)
    requires queue in sys.store.queues
    ensures queue in Next(sys, step).store.queues && Next(sys, step).store.queues[queue] == sys.store.queues[queue]
  {
  }

  // A payload that Request returns was given to Reply on that very request, after a responder had taken
  // the request off the endpoint channel that the call had looked up, after the call had sent it there.
  lemma ReturnedWasReplied(steps: seq<Step>, k: nat) returns (asked: nat, served: nat, replied: nat)
    requires k < |Run(steps).log| && Run(steps).log[k].Took? && Run(steps).log[k].who.Await?
    ensures var sys := Run(steps);
            var e := sys.log[k];
            && e.ch < |sys.roles| && sys.roles[e.ch].ReplyFor? && sys.roles[e.ch].call == e.who.call
            && var request, endpoint := sys.roles[e.ch].request, sys.roles[e.ch].endpoint;
            && asked < served < replied < k
            && request.replyTo == Some(e.ch)
            && HasRole(sys.roles, endpoint, EndpointOf(request.to))
            && sys.log[asked] == Sent(Ask(e.who.call), endpoint, request)
            && sys.log[served] == Took(Serve, endpoint, request)
            && sys.log[replied] == Sent(Answer(request), e.ch, e.env)
            && e.env == Envelope(request.to, request.from, "", e.env.payload, None)
  {
    var sys := Run(steps);
    RunsKeepInv(steps);
    var e := sys.log[k];
    assert Justified(sys.log, k, sys.roles) && RoleOk(sys.roles, e.ch);
    replied :| 0 <= replied < k && sys.log[replied].Sent? && sys.log[replied].ch == e.ch
      && sys.log[replied].env == e.env;
    assert Justified(sys.log, replied, sys.roles);
    served :| 0 <= served < replied
      && sys.log[served] == Took(Serve, sys.roles[e.ch].endpoint, sys.roles[e.ch].request);
    asked := ServedWasAsked(sys, served);
  }

  // No request returns twice.  Reply goes through exactly while no earlier reply to the same request is
  // uncollected, so at most two replies to one request ever do.
  lemma {:induction false} OneReturnPerRequest(steps: seq<Step>, ch: nat)
    requires ch < |Run(steps).roles| && Run(steps).roles[ch].ReplyFor?
    ensures var sys := Run(steps);
            && |TookOn(sys.log, ch)| <= 1 && |SentOn(sys.log, ch)| <= 2
            && (HasRoom(sys.store.chans, ch) <==> SentOn(sys.log, ch) == TookOn(sys.log, ch))
  {
    var sys := Run(steps);
    RunsKeepInv(steps);
    assert OnceAt(sys, ch) && FlowAt(sys, ch) && ChanOk(sys.store.chans[ch], sys.roles[ch]);
    assert TookOn(sys.log, ch) + [] == TookOn(sys.log, ch);
  }

  // After a second Register under a name no new request goes to the first channel, for good; what was
  // sent or about to be sent there is not moved.
  ghost predicate Left(sys: System, left: nat, from: nat) {
    && left !in sys.store.endpoints.Values && left < from <= |sys.roles|
    && forall ch: nat :: from <= ch < |sys.roles| && sys.roles[ch].ReplyFor? ==> sys.roles[ch].endpoint != left
  }

  lemma {:induction false} ReplacedEndpointIsLeft(steps: seq<Step>, name: string, bufSize: int, more: seq<Step>)
    requires name in Run(steps).store.endpoints
    ensures Left(RunFrom(Next(Run(steps), Register(name, bufSize)), more), Run(steps).store.endpoints[name],
            |Run(steps).roles|)
  {
    var sys := Run(steps);
    RunsKeepInv(steps);
    assert HasRole(sys.roles, sys.store.endpoints[name], EndpointOf(name));
    StepKeeps(sys, Register(name, bufSize));
    RunStaysLeft(Next(sys, Register(name, bufSize)), more, sys.store.endpoints[name], |sys.roles|);
  }

  lemma {:induction false} RunStaysLeft(sys: System, steps: seq<Step>, left: nat, from: nat)
    requires Inv(sys) && Left(sys, left, from)
    ensures Left(RunFrom(sys, steps), left, from)
  {
    if steps != [] {
      RunKeepsInv(sys, steps[..|steps| - 1]);
      RunStaysLeft(sys, steps[..|steps| - 1], left, from);
      StaysLeft(RunFrom(sys, steps[..|steps| - 1]), steps[|steps| - 1], left, from);
    }
  }

  lemma StaysLeft(sys: System, step: Step, left: nat, from: nat)
    requires Inv(sys) && Left(sys, left, from)
    ensures Left(Next(sys, step), left, from)
  {
  }
}
