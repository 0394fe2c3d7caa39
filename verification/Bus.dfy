// bus.go: in-process messaging over bounded channels.
module Bus {
  import opened Messages

  // replyTo is the number of the reply channel.
  datatype Envelope = Envelope(from: string, to: string, topic: string, payload: string, replyTo: Option<nat>)

  datatype Chan = Chan(cap: nat, buf: seq<Envelope>)

  // The bus: three tables of channels, and all channels made so far, by number.
  datatype Store = Store(queues: map<string, nat>, endpoints: map<string, nat>, subscribers: map<string, seq<nat>>,
          chans: seq<Chan>)

  const EMPTY := Store(map[], map[], map[], [])

  function Capacity(bufSize: int, default: nat): (r: nat)
    requires default > 0
    ensures r > 0
  {
    if bufSize <= 0 then default else bufSize
  }

  function NewChan(bufSize: int, default: nat): (r: Chan)
    requires default > 0
    ensures r.cap > 0
  {
    Chan(Capacity(bufSize, default), [])
  }

  predicate HasRoom(chans: seq<Chan>, ch: nat) {
    ch < |chans| && |chans[ch].buf| < chans[ch].cap
  }

  predicate HasNext(chans: seq<Chan>, ch: nat) {
    ch < |chans| && chans[ch].buf != []
  }

  function Send(chans: seq<Chan>, ch: nat, env: Envelope): (r: seq<Chan>)
    requires HasRoom(chans, ch)
    ensures |r| == |chans|
  {
    chans[ch := chans[ch].(buf := chans[ch].buf + [env])]
  }

  function Take(chans: seq<Chan>, ch: nat): (r: seq<Chan>)
    requires HasNext(chans, ch)
    ensures |r| == |chans|
  {
    chans[ch := chans[ch].(buf := chans[ch].buf[1..])]
  }

  // An existing queue is left alone.
  function CreateQueueSpec(s: Store, name: string, bufSize: int): Store {
    if name in s.queues then s
    else s.(queues := s.queues[name := |s.chans|], chans := s.chans + [NewChan(bufSize, 256)])
  }

  // An existing endpoint is replaced.
  function RegisterSpec(s: Store, name: string, bufSize: int): Store {
    s.(endpoints := s.endpoints[name := |s.chans|], chans := s.chans + [NewChan(bufSize, 16)])
  }

  function Subscribers(s: Store, topic: string): seq<nat> {
    if topic in s.subscribers then s.subscribers[topic] else []
  }

  function SubscribeSpec(s: Store, topic: string, bufSize: int): Store {
    s.(subscribers := s.subscribers[topic := Subscribers(s, topic) + [|s.chans|]],
      chans := s.chans + [NewChan(bufSize, 64)])
  }

  function RequestEnvelope(s: Store, from: string, to: string, payload: string): Envelope {
    Envelope(from, to, "", payload, Some(|s.chans|))
  }

  // Request makes a reply channel of capacity one.
  function OpenSpec(s: Store): Store {
    s.(chans := s.chans + [Chan(1, [])])
  }

  function TaskEnvelope(queue: string, from: string, payload: string): Envelope {
    Envelope(from, "", queue, payload, None)
  }

  function ReplyEnvelope(request: Envelope, payload: string): Envelope {
    Envelope(request.to, request.from, "", payload, None)
  }

  // ---------------------------------------------------------------------------------------------
  // Publish drops the message for a subscriber that is full.

  function PublishTo(chans: seq<Chan>, subs: seq<nat>, env: Envelope): (r: seq<Chan>)
    ensures |r| == |chans|
  {
    if subs == [] then chans
    else
      var before := PublishTo(chans, subs[..|subs| - 1], env);
      var ch := subs[|subs| - 1];
      if HasRoom(before, ch) then Send(before, ch, env) else before
  }

  function SentCount(chans: seq<Chan>, subs: seq<nat>, env: Envelope): nat {
    if subs == [] then 0
    else
      SentCount(chans, subs[..|subs| - 1], env)
      + if HasRoom(PublishTo(chans, subs[..|subs| - 1], env), subs[|subs| - 1]) then 1 else 0
  }

  ghost predicate Distinct(s: seq<nat>) {
    forall i, j :: 0 <= i < j < |s| ==> s[i] != s[j]
  }

  // Every subscriber with room gets the message, once and behind what it has not read yet; nothing else changes.
  lemma {:induction false} PublishReaches(chans: seq<Chan>, subs: seq<nat>, env: Envelope, ch: nat)
    requires Distinct(subs) && ch < |chans|
    ensures PublishTo(chans, subs, env)[ch]
            == if ch in subs && HasRoom(chans, ch) then Chan(chans[ch].cap, chans[ch].buf + [env]) else chans[ch]
  {
    if subs != [] {
      var rest := subs[..|subs| - 1];
      PublishReaches(chans, rest, env, ch);
      assert subs == rest + [subs[|subs| - 1]];
    }
  }

  // Publish reports how many subscribers had room.
  lemma {:induction false} PublishCounts(chans: seq<Chan>, subs: seq<nat>, env: Envelope)
    requires Distinct(subs)
    ensures SentCount(chans, subs, env) == |Reached(chans, subs)|
  {
    if subs == [] {
      assert Reached(chans, subs) == {};
    } else {
      var rest, last := subs[..|subs| - 1], subs[|subs| - 1];
      PublishCounts(chans, rest, env);
      ReachedSnoc(chans, rest, last);
      assert subs == rest + [last];
      if last < |chans| {
        PublishReaches(chans, rest, env, last);
      }
    }
  }

  function Reached(chans: seq<Chan>, subs: seq<nat>): set<nat> {
    set ch | ch in subs && HasRoom(chans, ch)
  }

  lemma ReachedSnoc(chans: seq<Chan>, rest: seq<nat>, last: nat)
    requires Distinct(rest + [last])
    ensures last !in rest
    ensures Reached(chans, rest + [last]) == if HasRoom(chans, last) then Reached(chans, rest) + {last}
            else Reached(chans, rest)
  {
    var subs := rest + [last];
    assert subs[|rest|] == last && forall i :: 0 <= i < |rest| ==> subs[i] == rest[i];
  }

  // ---------------------------------------------------------------------------------------------
  // The tasks waiting in a queue.
  function Pending(s: Store, queue: string): seq<Envelope> {
    if queue in s.queues && s.queues[queue] < |s.chans| then s.chans[s.queues[queue]].buf else []
  }

  // The bus itself.  Every method is one critical section or one channel operation; where a Go
  // operation looks a channel up first and uses it later, other operations may come in between.

  class MessageBus {
    var queues: map<string, nat>
    var endpoints: map<string, nat>
    var subscribers: map<string, seq<nat>>
    var chans: seq<Chan>

    function State(): Store
      reads this
    {
      Store(queues, endpoints, subscribers, chans)
    }

    constructor ()
      ensures State() == EMPTY
    {
      queues, endpoints, subscribers, chans := map[], map[], map[], [];
    }

    method Make(bufSize: int, default: nat) returns (ch: nat)
      requires default > 0
      modifies this`chans
      ensures ch == old(|chans|) && chans == old(chans) + [NewChan(bufSize, default)]
    {
      var size := bufSize;
      if size <= 0 {
        size := default;
      }
      ch := |chans|;
      chans := chans + [Chan(size, [])];
    }

    method Subscribe(topic: string, bufSize: int) returns (ch: nat)
      modifies this
      ensures ch == old(|chans|) && State() == SubscribeSpec(old(State()), topic, bufSize)
    {
      ch := Make(bufSize, 64);
      subscribers := subscribers[topic := (if topic in subscribers then subscribers[topic] else []) + [ch]];
    }

    method Publish(topic: string, from: string, payload: string) returns (sent: nat)
      modifies this`chans
      ensures var subs, env := Subscribers(old(State()), topic), Envelope(from, "", topic, payload, None);
              chans == PublishTo(old(chans), subs, env) && sent == SentCount(old(chans), subs, env)
    {
      var subs := if topic in subscribers then subscribers[topic] else [];
      var env := Envelope(from, "", topic, payload, None);
      sent := 0;
      for i := 0 to |subs|
        invariant chans == PublishTo(old(chans), subs[..i], env)
        invariant sent == SentCount(old(chans), subs[..i], env)
      {
        assert subs[..i + 1][..i] == subs[..i];
        if HasRoom(chans, subs[i]) {
          chans := Send(chans, subs[i], env);
          sent := sent + 1;
        }
      }
      assert subs[..|subs|] == subs;
    }

    method CreateQueue(name: string, bufSize: int)
      modifies this
      ensures State() == CreateQueueSpec(old(State()), name, bufSize)
    {
      if name !in queues {
        var ch := Make(bufSize, 256);
        queues := queues[name := ch];
      }
    }

    method Register(name: string, bufSize: int) returns (ch: nat)
      modifies this
      ensures ch == old(|chans|) && State() == RegisterSpec(old(State()), name, bufSize)
    {
      ch := Make(bufSize, 16);
      endpoints := endpoints[name := ch];
    }

    // The look-up at the start of Push and Pull.
    method FindQueue(name: string) returns (ch: Option<nat>)
      ensures ch.Some? <==> name in queues
      ensures ch.Some? ==> ch.value == queues[name]
    {
      ch := if name in queues then Some(queues[name]) else None;
    }

    // The start of Request: the endpoint, and an envelope with a fresh reply channel.
    method OpenRequest(from: string, to: string, payload: string) returns (r: Option<(nat, Envelope)>)
      modifies this`chans
      ensures if to !in endpoints then r == None && chans == old(chans)
              else
                && r == Some((endpoints[to], RequestEnvelope(old(State()), from, to, payload)))
                && State() == OpenSpec(old(State()))
    {
      if to !in endpoints {
        return None;
      }
      var replyCh := |chans|;
      chans := chans + [Chan(1, [])];
      return Some((endpoints[to], Envelope(from, to, "", payload, Some(replyCh))));
    }

    // A send or receive that would block returns without effect.
    method TrySend(ch: nat, env: Envelope) returns (sent: bool)
      modifies this`chans
      ensures sent <==> ch < |old(chans)| && |old(chans)[ch].buf| < old(chans)[ch].cap
      ensures chans == if sent then old(chans)[ch := Chan(old(chans)[ch].cap, old(chans)[ch].buf + [env])]
              else old(chans)
    {
      sent := HasRoom(chans, ch);
      if sent {
        chans := chans[ch := Chan(chans[ch].cap, chans[ch].buf + [env])];
      }
    }

    method TryTake(ch: nat) returns (env: Option<Envelope>)
      modifies this`chans
      ensures if ch < |old(chans)| && |old(chans)[ch].buf| > 0 then
                && env == Some(old(chans)[ch].buf[0])
                && chans == old(chans)[ch := Chan(old(chans)[ch].cap, old(chans)[ch].buf[1..])]
              else env == None && chans == old(chans)
    {
      env := None;
      if HasNext(chans, ch) {
        env := Some(chans[ch].buf[0]);
        chans := chans[ch := Chan(chans[ch].cap, chans[ch].buf[1..])];
      }
    }

    method TryReply(request: Envelope, payload: string) returns (done: bool)
      modifies this`chans
      ensures request.replyTo.None? ==> done && chans == old(chans)
      ensures request.replyTo.Some? ==>
                var ch := request.replyTo.value;
                && (done <==> ch < |old(chans)| && |old(chans)[ch].buf| < old(chans)[ch].cap)
                && chans == if done then
                              old(chans)[ch := Chan(old(chans)[ch].cap, old(chans)[ch].buf
                                                    + [Envelope(request.to, request.from, "", payload, None)])]
                            else old(chans)
    {
      done := true;
      if request.replyTo.Some? {
        done := TrySend(request.replyTo.value, Envelope(request.to, request.from, "", payload, None));
      }
    }

    method QueueLen(name: string) returns (n: nat)
      ensures n == |Pending(State(), name)|
    {
      n := if name in queues && queues[name] < |chans| then |chans[queues[name]].buf| else 0;
    }
  }
}
