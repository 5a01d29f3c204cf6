/** The whole relay, from the sensors of a client through the proxy to the screen of the head, as interleaved steps. */
module Relay {
  import opened Wrappers
  import opened Messages
  import opened Queues
  import opened Links

  /** The main loop of the head. */
  datatype Viewer = Looking | Found(id: nat, msg: Packet) | Shown(id: nat)

  /** log and gone are history, as in a link. */
  datatype Head = Head(log: seq<Packet>, queue: State, gone: nat, viewer: Viewer, shown: seq<Packet>)

  /** The hop from the client to the proxy, the hop from the proxy to the head, and the head. */
  datatype System = System(client: Link, proxy: Link, head: Head)

  datatype Event =
    | Sensor(m: Packet)
    | ToProxy(a: Action)
    | ToHead(a: Action)
    | Look(id: nat)
    | Show
    | Drop

  /** The client ends its run on a failure, the proxy does not. */
  function Begin(): (s: System)
  {
    System(Start(true), Start(false), Head([], State(map[], 0), 0, Looking, []))
  }

  ghost predicate Possible(s: System, e: Event)
  {
    match e
    case Sensor(m) => true
    case ToProxy(a) => Enabled(s.client, a)
    case ToHead(a) => Enabled(s.proxy, a)
    case Look(id) => s.head.viewer.Looking? && Peeks(s.head.queue, id)
    case Show => s.head.viewer.Found?
    case Drop => s.head.viewer.Shown?
  }

  function Happen(s: System, e: Event): (r: System)
    requires Possible(s, e)
  {
    match e
    case Sensor(m) => s.(client := Enqueue(s.client, m))
    case ToProxy(a) =>
      var m := Handed(s.client, a);
      s.(client := Act(s.client, a), proxy := if m.Some? then Enqueue(s.proxy, m.value) else s.proxy)
    case ToHead(a) =>
      var m := Handed(s.proxy, a);
      s.(proxy := Act(s.proxy, a), head := if m.Some? then Received(s.head, m.value) else s.head)
    case Look(id) =>
      if id == 0 || id !in s.head.queue.items then s
      else s.(head := s.head.(viewer := Found(id, s.head.queue.items[id])))
    case Show => s.(head := s.head.(viewer := Shown(s.head.viewer.id), shown := s.head.shown + [s.head.viewer.msg]))
    case Drop =>
      s.(head := s.head.(viewer := Looking, queue := Removed(s.head.queue, s.head.viewer.id), gone := s.head.gone + 1))
  }

  function Received(h: Head, m: Packet): (r: Head)
  {
    h.(log := h.log + [m], queue := Added(h.queue, m))
  }

  /** The states a run goes through. */
  ghost predicate Run(states: seq<System>, events: seq<Event>)
  {
    && |states| == |events| + 1 && states[0] == Begin()
    && forall i :: 0 <= i < |events| ==> Possible(states[i], events[i]) && states[i + 1] == Happen(states[i], events[i])
  }

  // ------------------------------------------------------------------ the invariant

  ghost predicate HeadOk(h: Head)
  {
    && Holds(h.queue, h.log, h.gone)
    && h.shown <= h.log
    && |h.shown| == h.gone + (if h.viewer.Shown? then 1 else 0)
    && (h.viewer.Found? ==> HeldBy(h, h.viewer.id) && h.viewer.msg == h.log[h.gone])
    && (h.viewer.Shown? ==> HeldBy(h, h.viewer.id))
  }

  /** The message the viewer works on is still in the queue. */
  ghost predicate HeldBy(h: Head, id: nat)
  {
    h.gone < |h.log| && id == h.gone + 1 && id in h.queue.items && h.queue.items[id] == h.log[h.gone]
  }

  ghost predicate Ok(s: System)
  {
    && LinkOk(s.client) && s.client.stops && LinkOk(s.proxy) && HeadOk(s.head)
    && s.proxy.log == Delivered(s.client) && s.head.log == Delivered(s.proxy)
  }

  lemma {:induction false} BeginOk()
    ensures Ok(Begin())
  {
    hide LinkOk;
    StartOk(true);
    StartOk(false);
  }

  lemma {:induction false} LogsFit(s: System)
    requires Ok(s)
    ensures |s.head.log| <= |s.proxy.log| <= |s.client.log|
  {
    hide LinkOk, HeadOk;
    DeliveredIs(s.client);
    DeliveredIs(s.proxy);
    WithinShorter(s.proxy.log, s.client.log);
    WithinShorter(s.head.log, s.proxy.log);
  }

  lemma {:induction false} WithinShorter(a: seq<Packet>, b: seq<Packet>)
    requires Within(a, b)
    ensures |a| <= |b|
  {
    var at: seq<nat> :| Picks(a, b, at);
    PicksSpread(a, b, at, |at|);
  }

  lemma {:induction false} PicksSpread(a: seq<Packet>, b: seq<Packet>, at: seq<nat>, n: nat)
    requires Picks(a, b, at) && n <= |at|
    ensures n > 0 ==> at[n - 1] >= n - 1
  {
    if n > 1 {
      PicksSpread(a, b, at, n - 1);
      assert at[n - 2] < at[n - 1];
    }
  }

  /** Every step keeps the invariant, as long as the client's queue numbers do not run out. */
  lemma {:induction false} HappenOk(s: System, e: Event)
    requires Ok(s) && Possible(s, e) && |Happen(s, e).client.log| < WORD
    ensures Ok(Happen(s, e))
  {
    match e
    case Sensor(m) => SensorOk(s, m);
    case ToProxy(a) => ToProxyOk(s, a);
    case ToHead(a) => ToHeadOk(s, a);
    case Look(id) => LookOk(s, id);
    case Show => ShowOk(s);
    case Drop => DropOk(s);
  }

  lemma {:induction false} SensorOk(s: System, m: Packet)
    requires Ok(s) && |s.client.log| + 1 < WORD
    ensures Ok(Happen(s, Sensor(m)))
  {
    hide LinkOk, HeadOk;
    EnqueueOk(s.client, m);
    assert Delivered(Enqueue(s.client, m)) == Delivered(s.client);
  }

  lemma {:induction false} ToProxyOk(s: System, a: Action)
    requires Ok(s) && Enabled(s.client, a) && |s.client.log| < WORD
    ensures Ok(Happen(s, ToProxy(a)))
  {
    hide HeadOk, LinkOk, Enabled, Act, Handed, Delivered;
    ActKeeps(s.client, a);
    ActOk(s.client, a);
    Hands(s.client, a);
    var m := Handed(s.client, a);
    if m.Some? {
      DeliveredIs(Act(s.client, a));
      WithinShorter(Delivered(Act(s.client, a)), s.client.log);
      EnqueueOk(s.proxy, m.value);
      EnqueueSame(s.proxy, m.value);
    }
  }

  lemma {:induction false} Hands(l: Link, a: Action)
    requires LinkOk(l) && Enabled(l, a)
    ensures Delivered(Act(l, a)) == if Handed(l, a).Some? then Delivered(l) + [Handed(l, a).value] else Delivered(l)
  {
    hide Act, Enabled, Handed, Delivered;
    TakenOver(l, a);
  }

  lemma {:induction false} EnqueueSame(l: Link, m: Packet)
    ensures Delivered(Enqueue(l, m)) == Delivered(l) && Enqueue(l, m).stops == l.stops
  {
    assert Delivered(Enqueue(l, m)) == Delivered(l);
  }

  lemma {:induction false} ActKeeps(l: Link, a: Action)
    requires Enabled(l, a)
    ensures Act(l, a).log == l.log && Act(l, a).stops == l.stops
  {
  }

  lemma {:induction false} ToHeadOk(s: System, a: Action)
    requires Ok(s) && Enabled(s.proxy, a) && |s.client.log| < WORD
    ensures Ok(Happen(s, ToHead(a)))
  {
    hide LinkOk, Enabled, Act, Handed, Delivered;
    LogsFit(s);
    ActKeeps(s.proxy, a);
    ActOk(s.proxy, a);
    Hands(s.proxy, a);
    var m := Handed(s.proxy, a);
    if m.Some? {
      DeliveredIs(Act(s.proxy, a));
      WithinShorter(Delivered(Act(s.proxy, a)), s.proxy.log);
      HoldsAdded(s.head.queue, s.head.log, s.head.gone, m.value);
    }
  }

  lemma {:induction false} LookOk(s: System, id: nat)
    requires Ok(s) && Possible(s, Look(id))
    ensures Ok(Happen(s, Look(id)))
  {
    hide LinkOk, Delivered;
    HoldsPeek(s.head.queue, s.head.log, s.head.gone, id);
  }

  lemma {:induction false} ShowOk(s: System)
    requires Ok(s) && Possible(s, Show)
    ensures Ok(Happen(s, Show))
  {
    hide LinkOk, Delivered;
  }

  lemma {:induction false} DropOk(s: System)
    requires Ok(s) && Possible(s, Drop)
    ensures Ok(Happen(s, Drop))
  {
    hide LinkOk, Delivered;
    HoldsRemoved(s.head.queue, s.head.log, s.head.gone);
  }

  // ------------------------------------------------------------------ what holds in every run

  /** Messages the client queued only grow in number. */
  lemma {:induction false} LogGrows(states: seq<System>, events: seq<Event>, i: nat)
    requires Run(states, events) && i < |states|
    ensures |states[i].client.log| <= |states[|events|].client.log|
    decreases |events| - i
  {
    if i < |events| {
      var s, e := states[i], events[i];
      assert Possible(s, e) && states[i + 1] == Happen(s, e);
      if e.ToProxy? { ActKeeps(s.client, e.a); }
      LogGrows(states, events, i + 1);
    }
  }

  lemma {:induction false} RunOk(states: seq<System>, events: seq<Event>, i: nat)
    requires Run(states, events) && |states[|events|].client.log| < WORD && i < |states|
    ensures Ok(states[i])
  {
    hide Ok;
    if i == 0 {
      BeginOk();
    } else {
      RunOk(states, events, i - 1);
      LogGrows(states, events, i);
      HappenOk(states[i - 1], events[i - 1]);
    }
  }

  /** The promises of the relay, in a state. */
  ghost predicate Promised(s: System)
  {
    // what the proxy took over is what the client queued first, in that order and once each
    && s.proxy.log <= s.client.log
    // a message leaves the client's queue only after the proxy queued it
    && s.client.gone <= |s.proxy.log|
    // the head shows some of them in the same order, none twice
    && Within(s.head.shown, s.proxy.log)
    // and none is missing between them while the proxy had no failure: what left its queue is in the head's
    && (s.proxy.lossless ==> s.head.shown <= s.proxy.log && s.proxy.gone <= |s.head.log|)
    && s.head.gone <= |s.head.shown| && s.head.shown <= s.head.log
    // what a thread peeked is in the queue until that thread removes it
    && Alive(s.client) && Alive(s.proxy)
    && (!s.head.viewer.Looking? ==> s.head.viewer.id in s.head.queue.items)
  }

  ghost predicate Alive(l: Link)
  {
    !l.sender.Idle? && !l.sender.Over? ==> l.sender.id in l.queue.items && l.queue.items[l.sender.id] == l.sender.msg
  }

  lemma {:induction false} OkPromises(s: System)
    requires Ok(s)
    ensures Promised(s)
  {
    hide Delivered, ConnsOk, WorkerOk, Holds;
    DeliveredIs(s.client);
    DeliveredIs(s.proxy);
    WithinPrefix(s.head.shown, s.head.log, s.proxy.log);
    assert SenderOk(s.client) && SenderOk(s.proxy) && LosslessOk(s.client) && LosslessOk(s.proxy);
  }

  lemma {:induction false} WithinPrefix(a: seq<Packet>, b: seq<Packet>, c: seq<Packet>)
    requires a <= b && Within(b, c)
    ensures Within(a, c)
  {
    var at: seq<nat> :| Picks(b, c, at);
    assert Picks(a, c, at[..|a|]);
  }

  /** In every run with fewer than 2^32 events, over all interleavings and failures, every state keeps the promises. */
  lemma {:induction false} RelaySafe(states: seq<System>, events: seq<Event>)
    requires Run(states, events) && |states[|events|].client.log| < WORD
    ensures forall i :: 0 <= i < |states| ==> Promised(states[i])
  {
    hide Run, Promised, Ok;
    forall i | 0 <= i < |states| ensures Promised(states[i]) {
      RunOk(states, events, i);
      OkPromises(states[i]);
    }
  }
}
