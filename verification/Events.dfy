/** The rounds of the relay's loops, one message each: client_process_event.cpp, the forwarding loop of proxy_main.cpp,
    the loop of head_main.cpp, and the thread of proxy and head that takes events over. */
module Events {
  import opened BitWriter
  import opened Messages
  import opened Sockets
  import opened Queues

  const SEND_EVENT := 100
  const SEND_EVENT_RESULT := 101

  /** What the network does with one connection. */
  datatype Network =
    Network(created: bool, attempts: seq<bool>, nonblocking: bool, outcomes: seq<Outcome>, arriving: seq<Byte>)

  predicate NetworkOk(n: Network)
  {
    |n.attempts| == 3
  }

  ghost predicate QueueOk(q: Queue)
    reads q
  {
    forall k :: k in q.messageMap ==> PacketOk(q.messageMap[k])
  }

  ghost predicate AnswerIn(s: seq<Byte>)
  {
    exists p: Packet, t: seq<Byte> :: Arrives(s, p, t)
  }

  /** The socket can be made and one of the three attempts to connect it succeeds. */
  predicate Connects(n: Network)
  {
    n.created && n.nonblocking && true in n.attempts
  }

  /** What goes out of message p. */
  function SentOf(p: Packet, n: Network): (s: seq<Byte>)
  {
    var r := SendBoth(n.outcomes, |p.payload|);
    SendBothEnds(n.outcomes, |p.payload|);
    if Connects(n) then PacketBytes(p)[..r.moved] else []
  }

  /** The message goes out whole, and its answer comes in whole. */
  ghost predicate Answered(p: Packet, n: Network)
  {
    var r := SendBoth(n.outcomes, |p.payload|);
    Connects(n) && r.code == Ok && Whole(r.rest, n.arriving)
  }

  /** Answered messages went out whole; a steady channel with an answer arriving is enough for it. */
  lemma {:induction false} SteadyAnswered(p: Packet, n: Network)
    ensures Answered(p, n) ==> SentOf(p, n) == PacketBytes(p)
    ensures Connects(n) && Steady(n.outcomes, |PacketBytes(p)|) ==> SentOf(p, n) == PacketBytes(p)
    ensures Connects(n) ==> forall q: Packet, t: seq<Byte> ::
        Arrives(n.arriving, q, t) && Steady(n.outcomes, |PacketBytes(p)| + |PacketBytes(q)|) ==> Answered(p, n)
  {
    hide SendBoth, Steady, HeaderBytes, Whole;
    SendBothEnds(n.outcomes, |p.payload|);
    assert PacketBytes(p)[..|PacketBytes(p)|] == PacketBytes(p);
    forall q: Packet, t: seq<Byte> |
      Connects(n) && Arrives(n.arriving, q, t) && Steady(n.outcomes, |PacketBytes(p)| + |PacketBytes(q)|)
      ensures Answered(p, n)
    {
      SteadyExchange(n.outcomes, |p.payload|, n.arriving, q, t);
    }
  }

  /** What send_and_receive reports and sends is what the exchange promises. */
  lemma {:induction false} ExchangeIs(p: Packet, n: Network, code: Code, sent: seq<Byte>)
    requires Connects(n)
    requires var r := SendBoth(n.outcomes, |p.payload|);
             && r.moved <= |PacketBytes(p)| && sent == [] + PacketBytes(p)[..r.moved]
             && (code == Ok <==> r.code == Ok && Whole(r.rest, n.arriving))
    ensures sent == SentOf(p, n) && sent <= PacketBytes(p) && (code == Ok <==> Answered(p, n))
    ensures code == Ok ==> sent == PacketBytes(p)
  {
    hide SendBoth, Whole, HeaderBytes;
    SendBothEnds(n.outcomes, |p.payload|);
    assert [] + PacketBytes(p)[..SendBoth(n.outcomes, |p.payload|).moved]
        == PacketBytes(p)[..SendBoth(n.outcomes, |p.payload|).moved];
    assert PacketBytes(p)[..|PacketBytes(p)|] == PacketBytes(p);
  }

  lemma {:induction false} NoExchange(p: Packet, n: Network)
    requires !Connects(n)
    ensures SentOf(p, n) == [] && !Answered(p, n)
  {
    hide SendBoth;
  }

  lemma {:induction false} AnswerIs(p: Packet, s: seq<Byte>, t: seq<Byte>)
    requires PacketOk(p) && s == PacketBytes(p) + t
    ensures AnswerIn(s)
  {
    hide PacketBytes, PacketOk;
    assert Arrives(s, p, t);
  }

  /** A connection for one message and its answer. */
  method Exchange(p: Packet, n: Network) returns (code: Code, sent: seq<Byte>)
    requires PacketOk(p) && NetworkOk(n)
    ensures sent == SentOf(p, n) && sent <= PacketBytes(p)
    ensures code == Ok <==> Answered(p, n)
    ensures code == Ok ==> sent == PacketBytes(p) && AnswerIn(n.arriving)
  {
    hide PacketBytes, PacketOk, SendBoth, Reception, SentOf, Answered, Whole, Received, AnswerIn;
    var socket := new Socket(n.outcomes, n.arriving);
    var tries;
    code, tries := socket.Connect(n.created, n.attempts, n.nonblocking);
    sent := [];
    if code == Ok {
      var m := new Message.FromPacket(p);
      var answer;
      code, answer := socket.SendAndReceive(m);
      sent := socket.sent;
      ExchangeIs(p, n, code, sent);
      if code == Ok { AnswerIs(answer.Value(), n.arriving, socket.arriving); }
    } else {
      NoExchange(p, n);
    }
  }

  /** What the client's round does to the queue: the message goes exactly when it was sent and answered. */
  ghost predicate ClientRound(before: State, after: State, code: Code, sent: seq<Byte>, n: Network, log: seq<Packet>,
      gone: nat)
    requires gone <= |log|
  {
    if gone == |log| then code == Ok && after == before && sent == []
    else
      && sent == SentOf(log[gone], n) && (code == Ok <==> Answered(log[gone], n))
      && if Answered(log[gone], n) then Holds(after, log, gone + 1) && sent == PacketBytes(log[gone])
         else after == before && sent <= PacketBytes(log[gone])
  }

  /** process_event of the client. */
  method ProcessEvent(q: Queue, n: Network) returns (code: Code, sent: seq<Byte>)
    requires QueueOk(q) && NetworkOk(n)
    modifies q
    ensures forall log: seq<Packet>, gone: nat :: Holds(old(q.Value()), log, gone) ==>
        ClientRound(old(q.Value()), q.Value(), code, sent, n, log, gone)
    ensures code == Ok && q.Value() != old(q.Value()) ==> AnswerIn(n.arriving)
  {
    hide PacketBytes, PacketOk, SentOf, Answered;
    code, sent := Ok, [];
    var id, message := q.Peek();
    if id != 0 {
      code, sent := Exchange(message, n);
      if code == Ok { q.Remove(id); }
    }
  }

  /** A round of the proxy's forwarding loop: the message goes whatever happens on the connection. */
  method Forward(q: Queue, n: Network) returns (sent: seq<Byte>)
    requires QueueOk(q) && NetworkOk(n)
    modifies q
    ensures forall log: seq<Packet>, gone: nat :: Holds(old(q.Value()), log, gone) ==>
        if gone == |log| then q.Value() == old(q.Value()) && sent == []
        else
          && Holds(q.Value(), log, gone + 1) && sent == SentOf(log[gone], n) && sent <= PacketBytes(log[gone])
          && (Connects(n) && Steady(n.outcomes, |PacketBytes(log[gone])|) ==> sent == PacketBytes(log[gone]))
  {
    hide PacketBytes, PacketOk, SentOf, Connects, Steady;
    sent := [];
    var id, message := q.Peek();
    if id != 0 {
      var code;
      code, sent := Exchange(message, n);
      SteadyAnswered(message, n);
      q.Remove(id);
    }
  }

  /** A round of the head's loop: the oldest message is shown and goes. */
  method ShowNext(q: Queue) returns (shown: seq<Packet>)
    modifies q
    ensures forall log: seq<Packet>, gone: nat :: Holds(old(q.Value()), log, gone) ==>
        if gone == |log| then q.Value() == old(q.Value()) && shown == []
        else Holds(q.Value(), log, gone + 1) && shown == [log[gone]]
  {
    shown := [];
    var id, message := q.Peek();
    if id != 0 {
      shown := [message];
      q.Remove(id);
    }
  }

  /** What the reading thread promises: an event that came whole is behind the others, nothing else changes. */
  ghost predicate TakenOver(before: State, after: State, queued: bool, all: seq<Byte>, log: seq<Packet>, gone: nat)
  {
    if queued then
      exists p: Packet, t: seq<Byte> :: Arrives(all, p, t) && p.kind == 100 && Holds(after, log + [p], gone)
    else
      after == before
  }

  /** The acknowledgement: version 1, kind 101, no payload and result code 0. */
  function Acknowledgement(): (s: seq<Byte>)
    ensures |s| == 13
  {
    [1, 101, 0, 0, 0, 0, 0, 0, 0, 0, 0, 0, 0]
  }

  lemma {:induction false} AcknowledgementIs()
    ensures PacketBytes(Packet(1, SEND_EVENT_RESULT, 0, [])) == Acknowledgement()
  {
  }

  /** A round of the reading thread of proxy or head, as far as events go: what arrives whole and is an event is
      queued and acknowledged. */
  method TakeOver(q: Queue, s: Socket) returns (queued: bool)
    requires s.sent == []
    modifies q, s
    ensures forall log: seq<Packet>, gone: nat :: Holds(old(q.Value()), log, gone) && |log| + 1 < WORD ==>
        TakenOver(old(q.Value()), q.Value(), queued, old(s.arriving), log, gone)
    ensures forall p: Packet, t: seq<Byte> :: Arrives(old(s.arriving), p, t) ==>
        (queued <==> Whole(old(s.script), old(s.arriving)) && p.kind == 100)
    ensures var rest := Reception(old(s.script), old(s.arriving)).rest;
            var k := SendBoth(rest, 0).moved;
            && k <= 13 && s.sent == (if queued then Acknowledgement()[..k] else [])
            && (queued && Steady(rest, 13) ==> s.sent == Acknowledgement())
  {
    hide PacketBytes, Whole, Transfer, Holds, Reception, SendBoth, Steady;
    ghost var all, script := s.arriving, s.script;
    queued := false;
    var code, m := s.RecvMessage();
    SendBothEnds(s.script, 0);
    if code == Ok {
      var p := Contents(m);
      assert Arrives(all, p, s.arriving);
      forall p': Packet, t: seq<Byte> | Arrives(all, p', t) ensures p' == p {
        PacketsDelimited(p', p, t, s.arriving);
      }
      if m.kind == SEND_EVENT {
        q.Add(p);
        queued := true;
        AcknowledgementIs();
        var answer := new Message(SEND_EVENT_RESULT);
        code := s.SendMessage(answer);
        assert Acknowledgement()[..13] == Acknowledgement();
      }
    }
  }

  /** The value of a message. */
  method Contents(m: Message) returns (p: Packet)
    requires m.Valid()
    ensures p == m.Value()
  {
    p := Packet(m.version, m.kind, m.code, if m.raw == null then [] else m.raw[..m.size]);
  }
}
