/** One hop of the relay: a sender that takes messages off a queue, the connections it makes, and the one thread that
    reads them (client_process_event.cpp and proxy_main.cpp on one side,
      proxy_event.cpp and head_event.cpp on the other). */
module Links {
  import opened Wrappers
  import opened Messages
  import opened Queues

  /** Where the sending thread is in its round; conn is the connection it made. */
  datatype Sender =
    | Idle
    | Holding(id: nat, msg: Packet)
    | Linked(id: nat, msg: Packet, conn: nat)
    | Awaiting(id: nat, msg: Packet, conn: nat)
    | Clearing(id: nat, msg: Packet)
    | Over

  /** A connection in the order of arrival; other processes make some that carry no event. */
  datatype Conn = Conn(event: bool, msg: Packet, origin: nat, whole: bool, answered: bool)

  /** Where the reading thread is. */
  datatype Worker = Waiting | Reading(conn: nat) | Got(conn: nat) | Answering(conn: nat)

  /** gone, origin, delivered and lossless are history: how many messages left the queue, the place of a connection's
      message in the log, the connections whose message was taken over,
        and whether the sender ever went on after a failure. */
  datatype Link = Link(log: seq<Packet>, queue: State, gone: nat, sender: Sender, stops: bool, lossless: bool,
                       conns: seq<Conn>, accepted: nat, worker: Worker, delivered: seq<nat>)

  datatype Action =
    | Peek(id: nat) | Connect(ok: bool) | Send(ok: bool) | Answered(ok: bool) | Clear
    | Foreign(whole: bool) | Accept | Receive(ok: bool) | TakeOver | Answer(ok: bool)

  const NOTHING := Packet(0, 0, 0, [])

  function Start(stops: bool): (l: Link)
  {
    Link([], State(map[], 0), 0, Idle, stops, true, [], 0, Waiting, [])
  }

  /** A thread adds a message to the queue. */
  function Enqueue(l: Link, m: Packet): (r: Link)
  {
    l.(log := l.log + [m], queue := Added(l.queue, m))
  }

  /** After a failure the client ends its run; the proxy drops the message and goes on. */
  function Fail(l: Link): (r: Link)
    requires l.sender.Holding? || l.sender.Linked? || l.sender.Awaiting?
  {
    if l.stops then l.(sender := Over) else l.(sender := Clearing(l.sender.id, l.sender.msg), lossless := false)
  }

  /** The actions that can happen in a state, with what the socket calls return as part of the action. */
  ghost predicate Enabled(l: Link, a: Action)
  {
    match a
    case Peek(id) => l.sender.Idle? && Peeks(l.queue, id)
    case Connect(ok) => l.sender.Holding?
    case Send(ok) => l.sender.Linked? && l.sender.conn < |l.conns|
    case Answered(ok) => l.sender.Awaiting? && l.sender.conn < |l.conns| && (ok ==> l.conns[l.sender.conn].answered)
    case Clear => l.sender.Clearing?
    case Foreign(whole) => true
    case Accept => l.worker.Waiting? && l.accepted < |l.conns|
    case Receive(ok) => l.worker.Reading? && l.worker.conn < |l.conns| && (ok ==> l.conns[l.worker.conn].whole)
    case TakeOver => l.worker.Got? && l.worker.conn < |l.conns|
    case Answer(ok) => l.worker.Answering? && l.worker.conn < |l.conns|
  }

  function Act(l: Link, a: Action): (r: Link)
    requires Enabled(l, a)
  {
    match a
    case Peek(id) =>
      if id == 0 || id !in l.queue.items then l else l.(sender := Holding(id, l.queue.items[id]))
    case Connect(ok) =>
      if ok then l.(sender := Linked(l.sender.id, l.sender.msg, |l.conns|),
        conns := l.conns + [Conn(true, l.sender.msg, l.gone, false, false)])
      else Fail(l)
    case Send(ok) =>
      if ok then l.(sender := Awaiting(l.sender.id, l.sender.msg, l.sender.conn),
        conns := l.conns[l.sender.conn := l.conns[l.sender.conn].(whole := true)])
      else Fail(l)
    case Answered(ok) => if ok then l.(sender := Clearing(l.sender.id, l.sender.msg)) else Fail(l)
    case Clear => l.(sender := Idle, queue := Removed(l.queue, l.sender.id), gone := l.gone + 1)
    case Foreign(whole) => l.(conns := l.conns + [Conn(false, NOTHING, 0, whole, false)])
    case Accept => l.(worker := Reading(l.accepted), accepted := l.accepted + 1)
    case Receive(ok) => l.(worker := if ok && l.conns[l.worker.conn].event then Got(l.worker.conn) else Waiting)
    case TakeOver => l.(worker := Answering(l.worker.conn), delivered := l.delivered + [l.worker.conn])
    case Answer(ok) =>
      l.(worker := Waiting, conns := if ok then l.conns[l.worker.conn := l.conns[l.worker.conn].(answered := true)]
        else l.conns)
  }

  /** The message the reading thread hands over to its queue. */
  function Handed(l: Link, a: Action): (m: Option<Packet>)
    requires Enabled(l, a)
  {
    if a.TakeOver? then Some(l.conns[l.worker.conn].msg) else None
  }

  // ------------------------------------------------------------------ the invariant

  ghost predicate SenderOk(l: Link)
  {
    match l.sender
    case Idle => true
    case Over => true
    case Holding(id, msg) => HeldOk(l, id, msg)
    case Linked(id, msg, conn) => HeldOk(l, id, msg) && Mine(l, conn)
    case Awaiting(id, msg, conn) => HeldOk(l, id, msg) && Mine(l, conn)
    case Clearing(id, msg) => HeldOk(l, id, msg)
  }

  /** What the sender holds is the oldest message of the queue and is still there. */
  ghost predicate HeldOk(l: Link, id: nat, msg: Packet)
  {
    l.gone < |l.log| && id == l.gone + 1 && msg == l.log[l.gone] && id in l.queue.items && l.queue.items[id] == msg
  }

  ghost predicate Mine(l: Link, c: nat)
  {
    c < |l.conns| && l.conns[c].event && l.conns[c].origin == l.gone
  }

  ghost predicate IsEvent(l: Link, k: nat)
  {
    k < |l.conns| && l.conns[k].event
  }

  function Origin(l: Link, k: nat): (n: nat)
  {
    if k < |l.conns| then l.conns[k].origin else 0
  }

  /** Connections carry the messages of the log in order, each at most once. */
  ghost predicate ConnsOk(l: Link)
  {
    && (forall k: nat :: IsEvent(l, k) ==>
      Origin(l, k) < |l.log| && l.conns[k].msg == l.log[Origin(l, k)] && Origin(l, k) <= l.gone)
    && (forall k: nat :: IsEvent(l, k) && (l.sender.Idle? || l.sender.Holding?) ==> Origin(l, k) < l.gone)
    && (forall j: nat, k: nat :: IsEvent(l, j) && IsEvent(l, k) && j < k ==> Origin(l, j) < Origin(l, k))
  }

  /** The reading thread takes the connections in turn. */
  ghost predicate WorkerOk(l: Link)
  {
    && l.accepted <= |l.conns|
    && (!l.worker.Waiting? ==> l.worker.conn + 1 == l.accepted)
    && (l.worker.Got? ==> IsEvent(l, l.worker.conn))
    && (l.worker.Answering? ==> l.worker.conn in l.delivered)
    && (forall k: nat :: k in l.delivered ==>
      IsEvent(l, k) && k < l.accepted && ((l.worker.Reading? || l.worker.Got?) ==> k + 1 < l.accepted))
    && (forall i, j :: 0 <= i < j < |l.delivered| ==> l.delivered[i] < l.delivered[j])
    && (forall k: nat :: k < |l.conns| && l.conns[k].answered ==> k in l.delivered)
  }

  /** While the sender never went on after a failure, nothing is skipped. */
  ghost predicate LosslessOk(l: Link)
  {
    && (l.stops ==> l.lossless)
    && (l.lossless ==>
      && l.gone <= |l.delivered|
      && (l.sender.Clearing? ==> l.gone < |l.delivered|)
      && (forall i :: 0 <= i < |l.delivered| ==> Origin(l, l.delivered[i]) == i)
      && (forall k: nat :: IsEvent(l, k) && k !in l.delivered ==> Origin(l, k) == l.gone))
  }

  ghost predicate LinkOk(l: Link)
  {
    Holds(l.queue, l.log, l.gone) && SenderOk(l) && ConnsOk(l) && WorkerOk(l) && LosslessOk(l)
  }

  lemma {:induction false} StartOk(stops: bool)
    ensures LinkOk(Start(stops))
  {
  }

  lemma {:induction false} EnqueueOk(l: Link, m: Packet)
    requires LinkOk(l) && |l.log| + 1 < WORD
    ensures LinkOk(Enqueue(l, m))
  {
    HoldsAdded(l.queue, l.log, l.gone, m);
    var r := Enqueue(l, m);
    assert forall k: nat :: IsEvent(r, k) == IsEvent(l, k) && Origin(r, k) == Origin(l, k);
  }

  lemma {:induction false} ActOk(l: Link, a: Action)
    requires LinkOk(l) && Enabled(l, a)
    ensures LinkOk(Act(l, a))
  {
    match a
    case Peek(id) => PeekOk(l, id);
    case Connect(ok) => if ok { ConnectOk(l); } else { FailOk(l); }
    case Send(ok) => if ok { SendOk(l); } else { FailOk(l); }
    case Answered(ok) => if ok { AnsweredOk(l); } else { FailOk(l); }
    case Clear => ClearOk(l);
    case Foreign(whole) => ForeignOk(l, whole);
    case Accept => AcceptOk(l);
    case Receive(ok) => ReceiveOk(l, ok);
    case TakeOver => TakeOverOk(l);
    case Answer(ok) => AnswerOk(l, ok);
  }

  lemma {:induction false} PeekOk(l: Link, id: nat)
    requires LinkOk(l) && Enabled(l, Peek(id))
    ensures LinkOk(Act(l, Peek(id)))
  {
    HoldsPeek(l.queue, l.log, l.gone, id);
    SameConns(l, Act(l, Peek(id)));
  }

  lemma {:induction false} SameConns(l: Link, r: Link)
    requires r.conns == l.conns
    ensures forall k: nat :: IsEvent(r, k) == IsEvent(l, k) && Origin(r, k) == Origin(l, k)
  {
  }

  /** One more connection. */
  lemma {:induction false} MoreConns(l: Link, r: Link, c: Conn)
    requires r.conns == l.conns + [c]
    ensures forall k: nat :: k != |l.conns| ==> IsEvent(r, k) == IsEvent(l, k) && Origin(r, k) == Origin(l, k)
    ensures IsEvent(r, |l.conns|) == c.event && Origin(r, |l.conns|) == c.origin
    ensures forall k: nat :: k < |l.conns| ==> r.conns[k] == l.conns[k]
  {
  }

  /** A connection changes, but not what it carries. */
  lemma {:induction false} ChangedConn(l: Link, r: Link, i: nat, c: Conn)
    requires i < |l.conns| && r.conns == l.conns[i := c]
    requires c.event == l.conns[i].event && c.origin == l.conns[i].origin
    ensures forall k: nat :: IsEvent(r, k) == IsEvent(l, k) && Origin(r, k) == Origin(l, k)
  {
  }

  lemma {:induction false} ConnectOk(l: Link)
    requires LinkOk(l) && Enabled(l, Connect(true))
    ensures LinkOk(Act(l, Connect(true)))
  {
    MoreConns(l, Act(l, Connect(true)), Conn(true, l.sender.msg, l.gone, false, false));
  }

  lemma {:induction false} FailOk(l: Link)
    requires LinkOk(l) && (l.sender.Holding? || l.sender.Linked? || l.sender.Awaiting?)
    ensures LinkOk(Fail(l))
  {
    SameConns(l, Fail(l));
  }

  lemma {:induction false} SendOk(l: Link)
    requires LinkOk(l) && Enabled(l, Send(true))
    ensures LinkOk(Act(l, Send(true)))
  {
    var c := l.sender.conn;
    ChangedConn(l, Act(l, Send(true)), c, l.conns[c].(whole := true));
  }

  /** An answer means that the message was taken over. */
  lemma {:induction false} AnsweredOk(l: Link)
    requires LinkOk(l) && Enabled(l, Answered(true))
    ensures LinkOk(Act(l, Answered(true)))
    ensures l.sender.conn in l.delivered && Carried(l, l.sender.conn) == l.log[l.gone] == l.sender.msg
  {
    SameConns(l, Act(l, Answered(true)));
    var c := l.sender.conn;
    assert c in l.delivered;
    var i :| 0 <= i < |l.delivered| && l.delivered[i] == c;
  }

  lemma {:induction false} ClearOk(l: Link)
    requires LinkOk(l) && Enabled(l, Clear)
    ensures LinkOk(Act(l, Clear))
  {
    HoldsRemoved(l.queue, l.log, l.gone);
    var r := Act(l, Clear);
    SameConns(l, r);
    if l.lossless {
      var c := l.delivered[l.gone];
      assert c in l.delivered && Origin(l, c) == l.gone && IsEvent(l, c);
      forall k: nat | IsEvent(r, k) ensures k in r.delivered {
        assert Origin(l, k) == Origin(l, c) ==> k == c;
      }
    }
  }

  lemma {:induction false} ForeignOk(l: Link, whole: bool)
    requires LinkOk(l)
    ensures LinkOk(Act(l, Foreign(whole)))
  {
    MoreConns(l, Act(l, Foreign(whole)), Conn(false, NOTHING, 0, whole, false));
  }

  lemma {:induction false} AcceptOk(l: Link)
    requires LinkOk(l) && Enabled(l, Accept)
    ensures LinkOk(Act(l, Accept))
  {
    SameConns(l, Act(l, Accept));
  }

  lemma {:induction false} ReceiveOk(l: Link, ok: bool)
    requires LinkOk(l) && Enabled(l, Receive(ok))
    ensures LinkOk(Act(l, Receive(ok)))
  {
    SameConns(l, Act(l, Receive(ok)));
  }

  lemma {:induction false} Earlier(l: Link, j: nat, k: nat)
    requires ConnsOk(l) && IsEvent(l, j) && IsEvent(l, k) && j < k
    ensures Origin(l, j) < Origin(l, k)
  {
  }

  lemma {:induction false} NothingSkipped(l: Link)
    requires LinkOk(l) && l.lossless && l.worker.Got?
    ensures Origin(l, l.worker.conn) == |l.delivered| == l.gone && l.worker.conn !in l.delivered
  {
    var n := |l.delivered|;
    if n > 0 {
      assert l.delivered[n - 1] in l.delivered;
      Earlier(l, l.delivered[n - 1], l.worker.conn);
    }
  }

  /** The message taken over is the next one when none was skipped before. */
  lemma {:induction false} TakeOverOk(l: Link)
    requires LinkOk(l) && Enabled(l, TakeOver)
    ensures LinkOk(Act(l, TakeOver)) && Handed(l, TakeOver) == Some(l.log[Origin(l, l.worker.conn)])
    ensures forall k: nat :: k in l.delivered ==> Origin(l, k) < Origin(l, l.worker.conn) < |l.log|
    ensures l.lossless ==> Origin(l, l.worker.conn) == |l.delivered| == l.gone
  {
    var r := Act(l, TakeOver);
    SameConns(l, r);
    var c := l.worker.conn;
    assert forall k: nat :: k in r.delivered <==> k in l.delivered || k == c;
    assert forall i :: 0 <= i < |l.delivered| ==> l.delivered[i] in l.delivered;
    if l.lossless { NothingSkipped(l); }
  }

  lemma {:induction false} AnswerOk(l: Link, ok: bool)
    requires LinkOk(l) && Enabled(l, Answer(ok))
    ensures LinkOk(Act(l, Answer(ok)))
  {
    var r, c := Act(l, Answer(ok)), l.worker.conn;
    if ok { ChangedConn(l, r, c, l.conns[c].(answered := true)); } else { SameConns(l, r); }
  }

  // ------------------------------------------------------------------ what came over

  /** The messages that were taken over, in that order. */
  function Delivered(l: Link): (s: seq<Packet>)
  {
    seq(|l.delivered|, i requires 0 <= i < |l.delivered| => Carried(l, l.delivered[i]))
  }

  function Carried(l: Link, k: nat): (m: Packet)
  {
    if k < |l.conns| then l.conns[k].msg else NOTHING
  }

  /** a is b with some of its messages left out. */
  ghost predicate Within(a: seq<Packet>, b: seq<Packet>)
  {
    exists at: seq<nat> :: Picks(a, b, at)
  }

  ghost predicate Picks(a: seq<Packet>, b: seq<Packet>, at: seq<nat>)
  {
    && |at| == |a|
    && (forall i :: 0 <= i < |at| ==> at[i] < |b| && a[i] == b[at[i]])
    && forall i, j :: 0 <= i < j < |at| ==> at[i] < at[j]
  }

  /** What came over is in order and without repetition; nothing is missing in it when nothing failed. */
  lemma {:induction false} DeliveredIs(l: Link)
    requires LinkOk(l)
    ensures Within(Delivered(l), l.log)
    ensures l.lossless ==> Delivered(l) <= l.log && l.gone <= |Delivered(l)| <= l.gone + 1
  {
    var at := seq(|l.delivered|, i requires 0 <= i < |l.delivered| => Origin(l, l.delivered[i]));
    forall i | 0 <= i < |at| ensures at[i] < |l.log| && Delivered(l)[i] == l.log[at[i]] && at[i] <= l.gone {
      assert l.delivered[i] in l.delivered && IsEvent(l, l.delivered[i])
        && Delivered(l)[i] == Carried(l, l.delivered[i]);
    }
    forall i, j | 0 <= i < j < |at| ensures at[i] < at[j] {
      assert IsEvent(l, l.delivered[i]) && IsEvent(l, l.delivered[j]) && l.delivered[i] < l.delivered[j];
    }
    assert Picks(Delivered(l), l.log, at);
    if l.lossless && |at| > 0 { assert at[|at| - 1] == |at| - 1; }
  }

  lemma {:induction false} TakenOver(l: Link, a: Action)
    requires WorkerOk(l) && Enabled(l, a)
    ensures Delivered(Act(l, a)) == if Handed(l, a).Some? then Delivered(l) + [Handed(l, a).value] else Delivered(l)
  {
    var r := Act(l, a);
    assert |l.conns| <= |r.conns| && forall k: nat :: k < |l.conns| ==> r.conns[k].msg == l.conns[k].msg;
    forall i | 0 <= i < |l.delivered| ensures Carried(r, l.delivered[i]) == Carried(l, l.delivered[i]) {
      assert IsEvent(l, l.delivered[i]);
    }
    if a.TakeOver? {
      assert Delivered(r) == Delivered(l) + [l.conns[l.worker.conn].msg];
    } else {
      assert Delivered(r) == Delivered(l);
    }
  }

  /** A message the proxy could not connect for leaves its queue without ever being on a connection. */
  lemma {:induction false} Dropped(l: Link)
    requires LinkOk(l) && !l.stops && l.sender.Holding?
    ensures var r := Act(Act(l, Connect(false)), Clear);
            r.gone == l.gone + 1 && l.gone + 1 !in r.queue.items && forall k: nat ::
              IsEvent(r, k) ==> Origin(r, k) != l.gone
  {
    var r := Act(Act(l, Connect(false)), Clear);
    SameConns(l, r);
  }
}
