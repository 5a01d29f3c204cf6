/** socket.cpp, socket_client.cpp, socket_server.cpp: messages over a channel that moves any part of what is asked. */
module Sockets {
  import opened Wrappers
  import opened BitWriter
  import opened Messages

  /** error_code_t, as far as the transport uses it. */
  datatype Code = Ok | SystemError | SocketError | TransportError

  /** What select, and then send or recv, report; a negative count is a failure, zero a closed channel. */
  datatype Outcome = Ready(count: int) | TimeOut | SelectError

  /** How a transfer ends, how much it moved, and the outcomes that are left. */
  datatype Transferred = Transferred(code: Code, moved: nat, rest: seq<Outcome>)

  /** Moving total bytes when at most available ones can be: what each round of the loop may do. */
  function Transfer(script: seq<Outcome>, total: nat, available: nat): (r: Transferred)
    requires total > 0
    decreases |script|
  {
    if script == [] then Transferred(TransportError, 0, [])
    else
      match script[0]
      case TimeOut => Transferred(TransportError, 0, script[1..])
      case SelectError => Transferred(SystemError, 0, script[1..])
      case Ready(count) =>
        var n := Part(count, total, available);
        if n == 0 then Transferred(TransportError, 0, script[1..])
        else if n == total then Transferred(Ok, n, script[1..])
        else var r := Transfer(script[1..], total - n, available - n); r.(moved := n + r.moved)
  }

  function Part(count: int, total: nat, available: nat): (n: nat)
    ensures n <= total && n <= available
  {
    if count <= 0 then 0 else if count <= total && count <= available then count else if total <= available
      then total else available
  }

  /** A transfer succeeds exactly when everything moved. */
  lemma {:induction false} TransferEnds(script: seq<Outcome>, total: nat, available: nat)
    requires total > 0
    ensures var r := Transfer(script, total, available);
            r.moved <= total && r.moved <= available && (r.code == Ok <==> r.moved == total)
    decreases |script|
  {
    if script != [] && script[0].Ready? {
      var n := Part(script[0].count, total, available);
      if 0 < n < total { TransferEnds(script[1..], total - n, available - n); }
    }
  }

  /** A channel that always moves something, for long enough. */
  ghost predicate Steady(script: seq<Outcome>, n: nat)
  {
    n <= |script| && forall i :: 0 <= i < n ==> script[i].Ready? && script[i].count > 0
  }

  lemma {:induction false} SteadySucceeds(script: seq<Outcome>, total: nat, available: nat)
    requires 0 < total <= available && Steady(script, total)
    ensures Transfer(script, total, available).code == Ok
    ensures forall n: nat :: Steady(script, total + n) ==> Steady(Transfer(script, total, available).rest, n)
    decreases |script|
  {
    assert script[0].Ready? && script[0].count > 0;
    var k, rest := Part(script[0].count, total, available), script[1..];
    if k < total {
      SteadyRest(script, total - k);
      SteadySucceeds(rest, total - k, available - k);
    }
    forall n: nat | Steady(script, total + n) ensures Steady(Transfer(script, total, available).rest, n) {
      SteadyRest(script, total + n - 1);
      if k < total { assert Steady(rest, total - k + n); }
    }
  }

  lemma {:induction false} SteadyLess(script: seq<Outcome>, m: nat, n: nat)
    requires Steady(script, n) && m <= n
    ensures Steady(script, m)
  {
  }

  lemma {:induction false} SteadyRest(script: seq<Outcome>, n: nat)
    requires Steady(script, n + 1)
    ensures forall m: nat :: m <= n ==> Steady(script[1..], m)
  {
    forall m: nat | m <= n ensures Steady(script[1..], m) {
      assert forall i :: 0 <= i < m ==> script[1..][i] == script[i + 1];
    }
  }

  /** Sending the header and then a payload of the given size, if there is one. */
  function SendBoth(script: seq<Outcome>, size: nat): (r: Transferred)
  {
    var r := Transfer(script, 13, 13);
    if r.code == Ok && size > 0 then var t := Transfer(r.rest, size, size); t.(moved := 13 + t.moved) else r
  }

  /** All of a message goes out exactly on success, which a steady channel brings. */
  lemma {:induction false} SendBothEnds(script: seq<Outcome>, size: nat)
    ensures var r := SendBoth(script, size); r.moved <= 13 + size && (r.code == Ok <==> r.moved == 13 + size)
    ensures Steady(script, 13 + size) ==> SendBoth(script, size).code == Ok
    ensures forall n: nat :: Steady(script, 13 + size + n) ==> Steady(SendBoth(script, size).rest, n)
  {
    hide Transfer, Steady;
    TransferEnds(script, 13, 13);
    if size > 0 { TransferEnds(Transfer(script, 13, 13).rest, size, size); }
    if Steady(script, 13 + size) { SteadyParts(script, 13, size); }
    forall n: nat | Steady(script, 13 + size + n) ensures Steady(SendBoth(script, size).rest, n) {
      SteadyParts(script, 13, size + n);
      if size > 0 {
        SteadyLess(Transfer(script, 13, 13).rest, size, size + n);
        SteadySucceeds(Transfer(script, 13, 13).rest, size, size);
      }
    }
  }

  /** Receiving a header and then the payload that it announces, if there is one. */
  function Reception(script: seq<Outcome>, all: seq<Byte>): (r: Transferred)
  {
    var r := Transfer(script, 13, |all|);
    if r.code != Ok || |all| < 13 then r
    else
      var n := Number(all[..13][5..9]);
      if n == 0 then r else var t := Transfer(r.rest, n, |all| - 13); t.(moved := 13 + t.moved)
  }

  /** Both receives succeed. */
  ghost predicate Whole(script: seq<Outcome>, all: seq<Byte>)
  {
    Reception(script, all).code == Ok
  }

  /** One end of a connection. */
  class Socket {
    var script: seq<Outcome>
    var sent: seq<Byte>
    var arriving: seq<Byte>
    var connected: bool

    constructor (script: seq<Outcome>, arriving: seq<Byte>)
      ensures this.script == script && sent == [] && this.arriving == arriving && !connected
    {
      this.script, sent, this.arriving, connected := script, [], arriving, false;
    }

    /** connect, three attempts; attempts says which calls of the system would succeed. */
    method Connect(created: bool, attempts: seq<bool>, nonblocking: bool) returns (code: Code, tries: nat)
      requires |attempts| == 3
      modifies this`connected
      ensures connected <==> code == Ok
      ensures code == Ok <==> created && nonblocking && true in attempts
      ensures code == SocketError <==> created && true !in attempts
      ensures tries <= 3 && forall i :: 0 <= i < tries - 1 ==> !attempts[i]
      ensures created && tries < 3 ==> tries > 0 && attempts[tries - 1]
    {
      tries := 0;
      if !created {
        code := SystemError;
      } else {
        code := SocketError;
        var left := 3;
        while code != Ok && left > 0
          invariant tries + left == 3 && code in {Ok, SocketError, SystemError}
          invariant code == Ok <==> true in attempts[..tries]
          invariant code == Ok ==> tries > 0 && attempts[tries - 1]
          invariant code != Ok && left == 0 ==> code == SocketError
          invariant forall i :: 0 <= i < tries - 1 ==> !attempts[i]
        {
          code := if attempts[tries] then Ok else SystemError;
          assert attempts[..tries + 1] == attempts[..tries] + [attempts[tries]];
          tries := tries + 1;
          left := left - 1;
          if code != Ok && left == 0 { code := SocketError; }
        }
        assert attempts == attempts[..tries] + attempts[tries..];
        if code == Ok && !nonblocking { code := SystemError; }
      }
      connected := code == Ok;
    }

    /** send_and_receive: the error is that of the first transfer that failed. */
    method SendAndReceive(m: Message) returns (code: Code, answer: Message?)
      requires m.Valid()
      modifies this
      ensures var r := SendBoth(old(script), |m.Value().payload|);
              && r.moved <= |PacketBytes(m.Value())| && sent == old(sent) + PacketBytes(m.Value())[..r.moved]
              && code == (if r.code != Ok then r.code else Reception(r.rest, old(arriving)).code)
              && (code == Ok <==> r.code == Ok && Whole(r.rest, old(arriving)))
              && (r.code != Ok ==> arriving == old(arriving))
      ensures code == Ok ==> sent == old(sent) + PacketBytes(m.Value())
      ensures code == Ok ==> answer != null && fresh(answer) && answer.Valid() && PacketOk(answer.Value())
                             && old(arriving) == PacketBytes(answer.Value()) + arriving
      ensures Received(old(arriving), arriving)
    {
      hide SendBoth, Reception, PacketBytes, PacketOk;
      answer := null;
      SendBothEnds(script, |m.Value().payload|);
      code := SendMessage(m);
      if code == Ok { code, answer := RecvMessage(); }
    }

    /** select, with the time that is left. */
    method Select() returns (o: Outcome)
      modifies this`script
      ensures o == if old(script) == [] then TimeOut else old(script)[0]
      ensures script == if old(script) == [] then [] else old(script)[1..]
    {
      if script == [] { return TimeOut; }
      o := script[0];
      script := script[1..];
    }

    /** send_data. */
    method SendData(data: seq<Byte>) returns (code: Code)
      requires data != []
      modifies this`script, this`sent
      ensures var r := Transfer(old(script), |data|, |data|);
              code == r.code && script == r.rest && r.moved <= |data| && sent == old(sent) + data[..r.moved]
    {
      hide Transfer;
      var left := data;
      code := Ok;
      ghost var all := Transfer(script, |data|, |data|);
      TransferEnds(script, |data|, |data|);
      ghost var done: nat := 0;
      while true
        invariant code == Ok && left != [] && done + |left| == |data| && left == data[done..]
        invariant sent == old(sent) + data[..done]
        invariant var r := Transfer(script, |left|, |left|);
                  all == r.(moved := done + r.moved)
        decreases |left|
      {
        TransferStep(script, |left|, |left|);
        var o := Select();
        match o {
          case TimeOut => code := TransportError;
          case SelectError => code := SystemError;
          case Ready(count) =>
            var n := Part(count, |left|, |left|);
            if n == 0 {
              code := TransportError;
            } else {
              sent := sent + left[..n];
              TakeMore(data, done, n);
              left := left[n..];
              done := done + n;
            }
        }
        if code != Ok || left == [] { break; }
      }
    }

    /** recv_data. */
    method RecvData(buffer: array<Byte>) returns (code: Code)
      requires buffer.Length > 0
      modifies this`script, this`arriving, buffer
      ensures var r := Transfer(old(script), buffer.Length, |old(arriving)|);
              && code == r.code && script == r.rest && r.moved <= buffer.Length && r.moved <= |old(arriving)|
              && buffer[..r.moved] == old(arriving)[..r.moved] && arriving == old(arriving)[r.moved..]
    {
      hide Transfer;
      code := Ok;
      ghost var all := Transfer(script, buffer.Length, |arriving|);
      TransferEnds(script, buffer.Length, |arriving|);
      var total: nat := 0;
      while true
        invariant code == Ok && total < buffer.Length && total <= |old(arriving)|
        invariant arriving == old(arriving)[total..] && buffer[..total] == old(arriving)[..total]
        invariant var r := Transfer(script, buffer.Length - total, |arriving|);
                  all == r.(moved := total + r.moved)
        decreases buffer.Length - total
      {
        TransferStep(script, buffer.Length - total, |arriving|);
        var o := Select();
        match o {
          case TimeOut => code := TransportError;
          case SelectError => code := SystemError;
          case Ready(count) =>
            var n := Part(count, buffer.Length - total, |arriving|);
            if n == 0 {
              code := TransportError;
            } else {
              TakeMore(old(arriving), total, n);
              Fill(buffer, total, n);
              total := total + n;
            }
        }
        if code != Ok || total == buffer.Length { break; }
      }
    }

    /** recv: the next bytes go into the buffer. */
    method Fill(buffer: array<Byte>, at: nat, n: nat)
      requires at + n <= buffer.Length && n <= |arriving|
      modifies this`arriving, buffer
      ensures buffer[..at + n] == old(buffer[..at]) + old(arriving)[..n]
      ensures arriving == old(arriving)[n..]
    {
      for i := 0 to n
        invariant arriving == old(arriving) && buffer[..at + i] == old(buffer[..at]) + arriving[..i]
      {
        buffer[at + i] := arriving[i];
        assert buffer[..at + i + 1] == buffer[..at + i] + [arriving[i]];
        assert arriving[..i + 1] == arriving[..i] + [arriving[i]];
      }
      arriving := arriving[n..];
    }

    /** The two sends of send_message and send_and_receive. */
    method SendMessage(m: Message) returns (code: Code)
      requires m.Valid()
      modifies this`script, this`sent
      ensures var r := SendBoth(old(script), |m.Value().payload|);
              && code == r.code && script == r.rest && r.moved <= |PacketBytes(m.Value())|
              && sent == old(sent) + PacketBytes(m.Value())[..r.moved]
      ensures Sent(old(sent), sent, PacketBytes(m.Value()), code)
      ensures var n := |PacketBytes(m.Value())|;
              Steady(old(script), n) ==> code == Ok
    {
      hide Transfer, Steady, HeaderBytes;
      SendBothEnds(script, m.size);
      var header := HeaderBytes(m.version, m.kind, m.size, m.code);
      ghost var script0, sent0, all := script, sent, PacketBytes(m.Value());
      ghost var k: nat := Transfer(script, 13, 13).moved;
      code := SendData(header);
      SendOutcome(script0, 13);
      assert all[..k] == header[..k];
      if code == Ok && m.size > 0 {
        var data := m.raw[..m.size];
        SendOutcome(script, |data|);
        ghost var k' := Transfer(script, |data|, |data|).moved;
        code := SendData(data);
        assert all[..13 + k'] == header + data[..k'];
        k := 13 + k';
      }
      assert SentPart(sent0, sent, all, k);
    }

    /** The two receives of recv_message and send_and_receive; m has the header even when the payload does not come. */
    method RecvMessage() returns (code: Code, m: Message?)
      modifies this`script, this`arriving
      ensures m != null ==> fresh(m) && m.Valid() && (m.raw != null ==> fresh(m.raw))
      ensures var r := Reception(old(script), old(arriving));
              && code == r.code && script == r.rest && r.moved <= |old(arriving)|
                && arriving == old(arriving)[r.moved..]
      ensures code == Ok <==> Whole(old(script), old(arriving))
      ensures code == Ok ==> m != null && PacketOk(m.Value()) && old(arriving) == PacketBytes(m.Value()) + arriving
      ensures Received(old(arriving), arriving)
    {
      hide Transfer, HeaderBytes, Number;
      m := null;
      var header := new Byte[13];
      ghost var script0, all := script, arriving;
      RecvOutcome(script0, 13, all);
      code := RecvData(header);
      if code == Ok {
        ghost var script1, head, rest := script, header[..], arriving;
        assert head == header[..13] == all[..13] && all == head + rest;
        m := new Message.FromHeader(header[..]);
        if m.size > 0 {
          RecvOutcome(script1, m.size, rest);
          code := RecvData(m.raw);
          ReceivedMore(all, rest, arriving, 13, Transfer(script1, m.size, |rest|).moved);
        }
        if code == Ok { Joined(m, head, rest, arriving); }
      }
    }
  }

  lemma {:induction false} Joined(m: Message, head: seq<Byte>, rest: seq<Byte>, after: seq<Byte>)
    requires m.Valid() && head == HeaderBytes(m.version, m.kind, m.size, m.code)
    requires if m.size == 0 then after == rest
             else
               m.raw != null && m.raw.Length == m.size && m.size <= |rest| && m.raw[..m.size] == rest[..m.size]
               && after == rest[m.size..]
    ensures PacketOk(m.Value()) && head + rest == PacketBytes(m.Value()) + after
  {
    hide HeaderBytes;
    assert rest == m.Payload() + after;
    assert head + rest == head + m.Payload() + after;
  }

  /** On a steady channel a message that arrives is received. */
  lemma {:induction false} SteadyWhole(script: seq<Outcome>, all: seq<Byte>, p: Packet, t: seq<Byte>)
    requires Arrives(all, p, t) && Steady(script, |PacketBytes(p)|)
    ensures Whole(script, all)
  {
    hide Transfer, HeaderBytes, Number;
    HeaderArrives(all, p, t);
    SteadyParts(script, 13, |p.payload|);
    if |p.payload| > 0 { SteadySucceeds(Transfer(script, 13, |all|).rest, |p.payload|, |all| - 13); }
  }

  /** On a channel steady for both the request goes out and the answer is received. */
  lemma {:induction false} SteadyExchange(script: seq<Outcome>, size: nat, all: seq<Byte>, p: Packet, t: seq<Byte>)
    requires Arrives(all, p, t) && Steady(script, 13 + size + |PacketBytes(p)|)
    ensures SendBoth(script, size).code == Ok && Whole(SendBoth(script, size).rest, all)
  {
    hide SendBoth, Reception, Steady, PacketBytes;
    SteadyLess(script, 13 + size, 13 + size + |PacketBytes(p)|);
    SendBothEnds(script, size);
    SteadyWhole(SendBoth(script, size).rest, all, p, t);
  }

  /** What has been sent: all of a message, or on a failure a proper beginning of it. */
  ghost predicate Sent(before: seq<Byte>, after: seq<Byte>, all: seq<Byte>, code: Code)
  {
    exists k: nat :: k <= |all| && SentPart(before, after, all, k) && (code == Ok <==> k == |all|)
  }

  ghost predicate SentPart(before: seq<Byte>, after: seq<Byte>, all: seq<Byte>, k: nat)
    requires k <= |all|
  {
    after == before + all[..k]
  }

  ghost predicate Received(before: seq<Byte>, after: seq<Byte>)
  {
    |after| <= |before| && after == before[|before| - |after|..]
  }

  lemma {:induction false} ReceivedMore(s: seq<Byte>, t: seq<Byte>, u: seq<Byte>, a: nat, b: nat)
    requires a <= |s| && t == s[a..] && b <= |t| && u == t[b..]
    ensures Received(s, u)
  {
    assert u == s[a + b..];
  }

  /** The message p is the next to arrive. */
  ghost predicate Arrives(arriving: seq<Byte>, p: Packet, t: seq<Byte>)
  {
    PacketOk(p) && arriving == PacketBytes(p) + t
  }

  lemma {:induction false} HeaderArrives(all: seq<Byte>, p: Packet, t: seq<Byte>)
    requires Arrives(all, p, t)
    ensures |all| >= 13 + |p.payload| && Number(all[..13][5..9]) == |p.payload|
  {
    hide HeaderBytes, Number;
    HeaderParts(p.version, p.kind, |p.payload|, p.code);
    assert all[..13] == HeaderBytes(p.version, p.kind, |p.payload|, p.code);
  }

  lemma {:induction false} TakeMore(data: seq<Byte>, done: nat, n: nat)
    requires done + n <= |data|
    ensures data[..done + n] == data[..done] + data[done..][..n]
  {
  }

  lemma {:induction false} SendOutcome(script: seq<Outcome>, n: nat)
    requires n > 0
    ensures var r := Transfer(script, n, n);
            r.moved <= n && (r.code == Ok <==> r.moved == n)
  {
    TransferEnds(script, n, n);
  }

  lemma {:induction false} RecvOutcome(script: seq<Outcome>, n: nat, arriving: seq<Byte>)
    requires n > 0
    ensures var r := Transfer(script, n, |arriving|);
            r.moved <= n && r.moved <= |arriving| && (r.code == Ok <==> r.moved == n)
  {
    TransferEnds(script, n, |arriving|);
  }

  /** A channel steady for two transfers in a row completes both. */
  lemma {:induction false} SteadyParts(script: seq<Outcome>, a: nat, b: nat)
    requires a > 0 && Steady(script, a + b)
    ensures Transfer(script, a, a).code == Ok && Steady(Transfer(script, a, a).rest, b)
    ensures b > 0 ==> Transfer(Transfer(script, a, a).rest, b, b).code == Ok
    ensures forall n: nat :: n >= a ==> Transfer(script, a, n).code == Ok && Steady(Transfer(script, a, n).rest, b)
  {
    hide Transfer;
    assert Steady(script, a);
    forall n: nat | n >= a ensures Transfer(script, a, n).code == Ok && Steady(Transfer(script, a, n).rest, b) {
      SteadySucceeds(script, a, n);
    }
    if b > 0 { SteadySucceeds(Transfer(script, a, a).rest, b, b); }
  }

  lemma {:induction false} TransferStep(script: seq<Outcome>, total: nat, available: nat)
    requires total > 0
    ensures var r := Transfer(script, total, available);
            if script == [] then r == Transferred(TransportError, 0, []) else
              match script[0]
              case TimeOut => r == Transferred(TransportError, 0, script[1..])
              case SelectError => r == Transferred(SystemError, 0, script[1..])
              case Ready(count) =>
                var n := Part(count, total, available);
                if n == 0 then r == Transferred(TransportError, 0, script[1..])
                else if n == total then r == Transferred(Ok, n, script[1..])
                else var t := Transfer(script[1..], total - n, available - n); r == t.(moved := n + t.moved)
  {
  }

  // ------------------------------------------------------------------ from one end to the other

  /** A message with the given fields, added one after another. */
  method Assemble(kind: nat, fs: seq<Field>) returns (m: Message)
    requires kind < WORD && |FieldsBytes(fs)| < WORD && forall f :: f in fs ==> FieldOk(f)
    ensures fresh(m) && m.Valid() && m.Value() == Packet(1, kind, 0, FieldsBytes(fs))
  {
    hide FieldOk, FieldBytes;
    m := new Message(kind);
    assert fs[..0] == [];
    for i := 0 to |fs|
      invariant fresh(m) && (m.raw != null ==> fresh(m.raw))
      invariant m.Valid() && m.Value() == Packet(1, kind, 0, FieldsBytes(fs[..i]))
    {
      assert fs[..i + 1] == fs[..i] + [fs[i]];
      FieldsAppend(fs[..i], fs[i]);
      FieldsPrefix(fs, i + 1);
      m.AddField(fs[i]);
    }
    assert fs[..|fs|] == fs;
  }

  lemma {:induction false} FieldsPrefix(fs: seq<Field>, n: nat)
    requires n <= |fs|
    ensures |FieldsBytes(fs[..n])| <= |FieldsBytes(fs)|
    decreases n
  {
    if n > 0 {
      assert fs[..n][1..] == fs[1..][..n - 1];
      FieldsPrefix(fs[1..], n - 1);
    }
  }

  /** What comes out of a channel that cuts what went in anywhere is the message itself. */
  lemma {:induction false} SameMessage(p: Packet, q: Packet, k: nat, n: nat, rest: seq<Byte>)
    requires PacketOk(p) && PacketOk(q) && k <= |PacketBytes(p)| && n <= k
    requires PacketBytes(p)[..k][..n] == PacketBytes(q) + rest
    ensures p == q && k == |PacketBytes(p)| && rest == []
  {
    hide PacketBytes, PacketOk;
    var all := PacketBytes(p);
    assert all == all[..n] + all[n..] && all[..k][..n] == all[..n];
    assert PacketBytes(p) + [] == PacketBytes(q) + (rest + all[n..]);
    PacketsDelimited(p, q, [], rest + all[n..]);
    assert |all[n..]| == 0;
  }

  /** One message from its fields on one side to a lookup on the other, over a channel that may fail anywhere. */
  method Transport(kind: nat, fs: seq<Field>, id: nat, outgoing: seq<Outcome>, incoming: seq<Outcome>, arrived: nat)
    returns (sending: Code, receiving: Code, m: Message?, found: bool, length: nat, at: nat)
    requires kind < WORD && |FieldsBytes(fs)| < WORD && forall f :: f in fs ==> FieldOk(f)
    ensures receiving == Ok ==>
      && sending == Ok && m != null && m.Valid() && m.Value() == Packet(1, kind, 0, FieldsBytes(fs))
      && (found <==> First(fs, id).Some?)
      && (found ==> at + length <= m.size && m.Payload()[at..at + length] == First(fs, id).value)
    ensures var n := 13 + |FieldsBytes(fs)|;
            n <= arrived && Steady(outgoing, n) && Steady(incoming, n) ==> receiving == Ok
  {
    hide Steady, FieldOk, First, PacketBytes, Whole, FieldsBytes, SendBoth, Reception;
    var original := Assemble(kind, fs);
    ghost var p := original.Value();
    var a := new Socket(outgoing, []);
    sending := a.SendMessage(original);
    var n := if arrived <= |a.sent| then arrived else |a.sent|;
    var b := new Socket(incoming, a.sent[..n]);
    ghost var there := b.arriving;
    receiving, m := b.RecvMessage();
    found, length, at := false, 0, 0;
    ghost var k: nat :| k <= |PacketBytes(p)| && SentPart([], a.sent, PacketBytes(p), k)
        && (sending == Ok <==> k == |PacketBytes(p)|);
    assert a.sent == PacketBytes(p)[..k] && there == PacketBytes(p)[..k][..n];
    if receiving == Ok {
      SameMessage(p, m.Value(), k, n, b.arriving);
      found, length, at := m.GetField(id, fs);
    }
    if 13 + |FieldsBytes(fs)| <= arrived && Steady(outgoing, 13 + |FieldsBytes(fs)|)
      && Steady(incoming, 13 + |FieldsBytes(fs)|) {
      assert there == PacketBytes(p) + [];
      SteadyWhole(incoming, there, p, []);
    }
  }
}
