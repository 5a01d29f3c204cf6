/** queue.cpp: the queue between two threads, a map from rising 32-bit numbers to messages. */
module Queues {
  import opened Messages

  /** message_map and message_id. */
  datatype State = State(items: map<nat, Packet>, last: nat)

  /** add: inserting does not replace what is already there. */
  function Added(q: State, m: Packet): (r: State)
  {
    var id := (q.last + 1) % WORD;
    State(if id in q.items then q.items else q.items[id := m], id)
  }

  function Removed(q: State, id: nat): (r: State)
  {
    State(q.items - {id}, q.last)
  }

  ghost predicate IsLeast(items: map<nat, Packet>, id: nat)
  {
    id in items && forall k :: k in items ==> id <= k
  }

  /** The number peek reports: the least in the map, or zero. */
  ghost predicate Peeks(q: State, id: nat)
  {
    if q.items == map[] then id == 0 else IsLeast(q.items, id)
  }

  lemma {:induction false} LeastExists(items: map<nat, Packet>, k: nat)
    requires k in items
    ensures exists id :: IsLeast(items, id)
    decreases k
  {
    if j :| j in items && j < k { LeastExists(items, j); }
    else { assert IsLeast(items, k); }
  }

  // ------------------------------------------------------------------ first in, first out

  /** The queue holds what was added after the first gone messages, each under its place in the order. */
  ghost predicate Holds(q: State, log: seq<Packet>, gone: nat)
  {
    && gone <= |log| == q.last && |log| < WORD
    && (forall i: nat :: i in q.items <==> gone < i <= |log|)
    && forall i: nat :: i in q.items ==> q.items[i] == log[i - 1]
  }

  lemma {:induction false} HoldsAdded(q: State, log: seq<Packet>, gone: nat, m: Packet)
    requires Holds(q, log, gone) && |log| + 1 < WORD
    ensures Holds(Added(q, m), log + [m], gone)
  {
  }

  lemma {:induction false} HoldsPeek(q: State, log: seq<Packet>, gone: nat, id: nat)
    requires Holds(q, log, gone) && Peeks(q, id)
    ensures if gone == |log| then id == 0 else id == gone + 1 && id in q.items && q.items[id] == log[gone]
  {
    if gone < |log| { assert gone + 1 in q.items; }
  }

  lemma {:induction false} HoldsRemoved(q: State, log: seq<Packet>, gone: nat)
    requires Holds(q, log, gone) && gone < |log|
    ensures Holds(Removed(q, gone + 1), log, gone + 1)
  {
  }

  /** After 2^32 messages the number is zero, which looks like an empty queue, and stays in the way for good. */
  lemma {:induction false} WrapBlocks(q: State, log: seq<Packet>, gone: nat, m: Packet, id: nat)
    requires Holds(q, log, gone) && |log| == WORD - 1 && Peeks(Added(q, m), id)
    ensures id == 0 && Blocked(Added(q, m))
  {
    assert 0 !in q.items;
    assert Added(q, m).items[0] == m;
  }

  ghost predicate Blocked(q: State)
  {
    0 in q.items
  }

  lemma {:induction false} StaysBlocked(q: State, m: Packet, id: nat)
    requires Blocked(q)
    ensures Blocked(Added(q, m)) && (id != 0 ==> Blocked(Removed(q, id))) && (Peeks(q, id) ==> id == 0)
  {
  }

  // ------------------------------------------------------------------ the class

  class Queue {
    var messageMap: map<nat, Packet>
    var messageId: nat

    ghost function Value(): (q: State)
      reads this
    {
      State(messageMap, messageId)
    }

    constructor ()
      ensures Value() == State(map[], 0) && Holds(Value(), [], 0)
    {
      messageMap, messageId := map[], 0;
    }

    /** The oldest message and its number, or zero. */
    method Peek() returns (id: nat, message: Packet)
      ensures Peeks(Value(), id)
      ensures messageMap != map[] ==> id in messageMap && message == messageMap[id]
      ensures forall log: seq<Packet>, gone: nat :: Holds(Value(), log, gone) ==>
          if gone == |log| then id == 0 else id == gone + 1 && message == log[gone]
    {
      id, message := 0, Packet(0, 0, 0, []);
      if |messageMap| > 0 {
        ghost var k :| k in messageMap;
        LeastExists(messageMap, k);
        id := Least(messageMap);
        message := messageMap[id];
      }
      forall log: seq<Packet>, gone: nat | Holds(Value(), log, gone)
        ensures if gone == |log| then id == 0 else id == gone + 1 && message == log[gone]
      {
        HoldsPeek(Value(), log, gone, id);
      }
    }

    /** Removes the message with the number, if there is one; the oldest one is the next to have gone. */
    method Remove(id: nat)
      modifies this
      ensures Value() == Removed(old(Value()), id)
      ensures forall log: seq<Packet>, gone: nat :: Holds(old(Value()), log, gone) && id == gone + 1 <= |log| ==>
          Holds(Value(), log, gone + 1)
    {
      ghost var before := Value();
      if id in messageMap {
        messageMap := messageMap - {id};
      } else {
        assert messageMap - {id} == messageMap;
      }
      forall log: seq<Packet>, gone: nat | Holds(before, log, gone) && id == gone + 1 <= |log|
        ensures Holds(Value(), log, gone + 1)
      {
        HoldsRemoved(before, log, gone);
      }
    }

    /** Adds a message behind the others, as long as the numbers last. */
    method Add(message: Packet)
      modifies this
      ensures Value() == Added(old(Value()), message)
      ensures forall log: seq<Packet>, gone: nat :: Holds(old(Value()), log, gone) && |log| + 1 < WORD ==>
          Holds(Value(), log + [message], gone)
    {
      ghost var before := Value();
      messageId := (messageId + 1) % WORD;
      if messageId !in messageMap { messageMap := messageMap[messageId := message]; }
      forall log: seq<Packet>, gone: nat | Holds(before, log, gone) && |log| + 1 < WORD
        ensures Holds(Value(), log + [message], gone)
      {
        HoldsAdded(before, log, gone, message);
      }
    }
  }

  /** Where the iteration over the map begins. */
  method Least(items: map<nat, Packet>) returns (id: nat)
    requires |items| > 0
    ensures IsLeast(items, id)
  {
    id :| id in items;
    var keys := items.Keys - {id};
    while keys != {}
      invariant id in items && keys <= items.Keys && forall k :: k in items && k !in keys ==> id <= k
      decreases |keys|
    {
      var k :| k in keys;
      if k < id { id := k; }
      keys := keys - {k};
    }
  }
}
