/** Successive calls of inflate, the input cut into any pieces and the output into any buffers: they give what
    one decoding of the whole input gives. */
module Resume {
  import opened Bits
  import opened BitWriter
  import opened BitReader
  import opened Rfc1951
  import opened Decoder
  import opened InflateWindow
  import RunLength
  import FixedTrees
  import InflateTable
  import StaticTables
  import opened Inflate

  function Flat(chunks: seq<seq<Byte>>): (r: seq<Byte>)
  {
    if chunks == [] then [] else Flat(chunks[..|chunks| - 1]) + chunks[|chunks| - 1]
  }

  /** Decoding a stream from its start. */
  function Start(size: nat, b: seq<bool>): (r: Conf)
  {
    Conf(State(Type, false, [], [], size), b)
  }

  lemma {:induction false} FlatMore(chunks: seq<seq<Byte>>, i: nat)
    requires i < |chunks|
    ensures Flat(chunks[..i + 1]) == Flat(chunks[..i]) + chunks[i]
  {
    assert chunks[..i + 1][..i] == chunks[..i];
  }

  /** A prefix of a stream whose distances fit the window is such a stream. */
  lemma {:induction false} TameBefore(c: Conf, more: seq<bool>)
    requires NeverWild(With(c, more)) && |more| % 8 == 0
    ensures NeverWild(c)
  {
    hide Run;
    RunSplit(c, more);
    if Run(c).st.phase.Wild? { RunStuck(With(Run(c), more)); }
  }

  lemma {:induction false} TamePrefix(size: nat, chunks: seq<seq<Byte>>, i: nat)
    requires i <= |chunks| && NeverWild(Start(size, BytesBits(Flat(chunks))))
    ensures NeverWild(Start(size, BytesBits(Flat(chunks[..i]))))
    decreases |chunks| - i
  {
    hide NeverWild, BytesBits;
    if i == |chunks| {
      assert chunks[..i] == chunks;
    } else {
      TamePrefix(size, chunks, i + 1);
      FlatMore(chunks, i);
      BytesConcat(Flat(chunks[..i]), chunks[i]);
      TameBefore(Start(size, BytesBits(Flat(chunks[..i]))), BytesBits(chunks[i]));
    }
  }

  /** With a window of 32768 bytes no distance is too large for it. */
  lemma {:induction false} FullWindowTame(c: Conf)
    requires c.st.size >= 32768 && !c.st.phase.Wild?
    ensures NeverWild(c)
    decreases |c.rest|, StepsLeft(c.st.phase)
  {
    hide Step, PhaseOk;
    if CanStep(c) {
      StepOk(c.st, c.rest);
      StepProgress(c.st, c.rest);
      StepTame(c.st, c.rest);
      FullWindowTame(Advance(c));
    }
  }

  lemma {:induction false} StepTame(st: State, b: seq<bool>)
    requires st.size >= 32768 && PhaseOk(st.phase) && Step(st, b).Go? && !st.phase.Wild?
    ensures !Step(st, b).st.phase.Wild?
  {
    hide Pow2, Lookup, Accepted, Field, RunLength.Apply, FixedTrees.FixedLit, FixedTrees.FixedDist, CodeLengths,
      InflateTable.Refused, StaticTables.LBase, StaticTables.LBits, StaticTables.DBase, StaticTables.DBits;
  }

  /** Where the machine can do nothing more it agrees with the run of the decoder. */
  lemma {:induction false} AtEnd(s: Inflater, c: Conf, out: array<Byte>)
    requires s.Valid() && s.At(c) && NeverWild(c)
        && (s.mode == CHECK || s.mode == BAD || s.put < out.Length)
    requires s.mode == CHECK || s.mode == BAD || s.Starved() || s.Full(out)
    ensures Run(c) == Conf(s.st, s.r.Rest())
    ensures s.mode == CHECK <==> Run(c).st.phase.Check?
    ensures s.mode == BAD <==> Run(c).st.phase.Bad?
  {
    hide Reaches, Run, NeverWild, TablesFor, PhaseOk, HoldOk, Inflater.Fixed, Inflater.TablesIn;
    RunReaches(c, Conf(s.st, s.r.Rest()));
    ModeIs(s);
    RunStuck(Conf(s.st, s.r.Rest()));
  }

  lemma {:induction false} ModeIs(s: Inflater)
    requires s.Valid()
    ensures s.mode == CHECK <==> s.st.phase.Check?
    ensures s.mode == BAD <==> s.st.phase.Bad?
  {
    hide TablesFor, PhaseOk, HoldOk, Inflater.Fixed, Inflater.TablesIn;
  }

  /** A call has stopped for another reason than a full buffer. */
  predicate Stopped(mode: Mode, put: nat, room: nat)
  {
    mode == CHECK || mode == BAD || put < room
  }

  /** One call with fresh input and a fresh buffer. */
  method Call(s: Inflater, more: seq<Byte>, room: nat, ghost prev: seq<Byte>, ghost c0: Conf) returns (outs: seq<Byte>)
    requires s.Valid() && s.At(c0) && s.st.out == prev && s.Ready(prev) && NeverWild(With(c0, BytesBits(more)))
    modifies s, s.r, s.lens, s.work, s.codes, s.win, s.win.window
    ensures s.Valid() && s.At(With(c0, BytesBits(more))) && s.st.out == prev + outs && s.Ready(s.st.out)
        && |outs| == s.put <= room
    ensures Stopped(s.mode, s.put, room) ==> Run(With(c0, BytesBits(more))) == Conf(s.st, s.r.Rest())
    ensures (s.mode == CHECK <==> s.st.phase.Check?) && (s.mode == BAD <==> s.st.phase.Bad?)
  {
    hide Reaches, NeverWild, Step, Holds;
    var out := new Byte[room];
    s.Feed(more, c0);
    s.Inflate(out, prev, With(c0, BytesBits(more)));
    outs := out[..s.put];
    ModeIs(s);
    if Stopped(s.mode, s.put, room) { AtEnd(s, With(c0, BytesBits(more)), out); }
  }

  /** Calls inflate once for every piece of input, each time with a buffer of the given size; done tells whether the
      last call stopped for another reason than a full buffer. */
  method Drive(size: nat, chunks: seq<seq<Byte>>, rooms: seq<nat>) returns (outs: seq<Byte>, s: Inflater, done: bool)
    requires size > 0 && |rooms| == |chunks| > 0
    requires size >= 32768 || NeverWild(Start(size, BytesBits(Flat(chunks))))
    ensures fresh(s) && s.Valid() && s.st.out == outs && s.r.next <= |s.r.input| && s.put <= |outs|
    ensures Reaches(Start(size, BytesBits(Flat(chunks))), Conf(s.st, s.r.Rest()))
    ensures done <==> Stopped(s.mode, s.put, rooms[|rooms| - 1])
    ensures done ==> Conf(s.st, s.r.Rest()) == Run(Start(size, BytesBits(Flat(chunks))))
    ensures (s.mode == CHECK <==> s.st.phase.Check?) && (s.mode == BAD <==> s.st.phase.Bad?)
  {
    hide Reaches, NeverWild, Step, Holds, Run, Inflater.Valid, BytesBits, Flat;
    AlwaysTame(size, BytesBits(Flat(chunks)));
    s := new Inflater(size);
    outs := [];
    done := false;
    ReachesItself(Start(size, []));
    StartFlat(chunks);
    var i := 0;
    while i < |chunks|
      invariant 0 <= i <= |chunks| && fresh(s) && fresh(s.r) && fresh(s.lens) && fresh(s.work) && fresh(s.codes)
          && fresh(s.win) && fresh(s.win.window)
      invariant s.Valid() && s.r.next <= |s.r.input| && s.At(Start(size, BytesBits(Flat(chunks[..i]))))
          && s.st.out == outs && s.Ready(outs)
      invariant i > 0 ==> (done <==> Stopped(s.mode, s.put, rooms[i - 1])) && s.put <= |outs|
      invariant i > 0 && done ==> Run(Start(size, BytesBits(Flat(chunks[..i])))) == Conf(s.st, s.r.Rest())
      invariant i > 0 ==> (s.mode == CHECK <==> s.st.phase.Check?) && (s.mode == BAD <==> s.st.phase.Bad?)
    {
      NextChunk(size, chunks, i);
      var more := Call(s, chunks[i], rooms[i], outs, Start(size, BytesBits(Flat(chunks[..i]))));
      s.Readable();
      outs := outs + more;
      done := Stopped(s.mode, s.put, rooms[i]);
      i := i + 1;
    }
    assert chunks[..i] == chunks;
  }

  lemma {:induction false} AlwaysTame(size: nat, b: seq<bool>)
    ensures size >= 32768 ==> NeverWild(Start(size, b))
  {
    hide NeverWild;
    if size >= 32768 { FullWindowTame(Start(size, b)); }
  }

  lemma {:induction false} StartFlat(chunks: seq<seq<Byte>>)
    ensures Flat(chunks[..0]) == [] && BytesBits([]) == []
  {
  }

  lemma {:induction false} NextChunk(size: nat, chunks: seq<seq<Byte>>, i: nat)
    requires i < |chunks| && NeverWild(Start(size, BytesBits(Flat(chunks))))
    ensures With(Start(size, BytesBits(Flat(chunks[..i]))), BytesBits(chunks[i])) ==
        Start(size, BytesBits(Flat(chunks[..i + 1])))
    ensures NeverWild(Start(size, BytesBits(Flat(chunks[..i + 1]))))
  {
    hide NeverWild, BytesBits, Flat;
    TamePrefix(size, chunks, i + 1);
    FlatMore(chunks, i);
    BytesConcat(Flat(chunks[..i]), chunks[i]);
  }

  lemma {:induction false} OneChunk(data: seq<Byte>)
    ensures Flat([data]) == data
  {
    assert [data][..0] == [] && [] + data == data;
  }

  /** What has been put out so far is the beginning of the whole output. */
  lemma {:induction false} Beginning(s: Inflater, c: Conf)
    requires s.r.next <= |s.r.input| && Reaches(c, Conf(s.st, s.r.Rest()))
    ensures s.st.out <= Run(c).st.out
  {
    hide Reaches, Run, Reader.Rest;
    RunReaches(c, Conf(s.st, s.r.Rest()));
    RunKeeps(Conf(s.st, s.r.Rest()));
  }

  /** However the same input and the output are cut, the output and the final state are those of a single call that
      has all the input and room for the output. */
  method Resumable(size: nat, chunks: seq<seq<Byte>>, rooms: seq<nat>, data: seq<Byte>, room: nat)
    returns (a: seq<Byte>, s: Inflater, b: seq<Byte>, t: Inflater)
    requires size > 0 && |rooms| == |chunks| > 0 && Flat(chunks) == data
    requires size >= 32768 || NeverWild(Start(size, BytesBits(data)))
    ensures a == s.st.out && b == t.st.out
    ensures Stopped(s.mode, s.put, rooms[|rooms| - 1]) && Stopped(t.mode, t.put, room) ==>
              s.st == t.st && (s.mode == CHECK <==> t.mode == CHECK) && (s.mode == BAD <==> t.mode == BAD)
    ensures Stopped(t.mode, t.put, room) ==> a <= b
  {
    hide NeverWild, Run, BytesBits, Reaches, Inflater.Valid;
    OneChunk(data);
    var done;
    a, s, done := Drive(size, chunks, rooms);
    Beginning(s, Start(size, BytesBits(data)));
    b, t, done := Drive(size, [data], [room]);
  }
}
