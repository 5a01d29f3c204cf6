/** Compressing and decompressing: whatever the loop, the pieces of the input, the pieces of the compressed data and
    the buffers for the output, inflate gives back what deflate was given. */
module RoundTrip {
  import opened Wrappers
  import opened Bits
  import opened HashKey
  import opened HashChains
  import opened History
  import opened MatchFinder
  import opened BitWriter
  import opened Rfc1951
  import opened Decoder
  import opened BlockTrip
  import opened Blocks
  import opened Compressor
  import opened Covering
  import opened Choices
  import opened RunRule
  import opened Deflate
  import opened Inflate
  import opened Resume
  import FixedTrees

  datatype Loop = Fast | Slow | Rle | Huff

  /** The state in which a loop can be called. */
  ghost predicate ReadyFor(d: Deflater, loop: Loop)
    reads d.Footprint()
  {
    match loop
    case Fast => d.FastReady()
    case Slow => d.SlowReady()
    case Rle => d.PlainReady()
    case Huff => d.HuffReady()
  }

  /** The tokens are those that the loop chooses for the input before strstart. */
  ghost predicate ToldFor(d: Deflater, loop: Loop)
    reads d.Footprint()
  {
    match loop
    case Fast => d.FastTold()
    case Slow => d.SlowTold()
    case Rle => d.RleTold()
    case Huff => d.HuffTold()
  }

  function Least(loop: Loop): (r: nat)
  {
    match loop
    case Fast => MIN_LOOKAHEAD
    case Slow => MIN_LOOKAHEAD
    case Rle => MAX_MATCH + 1
    case Huff => 1
  }

  lemma {:induction false} FreshReady(d: Deflater, loop: Loop)
    requires d.p.Valid() && d.Tallied(0) && d.p.base + d.p.strstart == 0 && d.z.lastLit == 0 && d.z.litBufsize >= 2
    requires d.matchLength == 2 && d.prevLength == 2 && !d.matchAvailable && d.p.matchStart == 0
        && d.p.blockStart == d.p.strstart
    requires d.said == [] && d.told == [] && d.p.ins == {} && d.p.insert == 0
    ensures ReadyFor(d, loop) && ToldFor(d, loop)
  {
    hide Deflater.Coding, Past.Between, Past.Hashed, Deflater.HeldMatch;
    GrownNone({}, 0, 0);
  }

  /** A call of one of the loops. */
  method RunLoop(d: Deflater, loop: Loop, flush: Flush, room: seq<bool>) returns (state: BlockState)
    requires ReadyFor(d, loop) && ToldFor(d, loop)
    modifies d.Footprint()
    ensures d.Whole() == old(d.Whole()) && d.Outcome(state, flush, room, Least(loop))
    ensures state == NeedMore || state == BlockDone ==> ReadyFor(d, loop)
    ensures ToldFor(d, loop) && d.stops == Stops(old(d.stops), flush, |d.Whole()|)
    ensures loop == Slow && state != NeedMore ==> !d.matchAvailable
  {
    hide Deflater.FastReady, Deflater.SlowReady, Deflater.PlainReady, Deflater.HuffReady, Deflater.Finished,
      Coder.Footprint, Deflater.FastTold, Deflater.SlowTold, Deflater.RleTold, Deflater.HuffTold;
    match loop {
      case Fast => state := d.DeflateFast(flush, room);
      case Slow => state := d.DeflateSlow(flush, room);
      case Rle => state := d.DeflateRle(flush, room);
      case Huff => state := d.DeflateHuff(flush, room);
    }
  }

  /** More input for a loop. */
  method Feed(d: Deflater, loop: Loop, more: seq<Byte>)
    requires ReadyFor(d, loop) && ToldFor(d, loop)
    modifies d.p`input
    ensures ReadyFor(d, loop) && ToldFor(d, loop) && d.Whole() == old(d.Whole()) + more
  {
    hide Deflater.Coding, Past.Between, Past.Hashed, Deflater.HeldMatch, Follows, Reads, Final, Standing, RunParse,
      Plain;
    d.p.Feed(more);
    assert d.p.all + (old(d.p.input) + more) == d.p.all + old(d.p.input) + more;
  }

  /** The ends of what the first n calls were given, as far as they flush. */
  function EndsOf(chunks: seq<seq<Byte>>, flushes: seq<bool>, n: nat): (r: set<nat>)
    requires n <= |chunks| == |flushes|
  {
    if n == 0 then {}
    else Stops(EndsOf(chunks, flushes, n - 1), if flushes[n - 1] then SomeFlush else NoFlush, |Flat(chunks[..n])|)
  }

  /** Compresses the pieces of input one call each, flushing a block after those where flushes says so, with room for
      output as rooms tells, and then ends the stream with one more call for each of finals until it is finished. */
  method Compress(loop: Loop, chunks: seq<seq<Byte>>, flushes: seq<bool>, rooms: seq<seq<bool>>, finals: seq<seq<bool>>,
      h: Hashing, wBits: nat, cfg: Config, filtered: bool, litBufsize: nat, level: nat, fixedOnly: bool)
    returns (out: seq<Byte>, finished: bool)
    requires |rooms| == |flushes| == |chunks| && HashingOk(h) && 9 <= wBits <= 15 && ConfigOk(cfg)
        && 2 <= litBufsize <= 32768 && level > 0
    ensures finished ==> Encodes(out, Flat(chunks), Pow2(wBits))
    ensures finished ==> EncodesBy(loop, Rules(h, Pow2(wBits), cfg, filtered, loop == Slow),
        EndsOf(chunks, flushes, |chunks|) + {|Flat(chunks)|}, fixedOnly, out, Flat(chunks))
    ensures (exists room :: room in finals && false !in room) ==> finished
  {
    hide Deflater.Footprint, Coder.Footprint, ReadyFor, Deflater.Tallied, Past.Valid, Flat, Pow2, StreamBits,
      BlocksOk, Distances, Contents, Expand, ToldFor, Sliced, Joined, Chooses, AllPicked;
    var d := new Deflater(h, wBits, cfg, filtered, litBufsize, level, fixedOnly);
    FreshReady(d, loop);
    StartFlat(chunks);
    var i: nat := 0;
    while i < |chunks|
      invariant i <= |chunks| && fresh(d.Footprint()) && ReadyFor(d, loop) && d.Whole() == Flat(chunks[..i])
      invariant ToldFor(d, loop) && d.stops == EndsOf(chunks, flushes, i)
    {
      FlatMore(chunks, i);
      InFootprint(d);
      Feed(d, loop, chunks[i]);
      var state := RunLoop(d, loop, if flushes[i] then SomeFlush else NoFlush, rooms[i]);
      i := i + 1;
    }
    assert chunks[..i] == chunks;
    finished := End(d, loop, finals);
    out := d.z.w.pending;
    if finished {
      WholeBytes(d.z.w);
      assert d.p.all + [] == d.p.all;
      assert Writes(d.blocks, out, Flat(chunks), Pow2(wBits));
      ToldChooses(d, loop);
      assert Sliced(d.blocks, d.parts) && AllPicked(d.blocks, d.parts, fixedOnly, Pow2(wBits));
    }
  }

  /** Calls with Finish, until one of them finishes the stream. */
  method End(d: Deflater, loop: Loop, finals: seq<seq<bool>>) returns (finished: bool)
    requires ReadyFor(d, loop) && ToldFor(d, loop)
    modifies d.Footprint()
    ensures d.Whole() == old(d.Whole()) && (finished ==> d.Finished() && ToldFor(d, loop))
    ensures finished ==> d.stops == old(d.stops) + {|d.Whole()|} && (loop == Slow ==> !d.matchAvailable)
    ensures (exists room :: room in finals && false !in room) ==> finished
  {
    hide Coder.Footprint, ReadyFor, Deflater.Finished, ToldFor;
    finished := false;
    var i: nat := 0;
    while i < |finals| && !finished
      invariant i <= |finals| && d.Whole() == old(d.Whole()) && ToldFor(d, loop)
      invariant if finished then d.Finished() else ReadyFor(d, loop)
      invariant d.stops == if i == 0 then old(d.stops) else old(d.stops) + {|d.Whole()|}
      invariant finished ==> i > 0 && (loop == Slow ==> !d.matchAvailable)
      invariant !finished ==> forall room :: room in finals[..i] ==> false in room
    {
      var state := RunLoop(d, loop, Finish, finals[i]);
      finished := state == FinishStarted || state == FinishDone;
      assert finals[..i + 1] == finals[..i] + [finals[i]];
      i := i + 1;
    }
    assert !finished ==> finals[..i] == finals;
  }

  /** The tokens are those that the loop chooses for the input all, when flushing calls were given the input up to
      stops: for deflate_fast and deflate_slow there are searches that find them. */
  ghost predicate Chooses(loop: Loop, r: Rules, stops: set<nat>, all: seq<Byte>, ts: seq<Token>)
  {
    match loop
    case Fast => exists ks :: Follows(r, stops, ks) && Reads(ks, all) && Ends(Final(r, ks), all, ts)
    case Slow => exists ks :: Follows(r, stops, ks) && Reads(ks, all) && Ends(Final(r, ks), all, ts)
    case Rle => RunParse(stops, all, ts, |all|)
    case Huff => Plain(all, ts, |all|)
  }

  /** All input is gone through and no byte is held back. */
  predicate Ends(s: Stage, all: seq<Byte>, ts: seq<Token>)
  {
    s.at == |all| && s.ts == ts && !s.held
  }

  lemma {:induction false} NoEnds(chunks: seq<seq<Byte>>, flushes: seq<bool>, n: nat)
    requires n <= |chunks| == |flushes| && true !in flushes
    ensures EndsOf(chunks, flushes, n) == {}
  {
    hide Flat;
    if n > 0 {
      NoEnds(chunks, flushes, n - 1);
      assert flushes[n - 1] in flushes;
    }
  }

  /** Without a flush before the end the tokens of deflate_rle are a function of the input alone. */
  lemma {:induction false} RleDetermined(r: Rules, chunks: seq<seq<Byte>>, flushes: seq<bool>, ts: seq<Token>)
    requires |chunks| == |flushes| && true !in flushes
    requires Chooses(Rle, r, EndsOf(chunks, flushes, |chunks|) + {|Flat(chunks)|}, Flat(chunks), ts)
    ensures ts == RleTokens(Flat(chunks), 0)
  {
    hide Flat, RunParse, RleTokens;
    var all := Flat(chunks);
    NoEnds(chunks, flushes, |chunks|);
    assert {} + {|all|} == {|all|};
    RunWhole(all, ts, |all|);
    RleTokensEnd(all);
    assert ts + [] == ts;
  }

  lemma {:induction false} ToldChooses(d: Deflater, loop: Loop)
    requires d.Finished() && ToldFor(d, loop) && (loop == Slow ==> !d.matchAvailable)
    ensures Chooses(loop, Rules(d.p.h, d.p.wSize, d.cfg, d.filtered, loop == Slow), d.stops, d.p.all, Joined(d.parts))
  {
    hide Follows, Reads, Final, RunParse, Plain, Expand, Contents, StreamBits, BlocksOk, Distances, Joined;
    assert Joined(d.parts) + [] == Joined(d.parts);
    match loop {
      case Fast => assert Follows(d.Law(false), d.stops, d.told) && Reads(d.told, d.p.all);
      case Slow => assert Follows(d.Law(true), d.stops, d.told) && Reads(d.told, d.p.all);
      case Rle =>
      case Huff =>
    }
  }

  /** The bytes out are a stream for data whose blocks hold the tokens that the loop chooses, except for those stored,
      each block in the form that the sizes ask for. */
  ghost predicate EncodesBy(loop: Loop, r: Rules, stops: set<nat>, fixedOnly: bool, out: seq<Byte>, data: seq<Byte>)
  {
    exists bs, parts ::
      && Writes(bs, out, data, r.size) && Sliced(bs, parts) && AllPicked(bs, parts, fixedOnly, r.size)
      && Chooses(loop, r, stops, data, Joined(parts))
  }

  /** The bytes out are a stream for the window size that stands for data. */
  ghost predicate Encodes(out: seq<Byte>, data: seq<Byte>, size: nat)
  {
    exists bs :: Writes(bs, out, data, size)
  }

  ghost predicate Writes(bs: seq<Block>, out: seq<Byte>, data: seq<Byte>, size: nat)
  {
    && bs != [] && BlocksOk(bs, size) && Distances(Contents(bs), Reach(size))
    && BytesBits(out) == StreamBits(bs, 0, size) && Expand([], Contents(bs)) == Some(data)
  }

  lemma {:induction false} InFootprint(d: Deflater)
    ensures d.p in d.Footprint()
  {
  }

  /** With no bits left over the output is whole bytes. */
  lemma {:induction false} WholeBytes(w: Writer)
    requires w.Valid() && w.biValid == 0
    ensures w.Bits() == BytesBits(w.pending)
  {
    hide Pow2, BytesBits;
    NoBits();
    assert BytesBits(w.pending) + [] == BytesBits(w.pending);
  }

  lemma {:induction false} BlockWider(blk: Block, last: bool, pos: nat, size: nat, wide: nat)
    requires BlockOk(blk, size) && size <= wide
    ensures BlockOk(blk, wide) && BlockBits(blk, last, pos, wide) == BlockBits(blk, last, pos, size)
  {
    hide HasCode, TreesFit, FixedTrees.FixedLit, FixedTrees.FixedDist, TreesBits, BodyBits, StoredBits;
  }

  lemma {:induction false} BlocksWider(bs: seq<Block>, size: nat, wide: nat)
    requires BlocksOk(bs, size) && size <= wide
    ensures BlocksOk(bs, wide)
  {
    hide BlockOk, BlockBits;
    forall i | 0 <= i < |bs| ensures BlockOk(bs[i], wide) { BlockWider(bs[i], false, 0, size, wide); }
  }

  lemma {:induction false} OneByOne(bs: seq<Block>, pos: nat, size: nat)
    requires BlocksOk(bs, size) && bs != []
    ensures BlockOk(bs[0], size) && BlocksOk(bs[1..], size)
    ensures StreamBits(bs, pos, size) == BlockBits(bs[0], |bs| == 1, pos, size)
                                         + StreamBits(bs[1..], pos + |BlockBits(bs[0], |bs| == 1, pos, size)|, size)
  {
    hide BlockOk, BlockBits, Padding;
  }

  /** A stream for one window can be read with a larger one. */
  lemma {:induction false} StreamWider(bs: seq<Block>, pos: nat, size: nat, wide: nat)
    requires BlocksOk(bs, size) && size <= wide
    ensures BlocksOk(bs, wide) && StreamBits(bs, pos, wide) == StreamBits(bs, pos, size)
    decreases |bs|
  {
    hide BlockOk, BlockBits, Padding, BlocksOk;
    BlocksWider(bs, size, wide);
    if bs != [] {
      hide StreamBits;
      OneByOne(bs, pos, size);
      OneByOne(bs, pos, wide);
      BlockWider(bs[0], |bs| == 1, pos, size, wide);
      StreamWider(bs[1..], pos + |BlockBits(bs[0], |bs| == 1, pos, size)|, size, wide);
    }
  }

  /** Decoding a stream of blocks from its start ends with what they stand for. */
  lemma {:induction false} StreamRuns(bs: seq<Block>, size: nat, wide: nat)
    requires BlocksOk(bs, size) && bs != [] && size <= wide && Expand([], Contents(bs)).Some?
    ensures Run(Start(wide, StreamBits(bs, 0, size)))
         == Conf(State(Check, true, Expand([], Contents(bs)).value, Contents(bs), wide), [])
  {
    hide Reaches, Run, BlocksOk, StreamBits, Expand, Contents;
    StreamWider(bs, 0, size, wide);
    var st := State(Type, false, [], [], wide);
    StreamTrip(st, bs, 0);
    assert [] + Contents(bs) == Contents(bs);
    var d := Conf(State(Check, true, Expand([], Contents(bs)).value, Contents(bs), wide), []);
    RunReaches(Start(wide, StreamBits(bs, 0, size)), d);
    RunStuck(d);
  }

  /** What is compressed comes back: the bytes that any of the loops makes of any input in any pieces, handed to inflate
      in any pieces and with any buffers, give that input again, and inflate is at the end of the stream.  The calls
      that end the compressed stream may lack room any number of times before one has enough. */
  method RoundTrip(loop: Loop, chunks: seq<seq<Byte>>, flushes: seq<bool>, rooms: seq<seq<bool>>,
      finals: seq<seq<bool>>, h: Hashing, wBits: nat, cfg: Config, filtered: bool, litBufsize: nat, level: nat,
      fixedOnly: bool, size: nat, buffers: seq<nat>, cut: seq<nat>)
    returns (outs: seq<Byte>, s: Inflater, done: bool)
    requires |rooms| == |flushes| == |chunks| && HashingOk(h) && 9 <= wBits <= 15 && ConfigOk(cfg)
        && 2 <= litBufsize <= 32768 && level > 0
    requires Pow2(wBits) <= size && |buffers| == |cut| + 1
    ensures outs <= Flat(chunks)
    ensures done ==> outs == Flat(chunks) && s.mode == CHECK
    ensures done <==> Stopped(s.mode, s.put, buffers[|cut|])
    ensures buffers[|cut|] > |Flat(chunks)| ==> done
  {
    hide BlocksOk, StreamBits, Expand, Contents, Distances, Flat, BytesBits, Pow2, Run, Reaches, Inflater.Valid;
    assert (finals + [[]])[|finals|] in finals + [[]];
    var bytes, finished := Compress(loop, chunks, flushes, rooms, finals + [[]], h, wBits, cfg, filtered, litBufsize,
      level, fixedOnly);
    ghost var bs :| Writes(bs, bytes, Flat(chunks), Pow2(wBits));
    var pieces := Cut(bytes, cut);
    StreamRuns(bs, Pow2(wBits), size);
    WindowSizes(wBits);
    outs, s, done := Drive(size, pieces, buffers);
    Beginning(s, Start(size, BytesBits(bytes)));
  }

  /** Cuts bytes into pieces of the given sizes, as far as they reach, and a last one. */
  method Cut(bytes: seq<Byte>, cut: seq<nat>) returns (pieces: seq<seq<Byte>>)
    ensures |pieces| == |cut| + 1 && Flat(pieces) == bytes
  {
    pieces := [];
    var rest := bytes;
    StartFlat(pieces);
    assert pieces[..0] == [] && [] + bytes == bytes;
    for i := 0 to |cut|
      invariant |pieces| == i && Flat(pieces) + rest == bytes
    {
      var n := if cut[i] <= |rest| then cut[i] else |rest|;
      var more := pieces + [rest[..n]];
      assert more[..|more| - 1] == pieces;
      assert Flat(pieces) + rest[..n] + rest[n..] == Flat(pieces) + (rest[..n] + rest[n..])
        && rest[..n] + rest[n..] == rest;
      pieces, rest := more, rest[n..];
    }
    var more := pieces + [rest];
    assert more[..|more| - 1] == pieces;
    pieces := more;
  }
}
