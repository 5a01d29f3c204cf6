/** The compressing loops of deflate.c: deflate_fast, deflate_slow, deflate_rle and deflate_huff.

    The size of each piece of input is left open, and so is whether the caller has room for the output after a
    block: room[i] says it for the i-th block that a call writes. */
module Deflate {
  import opened Wrappers
  import opened Bits
  import opened HashKey
  import opened HashChains
  import opened History
  import opened MatchFinder
  import opened RunFinder
  import opened BitWriter
  import opened Rfc1951
  import opened BlockWriter
  import opened Blocks
  import opened Compressor
  import opened Covering
  import opened Choices
  import opened RunRule

  datatype Flush = NoFlush | SomeFlush | Finish
  datatype BlockState = NeedMore | BlockDone | FinishStarted | FinishDone

  const TOO_FAR: nat := 4096

  /** The distance of a match, in 16 bits. */
  function Distance(a: nat, b: nat): (d: nat)
    ensures d < 0x1_0000
  {
    Minus(a, b) % 0x1_0000
  }

  lemma {:induction false} MinusIs(a: nat, b: nat)
    requires b <= a < 0x1_0000
    ensures Minus(a, b) == a - b == Distance(a, b)
  {
  }

  /** Sliding the window keeps the difference of two positions, even if one wraps around. */
  lemma {:induction false} MinusSlid(a: nat, b: nat, w: nat)
    requires w <= a < WRAP && b < WRAP
    ensures Minus(a - w, Minus(b, w)) == Minus(a, b)
  {
  }

  /** The largest distance of a match with a window of the given size. */
  function Reach(size: nat): (r: nat)
  {
    if size >= MIN_LOOKAHEAD then size - MIN_LOOKAHEAD else 0
  }

  /** The ends of what flushing calls were given, with one more call. */
  function Stops(stops: set<nat>, flush: Flush, end: nat): (r: set<nat>)
  {
    if flush == NoFlush then stops else stops + {end}
  }

  predicate RoomAt(room: seq<bool>, k: nat)
  {
    k < |room| ==> room[k]
  }

  class Deflater {
    const p: Past
    const z: Coder
    const cfg: Config
    /** The strategy is Z_FILTERED. */
    const filtered: bool

    var matchLength: nat
    var prevLength: nat
    var prevMatch: nat
    var matchAvailable: bool

    /** The blocks written. */
    ghost var blocks: seq<Block>
    /** How far back the match that is held back reaches. */
    ghost var dist: nat
    /** All tokens tallied, and what of them went into each block. */
    ghost var said: seq<Token>
    ghost var parts: seq<seq<Token>>
    /** What deflate_fast and deflate_slow did, and the ends of what flushing calls were given. */
    ghost var told: seq<Deed>
    ghost var stops: set<nat>

    ghost function Window(): (r: set<object>)
    {
      {p, p.window, p.prev, p.head}
    }

    ghost function Footprint(): (r: set<object>)
    {
      {this} + Window() + z.Footprint()
    }

    ghost predicate Apart()
    {
      && Window() !! z.Footprint() && this !in Window() && this !in z.Footprint() && z.level > 0 && ConfigOk(cfg)
      && z in z.Footprint() && z.w in z.Footprint()
      && p !in z.Footprint() && p.window !in z.Footprint() && p.prev !in z.Footprint() && p.head !in z.Footprint()
    }

    /** Blocks and tokens stand for the first upto bytes of the input all, the blocks for the first from; no match
        reaches farther back than the window allows. */
    ghost predicate Coding(all: seq<Byte>, from: int, upto: int, size: nat)
      reads this`blocks, this`said, this`parts, z.Footprint()
    {
      && z.Valid() && Distances(z.Tokens(), Reach(size)) && Distances(Contents(blocks), Reach(size))
        && BlocksOk(blocks, size) && Holds(blocks, parts, z.Tokens(), said)
        && AllPicked(blocks, parts, z.fixedOnly, size)
      && z.w.Bits() == SentBits(blocks, 0, size) && Covered(all, from, upto, blocks, z.Tokens())
    }

    ghost predicate Tallied(upto: int)
      reads this`blocks, this`said, this`parts, p, z.Footprint()
    {
      Apart() && Coding(p.all, p.base + p.blockStart, upto, p.wSize)
    }

    /** The input, read and unread. */
    ghost function Whole(): (r: seq<Byte>)
      reads p
    {
      p.all + p.input
    }

    /** The last block is written: the bytes put out are a whole stream that stands for all input. */
    ghost predicate Finished()
      reads this`blocks, this`said, this`parts, p, z.w
    {
      && Holds(blocks, parts, [], said) && AllPicked(blocks, parts, z.fixedOnly, p.wSize)
      && p.base + p.strstart == |p.all|
      && p.input == [] && blocks != [] && BlocksOk(blocks, p.wSize) && Distances(Contents(blocks), Reach(p.wSize))
      && z.w.Valid() && z.w.biValid == 0 && z.w.Bits() == StreamBits(blocks, 0, p.wSize)
        && Expand([], Contents(blocks)) == Some(p.all)
    }

    constructor (h: Hashing, wBits: nat, cfg: Config, filtered: bool, litBufsize: nat, level: nat, fixedOnly: bool)
      requires HashingOk(h) && 9 <= wBits <= 15 && ConfigOk(cfg) && 2 <= litBufsize <= 32768 && level > 0
      ensures fresh(Footprint()) && p.Valid() && Tallied(0) && Whole() == [] && p.all == [] && p.base + p.strstart == 0
      ensures matchLength == 2 && prevLength == 2 && !matchAvailable && z.lastLit == 0
      ensures p.blockStart == p.strstart && p.strstart == 0 && p.matchStart == 0
      ensures this.cfg == cfg && this.filtered == filtered && z.litBufsize == litBufsize && p.wSize == Pow2(wBits)
          && z.fixedOnly == fixedOnly
      ensures p.h == h && said == [] && told == [] && stops == {} && p.ins == {} && p.insert == 0 && dist == 0
    {
      hide Coder.Valid, Covered, SentBits, BlocksOk, Past.Valid, Distances, Coding, Pow2, Coder.Tokens;
      p := new Past(h, wBits);
      z := new Coder(litBufsize, level, fixedOnly);
      this.cfg, this.filtered := cfg, filtered;
      matchLength, prevLength, prevMatch, matchAvailable := 2, 2, 0, false;
      blocks, dist, said, parts, told, stops := [], 0, [], [], [], {};
      new;
      NothingCoded();
    }

    lemma {:induction false} Readable()
      requires z.Valid()
      ensures z.lastLit <= z.dBuf.Length && z.lastLit <= z.lBuf.Length && z.lastLit < z.litBufsize <= 32768
          && z.w.Valid()
    {
    }

    lemma {:induction false} Allocated()
      ensures allocated(z.Footprint())
    {
    }

    lemma {:induction false} NothingCoded()
      requires z.Valid() && blocks == [] && z.w.Bits() == [] && p.all == [] && z.lastLit == 0 && said == []
          && parts == []
      ensures Coding(p.all, 0, 0, p.wSize)
    {
      hide Coder.Footprint, Coder.Valid, Covered, Distances;
      Readable();
      CoverNone(p.all);
      NoDistances(Reach(p.wSize));
    }

    /** _tr_tally_lit. */
    method TallyLit(c: Byte, ghost upto: int) returns (bflush: bool)
      requires Tallied(upto) && z.lastLit < z.litBufsize - 1 && 0 <= upto < |p.all| && c == p.all[upto]
      modifies this`said, z.Footprint()
      ensures Tallied(upto + 1) && z.lastLit == old(z.lastLit) + 1 && (bflush <==> z.lastLit == z.litBufsize - 1)
      ensures said == old(said) + [Literal(c)]
    {
      hide Coder.Valid, Covered, SentBits, BlocksOk, Distances, Contents, Holds, AllPicked;
      Readable();
      HoldsMore(blocks, parts, z.Tokens(), said, TokenAt(0, c));
      said := said + [TokenAt(0, c)];
      CoverLiteral(p.all, p.base + p.blockStart, upto, blocks, z.Tokens());
      MoreDistances(z.Tokens(), TokenAt(0, c), Reach(p.wSize));
      bflush := z.Tally(0, c);
    }

    /** _tr_tally_dist. */
    method TallyDist(distance: nat, length: nat, ghost upto: int) returns (bflush: bool)
      requires Tallied(upto) && z.lastLit < z.litBufsize - 1 && 0 <= upto
          && Repeats(p.all, upto, distance, length + 3) && length <= 255
      requires distance <= p.MaxDist() <= 32768
      modifies this`said, z.Footprint()
      ensures Tallied(upto + length + 3) && z.lastLit == old(z.lastLit) + 1
          && (bflush <==> z.lastLit == z.litBufsize - 1)
      ensures said == old(said) + [Match(length + 3, distance)]
    {
      hide Coder.Valid, Covered, SentBits, BlocksOk, Distances, Contents, Holds, AllPicked;
      Readable();
      HoldsMore(blocks, parts, z.Tokens(), said, TokenAt(distance, length));
      said := said + [TokenAt(distance, length)];
      CoverMatch(p.all, p.base + p.blockStart, upto, blocks, z.Tokens(), length + 3, distance);
      MoreDistances(z.Tokens(), TokenAt(distance, length), Reach(p.wSize));
      bflush := z.Tally(distance, length);
    }

    /** Hands the block and, if it is still in the window, its input to _tr_flush_block. */
    method WriteBlock(last: bool) returns (ghost blk: Block)
      requires Tallied(p.base + p.strstart) && p.Core() && p.strstart <= p.filled
          && (p.blockStart >= 0 ==> p.strstart - p.blockStart <= 0xffff)
      modifies z.Footprint()
      ensures z.Valid() && z.Tokens() == [] && z.lastLit == 0 && BlockOk(blk, p.wSize)
          && 0 <= p.base + p.blockStart <= p.base + p.strstart <= |p.all|
      ensures if blk.StoredBlock? then blk.data == p.all[p.base + p.blockStart..p.base + p.strstart]
          else Content(blk) == old(z.Tokens())
      ensures Picked(blk, old(z.Tokens()), z.fixedOnly, p.wSize)
      ensures last ==> z.w.biValid == 0
      ensures var b := old(z.w.Bits()) + BlockBits(blk, last, |old(z.w.Bits())|, p.wSize);
              z.w.Bits() == if last then b + Padding(|b|) else b
    {
      hide Coder.Buffered, Coder.Footprint, Coder.Valid, Covered, SentBits, BlocksOk, ChainsOk, BlockOk, BlockBits,
        Padding, Chosen, Distances, Content, Contents, Writer.Bits, Holds, AllPicked, Tailored, Span;
      Readable();
      CoverRange(p.all, p.base + p.blockStart, p.base + p.strstart, blocks, z.Tokens());
      WiderDistances(z.Tokens(), Reach(p.wSize), p.wSize);
      var buf: Option<seq<Byte>> := None;
      if p.blockStart >= 0 {
        buf := Some(p.window[p.blockStart..p.strstart]);
        Segment(p.window[..], p.filled, p.all, p.base, p.blockStart, p.strstart);
      }
      CoverSpan(p.all, p.base + p.blockStart, p.base + p.strstart, blocks, z.Tokens());
      ghost var ts, dyn := z.Tokens(), StoredBlock([]);
      blk, dyn := z.FlushBlock(buf, p.strstart - p.blockStart, last, p.wSize);
      assert PickedFrom(blk, dyn, buf.Some?, ts, z.fixedOnly, p.wSize);
    }

    /** Writes the block and adds it to those written. */
    method EndBlock(last: bool)
      requires Tallied(p.base + p.strstart) && p.Core() && p.strstart <= p.filled
          && (p.blockStart >= 0 ==> p.strstart - p.blockStart <= 0xffff)
      requires last ==> p.input == [] && p.base + p.strstart == |p.all|
      modifies this`blocks, this`parts, z.Footprint()
      ensures z.lastLit == 0 && z.w.Valid()
      ensures if last then Finished() else Coding(p.all, p.base + p.strstart, p.base + p.strstart, p.wSize)
    {
      hide Coder.Footprint, Coder.Valid, Covered, SentBits, BlocksOk, StreamBits, ChainsOk, BlockOk, BlockBits,
        Padding, Distances, Content, Contents, Past.Core, Holds, AllPicked, Picked;
      Readable();
      ghost var ts := z.Tokens();
      ghost var blk := WriteBlock(last);
      AddBlock(p.all, p.base + p.blockStart, p.base + p.strstart, blocks, ts, blk, last, p.wSize);
      HoldsBlock(blocks, parts, ts, said, blk);
      PickedMore(blocks, parts, blk, ts, z.fixedOnly, p.wSize);
      blocks, parts := blocks + [blk], parts + [ts];
      Readable();
    }

    /** FLUSH_BLOCK_ONLY. */
    method FlushBlock(last: bool)
      requires Tallied(p.base + p.strstart) && p.Core() && p.strstart <= p.filled
          && (p.blockStart >= 0 ==> p.strstart - p.blockStart <= 0xffff)
      requires last ==> p.input == [] && p.base + p.strstart == |p.all|
      modifies p`blockStart, this`blocks, this`parts, z.Footprint()
      ensures p.blockStart == p.strstart && z.lastLit == 0 && z.w.Valid()
      ensures (old(p.Between()) ==> p.Between()) && (old(p.Valid()) ==> p.Valid()) && (old(p.Entered()) ==> p.Entered())
      ensures if last then Finished() else Tallied(p.base + p.strstart)
    {
      hide Coder.Footprint, Coding, StreamBits, BlocksOk, Distances, Contents, Past.Core, Past.Between, Past.Valid,
        Past.Entered, Holds, AllPicked;
      Allocated();
      EndBlock(last);
      p.StartBlock();
    }

    /** Reads more input. */
    method Fill(ghost upto: int)
      requires p.Between() && Tallied(upto) && p.lookahead < MIN_LOOKAHEAD
      modifies Window()
      ensures p.Between() && (old(p.Hashed()) ==> p.Hashed()) && Tallied(upto)
      ensures Whole() == old(Whole()) && old(p.all) <= p.all && p.base + p.strstart == old(p.base + p.strstart)
      ensures p.lookahead >= old(p.lookahead) && p.strstart <= p.window.Length - MIN_LOOKAHEAD
          && (old(p.strstart) > 0 ==> p.strstart > 0)
      ensures p.lookahead >= MIN_LOOKAHEAD || p.input == []
      ensures p.base == old(p.base) || (p.base == old(p.base) + p.wSize && old(p.strstart) > p.wSize)
      ensures p.base + p.blockStart == old(p.base + p.blockStart)
      ensures p.matchStart == if p.base == old(p.base) then old(p.matchStart) else Minus(old(p.matchStart), p.wSize)
      ensures p.insert == Waiting(old(p.insert), p.lookahead)
          && Grown(old(p.ins), p.ins, p.base + p.strstart - old(p.insert), p.base + p.strstart - p.insert)
    {
      hide Coding, Past.Between, Past.Hashed, Grown, Waiting;
      ghost var all := p.all;
      p.FillWindow();
      CodingMore(all, p.base + p.blockStart, upto);
    }

    /** The top of a loop: reads more input where there are fewer than least bytes ahead. */
    method Top(least: nat, ghost upto: int)
      requires p.Between() && Tallied(upto) && 1 <= least <= MIN_LOOKAHEAD
      modifies Window()
      ensures z.lastLit == old(z.lastLit) && matchLength == old(matchLength) && prevLength == old(prevLength)
          && matchAvailable == old(matchAvailable)
      ensures dist == old(dist)
      ensures p.Between() && (old(p.Hashed()) ==> p.Hashed()) && Tallied(upto)
      ensures Whole() == old(Whole()) && old(p.all) <= p.all && p.base + p.strstart == old(p.base + p.strstart)
      ensures p.strstart <= p.window.Length - least && p.window.Length <= 0x1_0000
          && (old(p.strstart) > 0 ==> p.strstart > 0)
      ensures p.lookahead >= least || p.input == []
      ensures |p.input| + p.lookahead == old(|p.input| + p.lookahead) && |p.all| == p.base + p.strstart + p.lookahead
      ensures p.base == old(p.base) || (p.base == old(p.base) + p.wSize && old(p.strstart) > p.wSize)
      ensures p.base + p.blockStart == old(p.base + p.blockStart)
      ensures p.matchStart == if p.base == old(p.base) then old(p.matchStart) else Minus(old(p.matchStart), p.wSize)
      ensures p.insert == Waiting(old(p.insert), p.lookahead) && old(p.lookahead) <= p.lookahead
          && Grown(old(p.ins), p.ins, p.base + p.strstart - old(p.insert), p.base + p.strstart - p.insert)
    {
      hide Coding, Past.Between, Past.Hashed, Past.Core, Coder.Footprint, Grown, Waiting;
      p.Waits();
      p.AtEntered();
      ghost var n := |Whole()|;
      if p.lookahead < least {
        Fill(upto);
        p.AtEntered();
      }
    }

    lemma {:induction false} CodingMore(all: seq<Byte>, from: int, upto: int)
      requires Coding(all, from, upto, p.wSize) && all <= p.all
      ensures Coding(p.all, from, upto, p.wSize)
    {
      hide Coder.Footprint, Coder.Valid, Covered, SentBits, BlocksOk, Distances, Contents;
      Readable();
      CoverMore(all, p.all, from, upto, blocks, z.Tokens());
    }

    /** The match found at strstart. */
    ghost predicate Found()
      reads this`matchLength, p`all, p`base, p`strstart, p`lookahead, p`matchStart
    {
      && MIN_MATCH <= matchLength <= MAX_MATCH && matchLength <= p.lookahead
        && p.matchStart < p.strstart <= p.matchStart + p.MaxDist()
      && Repeats(p.all, p.base + p.strstart, p.strstart - p.matchStart, matchLength)
    }

    /** The rules of deflate_slow, or those of deflate_fast. */
    ghost function Law(lazy: bool): (r: Rules)
    {
      Rules(p.h, p.wSize, cfg, filtered, lazy)
    }

    /** There are n bytes ahead, or all that a flushing call was given. */
    ghost predicate Ahead(n: nat)
      reads this`stops, p
    {
      p.lookahead >= n || |p.all| in stops
    }

    /** The strings that a search for a match longer than best looks at. */
    ghost function Looked(best: nat): (ms: seq<nat>)
      reads p`all, p`base, p`strstart, p`ins
    {
      Visited(Law(false), p.base + p.strstart, p.all, p.base, p.ins, best)
    }

    /** The match of len bytes at start, a position in the window, is what there is to find among the strings ms. */
    ghost predicate FoundAmong(ms: seq<nat>, best: nat, len: nat, start: nat)
      reads p`all, p`base, p`strstart, p`lookahead
    {
      Finds(p.all, p.base + p.strstart, ms, best, Nice(cfg, p.lookahead), if len > best then len else 0,
        p.base + if len > best then start else p.strstart)
    }

    /** What Enter tells about the head of the hash chain of the string at strstart. */
    ghost predicate HeadOf(hashHead: nat)
      reads p`all, p`base, p`strstart, p`lookahead, p`ins
    {
      && (hashHead != 0 ==> p.lookahead >= MIN_MATCH && p.Candidate(hashHead))
      && (p.lookahead < MIN_MATCH || (p.base + p.strstart + 2 < |p.all|
        && NoneBetween(p.h, p.all, p.ins, KeyHere(p), p.base + hashHead, p.base + p.strstart)))
    }

    /** The chain visits the strings that the input tells. */
    lemma {:induction false} ChainHere(hashHead: nat, best: nat)
      requires p.Entered() && p.lookahead >= MIN_MATCH && p.strstart <= p.window.Length - MIN_LOOKAHEAD && ConfigOk(cfg)
      requires HeadOf(hashHead) && 0 < hashHead < p.strstart && p.strstart - hashHead <= p.MaxDist()
      ensures p.prev.Length > 0 && Searching(p) && hashHead >= Limit(p)
      ensures var ms := ChainFrom(p.prev[..], hashHead, Limit(p), ChainLength(cfg, best));
              Moved(p.base, ms, Looked(best)) && forall m :: m in ms ==> m < p.strstart
    {
      hide ChainsOk, Primed, ChainFrom, Past.Candidate, Moved, Visited, NoneBetween, KeyAt;
      VisitedIs(p, Law(false), hashHead, best);
      EnteredIs(p);
      LimitIs(p, hashHead);
      ChainKeys(p, hashHead, ChainLength(cfg, best));
      CandidatesBefore(p, ChainFrom(p.prev[..], hashHead, Limit(p), ChainLength(cfg, best)));
    }

    /** No chain to search: the input tells no string either. */
    lemma {:induction false} NoChainHere(hashHead: nat, best: nat, len: nat, start: nat)
      requires p.Entered() && p.strstart <= p.window.Length - MIN_LOOKAHEAD && ConfigOk(cfg)
      requires HeadOf(hashHead) && (hashHead == 0 || p.strstart - hashHead > p.MaxDist()) && len <= best
      ensures FoundAmong(Looked(best), best, len, start)
    {
      hide Past.Entered, Past.Candidate, Visited, NoneBetween, KeyAt;
      VisitedIs(p, Law(false), hashHead, best);
    }

    /** Searches the chain for a match longer than best. */
    method Search(hashHead: nat, best: nat)
      requires Apart() && p.Entered() && p.lookahead >= MIN_MATCH && p.strstart <= p.window.Length - MIN_LOOKAHEAD
          && 2 <= best <= MAX_MATCH
      requires HeadOf(hashHead) && 0 < hashHead < p.strstart && p.strstart - hashHead <= p.MaxDist()
      modifies this`matchLength, p`matchStart
      ensures p.Entered() && (matchLength > best ==> Found()) && 2 <= matchLength <= MAX_MATCH
      ensures (p.matchStart == old(p.matchStart) || p.matchStart < p.strstart)
      ensures FoundAmong(Looked(best), best, matchLength, p.matchStart)
    {
      hide Past.PrimedAt, ChainsOk, Best, ChainFrom, Past.Candidate, SameRun, Repeats, Finds, Moved, Nice, HeadOf,
        Looked;
      ChainHere(hashHead, best);
      assert p.Candidate(hashHead) by { HeadIsCandidate(hashHead); }
      ghost var ms := ChainFrom(p.prev[..], hashHead, Limit(p), ChainLength(cfg, best));
      ghost var most;
      matchLength, most := LongestMatch(p, cfg, hashHead, best);
      BestRange(p, best, most);
      FindsInput(p, ms, Looked(best), best, cfg, most, matchLength, p.matchStart);
      if matchLength > best { RunRepeats(p, p.matchStart, matchLength); }
    }

    lemma {:induction false} HeadIsCandidate(hashHead: nat)
      requires HeadOf(hashHead) && hashHead != 0
      ensures p.Candidate(hashHead)
    {
      hide NoneBetween, Past.Candidate;
    }

    // ---------------------------------------------------------------- deflate_fast

    /** Before the next position: all input before strstart is tallied. */
    ghost predicate Ready()
      reads this`blocks, this`said, this`parts, Window(), z.Footprint()
    {
      p.Valid() && Tallied(p.base + p.strstart) && z.lastLit < z.litBufsize - 1
    }

    ghost predicate FastReady()
      reads Footprint()
    {
      Ready() && matchLength < MIN_MATCH && prevLength == 2
    }

    /** A literal for the byte at strstart. */
    method EmitLiteral() returns (bflush: bool)
      requires p.Entered() && Tallied(p.base + p.strstart) && z.lastLit < z.litBufsize - 1 && p.lookahead > 0
      modifies this`said, p`strstart, p`lookahead, z.Footprint()
      ensures p.Valid() && Tallied(p.base + p.strstart) && p.strstart == old(p.strstart) + 1
          && p.lookahead == old(p.lookahead) - 1
      ensures 0 <= old(p.base + p.strstart) < |p.all| && said == old(said) + [Literal(p.all[old(p.base + p.strstart)])]
      ensures z.lastLit == old(z.lastLit) + 1 && (bflush <==> z.lastLit == z.litBufsize - 1)
    {
      hide Coding, Past.Entered, Past.Valid, Past.Core;
      p.AtEntered();
      bflush := TallyLit(p.window[p.strstart], p.base + p.strstart);
      p.Advance();
    }

    /** The match at strstart, and the strings in it if it is short. */
    method EmitMatch() returns (bflush: bool)
      requires p.Entered() && Tallied(p.base + p.strstart) && z.lastLit < z.litBufsize - 1
      requires Found() && p.strstart <= p.window.Length - MIN_LOOKAHEAD
      modifies this`matchLength, this`said, p`strstart, p`lookahead, p`insH, p`ins, p`top, p.prev, p.head, z.Footprint()
      ensures p.Valid() && Tallied(p.base + p.strstart) && p.lookahead == old(p.lookahead - matchLength)
          && p.strstart == old(p.strstart + matchLength)
      ensures old(p.matchStart < p.strstart) && said == old(said) + [old(Match(matchLength, p.strstart - p.matchStart))]
      ensures if old(matchLength) <= cfg.maxLazy && p.lookahead >= MIN_MATCH
          then Grown(old(p.ins), p.ins, old(p.base + p.strstart) + 1, p.base + p.strstart) else p.ins == old(p.ins)
      ensures matchLength == 0 && z.lastLit == old(z.lastLit) + 1 && (bflush <==> z.lastLit == z.litBufsize - 1)
    {
      hide Coder.Footprint, Coding, Past.Entered, Past.Valid, Past.Core, Repeats, Minus;
      Allocated();
      p.AtEntered();
      MinusIs(p.strstart, p.matchStart);
      bflush := TallyDist(Distance(p.strstart, p.matchStart), matchLength - MIN_MATCH, p.base + p.strstart);
      p.TakeMatch(matchLength, cfg.maxLazy);
      matchLength := 0;
    }

    /** The tokens are those of deflate_fast for the input before strstart. */
    ghost predicate FastTold()
      reads this`said, this`told, this`stops, p
    {
      var s := Final(Law(false), told);
      && Follows(Law(false), stops, told) && Reads(told, p.all) && s.len == 2 && !s.held
      && Standing(s, p.base + p.strstart, p.ins, p.insert, p.lookahead, said)
    }

    /** The search of a round. */
    ghost function LookHere(best: nat, len: nat): (k: Deed)
      reads p`all, p`base, p`strstart, p`ins, p`matchStart
    {
      Look(p.base + p.strstart, p.all, p.base, p.ins, best, if len > best then len else 0,
        if len > best && p.matchStart < p.strstart then p.strstart - p.matchStart else 0)
    }

    /** The search of a round is right. */
    lemma {:induction false} LookIs(lazy: bool, s: Stage, ms: seq<nat>, best: nat, len: nat)
      requires p.Entered() && p.lookahead > 0 && Ahead(MIN_LOOKAHEAD) && s.at == p.base + p.strstart && s.len == best
      requires p.ins == Arrived(s, p.all) && FoundAmong(ms, best, len, p.matchStart)
          && (len > best ==> p.matchStart < p.strstart)
      requires ms == if lazy && best >= cfg.maxLazy then [] else Looked(best)
      ensures LookOk(Law(lazy), stops, s, LookHere(best, len))
    {
      hide ChainsOk, Past.PrimedAt, Finds, Arrived, Nice, Earlier, KeyAt;
      assert Visited(Law(lazy), p.base + p.strstart, p.all, p.base, p.ins, best) == Looked(best);
    }

    /** Inserts the string at strstart. */
    method Enter() returns (hashHead: nat)
      requires p.Valid()
      modifies p`insH, p`ins, p`top, p.prev, p.head
      ensures p.Entered() && HeadOf(hashHead) && (hashHead != 0 ==> hashHead < p.strstart)
      ensures if p.lookahead >= MIN_MATCH then p.ins == old(p.ins) + {p.base + p.strstart} else p.ins == old(p.ins)
    {
      hide Past.Valid, Past.Entered, Past.Candidate, NoneBetween, KeyAt;
      hashHead := p.Enter();
    }

    /** Inserts the string at strstart and looks for a match. */
    method FastFind() returns (ghost k: Deed)
      requires p.Valid() && Apart() && matchLength < MIN_MATCH && prevLength == 2 && p.lookahead > 0
          && p.strstart <= p.window.Length - MIN_LOOKAHEAD
      requires FastTold() && Ahead(MIN_LOOKAHEAD)
      modifies this`matchLength, p`insH, p`ins, p`top, p`matchStart, p.prev, p.head
      ensures p.Entered() && (matchLength >= MIN_MATCH ==> Found())
      ensures k == LookHere(2, matchLength) && LookOk(Law(false), stops, Final(Law(false), told), k)
    {
      hide Coder.Footprint, Past.Between, Past.Hashed, Past.Entered, Past.Candidate, Repeats, HeadOf, FoundAmong,
        Looked, LookOk,
        Standing, Arrived, Follows, Reads, Past.Core;
      ghost var s, ins := Final(Law(false), told), p.ins;
      p.AtEntered();
      var hashHead := Enter();
      StandingLook(s, p.base + p.strstart, ins, p.insert, p.lookahead, said, p.ins, p.all);
      StandingIs(s, p.base + p.strstart, ins, p.insert, p.lookahead, said);
      if hashHead != 0 && p.strstart - hashHead <= p.MaxDist() {
        HeadAhead(hashHead);
        Search(hashHead, prevLength);
      } else {
        NoChainHere(hashHead, 2, matchLength, p.matchStart);
      }
      LookIs(false, s, Looked(2), 2, matchLength);
      k := LookHere(2, matchLength);
    }

    lemma {:induction false} HeadAhead(hashHead: nat)
      requires HeadOf(hashHead) && hashHead != 0
      ensures p.lookahead >= MIN_MATCH
    {
      hide NoneBetween, Past.Candidate;
    }

    /** Behind the search k of a round, from the stage s on. */
    ghost predicate FastSeen(s: Stage, k: Deed)
      reads Footprint()
    {
      && p.Entered() && Tallied(p.base + p.strstart) && z.lastLit < z.litBufsize - 1 && p.lookahead > 0
      && p.strstart <= p.window.Length - MIN_LOOKAHEAD && k == LookHere(2, matchLength) && prevLength == 2
      && (matchLength >= MIN_MATCH ==> Found()) && p.insert == Waiting(s.waiting, p.lookahead) <= 2 && s.ts == said
      && Follows(Law(false), stops, told) && Reads(told, p.all) && Final(Law(false), told) == Next(Law(false), s, k)
    }

    /** Inserts the string at strstart and looks for a match. */
    method FastLook() returns (ghost s: Stage, ghost k: Deed)
      requires FastReady() && p.lookahead > 0 && p.strstart <= p.window.Length - MIN_LOOKAHEAD
      requires FastTold() && Ahead(MIN_LOOKAHEAD)
      modifies this`matchLength, this`told, p`insH, p`ins, p`top, p`matchStart, p.prev, p.head
      ensures FastSeen(s, k)
    {
      hide Coder.Footprint, Coding, Past.Entered, Past.Between, Past.Hashed, Repeats, Standing, Follows, Reads,
        LookOk, Waiting, Next,
        Found, Past.Core, Final;
      Allocated();
      s := Final(Law(false), told);
      StandingIs(s, p.base + p.strstart, p.ins, p.insert, p.lookahead, said);
      p.Waits();
      p.AtEntered();
      k := FastFind();
      FollowsNext(Law(false), stops, told, k, p.all);
      told := told + [k];
    }

    /** Tallies what the search of a round tells. */
    method FastEmit(ghost s: Stage, ghost k: Deed) returns (bflush: bool)
      requires FastSeen(s, k)
      modifies this`matchLength, this`said, p`strstart, p`lookahead, p`insH, p`ins, p`top, p.prev, p.head, z.Footprint()
      ensures p.Valid() && Tallied(p.base + p.strstart) && p.lookahead < old(p.lookahead) && FastTold()
          && p.strstart <= old(p.strstart) + MAX_MATCH
      ensures matchLength < MIN_MATCH && z.lastLit <= z.litBufsize - 1 && (bflush <==> z.lastLit == z.litBufsize - 1)
    {
      hide Coding, Past.Entered, Past.Between, Past.Hashed, Past.Core, Repeats, Grown, Follows, Reads, Standing,
        Next, Final,
        Waiting;
      p.AtEntered();
      if matchLength >= MIN_MATCH { bflush := EmitMatch(); } else { bflush := EmitLiteral(); }
      p.Waits();
      p.AtEntered();
      GreedyStanding(Law(false), s, k, p.base + p.strstart, p.ins, p.insert, p.lookahead, said);
    }

    /** One round of deflate_fast behind fill_window. */
    method FastStep() returns (bflush: bool)
      requires FastReady() && p.lookahead > 0 && p.strstart <= p.window.Length - MIN_LOOKAHEAD
      requires FastTold() && Ahead(MIN_LOOKAHEAD)
      modifies this`matchLength, this`said, this`told, p`strstart, p`lookahead, p`insH, p`ins, p`top, p`matchStart,
        p.prev, p.head, z.Footprint()
      ensures p.Valid() && Tallied(p.base + p.strstart) && p.lookahead < old(p.lookahead)
          && p.strstart <= old(p.strstart) + MAX_MATCH && FastTold()
      ensures matchLength < MIN_MATCH && z.lastLit <= z.litBufsize - 1 && (bflush <==> z.lastLit == z.litBufsize - 1)
    {
      hide FastReady, FastTold, FastSeen, Coder.Footprint, Coding, Past.Valid, Past.Core;
      ghost var s, k := FastLook();
      bflush := FastEmit(s, k);
    }

    /** FLUSH_BLOCK: true when there is no room left for more output. */
    method Flush(room: seq<bool>, k: nat) returns (full: bool)
      requires p.Between() && Tallied(p.base + p.strstart)
          && (p.blockStart >= 0 ==> p.strstart - p.blockStart <= 0xffff)
      modifies p`blockStart, this`blocks, this`parts, z.Footprint()
      ensures p.Between() && (old(p.Valid()) ==> p.Valid()) && Tallied(p.base + p.strstart)
          && p.blockStart == p.strstart && z.lastLit == 0
      ensures full <==> !RoomAt(room, k)
    {
      hide Coding, Past.Valid, Past.Core, Past.Between;
      p.AtEntered();
      FlushBlock(false);
      full := k < |room| && !room[k];
    }

    /** The end of a call: what is left is written, unless more input may follow. */
    method Close(flush: Flush, insert: nat, room: seq<bool>, k: nat) returns (state: BlockState)
      requires p.Between() && Tallied(p.base + p.strstart) && p.lookahead == 0 && p.input == [] && flush != NoFlush
      requires insert < MIN_MATCH && insert <= p.strstart && (p.blockStart >= 0 ==> p.strstart - p.blockStart <= 0xffff)
      modifies p`insert, p`blockStart, this`blocks, this`parts, z.Footprint()
      ensures flush == Finish ==>
          Finished() && (state == FinishDone || (state == FinishStarted && !RoomAt(room, k)))
      ensures p.insert == insert
      ensures flush != Finish ==>
          && (state == BlockDone || (state == NeedMore && !RoomAt(room, k)))
          && p.Valid() && Tallied(p.base + p.strstart) && z.lastLit == 0
          && (p.blockStart == p.strstart || (old(z.lastLit) == 0 && p.blockStart == old(p.blockStart)))
    {
      hide Coding, Past.Core, Past.Between, Past.Hashed;
      p.Wait(insert);
      p.AtEntered();
      if flush == Finish {
        FlushBlock(true);
        state := if k < |room| && !room[k] then FinishStarted else FinishDone;
        return;
      }
      state := BlockDone;
      if z.lastLit != 0 {
        var full := Flush(room, k);
        if full { state := NeedMore; }
      }
    }

    /** What a call of one of the loops leaves: all input read and not read is kept, a finished stream stands for all
        of it, and it goes on later only for want of room or of more input. */
    ghost predicate Outcome(state: BlockState, flush: Flush, room: seq<bool>, least: nat)
      reads this`blocks, this`said, this`parts, p, z.w
    {
      match state
      case NeedMore => (flush == NoFlush && p.input == [] && p.lookahead < least) || false in room
      case BlockDone => flush == SomeFlush && p.input == [] && p.lookahead == 0
      case FinishStarted => flush == Finish && Finished() && false in room
      case FinishDone => flush == Finish && Finished()
    }

    /** How many strings wait at the end of a call. */
    function AtEnd(): (n: nat)
      reads p
    {
      if p.strstart < MIN_MATCH - 1 then p.strstart else MIN_MATCH - 1
    }

    /** deflate_fast. */
    method DeflateFast(flush: Flush, room: seq<bool>) returns (state: BlockState)
      requires FastReady() && FastTold()
      modifies Footprint()
      ensures Whole() == old(Whole()) && old(p.all) <= p.all && Outcome(state, flush, room, MIN_LOOKAHEAD)
      ensures state == NeedMore || state == BlockDone ==> FastReady()
      ensures state == BlockDone ==> z.lastLit == 0
      ensures FastTold() && stops == Stops(old(stops), flush, |Whole()|)
    {
      hide Coder.Footprint, Coding, Past.Between, Past.Hashed, Past.Core, Finished, Standing, Follows, Reads, Grown,
        Waiting;
      var k: nat := 0;
      stops := Stops(stops, flush, |Whole()|);
      FollowsStops(Law(false), old(stops), stops, told);
      while true
        invariant FastReady() && Whole() == old(Whole()) && old(p.all) <= p.all
        invariant FastTold() && stops == Stops(old(stops), flush, |Whole()|)
        decreases |p.input| + p.lookahead
      {
        FastTop();
        if p.lookahead < MIN_LOOKAHEAD {
          if flush == NoFlush { return NeedMore; }
          if p.lookahead == 0 { break; }
          assert p.all + [] == p.all;
        }
        var full;
        k, full := FastRound(room, k);
        if full { return NeedMore; }
      }
      state := FastEnd(flush, room, k);
    }

    /** A round of deflate_fast and the block it may complete, which is the k-th of the call. */
    method FastRound(room: seq<bool>, k: nat) returns (n: nat, full: bool)
      requires FastReady() && p.lookahead > 0 && p.strstart <= p.window.Length - MIN_LOOKAHEAD
          && p.window.Length <= 0x1_0000
      requires FastTold() && Ahead(MIN_LOOKAHEAD)
      modifies this`matchLength, this`said, this`told, p`strstart, p`lookahead, p`insH, p`ins, p`top, p`matchStart,
        p.prev, p.head, p`blockStart, this`blocks, this`parts, z.Footprint()
      ensures FastReady() && FastTold() && p.lookahead < old(p.lookahead) && (full ==> !RoomAt(room, k))
    {
      hide Coding, Past.Between, Past.Hashed, Past.Core, Standing, Follows, Reads, RoomAt, Grown, Waiting;
      n, full := k, false;
      var bflush := FastStep();
      if bflush {
        full := Flush(room, k);
        n := k + 1;
      }
    }

    /** Reads more input. */
    method FastTop()
      requires FastReady() && FastTold()
      modifies Window()
      ensures FastReady() && FastTold() && Whole() == old(Whole()) && old(p.all) <= p.all
          && |p.input| + p.lookahead == old(|p.input| + p.lookahead)
      ensures p.strstart <= p.window.Length - MIN_LOOKAHEAD && p.window.Length <= 0x1_0000
          && (p.lookahead >= MIN_LOOKAHEAD || p.input == [])
    {
      hide Coder.Footprint, Coding, Past.Between, Past.Hashed, Past.Core, Standing, Follows, Reads, Grown, Waiting;
      ghost var all, ins, insert, lookahead := p.all, p.ins, p.insert, p.lookahead;
      Top(MIN_LOOKAHEAD, p.base + p.strstart);
      ReadsMore(told, all, p.all);
      StandingMore(Final(Law(false), told), p.base + p.strstart, ins, insert, lookahead, said, p.ins, p.insert,
        p.lookahead);
    }

    /** The end of deflate_fast. */
    method FastEnd(flush: Flush, room: seq<bool>, k: nat) returns (state: BlockState)
      requires FastReady() && FastTold() && p.lookahead == 0 && p.input == [] && flush != NoFlush && |p.all| in stops
          && p.strstart <= 0xffff
      modifies this`told, p`insert, p`blockStart, this`blocks, this`parts, z.Footprint()
      ensures Outcome(state, flush, room, MIN_LOOKAHEAD) && FastTold()
      ensures state == NeedMore || state == BlockDone ==> FastReady()
      ensures state == BlockDone ==> z.lastLit == 0
    {
      hide Coder.Footprint, Coding, Past.Between, Past.Hashed, Past.Core, Finished, Standing, Follows, Reads, Grown,
        Waiting,
        Next, Final;
      ghost var s, was := Final(Law(false), told), p.insert;
      p.AtEntered();
      StandingIs(s, p.base + p.strstart, p.ins, was, 0, said);
      FollowsNext(Law(false), stops, told, Stop(p.all), p.all);
      told := told + [Stop(p.all)];
      state := Close(flush, AtEnd(), room, k);
      StopStanding(Law(false), s, p.all, p.ins, was, p.insert, said);
    }

    // ---------------------------------------------------------------- deflate_slow

    /** A match of length len and distance d for the string one byte before strstart; start is its position, which
        wraps around when it has left the window. */
    ghost predicate HeldMatch(len: nat, start: nat, d: nat)
      reads p`all, p`base, p`strstart
    {
      && MIN_MATCH <= len <= MAX_MATCH && 1 <= d <= p.MaxDist() && p.strstart > 0 && start < WRAP
        && Minus(p.strstart - 1, start) == d
      && Repeats(p.all, p.base + p.strstart - 1, d, len)
    }

    /** Before the next position: all input before strstart is tallied, except for one byte that may be held back
        together with the match found for it. */
    ghost predicate SlowReady()
      reads Footprint()
    {
      && p.Valid() && z.lastLit < z.litBufsize - 1 && 2 <= matchLength <= MAX_MATCH
        && (matchAvailable ==> p.strstart > 0)
      && Tallied(p.base + p.strstart - if matchAvailable then 1 else 0) && p.matchStart < WRAP
      && (matchLength >= MIN_MATCH ==> matchAvailable && HeldMatch(matchLength, p.matchStart, dist))
    }

    /** The tokens are those of deflate_slow for the input before strstart, but for a byte held back. */
    ghost predicate SlowTold()
      reads this`said, this`told, this`stops, this`matchAvailable, this`matchLength, this`dist, p
    {
      var s := Final(Law(true), told);
      && Follows(Law(true), stops, told) && Reads(told, p.all)
      && s.held == matchAvailable && s.len == matchLength && (s.len >= 3 ==> s.dist == dist)
      && Standing(s, p.base + p.strstart, p.ins, p.insert, p.lookahead, said)
    }

    /** Reads more input; a match held back stays one. */
    method SlowTop()
      requires SlowReady() && SlowTold()
      modifies Window()
      ensures SlowReady() && SlowTold() && Whole() == old(Whole()) && old(p.all) <= p.all
          && |p.input| + p.lookahead == old(|p.input| + p.lookahead)
      ensures p.strstart <= p.window.Length - MIN_LOOKAHEAD && p.window.Length <= 0x1_0000
          && (p.lookahead >= MIN_LOOKAHEAD || p.input == [])
    {
      hide Coder.Footprint, Coding, Past.Between, Past.Hashed, Past.Core, Repeats, Minus, Tallied, Standing, Follows,
        Reads,
        Grown, Waiting;
      p.AtEntered();
      ghost var all, s, b, m := p.all, p.strstart, p.base, p.matchStart;
      ghost var ins, insert, lookahead := p.ins, p.insert, p.lookahead;
      Top(MIN_LOOKAHEAD, p.base + p.strstart - if matchAvailable then 1 else 0);
      MinusBound(m, p.wSize);
      if matchLength >= MIN_MATCH {
        RepeatsMore(all, p.all, b + s - 1, dist, matchLength);
        if p.base != b { MinusSlid(s - 1, m, p.wSize); }
      }
      ReadsMore(told, all, p.all);
      StandingMore(Final(Law(true), told), p.base + p.strstart, ins, insert, lookahead, said, p.ins, p.insert,
        p.lookahead);
    }

    /** The strings that a search for a match longer than best looks at, unless best is good enough not to search. */
    ghost function LazyLooked(best: nat): (ms: seq<nat>)
      reads p`all, p`base, p`strstart, p`ins
    {
      if best >= cfg.maxLazy then [] else Looked(best)
    }

    /** Looks for a match better than the one held back, of length raw; short ones that reach far back are not taken. */
    method SlowSearch(hashHead: nat) returns (ghost raw: nat)
      requires Apart() && p.Entered() && p.strstart <= p.window.Length - MIN_LOOKAHEAD && 2 <= prevLength <= MAX_MATCH
      requires p.matchStart < WRAP && p.strstart < 0x1_0000 && HeadOf(hashHead)
          && (hashHead != 0 ==> hashHead < p.strstart)
      modifies this`matchLength, p`matchStart
      ensures p.Entered() && p.matchStart < WRAP && 2 <= matchLength <= MAX_MATCH
          && (matchLength >= MIN_MATCH && matchLength > prevLength ==> Found())
      ensures FoundAmong(LazyLooked(prevLength), prevLength, raw, p.matchStart)
          && (raw > prevLength ==> p.matchStart < p.strstart)
      ensures Taken(Law(true), LookHere(prevLength, raw)) == if matchLength > prevLength then matchLength else 2
    {
      hide Coder.Footprint, Past.Entered, Past.Candidate, Repeats, HeadOf, FoundAmong, Looked, Minus;
      matchLength := MIN_MATCH - 1;
      raw := matchLength;
      if hashHead != 0 && prevLength < cfg.maxLazy && p.strstart - hashHead <= p.MaxDist() {
        HeadAhead(hashHead);
        Search(hashHead, prevLength);
        raw := matchLength;
        if raw > prevLength { MinusIs(p.strstart, p.matchStart); }
        if matchLength <= 5 && (filtered || (matchLength == MIN_MATCH && Minus(p.strstart, p.matchStart) > TOO_FAR)) {
          matchLength := MIN_MATCH - 1;
        }
      } else if prevLength < cfg.maxLazy {
        NoChainHere(hashHead, prevLength, raw, p.matchStart);
      } else {
        NoneAmong(prevLength, raw, p.matchStart);
      }
    }

    lemma {:induction false} NoneAmong(best: nat, len: nat, start: nat)
      requires len <= best
      ensures FoundAmong([], best, len, start)
    {
    }

    /** Inserts the string at strstart and looks for a match better than the one held back. */
    method SlowFind() returns (ghost k: Deed)
      requires p.Valid() && Apart() && p.lookahead > 0 && p.strstart <= p.window.Length - MIN_LOOKAHEAD
          && p.matchStart < WRAP && p.window.Length <= 0x1_0000
      requires 2 <= matchLength <= MAX_MATCH
          && (matchLength >= MIN_MATCH ==> HeldMatch(matchLength, p.matchStart, dist))
      requires SlowTold() && Ahead(MIN_LOOKAHEAD)
      modifies this`matchLength, this`prevLength, this`prevMatch, p`insH, p`ins, p`top, p`matchStart, p.prev, p.head
      ensures p.Entered() && p.matchStart < WRAP && prevLength == old(matchLength) && 2 <= matchLength <= MAX_MATCH
          && (matchLength >= MIN_MATCH && matchLength > prevLength ==> Found())
      ensures prevLength >= MIN_MATCH ==> HeldMatch(prevLength, prevMatch, dist)
      ensures k.Look? && k.seen == p.all && k.at == p.base + p.strstart && k.ins == p.ins
          && LookOk(Law(true), stops, Final(Law(true), told), k)
      ensures Taken(Law(true), k) == if matchLength > prevLength then matchLength else 2
      ensures matchLength > prevLength ==> p.matchStart < p.strstart && k.dist == p.strstart - p.matchStart
    {
      hide Coder.Footprint, Past.Between, Past.Hashed, Past.Entered, Past.Candidate, HeldMatch, Minus, HeadOf,
        FoundAmong, Looked, LookOk, Standing, Arrived, Follows, Reads, Past.Core, Repeats, Final;
      ghost var s, ins := Final(Law(true), told), p.ins;
      StandingIs(s, p.base + p.strstart, ins, p.insert, p.lookahead, said);
      p.AtEntered();
      var hashHead := Enter();
      StandingLook(s, p.base + p.strstart, ins, p.insert, p.lookahead, said, p.ins, p.all);
      prevLength, prevMatch := matchLength, p.matchStart;
      ghost var raw := SlowSearch(hashHead);
      LookIs(true, s, LazyLooked(prevLength), prevLength, raw);
      k := LookHere(prevLength, raw);
    }

    /** Behind the search k of a round, from the stage s on. */
    ghost predicate SlowSeen(s: Stage, k: Deed)
      reads Footprint()
    {
      && p.Entered() && Tallied(p.base + p.strstart - if matchAvailable then 1 else 0) && p.lookahead > 0
      && z.lastLit < z.litBufsize - 1 && p.matchStart < WRAP && p.strstart <= p.window.Length - MIN_LOOKAHEAD
      && p.window.Length <= 0x1_0000 && 2 <= matchLength <= MAX_MATCH && (matchAvailable ==> p.strstart > 0)
      && (prevLength >= MIN_MATCH ==> matchAvailable && HeldMatch(prevLength, prevMatch, dist))
      && (matchLength >= MIN_MATCH && matchLength > prevLength ==>
        Found() && k.Look? && k.dist == p.strstart - p.matchStart)
      && k.Look? && k.seen == p.all && k.at == p.base + p.strstart == s.at && k.ins == p.ins
      && Taken(Law(true), k) == (if matchLength > prevLength then matchLength else 2)
      && s.ts == said && s.held == matchAvailable && s.len == prevLength >= 2 && (s.len >= 3 ==> s.dist == dist)
      && p.insert == Waiting(s.waiting, p.lookahead) <= 2
      && Follows(Law(true), stops, told) && Reads(told, p.all) && Final(Law(true), told) == Next(Law(true), s, k)
    }

    /** Inserts the string at strstart and looks for a match better than the one held back. */
    method SlowLook() returns (ghost s: Stage, ghost k: Deed)
      requires SlowReady() && p.lookahead > 0 && p.strstart <= p.window.Length - MIN_LOOKAHEAD
          && p.window.Length <= 0x1_0000
      requires SlowTold() && Ahead(MIN_LOOKAHEAD)
      modifies this`matchLength, this`prevLength, this`prevMatch, this`told, p`insH, p`ins, p`top, p`matchStart, p.prev,
        p.head
      ensures SlowSeen(s, k)
    {
      hide Coder.Footprint, Coding, Past.Entered, Past.Between, Past.Hashed, HeldMatch, Standing, Follows, Reads,
        LookOk, Waiting, Next,
        Found, Past.Core, Final, Taken, Law;
      Allocated();
      s := Final(Law(true), told);
      StandingIs(s, p.base + p.strstart, p.ins, p.insert, p.lookahead, said);
      p.Waits();
      p.AtEntered();
      k := SlowFind();
      FollowsNext(Law(true), stops, told, k, p.all);
      told := told + [k];
    }

    /** Tallies the match held back. */
    method TallyHeld() returns (bflush: bool)
      requires p.Shape() && Tallied(p.base + p.strstart - 1) && z.lastLit < z.litBufsize - 1
          && HeldMatch(prevLength, prevMatch, dist)
      modifies this`said, z.Footprint()
      ensures Tallied(p.base + p.strstart - 1 + prevLength) && z.lastLit == old(z.lastLit) + 1
          && (bflush <==> z.lastLit == z.litBufsize - 1) && said == old(said) + [Match(prevLength, dist)]
    {
      hide Coder.Footprint, Coding, Minus, Repeats;
      RepeatsFit(p.all, p.base + p.strstart - 1, dist, prevLength);
      bflush := TallyDist(Distance(p.strstart - 1, prevMatch), prevLength - MIN_MATCH, p.base + p.strstart - 1);
    }

    lemma {:induction false} HeldFits()
      requires HeldMatch(prevLength, prevMatch, dist)
      ensures MIN_MATCH <= prevLength <= MAX_MATCH && p.strstart > 0 && p.base + p.strstart - 1 + prevLength <= |p.all|
    {
      hide Minus;
    }

    /** The match held back is taken. */
    method SlowMatch() returns (bflush: bool)
      requires p.Entered() && Tallied(p.base + p.strstart - 1) && z.lastLit < z.litBufsize - 1
          && HeldMatch(prevLength, prevMatch, dist)
      modifies this`matchLength, this`prevLength, this`matchAvailable, this`said, p`strstart, p`lookahead, p`insH,
        p`ins, p`top, p.prev, p.head, z.Footprint()
      ensures p.Valid() && Tallied(p.base + p.strstart) && p.lookahead < old(p.lookahead)
          && p.strstart == old(p.strstart + prevLength) - 1 && p.strstart <= old(p.strstart) + MAX_MATCH
      ensures said == old(said) + [Match(old(prevLength), dist)]
          && Grown(old(p.ins), p.ins, p.base + old(p.strstart) + 1,
            if p.base + p.strstart <= |p.all| - 2 then p.base + p.strstart else |p.all| - 2)
      ensures matchLength == 2 && !matchAvailable && z.lastLit == old(z.lastLit) + 1
          && (bflush <==> z.lastLit == z.litBufsize - 1)
    {
      hide Coder.Footprint, Coding, Past.Entered, Past.Between, Past.Hashed, Past.Core, HeldMatch, Grown;
      Allocated();
      p.AtEntered();
      HeldFits();
      bflush := TallyHeld();
      p.TakeHeld(prevLength);
      prevLength := 0;
      matchAvailable := false;
      matchLength := MIN_MATCH - 1;
    }

    /** The byte held back is put out as a literal; true when there is no room left behind the block. */
    method SlowLiteral(room: seq<bool>, k: nat) returns (bflush: bool, full: bool)
      requires p.Entered() && Tallied(p.base + p.strstart - 1) && z.lastLit < z.litBufsize - 1
          && 0 < p.strstart <= 0xffff
      modifies p`blockStart, this`blocks, this`parts, this`said, z.Footprint()
      ensures p.Entered() && Tallied(p.base + p.strstart) && z.lastLit < z.litBufsize - 1
      ensures 0 < p.base + p.strstart <= |p.all| && said == old(said) + [Literal(p.all[p.base + p.strstart - 1])]
          && (full <==> bflush && !RoomAt(room, k))
    {
      hide Coding, Past.Entered, Past.Valid, Past.Core;
      p.AtEntered();
      bflush := TallyLit(p.window[p.strstart - 1], p.base + p.strstart - 1);
      if bflush { FlushBlock(false); }
      full := bflush && k < |room| && !room[k];
    }

    /** Holds the byte at strstart back, with the match found for it. */
    method Hold()
      requires p.Entered() && p.lookahead > 0 && Tallied(p.base + p.strstart) && z.lastLit < z.litBufsize - 1
          && p.matchStart < WRAP
      requires 2 <= matchLength <= MAX_MATCH && (matchLength >= MIN_MATCH ==> Found())
      modifies this`matchAvailable, this`dist, p`strstart, p`lookahead
      ensures SlowReady() && p.lookahead == old(p.lookahead) - 1 && p.strstart == old(p.strstart) + 1
      ensures matchAvailable && (matchLength >= MIN_MATCH ==> dist == old(p.strstart) - p.matchStart)
    {
      hide Coding, Past.Entered, Past.Valid, Past.Core, Repeats, Minus;
      p.AtEntered();
      matchAvailable := true;
      if matchLength >= MIN_MATCH {
        dist := p.strstart - p.matchStart;
        MinusIs(p.strstart, p.matchStart);
      }
      p.Advance();
    }

    /** The match held back is taken, and the block written if it is complete. */
    method SlowTake(room: seq<bool>, k: nat, ghost s: Stage, ghost look: Deed) returns (bflush: bool, full: bool)
      requires SlowSeen(s, look) && prevLength >= MIN_MATCH && matchLength <= prevLength
      modifies this`matchLength, this`prevLength, this`matchAvailable, this`said, p`strstart, p`lookahead, p`insH,
        p`ins, p`top, p.prev, p.head, p`blockStart, this`blocks, this`parts, z.Footprint()
      ensures SlowReady() && SlowTold() && p.lookahead < old(p.lookahead) && (full <==> bflush && !RoomAt(room, k))
    {
      hide Coding, Past.Entered, Past.Between, Past.Hashed, Past.Core, HeldMatch, Grown, Waiting, Next, Standing, Found,
        Follows, Reads, Final, Taken;
      HeldFits();
      p.AtEntered();
      full := false;
      bflush := SlowMatch();
      if bflush { full := Flush(room, k); }
      p.AtEntered();
      p.Waits();
      TakenStanding(Law(true), s, look, p.base + p.strstart, p.ins, p.insert, p.lookahead, said);
    }

    /** The byte held back is put out, and the current one held back. */
    method SlowHold(room: seq<bool>, k: nat, ghost s: Stage, ghost look: Deed) returns (bflush: bool, full: bool)
      requires SlowSeen(s, look) && (prevLength < MIN_MATCH || matchLength > prevLength)
      modifies this`matchAvailable, this`dist, this`said, p`strstart, p`lookahead, p`blockStart, this`blocks,
        this`parts, z.Footprint()
      ensures SlowReady() && SlowTold() && p.lookahead < old(p.lookahead) && (full <==> bflush && !RoomAt(room, k))
    {
      hide Coding, Past.Entered, Past.Between, Past.Hashed, Past.Core, HeldMatch, Grown, Waiting, Next, Standing, Found,
        Taken, Follows, Reads, Final;
      p.AtEntered();
      bflush, full := false, false;
      if matchAvailable { bflush, full := SlowLiteral(room, k); }
      assert said == s.ts + HeldByte(s, look.seen);
      Hold();
      p.Waits();
      HeldStanding(Law(true), s, look, p.ins, p.insert, p.lookahead, said);
    }

    /** One round of deflate_slow behind fill_window. */
    method SlowStep(room: seq<bool>, k: nat) returns (bflush: bool, full: bool)
      requires SlowReady() && p.lookahead > 0 && p.strstart <= p.window.Length - MIN_LOOKAHEAD
          && p.window.Length <= 0x1_0000
      requires SlowTold() && Ahead(MIN_LOOKAHEAD)
      modifies this`matchLength, this`prevLength, this`prevMatch, this`matchAvailable, this`dist, this`said, this`told,
        this`blocks, this`parts, p`strstart, p`lookahead, p`insH, p`ins, p`top, p`matchStart, p`blockStart, p.prev,
        p.head, z.Footprint()
      ensures SlowReady() && SlowTold()
      ensures p.lookahead < old(p.lookahead) && (full <==> bflush && !RoomAt(room, k))
    {
      hide SlowReady, SlowTold, SlowSeen, Coder.Footprint, Coding, Past.Core;
      ghost var s, look := SlowLook();
      if prevLength >= MIN_MATCH && matchLength <= prevLength {
        bflush, full := SlowTake(room, k, s, look);
      } else {
        bflush, full := SlowHold(room, k, s, look);
      }
    }

    /** deflate_slow. */
    method DeflateSlow(flush: Flush, room: seq<bool>) returns (state: BlockState)
      requires SlowReady() && SlowTold()
      modifies Footprint()
      ensures Whole() == old(Whole()) && old(p.all) <= p.all && Outcome(state, flush, room, MIN_LOOKAHEAD)
      ensures state == NeedMore || state == BlockDone ==> SlowReady()
      ensures state == BlockDone ==> z.lastLit == 0
      ensures state != NeedMore ==> !matchAvailable
      ensures SlowTold() && stops == Stops(old(stops), flush, |Whole()|)
    {
      hide Coder.Footprint, Coding, Past.Between, Past.Hashed, Past.Core, Finished, HeldMatch, Standing, Follows, Reads,
        Grown, Waiting;
      var k: nat := 0;
      stops := Stops(stops, flush, |Whole()|);
      FollowsStops(Law(true), old(stops), stops, told);
      while true
        invariant SlowReady() && Whole() == old(Whole()) && old(p.all) <= p.all
        invariant SlowTold() && stops == Stops(old(stops), flush, |Whole()|)
        decreases |p.input| + p.lookahead
      {
        SlowTop();
        if p.lookahead < MIN_LOOKAHEAD {
          if flush == NoFlush { return NeedMore; }
          if p.lookahead == 0 { break; }
          assert p.all + [] == p.all;
        }
        var bflush, full := SlowStep(room, k);
        if full { return NeedMore; }
        if bflush { k := k + 1; }
      }
      state := SlowEnd(flush, room, k);
    }

    /** The last byte held back, from the stage s on. */
    method SlowLast() returns (ghost s: Stage)
      requires SlowReady() && SlowTold() && p.lookahead == 0 && |p.all| in stops
      modifies this`matchAvailable, this`said, this`told, z.Footprint()
      ensures p.Valid() && Tallied(p.base + p.strstart) && !matchAvailable && matchLength == 2
      ensures p.base + p.strstart == |p.all| && said == s.ts + HeldByte(s, p.all)
          && Standing(s, |p.all|, p.ins, p.insert, 0, s.ts)
      ensures Follows(Law(true), stops, told) && Reads(told, p.all)
          && Final(Law(true), told) == Next(Law(true), s, Stop(p.all))
    {
      hide Coding, Past.Between, Past.Hashed, Past.Core, Standing, Follows, Reads, Next, Final;
      s := Final(Law(true), told);
      StandingIs(s, p.base + p.strstart, p.ins, p.insert, 0, said);
      p.AtEntered();
      FollowsNext(Law(true), stops, told, Stop(p.all), p.all);
      told := told + [Stop(p.all)];
      if matchAvailable {
        var bflush := TallyLit(p.window[p.strstart - 1], p.base + p.strstart - 1);
        matchAvailable := false;
      }
    }

    /** The end of deflate_slow. */
    method SlowEnd(flush: Flush, room: seq<bool>, k: nat) returns (state: BlockState)
      requires SlowReady() && SlowTold() && p.lookahead == 0 && p.input == [] && flush != NoFlush
          && |p.all| in stops && p.strstart <= 0xffff
      modifies this`matchAvailable, this`said, this`told, p`insert, p`blockStart, this`blocks, this`parts, z.Footprint()
      ensures Outcome(state, flush, room, MIN_LOOKAHEAD) && SlowTold() && !matchAvailable
      ensures state == NeedMore || state == BlockDone ==> SlowReady()
      ensures state == BlockDone ==> z.lastLit == 0
    {
      hide Coder.Footprint, Coding, Past.Between, Past.Hashed, Past.Core, Finished, Standing, Follows, Reads, Next,
        HeldMatch,
        Final;
      ghost var s := SlowLast();
      ghost var was := p.insert;
      p.AtEntered();
      state := Close(flush, AtEnd(), room, k);
      StopStanding(Law(true), s, p.all, p.ins, was, p.insert, s.ts);
    }

    // ---------------------------------------------------------------- deflate_rle and deflate_huff

    /** As Ready, without the hash. */
    ghost predicate PlainReady()
      reads this`blocks, this`said, this`parts, Window(), z.Footprint()
    {
      p.Between() && Tallied(p.base + p.strstart) && z.lastLit < z.litBufsize - 1
    }

    /** How often the byte before strstart is repeated there, cut to the lookahead; none if less than three times. */
    method RunOf() returns (n: nat)
      requires p.Between() && p.strstart < p.window.Length - MAX_MATCH
      ensures n == 0 || (MIN_MATCH <= n <= MAX_MATCH && n <= p.lookahead && p.strstart > 0
          && Repeats(p.all, p.base + p.strstart, 1, n))
      ensures p.strstart > 0 && p.lookahead >= MIN_MATCH ==>
                var run := RunFrom(p.window[..], p.strstart, p.window[p.strstart - 1], 0);
                n == if run < MIN_MATCH then 0 else if run > p.lookahead then p.lookahead else run
      ensures p.lookahead > 0 ==> p.base + p.strstart < |p.all|
      ensures p.lookahead > 0 ==>
                var t := RunToken(p.all, p.base + p.strstart);
                t == if n >= MIN_MATCH then Match(n, 1) else Literal(p.all[p.base + p.strstart])
    {
      hide Past.Between, Past.Core, Repeats, RunFrom, RunToken;
      p.AtEntered();
      if p.lookahead > 0 { RunTokenHere(p); }
      n := 0;
      if p.lookahead >= MIN_MATCH && p.strstart > 0 {
        var prev := p.window[p.strstart - 1];
        ghost var w: seq<Byte> := p.window[..];
        RunSteps(w, p.strstart, prev);
        if prev == p.window[p.strstart] && prev == p.window[p.strstart + 1] && prev == p.window[p.strstart + 2] {
          n := CountRun(p.window, p.strstart, prev);
          if n > p.lookahead { n := p.lookahead; }
          RunIsRepeat(p, n);
        }
      }
    }

    /** A match of n bytes with the byte before. */
    method RleMatch(n: nat) returns (bflush: bool)
      requires p.Between() && Tallied(p.base + p.strstart) && z.lastLit < z.litBufsize - 1
      requires MIN_MATCH <= n <= MAX_MATCH && n <= p.lookahead && Repeats(p.all, p.base + p.strstart, 1, n)
      modifies this`said, p`strstart, p`lookahead, z.Footprint()
      ensures p.Between() && Tallied(p.base + p.strstart) && p.lookahead == old(p.lookahead) - n
          && p.strstart == old(p.strstart) + n && said == old(said) + [Match(n, 1)]
      ensures z.lastLit == old(z.lastLit) + 1 && (bflush <==> z.lastLit == z.litBufsize - 1)
    {
      hide Coding, Past.Between, Past.Core, Repeats;
      p.AtEntered();
      bflush := TallyDist(1, n - MIN_MATCH, p.base + p.strstart);
      p.Move(n);
    }

    /** The byte at strstart. */
    method PlainLiteral() returns (bflush: bool)
      requires p.Between() && Tallied(p.base + p.strstart) && z.lastLit < z.litBufsize - 1 && p.lookahead > 0
      modifies this`said, p`strstart, p`lookahead, z.Footprint()
      ensures p.Between() && Tallied(p.base + p.strstart) && p.lookahead == old(p.lookahead) - 1
          && p.strstart == old(p.strstart) + 1
      ensures 0 <= old(p.base + p.strstart) < |p.all| && said == old(said) + [Literal(p.all[old(p.base + p.strstart)])]
      ensures z.lastLit == old(z.lastLit) + 1 && (bflush <==> z.lastLit == z.litBufsize - 1)
    {
      hide Coding, Past.Between, Past.Core;
      p.AtEntered();
      bflush := TallyLit(p.window[p.strstart], p.base + p.strstart);
      p.Move(1);
    }

    /** The tokens are those of deflate_rle for the input before strstart. */
    ghost predicate RleTold()
      reads this`said, this`stops, p
    {
      RunParse(stops, p.all, said, p.base + p.strstart)
    }

    /** One round of deflate_rle behind fill_window. */
    method RleStep() returns (bflush: bool)
      requires PlainReady() && p.lookahead > 0 && p.strstart < p.window.Length - MAX_MATCH
      requires RleTold() && Ahead(MAX_MATCH + 1)
      modifies this`matchLength, this`said, p`strstart, p`lookahead, z.Footprint()
      ensures p.Between() && Tallied(p.base + p.strstart) && p.lookahead < old(p.lookahead)
          && p.strstart <= old(p.strstart) + MAX_MATCH && RleTold()
      ensures z.lastLit <= z.litBufsize - 1 && (bflush <==> z.lastLit == z.litBufsize - 1)
    {
      hide Coding, Past.Between, Past.Core, RunFrom, Repeats, RunParse, RunToken;
      p.AtEntered();
      RunParseNext(stops, p.all, said, p.base + p.strstart);
      matchLength := RunOf();
      if matchLength >= MIN_MATCH {
        bflush := RleMatch(matchLength);
        matchLength := 0;
      } else {
        bflush := PlainLiteral();
      }
    }

    /** Reads more input. */
    method RleTop()
      requires PlainReady() && RleTold()
      modifies Window()
      ensures PlainReady() && RleTold() && Whole() == old(Whole()) && old(p.all) <= p.all
          && |p.input| + p.lookahead == old(|p.input| + p.lookahead)
      ensures p.strstart < p.window.Length - MAX_MATCH && p.window.Length <= 0x1_0000
          && (p.lookahead > MAX_MATCH || p.input == [])
    {
      hide Coder.Footprint, Coding, Past.Between, Past.Hashed, Past.Core, RunParse, Grown;
      ghost var all := p.all;
      Top(MAX_MATCH + 1, p.base + p.strstart);
      RunParseMore(stops, stops, all, p.all, said, p.base + p.strstart);
    }

    /** A round of deflate_rle and the block it may complete, which is the k-th of the call. */
    method RleRound(room: seq<bool>, k: nat) returns (n: nat, full: bool)
      requires PlainReady() && p.lookahead > 0 && p.strstart < p.window.Length - MAX_MATCH
          && p.window.Length <= 0x1_0000
      requires RleTold() && Ahead(MAX_MATCH + 1)
      modifies this`matchLength, this`said, p`strstart, p`lookahead, p`blockStart, this`blocks, this`parts,
        z.Footprint()
      ensures PlainReady() && RleTold() && p.lookahead < old(p.lookahead) && (full ==> !RoomAt(room, k))
    {
      hide Coding, Past.Between, Past.Core, RoomAt, RunParse;
      n, full := k, false;
      var bflush := RleStep();
      if bflush {
        full := Flush(room, k);
        n := k + 1;
      }
    }

    /** deflate_rle. */
    method DeflateRle(flush: Flush, room: seq<bool>) returns (state: BlockState)
      requires PlainReady() && RleTold()
      modifies Footprint()
      ensures Whole() == old(Whole()) && old(p.all) <= p.all && Outcome(state, flush, room, MAX_MATCH + 1)
      ensures state == NeedMore || state == BlockDone ==> PlainReady()
      ensures state == BlockDone ==> z.lastLit == 0
      ensures RleTold() && stops == Stops(old(stops), flush, |Whole()|)
    {
      hide Coder.Footprint, Coding, Past.Between, Past.Hashed, Past.Core, Finished, RunParse;
      var k: nat := 0;
      stops := Stops(stops, flush, |Whole()|);
      RunParseMore(old(stops), stops, p.all, p.all, said, p.base + p.strstart);
      while true
        invariant PlainReady() && Whole() == old(Whole()) && old(p.all) <= p.all
        invariant RleTold() && stops == Stops(old(stops), flush, |Whole()|)
        decreases |p.input| + p.lookahead
      {
        RleTop();
        if p.lookahead <= MAX_MATCH {
          if flush == NoFlush { return NeedMore; }
          if p.lookahead == 0 { break; }
          assert p.all + [] == p.all;
        }
        var full;
        k, full := RleRound(room, k);
        if full { return NeedMore; }
      }
      state := Close(flush, 0, room, k);
    }

    /** Every token of the current block is a literal. */
    ghost predicate HuffReady()
      reads this`blocks, this`said, this`parts, Window(), z.Footprint()
    {
      PlainReady() && p.strstart - p.blockStart == z.lastLit
    }

    /** The tokens are those of deflate_huff for the input before strstart. */
    ghost predicate HuffTold()
      reads this`said, p
    {
      Plain(p.all, said, p.base + p.strstart)
    }

    /** deflate_huff. */
    method DeflateHuff(flush: Flush, room: seq<bool>) returns (state: BlockState)
      requires HuffReady() && HuffTold()
      modifies Footprint()
      ensures Whole() == old(Whole()) && old(p.all) <= p.all && Outcome(state, flush, room, 1)
      ensures state == NeedMore || state == BlockDone ==> HuffReady()
      ensures state == BlockDone ==> z.lastLit == 0
      ensures HuffTold() && stops == Stops(old(stops), flush, |Whole()|)
    {
      hide Coder.Footprint, Coding, Past.Between, Past.Hashed, Past.Core, Finished, Plain;
      var k: nat := 0;
      stops := Stops(stops, flush, |Whole()|);
      while true
        invariant HuffReady() && Whole() == old(Whole()) && old(p.all) <= p.all
        invariant HuffTold() && stops == Stops(old(stops), flush, |Whole()|)
        decreases |p.input| + p.lookahead
      {
        ghost var all := p.all;
        Top(1, p.base + p.strstart);
        PlainMore(all, p.all, said, p.base + p.strstart);
        if p.lookahead == 0 {
          if flush == NoFlush { return NeedMore; }
          break;
        }
        var full;
        k, full := HuffRound(room, k);
        if full { return NeedMore; }
      }
      SmallBlock();
      state := Close(flush, 0, room, k);
    }

    /** A round of deflate_huff and the block it may complete, which is the k-th of the call. */
    method HuffRound(room: seq<bool>, k: nat) returns (n: nat, full: bool)
      requires HuffReady() && HuffTold() && p.lookahead > 0
      modifies this`matchLength, this`said, p`strstart, p`lookahead, p`blockStart, this`blocks, this`parts,
        z.Footprint()
      ensures HuffReady() && HuffTold() && p.lookahead < old(p.lookahead) && (full ==> !RoomAt(room, k))
    {
      hide Coding, Past.Between, Past.Core, RoomAt, Plain;
      n, full := k, false;
      var bflush := HuffStep();
      if bflush {
        full := Flush(room, k);
        n := k + 1;
      }
    }

    /** One round of deflate_huff behind fill_window. */
    method HuffStep() returns (bflush: bool)
      requires HuffReady() && HuffTold() && p.lookahead > 0
      modifies this`matchLength, this`said, p`strstart, p`lookahead, z.Footprint()
      ensures p.Between() && Tallied(p.base + p.strstart) && p.lookahead == old(p.lookahead) - 1
          && p.strstart - p.blockStart == z.lastLit <= 0xffff
      ensures z.lastLit <= z.litBufsize - 1 && (bflush <==> z.lastLit == z.litBufsize - 1) && HuffTold()
    {
      hide Coding, Past.Between, Past.Core, Plain;
      SmallBlock();
      p.AtEntered();
      PlainNext(p.all, said, p.base + p.strstart);
      matchLength := 0;
      bflush := PlainLiteral();
    }

    lemma {:induction false} SmallBlock()
      requires HuffReady()
      ensures z.lastLit <= 0xfff0
    {
      hide Past.Between, Covered, Distances, BlocksOk, SentBits, Contents;
      Readable();
    }
  }

  /** One more block, or the last one. */
  lemma {:induction false} AddBlock(all: seq<Byte>, from: int, upto: int, bs: seq<Block>, ts: seq<Token>, blk: Block,
      last: bool, size: nat)
    requires Covered(all, from, upto, bs, ts) && BlocksOk(bs, size) && BlockOk(blk, size) && (last ==> upto == |all|)
    requires Distances(Contents(bs), Reach(size)) && Distances(ts, Reach(size))
    requires if blk.StoredBlock? then 0 <= from <= upto <= |all| && blk.data == all[from..upto] else Content(blk) == ts
    ensures BlocksOk(bs + [blk], size) && bs + [blk] != [] && Distances([], Reach(size))
        && Distances(Contents(bs + [blk]), Reach(size))
    ensures var b := SentBits(bs, 0, size) + BlockBits(blk, last, |SentBits(bs, 0, size)|, size);
            if last then StreamBits(bs + [blk], 0, size) == b + Padding(|b|)
              && Expand([], Contents(bs + [blk])) == Some(all)
            else SentBits(bs + [blk], 0, size) == b && Covered(all, upto, upto, bs + [blk], [])
  {
    hide Covered, SentBits, BlocksOk, StreamBits, BlockOk, BlockBits, Padding, Content, Distances;
    CoverBlock(all, from, upto, bs, ts, blk);
    SentMore(bs, blk, 0, size);
    SentLast(bs, blk, 0, size);
    NoDistances(Reach(size));
    BlockDistances(bs, blk, ts, Reach(size));
    if last { CoverAll(all, upto, bs + [blk]); }
  }

  lemma {:induction false} BlockDistances(bs: seq<Block>, blk: Block, ts: seq<Token>, size: nat)
    requires Distances(Contents(bs), size) && Distances(ts, size) && (blk.StoredBlock? || Content(blk) == ts)
    ensures Distances(Contents(bs + [blk]), size)
  {
    hide Contents;
    ContentsMore(bs, blk);
  }

  lemma {:induction false} MoreDistances(ts: seq<Token>, t: Token, size: nat)
    requires Distances(ts, size) && TokenOk(t) && (t.Match? ==> t.dist <= size)
    ensures Distances(ts + [t], size)
  {
  }

  lemma {:induction false} WiderDistances(ts: seq<Token>, reach: nat, size: nat)
    requires Distances(ts, reach) && reach <= size
    ensures Distances(ts, size)
  {
  }

  lemma {:induction false} NoDistances(size: nat)
    ensures Distances([], size)
  {
  }

  lemma {:induction false} CoverRange(all: seq<Byte>, from: int, upto: int, bs: seq<Block>, ts: seq<Token>)
    requires Covered(all, from, upto, bs, ts)
    ensures 0 <= from <= upto <= |all|
  {
    hide Expand, Contents;
  }

  lemma {:induction false} CoverAll(all: seq<Byte>, from: int, bs: seq<Block>)
    requires Covered(all, from, from, bs, []) && from == |all|
    ensures Expand([], Contents(bs)) == Some(all)
  {
    hide Expand, Contents;
    assert all[..from] == all;
  }

  /** A piece of the window is a piece of the input. */
  lemma {:induction false} Segment(w: seq<Byte>, filled: nat, all: seq<Byte>, base: nat, i: nat, j: nat)
    requires filled <= |w| && |all| == base + filled && w[..filled] == all[base..] && i <= j <= filled
    ensures w[i..j] == all[base + i..base + j]
  {
    assert w[i..j] == w[..filled][i..j];
    assert all[base..][i..j] == all[base + i..base + j];
  }

  lemma {:induction false} BestRange(s: Past, prevLength: nat, best: nat)
    requires Best(s, prevLength, best)
    ensures prevLength <= best <= MAX_MATCH && (best > prevLength ==> s.matchStart < s.strstart)
  {
    hide Common, SameRun;
  }

  /** Equal bytes in the window are a repetition in the input. */
  lemma {:induction false} RunRepeats(s: Past, m: nat, len: nat)
    requires s.Data() && m < s.strstart && s.strstart + len <= s.filled && SameRun(s.window[..], m, s.strstart, len)
    ensures Repeats(s.all, s.base + s.strstart, s.strstart - m, len)
  {
    forall i | s.base + s.strstart <= i < s.base + s.strstart + len ensures s.all[i] == s.all[i - (s.strstart - m)] {
      var j: nat := i - s.base - s.strstart;
      s.ByteIn(s.strstart + j);
      s.ByteIn(m + j);
      assert Same(s.window[..], m, s.strstart, j);
    }
  }

  lemma {:induction false} RepeatsFit(all: seq<Byte>, n: nat, dist: nat, len: nat)
    requires Repeats(all, n, dist, len)
    ensures n + len <= |all| && 1 <= dist <= n
  {
  }

  lemma {:induction false} MinusBound(a: nat, b: nat)
    ensures Minus(a, b) < WRAP
  {
  }

  lemma {:induction false} RepeatsMore(all: seq<Byte>, all': seq<Byte>, n: nat, dist: nat, len: nat)
    requires Repeats(all, n, dist, len) && all <= all'
    ensures Repeats(all', n, dist, len)
  {
  }

  /** A run is a repetition at distance one. */
  lemma {:induction false} RunIsRepeat(s: Past, n: nat)
    requires s.Between() && s.strstart > 0 && n <= s.lookahead && s.strstart < s.window.Length - MAX_MATCH
    requires n <= RunFrom(s.window[..], s.strstart, s.window[s.strstart - 1], 0)
    ensures Repeats(s.all, s.base + s.strstart, 1, n)
  {
    hide ChainsOk, RunFrom, Past.PrimedAt;
    var w, c := s.window[..], s.window[s.strstart - 1];
    forall i | s.base + s.strstart <= i < s.base + s.strstart + n ensures s.all[i] == s.all[i - 1] {
      var j: nat := i - s.base - s.strstart;
      s.ByteIn(s.strstart + j);
      s.ByteIn(s.strstart + j - 1);
      RunAt(w, s.strstart, c, 0, j);
      if j > 0 { RunAt(w, s.strstart, c, 0, j - 1); }
    }
  }

  /** The run in the window gives the token of deflate_rle. */
  lemma {:induction false} RunTokenHere(s: Past)
    requires s.Between() && s.strstart < s.window.Length - MAX_MATCH && s.lookahead > 0
    ensures s.base + s.strstart < |s.all|
    ensures s.strstart == 0 ==> RunToken(s.all, s.base + s.strstart) == Literal(s.all[s.base + s.strstart])
    ensures s.strstart > 0 ==>
        var run := RunFrom(s.window[..], s.strstart, s.window[s.strstart - 1], 0);
        var n := if run > s.lookahead then s.lookahead else run;
        RunToken(s.all, s.base + s.strstart) == (if n >= 3 then Match(n, 1) else Literal(s.all[s.base + s.strstart]))
  {
    hide ChainsOk, RunFrom;
    if s.strstart > 0 {
      s.ByteIn(s.strstart - 1);
      var w: seq<Byte> := s.window[..];
      assert w[..s.filled] == s.window[..s.filled];
      RunInput(w, s.filled, s.all, s.base, s.strstart, s.window[s.strstart - 1], 0);
    }
  }

  lemma {:induction false} CandidatesBefore(s: Past, ms: seq<nat>)
    requires forall m :: m in ms ==> s.Candidate(m)
    ensures forall m :: m in ms ==> m < s.strstart
  {
    hide KeyAt;
  }
}
