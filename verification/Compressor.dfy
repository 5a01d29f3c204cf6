/** The block layer of the compressor: _tr_tally, init_block, build_bl_tree and _tr_flush_block of trees.c.

    The token buffers are kept apart from the output buffer, which deflate.c overlays with them. */
module Compressor {
  import opened Wrappers
  import opened Bits
  import opened Canonical
  import opened InflateTable
  import opened HuffmanTree
  import opened HuffmanLengths
  import opened HuffmanBuild
  import opened HuffmanDepth
  import opened StaticTables
  import opened FixedTrees
  import opened RunLength
  import opened BitWriter
  import opened Rfc1951
  import opened Decoder
  import opened BlockTrip
  import opened Blocks
  import opened BlockCost
  import opened BlockWriter
  import opened BlockParts

  class Coder {
    const w: Writer
    const s: Builder
    const lFreq: array<nat>
    const lLen: array<nat>
    const dFreq: array<nat>
    const dLen: array<nat>
    const blFreq: array<nat>
    const blLen: array<nat>
    const dBuf: array<nat>
    const lBuf: array<Byte>
    const tb: Tables
    const litBufsize: nat
    const level: nat
    const fixedOnly: bool
    var lastLit: nat

    /** No two of the arrays are the same. */
    ghost predicate Apart()
    {
      && s.heap.Length == HEAP_SIZE && s.depth.Length == HEAP_SIZE && s.blCount.Length == MAX_BITS + 1
      && lFreq.Length == lLen.Length == HEAP_SIZE && dFreq.Length == dLen.Length == 2 * D_CODES + 1
      && blFreq.Length == blLen.Length == 2 * BL_CODES + 1 && dBuf.Length == lBuf.Length == litBufsize
      && s.heap !in {s.depth, s.blCount, lFreq, lLen, dFreq, dLen, blFreq, blLen, dBuf}
      && s.depth !in {s.blCount, lFreq, lLen, dFreq, dLen, blFreq, blLen, dBuf}
      && s.blCount !in {lFreq, lLen, dFreq, dLen, blFreq, blLen, dBuf}
      && lFreq !in {lLen, dFreq, dLen, blFreq, blLen, dBuf} && lLen !in {dFreq, dLen, blFreq, blLen, dBuf}
      && dFreq !in {dLen, blFreq, blLen, dBuf} && dLen !in {blFreq, blLen, dBuf} && blFreq !in {blLen, dBuf}
        && blLen != dBuf
    }

    /** What building the trees changes. */
    ghost function TreeState(): (r: set<object>)
    {
      {s, s.heap, s.depth, s.blCount, lFreq, lLen, dFreq, dLen, blFreq, blLen}
    }

    ghost function Footprint(): (r: set<object>)
    {
      {this, w, dBuf, lBuf} + TreeState()
    }

    /** The tokens of the current block. */
    ghost function Tokens(): (r: seq<Token>)
      reads this, dBuf, lBuf
      requires lastLit <= dBuf.Length && lastLit <= lBuf.Length
    {
      TokensOf(dBuf[..], lBuf[..], lastLit)
    }

    ghost predicate Buffered()
      reads this, w, dBuf, lBuf
    {
      && Apart() && w.Valid() && TablesOk(tb) && 2 <= litBufsize <= 32768 && lastLit < litBufsize && TokensOk(Tokens())
    }

    /** Between two blocks and while tokens are collected: the frequencies are those of the tokens so far. */
    ghost predicate Valid()
      reads this, w, s, dBuf, lBuf, lFreq, dFreq, blFreq
    {
      && Buffered() && s.optLen == 0 && s.staticLen == 0
      && lFreq[..L_CODES] == LitFreq(Tokens()) && dFreq[..D_CODES] == DistFreq(Tokens())
        && blFreq[..BL_CODES] == Zeros(BL_CODES)
    }

    constructor (litBufsize: nat, level: nat, fixedOnly: bool)
      requires 2 <= litBufsize <= 32768
      ensures Valid() && Tokens() == [] && w.Bits() == [] && lastLit == 0
      ensures fresh(w) && fresh(s) && fresh(s.heap) && fresh(s.depth) && fresh(s.blCount) && fresh(lFreq) && fresh(lLen)
      ensures fresh(dFreq) && fresh(dLen) && fresh(blFreq) && fresh(blLen) && fresh(dBuf) && fresh(lBuf)
      ensures this.litBufsize == litBufsize && this.level == level && this.fixedOnly == fixedOnly
    {
      hide TablesOk, LitFreq, DistFreq, Pow2, TokensOf, Zeros;
      w := new Writer();
      s := new Builder();
      lFreq, lLen := new nat[HEAP_SIZE], new nat[HEAP_SIZE];
      dFreq, dLen := new nat[2 * D_CODES + 1], new nat[2 * D_CODES + 1];
      blFreq, blLen := new nat[2 * BL_CODES + 1], new nat[2 * BL_CODES + 1];
      dBuf, lBuf := new nat[litBufsize], new Byte[litBufsize];
      var tables := MakeTables();
      tb := tables;
      this.litBufsize, this.level, this.fixedOnly := litBufsize, level, fixedOnly;
      lastLit := 0;
      new;
      InitBlock();
    }

    /** Starts a new block. */
    method InitBlock()
      requires Apart() && w.Valid() && TablesOk(tb) && 2 <= litBufsize <= 32768
      modifies this`lastLit, s`optLen, s`staticLen, lFreq, dFreq, blFreq
      ensures Valid() && lastLit == 0 && Tokens() == []
    {
      for n := 0 to L_CODES
        invariant forall i :: 0 <= i < n ==> lFreq[i] == 0
      {
        lFreq[n] := 0;
      }
      ClearRest();
      lFreq[END_BLOCK] := 1;
      s.optLen, s.staticLen, lastLit := 0, 0, 0;
      assert Zeros(L_CODES)[END_BLOCK := 1] == Bump(Zeros(L_CODES), END_BLOCK);
      assert lFreq[..L_CODES] == LitFreq([]);
      assert Tokens() == [];
    }

    method ClearRest()
      requires Apart()
      modifies dFreq, blFreq
      ensures dFreq[..D_CODES] == Zeros(D_CODES) && blFreq[..BL_CODES] == Zeros(BL_CODES)
    {
      for n := 0 to D_CODES
        invariant forall i :: 0 <= i < n ==> dFreq[i] == 0
      {
        dFreq[n] := 0;
      }
      for n := 0 to BL_CODES
        invariant forall i :: 0 <= i < n ==> blFreq[i] == 0
        invariant forall i :: 0 <= i < D_CODES ==> dFreq[i] == 0
      {
        blFreq[n] := 0;
      }
    }

    /** Counts the symbols of a token. */
    method Count(dist: nat, lc: Byte)
      requires Apart() && TablesOk(tb) && dist <= 32768
      modifies lFreq, dFreq
      ensures lFreq[..L_CODES] == Bump(old(lFreq[..L_CODES]), LitSymbol(TokenAt(dist, lc)))
      ensures dFreq[..D_CODES] == if dist == 0 then old(dFreq[..D_CODES])
          else Bump(old(dFreq[..D_CODES]), DistSymbol(TokenAt(dist, lc)))
    {
      hide LengthCode, DistCode, DistIndex, CodesFor, Pow2;
      if dist == 0 {
        lFreq[lc] := lFreq[lc] + 1;
      } else {
        LengthCodeOk(lc);
        DistCodeOk(dist - 1);
        var x, y := tb.lengthCode[lc] + 256 + 1, tb.distCode[DistIndex(dist - 1)];
        lFreq[x] := lFreq[x] + 1;
        dFreq[y] := dFreq[y] + 1;
      }
    }

    /** Saves a token and counts its symbols; true when the block must be flushed. */
    method Tally(dist: nat, lc: Byte) returns (flush: bool)
      requires Valid() && lastLit < litBufsize - 1 && dist <= 32768
      modifies this`lastLit, dBuf, lBuf, lFreq, dFreq
      ensures Valid() && lastLit == old(lastLit) + 1
      ensures Tokens() == old(Tokens()) + [TokenAt(dist, lc)]
      ensures flush <==> lastLit == litBufsize - 1
    {
      hide LengthCode, DistCode, DistIndex, LitFreq, DistFreq, TablesOk, LitSymbol, DistSymbol, Pow2, Bump;
      ghost var ts: seq<Token>, lf: seq<nat>, df: seq<nat> := Tokens(), lFreq[..L_CODES], dFreq[..D_CODES];
      ghost var t := TokenAt(dist, lc);
      TokensGrow(dBuf[..], lBuf[..], lastLit, dist, lc);
      TallyLit(ts, t);
      TallyDist(ts, t);
      ghost var d0: seq<nat>, l0: seq<Byte> := dBuf[..], lBuf[..];
      dBuf[lastLit] := dist;
      lBuf[lastLit] := lc;
      assert dBuf[..] == d0[lastLit := dist] && lBuf[..] == l0[lastLit := lc];
      lastLit := lastLit + 1;
      Count(dist, lc);
      flush := lastLit == litBufsize - 1;
    }

    /** The index in bl_order of the last code length code to send. */
    method LastSent() returns (m: nat)
      requires Apart() && exists i: nat :: 3 <= i < 19 && blLen[Order(i)] != 0
      ensures 3 <= m <= 18 && blLen[Order(m)] != 0 && forall i: nat :: m < i < 19 ==> blLen[Order(i)] == 0
    {
      hide Order;
      m := BL_CODES - 1;
      ghost var k: nat :| 3 <= k < 19 && blLen[Order(k)] != 0;
      while m >= 3
        invariant k <= m <= 18 && forall i: nat :: m < i < 19 ==> blLen[Order(i)] == 0
      {
        if blLen[Order(m)] != 0 { break; }
        m := m - 1;
      }
    }

    /** The symbols that code the lengths of both trees. */
    ghost function LengthItems(lmax: nat, dmax: nat): (r: seq<Item>)
      reads lLen, dLen
      requires lmax < lLen.Length && dmax < dLen.Length
    {
      Items(lLen[..lmax + 1]) + Items(dLen[..dmax + 1])
    }

    /** Counts the symbols of both trees. */
    method ScanTrees(lmax: nat, dmax: nat)
      requires Apart() && lmax < L_CODES && dmax < D_CODES && LensFit(lLen[..lmax + 1]) && LensFit(dLen[..dmax + 1])
      requires blFreq[..BL_CODES] == Zeros(BL_CODES)
      modifies lLen, dLen, blFreq
      ensures lLen[..] == old(lLen[..])[lmax + 1 := GUARD] && dLen[..] == old(dLen[..])[dmax + 1 := GUARD]
      ensures forall c: nat :: c < BL_CODES ==> blFreq[c] == Occurs(old(LengthItems(lmax, dmax)), c)
    {
      hide Occurs, Runs, LensFit;
      ghost var f0: seq<nat> := blFreq[..];
      ghost var a, b := Items(lLen[..lmax + 1]), Items(dLen[..dmax + 1]);
      ScanTree(lLen, lmax, blFreq);
      ghost var f1: seq<nat> := blFreq[..];
      ScanTree(dLen, dmax, blFreq);
      CountedMore(f0, f1, a, b, blFreq[..]);
      ZerosPrefix(f0);
    }

    /** Builds the code for the code lengths; n is the number of its lengths to send. */
    method BuildBlTree(lmax: nat, dmax: nat) returns (n: nat)
      requires Apart() && END_BLOCK <= lmax < L_CODES && dmax < D_CODES && lLen[END_BLOCK] > 0
          && LensFit(lLen[..lmax + 1]) && LensFit(dLen[..dmax + 1])
      requires blFreq[..BL_CODES] == Zeros(BL_CODES)
      modifies s, s.heap, s.depth, s.blCount, lLen, dLen, blFreq, blLen
      ensures lLen[..] == old(lLen[..])[lmax + 1 := GUARD] && dLen[..] == old(dLen[..])[dmax + 1 := GUARD]
      ensures 4 <= n <= BL_CODES && SentAll(blLen[..BL_CODES], n) && CodesOk(blLen[..BL_CODES], 7)
          && Accepted(CODES, blLen[..BL_CODES])
      ensures ItemsCoded(blLen[..BL_CODES], old(LengthItems(lmax, dmax)))
      ensures Fitted(ItemFreq(old(LengthItems(lmax, dmax))), blLen[..BL_CODES], 7) && blLen[Order(n - 1)] != 0
      ensures CodesFor(blLen[..BL_CODES], BL_CODES, blFreq[..], blLen[..])
      ensures s.staticLen == old(s.staticLen)
      ensures s.optLen == old(s.optLen) +
          |TreesBits(old(lLen[..lmax + 1]), old(dLen[..dmax + 1]), blLen[..BL_CODES], n)|
    {
      hide Optimal, MayOverflow, Occurs, Runs, LensFit, TreeBuilt, ItemsCoded, CodesFor, Accepted, BlDesc,
        SymbolCost, StaticSymbolCost,
        Order, FrequencySum, DescOk, NoExtra, TreesBits, Complete, Fitted, FromTree;
      ghost var ll: seq<nat>, dl: seq<nat> := lLen[..lmax + 1], dLen[..dmax + 1];
      ghost var items := LengthItems(lmax, dmax);
      ScanTrees(lmax, dmax);
      ghost var f0: seq<nat>, opt0 := blFreq[..], s.optLen;
      DescsOk();
      Sizes();
      ItemsFitCounts(ll, dl, f0);
      ghost var maxCode, forced;
      maxCode, forced := BuildTree(s, blFreq, blLen, BlDesc());
      ghost var cl: seq<nat> := blLen[..BL_CODES];
      TreeCodes(BlDesc(), f0, blFreq[..], blLen[..], maxCode, forced);
      ItemsFitted(items, f0, blFreq[..], blLen[..], maxCode, forced);
      CompleteAccepted(CODES, cl);
      ItemsHaveCodes(items, f0, blFreq[..], blLen[..], maxCode, forced);
      NoStatic(f0);
      SomePlainSent(ll, dl, cl);
      assert forall i: nat :: i < 19 ==> cl[Order(i)] == blLen[Order(i)];
      var m := LastSent();
      n := m + 1;
      HeaderLength(ll, dl, cl, n, f0, blLen[..]);
      s.optLen := s.optLen + 3 * (m + 1) + 5 + 5 + 4;
    }

    /** The dynamic trees as they stand: their codes, and the guards behind their lengths. */
    ghost predicate TreesStand(lmax: nat, dmax: nat, dyn: Block)
      reads lFreq, lLen, dFreq, dLen, blFreq, blLen
    {
      && dyn.DynamicBlock? && lmax + 1 < lLen.Length && dmax + 1 < dLen.Length && blLen.Length >= BL_CODES
      && dyn.ll == lLen[..lmax + 1] && dyn.dl == dLen[..dmax + 1] && dyn.cl == blLen[..BL_CODES]
      && CodesFor(dyn.ll, lmax + 1, lFreq[..], lLen[..]) && CodesFor(dyn.dl, dmax + 1, dFreq[..], dLen[..])
      && CodesFor(dyn.cl, BL_CODES, blFreq[..], blLen[..]) && lLen[lmax + 1] == GUARD && dLen[dmax + 1] == GUARD
    }

    /** The literal/length tree and the distance tree. */
    method BuildBoth(ghost ts: seq<Token>) returns (lmax: nat, dmax: nat)
      requires Apart() && TokensOk(ts) && |ts| < 32768
      requires lFreq[..L_CODES] == LitFreq(ts) && dFreq[..D_CODES] == DistFreq(ts)
      modifies s, s.heap, s.depth, s.blCount, lFreq, lLen, dFreq, dLen
      ensures END_BLOCK <= lmax < L_CODES && dmax < D_CODES && lLen[END_BLOCK] > 0
      ensures CodesFor(lLen[..lmax + 1], lmax + 1, lFreq[..], lLen[..])
          && CodesFor(dLen[..dmax + 1], dmax + 1, dFreq[..], dLen[..])
      ensures LensFit(lLen[..lmax + 1]) && LensFit(dLen[..dmax + 1]) && TreesOk(lLen[..lmax + 1], dLen[..dmax + 1])
      ensures AllCoded(lLen[..lmax + 1], dLen[..dmax + 1], ts)
      ensures Fitted(LitFreq(ts), lLen[..lmax + 1], 15) && Fitted(DistFreq(ts), dLen[..dmax + 1], 15)
          && lLen[lmax] != 0 && dLen[dmax] != 0
      ensures s.optLen == old(s.optLen) + |BodyBits(lLen[..lmax + 1], dLen[..dmax + 1], ts)|
      ensures s.staticLen == old(s.staticLen) + |BodyBits(FixedLit(), FixedDist(), ts)|
    {
      hide TreeBuilt, CodesFor, Accepted, LDesc, DDesc, SymbolCost, StaticSymbolCost, FrequencySum, DescOk, NoExtra,
        Complete, AllCoded,
           BodyBits, LitFreq, DistFreq, FixedLit, FixedDist, Optimal, Shallow, SumTo, Fitted, Fib, MayOverflow,
        FromTree;
      DescsOk();
      Sizes();
      FreqSums(ts);
      ghost var fL: seq<nat>, fD: seq<nat> := lFreq[..], dFreq[..];
      SumFits(fL, LitFreq(ts), L_CODES, 32768);
      SumFits(fD, DistFreq(ts), D_CODES, 32768);
      ghost var forcedL, forcedD;
      lmax, forcedL := BuildTree(s, lFreq, lLen, LDesc());
      ghost var cL: seq<nat>, lL: seq<nat> := lFreq[..], lLen[..];
      dmax, forcedD := BuildTree(s, dFreq, dLen, DDesc());
      assert lFreq[..] == cL && lLen[..] == lL;
      TreeFitted(LDesc(), fL, cL, lL, lmax, forcedL, LitFreq(ts));
      TreeFitted(DDesc(), fD, dFreq[..], dLen[..], dmax, forcedD, DistFreq(ts));
      BothBuilt(ts, fL, cL, lL, lmax, forcedL, fD, dFreq[..], dLen[..], dmax, forcedD);
    }

    /** All three trees. opt_len and static_len come to the exact lengths of the block with dynamic and with
        fixed codes, without the three bits in front. */
    method BuildTrees(ghost ts: seq<Token>, ghost size: nat) returns (lmax: nat, dmax: nat, n: nat, ghost dyn: Block)
      requires Apart() && s.optLen == 0 && s.staticLen == 0 && |ts| < 32768 && Distances(ts, size)
      requires lFreq[..L_CODES] == LitFreq(ts) && dFreq[..D_CODES] == DistFreq(ts)
          && blFreq[..BL_CODES] == Zeros(BL_CODES)
      modifies TreeState()
      ensures dyn.DynamicBlock? && TreesStand(lmax, dmax, dyn) && dyn.n == n && dyn.ts == ts && BlockOk(dyn, size)
      ensures Tailored(dyn)
      ensures s.optLen == |TreesBits(dyn.ll, dyn.dl, dyn.cl, n)| + |BodyBits(dyn.ll, dyn.dl, ts)|
      ensures s.staticLen == |BodyBits(FixedLit(), FixedDist(), ts)|
    {
      hide CodesFor, Accepted, BodyBits, LitFreq, DistFreq, FixedLit, FixedDist, LensFit, ItemsCoded, TreesBits,
        HasCode, SentAll, Runs, CodesOk, Fitted, ItemFreq, Order;
      lmax, dmax := BuildBoth(ts);
      ghost var lL: seq<nat>, lD: seq<nat> := lLen[..], dLen[..];
      ghost var ll: seq<nat>, dl: seq<nat> := lLen[..lmax + 1], dLen[..dmax + 1];
      n := BuildBlTree(lmax, dmax);
      GuardKeeps(ll, lmax + 1, lFreq[..], lL, lLen[..]);
      GuardKeeps(dl, dmax + 1, dFreq[..], lD, dLen[..]);
      dyn := DynamicBlock(ll, dl, blLen[..BL_CODES], n, ts);
      DynamicFits(ll, dl, blLen[..BL_CODES], n, ts, size);
    }

    /** A stored block: the data behind its length and the complement of the length. */
    method SendStored(data: seq<Byte>, last: bool, ghost size: nat)
      requires w.Valid() && |data| <= 0xffff
      modifies w
      ensures w.Valid() && w.Bits() == old(w.Bits()) + BlockBits(StoredBlock(data), last, |old(w.Bits())|, size)
    {
      hide ToBits, Pow2, Padding, StoredBits;
      ghost var b := w.Bits();
      SendHead(0, last);
      w.CopyBlock(data);
      assert |b + HeadBits(0, last)| == |b| + 3;
      StoredIs(data);
      assert b + HeadBits(0, last) + Padding(|b| + 3) + StoredBits(data) == b +
        (HeadBits(0, last) + (Padding(|b| + 3) + StoredBits(data)));
    }

    method SendHead(kind: nat, last: bool)
      requires w.Valid() && kind < 3
      modifies w
      ensures w.Valid() && w.Bits() == old(w.Bits()) + HeadBits(kind, last)
    {
      hide ToBits, Pow2;
      Pow2Values();
      w.SendBits(kind * 2 + if last then 1 else 0, 3);
    }

    method SendFixed(last: bool, ghost ts: seq<Token>, ghost size: nat)
      requires Buffered() && ts == Tokens() && Distances(ts, size)
      modifies w
      ensures w.Valid() && BlockOk(FixedBlock(ts), size)
      ensures w.Bits() == old(w.Bits()) + BlockBits(FixedBlock(ts), last, |old(w.Bits())|, size)
    {
      hide ToBits, Pow2, CodesFor, BodyBits, LengthTable, DistTable, HasCode, HeadBits;
      ghost var b := w.Bits();
      FixedCoded(ts);
      FixedFits(ts, size);
      FixedAccepted();
      SendHead(1, last);
      CompressBlock(w, tb, dBuf[..], lBuf[..], lastLit, tb.slCode, tb.slLen, tb.sdCode, tb.sdLen, FixedLit(),
        FixedDist(), D_CODES);
      assert b + HeadBits(1, last) + BodyBits(FixedLit(), FixedDist(), ts) == b +
        (HeadBits(1, last) + BodyBits(FixedLit(), FixedDist(), ts));
    }

    method SendDynamic(last: bool, lmax: nat, dmax: nat, n: nat, ghost dyn: Block, ghost ts: seq<Token>,
        ghost size: nat)
      requires Buffered() && ts == Tokens() && TreesStand(lmax, dmax, dyn) && dyn.n == n && dyn.ts == ts
          && BlockOk(dyn, size)
      modifies w
      ensures w.Valid() && w.Bits() == old(w.Bits()) + BlockBits(dyn, last, |old(w.Bits())|, size)
    {
      hide ToBits, Pow2, CodesFor, BodyBits, TablesOk, HasCode, HeadBits, TreesBits, LensFit, Accepted, Runs, SentAll;
      ghost var b, ll, dl := w.Bits(), dyn.ll, dyn.dl;
      TreesOkLens(ll, dl, dyn.cl);
      SendHead(2, last);
      SendAllTrees(w, lLen[..], lmax + 1, dLen[..], dmax + 1, n, blFreq[..], blLen[..], dyn.cl);
      CompressBlock(w, tb, dBuf[..], lBuf[..], lastLit, lFreq[..], lLen[..], dFreq[..], dLen[..], ll, dl, |dl|);
      assert b + HeadBits(2, last) + TreesBits(ll, dl, dyn.cl, n) + BodyBits(ll, dl, ts)
          == b + (HeadBits(2, last) + (TreesBits(ll, dl, dyn.cl, n) + BodyBits(ll, dl, ts)));
    }

    /** The lengths in bytes of the dynamic and the fixed block for ts, or those that force a stored block. */
    ghost predicate Measured(storedLen: nat, optLenb: int, staticLenb: int, dyn: Block, ts: seq<Token>, size: nat)
    {
      if level == 0 then optLenb == staticLenb == storedLen + 5
      else
        && dyn.DynamicBlock? && BlockOk(dyn, size) && dyn.ts == ts && TokensOk(ts)
        && staticLenb == FixedSize(ts) && optLenb == Least(staticLenb, DynSize(dyn, size))
    }

    /** Builds the trees, unless a stored block is forced, and compares the lengths in bytes. */
    method Measure(storedLen: nat, ghost ts: seq<Token>, ghost size: nat)
      returns (optLenb: int, staticLenb: int, lmax: nat, dmax: nat, n: nat, ghost dyn: Block)
      requires Valid() && ts == Tokens() && Distances(ts, size)
      modifies TreeState()
      ensures Buffered() && ts == Tokens() && TokensOk(ts)
      ensures Measured(storedLen, optLenb, staticLenb, dyn, ts, size)
      ensures level > 0 ==> TreesStand(lmax, dmax, dyn) && dyn.n == n && Tailored(dyn)
    {
      hide ToBits, Pow2, CodesFor, BodyBits, TablesOk, HasCode, TreesBits, LensFit, Accepted, TreesStand,
           LitFreq, DistFreq, Distances, FixedLit, FixedDist, TokensOf, Tailored;
      DistancesOk(ts, size);
      optLenb, staticLenb := storedLen + 5, storedLen + 5;
      lmax, dmax, n, dyn := 0, 0, 0, StoredBlock([]);
      if level > 0 {
        lmax, dmax, n, dyn := BuildTrees(ts, size);
        DynamicSize(dyn, size);
        optLenb, staticLenb := (s.optLen + 3 + 7) / 8, (s.staticLen + 3 + 7) / 8;
        if staticLenb <= optLenb { optLenb := staticLenb; }
      }
    }

    /** Sends the block in the way that takes the fewest bytes. */
    method SendBest(buf: Option<seq<Byte>>, storedLen: nat, last: bool, optLenb: int, staticLenb: int, lmax: nat,
        dmax: nat, n: nat, ghost dyn: Block, ghost ts: seq<Token>, ghost size: nat) returns (ghost blk: Block)
      requires Buffered() && ts == Tokens() && TokensOk(ts) && Distances(ts, size)
      requires (level == 0 ==> buf.Some?) && (buf.Some? ==> |buf.value| == storedLen <= 0xffff)
      requires Measured(storedLen, optLenb, staticLenb, dyn, ts, size)
      requires level > 0 ==> TreesStand(lmax, dmax, dyn) && dyn.n == n
      modifies w
      ensures w.Valid() && BlockOk(blk, size) && w.Bits() == old(w.Bits()) + BlockBits(blk, last, |old(w.Bits())|, size)
      ensures if blk.StoredBlock? then buf == Some(blk.data) else Content(blk) == ts
      ensures level > 0 ==> Chosen(blk, dyn, storedLen, buf.Some?, fixedOnly, size)
    {
      hide ToBits, Pow2, CodesFor, BodyBits, TablesOk, HasCode, HeadBits, TreesBits, LensFit, Accepted, Padding,
        BlockBits, BlockOk, TreesStand, LitFreq, DistFreq, Distances, FixedLit, FixedDist, TokensOf, FixedSize, DynSize;
      if storedLen + 4 <= optLenb && buf.Some? {
        blk := StoredBlock(buf.value);
        StoredFits(buf.value, size);
        SendStored(buf.value, last, size);
      } else if fixedOnly || staticLenb == optLenb {
        blk := FixedBlock(ts);
        SendFixed(last, ts, size);
      } else {
        blk := dyn;
        SendDynamic(last, lmax, dmax, n, dyn, ts, size);
      }
    }

    /** Writes the block in the best of the three ways and starts a new one. buf is the input the block stands for,
        unless it has left the window; dyn is the dynamic block that was considered. */
    method FlushBlock(buf: Option<seq<Byte>>, storedLen: nat, last: bool, ghost size: nat) returns (ghost blk: Block,
        ghost dyn: Block)
      requires Valid() && (level == 0 ==> buf.Some?) && (buf.Some? ==> |buf.value| == storedLen <= 0xffff)
      requires Distances(Tokens(), size)
      modifies Footprint()
      ensures Valid() && Tokens() == [] && lastLit == 0 && BlockOk(blk, size)
      ensures if blk.StoredBlock? then buf == Some(blk.data) else Content(blk) == old(Tokens())
      ensures var b := old(w.Bits()) + BlockBits(blk, last, |old(w.Bits())|, size);
              w.Bits() == if last then b + Padding(|b|) else b
      ensures last ==> w.biValid == 0
      ensures level > 0 ==>
          dyn.DynamicBlock? && BlockOk(dyn, size) && dyn.ts == old(Tokens()) && Tailored(dyn)
          && Chosen(blk, dyn, storedLen, buf.Some?, fixedOnly, size)
    {
      hide ToBits, Pow2, CodesFor, BodyBits, TablesOk, HasCode, HeadBits, TreesBits, LensFit, Accepted, Padding,
        BlockBits, BlockOk, TreesStand, LitFreq, DistFreq, Distances, FixedLit, FixedDist, TokensOf,
        Chosen, FixedSize, DynSize, Content, Writer.Bits, Tailored;
      ghost var ts := Tokens();
      DistancesOk(ts, size);
      var optLenb, staticLenb, lmax, dmax, n;
      optLenb, staticLenb, lmax, dmax, n, dyn := Measure(storedLen, ts, size);
      blk := SendBest(buf, storedLen, last, optLenb, staticLenb, lmax, dmax, n, dyn, ts, size);
      InitBlock();
      if last { w.Windup(); }
    }
  }

  lemma {:induction false} StoredIs(data: seq<Byte>)
    requires |data| <= 0xffff
    ensures ToBits(|data|, 16) + ToBits(0xffff - |data|, 16) + BytesBits(data) == StoredBits(data)
  {
  }

  lemma {:induction false} DistancesOk(ts: seq<Token>, size: nat)
    requires Distances(ts, size)
    ensures TokensOk(ts)
  {
  }

  lemma {:induction false} FixedFits(ts: seq<Token>, size: nat)
    requires AllCoded(FixedLit(), FixedDist(), ts) && Distances(ts, size)
    ensures BlockOk(FixedBlock(ts), size)
  {
    hide HasCode, FixedLit, FixedDist;
  }

  lemma {:induction false} StoredFits(data: seq<Byte>, size: nat)
    requires |data| <= 0xffff
    ensures BlockOk(StoredBlock(data), size)
  {
  }

  lemma {:induction false} TreesOkLens(ll: seq<nat>, dl: seq<nat>, cl: seq<nat>)
    requires TreesOk(ll, dl) && Accepted(CODES, cl)
    ensures LensOk(ll) && LensOk(dl) && LensOk(cl)
  {
    hide Refused;
  }

  /** Bytes needed for n bits. */
  function BytesFor(n: nat): (r: nat)
  {
    (n + 7) / 8
  }

  ghost function FixedSize(ts: seq<Token>): (r: nat)
    requires TokensOk(ts)
  {
    BytesFor(3 + |BodyBits(FixedLit(), FixedDist(), ts)|)
  }

  lemma {:induction false} DynamicSize(dyn: Block, size: nat)
    requires dyn.DynamicBlock? && BlockOk(dyn, size)
    ensures TokensOk(dyn.ts) && 257 <= |dyn.ll| && 1 <= |dyn.dl| && |dyn.cl| == 19 && 4 <= dyn.n <= 19
  {
  }

  ghost function DynSize(dyn: Block, size: nat): (r: nat)
    requires dyn.DynamicBlock? && BlockOk(dyn, size)
  {
    BytesFor(3 + (|TreesBits(dyn.ll, dyn.dl, dyn.cl, dyn.n)| + |BodyBits(dyn.ll, dyn.dl, dyn.ts)|))
  }

  function Least(a: int, b: int): (r: int)
  {
    if a <= b then a else b
  }

  /** The choice between stored, fixed and dynamic codes, by whole bytes. */
  ghost predicate Chosen(blk: Block, dyn: Block, storedLen: nat, haveBuf: bool, fixedOnly: bool, size: nat)
    requires dyn.DynamicBlock? && BlockOk(dyn, size)
  {
    var f, d := FixedSize(dyn.ts), DynSize(dyn, size);
    match blk
    case StoredBlock(_) => haveBuf && storedLen + 4 <= f && storedLen + 4 <= d
    case FixedBlock(_) => (haveBuf ==> storedLen + 4 > f || storedLen + 4 > d) && (fixedOnly || f <= d)
    case DynamicBlock(_, _, _, _, _) => blk == dyn && (haveBuf ==> storedLen + 4 > d) && !fixedOnly && d < f
  }

  /** How often each code length symbol is sent. */
  function ItemFreq(items: seq<Item>): (f: seq<nat>)
    ensures |f| == 19 && forall c: nat :: c < 19 ==> f[c] == Occurs(items, c)
  {
    seq(19, c requires 0 <= c < 19 => Occurs(items, c))
  }

  /** The three codes of the block are those that build_tree makes for its tokens and for the code lengths themselves,
      and no more lengths are sent than needed. */
  ghost predicate Tailored(dyn: Block)
  {
    && dyn.DynamicBlock? && TokensOk(dyn.ts) && |dyn.ll| > 0 && |dyn.dl| > 0 && |dyn.cl| == 19 && 4 <= dyn.n <= 19
    && Fitted(LitFreq(dyn.ts), dyn.ll, 15) && Fitted(DistFreq(dyn.ts), dyn.dl, 15)
    && Fitted(ItemFreq(Items(dyn.ll) + Items(dyn.dl)), dyn.cl, 7)
    && dyn.ll[|dyn.ll| - 1] != 0 && dyn.dl[|dyn.dl| - 1] != 0 && dyn.cl[Order(dyn.n - 1)] != 0
  }

  lemma {:induction false} ItemsFitted(items: seq<Item>, f0: seq<nat>, fc: seq<nat>, dl: seq<nat>, maxCode: nat,
      forced: seq<nat>)
    requires TreeBuilt(BlDesc(), f0, fc, dl, maxCode, forced) && BL_CODES <= |f0| && BL_CODES <= |dl|
    requires forall c: nat :: c < BL_CODES ==> f0[c] == Occurs(items, c)
    requires (forall x: nat :: x < BL_CODES ==> dl[x] < 7) ==> Optimal(f0, dl, BL_CODES)
    requires FrequencySum(f0, BL_CODES) < Fib(10) ==> Optimal(f0, dl, BL_CODES)
    requires FromTree(f0, dl, BL_CODES, 7)
    ensures Fitted(ItemFreq(items), dl[..BL_CODES], 7)
  {
    hide TreeBuilt, Occurs, Optimal, FrequencySum, Fib, Fitted, FromTree;
    BuiltRange(BlDesc(), f0, fc, dl, maxCode, forced);
    assert ItemFreq(items) == f0[..BL_CODES];
    BuiltFits(BlDesc(), f0, fc, dl, maxCode, forced, BL_CODES, ItemFreq(items));
  }

  /** One of the trees of a block, its lengths taken up to the last code. */
  lemma {:induction false} TreeFitted(d: Desc, f0: seq<nat>, fc: seq<nat>, dl: seq<nat>, maxCode: nat,
      forced: seq<nat>, freq: seq<nat>)
    requires TreeBuilt(d, f0, fc, dl, maxCode, forced) && d.elems <= |f0| && d.elems <= |dl| && freq == f0[..d.elems]
    requires (forall x: nat :: x < d.elems ==> dl[x] < d.maxLength) ==> Optimal(f0, dl, d.elems)
    requires FrequencySum(f0, d.elems) < Fib(d.maxLength + 3) ==> Optimal(f0, dl, d.elems)
    requires FromTree(f0, dl, d.elems, d.maxLength)
    ensures maxCode < |dl| && dl[maxCode] != 0 && Fitted(freq, dl[..maxCode + 1], d.maxLength)
  {
    hide TreeBuilt, Optimal, FrequencySum, Fib, Fitted, FromTree;
    BuiltRange(d, f0, fc, dl, maxCode, forced);
    BuiltFits(d, f0, fc, dl, maxCode, forced, maxCode + 1, freq);
  }

  /** The block is the one that the sizes ask for: those of the stored bytes, if they are still at hand, of the fixed
      codes and of codes made for the tokens. */
  ghost predicate Picked(blk: Block, ts: seq<Token>, fixedOnly: bool, size: nat)
  {
    exists dyn: Block, have: bool :: PickedFrom(blk, dyn, have, ts, fixedOnly, size)
  }

  ghost predicate PickedFrom(blk: Block, dyn: Block, have: bool, ts: seq<Token>, fixedOnly: bool, size: nat)
  {
    Tailored(dyn) && dyn.ts == ts && BlockOk(dyn, size) && Chosen(blk, dyn, Span(ts), have, fixedOnly, size)
  }

  ghost predicate AllPicked(bs: seq<Block>, parts: seq<seq<Token>>, fixedOnly: bool, size: nat)
  {
    |bs| == |parts| && forall i :: 0 <= i < |bs| ==> Picked(bs[i], parts[i], fixedOnly, size)
  }

  lemma {:induction false} PickedMore(bs: seq<Block>, parts: seq<seq<Token>>, blk: Block, ts: seq<Token>,
      fixedOnly: bool, size: nat)
    requires AllPicked(bs, parts, fixedOnly, size) && Picked(blk, ts, fixedOnly, size)
    ensures AllPicked(bs + [blk], parts + [ts], fixedOnly, size)
  {
    hide Picked;
  }

  /** The distances of a block's matches fit the window. */
  ghost predicate Distances(ts: seq<Token>, size: nat)
  {
    TokensOk(ts) && forall i :: 0 <= i < |ts| ==> (ts[i].Match? ==> ts[i].dist <= size)
  }

  lemma {:induction false} GuardKeeps(lens: seq<nat>, n: nat, code: seq<nat>, len: seq<nat>, len': seq<nat>)
    requires n < |len| && len' == len[n := GUARD] && lens == len[..n] && CodesFor(lens, n, code, len)
    ensures CodesFor(lens, n, code, len') && lens == len'[..n]
  {
    hide Code, Rev;
  }

  lemma {:induction false} DynamicFits(ll: seq<nat>, dl: seq<nat>, cl: seq<nat>, n: nat, ts: seq<Token>, size: nat)
    requires END_BLOCK < |ll| <= L_CODES && 1 <= |dl| <= D_CODES && 4 <= n <= 19 && ll[END_BLOCK] > 0 && LensFit(ll)
        && LensFit(dl)
    requires SentAll(cl, n) && CodesOk(cl, 7) && Accepted(CODES, cl) && TreesOk(ll, dl)
        && ItemsCoded(cl, Items(ll) + Items(dl))
    requires AllCoded(ll, dl, ts) && Distances(ts, size)
    ensures BlockOk(DynamicBlock(ll, dl, cl, n, ts), size)
  {
    hide Accepted, LensFit, SentAll, Runs, HasCode, CodesOk;
  }

  /** What the two trees give together. */
  lemma {:induction false} BothBuilt(ts: seq<Token>, fL: seq<nat>, cL: seq<nat>, lL: seq<nat>, mL: nat,
      forcedL: seq<nat>, fD: seq<nat>, cD: seq<nat>, lD: seq<nat>, mD: nat, forcedD: seq<nat>)
    requires TokensOk(ts) && TreeBuilt(LDesc(), fL, cL, lL, mL, forcedL) && TreeBuilt(DDesc(), fD, cD, lD, mD, forcedD)
    requires L_CODES <= |fL| && fL[..L_CODES] == LitFreq(ts) && D_CODES <= |fD| && fD[..D_CODES] == DistFreq(ts)
    ensures END_BLOCK <= mL < L_CODES <= |lL| == |fL| && mD < D_CODES <= |lD| == |fD| && lL[END_BLOCK] > 0
    ensures CodesFor(lL[..mL + 1], mL + 1, cL, lL) && CodesFor(lD[..mD + 1], mD + 1, cD, lD)
    ensures LensFit(lL[..mL + 1]) && LensFit(lD[..mD + 1]) && TreesOk(lL[..mL + 1], lD[..mD + 1])
    ensures AllCoded(lL[..mL + 1], lD[..mD + 1], ts)
    ensures |BodyBits(lL[..mL + 1], lD[..mD + 1], ts)| == SymbolCost(LDesc(), fL, lL) + SymbolCost(DDesc(), fD, lD)
    ensures |BodyBits(FixedLit(), FixedDist(), ts)| == StaticSymbolCost(LDesc(), fL) + StaticSymbolCost(DDesc(), fD)
  {
    hide TreeBuilt, CodesFor, Accepted, LDesc, DDesc, SymbolCost, StaticSymbolCost, Complete, AllCoded, BodyBits,
      LitFreq, DistFreq, FixedLit, FixedDist;
    Sizes();
    BuiltRange(LDesc(), fL, cL, lL, mL, forcedL);
    BuiltRange(DDesc(), fD, cD, lD, mD, forcedD);
    TreeCodes(LDesc(), fL, cL, lL, mL, forcedL);
    TreeCodes(DDesc(), fD, cD, lD, mD, forcedD);
    TokensCoded(ts, fL, cL, lL, mL, forcedL, fD, cD, lD, mD, forcedD);
    CompleteAccepted(LENS, lL[..mL + 1]);
    CompleteAccepted(DISTS, lD[..mD + 1]);
    DynamicBody(ts, fL, lL, mL, fD, lD, mD);
    FixedBody(ts, fL, fD);
  }

  /** Repeat symbols alone give only zeros. */
  lemma {:induction false} OnlyZeros(got: seq<nat>, total: nat, items: seq<Item>)
    requires (forall i :: 0 <= i < |items| ==> items[i].code >= 16) && (forall i :: 0 <= i < |got| ==> got[i] == 0)
    requires Decode(got, total, items).Some?
    ensures forall i :: 0 <= i < |Decode(got, total, items).value| ==> Decode(got, total, items).value[i] == 0
    decreases |items|
  {
    if items != [] { OnlyZeros(Apply(got, total, items[0]).value, total, items[1..]); }
  }

  /** Some code length other than the three repeat symbols is used, so at least four are sent. */
  lemma {:induction false} SomePlainSent(ll: seq<nat>, dl: seq<nat>, cl: seq<nat>)
    requires LensFit(ll) && END_BLOCK < |ll| && ll[END_BLOCK] > 0 && ItemsCoded(cl, Items(ll) + Items(dl))
    ensures exists i: nat :: 3 <= i < 19 && cl[Order(i)] != 0
  {
    hide Runs, Decode, Order, Rank;
    var items := Items(ll);
    RoundTrip([], ll, |ll|);
    assert [] + ll == ll;
    if forall i :: 0 <= i < |items| ==> items[i].code >= 16 { OnlyZeros([], |ll|, items); }
    var k :| 0 <= k < |items| && items[k].code < 16;
    assert (items + Items(dl))[k] == items[k];
    OrderOfRank(items[k].code);
    PlainRank(items[k].code);
    assert cl[Order(Rank(items[k].code))] != 0;
  }

  lemma {:induction false} PlainRank(c: nat)
    requires c < 16
    ensures Rank(c) >= 3
  {
  }

  lemma {:induction false} ZerosPrefix(f: seq<nat>)
    requires BL_CODES <= |f| && f[..BL_CODES] == Zeros(BL_CODES)
    ensures forall c: nat :: c < BL_CODES ==> f[c] == 0
  {
    forall c: nat | c < BL_CODES ensures f[c] == 0 { assert f[c] == f[..BL_CODES][c]; }
  }

  lemma {:induction false} NoStatic(f: seq<nat>)
    requires BL_CODES <= |f|
    ensures StaticSymbolCost(BlDesc(), f) == 0
  {
    NoStaticTo(f, BL_CODES);
  }

  lemma {:induction false} NoStaticTo(f: seq<nat>, n: nat)
    requires BL_CODES <= |f| && n <= BL_CODES
    ensures IndexSum(StaticTab(BlDesc(), f), n) == 0
  {
    if n > 0 { NoStaticTo(f, n - 1); }
  }

  /** The counts of the code length symbols fit their fields. */
  lemma {:induction false} ItemsFitCounts(ll: seq<nat>, dl: seq<nat>, f: seq<nat>)
    requires LensFit(ll) && LensFit(dl) && |ll| <= L_CODES && |dl| <= D_CODES && BL_CODES <= |f|
    requires forall c: nat :: c < BL_CODES ==> f[c] == Occurs(Items(ll) + Items(dl), c)
    ensures FrequencySum(f, BL_CODES) < 0x1_0000
    ensures forall i :: 0 <= i < |Items(ll) + Items(dl)| ==> ItemOk((Items(ll) + Items(dl))[i])
  {
    hide Occurs, Runs, FrequencySum, SumTo;
    ItemsAreOk(ll);
    ItemsAreOk(dl);
    var items := Items(ll) + Items(dl);
    OccursSum(items, BL_CODES, f[..BL_CODES]);
    SumFits(f, f[..BL_CODES], BL_CODES, 316);
  }

  lemma {:induction false} TokensGrow(dBuf: seq<nat>, lBuf: seq<Byte>, n: nat, dist: nat, lc: Byte)
    requires n < |dBuf| && n < |lBuf|
    ensures TokensOf(dBuf[n := dist], lBuf[n := lc], n + 1) == TokensOf(dBuf, lBuf, n) + [TokenAt(dist, lc)]
  {
  }

  lemma {:induction false} TallyLit(ts: seq<Token>, t: Token)
    requires TokensOk(ts) && TokenOk(t)
    ensures TokensOk(ts + [t]) && LitFreq(ts + [t]) == Bump(LitFreq(ts), LitSymbol(t))
  {
    hide LitSymbol, Bump;
    assert (ts + [t])[..|ts|] == ts;
  }

  lemma {:induction false} TallyDist(ts: seq<Token>, t: Token)
    requires TokensOk(ts) && TokenOk(t)
    ensures TokensOk(ts + [t]) && DistFreq(ts + [t]) == if t.Match? then Bump(DistFreq(ts), DistSymbol(t))
        else DistFreq(ts)
  {
    hide DistSymbol, Bump;
    assert (ts + [t])[..|ts|] == ts;
  }
}
