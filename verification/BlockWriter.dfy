/** Writing a block: send_code, compress_block, send_tree, build_bl_tree and send_all_trees of trees.c. */
module BlockWriter {
  import opened Bits
  import opened Canonical
  import opened InflateTable
  import opened HuffmanTree
  import opened HuffmanLengths
  import opened HuffmanBuild
  import opened HuffmanCodes
  import opened StaticTables
  import opened FixedTrees
  import opened RunLength
  import opened BitWriter
  import opened Rfc1951
  import opened Decoder
  import opened BlockTrip
  import opened BlockCost

  /** The constant tables. */
  datatype Tables = Tables(lengthCode: seq<nat>, baseLength: seq<nat>, distCode: seq<nat>, baseDist: seq<nat>,
                           slCode: seq<nat>, slLen: seq<nat>, sdCode: seq<nat>, sdLen: seq<nat>)

  ghost predicate TablesOk(tb: Tables)
  {
    && LengthTable(tb.lengthCode, tb.baseLength) && DistTable(tb.distCode, tb.baseDist)
    && CodesFor(FixedLit(), 288, tb.slCode, tb.slLen) && CodesFor(FixedDist(), 30, tb.sdCode, tb.sdLen)
  }

  method MakeTables() returns (tb: Tables)
    ensures TablesOk(tb)
  {
    hide LengthTable, DistTable, CodesFor;
    var lc, bl, dc, bd := TrStaticInit();
    ghost var lc0: seq<nat>, bl0: seq<nat>, dc0: seq<nat>, bd0: seq<nat> := lc[..], bl[..], dc[..], bd[..];
    var a, b, c, d := StaticTrees();
    assert lc[..] == lc0 && bl[..] == bl0 && dc[..] == dc0 && bd[..] == bd0;
    tb := Tables(lc[..], bl[..], dc[..], bd[..], a[..], b[..], c[..], d[..]);
  }

  /** An entry of the token buffers: a distance and a length less three, or zero and a byte. */
  function TokenAt(dist: nat, lc: Byte): (r: Token)
  {
    if dist == 0 then Literal(lc) else Match(lc + 3, dist)
  }

  function TokensOf(dBuf: seq<nat>, lBuf: seq<Byte>, n: nat): (ts: seq<Token>)
    requires n <= |dBuf| && n <= |lBuf|
    ensures |ts| == n && forall i: nat :: i < n ==> ts[i] == TokenAt(dBuf[i], lBuf[i])
  {
    seq(n, i requires 0 <= i < n => TokenAt(dBuf[i], lBuf[i]))
  }

  /** The code for the symbol c, from a tree with the codes for the first n symbols of lens. */
  method SendCode(w: Writer, code: seq<nat>, len: seq<nat>, c: nat, ghost lens: seq<nat>, ghost n: nat)
    requires w.Valid() && CodesFor(lens, n, code, len) && c < n && 0 < lens[c] <= MAX_BITS
    modifies w
    ensures w.Valid() && w.Bits() == old(w.Bits()) + CodeOf(lens, c)
  {
    hide Rev, Code, Pow2, ToBits;
    RevBound(Code(lens, c), lens[c]);
    w.SendBits(code[c], len[c]);
  }

  method SendLiteral(w: Writer, lc: Byte, lcode: seq<nat>, llen: seq<nat>, ghost ll: seq<nat>, ghost dl: seq<nat>)
    requires w.Valid() && CodesFor(ll, |ll|, lcode, llen) && LensOk(ll) && HasCode(ll, dl, Literal(lc))
    modifies w
    ensures w.Valid() && w.Bits() == old(w.Bits()) + TokenBits(ll, dl, Literal(lc))
  {
    hide CodesFor, CodeOf;
    SendCode(w, lcode, llen, lc, ll, |ll|);
  }

  /** Length code and extra bits. */
  method SendLength(w: Writer, tb: Tables, lc: Byte, lcode: seq<nat>, llen: seq<nat>, ghost ll: seq<nat>)
    requires w.Valid() && TablesOk(tb) && CodesFor(ll, |ll|, lcode, llen) && LensOk(ll)
    requires 257 + LengthCode(lc) < |ll| && ll[257 + LengthCode(lc)] > 0
    modifies w
    ensures LengthCode(lc) <= 28 && LBase(LengthCode(lc)) <= lc + 3
    ensures w.Valid()
    ensures w.Bits() == old(w.Bits()) +
        (CodeOf(ll, 257 + LengthCode(lc)) + ToBits(lc + 3 - LBase(LengthCode(lc)), LBits(LengthCode(lc))))
  {
    hide CodesFor, CodeOf, LengthCode, LBase, LBits, Pow2, ToBits, DistTable;
    LengthCodeOk(lc);
    ghost var b := w.Bits();
    var code := tb.lengthCode[lc];
    LengthExtra(code);
    LengthRange(code);
    SendCode(w, lcode, llen, code + 256 + 1, ll, |ll|);
    var extra := EXTRA_LBITS[code];
    ghost var cb := CodeOf(ll, 257 + code);
    assert w.Bits() == b + cb;
    if extra != 0 {
      NotLast(code);
      w.SendBits(lc - tb.baseLength[code], extra);
    } else {
      NoExtraBits(lc + 3 - LBase(code));
    }
    assert b + cb + ToBits(lc + 3 - LBase(code), LBits(code)) == b + (cb + ToBits(lc + 3 - LBase(code), LBits(code)));
  }

  lemma {:induction false} NotLast(code: nat)
    requires code <= 28 && LBits(code) != 0
    ensures code < 28
  {
  }

  lemma {:induction false} NoExtraBits(v: nat)
    ensures ToBits(v, 0) == []
  {
  }

  method SendDistance(w: Writer, tb: Tables, d: nat, dcode: seq<nat>, dlen: seq<nat>, ghost dl: seq<nat>, ghost n: nat)
    requires w.Valid() && TablesOk(tb) && CodesFor(dl, n, dcode, dlen) && LensOk(dl) && d < 32768
    requires DistCode(d) < n && dl[DistCode(d)] > 0
    modifies w
    ensures DistCode(d) <= 29 && DBase(DistCode(d)) <= d + 1
    ensures w.Valid()
    ensures w.Bits() == old(w.Bits()) +
        (CodeOf(dl, DistCode(d)) + ToBits(d + 1 - DBase(DistCode(d)), DBits(DistCode(d))))
  {
    hide CodeOf, DistCode, DBase, DBits, Pow2, ToBits, LengthTable, DistIndex, CodesFor;
    DistCodeOk(d);
    ghost var b := w.Bits();
    var code := tb.distCode[DistIndex(d)];
    DistExtra(code);
    DistRange(code);
    CodesInside(dl, n, dcode, dlen);
    SendCode(w, dcode, dlen, code, dl, n);
    var extra := EXTRA_DBITS[code];
    ghost var cb := CodeOf(dl, code);
    assert w.Bits() == b + cb;
    if extra != 0 {
      w.SendBits(d - tb.baseDist[code], extra);
    } else {
      NoExtraBits(d + 1 - DBase(code));
    }
    assert b + cb + ToBits(d + 1 - DBase(code), DBits(code)) == b + (cb + ToBits(d + 1 - DBase(code), DBits(code)));
  }

  lemma {:induction false} CodesInside(lens: seq<nat>, n: nat, code: seq<nat>, len: seq<nat>)
    requires CodesFor(lens, n, code, len)
    ensures n <= |lens|
  {
  }

  /** A literal, or a length and a distance with their extra bits. */
  method SendToken(w: Writer, tb: Tables, dist: nat, lc: Byte, lcode: seq<nat>, llen: seq<nat>, dcode: seq<nat>,
      dlen: seq<nat>, ghost ll: seq<nat>, ghost dl: seq<nat>, ghost n: nat)
    requires w.Valid() && TablesOk(tb) && CodesFor(ll, |ll|, lcode, llen) && CodesFor(dl, n, dcode, dlen)
        && LensOk(ll) && LensOk(dl)
    requires (n == |dl| || n == D_CODES) && TokenOk(TokenAt(dist, lc)) && HasCode(ll, dl, TokenAt(dist, lc))
    modifies w
    ensures w.Valid() && w.Bits() == old(w.Bits()) + TokenBits(ll, dl, TokenAt(dist, lc))
  {
    hide CodesFor, CodeOf, LengthCode, LBase, LBits, DistCode, DBase, DBits, Pow2, ToBits, TablesOk;
    if dist == 0 {
      SendLiteral(w, lc, lcode, llen, ll, dl);
    } else {
      ghost var b := w.Bits();
      DistCodeOk(dist - 1);
      SendLength(w, tb, lc, lcode, llen, ll);
      SendDistance(w, tb, dist - 1, dcode, dlen, dl, n);
      ghost var x := CodeOf(ll, 257 + LengthCode(lc)) + ToBits(lc + 3 - LBase(LengthCode(lc)), LBits(LengthCode(lc)));
      ghost var y := CodeOf(dl, DistCode(dist - 1)) +
          ToBits(dist - DBase(DistCode(dist - 1)), DBits(DistCode(dist - 1)));
      assert w.Bits() == b + x + y;
      assert b + x + y == b + (x + y);
    }
  }

  /** The tokens of a block and its end. */
  method CompressBlock(w: Writer, tb: Tables, dBuf: seq<nat>, lBuf: seq<Byte>, lastLit: nat,
                       lcode: seq<nat>, llen: seq<nat>, dcode: seq<nat>, dlen: seq<nat>,
                       ghost ll: seq<nat>, ghost dl: seq<nat>, ghost n: nat)
    requires w.Valid() && TablesOk(tb) && CodesFor(ll, |ll|, lcode, llen) && CodesFor(dl, n, dcode, dlen)
        && LensOk(ll) && LensOk(dl)
    requires (n == |dl| || n == D_CODES) && lastLit <= |dBuf| && lastLit <= |lBuf| && END_BLOCK < |ll|
        && ll[END_BLOCK] > 0
    requires AllCoded(ll, dl, TokensOf(dBuf, lBuf, lastLit))
    modifies w
    ensures w.Valid() && w.Bits() == old(w.Bits()) + BodyBits(ll, dl, TokensOf(dBuf, lBuf, lastLit))
  {
    hide CodesFor, CodeOf, TokenBits, TokensBits, HasCode, TablesOk;
    ghost var ts := TokensOf(dBuf, lBuf, lastLit);
    ghost var b := w.Bits();
    var lx := 0;
    NoTokens(ll, dl);
    assert b + [] == b;
    while lx < lastLit
      invariant lx <= lastLit && w.Valid()
      invariant TokensOk(ts[..lx]) && w.Bits() == b + TokensBits(ll, dl, ts[..lx])
    {
      TokensAppend(ll, dl, ts[..lx], ts[lx]);
      assert ts[..lx + 1] == ts[..lx] + [ts[lx]];
      SendToken(w, tb, dBuf[lx], lBuf[lx], lcode, llen, dcode, dlen, ll, dl, n);
      assert b + (TokensBits(ll, dl, ts[..lx]) + TokenBits(ll, dl, ts[lx])) == b + TokensBits(ll, dl, ts[..lx]) +
        TokenBits(ll, dl, ts[lx]);
      lx := lx + 1;
    }
    assert ts[..lastLit] == ts;
    SendCode(w, lcode, llen, END_BLOCK, ll, |ll|);
    assert b + (TokensBits(ll, dl, ts) + CodeOf(ll, END_BLOCK)) == b + TokensBits(ll, dl, ts) + CodeOf(ll, END_BLOCK);
  }

  lemma {:induction false} NoTokens(ll: seq<nat>, dl: seq<nat>)
    ensures TokensBits(ll, dl, []) == []
  {
  }

  // ------------------------------------------------------------------ the code lengths

  /** All symbols that will be sent have a code. */
  ghost predicate ItemsCoded(cl: seq<nat>, items: seq<Item>)
  {
    |cl| == BL_CODES && LensOk(cl) && forall i :: 0 <= i < |items| ==> ItemOk(items[i]) && cl[items[i].code] > 0
  }

  lemma {:induction false} ItemsConcat(cl: seq<nat>, a: seq<Item>, b: seq<Item>)
    ensures ItemsBits(cl, a + b) == ItemsBits(cl, a) + ItemsBits(cl, b)
    ensures ItemsCoded(cl, a + b) ==> ItemsCoded(cl, a) && ItemsCoded(cl, b)
    decreases |b|
  {
    hide ItemBits;
    if b == [] {
      assert a + b == a;
      assert ItemsBits(cl, a) + [] == ItemsBits(cl, a);
    } else {
      var r, it := b[..|b| - 1], b[|b| - 1];
      assert a + b == (a + r) + [it] && b == r + [it];
      ItemsConcat(cl, a, r);
      ItemsAppend(cl, a + r, it);
      ItemsAppend(cl, r, it);
      assert ItemsBits(cl, a) + (ItemsBits(cl, r) + ItemBits(cl, it)) == ItemsBits(cl, a) + ItemsBits(cl, r) +
        ItemBits(cl, it);
      PartsCoded(cl, a, b);
    }
  }

  lemma {:induction false} PartsCoded(cl: seq<nat>, a: seq<Item>, b: seq<Item>)
    ensures ItemsCoded(cl, a + b) ==> ItemsCoded(cl, a) && ItemsCoded(cl, b)
  {
    if ItemsCoded(cl, a + b) {
      forall i | 0 <= i < |a| ensures ItemOk(a[i]) && cl[a[i].code] > 0 { assert a[i] == (a + b)[i]; }
      forall i | 0 <= i < |b| ensures ItemOk(b[i]) && cl[b[i].code] > 0 { assert b[i] == (a + b)[|a| + i]; }
    }
  }

  /** A symbol and its extra bits. */
  method SendItem(w: Writer, code: nat, extra: nat, blCode: seq<nat>, blLen: seq<nat>, ghost cl: seq<nat>)
    requires w.Valid() && CodesFor(cl, BL_CODES, blCode, blLen) && ItemsCoded(cl, [Item(code, extra)])
    modifies w
    ensures w.Valid() && w.Bits() == old(w.Bits()) + ItemsBits(cl, [Item(code, extra)])
  {
    hide CodesFor, CodeOf, ToBits, Pow2;
    ghost var b := w.Bits();
    ghost var it := [Item(code, extra)][0];
    assert ItemOk(it) && cl[it.code] > 0;
    SendCode(w, blCode, blLen, code, cl, BL_CODES);
    Pow2Values();
    if code == REP_3_6 { w.SendBits(extra, 2); }
    else if code == REPZ_3_10 { w.SendBits(extra, 3); }
    else if code == REPZ_11_138 { w.SendBits(extra, 7); }
    else { NoExtraBits(extra); }
    OneItem(cl, it);
    assert b + CodeOf(cl, code) + ToBits(extra, ItemExtra(code)) == b + ItemBits(cl, it);
  }

  lemma {:induction false} OneItem(cl: seq<nat>, it: Item)
    ensures ItemsBits(cl, [it]) == ItemBits(cl, it)
  {
    hide ItemBits;
    assert [it][1..] == [] && ItemBits(cl, it) + [] == ItemBits(cl, it);
  }

  /** The symbols for one run. */
  method SendRun(w: Writer, curlen: nat, prevlen: int, count0: nat, blCode: seq<nat>, blLen: seq<nat>,
      ghost cl: seq<nat>)
    requires w.Valid() && CodesFor(cl, BL_CODES, blCode, blLen) && curlen <= 15
        && 1 <= count0 <= MaxCount(curlen, prevlen)
    requires ItemsCoded(cl, Emit(curlen, prevlen, count0))
    modifies w
    ensures w.Valid() && w.Bits() == old(w.Bits()) + ItemsBits(cl, Emit(curlen, prevlen, count0))
  {
    hide CodesFor, ItemsBits, ItemsCoded, Writer.Bits, Copies, Emit;
    EmitIs(curlen, prevlen, count0);
    var count := count0;
    if count < MinCount(curlen, prevlen) {
      SendPlain(w, curlen, count, blCode, blLen, cl);
    } else if curlen != 0 {
      if curlen != prevlen {
        ghost var b := w.Bits();
        ghost var x, y := [Item(curlen, 0)], [Item(REP_3_6, count - 4)];
        ItemsConcat(cl, x, y);
        SendItem(w, curlen, 0, blCode, blLen, cl);
        count := count - 1;
        SendItem(w, REP_3_6, count - 3, blCode, blLen, cl);
        assert b + (ItemsBits(cl, x) + ItemsBits(cl, y)) == b + ItemsBits(cl, x) + ItemsBits(cl, y);
      } else {
        SendItem(w, REP_3_6, count - 3, blCode, blLen, cl);
      }
    } else if count <= 10 {
      SendItem(w, REPZ_3_10, count - 3, blCode, blLen, cl);
    } else {
      SendItem(w, REPZ_11_138, count - 11, blCode, blLen, cl);
    }
  }

  /** What a run is sent as. */
  lemma {:induction false} EmitIs(cur: nat, prev: int, count: nat)
    requires 1 <= count <= MaxCount(cur, prev)
    ensures count < MinCount(cur, prev) ==> Emit(cur, prev, count) == Copies(cur, count)
    ensures count >= MinCount(cur, prev) && cur != 0 ==>
        count >= 3 &&
        (if cur != prev then count >= 4 && Emit(cur, prev, count) == [Item(cur, 0)] + [Item(REP_3_6, count - 4)]
          else Emit(cur, prev, count) == [Item(REP_3_6, count - 3)])
    ensures count >= MinCount(cur, prev) && cur == 0 ==>
        count >= 3 && (if count <= 10 then Emit(cur, prev, count) == [Item(REPZ_3_10, count - 3)]
          else Emit(cur, prev, count) == [Item(REPZ_11_138, count - 11)])
  {
  }

  method SendPlain(w: Writer, curlen: nat, count0: nat, blCode: seq<nat>, blLen: seq<nat>, ghost cl: seq<nat>)
    requires w.Valid() && CodesFor(cl, BL_CODES, blCode, blLen) && ItemsCoded(cl, Copies(curlen, count0))
    modifies w
    ensures w.Valid() && w.Bits() == old(w.Bits()) + ItemsBits(cl, Copies(curlen, count0))
  {
    hide CodesFor, ItemsBits, ItemsCoded;
    var count: nat := count0;
    ghost var b := w.Bits();
    NoItems(cl);
    assert b + [] == b && Copies(curlen, 0) == [];
    while count != 0
      invariant count <= count0 && w.Valid() && w.Bits() == b + ItemsBits(cl, Copies(curlen, count0 - count))
    {
      ghost var done := Copies(curlen, count0 - count);
      assert Copies(curlen, count0 - count + 1) == done + [Item(curlen, 0)];
      assert Copies(curlen, count0) == Copies(curlen, count0 - count + 1) + Copies(curlen, count - 1);
      ItemsConcat(cl, Copies(curlen, count0 - count + 1), Copies(curlen, count - 1));
      ItemsConcat(cl, done, [Item(curlen, 0)]);
      SendItem(w, curlen, 0, blCode, blLen, cl);
      assert b + (ItemsBits(cl, done) + ItemsBits(cl, [Item(curlen, 0)])) == b + ItemsBits(cl, done) +
        ItemsBits(cl, [Item(curlen, 0)]);
      count := count - 1;
    }
  }

  lemma {:induction false} NoItems(cl: seq<nat>)
    ensures ItemsBits(cl, []) == []
  {
  }

  /** The next run of those that make up done + its symbols + rest. */
  method SendNext(w: Writer, curlen: nat, prevlen: int, count: nat, blCode: seq<nat>, blLen: seq<nat>,
      ghost cl: seq<nat>, ghost b: seq<bool>, ghost done: seq<Item>, ghost rest: seq<Item>)
    returns (ghost done': seq<Item>)
    requires w.Valid() && CodesFor(cl, BL_CODES, blCode, blLen) && curlen <= 15
        && 1 <= count <= MaxCount(curlen, prevlen)
    requires w.Bits() == b + ItemsBits(cl, done) && ItemsCoded(cl, done + (Emit(curlen, prevlen, count) + rest))
    modifies w
    ensures done' == done + Emit(curlen, prevlen, count) && done' + rest == done + (Emit(curlen, prevlen, count) + rest)
    ensures w.Valid() && w.Bits() == b + ItemsBits(cl, done')
  {
    hide Emit, ItemsBits, ItemsCoded, CodesFor, MaxCount, Writer.Bits;
    ghost var e := Emit(curlen, prevlen, count);
    assert done + (e + rest) == (done + e) + rest;
    ItemsConcat(cl, done + e, rest);
    ItemsConcat(cl, done, e);
    SendRun(w, curlen, prevlen, count, blCode, blLen, cl);
    assert b + (ItemsBits(cl, done) + ItemsBits(cl, e)) == b + ItemsBits(cl, done) + ItemsBits(cl, e);
    done' := done + e;
  }

  /** Sends the run-length coding of the lengths in tree[..maxCode + 1], which the guard follows. */
  method SendTree(w: Writer, tree: seq<nat>, maxCode: nat, blCode: seq<nat>, blLen: seq<nat>, ghost cl: seq<nat>)
    requires w.Valid() && CodesFor(cl, BL_CODES, blCode, blLen) && maxCode + 1 < |tree| && tree[maxCode + 1] == GUARD
    requires LensFit(tree[..maxCode + 1]) && ItemsCoded(cl, Items(tree[..maxCode + 1]))
    modifies w
    ensures w.Valid() && w.Bits() == old(w.Bits()) + ItemsBits(cl, Items(tree[..maxCode + 1]))
  {
    hide Runs, Emit, InRun, ItemsBits, ItemsCoded, CodesFor;
    ghost var lens: seq<nat>, b := tree[..maxCode + 1], w.Bits();
    var prevlen: int, nextlen: nat, count: nat := -1, tree[0], 0;
    var maxCount: nat, minCount: nat := 7, 4;
    if nextlen == 0 { maxCount, minCount := 138, 3; }
    StartRun(lens);
    NoItems(cl);
    assert b + [] == b;
    ghost var done: seq<Item> := [];
    for n := 0 to maxCode + 1
      invariant nextlen == tree[n] && InRun(lens, n, prevlen, count)
      invariant n <= maxCode ==> maxCount == MaxCount(nextlen, prevlen) && minCount == MinCount(nextlen, prevlen)
      invariant Items(lens) == done + Runs(lens, n, prevlen, count)
      invariant w.Valid() && w.Bits() == b + ItemsBits(cl, done)
    {
      var curlen := nextlen;
      nextlen := tree[n + 1];
      assert curlen == lens[n] && nextlen == NextLen(lens, n);
      InRunRange(lens, n, prevlen, count);
      InRunStep(lens, n, prevlen, count);
      RunsStep(lens, n, prevlen, count);
      count := count + 1;
      if !(count < maxCount && curlen == nextlen) {
        done := SendNext(w, curlen, prevlen, count, blCode, blLen, cl, b, done, Runs(lens, n + 1, curlen, 0));
        count, prevlen := 0, curlen;
        if nextlen == 0 { maxCount, minCount := 138, 3; }
        else if curlen == nextlen { maxCount, minCount := 6, 3; }
        else { maxCount, minCount := 7, 4; }
      }
    }
    RunsEnd(lens, maxCode + 1, prevlen, count);
    assert done + [] == done;
  }

  /** The three counts. */
  method SendCounts(w: Writer, lcodes: nat, dcodes: nat, blcodes: nat)
    requires w.Valid() && 257 <= lcodes <= L_CODES && 1 <= dcodes <= D_CODES && 4 <= blcodes <= BL_CODES
    modifies w
    ensures w.Valid()
    ensures w.Bits() == old(w.Bits()) + (ToBits(lcodes - 257, 5) + ToBits(dcodes - 1, 5) + ToBits(blcodes - 4, 4))
  {
    hide ToBits, Pow2;
    ghost var b := w.Bits();
    ghost var x, y, z := ToBits(lcodes - 257, 5), ToBits(dcodes - 1, 5), ToBits(blcodes - 4, 4);
    Pow2Values();
    w.SendBits(lcodes - 257, 5);
    w.SendBits(dcodes - 1, 5);
    w.SendBits(blcodes - 4, 4);
    assert b + x + y + z == b + (x + y + z);
  }

  /** The lengths of the code length codes, three bits each. */
  method SendOrder(w: Writer, blLen: seq<nat>, blcodes: nat, ghost cl: seq<nat>)
    requires w.Valid() && blcodes <= BL_CODES == |cl| <= |blLen| && blLen[..BL_CODES] == cl && CodesOk(cl, 7)
    modifies w
    ensures w.Valid() && w.Bits() == old(w.Bits()) + OrderBits(cl, blcodes)
  {
    hide ToBits, Pow2, Order;
    ghost var b := w.Bits();
    Pow2Values();
    assert b + [] == b;
    for rank := 0 to blcodes
      invariant w.Valid() && w.Bits() == b + OrderBits(cl, rank)
    {
      assert blLen[Order(rank)] == cl[Order(rank)];
      w.SendBits(blLen[Order(rank)], 3);
      assert b + (OrderBits(cl, rank) + ToBits(cl[Order(rank)], 3)) == b + OrderBits(cl, rank) +
        ToBits(cl[Order(rank)], 3);
    }
  }

  /** The header of a dynamic block. */
  method SendAllTrees(w: Writer, ltree: seq<nat>, lcodes: nat, dtree: seq<nat>, dcodes: nat, blcodes: nat,
                      blCode: seq<nat>, blLen: seq<nat>, ghost cl: seq<nat>)
    requires w.Valid() && CodesFor(cl, BL_CODES, blCode, blLen) && CodesOk(cl, 7)
    requires 257 <= lcodes <= L_CODES && 1 <= dcodes <= D_CODES && 4 <= blcodes <= BL_CODES
    requires lcodes < |ltree| && ltree[lcodes] == GUARD && LensFit(ltree[..lcodes])
    requires dcodes < |dtree| && dtree[dcodes] == GUARD && LensFit(dtree[..dcodes])
    requires ItemsCoded(cl, Items(ltree[..lcodes]) + Items(dtree[..dcodes]))
    modifies w
    ensures w.Valid() && w.Bits() == old(w.Bits()) + TreesBits(ltree[..lcodes], dtree[..dcodes], cl, blcodes)
  {
    hide ToBits, ItemsBits, ItemsCoded, Runs, Order, LensFit, OrderBits, CodesFor;
    ghost var li, di := Items(ltree[..lcodes]), Items(dtree[..dcodes]);
    CodedSize(cl, li + di);
    LengthsAre(cl, blCode, blLen);
    ghost var b := w.Bits();
    SendCounts(w, lcodes, dcodes, blcodes);
    SendOrder(w, blLen, blcodes, cl);
    ItemsConcat(cl, li, di);
    SendTree(w, ltree, lcodes - 1, blCode, blLen, cl);
    SendTree(w, dtree, dcodes - 1, blCode, blLen, cl);
    ghost var head := ToBits(lcodes - 257, 5) + ToBits(dcodes - 1, 5) + ToBits(blcodes - 4, 4);
    assert b + head + OrderBits(cl, blcodes) + ItemsBits(cl, li) + ItemsBits(cl, di)
        == b + (head + OrderBits(cl, blcodes) + (ItemsBits(cl, li) + ItemsBits(cl, di)));
  }

  lemma {:induction false} LengthsAre(cl: seq<nat>, code: seq<nat>, len: seq<nat>)
    requires |cl| == BL_CODES && CodesFor(cl, BL_CODES, code, len)
    ensures BL_CODES <= |len| && len[..BL_CODES] == cl
  {
  }

  lemma {:induction false} CodedSize(cl: seq<nat>, items: seq<Item>)
    requires ItemsCoded(cl, items)
    ensures |cl| == BL_CODES
  {
  }
}
