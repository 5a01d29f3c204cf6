/** What the built trees give to the writing of a dynamic block: codes for every symbol sent, and lengths that
    add up to the counters kept by build_tree. */
module BlockParts {
  import opened Wrappers
  import opened Bits
  import opened Canonical
  import opened InflateTable
  import opened HuffmanTree
  import opened HuffmanLengths
  import opened HuffmanBuild
  import opened StaticTables
  import opened FixedTrees
  import opened RunLength
  import opened BitWriter
  import opened Rfc1951
  import opened Decoder
  import opened BlockTrip
  import opened BlockCost
  import opened BlockWriter

  // ------------------------------------------------------------------ trailing zeros

  lemma {:induction false} CountPrefix(a: seq<nat>, b: seq<nat>, l: nat, n: nat)
    requires n <= |a| && n <= |b| && forall i :: 0 <= i < n ==> a[i] == b[i]
    ensures CountTo(a, l, n) == CountTo(b, l, n)
  {
    if n > 0 { CountPrefix(a, b, l, n - 1); }
  }

  /** Unused symbols behind the last used one change neither the counts nor the codes. */
  ghost predicate ExtendedBy(a: seq<nat>, b: seq<nat>)
  {
    |a| <= |b| && (forall i :: 0 <= i < |a| ==> b[i] == a[i]) && forall i :: |a| <= i < |b| ==> b[i] == 0
  }

  lemma {:induction false} ExtendedCount(a: seq<nat>, b: seq<nat>, l: nat)
    requires ExtendedBy(a, b) && l >= 1
    ensures Count(b, l) == Count(a, l)
  {
    CountPrefix(a, b, l, |a|);
    CountStretch(b, l, |a|, |b|, 0);
  }

  lemma {:induction false} ExtendedLeft(a: seq<nat>, b: seq<nat>, l: nat)
    requires ExtendedBy(a, b)
    ensures Left(b, l) == Left(a, l) && NextCode(b, l) == NextCode(a, l)
  {
    hide Count;
    if l > 0 {
      ExtendedCount(a, b, l);
      if l > 1 { ExtendedCount(a, b, l - 1); }
      ExtendedLeft(a, b, l - 1);
    }
  }

  lemma {:induction false} ExtendedComplete(a: seq<nat>, b: seq<nat>)
    requires ExtendedBy(a, b) && Complete(a)
    ensures Complete(b)
  {
    hide Left;
    ExtendedLeft(a, b, MAX_BITS);
  }

  lemma {:induction false} ExtendedCode(a: seq<nat>, b: seq<nat>, x: nat)
    requires ExtendedBy(a, b) && x < |a|
    ensures b[x] == a[x] && Code(b, x) == Code(a, x)
  {
    ExtendedLeft(a, b, a[x]);
    CountPrefix(a, b, a[x], x);
  }

  // ------------------------------------------------------------------ a tree that was built

  /** The codes of a tree, for its symbols up to the largest used one and for all of them. */
  lemma {:induction false} TreeCodes(d: Desc, f0: seq<nat>, fc: seq<nat>, dl: seq<nat>, maxCode: nat, forced: seq<nat>)
    requires TreeBuilt(d, f0, fc, dl, maxCode, forced) && d.maxLength <= MAX_BITS
    ensures maxCode < d.elems <= |dl| && CodesFor(dl[..maxCode + 1], maxCode + 1, fc, dl)
    ensures CodesFor(dl[..d.elems], d.elems, fc, dl)
    ensures Complete(dl[..maxCode + 1]) && Complete(dl[..d.elems])
    ensures forall i :: 0 <= i < d.elems ==> dl[i] <= d.maxLength
  {
    hide Complete, Code, Rev, SymbolsSorted;
    var a, b := dl[..maxCode + 1], dl[..d.elems];
    CodedRange(f0, dl, d.elems, maxCode, forced);
    assert ExtendedBy(a, b);
    ExtendedComplete(a, b);
    forall i: nat | i < d.elems && dl[i] != 0 ensures fc[i] == Rev(Code(b, i), b[i]) { ExtendedCode(a, b, i); }
  }

  /** Every symbol with a frequency has a code. */
  lemma {:induction false} UsedHasCode(d: Desc, f0: seq<nat>, fc: seq<nat>, dl: seq<nat>, maxCode: nat,
      forced: seq<nat>, x: nat)
    requires TreeBuilt(d, f0, fc, dl, maxCode, forced) && x < d.elems && x < |f0| && f0[x] != 0
    ensures x <= maxCode < |dl| && dl[x] > 0
  {
    hide Complete, SymbolsSorted;
  }

  lemma {:induction false} CompleteAccepted(kind: Kind, lens: seq<nat>)
    requires Complete(lens) && |lens| <= MaxSymbols(kind)
    ensures Accepted(kind, lens)
  {
    hide Left;
  }

  // ------------------------------------------------------------------ the sums of the frequencies

  lemma {:induction false} SumBump(f: seq<nat>, x: nat, n: nat)
    requires n <= |f| && x < |f|
    ensures SumTo(Bump(f, x), n) == SumTo(f, n) + if x < n then 1 else 0
  {
    if n > 0 { SumBump(f, x, n - 1); }
  }

  lemma {:induction false} SumZeros(f: seq<nat>, n: nat)
    requires n <= |f| && forall i :: 0 <= i < n ==> f[i] == 0
    ensures SumTo(f, n) == 0
  {
    if n > 0 { SumZeros(f, n - 1); }
  }

  lemma {:induction false} SumPrefix(f: seq<nat>, g: seq<nat>, n: nat)
    requires n <= |f| && n <= |g| && forall i :: 0 <= i < n ==> f[i] == g[i]
    ensures SumTo(f, n) == SumTo(g, n)
  {
    if n > 0 { SumPrefix(f, g, n - 1); }
  }

  lemma {:induction false} FreqSums(ts: seq<Token>)
    requires TokensOk(ts)
    ensures SumTo(LitFreq(ts), L_CODES) == |ts| + 1 && SumTo(DistFreq(ts), D_CODES) <= |ts|
    decreases |ts|
  {
    hide LitSymbol, DistSymbol, SumTo, Bump;
    if ts == [] {
      SumZeros(Zeros(L_CODES), L_CODES);
      SumBump(Zeros(L_CODES), END_BLOCK, L_CODES);
      SumZeros(Zeros(D_CODES), D_CODES);
    } else {
      var r, t := ts[..|ts| - 1], ts[|ts| - 1];
      FreqSums(r);
      SumBump(LitFreq(r), LitSymbol(t), L_CODES);
      if t.Match? { SumBump(DistFreq(r), DistSymbol(t), D_CODES); }
    }
  }

  lemma {:induction false} UsedNonnegative(f: seq<nat>, n: nat, m: nat)
    requires n <= m <= |f|
    ensures IndexSum(UsedTab(f, m), n) >= 0
  {
    if n > 0 { UsedNonnegative(f, n - 1, m); }
  }

  /** Few enough tokens: the frequencies fit their 16-bit fields all the way up the tree. */
  lemma {:induction false} SumFits(f: seq<nat>, g: seq<nat>, n: nat, most: nat)
    requires n == |g| <= |f| && f[..n] == g && SumTo(g, n) <= most && most + 2 < 0x1_0000
    ensures FrequencySum(f, n) < 0x1_0000
  {
    hide SumTo, IndexSum, UsedTab;
    forall i | 0 <= i < n ensures f[i] == g[i] { assert f[i] == f[..n][i]; }
    SumPrefix(f, g, n);
    UsedNonnegative(f, n, n);
  }

  // ------------------------------------------------------------------ the tokens have codes

  lemma {:induction false} TokensCoded(ts: seq<Token>, fL: seq<nat>, cL: seq<nat>, lL: seq<nat>, mL: nat,
      forcedL: seq<nat>, fD: seq<nat>, cD: seq<nat>, lD: seq<nat>, mD: nat, forcedD: seq<nat>)
    requires TokensOk(ts) && TreeBuilt(LDesc(), fL, cL, lL, mL, forcedL) && TreeBuilt(DDesc(), fD, cD, lD, mD, forcedD)
    requires L_CODES <= |fL| && fL[..L_CODES] == LitFreq(ts) && D_CODES <= |fD| && fD[..D_CODES] == DistFreq(ts)
    ensures END_BLOCK <= mL < |lL| && mD < |lD| && lL[END_BLOCK] > 0 && AllCoded(lL[..mL + 1], lD[..mD + 1], ts)
  {
    hide TreeBuilt, LitSymbol, DistSymbol, LengthCode, DistCode, LDesc, DDesc;
    Sizes();
    EndOccurs(ts);
    assert fL[END_BLOCK] == fL[..L_CODES][END_BLOCK];
    UsedHasCode(LDesc(), fL, cL, lL, mL, forcedL, END_BLOCK);
    BuiltRange(DDesc(), fD, cD, lD, mD, forcedD);
    forall i | 0 <= i < |ts| ensures HasCode(lL[..mL + 1], lD[..mD + 1], ts[i]) {
      Occurring(ts, i);
      var x := LitSymbol(ts[i]);
      assert fL[x] == fL[..L_CODES][x];
      UsedHasCode(LDesc(), fL, cL, lL, mL, forcedL, x);
      if ts[i].Match? {
        var y := DistSymbol(ts[i]);
        assert fD[y] == fD[..D_CODES][y];
        UsedHasCode(DDesc(), fD, cD, lD, mD, forcedD, y);
      }
      SymbolCoded(lL[..mL + 1], lD[..mD + 1], ts[i]);
    }
  }

  lemma {:induction false} Sizes()
    ensures LDesc().elems == L_CODES && DDesc().elems == D_CODES && BlDesc().elems == BL_CODES
    ensures LDesc().maxLength == MAX_BITS && DDesc().maxLength == MAX_BITS && BlDesc().maxLength == 7
    ensures LDesc().stree == FixedLit() && DDesc().stree == FixedDist() && BlDesc().stree == []
  {
  }

  lemma {:induction false} BuiltRange(d: Desc, f0: seq<nat>, fc: seq<nat>, dl: seq<nat>, maxCode: nat, forced: seq<nat>)
    requires TreeBuilt(d, f0, fc, dl, maxCode, forced)
    ensures maxCode < d.elems <= |dl| && |fc| == |dl| == |f0|
  {
    CodedRange(f0, dl, d.elems, maxCode, forced);
  }

  lemma {:induction false} SymbolCoded(ll: seq<nat>, dl: seq<nat>, t: Token)
    requires TokenOk(t) && LitSymbol(t) < |ll| && ll[LitSymbol(t)] > 0
    requires t.Match? ==> DistSymbol(t) < |dl| && dl[DistSymbol(t)] > 0
    ensures HasCode(ll, dl, t)
  {
    hide LengthCode, DistCode;
  }

  // ------------------------------------------------------------------ the costs

  /** The compressed data costs what build_tree added up for the two trees. */
  lemma {:induction false} DynamicBody(ts: seq<Token>, fL: seq<nat>, lL: seq<nat>, mL: nat, fD: seq<nat>,
      lD: seq<nat>, mD: nat)
    requires |fL| == |lL| >= L_CODES && |fD| == |lD| >= D_CODES && END_BLOCK <= mL < |lL| && mD < |lD|
    requires AllCoded(lL[..mL + 1], lD[..mD + 1], ts) && fL[..L_CODES] == LitFreq(ts) && fD[..D_CODES] == DistFreq(ts)
    ensures |BodyBits(lL[..mL + 1], lD[..mD + 1], ts)| == SymbolCost(LDesc(), fL, lL) + SymbolCost(DDesc(), fD, lD)
  {
    hide LitFreq, DistFreq, TokensBits, HasCode, BitsFor, IndexSum, LDesc, DDesc, CodeBits;
    Sizes();
    BodyLength(lL, lD, mL + 1, mD + 1, ts);
    forall i | 0 <= i < L_CODES ensures fL[i] == LitFreq(ts)[i] { assert fL[i] == fL[..L_CODES][i]; }
    forall i | 0 <= i < D_CODES ensures fD[i] == DistFreq(ts)[i] { assert fD[i] == fD[..D_CODES][i]; }
    BitsForFrame(LDesc(), LitFreq(ts), lL, fL, lL, L_CODES);
    BitsForFrame(DDesc(), DistFreq(ts), lD, fD, lD, D_CODES);
    SymbolCostIs(LDesc(), fL, lL, L_CODES);
    SymbolCostIs(DDesc(), fD, lD, D_CODES);
  }

  /** Every token has a fixed code. */
  lemma {:induction false} FixedCoded(ts: seq<Token>)
    requires TokensOk(ts)
    ensures AllCoded(FixedLit(), FixedDist(), ts)
  {
    hide LengthCode, DistCode;
    forall i | 0 <= i < |ts| ensures HasCode(FixedLit(), FixedDist(), ts[i]) {
      if ts[i].Match? {
        LengthCodeOk(ts[i].len - 3);
        DistCodeOk(ts[i].dist - 1);
      }
    }
  }

  /** With the fixed codes it costs what was added up as static_len. */
  lemma {:induction false} FixedBody(ts: seq<Token>, fL: seq<nat>, fD: seq<nat>)
    requires TokensOk(ts) && |fL| >= L_CODES && |fD| >= D_CODES && fL[..L_CODES] == LitFreq(ts)
        && fD[..D_CODES] == DistFreq(ts)
    ensures |BodyBits(FixedLit(), FixedDist(), ts)| == StaticSymbolCost(LDesc(), fL) + StaticSymbolCost(DDesc(), fD)
  {
    hide LitFreq, DistFreq, TokensBits, HasCode, BitsFor, IndexSum, LDesc, DDesc, CodeBits;
    Sizes();
    FixedCoded(ts);
    assert FixedLit()[..288] == FixedLit() && FixedDist()[..32] == FixedDist();
    BodyLength(FixedLit(), FixedDist(), 288, 32, ts);
    forall i | 0 <= i < L_CODES ensures fL[i] == LitFreq(ts)[i] { assert fL[i] == fL[..L_CODES][i]; }
    forall i | 0 <= i < D_CODES ensures fD[i] == DistFreq(ts)[i] { assert fD[i] == fD[..D_CODES][i]; }
    BitsForFrame(LDesc(), LitFreq(ts), FixedLit(), fL, FixedLit(), L_CODES);
    BitsForFrame(DDesc(), DistFreq(ts), FixedDist(), fD, FixedDist(), D_CODES);
    StaticCostIs(LDesc(), fL, L_CODES);
    StaticCostIs(DDesc(), fD, D_CODES);
  }

  // ------------------------------------------------------------------ the code length code

  lemma {:induction false} OccursSome(items: seq<Item>, i: nat)
    requires i < |items|
    ensures Occurs(items, items[i].code) > 0
    decreases |items|
  {
    if i < |items| - 1 { OccursSome(items[..|items| - 1], i); }
  }

  lemma {:induction false} ItemsAreOk(lens: seq<nat>)
    requires LensFit(lens)
    ensures forall i :: 0 <= i < |Items(lens)| ==> ItemOk(Items(lens)[i])
    ensures |Items(lens)| <= |lens|
  {
    RoundTrip([], lens, |lens|);
    assert [] + lens == lens;
    DecodeGrows([], |lens|, Items(lens));
  }

  /** The code length symbols of both trees have codes. */
  lemma {:induction false} ItemsHaveCodes(items: seq<Item>, f0: seq<nat>, fc: seq<nat>, dl: seq<nat>, maxCode: nat,
      forced: seq<nat>)
    requires TreeBuilt(BlDesc(), f0, fc, dl, maxCode, forced) && BL_CODES <= |f0| && BL_CODES <= |dl|
    requires (forall c: nat :: c < BL_CODES ==> f0[c] == Occurs(items, c)) && forall i ::
        0 <= i < |items| ==> ItemOk(items[i])
    ensures ItemsCoded(dl[..BL_CODES], items)
  {
    hide TreeBuilt, Occurs, BlDesc, Complete;
    Sizes();
    TreeCodes(BlDesc(), f0, fc, dl, maxCode, forced);
    forall i | 0 <= i < |items| ensures dl[..BL_CODES][items[i].code] > 0 {
      OccursSome(items, i);
      UsedHasCode(BlDesc(), f0, fc, dl, maxCode, forced, items[i].code);
    }
  }

  lemma {:induction false} OccursSum(items: seq<Item>, n: nat, f: seq<nat>)
    requires n == |f| == BL_CODES && (forall c: nat :: c < n ==> f[c] == Occurs(items, c)) && forall i ::
        0 <= i < |items| ==> items[i].code < BL_CODES
    ensures SumTo(f, n) == |items|
    decreases |items|
  {
    hide SumTo;
    if items == [] {
      SumZeros(f, n);
    } else {
      var r, it := items[..|items| - 1], items[|items| - 1];
      var g := OccurFreq(r);
      OccursSum(r, n, g);
      assert f == Bump(g, it.code);
      SumBump(g, it.code, n);
    }
  }

  /** The header of a dynamic block costs fourteen bits, three for every code length code length, and the
      code length symbols with their extra bits. */
  lemma {:induction false} HeaderLength(ll: seq<nat>, dl: seq<nat>, cl: seq<nat>, n: nat, f: seq<nat>, blLen: seq<nat>)
    requires 257 <= |ll| && 1 <= |dl| && |cl| == 19 && 4 <= n <= 19 && |f| == |blLen| >= BL_CODES
        && blLen[..BL_CODES] == cl
    requires ItemsCoded(cl, Items(ll) + Items(dl)) && forall c: nat ::
        c < BL_CODES ==> f[c] == Occurs(Items(ll) + Items(dl), c)
    ensures |TreesBits(ll, dl, cl, n)| == 14 + 3 * n + SymbolCost(BlDesc(), f, blLen)
  {
    hide ItemsBits, OrderBits, Runs, BitsFor, IndexSum, BlDesc, Occurs, ToBits;
    Sizes();
    var items := Items(ll) + Items(dl);
    assert forall i :: 0 <= i < |items| ==> ItemOk(items[i]);
    ItemsLength(cl, items);
    forall i | 0 <= i < BL_CODES ensures f[i] == OccurFreq(items)[i]
      && blLen[i] == cl[i] { assert blLen[i] == blLen[..BL_CODES][i]; }
    BitsForFrame(BlDesc(), OccurFreq(items), cl, f, blLen, BL_CODES);
    SymbolCostIs(BlDesc(), f, blLen, BL_CODES);
  }
}
