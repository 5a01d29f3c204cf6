/** The lengths of the blocks written: every token costs its codes and extra bits, so a block costs the
    frequencies times the widths of the symbols, which is what build_tree adds up. */
module BlockCost {
  import opened Bits
  import opened Canonical
  import opened InflateTable
  import opened HuffmanCost
  import opened HuffmanTree
  import opened HuffmanLengths
  import opened HuffmanBuild
  import opened StaticTables
  import opened FixedTrees
  import opened RunLength
  import opened BitWriter
  import opened Rfc1951
  import opened BlockTrip

  /** static_l_desc, static_d_desc and static_bl_desc. */
  function LDesc(): (r: Desc)
  {
    Desc(FixedLit(), EXTRA_LBITS, 257, L_CODES, MAX_BITS)
  }

  function DDesc(): (r: Desc)
  {
    Desc(FixedDist(), EXTRA_DBITS, 0, D_CODES, MAX_BITS)
  }

  function BlDesc(): (r: Desc)
  {
    Desc([], EXTRA_BLBITS, 0, BL_CODES, 7)
  }

  lemma {:induction false} DescsOk()
    ensures DescOk(LDesc()) && NoExtra(LDesc()) && DescOk(DDesc()) && NoExtra(DDesc()) && DescOk(BlDesc())
        && NoExtra(BlDesc())
  {
    hide FixedLit, FixedDist, Pow2;
    Pow2Values();
  }

  lemma {:induction false} Extras(x: nat)
    ensures x < 257 ==> ExtraBits(LDesc(), x) == 0
    ensures 257 <= x < 286 ==> ExtraBits(LDesc(), x) == LBits(x - 257)
    ensures x < 30 ==> ExtraBits(DDesc(), x) == DBits(x)
  {
    hide FixedLit, FixedDist;
  }

  lemma {:induction false} ItemExtras(x: nat)
    ensures x < 19 ==> ExtraBits(BlDesc(), x) == ItemExtra(x)
  {
  }

  // ------------------------------------------------------------------ frequencies of tokens

  /** The literal/length symbol of a token. */
  function LitSymbol(t: Token): (s: nat)
    requires TokenOk(t)
    ensures s < L_CODES
  {
    match t
    case Literal(b) => b
    case Match(len, _) => LengthCodeOk(len - 3); 257 + LengthCode(len - 3)
  }

  function DistSymbol(t: Token): (s: nat)
    requires TokenOk(t) && t.Match?
    ensures s < D_CODES
  {
    DistCodeOk(t.dist - 1);
    DistCode(t.dist - 1)
  }

  function Zeros(n: nat): (f: seq<nat>)
    ensures |f| == n && forall i :: 0 <= i < n ==> f[i] == 0
  {
    seq(n, _ => 0)
  }

  function Bump(f: seq<nat>, x: nat): (f': seq<nat>)
    requires x < |f|
    ensures |f'| == |f|
  {
    f[x := f[x] + 1]
  }

  /** How often each literal/length symbol is sent: once per token, and the end of the block. */
  function LitFreq(ts: seq<Token>): (f: seq<nat>)
    requires TokensOk(ts)
    ensures |f| == L_CODES
  {
    if ts == [] then Bump(Zeros(L_CODES), END_BLOCK) else Bump(LitFreq(ts[..|ts| - 1]), LitSymbol(ts[|ts| - 1]))
  }

  function DistFreq(ts: seq<Token>): (f: seq<nat>)
    requires TokensOk(ts)
    ensures |f| == D_CODES
  {
    if ts == [] then Zeros(D_CODES)
    else if ts[|ts| - 1].Match? then Bump(DistFreq(ts[..|ts| - 1]), DistSymbol(ts[|ts| - 1]))
    else DistFreq(ts[..|ts| - 1])
  }

  /** A symbol that occurs has a frequency. */
  lemma {:induction false} Occurring(ts: seq<Token>, i: nat)
    requires TokensOk(ts) && i < |ts|
    ensures LitFreq(ts)[LitSymbol(ts[i])] > 0
    ensures ts[i].Match? ==> DistFreq(ts)[DistSymbol(ts[i])] > 0
    decreases |ts|
  {
    hide LitSymbol, DistSymbol;
    if i < |ts| - 1 { Occurring(ts[..|ts| - 1], i); }
  }

  lemma {:induction false} EndOccurs(ts: seq<Token>)
    requires TokensOk(ts)
    ensures LitFreq(ts)[END_BLOCK] > 0
  {
    hide LitSymbol;
    if ts != [] { EndOccurs(ts[..|ts| - 1]); }
  }

  // ------------------------------------------------------------------ adding up

  /** Frequency times code length plus extra bits, for the first n symbols. */
  function BitsFor(d: Desc, f: seq<nat>, dl: seq<nat>, n: nat): (r: nat)
    requires n <= |f| && n <= |dl|
  {
    if n == 0 then 0 else BitsFor(d, f, dl, n - 1) + MulNat(f[n - 1], dl[n - 1] + ExtraBits(d, n - 1))
  }

  lemma {:induction false} MulNext(a: nat, b: nat)
    ensures MulNat(a + 1, b) == MulNat(a, b) + b
  {
    Distribute(a, 1, b);
  }

  lemma {:induction false} BitsForBump(d: Desc, f: seq<nat>, dl: seq<nat>, n: nat, x: nat)
    requires n <= |f| && n <= |dl| && x < |f| && x < |dl|
    ensures BitsFor(d, Bump(f, x), dl, n) == BitsFor(d, f, dl, n) + if x < n then dl[x] + ExtraBits(d, x) else 0
  {
    hide MulNat, ExtraBits;
    if n > 0 {
      BitsForBump(d, f, dl, n - 1, x);
      if x == n - 1 { MulNext(f[x], dl[x] + ExtraBits(d, x)); }
    }
  }

  lemma {:induction false} BitsForZeros(d: Desc, f: seq<nat>, dl: seq<nat>, n: nat)
    requires n <= |f| && n <= |dl| && forall i :: 0 <= i < n ==> f[i] == 0
    ensures BitsFor(d, f, dl, n) == 0
  {
    hide MulNat;
    if n > 0 {
      BitsForZeros(d, f, dl, n - 1);
      MulOfZero(dl[n - 1] + ExtraBits(d, n - 1));
    }
  }

  lemma {:induction false} BitsForFrame(d: Desc, f: seq<nat>, dl: seq<nat>, f': seq<nat>, dl': seq<nat>, n: nat)
    requires n <= |f| && n <= |dl| && n <= |f'| && n <= |dl'|
    requires forall i :: 0 <= i < n ==> f[i] == f'[i] && dl[i] == dl'[i]
    ensures BitsFor(d, f, dl, n) == BitsFor(d, f', dl', n)
  {
    if n > 0 { BitsForFrame(d, f, dl, f', dl', n - 1); }
  }

  /** The sums of build_tree are these. */
  lemma {:induction false} SymbolCostIs(d: Desc, f: seq<nat>, dl: seq<nat>, n: nat)
    requires n <= d.elems <= |f| == |dl|
    ensures IndexSum(LenCost(d, f, dl), n) == BitsFor(d, f, dl, n)
  {
    hide MulNat, ExtraBits;
    if n > 0 { SymbolCostIs(d, f, dl, n - 1); }
  }

  lemma {:induction false} StaticCostIs(d: Desc, f: seq<nat>, n: nat)
    requires n <= d.elems <= |f| && d.elems <= |d.stree|
    ensures IndexSum(StaticTab(d, f), n) == BitsFor(d, f, d.stree, n)
  {
    hide MulNat, ExtraBits;
    if n > 0 { StaticCostIs(d, f, n - 1); }
  }

  // ------------------------------------------------------------------ the body of a block

  lemma {:induction false} TokensAppend(ll: seq<nat>, dl: seq<nat>, ts: seq<Token>, t: Token)
    requires TokensOk(ts) && TokenOk(t)
    ensures TokensOk(ts + [t]) && TokensBits(ll, dl, ts + [t]) == TokensBits(ll, dl, ts) + TokenBits(ll, dl, t)
  {
    hide TokenBits;
    if ts == [] {
      assert [] + [t] == [t] && [t][1..] == [];
      assert TokenBits(ll, dl, t) + [] == [] + TokenBits(ll, dl, t);
    } else {
      TokensAppend(ll, dl, ts[1..], t);
      assert (ts + [t])[0] == ts[0] && (ts + [t])[1..] == ts[1..] + [t];
      assert TokenBits(ll, dl, ts[0]) + (TokensBits(ll, dl, ts[1..]) + TokenBits(ll, dl, t))
          == TokenBits(ll, dl, ts[0]) + TokensBits(ll, dl, ts[1..]) + TokenBits(ll, dl, t);
    }
  }

  /** One token costs its symbols' lengths and extra bits. */
  lemma {:induction false} TokenLength(ll: seq<nat>, dl: seq<nat>, t: Token)
    requires TokenOk(t) && HasCode(ll, dl, t)
    ensures LitSymbol(t) < |ll| && (t.Match? ==> DistSymbol(t) < |dl|)
    ensures |TokenBits(ll, dl, t)| == ll[LitSymbol(t)] + ExtraBits(LDesc(), LitSymbol(t))
         + if t.Match? then dl[DistSymbol(t)] + ExtraBits(DDesc(), DistSymbol(t)) else 0
  {
    hide LengthCode, DistCode, LBase, LBits, DBase, DBits, ExtraBits, CodeBits;
    Extras(LitSymbol(t));
    if t.Match? {
      LengthCodeOk(t.len - 3);
      DistCodeOk(t.dist - 1);
      Extras(DistSymbol(t));
    }
  }

  ghost predicate AllCoded(ll: seq<nat>, dl: seq<nat>, ts: seq<Token>)
  {
    TokensOk(ts) && forall i :: 0 <= i < |ts| ==> HasCode(ll, dl, ts[i])
  }

  /** The tokens of a block and its end cost what the frequencies say. */
  lemma {:induction false} BodyLength(llen: seq<nat>, dlen: seq<nat>, m: nat, k: nat, ts: seq<Token>)
    requires END_BLOCK < m <= |llen| && k <= |dlen| && L_CODES <= |llen| && D_CODES <= |dlen|
        && AllCoded(llen[..m], dlen[..k], ts)
    ensures |TokensBits(llen[..m], dlen[..k], ts)| + llen[END_BLOCK]
         == BitsFor(LDesc(), LitFreq(ts), llen, L_CODES) + BitsFor(DDesc(), DistFreq(ts), dlen, D_CODES)
    decreases |ts|
  {
    hide LitSymbol, DistSymbol, TokenBits, ExtraBits, LDesc, DDesc, HasCode, BitsFor;
    if ts == [] {
      BitsForZeros(LDesc(), Zeros(L_CODES), llen, L_CODES);
      BitsForBump(LDesc(), Zeros(L_CODES), llen, L_CODES, END_BLOCK);
      BitsForZeros(DDesc(), Zeros(D_CODES), dlen, D_CODES);
      Extras(END_BLOCK);
    } else {
      var r, t := ts[..|ts| - 1], ts[|ts| - 1];
      assert ts == r + [t];
      TokensAppend(llen[..m], dlen[..k], r, t);
      TokenLength(llen[..m], dlen[..k], t);
      BodyLength(llen, dlen, m, k, r);
      BitsForBump(LDesc(), LitFreq(r), llen, L_CODES, LitSymbol(t));
      if t.Match? { BitsForBump(DDesc(), DistFreq(r), dlen, D_CODES, DistSymbol(t)); }
    }
  }

  // ------------------------------------------------------------------ the header of a dynamic block

  function OccurFreq(items: seq<Item>): (f: seq<nat>)
    ensures |f| == BL_CODES && forall c: nat :: c < BL_CODES ==> f[c] == Occurs(items, c)
  {
    seq(BL_CODES, c requires 0 <= c < BL_CODES => Occurs(items, c))
  }

  lemma {:induction false} ItemsAppend(cl: seq<nat>, items: seq<Item>, it: Item)
    ensures ItemsBits(cl, items + [it]) == ItemsBits(cl, items) + ItemBits(cl, it)
  {
    hide ItemBits;
    if items == [] {
      assert [] + [it] == [it] && [it][1..] == [];
      assert ItemBits(cl, it) + [] == [] + ItemBits(cl, it);
    } else {
      ItemsAppend(cl, items[1..], it);
      assert (items + [it])[0] == items[0] && (items + [it])[1..] == items[1..] + [it];
      assert ItemBits(cl, items[0]) + (ItemsBits(cl, items[1..]) + ItemBits(cl, it))
          == ItemBits(cl, items[0]) + ItemsBits(cl, items[1..]) + ItemBits(cl, it);
    }
  }

  lemma {:induction false} ItemsLength(cl: seq<nat>, items: seq<Item>)
    requires |cl| == BL_CODES && forall i :: 0 <= i < |items| ==> items[i].code < BL_CODES
    ensures |ItemsBits(cl, items)| == BitsFor(BlDesc(), OccurFreq(items), cl, BL_CODES)
    decreases |items|
  {
    hide CodeBits, ItemExtra, ExtraBits, BlDesc, BitsFor;
    if items == [] {
      BitsForZeros(BlDesc(), OccurFreq([]), cl, BL_CODES);
    } else {
      var r, it := items[..|items| - 1], items[|items| - 1];
      assert items == r + [it];
      ItemsAppend(cl, r, it);
      ItemsLength(cl, r);
      assert OccurFreq(items) == Bump(OccurFreq(r), it.code);
      BitsForBump(BlDesc(), OccurFreq(r), cl, BL_CODES, it.code);
      ItemExtras(it.code);
    }
  }
}
