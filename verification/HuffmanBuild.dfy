/** build_tree of trees.c as a whole, stated by symbol: who gets a code, that the lengths are complete,
    sorted and optimal, what the codes are, and what the block costs. */
module HuffmanBuild {
  import opened Bits
  import opened Canonical
  import opened HuffmanCost
  import opened HuffmanHeap
  import opened HuffmanTree
  import opened HuffmanLengths
  import opened HuffmanDepth
  import opened HuffmanCodes

  /** The first n entries of g added up. */
  function IndexSum(g: seq<int>, n: nat): (r: int)
  {
    if n == 0 then 0 else IndexSum(g, n - 1) + At(g, n - 1)
  }

  /** A sum over a list of distinct numbers is a sum over all numbers, when the others count nothing. */
  lemma {:induction false} SumByIndex(g: seq<int>, s: seq<nat>, n: nat)
    requires (forall x :: multiset(s)[x] <= 1) && Below(s, n) && forall x: nat :: x < n && x !in s ==> At(g, x) == 0
    ensures Sum(g, s) == IndexSum(g, n)
  {
    hide Sum;
    if n == 0 {
      SumEmpty(g, s);
    } else if n - 1 in s {
      var j :| 0 <= j < |s| && s[j] == n - 1;
      var r := Without(s, j);
      SumAt(g, s, j);
      WithoutMultiset(s, j);
      DistinctRest(s, j);
      SumByIndex(g, r, n - 1);
    } else {
      SumByIndex(g, s, n - 1);
    }
  }

  lemma {:induction false} SumEmpty(g: seq<int>, s: seq<nat>)
    requires Below(s, 0)
    ensures Sum(g, s) == 0
  {
  }

  lemma {:induction false} DistinctRest(s: seq<nat>, j: nat)
    requires (forall x :: multiset(s)[x] <= 1) && j < |s| && Below(s, s[j] + 1)
    ensures forall x :: multiset(Without(s, j))[x] <= 1
    ensures Below(Without(s, j), s[j]) && forall x: nat :: x in s ==> x in Without(s, j) || x == s[j]
  {
    hide Without;
    var r := Without(s, j);
    WithoutMultiset(s, j);
    assert multiset(s)[s[j]] == 1 + multiset(r)[s[j]];
    forall x ensures multiset(r)[x] <= 1 {
      assert multiset(r)[x] <= multiset(s)[x];
    }
    forall i | 0 <= i < |r| ensures r[i] < s[j] {
      assert r[i] in multiset(r);
      assert r[i] in multiset(s);
      assert r[i] in s;
    }
    forall x: nat | x in s ensures x in r || x == s[j] { assert x in multiset(s); }
  }

  // ------------------------------------------------------------------ counts and completeness

  /** Counting the lengths of the leaves counts the symbols that have this length. */
  lemma {:induction false} CountIsSum(dl: seq<nat>, base: nat, b: nat, m: nat, n: nat)
    requires n <= m <= base && m <= |dl|
    ensures CountTo(dl[..m], b, n) == IndexSum(LenTab(base, dl, b), n)
  {
    if n > 0 { CountIsSum(dl, base, b, m, n - 1); }
  }

  lemma {:induction false} ZeroBeyond(g: seq<int>, m: nat, n: nat)
    requires m <= n && forall x: nat :: m <= x < n ==> At(g, x) == 0
    ensures IndexSum(g, n) == IndexSum(g, m)
    decreases n
  {
    if m < n { ZeroBeyond(g, m, n - 1); }
  }

  /** Codes left, in units of the longest length: what the shorter codes have not used up. */
  lemma {:induction false} LeftIsRest(lens: seq<nat>, bl: seq<nat>, max: nat, n: nat)
    requires n <= max < |bl| && forall b: nat :: 1 <= b <= max ==> bl[b] == Count(lens, b)
    ensures Left(lens, n) * Pow2(max - n) + KraftTo(bl, max, n) == Pow2(max)
  {
    hide Count;
    if n > 0 {
      LeftIsRest(lens, bl, max, n - 1);
      LeftArith(Left(lens, n - 1), bl[n], max, n);
    }
  }

  lemma {:induction false} LeftArith(left: int, c: nat, max: nat, n: nat)
    requires 0 < n <= max
    ensures (2 * left - c) * Pow2(max - n) + MulNat(c, Pow2(max - n)) == left * Pow2(max - (n - 1))
  {
    Distribute(2 * left, c, Pow2(max - n));
    assert Pow2(max - (n - 1)) == 2 * Pow2(max - n);
    assert left * (2 * Pow2(max - n)) == 2 * left * Pow2(max - n);
  }

  lemma {:induction false} LeftStaysZero(lens: seq<nat>, m: nat, n: nat)
    requires m <= n && Left(lens, m) == 0 && forall b: nat :: m < b <= n ==> Count(lens, b) == 0
    ensures Left(lens, n) == 0
    decreases n
  {
    hide Count;
    if m < n { LeftStaysZero(lens, m, n - 1); }
  }

  /** Exact Kraft sum: the code is complete. */
  lemma {:induction false} CompleteByCounts(lens: seq<nat>, bl: seq<nat>, max: nat, leaves: nat)
    requires LensOk(lens) && CountsOk(bl, max, 0, leaves) && forall b: nat ::
        1 <= b <= MAX_BITS ==> bl[b] == Count(lens, b)
    ensures Complete(lens) && Valid(lens)
    ensures forall b: nat :: b <= MAX_BITS ==> bl[b] == Used(lens, b)
  {
    hide Count, LeavesTo, KraftTo, Left;
    LeftIsRest(lens, bl, max, max);
    Pow2Values();
    assert Left(lens, max) == 0;
    LeftStaysZero(lens, max, MAX_BITS);
  }

  // ------------------------------------------------------------------ who has a code

  /** The symbols with a code are the used ones and the forced ones; maxCode is the largest. */
  ghost predicate CodedAre(freq0: seq<nat>, dl: seq<nat>, elems: nat, maxCode: nat, forced: seq<nat>)
  {
    && maxCode < elems <= |freq0| && elems <= |dl| && dl[maxCode] != 0
    && (forall x: nat :: x < elems ==> (dl[x] != 0 <==> freq0[x] != 0 || x in forced))
    && (forall x: nat :: maxCode < x < elems ==> dl[x] == 0)
    && (forall x: nat :: x in forced ==> x < elems && freq0[x] == 0 && x <= 2 && dl[x] == 1)
  }

  /** Everything about the leaves in one place. */
  ghost predicate LeavesDone(t: Hist, d: Desc, freq0: seq<nat>, freq: seq<nat>, dl: seq<nat>, maxCode: nat,
      now0: seq<nat>, forced: seq<nat>)
  {
    && Forced(now0, freq0, t.leaves, freq, dl, d.elems, maxCode, forced) && LeavesAre(now0, freq0, d.elems)
    && d.elems <= |dl| == |freq| && (forall x: nat :: x in t.leaves ==> 1 <= dl[x] <= d.maxLength)
    && (forced != [] ==> forall x: nat :: x in t.leaves ==> dl[x] == 1)
  }

  lemma {:induction false} ForcedParts(leaves: seq<nat>, elems: nat, freq0: seq<nat>, freq: seq<nat>, dl: seq<nat>,
      maxCode: nat, now0: seq<nat>, forced: seq<nat>)
    requires Forced(now0, freq0, leaves, freq, dl, elems, maxCode, forced) && LeavesAre(now0, freq0, elems)
    ensures forall x: nat :: x in forced ==> x < elems && x <= 2 && freq[x] == 1 && freq0[x] == 0
    ensures forall x: nat :: x in leaves <==> x in now0 || x in forced
    ensures forall x: nat :: x < elems && freq0[x] != 0 ==> freq[x] == freq0[x]
  {
    hide Sum, Unused;
    forall x: nat | x in forced ensures x < elems && x <= 2 && freq[x] == 1 && freq0[x] == 0 {
      assert x in leaves;
      DistinctParts(now0, forced, x);
    }
  }

  lemma {:induction false} CodedByLeaves(t: Hist, d: Desc, freq0: seq<nat>, freq: seq<nat>, dl: seq<nat>,
      maxCode: nat, now0: seq<nat>, forced: seq<nat>)
    requires LeavesDone(t, d, freq0, freq, dl, maxCode, now0, forced)
    ensures CodedAre(freq0, dl, d.elems, maxCode, forced)
    ensures forall x: nat :: x < d.elems ==> dl[x] <= d.maxLength
  {
    hide Sum;
    ForcedParts(t.leaves, d.elems, freq0, freq, dl, maxCode, now0, forced);
  }

  lemma {:induction false} DistinctParts(a: seq<nat>, b: seq<nat>, x: nat)
    requires (forall y :: multiset(a + b)[y] <= 1) && x in b
    ensures x !in a
  {
    assert multiset(a + b) == multiset(a) + multiset(b);
    assert multiset(b)[x] >= 1;
    assert multiset(a + b)[x] <= 1;
  }

  // ------------------------------------------------------------------ the block's bit lengths

  /** What the symbols cost with their codes: frequency times code length plus extra bits. */
  function SymbolCost(d: Desc, freq0: seq<nat>, dl: seq<nat>): (r: int)
    requires |freq0| == |dl|
  {
    IndexSum(LenCost(d, freq0, dl), d.elems)
  }

  function StaticSymbolCost(d: Desc, freq0: seq<nat>): (r: int)
  {
    IndexSum(StaticTab(d, freq0), d.elems)
  }

  ghost predicate NoExtra(d: Desc)
  {
    forall x: nat :: x <= 2 ==> ExtraBits(d, x) == 0
  }

  lemma {:induction false} ForcedCost(d: Desc, freq: seq<nat>, dl: seq<nat>, forced: seq<nat>)
    requires |freq| == |dl| && NoExtra(d) && d.elems <= |dl|
    requires forall x: nat :: x in forced ==> x < d.elems && x <= 2 && dl[x] == 1 && freq[x] == 1
    ensures Sum(LenCost(d, freq, dl), forced) == |forced|
  {
    if forced != [] {
      MulUnit(1);
      assert forced[0] in forced && forall x: nat :: x in forced[1..] ==> x in forced;
      ForcedCost(d, freq, dl, forced[1..]);
    }
  }

  lemma {:induction false} ForcedStatic(d: Desc, freq: seq<nat>, forced: seq<nat>)
    requires NoExtra(d) && d.elems <= |freq| && (d.stree == [] || d.elems <= |d.stree|)
    requires forall x: nat :: x in forced ==> x < d.elems && x <= 2 && freq[x] == 1
    ensures Sum(StaticTab(d, freq), forced) == StaticCost(d.stree, forced)
  {
    hide Sum, MulNat, StaticTab;
    if forced == [] {
      NothingSummed(StaticTab(d, freq));
    } else {
      var k := |forced| - 1;
      assert forall x: nat :: x in forced[..k] ==> x in forced;
      ForcedStatic(d, freq, forced[..k]);
      SumAppend(StaticTab(d, freq), forced[..k], forced[k]);
      assert forced == forced[..k] + [forced[k]];
      assert forced[k] in forced;
      StaticAt(d, freq, forced[k]);
    }
  }

  lemma {:induction false} NothingSummed(g: seq<int>)
    ensures Sum(g, []) == 0
  {
  }

  lemma {:induction false} StaticAt(d: Desc, freq: seq<nat>, x: nat)
    requires NoExtra(d) && x < d.elems <= |freq| && x <= 2 && freq[x] == 1
    ensures At(StaticTab(d, freq), x) == if x < |d.stree| then d.stree[x] else 0
  {
    MulUnit(if x < |d.stree| then d.stree[x] else 0);
  }

  lemma {:induction false} MulUnit(a: nat)
    ensures MulNat(1, a) == a && MulNat(0, a) == 0
  {
  }

  /** A quantity of the leaves, summed over the symbols that were used from the start. */
  lemma {:induction false} UsedSum(g: seq<int>, g0: seq<int>, now0: seq<nat>, freq0: seq<nat>, n: nat)
    requires LeavesAre(now0, freq0, n)
    requires forall x: nat :: x < n ==> At(g0, x) == if freq0[x] == 0 then 0 else At(g, x)
    ensures Sum(g, now0) == IndexSum(g0, n)
  {
    hide Sum;
    LeavesBelow(now0, freq0, n);
    SumSame(g0, g, now0);
    SumByIndex(g0, now0, n);
  }

  /** The forced codes charge one bit each, which had been subtracted when they were added. */
  lemma {:induction false} BlockCost(t: Hist, d: Desc, freq0: seq<nat>, freq: seq<nat>, dl: seq<nat>, maxCode: nat,
      now0: seq<nat>, forced: seq<nat>)
    requires LeavesDone(t, d, freq0, freq, dl, maxCode, now0, forced) && NoExtra(d)
    requires d.stree == [] || d.elems <= |d.stree|
    ensures |freq0| == |freq| == |dl|
    ensures Sum(LenCost(d, freq, dl), t.leaves) == SymbolCost(d, freq0, dl) + |forced|
    ensures Sum(StaticTab(d, freq), t.leaves) == StaticSymbolCost(d, freq0) + StaticCost(d.stree, forced)
  {
    hide Sum, MulNat, IndexSum, StaticCost, ExtraBits;
    ForcedParts(t.leaves, d.elems, freq0, freq, dl, maxCode, now0, forced);
    SumConcat(LenCost(d, freq, dl), now0, forced);
    SumConcat(StaticTab(d, freq), now0, forced);
    ForcedCost(d, freq, dl, forced);
    ForcedStatic(d, freq, forced);
    forall a: nat ensures MulNat(0, a) == 0 { MulUnit(a); }
    UsedSum(LenCost(d, freq, dl), LenCost(d, freq0, dl), now0, freq0, d.elems);
    UsedSum(StaticTab(d, freq), StaticTab(d, freq0), now0, freq0, d.elems);
  }

  // ------------------------------------------------------------------ optimality

  /** cs gives every used symbol a code of at least one bit, none a prefix of another. */
  ghost predicate PrefixCode(freq0: seq<nat>, cs: seq<seq<bool>>)
  {
    && |cs| <= |freq0|
    && (forall i :: 0 <= i < |cs| && freq0[i] != 0 ==> cs[i] != [])
    && (forall i, j :: 0 <= i < |cs| && 0 <= j < |cs| && i != j && freq0[i] != 0 && freq0[j] != 0 ==>
      !IsPrefix(cs[i], cs[j]))
  }

  lemma {:induction false} PrefixCodeSize(freq0: seq<nat>, cs: seq<seq<bool>>)
    requires PrefixCode(freq0, cs)
    ensures |cs| <= |freq0|
  {
  }

  function BitsTab(freq0: seq<nat>, cs: seq<seq<bool>>): (g: seq<int>)
    requires |cs| <= |freq0|
    ensures |g| == |cs| && forall x: nat :: x < |cs| ==> g[x] == MulNat(freq0[x], |cs[x]|)
  {
    seq(|cs|, x requires 0 <= x < |cs| => MulNat(freq0[x], |cs[x]|))
  }

  function LenBits(freq0: seq<nat>, dl: seq<nat>, n: nat): (g: seq<int>)
    requires n <= |freq0| && n <= |dl|
    ensures |g| == n && forall x: nat :: x < n ==> g[x] == MulNat(freq0[x], dl[x])
  {
    seq(n, x requires 0 <= x < n => MulNat(freq0[x], dl[x]))
  }

  /** No prefix code needs fewer bits for the symbols than the lengths in dl. */
  ghost predicate Optimal(freq0: seq<nat>, dl: seq<nat>, n: nat)
    requires n <= |freq0| && n <= |dl|
  {
    forall cs: seq<seq<bool>> :: |cs| == n && PrefixCode(freq0, cs) ==>
      IndexSum(LenBits(freq0, dl, n), n) <= IndexSum(BitsTab(freq0, cs), n)
  }

  function Pick<T>(a: seq<T>, s: seq<nat>): (r: seq<T>)
    requires Below(s, |a|)
    ensures |r| == |s| && forall i :: 0 <= i < |s| ==> r[i] == a[s[i]]
  {
    seq(|s|, i requires 0 <= i < |s| => a[s[i]])
  }

  lemma {:induction false} PickWeights(freq: seq<nat>, s: seq<nat>)
    requires Below(s, |freq|)
    ensures multiset(Pick(freq, s)) == Weights(freq, s)
  {
    if s != [] {
      var p := Pick(freq, s);
      PickWeights(freq, s[1..]);
      assert p == [freq[s[0]]] + Pick(freq, s[1..]);
    }
  }

  lemma {:induction false} PickCost(freq: seq<nat>, cs: seq<seq<bool>>, s: seq<nat>)
    requires |cs| <= |freq| && Below(s, |freq|) && Below(s, |cs|)
    ensures Cost(Pick(freq, s), Lengths(Pick(cs, s))) == Sum(BitsTab(freq, cs), s)
  {
    hide MulNat;
    if s != [] {
      PickCost(freq, cs, s[1..]);
      assert Pick(freq, s)[1..] == Pick(freq, s[1..]);
      assert Pick(cs, s)[1..] == Pick(cs, s[1..]);
      assert Lengths(Pick(cs, s))[1..] == Lengths(Pick(cs, s[1..]));
    }
  }

  lemma {:induction false} PickPrefixFree(freq0: seq<nat>, cs: seq<seq<bool>>, s: seq<nat>)
    requires PrefixCode(freq0, cs) && LeavesAre(s, freq0, |cs|) && Below(s, |cs|)
    ensures HuffmanCost.PrefixFree(Pick(cs, s))
  {
    var p := Pick(cs, s);
    forall i, j | 0 <= i < |p| && 0 <= j < |p| && i != j ensures !IsPrefix(p[i], p[j]) {
      assert s[i] in s && s[j] in s;
      TwiceInList(s, i, j);
    }
  }

  lemma {:induction false} TwiceInList(s: seq<nat>, i: nat, j: nat)
    requires (forall x :: multiset(s)[x] <= 1) && i < |s| && j < |s| && i != j
    ensures s[i] != s[j]
  {
    WithoutMultiset(s, i);
    var r := Without(s, i);
    assert s[j] == r[if j < i then j else j - 1];
    assert s[j] in multiset(r);
    assert multiset(s)[s[i]] == 1 + multiset(r)[s[i]];
  }

  /** The depths in the tree cost no more than any prefix code. */
  lemma {:induction false} TreeIsOptimal(t: Hist, freq: seq<nat>, dad: seq<nat>, run: seq<(nat, nat)>,
      order: seq<nat>, cs: seq<seq<bool>>)
    requires Grown(t, freq, dad, run, order) && LeavesAre(t.leaves, freq, |cs|) && |cs| == t.base
        && PrefixCode(freq, cs)
    ensures Sum(WeightedDepth(freq, dad, Root(t)), t.leaves) <= Sum(BitsTab(freq, cs), t.leaves)
  {
    hide FathersOk, SonsOk, Telescopes, FreqOk, OrderIs, Sum, Weights, Created, Total, Pow2, GreedyTo, PrefixCode,
      LeavesAre;
    CostIsCreated(t, freq, dad);
    LeavesBelow(t.leaves, freq, |cs|);
    PrefixCodeSize(freq, cs);
    var w, cl := Pick(freq, t.leaves), Pick(cs, t.leaves);
    PickWeights(freq, t.leaves);
    PickCost(freq, cs, t.leaves);
    PickPrefixFree(freq, cs, t.leaves);
    GreedyIsOptimal(w, cl, run, multiset{freq[Root(t)]});
  }

  lemma {:induction false} IndexSumSame(g: seq<int>, g': seq<int>, n: nat)
    requires forall x: nat :: x < n ==> At(g', x) == At(g, x)
    ensures IndexSum(g', n) == IndexSum(g, n)
  {
    if n > 0 { IndexSumSame(g, g', n - 1); }
  }

  lemma {:induction false} IndexSumMono(g: seq<int>, g': seq<int>, n: nat)
    requires forall x: nat :: x < n ==> At(g, x) <= At(g', x)
    ensures IndexSum(g, n) <= IndexSum(g', n)
  {
    if n > 0 { IndexSumMono(g, g', n - 1); }
  }

  lemma {:induction false} MulOfZero(a: nat)
    ensures MulNat(0, a) == 0
  {
  }

  lemma {:induction false} GrownParts(t: Hist, freq: seq<nat>, dad: seq<nat>, run: seq<(nat, nat)>, order: seq<nat>)
    requires Grown(t, freq, dad, run, order)
    ensures |t.leaves| == |t.ch| + 1 && |t.ch| > 0 && |freq| == |dad| && t.base + |t.ch| <= |freq|
    ensures Shape(t, dad, [Root(t)]) && Telescopes(t, [Root(t)]) && FreqOk(t, freq) && Ordered(t, order)
        && ByFrequency(freq, order)
  {
    hide Telescopes, FathersOk, SonsOk, OrderIs;
  }

  lemma {:induction false} LeavesFrame(leaves: seq<nat>, freq: seq<nat>, freq': seq<nat>, n: nat)
    requires LeavesAre(leaves, freq, n) && n <= |freq'| && forall i: nat :: i < n ==> freq'[i] == freq[i]
    ensures LeavesAre(leaves, freq', n)
  {
  }

  lemma {:induction false} CodeFrame(freq: seq<nat>, freq': seq<nat>, cs: seq<seq<bool>>)
    requires PrefixCode(freq, cs) && |cs| <= |freq'| && forall i: nat :: i < |cs| ==> freq'[i] == freq[i]
    ensures PrefixCode(freq', cs)
  {
    hide IsPrefix;
  }

  /** Two or more used symbols and no overflow: the lengths are optimal. */
  lemma {:induction false} DepthsOptimal(t: Hist, freq: seq<nat>, dad: seq<nat>, run: seq<(nat, nat)>,
      order: seq<nat>, freq0: seq<nat>, dl: seq<nat>)
    requires Grown(t, freq, dad, run, order) && t.base <= |freq0| && t.base <= |dl| && t.base <= |freq|
    requires (forall i: nat :: i < t.base ==> freq[i] == freq0[i]) && LeavesAre(t.leaves, freq0, t.base)
    requires forall x: nat :: x in t.leaves ==> x < |dl| && dl[x] == Depth(dad, Root(t), x)
    ensures Optimal(freq0, dl, t.base)
  {
    hide Shape, Grown, Depth, Sum, MulNat;
    var n := t.base;
    forall cs: seq<seq<bool>> | |cs| == n && PrefixCode(freq0, cs)
      ensures IndexSum(LenBits(freq0, dl, n), n) <= IndexSum(BitsTab(freq0, cs), n)
    {
      GrownParts(t, freq, dad, run, order);
      LeavesFrame(t.leaves, freq0, freq, n);
      CodeFrame(freq0, freq, cs);
      TreeIsOptimal(t, freq, dad, run, order, cs);
      forall a: nat ensures MulNat(0, a) == 0 { MulOfZero(a); }
      UsedSum(WeightedDepth(freq, dad, Root(t)), LenBits(freq0, dl, n), t.leaves, freq0, n);
      UsedSum(BitsTab(freq, cs), BitsTab(freq0, cs), t.leaves, freq0, n);
    }
  }

  /** At most one used symbol: one bit is the least there can be. */
  lemma {:induction false} OneBitOptimal(freq0: seq<nat>, dl: seq<nat>, n: nat)
    requires n <= |freq0| && n <= |dl| && forall x: nat :: x < n && freq0[x] != 0 ==> dl[x] == 1
    ensures Optimal(freq0, dl, n)
  {
    hide MulNat;
    forall cs: seq<seq<bool>> | |cs| == n && PrefixCode(freq0, cs)
      ensures IndexSum(LenBits(freq0, dl, n), n) <= IndexSum(BitsTab(freq0, cs), n)
    {
      forall x: nat | x < n ensures MulNat(freq0[x], dl[x]) <=
        MulNat(freq0[x], |cs[x]|) { OneBit(freq0[x], dl[x], |cs[x]|); }
      IndexSumMono(LenBits(freq0, dl, n), BitsTab(freq0, cs), n);
    }
  }

  lemma {:induction false} OneBit(f: nat, a: nat, b: nat)
    requires f != 0 ==> a <= b
    ensures MulNat(f, a) <= MulNat(f, b)
  {
    MulOfZero(a);
    MulOfZero(b);
    if f != 0 {
      MulComm(f, a);
      MulComm(f, b);
      MulMono(a, b, f);
    }
  }

  // ------------------------------------------------------------------ build_tree

  /** One for every used symbol. */
  function UsedTab(freq: seq<nat>, n: nat): (g: seq<int>)
    requires n <= |freq|
    ensures |g| == n && forall x: nat :: x < n ==> g[x] == if freq[x] != 0 then 1 else 0
  {
    seq(n, x requires 0 <= x < n => if freq[x] != 0 then 1 else 0)
  }

  /** The number of used symbols. */
  function UsedCount(freq: seq<nat>, n: nat): (c: int)
    requires n <= |freq|
  {
    IndexSum(UsedTab(freq, n), n)
  }

  /** The largest used symbol, or -1. */
  function LastUsed(freq: seq<nat>, n: nat): (r: int)
    requires n <= |freq|
  {
    if n == 0 then -1 else if freq[n - 1] != 0 then n - 1 else LastUsed(freq, n - 1)
  }

  lemma {:induction false} CollectedIs(now: seq<nat>, freq: seq<nat>, dl: seq<nat>, n: nat, top: int)
    requires Collected(now, freq, dl, n, top)
    ensures n <= |freq| && |now| == UsedCount(freq, n) && top == LastUsed(freq, n) && LeavesAre(now, freq, n)
    ensures Sum(freq, now) == SumTo(freq, n)
  {
    hide Sum, Unused, IndexSum;
    LeavesBelow(now, freq, n);
    LeafCount(n, n, now);
    UsedSum(LeafTab(n, n), UsedTab(freq, n), now, freq, n);
    LastIs(now, freq, n, n, top);
  }

  lemma {:induction false} LastIs(now: seq<nat>, freq: seq<nat>, m: nat, n: nat, top: int)
    requires LeavesAre(now, freq, m) && n <= m && -1 <= top < n && (top == -1 ==> now == [])
    requires (top >= 0 ==> top in now) && forall x: nat :: x in now ==> x <= top
    ensures LastUsed(freq, n) == top
  {
    if n > 0 && freq[n - 1] == 0 { LastIs(now, freq, m, n - 1, top); }
    if n > 0 && freq[n - 1] != 0 { assert n - 1 in now; }
  }

  /** What the frequencies add up to, with the codes that will be forced. */
  function FrequencySum(freq: seq<nat>, n: nat): (r: int)
    requires n <= |freq|
  {
    SumTo(freq, n) + if UsedCount(freq, n) < 2 then 2 - UsedCount(freq, n) else 0
  }

  function ForcedCodes(freq: seq<nat>, n: nat): (r: seq<int>)
    requires n <= |freq|
  {
    if UsedCount(freq, n) < 0 then [] else Missing(UsedCount(freq, n), LastUsed(freq, n))
  }

  /** All that build_tree promises, by symbol: frequencies freq0 before, codes fc and lengths dl after. */
  ghost predicate TreeBuilt(d: Desc, freq0: seq<nat>, fc: seq<nat>, dl: seq<nat>, maxCode: nat, forced: seq<nat>)
  {
    && |fc| == |dl| == |freq0| && CodedAre(freq0, dl, d.elems, maxCode, forced) && forced == ForcedCodes(freq0, d.elems)
    && (forall x: nat :: x < d.elems ==> dl[x] <= d.maxLength) && Complete(dl[..maxCode + 1])
    && (forall x: nat :: x <= maxCode && dl[x] != 0 ==> fc[x] == Rev(Code(dl[..maxCode + 1], x), dl[x]))
    && (forall x: nat, y: nat :: x < d.elems && y < d.elems ==> SymbolsSorted(freq0, dl, x, y))
  }

  ghost predicate SymbolsSorted(freq0: seq<nat>, dl: seq<nat>, x: nat, y: nat)
    requires x < |freq0| && y < |freq0| && x < |dl| && y < |dl|
  {
    freq0[x] < freq0[y] && dl[x] != 0 ==> dl[y] <= dl[x]
  }

  /** A tree of two leaves is one level deep. */
  lemma {:induction false} TwoLeaves(t: Hist, dad: seq<nat>, x: nat)
    requires |t.ch| == 1 && Shape(t, dad, [Root(t)]) && x in t.leaves
    ensures Depth(dad, Root(t), x) == 1
  {
    assert IsNode(t, x) && x !in [Root(t)];
    assert IsSon(t, x, dad[x] - t.base);
    SonDepth(t, dad, x, 0);
    RootDepth(dad, Root(t));
  }

  lemma {:induction false} QueueNodes(h: seq<nat>, len: nat, freq: seq<nat>, depth: seq<nat>, elems: nat)
    requires len < |h| && LeavesAre(Slice(h, len), freq, elems) && elems <= |depth|
    ensures NodesOk(h, len, freq, depth)
  {
    LeavesBelow(Slice(h, len), freq, elems);
    forall i | 1 <= i <= len ensures h[i] < |freq| && h[i] < |depth| { assert h[i] == Slice(h, len)[i - 1]; }
  }

  /** The finished tree is what gen_bitlen expects. */
  lemma {:induction false} ReadyForLengths(t: Hist, d: Desc, freq: seq<nat>, dad: seq<nat>, run: seq<(nat, nat)>,
      order: seq<nat>, maxCode: nat, f1: seq<nat>, l1: seq<nat>, now0: seq<nat>, f0: seq<nat>,
                                             forced: seq<nat>)
    requires DescOk(d) && Grown(t, freq, dad, run, order) && t.base == d.elems && |t.leaves| <= d.elems
    requires Forced(now0, f0, t.leaves, f1, l1, d.elems, maxCode, forced)
    ensures TreeReady(t, d, freq, dad, order, maxCode) && ByFrequency(freq, order)
  {
    hide Telescopes, FathersOk, SonsOk, OrderIs, FreqOk, LeavesAre, Unused, Sum;
    GrownParts(t, freq, dad, run, order);
  }

  /** What is known of the leaves once the lengths are there. */
  lemma {:induction false} LeavesAreDone(t: Hist, d: Desc, freq: seq<nat>, dad: seq<nat>, run: seq<(nat, nat)>,
      order: seq<nat>, maxCode: nat, f1: seq<nat>, l1: seq<nat>, now0: seq<nat>, f0: seq<nat>,
                                           forced: seq<nat>,
                                         dl: seq<nat>, bl: seq<nat>, opt: int, static_: int)
    requires Grown(t, freq, dad, run, order) && t.base == d.elems && DescOk(d)
    requires Forced(now0, f0, t.leaves, f1, l1, d.elems, maxCode, forced) && LeavesAre(now0, f0, d.elems)
    requires Kept(Hist(t.leaves, [], d.elems), f1, freq, l1, dad) && |dl| == |dad| == |f0|
    requires LengthsDone(t, d, freq, dl, bl, opt, static_)
    requires DepthsIfShallow(t, dad, d.maxLength, dl)
    requires forall x: nat :: x < d.elems && x !in t.leaves && x < |dl| ==> dl[x] == dad[x]
    ensures LeavesDone(t, d, f0, f1, dl, maxCode, now0, forced)
  {
    hide Telescopes, FathersOk, SonsOk, OrderIs, FreqOk, LeavesAre, Sum, CountsOk, Depth, Ordered, ByFrequency, Shape;
    GrownParts(t, freq, dad, run, order);
    if forced != [] {
      forall x: nat | x in t.leaves ensures Depth(dad, Root(t), x) == 1 { TwoLeaves(t, dad, x); }
    }
  }

  /** Lengths are the depths, if these are within the limit. */
  ghost predicate DepthsIfShallow(t: Hist, dad: seq<nat>, max: nat, dl: seq<nat>)
  {
    |t.ch| > 0 && (Shallow(t, dad, max) ==> forall x: nat ::
      x in t.leaves ==> x < |dl| && dl[x] == Depth(dad, Root(t), x))
  }

  /** The lengths by symbol: complete, and counted in bl. */
  lemma {:induction false} LengthsBySymbol(t: Hist, d: Desc, f0: seq<nat>, f1: seq<nat>, dl: seq<nat>, maxCode: nat,
      now0: seq<nat>, forced: seq<nat>, freq: seq<nat>, bl: seq<nat>, opt: int, static_: int)
    requires LeavesDone(t, d, f0, f1, dl, maxCode, now0, forced) && DescOk(d)
    requires LengthsDone(t, d, freq, dl, bl, opt, static_)
    ensures maxCode + 1 <= |dl| && Complete(dl[..maxCode + 1]) && Valid(dl[..maxCode + 1])
    ensures |bl| == MAX_BITS + 1 && forall b: nat :: b <= MAX_BITS ==> bl[b] == Used(dl[..maxCode + 1], b)
  {
    hide Sum, IndexSum, CountTo, CountsOk, Used, Complete, Valid, Forced, LeavesAre;
    CodedByLeaves(t, d, f0, f1, dl, maxCode, now0, forced);
    var lens, n := dl[..maxCode + 1], d.elems;
    LeavesAreLeaves(t, d, f0, f1, dl, maxCode, now0, forced);
    forall b: nat | 1 <= b <= MAX_BITS ensures bl[b] == Count(lens, b) {
      var g := LenTab(n, dl, b);
      SumByIndex(g, t.leaves, n);
      ZeroBeyond(g, maxCode + 1, n);
      CountIsSum(dl, n, b, maxCode + 1, maxCode + 1);
    }
    CompleteByCounts(lens, bl, d.maxLength, |t.leaves|);
  }

  lemma {:induction false} LeavesAreLeaves(t: Hist, d: Desc, f0: seq<nat>, f1: seq<nat>, dl: seq<nat>, maxCode: nat,
      now0: seq<nat>, forced: seq<nat>)
    requires LeavesDone(t, d, f0, f1, dl, maxCode, now0, forced)
    ensures (forall x :: multiset(t.leaves)[x] <= 1) && Below(t.leaves, d.elems)
    ensures forall x: nat :: x < d.elems && x !in t.leaves ==> dl[x] == 0
  {
    hide Sum;
    LeavesBelow(t.leaves, f1, d.elems);
  }

  lemma {:induction false} SortedBySymbol(t: Hist, d: Desc, f0: seq<nat>, f1: seq<nat>, dl: seq<nat>, maxCode: nat,
      now0: seq<nat>, forced: seq<nat>, freq: seq<nat>)
    requires LeavesDone(t, d, f0, f1, dl, maxCode, now0, forced) && LengthsSorted(t, freq, dl)
    requires SymbolsKept(f1, freq, d.elems) && |freq| == |dl| && |f0| == |dl|
    ensures forall x: nat, y: nat :: x < d.elems && y < d.elems ==> SymbolsSorted(f0, dl, x, y)
  {
    hide Sum;
    ForcedParts(t.leaves, d.elems, f0, f1, dl, maxCode, now0, forced);
    LeavesAreLeaves(t, d, f0, f1, dl, maxCode, now0, forced);
    forall x: nat, y: nat | x < d.elems && y < d.elems ensures SymbolsSorted(f0, dl, x, y) {
      if f0[x] < f0[y] && dl[x] != 0 {
        assert x in t.leaves && y in t.leaves;
        if forced == [] { assert NotLonger(freq, dl, x, y); }
      }
    }
  }

  /** Growing the tree leaves the symbols' own frequencies alone. */
  ghost predicate SymbolsKept(f1: seq<nat>, freq: seq<nat>, n: nat)
  {
    n <= |f1| == |freq| && forall i: nat :: i < n ==> freq[i] == f1[i]
  }

  lemma {:induction false} OptimalBySymbol(t: Hist, d: Desc, f0: seq<nat>, f1: seq<nat>, dl: seq<nat>, maxCode: nat,
      now0: seq<nat>, forced: seq<nat>, freq: seq<nat>, dad: seq<nat>, run: seq<(nat, nat)>, order: seq<nat>)
    requires LeavesDone(t, d, f0, f1, dl, maxCode, now0, forced) && Grown(t, freq, dad, run, order) && t.base == d.elems
    requires SymbolsKept(f1, freq, d.elems) && |f0| == |dl| && DepthsIfShallow(t, dad, d.maxLength, dl)
        && Shallow(t, dad, d.maxLength)
    ensures Optimal(f0, dl, d.elems)
  {
    hide Sum, Shallow, Optimal, Depth, Grown;
    ForcedParts(t.leaves, d.elems, f0, f1, dl, maxCode, now0, forced);
    if forced == [] {
      assert now0 + [] == now0;
      assert t.leaves == now0;
      DepthsOptimal(t, freq, dad, run, order, f0, dl);
    } else {
      OneBitOptimal(f0, dl, d.elems);
    }
  }

  lemma {:induction false} KeptSymbols(leaves: seq<nat>, elems: nat, f1: seq<nat>, freq: seq<nat>, l1: seq<nat>,
      dad: seq<nat>)
    requires Kept(Hist(leaves, [], elems), f1, freq, l1, dad) && elems <= |f1|
    ensures SymbolsKept(f1, freq, elems)
  {
  }

  lemma {:induction false} CostParts(t: Hist, d: Desc, freq: seq<nat>, dl: seq<nat>, bl: seq<nat>, opt: int,
      static_: int)
    requires LengthsDone(t, d, freq, dl, bl, opt, static_)
    ensures |dl| == |freq| && opt == Sum(LenCost(d, freq, dl), t.leaves) && static_ == Sum(StaticTab(d, freq), t.leaves)
  {
  }

  lemma {:induction false} CostFrame(d: Desc, f1: seq<nat>, freq: seq<nat>, dl: seq<nat>, s: seq<nat>)
    requires SymbolsKept(f1, freq, d.elems) && |freq| == |dl| && Below(s, d.elems)
    ensures Sum(LenCost(d, freq, dl), s) == Sum(LenCost(d, f1, dl), s)
    ensures Sum(StaticTab(d, freq), s) == Sum(StaticTab(d, f1), s)
  {
    hide Sum, MulNat, ExtraBits;
    SumSame(LenCost(d, f1, dl), LenCost(d, freq, dl), s);
    SumSame(StaticTab(d, f1), StaticTab(d, freq), s);
  }

  lemma {:induction false} ForcedSum(now0: seq<nat>, f0: seq<nat>, now: seq<nat>, freq: seq<nat>, dl: seq<nat>,
      elems: nat, top: int, forced: seq<nat>)
    requires Forced(now0, f0, now, freq, dl, elems, top, forced)
    ensures LeavesAre(now, freq, elems) && Sum(freq, now) == Sum(f0, now0) + |forced| && |freq| == |f0|
  {
  }

  lemma {:induction false} MissingSize(used: nat, top: int)
    ensures |Missing(used, top)| == if used < 2 then 2 - used else 0
  {
  }

  /** Everything build_tree promises, from what its parts have established. */
  lemma {:induction false} BuiltFromParts(t: Hist, d: Desc, f0: seq<nat>, f1: seq<nat>, l1: seq<nat>, now0: seq<nat>,
      forced: seq<nat>, maxCode: nat, freq: seq<nat>, dad: seq<nat>, run: seq<(nat, nat)>, order: seq<nat>,
                                          dl: seq<nat>, bl: seq<nat>, opt: int, static_: int)
    requires DescOk(d) && NoExtra(d) && Forced(now0, f0, t.leaves, f1, l1, d.elems, maxCode, forced)
        && LeavesAre(now0, f0, d.elems)
    requires Grown(t, freq, dad, run, order) && t.base == d.elems
        && Kept(Hist(t.leaves, [], d.elems), f1, freq, l1, dad)
    requires LengthsDone(t, d, freq, dl, bl, opt, static_) && LengthsSorted(t, freq, dl) && |f0| == |dad|
    requires DepthsIfShallow(t, dad, d.maxLength, dl) && |dl| == |dad|
    requires forall x: nat :: x < d.elems && x !in t.leaves && x < |dl| ==> dl[x] == dad[x]
    ensures maxCode < d.elems && |dl| == |f0| && d.elems <= |dl| && CodedAre(f0, dl, d.elems, maxCode, forced)
    ensures forall x: nat :: x < d.elems ==> dl[x] <= d.maxLength
    ensures Complete(dl[..maxCode + 1]) && Valid(dl[..maxCode + 1])
    ensures |bl| == MAX_BITS + 1 && forall b: nat :: b <= MAX_BITS ==> bl[b] == Used(dl[..maxCode + 1], b)
    ensures forall x: nat, y: nat :: x < d.elems && y < d.elems ==> SymbolsSorted(f0, dl, x, y)
    ensures opt == SymbolCost(d, f0, dl) + |forced| && static_ == StaticSymbolCost(d, f0) + StaticCost(d.stree, forced)
    ensures Shallow(t, dad, d.maxLength) ==> Optimal(f0, dl, d.elems)
  {
    hide LengthsDone, LengthsSorted, LeavesDone, Kept, Complete, Valid, Used, Sum, IndexSum, Optimal, Shallow, Grown,
      Forced, LeavesAre,
         SymbolsSorted, CodedAre, DepthsIfShallow, ExtraBits, StaticCost, SymbolCost, StaticSymbolCost, SymbolsKept,
           NoExtra, Shape,
         Telescopes, FreqOk, Ordered, ByFrequency, Pow2;
    CostParts(t, d, freq, dl, bl, opt, static_);
    GrownParts(t, freq, dad, run, order);
    LeavesAreDone(t, d, freq, dad, run, order, maxCode, f1, l1, now0, f0, forced, dl, bl, opt, static_);
    CodedByLeaves(t, d, f0, f1, dl, maxCode, now0, forced);
    CodedRange(f0, dl, d.elems, maxCode, forced);
    LengthsBySymbol(t, d, f0, f1, dl, maxCode, now0, forced, freq, bl, opt, static_);
    ForcedSum(now0, f0, t.leaves, f1, l1, d.elems, maxCode, forced);
    KeptSymbols(t.leaves, d.elems, f1, freq, l1, dad);
    SortedBySymbol(t, d, f0, f1, dl, maxCode, now0, forced, freq);
    BlockCost(t, d, f0, f1, dl, maxCode, now0, forced);
    LeavesAreLeaves(t, d, f0, f1, dl, maxCode, now0, forced);
    CostFrame(d, f1, freq, dl, t.leaves);
    if Shallow(t, dad, d.maxLength) {
      OptimalBySymbol(t, d, f0, f1, dl, maxCode, now0, forced, freq, dad, run, order);
    }
  }

  lemma {:induction false} CodedRange(f0: seq<nat>, dl: seq<nat>, elems: nat, maxCode: nat, forced: seq<nat>)
    requires CodedAre(f0, dl, elems, maxCode, forced)
    ensures maxCode < elems && elems <= |dl| && elems <= |f0|
  {
  }

  /** Collects the leaves, forces two codes and merges: the finished tree in dl and heap[heapMax..]. */
  method PlantTree(s: Builder, fc: array<nat>, dl: array<nat>, d: Desc)
    returns (maxCode: nat, ghost forced: seq<nat>, ghost t: Hist, ghost run: seq<(nat, nat)>,
             ghost now0: seq<nat>, ghost f1: seq<nat>, ghost l1: seq<nat>)
    requires Separate(s, fc, dl) && DescOk(d) && 2 * d.elems <= fc.Length && FrequencySum(fc[..], d.elems) < 0x1_0000
    modifies s`heapLen, s`heapMax, s`optLen, s`staticLen, s.heap, s.depth, fc, dl
    ensures t.base == d.elems && LeavesAre(now0, old(fc[..]), d.elems) && forced == ForcedCodes(old(fc[..]), d.elems)
    ensures Forced(now0, old(fc[..]), t.leaves, f1, l1, d.elems, maxCode, forced)
    ensures Sum(f1, t.leaves) == FrequencySum(old(fc[..]), d.elems)
    ensures s.heapMax < HEAP_SIZE && Grown(t, fc[..], dl[..], run, s.heap[s.heapMax..]) && AllInTurn(t, fc[..])
    ensures Kept(Hist(t.leaves, [], d.elems), f1, fc[..], l1, dl[..]) && |t.leaves| <= d.elems
    ensures s.optLen == old(s.optLen) - |forced| && s.staticLen == old(s.staticLen) - StaticCost(d.stree, forced)
  {
    hide Collected, Forced, LeavesAre, Grown, Kept, Sum, IndexSum, StaticCost, UsedCount, SumTo, LastUsed, Slice,
      NodesOk, HeapFrom, AllFlat, AllInTurn;
    ghost var f0: seq<nat> := fc[..];
    var top := s.CollectLeaves(fc, dl, d.elems);
    now0 := s.Now();
    CollectedIs(now0, f0, dl[..], d.elems, top);
    maxCode, forced := s.ForceTwo(fc, dl, d.elems, top, d.stree);
    MissingSize(|now0|, top);
    ghost var leaves: seq<nat> := s.Now();
    f1, l1 := fc[..], dl[..];
    ForcedSum(now0, f0, leaves, f1, l1, d.elems, maxCode, forced);
    QueueNodes(s.heap[..], s.heapLen, fc[..], s.depth[..], d.elems);
    s.EstablishHeap(fc);
    FlatSame(s.depth[..], leaves, s.Now());
    t, run := s.GrowTree(fc, dl, d.elems, leaves);
  }

  /** t is a tree that Huffman's algorithm builds for the first n frequencies, a forced code counting as used once, and
      of equal frequencies the less deep subtree coming first; dad holds the fathers. */
  ghost predicate TreeFor(freq0: seq<nat>, n: nat, t: Hist, freq: seq<nat>, dad: seq<nat>, run: seq<(nat, nat)>,
      order: seq<nat>)
  {
    && Grown(t, freq, dad, run, order) && AllInTurn(t, freq)
    && t.base == n && n <= |freq0| && n <= |freq| && LeavesAre(t.leaves, freq, n)
    && forall i: nat :: i < n ==> freq[i] == if i in ForcedCodes(freq0, n) then 1 else freq0[i]
  }

  /** Some tree for these frequencies has a leaf deeper than max. */
  ghost predicate MayOverflow(freq0: seq<nat>, n: nat, max: nat)
  {
    exists t, freq, dad, run, order ::
      TreeFor(freq0, n, t, freq, dad, run, order) && |t.ch| > 0 && !Shallow(t, dad, max)
  }

  /** The lengths are the depths in such a tree, unless it is too deep. */
  ghost predicate FromTree(freq0: seq<nat>, dl: seq<nat>, n: nat, max: nat)
  {
    exists t, freq, dad, run, order ::
      TreeFor(freq0, n, t, freq, dad, run, order) && |t.ch| > 0 && DepthsIfShallow(t, dad, max, dl)
  }

  lemma {:induction false} TreeForParts(t: Hist, f0: seq<nat>, n: nat, f1: seq<nat>, l1: seq<nat>, now0: seq<nat>,
      forced: seq<nat>, maxCode: int, freq: seq<nat>, dad: seq<nat>, run: seq<(nat, nat)>, order: seq<nat>)
    requires Forced(now0, f0, t.leaves, f1, l1, n, maxCode, forced) && forced == ForcedCodes(f0, n) && n <= |f0|
    requires Grown(t, freq, dad, run, order) && t.base == n && Kept(Hist(t.leaves, [], n), f1, freq, l1, dad)
    requires AllInTurn(t, freq)
    ensures TreeFor(f0, n, t, freq, dad, run, order)
  {
    hide Grown, ForcedCodes, Unused, Sum, AllInTurn;
    LeavesFrame(t.leaves, f1, freq, n);
  }

  /** Builds the tree for the frequencies in fc and leaves the codes there and the code lengths in dl: a complete prefix
      code within the length limit, and an optimal one unless a length had to be cut, which leaves a code of the
      greatest length.  No length is cut when the frequencies add up to less than the Fibonacci number for the limit. */
  method BuildTree(s: Builder, fc: array<nat>, dl: array<nat>, d: Desc) returns (maxCode: nat, ghost forced: seq<nat>)
    requires Separate(s, fc, dl) && DescOk(d) && NoExtra(d) && 2 * d.elems <= fc.Length
        && FrequencySum(fc[..], d.elems) < 0x1_0000
    modifies s`heapLen, s`heapMax, s`optLen, s`staticLen, s.heap, s.depth, s.blCount, fc, dl
    ensures TreeBuilt(d, old(fc[..]), fc[..], dl[..], maxCode, forced)
    ensures s.optLen == old(s.optLen) + SymbolCost(d, old(fc[..]), dl[..])
    ensures s.staticLen == old(s.staticLen) + StaticSymbolCost(d, old(fc[..]))
    ensures (forall x: nat :: x < d.elems ==> dl[x] < d.maxLength) ==> Optimal(old(fc[..]), dl[..], d.elems)
    ensures Optimal(old(fc[..]), dl[..], d.elems) || MayOverflow(old(fc[..]), d.elems, d.maxLength)
    ensures FrequencySum(old(fc[..]), d.elems) < Fib(d.maxLength + 3) ==> Optimal(old(fc[..]), dl[..], d.elems)
    ensures FromTree(old(fc[..]), dl[..], d.elems, d.maxLength)
  {
    hide Forced, LeavesAre, Grown, Kept, TreeReady, ByFrequency, LengthsDone, LengthsSorted, Shallow, Optimal, Depth,
         Complete, Valid, Used, CodedAre, SymbolsSorted, DepthsIfShallow, SymbolCost, StaticSymbolCost, StaticCost,
           CodesTo, Code, Rev, Sum, Fib,
         ForcedCodes, FrequencySum, Shape, Telescopes, FreqOk, Ordered, TreeFor, AllInTurn;
    ghost var f0: seq<nat> := fc[..];
    ghost var t, run, now0, f1, l1;
    maxCode, forced, t, run, now0, f1, l1 := PlantTree(s, fc, dl, d);
    ghost var order: seq<nat>, freq: seq<nat>, dad: seq<nat> := s.heap[s.heapMax..], fc[..], dl[..];
    GrownParts(t, freq, dad, run, order);
    TreeForParts(t, f0, d.elems, f1, l1, now0, forced, maxCode, freq, dad, run, order);
    ReadyForLengths(t, d, freq, dad, run, order, maxCode, f1, l1, now0, f0, forced);
    ghost var opt1, static1 := s.optLen, s.staticLen;
    GenBitlen(s, fc, dl, d, maxCode, t, order);
    DepthsKnown(t, dad, d.maxLength, dl[..]);
    LeavesInRange(t, dad);
    ForcedSum(now0, f0, t.leaves, f1, l1, d.elems, maxCode, forced);
    LightEnough(t, d.elems, f1, freq, l1, dad, run, order, d.maxLength);
    ghost var l3: seq<nat> := dl[..];
    BuiltFromParts(t, d, f0, f1, l1, now0, forced, maxCode, freq, dad, run, order, l3, s.blCount[..],
      s.optLen - opt1, s.staticLen - static1);
    GenCodes(fc, dl, maxCode, s.blCount);
    CodesStored(l3, freq, fc[..], maxCode);
  }

  /** With a total below the Fibonacci number no leaf is too deep. */
  lemma {:induction false} LightEnough(t: Hist, n: nat, f1: seq<nat>, freq: seq<nat>, l1: seq<nat>, dad: seq<nat>,
      run: seq<(nat, nat)>, order: seq<nat>, max: nat)
    requires Grown(t, freq, dad, run, order) && t.base == n && Kept(Hist(t.leaves, [], n), f1, freq, l1, dad)
    requires LeavesAre(t.leaves, f1, n)
    ensures Sum(f1, t.leaves) < Fib(max + 3) ==> Shallow(t, dad, max)
  {
    hide Grown, Sum, Shallow, Fib;
    LeavesFrame(t.leaves, f1, freq, n);
    if Sum(f1, t.leaves) < Fib(max + 3) {
      SumSame(f1, freq, t.leaves);
      LightIsShallow(t, freq, dad, run, order, max);
    }
  }

  lemma {:induction false} LeavesInRange(t: Hist, dad: seq<nat>)
    requires |t.ch| > 0 && Shape(t, dad, [Root(t)])
    ensures forall x: nat :: x in t.leaves ==> x < t.base
  {
    forall x: nat | x in t.leaves ensures x < t.base {
      var i :| 0 <= i < |t.leaves| && t.leaves[i] == x;
    }
  }

  lemma {:induction false} DepthsKnown(t: Hist, dad: seq<nat>, max: nat, dl: seq<nat>)
    requires |t.ch| > 0 && (Shallow(t, dad, max) ==> forall x: nat ::
        x in t.leaves ==> x < |dl| && dl[x] == Depth(dad, Root(t), x))
    ensures DepthsIfShallow(t, dad, max, dl)
  {
  }

  lemma {:induction false} CodesStored(dl: seq<nat>, before: seq<nat>, fc: seq<nat>, maxCode: nat)
    requires maxCode + 1 <= |dl| && CodesTo(dl[..maxCode + 1], before, fc, maxCode + 1)
    ensures |fc| == |before| && maxCode < |fc|
    ensures forall x: nat :: x <= maxCode && dl[x] != 0 ==> fc[x] == Rev(Code(dl[..maxCode + 1], x), dl[x])
  {
    hide Code, Rev;
  }

  // ------------------------------------------------------------------ what a block needs to know

  /** The lengths of n symbols, none for those behind the end of lens. */
  function Padded(lens: seq<nat>, n: nat): (r: seq<nat>)
    ensures |r| == n && forall x: nat :: x < n ==> r[x] == if x < |lens| then lens[x] else 0
  {
    seq(n, x requires 0 <= x < n => if x < |lens| then lens[x] else 0)
  }

  /** The lengths are those that build_tree makes for n symbols with frequencies freq: codes for the symbols that
      occur and those forced, no shorter ones for rarer symbols, the depths in a tree that Huffman's algorithm builds;
      and no prefix code is better if no length was cut, which is so below a Fibonacci number. */
  ghost predicate FittedTo(freq: seq<nat>, n: nat, lens: seq<nat>, max: nat)
    requires n <= |freq|
  {
    var dl := Padded(lens, n);
    && (forall x: nat :: x < n ==> (dl[x] != 0 <==> freq[x] != 0 || x in ForcedCodes(freq, n)))
    && (forall x: nat, y: nat :: x < n && y < n ==> SymbolsSorted(freq, dl, x, y))
    && ((forall x: nat :: x < n ==> dl[x] < max) ==> Optimal(freq, dl, n))
    && (FrequencySum(freq, n) < Fib(max + 3) ==> Optimal(freq, dl, n))
    && FromTree(freq, dl, n, max)
  }

  /** The same for all symbols of freq. */
  ghost predicate Fitted(freq: seq<nat>, lens: seq<nat>, max: nat)
  {
    exists f0: seq<nat> :: Begins(freq, f0) && FittedTo(f0, |freq|, lens, max)
  }

  ghost predicate Begins(freq: seq<nat>, f0: seq<nat>)
  {
    |freq| <= |f0| && f0[..|freq|] == freq
  }

  ghost predicate SameLens(dl: seq<nat>, pad: seq<nat>, n: nat)
  {
    n <= |dl| && n <= |pad| && forall x: nat :: x < n ==> pad[x] == dl[x]
  }

  lemma {:induction false} SameOptimal(freq: seq<nat>, dl: seq<nat>, pad: seq<nat>, n: nat)
    requires n <= |freq| && SameLens(dl, pad, n) && Optimal(freq, dl, n)
    ensures Optimal(freq, pad, n)
  {
    hide IndexSum;
    assert LenBits(freq, pad, n) == LenBits(freq, dl, n);
  }

  lemma {:induction false} SameFromTree(freq: seq<nat>, dl: seq<nat>, pad: seq<nat>, n: nat, max: nat)
    requires SameLens(dl, pad, n) && FromTree(freq, dl, n, max)
    ensures FromTree(freq, pad, n, max)
  {
    hide Grown, AllInTurn, Shallow, Depth, ForcedCodes;
    var t, f, dad, run, order :|
      TreeFor(freq, n, t, f, dad, run, order) && |t.ch| > 0 && DepthsIfShallow(t, dad, max, dl);
    LeavesBelow(t.leaves, f, n);
    assert TreeFor(freq, n, t, f, dad, run, order) && DepthsIfShallow(t, dad, max, pad);
  }

  /** The lengths up to one behind the last code stand for all. */
  lemma {:induction false} BuiltPadded(d: Desc, f0: seq<nat>, fc: seq<nat>, dl: seq<nat>, maxCode: nat,
      forced: seq<nat>, m: nat)
    requires TreeBuilt(d, f0, fc, dl, maxCode, forced) && maxCode < m <= d.elems
    ensures d.elems <= |f0| && m <= |dl| && dl[maxCode] != 0 && SameLens(dl, Padded(dl[..m], d.elems), d.elems)
    ensures forall x: nat :: x < d.elems ==> (dl[x] != 0 <==> f0[x] != 0 || x in ForcedCodes(f0, d.elems))
    ensures forall x: nat, y: nat :: x < d.elems && y < d.elems ==> SymbolsSorted(f0, dl, x, y)
  {
    hide Complete, ForcedCodes, Code, Rev, SymbolsSorted;
  }

  lemma {:induction false} BuiltFits(d: Desc, f0: seq<nat>, fc: seq<nat>, dl: seq<nat>, maxCode: nat,
      forced: seq<nat>, m: nat, freq: seq<nat>)
    requires TreeBuilt(d, f0, fc, dl, maxCode, forced) && maxCode < m <= d.elems <= |f0| && d.elems <= |dl|
    requires (forall x: nat :: x < d.elems ==> dl[x] < d.maxLength) ==> Optimal(f0, dl, d.elems)
    requires FrequencySum(f0, d.elems) < Fib(d.maxLength + 3) ==> Optimal(f0, dl, d.elems)
    requires freq == f0[..d.elems] && FromTree(f0, dl, d.elems, d.maxLength)
    ensures m <= |dl| && Fitted(freq, dl[..m], d.maxLength) && dl[maxCode] != 0
  {
    hide TreeBuilt, Optimal, ForcedCodes, FrequencySum, Fib, Padded, FromTree;
    var n := d.elems;
    var pad := Padded(dl[..m], n);
    BuiltPadded(d, f0, fc, dl, maxCode, forced, m);
    SameFromTree(f0, dl, pad, n, d.maxLength);
    if Optimal(f0, dl, n) { SameOptimal(f0, dl, pad, n); }
    forall x: nat, y: nat | x < n && y < n ensures SymbolsSorted(f0, pad, x, y) { assert SymbolsSorted(f0, dl, x, y); }
    assert Begins(freq, f0) && FittedTo(f0, |freq|, dl[..m], d.maxLength);
  }
}
