/** gen_bitlen of trees.c: code lengths from the tree, repaired when some would be too long. */
module HuffmanLengths {
  import opened Bits
  import opened Canonical
  import opened HuffmanCost
  import opened HuffmanTree

  /** static_tree_desc: the static code lengths (none for the bit length tree), the extra bits of the
      symbols from extraBase on, the number of symbols and the longest code allowed. */
  datatype Desc = Desc(stree: seq<nat>, extra: seq<nat>, extraBase: nat, elems: nat, maxLength: nat)

  ghost predicate DescOk(d: Desc)
  {
    && 3 <= d.elems <= 286 && 1 <= d.maxLength <= MAX_BITS && d.elems <= Pow2(d.maxLength)
    && d.elems <= d.extraBase + |d.extra| && (d.stree == [] || d.elems <= |d.stree|)
  }

  function ExtraBits(d: Desc, n: nat): (r: nat)
  {
    if d.extraBase <= n < d.extraBase + |d.extra| then d.extra[n - d.extraBase] else 0
  }

  // ------------------------------------------------------------------ depths

  /** Number of fathers between x and the root. */
  function Depth(dad: seq<nat>, root: nat, x: nat): (r: nat)
    decreases root - x
  {
    if x < root < |dad| && x < dad[x] <= root then Depth(dad, root, dad[x]) + 1 else 0
  }

  /** The depth, but at most max: what the first pass stores. */
  function Clamped(dad: seq<nat>, root: nat, max: nat, x: nat): (r: nat)
  {
    if Depth(dad, root, x) > max then max else Depth(dad, root, x)
  }

  /** Both sons of a node are one deeper. */
  lemma {:induction false} SonDepth(t: Hist, dad: seq<nat>, x: nat, k: nat)
    requires |t.ch| > 0 && Shape(t, dad, [Root(t)]) && IsSon(t, x, k)
    ensures x < Root(t) && dad[x] == t.base + k
    ensures Depth(dad, Root(t), x) == Depth(dad, Root(t), t.base + k) + 1
  {
  }

  /** The depths of the two sons of the k-th created node. */
  lemma {:induction false} SonsDepth(t: Hist, dad: seq<nat>, k: nat)
    requires |t.ch| > 0 && Shape(t, dad, [Root(t)]) && k < |t.ch|
    ensures t.ch[k].0 < |dad| && t.ch[k].1 < |dad| && t.base + k < |dad|
    ensures Depth(dad, Root(t), t.ch[k].0) == Depth(dad, Root(t), t.base + k) + 1
    ensures Depth(dad, Root(t), t.ch[k].1) == Depth(dad, Root(t), t.base + k) + 1
  {
    assert IsSon(t, t.ch[k].0, k) && IsSon(t, t.ch[k].1, k);
    SonDepth(t, dad, t.ch[k].0, k);
    SonDepth(t, dad, t.ch[k].1, k);
  }

  lemma {:induction false} RootDepth(dad: seq<nat>, root: nat)
    ensures Depth(dad, root, root) == 0
  {
  }

  /** The order of a finished tree: the root, then the sons of the created nodes, latest first. */
  ghost predicate Ordered(t: Hist, order: seq<nat>)
  {
    |t.ch| > 0 && |order| == 2 * |t.ch| + 1 && order[0] == Root(t) && OrderIs(t, order[1..])
  }

  /** Every listed node but the root is a son; p tells which one. */
  lemma {:induction false} SonAt(t: Hist, order: seq<nat>, p: nat) returns (k: nat)
    requires Ordered(t, order) && 0 < p < |order|
    ensures k < |t.ch| && IsSon(t, order[p], k)
    ensures (p == 1 + 2 * (|t.ch| - 1 - k) && order[p] == t.ch[k].1)
        || (p == 2 + 2 * (|t.ch| - 1 - k) && order[p] == t.ch[k].0)
  {
    k := |t.ch| - 1 - (p - 1) / 2;
    assert order[p] == order[1..][p - 1];
  }

  lemma {:induction false} PlaceOf(t: Hist, order: seq<nat>, x: nat, k: nat) returns (p: nat)
    requires Ordered(t, order) && IsSon(t, x, k)
    ensures p < |order| && order[p] == x && 1 + 2 * (|t.ch| - 1 - k) <= p <= 2 + 2 * (|t.ch| - 1 - k)
  {
    p := if x == t.ch[k].1 then 1 + 2 * (|t.ch| - 1 - k) else 2 + 2 * (|t.ch| - 1 - k);
    assert order[p] == order[1..][p - 1];
  }

  /** A father comes before its sons in the order. */
  lemma {:induction false} FatherEarlier(t: Hist, dad: seq<nat>, order: seq<nat>, p: nat) returns (p': nat)
    requires Ordered(t, order) && Shape(t, dad, [Root(t)]) && 0 < p < |order|
    ensures order[p] < |dad| && p' < p && order[p'] == dad[order[p]]
    ensures order[p] < Root(t) && Depth(dad, Root(t), order[p]) == Depth(dad, Root(t), order[p']) + 1
  {
    var k := SonAt(t, order, p);
    hide OrderIs;
    SonDepth(t, dad, order[p], k);
    if k == |t.ch| - 1 {
      p' := 0;
    } else {
      var y := t.base + k;
      assert IsNode(t, y) && y !in [Root(t)];
      assert IsSon(t, y, dad[y] - t.base);
      p' := PlaceOf(t, order, y, dad[y] - t.base);
    }
  }

  /** No node is listed twice. */
  lemma {:induction false} OrderDistinct(t: Hist, dad: seq<nat>, order: seq<nat>, i: nat, j: nat)
    requires Ordered(t, order) && Shape(t, dad, [Root(t)]) && i < j < |order|
    ensures order[i] != order[j]
  {
    hide OrderIs;
    var kj := SonAt(t, order, j);
    SonDepth(t, dad, order[j], kj);
    if i > 0 {
      var ki := SonAt(t, order, i);
      SonDepth(t, dad, order[i], ki);
      assert order[i] == order[j] ==> ki == kj;
      assert t.ch[ki].0 != t.ch[ki].1;
    }
  }

  // ------------------------------------------------------------------ sums over the leaves

  /** g restricted to the leaves. */
  ghost predicate LeafOnly(g: seq<int>, base: nat)
  {
    forall x: nat :: base <= x < |g| ==> g[x] == 0
  }

  /** The sons of all created nodes. */
  function SonSum(g: seq<int>, ch: seq<(nat, nat)>): (r: int)
  {
    if ch == [] then 0
    else SonSum(g, ch[..|ch| - 1]) + At(g, ch[|ch| - 1].0) + At(g, ch[|ch| - 1].1)
  }

  lemma {:induction false} OrderSum(g: seq<int>, t: Hist, ord: seq<nat>)
    requires OrderIs(t, ord)
    ensures Sum(g, ord) == SonSum(g, t.ch)
    decreases |t.ch|
  {
    if t.ch != [] {
      var k := |t.ch| - 1;
      var t' := t.(ch := t.ch[..k]);
      var ord' := ord[2..];
      assert OrderIs(t', ord') by {
        forall i: nat | i < k
          ensures ord'[2 * (k - 1 - i)] == t'.ch[i].1 && ord'[2 * (k - 1 - i) + 1] == t'.ch[i].0
        {
          assert ord[2 * (|t.ch| - 1 - i)] == t.ch[i].1 && ord[2 * (|t.ch| - 1 - i) + 1] == t.ch[i].0;
        }
      }
      OrderSum(g, t', ord');
      assert ord[0] == t.ch[k].1 && ord[1] == t.ch[k].0;
      assert ord[1..][1..] == ord';
    }
  }

  lemma {:induction false} LeafExcess(g: seq<int>, ch: seq<(nat, nat)>, base: nat)
    requires LeafOnly(g, base)
    ensures Excess(g, ch, base) == SonSum(g, ch)
  {
    if ch != [] { LeafExcess(g, ch[..|ch| - 1], base); }
  }

  /** A quantity that only leaves have adds up to the same along the order as over the leaves. */
  lemma {:induction false} LeafSum(g: seq<int>, t: Hist, order: seq<nat>)
    requires Ordered(t, order) && Telescopes(t, [Root(t)]) && LeafOnly(g, t.base)
    ensures Sum(g, order) == Sum(g, t.leaves)
  {
    LeafExcess(g, t.ch, t.base);
    OrderSum(g, t, order[1..]);
    assert [Root(t)][1..] == [];
    assert Sum(g, [Root(t)]) == At(g, Root(t)) + Sum(g, []);
    assert Sum(g, t.leaves) == Sum(g, [Root(t)]) + Excess(g, t.ch, t.base);
  }

  // ------------------------------------------------------------------ the cost of the tree

  /** f times depth, for the first n nodes. */
  function WeightedDepth(freq: seq<nat>, dad: seq<nat>, root: nat): (g: seq<int>)
    ensures |g| == |freq|
    ensures forall x: nat :: x < |freq| ==> g[x] == MulNat(freq[x], Depth(dad, root, x))
  {
    seq(|freq|, x requires 0 <= x < |freq| => MulNat(freq[x], Depth(dad, root, x)))
  }

  lemma {:induction false} ExcessIsCreated(t: Hist, freq: seq<nat>, dad: seq<nat>, g: seq<int>, n: nat)
    requires |t.ch| > 0 && Shape(t, dad, [Root(t)]) && FreqOk(t, freq) && n <= |t.ch|
    requires g == WeightedDepth(freq, dad, Root(t))
    ensures t.base + n <= |freq| && Excess(g, t.ch[..n], t.base) == Created(freq, t.(ch := t.ch[..n]))
  {
    hide MulNat, Depth, Shape;
    if n > 0 {
      var k := n - 1;
      ExcessIsCreated(t, freq, dad, g, k);
      assert t.ch[..n][..k] == t.ch[..k];
      SonsDepth(t, dad, k);
      FatherWeight(freq[t.ch[k].0], freq[t.ch[k].1], Depth(dad, Root(t), t.base + k));
    }
  }

  lemma {:induction false} FatherWeight(a: nat, b: nat, d: nat)
    ensures MulNat(a, d + 1) + MulNat(b, d + 1) == MulNat(a + b, d) + a + b
  {
    MergeArith(a, b, d + 1);
  }

  /** The leaves' frequencies times their depths add up to the weight of all created nodes. */
  lemma {:induction false} CostIsCreated(t: Hist, freq: seq<nat>, dad: seq<nat>)
    requires |t.ch| > 0 && Shape(t, dad, [Root(t)]) && FreqOk(t, freq) && Telescopes(t, [Root(t)])
    ensures Sum(WeightedDepth(freq, dad, Root(t)), t.leaves) == Created(freq, t)
  {
    hide MulNat, FathersOk, SonsOk;
    var g := WeightedDepth(freq, dad, Root(t));
    ExcessIsCreated(t, freq, dad, g, |t.ch|);
    assert t.ch[..|t.ch|] == t.ch;
    assert [Root(t)][1..] == [];
    assert Sum(g, [Root(t)]) == At(g, Root(t)) + Sum(g, []);
    RootDepth(dad, Root(t));
    MulZero(freq[Root(t)]);
  }

  lemma {:induction false} MulZero(a: nat)
    ensures MulNat(a, 0) == 0
  {
  }

  // ------------------------------------------------------------------ tables over the nodes

  function CountTab(base: nat, dad: seq<nat>, root: nat, max: nat, b: nat): (g: seq<int>)
    ensures |g| == |dad|
    ensures forall x: nat :: x < |dad| ==> g[x] == if x < base && Clamped(dad, root, max, x) == b then 1 else 0
  {
    seq(|dad|, x requires 0 <= x < |dad| => if x < base && Clamped(dad, root, max, x) == b then 1 else 0)
  }

  function CostTab(d: Desc, freq: seq<nat>, dad: seq<nat>, root: nat): (g: seq<int>)
    requires |freq| == |dad|
    ensures |g| == |dad|
    ensures forall x: nat :: x < |dad| ==>
              g[x] == if x < d.elems then MulNat(freq[x], Clamped(dad, root, d.maxLength, x) + ExtraBits(d, x)) else 0
  {
    seq(|dad|, x requires 0 <= x < |dad| =>
      if x < d.elems then MulNat(freq[x], Clamped(dad, root, d.maxLength, x) + ExtraBits(d, x)) else 0)
  }

  /** What a symbol costs with the static tree. */
  function StaticTab(d: Desc, freq: seq<nat>): (g: seq<int>)
    ensures |g| == |freq|
    ensures forall x: nat :: x < |freq| ==>
              g[x] == if x < d.elems && x < |d.stree| then MulNat(freq[x], d.stree[x] + ExtraBits(d, x)) else 0
  {
    seq(|freq|, x requires 0 <= x < |freq| =>
      if x < d.elems && x < |d.stree| then MulNat(freq[x], d.stree[x] + ExtraBits(d, x)) else 0)
  }

  function OverTab(dad: seq<nat>, root: nat, max: nat): (g: seq<int>)
    ensures |g| == |dad|
    ensures forall x: nat :: x < |dad| ==> g[x] == if Depth(dad, root, x) > max then 1 else 0
  {
    seq(|dad|, x requires 0 <= x < |dad| => if Depth(dad, root, x) > max then 1 else 0)
  }

  /** Nodes of the clamped length max. */
  function AtMaxTab(dad: seq<nat>, root: nat, max: nat): (g: seq<int>)
    ensures |g| == |dad|
    ensures forall x: nat :: x < |dad| ==> g[x] == if Depth(dad, root, x) >= max then 1 else 0
  {
    seq(|dad|, x requires 0 <= x < |dad| => if Depth(dad, root, x) >= max then 1 else 0)
  }

  /** Kraft units of the clamped lengths. */
  function UnitTab(dad: seq<nat>, root: nat, max: nat): (g: seq<int>)
    ensures |g| == |dad|
    ensures forall x: nat :: x < |dad| ==> g[x] == Pow2(max - Clamped(dad, root, max, x))
  {
    seq(|dad|, x requires 0 <= x < |dad| => Pow2(max - Clamped(dad, root, max, x)))
  }

  // ------------------------------------------------------------------ overflow and the Kraft sum

  /** How many of the first n created nodes are so deep that their sons' lengths overflow. */
  function DeepFathers(t: Hist, dad: seq<nat>, root: nat, max: nat, n: nat): (r: nat)
  {
    if n == 0 then 0
    else DeepFathers(t, dad, root, max, n - 1) + if Depth(dad, root, t.base + n - 1) >= max then 1 else 0
  }

  lemma {:induction false} UnitStep(d: nat, max: nat)
    ensures d < max ==> 2 * Pow2(max - (d + 1)) == Pow2(max - d)
  {
  }

  /** The excess of the Kraft units is one for every such father. */
  lemma {:induction false} UnitExcess(t: Hist, dad: seq<nat>, max: nat, n: nat)
    requires |t.ch| > 0 && Shape(t, dad, [Root(t)]) && n <= |t.ch| && 1 <= max
    ensures Excess(UnitTab(dad, Root(t), max), t.ch[..n], t.base) == DeepFathers(t, dad, Root(t), max, n)
  {
    hide Pow2, Depth, Shape;
    if n > 0 {
      UnitExcess(t, dad, max, n - 1);
      assert t.ch[..n][..n - 1] == t.ch[..n - 1];
      SonsDepth(t, dad, n - 1);
      UnitStep(Depth(dad, Root(t), t.base + n - 1), max);
      Pow2Least();
    }
  }

  /** Fathers just above the limit. */
  function EdgeFathers(t: Hist, dad: seq<nat>, root: nat, max: nat, n: nat): (c: nat)
  {
    if n == 0 then 0
    else EdgeFathers(t, dad, root, max, n - 1) + if Depth(dad, root, t.base + n - 1) + 1 == max then 1 else 0
  }

  lemma {:induction false} EdgeCounted(t: Hist, dad: seq<nat>, root: nat, max: nat, n: nat, k: nat)
    requires k < n && Depth(dad, root, t.base + k) + 1 == max
    ensures EdgeFathers(t, dad, root, max, n) >= 1
  {
    hide Depth;
    if k < n - 1 { EdgeCounted(t, dad, root, max, n - 1, k); }
  }

  lemma {:induction false} DeepFound(t: Hist, dad: seq<nat>, root: nat, max: nat, n: nat) returns (k: nat)
    requires DeepFathers(t, dad, root, max, n) > 0
    ensures k < n && Depth(dad, root, t.base + k) >= max
  {
    hide Depth;
    if Depth(dad, root, t.base + n - 1) >= max { k := n - 1; } else { k := DeepFound(t, dad, root, max, n - 1); }
  }

  /** Above a deep father there is one just above the limit. */
  lemma {:induction false} Climb(t: Hist, dad: seq<nat>, max: nat, k: nat) returns (j: nat)
    requires |t.ch| > 0 && Shape(t, dad, [Root(t)]) && k < |t.ch| && 1 <= max
        && Depth(dad, Root(t), t.base + k) + 1 >= max
    ensures j < |t.ch| && Depth(dad, Root(t), t.base + j) + 1 == max
    decreases |t.ch| - k
  {
    hide SonsOk, HeapOk;
    var x := t.base + k;
    if Depth(dad, Root(t), x) + 1 == max {
      j := k;
    } else {
      assert x < Root(t) < |dad| && x < dad[x] <= Root(t);
      j := Climb(t, dad, max, dad[x] - t.base);
    }
  }

  lemma {:induction false} EdgeExists(t: Hist, dad: seq<nat>, max: nat)
    requires |t.ch| > 0 && Shape(t, dad, [Root(t)]) && 1 <= max && DeepFathers(t, dad, Root(t), max, |t.ch|) > 0
    ensures EdgeFathers(t, dad, Root(t), max, |t.ch|) >= 1
  {
    hide Shape, Depth, DeepFathers, EdgeFathers;
    var k := DeepFound(t, dad, Root(t), max, |t.ch|);
    var j := Climb(t, dad, max, k);
    EdgeCounted(t, dad, Root(t), max, |t.ch|, j);
  }

  /** At least as many leaves have length max, and more if there is any overflow. */
  lemma {:induction false} AtMaxExcess(t: Hist, dad: seq<nat>, max: nat, n: nat)
    requires |t.ch| > 0 && Shape(t, dad, [Root(t)]) && n <= |t.ch| && 1 <= max
    ensures Excess(AtMaxTab(dad, Root(t), max), t.ch[..n], t.base)
         >= DeepFathers(t, dad, Root(t), max, n) + EdgeFathers(t, dad, Root(t), max, n)
  {
    hide Pow2, Depth, Shape;
    if n > 0 {
      AtMaxExcess(t, dad, max, n - 1);
      assert t.ch[..n][..n - 1] == t.ch[..n - 1];
      SonsDepth(t, dad, n - 1);
    }
  }

  /** Two sons overflow for each. */
  lemma {:induction false} OverSons(t: Hist, dad: seq<nat>, max: nat, n: nat)
    requires |t.ch| > 0 && Shape(t, dad, [Root(t)]) && n <= |t.ch| && 1 <= max
    ensures SonSum(OverTab(dad, Root(t), max), t.ch[..n]) == 2 * DeepFathers(t, dad, Root(t), max, n)
  {
    hide Pow2, Depth, Shape;
    if n > 0 {
      OverSons(t, dad, max, n - 1);
      assert t.ch[..n][..n - 1] == t.ch[..n - 1];
      SonsDepth(t, dad, n - 1);
    }
  }

  lemma {:induction false} Pow2Least()
    ensures Pow2(0) == 1
  {
  }

  /** The three facts for the whole tree. */
  lemma {:induction false} OverflowFacts(t: Hist, dad: seq<nat>, max: nat, order: seq<nat>)
    requires Ordered(t, order) && Shape(t, dad, [Root(t)]) && Telescopes(t, [Root(t)]) && 1 <= max
    ensures Sum(UnitTab(dad, Root(t), max), t.leaves) == Pow2(max) + DeepFathers(t, dad, Root(t), max, |t.ch|)
    ensures var deep := DeepFathers(t, dad, Root(t), max, |t.ch|);
            Sum(AtMaxTab(dad, Root(t), max), t.leaves) >= deep + if deep > 0 then 1 else 0
    ensures Sum(OverTab(dad, Root(t), max), order) == 2 * DeepFathers(t, dad, Root(t), max, |t.ch|)
  {
    hide Pow2, FathersOk, SonsOk, Depth, Sum, Excess, SonSum, DeepFathers, EdgeFathers;
    var root := Root(t);
    UnitExcess(t, dad, max, |t.ch|);
    AtMaxExcess(t, dad, max, |t.ch|);
    if DeepFathers(t, dad, root, max, |t.ch|) > 0 { EdgeExists(t, dad, max); }
    OverSons(t, dad, max, |t.ch|);
    assert t.ch[..|t.ch|] == t.ch;
    RootDepth(dad, root);
    OrderSum(OverTab(dad, root, max), t, order[1..]);
    SumFirst(OverTab(dad, root, max), order);
    SumOne(UnitTab(dad, root, max), root);
    SumOne(AtMaxTab(dad, root, max), root);
    assert Sum(UnitTab(dad, root, max), t.leaves) == Sum(UnitTab(dad, root, max), [root]) +
      Excess(UnitTab(dad, root, max), t.ch, t.base);
    assert Sum(AtMaxTab(dad, root, max), t.leaves) == Sum(AtMaxTab(dad, root, max), [root]) +
      Excess(AtMaxTab(dad, root, max), t.ch, t.base);
  }

  lemma {:induction false} SumFirst(g: seq<int>, s: seq<nat>)
    requires s != []
    ensures Sum(g, s) == At(g, s[0]) + Sum(g, s[1..])
  {
  }

  lemma {:induction false} SumOne(g: seq<int>, x: nat)
    ensures Sum(g, [x]) == At(g, x)
  {
    assert [x][1..] == [];
  }

  // ------------------------------------------------------------------ the first pass

  /** The finished tree as gen_bitlen finds it. */
  ghost predicate TreeReady(t: Hist, d: Desc, freq: seq<nat>, dad: seq<nat>, order: seq<nat>, maxCode: nat)
  {
    && DescOk(d) && t.base == d.elems && |freq| == |dad| && |t.ch| > 0
    && Shape(t, dad, [Root(t)]) && Telescopes(t, [Root(t)]) && FreqOk(t, freq)
    && |t.leaves| <= t.base && Ordered(t, order) && (forall x: nat :: x in t.leaves ==> x <= maxCode)
      && maxCode < d.elems
  }

  /** The first p nodes of the order have their lengths, the others still their fathers. */
  ghost predicate HalfDone(dad: seq<nat>, root: nat, max: nat, order: seq<nat>, p: nat, dl: seq<nat>)
    requires p <= |order|
  {
    |dl| == |dad| &&
    forall x: nat :: x < |dl| ==> dl[x] == if x in order[..p] then Clamped(dad, root, max, x) else dad[x]
  }

  lemma {:induction false} FirstPassStep(t: Hist, d: Desc, freq: seq<nat>, dad: seq<nat>, order: seq<nat>, maxCode: nat,
                                         p: nat, dl: seq<nat>)
    requires TreeReady(t, d, freq, dad, order, maxCode) && 0 < p < |order|
    requires HalfDone(dad, Root(t), d.maxLength, order, p, dl)
    ensures order[p] < |dl| && dl[order[p]] < |dl|
    ensures order[p] > maxCode <==> order[p] >= d.elems
    ensures var n := order[p];
            var c := dl[dl[n]] + 1;
            Clamped(dad, Root(t), d.maxLength, n) == (if c > d.maxLength then d.maxLength else c) &&
            (Depth(dad, Root(t), n) > d.maxLength <==> c > d.maxLength) &&
            HalfDone(dad, Root(t), d.maxLength, order, p + 1, dl[n := if c > d.maxLength then d.maxLength else c])
  {
    hide Pow2, Depth, FathersOk, SonsOk, Telescopes, FreqOk, OrderIs;
    var p' := FatherEarlier(t, dad, order, p);
    var n := order[p];
    assert n !in order[..p] by {
      if n in order[..p] {
        var i :| 0 <= i < p && order[i] == n;
        OrderDistinct(t, dad, order, i, p);
      }
    }
    assert order[p'] in order[..p] && order[..p + 1] == order[..p] + [n];
    OrderIsNode(t, dad, order, p);
    OrderIsNode(t, dad, order, p');
  }

  lemma {:induction false} OrderIsNode(t: Hist, dad: seq<nat>, order: seq<nat>, p: nat)
    requires Ordered(t, order) && Shape(t, dad, [Root(t)]) && p < |order|
    ensures IsNode(t, order[p]) && order[p] < |dad|
  {
    if p > 0 {
      var k := SonAt(t, order, p);
    }
  }

  ghost predicate CountsAre(bl: seq<nat>, base: nat, dad: seq<nat>, root: nat, max: nat, s: seq<nat>)
  {
    |bl| == MAX_BITS + 1 && forall b: nat :: b <= MAX_BITS ==> bl[b] == Sum(CountTab(base, dad, root, max, b), s)
  }

  lemma {:induction false} CountLeaf(bl: seq<nat>, base: nat, dad: seq<nat>, root: nat, max: nat, s: seq<nat>, x: nat)
    requires CountsAre(bl, base, dad, root, max, s) && x < |dad| && max <= MAX_BITS
    ensures x < base ==>
              CountsAre(bl[Clamped(dad, root, max, x) := bl[Clamped(dad, root, max, x)] + 1], base, dad, root, max,
                s + [x])
    ensures x >= base ==> CountsAre(bl, base, dad, root, max, s + [x])
  {
    hide Depth, Sum;
    forall b: nat | b <= MAX_BITS
      ensures Sum(CountTab(base, dad, root, max, b), s + [x])
           == Sum(CountTab(base, dad, root, max, b), s) + if x < base && Clamped(dad, root, max, x) == b then 1 else 0
    {
      SumAppend(CountTab(base, dad, root, max, b), s, x);
    }
  }

  /** What the first pass has computed from the first p nodes of the order. */
  ghost predicate Tallied(d: Desc, freq: seq<nat>, dad: seq<nat>, root: nat, s: seq<nat>,
                          bl: seq<nat>, overflow: int, opt: int, static_: int)
    requires |freq| == |dad|
  {
    && CountsAre(bl, d.elems, dad, root, d.maxLength, s)
    && overflow == Sum(OverTab(dad, root, d.maxLength), s)
    && opt == Sum(CostTab(d, freq, dad, root), s)
    && static_ == Sum(StaticTab(d, freq), s)
  }

  lemma {:induction false} TallyStep(d: Desc, freq: seq<nat>, dad: seq<nat>, root: nat, s: seq<nat>,
                                     bl: seq<nat>, overflow: int, opt: int, static_: int, x: nat)
    requires |freq| == |dad| && x < |dad| && d.maxLength <= MAX_BITS
        && Tallied(d, freq, dad, root, s, bl, overflow, opt, static_)
    ensures var c := Clamped(dad, root, d.maxLength, x);
            Tallied(d, freq, dad, root, s + [x], if x < d.elems then bl[c := bl[c] + 1] else bl,
                    overflow + (if Depth(dad, root, x) > d.maxLength then 1 else 0),
                    opt + (if x < d.elems then MulNat(freq[x], c + ExtraBits(d, x)) else 0),
                    static_ + (if x < d.elems && x < |d.stree| then MulNat(freq[x], d.stree[x] + ExtraBits(d, x))
                        else 0))
  {
    hide Depth, Sum, CountsAre, MulNat;
    CountLeaf(bl, d.elems, dad, root, d.maxLength, s, x);
    SumAppend(OverTab(dad, root, d.maxLength), s, x);
    SumAppend(CostTab(d, freq, dad, root), s, x);
    SumAppend(StaticTab(d, freq), s, x);
  }

  lemma {:induction false} TallyNone(d: Desc, freq: seq<nat>, dad: seq<nat>, root: nat, bl: seq<nat>)
    requires |freq| == |dad| && |bl| == MAX_BITS + 1 && forall b: nat :: b <= MAX_BITS ==> bl[b] == 0
    ensures Tallied(d, freq, dad, root, [], bl, 0, 0, 0)
  {
  }

  ghost predicate Separate(s: Builder, freq: array<nat>, dl: array<nat>)
  {
    && s.Apart(freq, dl) && s.blCount.Length == MAX_BITS + 1
    && s.blCount != s.heap && s.blCount != s.depth && s.blCount != freq && s.blCount != dl
  }

  method ClearCounts(s: Builder)
    requires s.blCount.Length == MAX_BITS + 1
    modifies s.blCount
    ensures forall b: nat :: b <= MAX_BITS ==> s.blCount[b] == 0
  {
    for bits := 0 to MAX_BITS + 1
      invariant forall b: nat :: b < bits ==> s.blCount[b] == 0
    {
      s.blCount[bits] := 0;
    }
  }

  /** Charges a leaf with the given code length to the block's bit lengths. */
  method Charge(s: Builder, freq: array<nat>, d: Desc, n: nat, bits: nat)
    requires s.blCount != freq && s.blCount.Length == MAX_BITS + 1 && bits <= MAX_BITS
    requires DescOk(d) && n < d.elems && n < freq.Length
    modifies s.blCount, s`optLen, s`staticLen
    ensures s.blCount[..] == old(s.blCount[..])[bits := old(s.blCount[bits]) + 1]
    ensures s.optLen == old(s.optLen) + MulNat(freq[n], bits + ExtraBits(d, n))
    ensures s.staticLen == old(s.staticLen) +
        (if n < |d.stree| then MulNat(freq[n], d.stree[n] + ExtraBits(d, n)) else 0)
  {
    s.blCount[bits] := s.blCount[bits] + 1;
    var xbits := 0;
    if n >= d.extraBase { xbits := d.extra[n - d.extraBase]; }
    var f := freq[n];
    s.optLen := s.optLen + f * (bits + xbits);
    if d.stree != [] { s.staticLen := s.staticLen + f * (d.stree[n] + xbits); }
  }

  /** Nothing is known about the block yet but that the root has length zero. */
  lemma {:induction false} FirstNode(t: Hist, d: Desc, freq: seq<nat>, dad: seq<nat>, order: seq<nat>, maxCode: nat,
      bl: seq<nat>)
    requires TreeReady(t, d, freq, dad, order, maxCode)
    requires |bl| == MAX_BITS + 1 && forall b: nat :: b <= MAX_BITS ==> bl[b] == 0
    ensures order[0] < |dad| && HalfDone(dad, Root(t), d.maxLength, order, 1, dad[order[0] := 0])
    ensures Tallied(d, freq, dad, Root(t), order[..1], bl, 0, 0, 0)
  {
    hide Pow2, Sum, MulNat, FathersOk, SonsOk, Telescopes, FreqOk, OrderIs, CountsAre;
    TallyNone(d, freq, dad, Root(t), bl);
    RootDepth(dad, Root(t));
    TallyStep(d, freq, dad, Root(t), [], bl, 0, 0, 0, Root(t));
    assert [] + [Root(t)] == order[..1];
  }

  /** One step of the first pass. */
  method NextLength(s: Builder, freq: array<nat>, dl: array<nat>, d: Desc, maxCode: nat, n: nat, overflow: nat,
                    ghost t: Hist, ghost order: seq<nat>, ghost dad: seq<nat>, ghost p: nat, ghost opt: int,
                        ghost static_: int)
    returns (overflow': nat)
    requires Separate(s, freq, dl) && TreeReady(t, d, freq[..], dad, order, maxCode) && 0 < p < |order| && n == order[p]
    requires HalfDone(dad, Root(t), d.maxLength, order, p, dl[..])
    requires Tallied(d, freq[..], dad, Root(t), order[..p], s.blCount[..], overflow, s.optLen - opt,
        s.staticLen - static_)
    modifies dl, s.blCount, s`optLen, s`staticLen
    ensures HalfDone(dad, Root(t), d.maxLength, order, p + 1, dl[..])
    ensures Tallied(d, freq[..], dad, Root(t), order[..p + 1], s.blCount[..], overflow', s.optLen - opt,
        s.staticLen - static_)
  {
    hide HalfDone, Tallied, MulNat, Depth, Sum, Shape, Telescopes, FreqOk, Ordered, Pow2, Clamped;
    ghost var l: seq<nat> := dl[..];
    assert order[..p + 1] == order[..p] + [order[p]];
    FirstPassStep(t, d, freq[..], dad, order, maxCode, p, l);
    TallyStep(d, freq[..], dad, Root(t), order[..p], s.blCount[..], overflow, s.optLen - opt, s.staticLen - static_, n);
    var bits := dl[dl[n]] + 1;
    overflow' := overflow;
    if bits > d.maxLength { bits, overflow' := d.maxLength, overflow + 1; }
    dl[n] := bits;
    assert dl[..] == l[n := bits];
    if n <= maxCode { Charge(s, freq, d, n, bits); }
  }

  /** First pass: from the root down, each node is one deeper than its father, up to the limit. */
  method AssignLengths(s: Builder, freq: array<nat>, dl: array<nat>, d: Desc, maxCode: nat,
                       ghost t: Hist, ghost order: seq<nat>, ghost dad: seq<nat>)
    returns (overflow: nat)
    requires Separate(s, freq, dl) && |t.ch| > 0 && TreeReady(t, d, freq[..], dad, order, maxCode) && dl[..] == dad
    requires s.heapMax < s.heap.Length && order == s.heap[s.heapMax..]
    modifies dl, s.blCount, s`optLen, s`staticLen
    ensures HalfDone(dad, Root(t), d.maxLength, order, |order|, dl[..])
    ensures Tallied(d, freq[..], dad, Root(t), order, s.blCount[..], overflow, s.optLen - old(s.optLen),
        s.staticLen - old(s.staticLen))
  {
    hide HalfDone, Tallied, TreeReady;
    ClearCounts(s);
    FirstNode(t, d, freq[..], dad, order, maxCode, s.blCount[..]);
    overflow := 0;
    dl[s.heap[s.heapMax]] := 0;
    assert dl[..] == dad[order[0] := 0];
    var h := s.heapMax + 1;
    while h < HEAP_SIZE
      invariant s.heapMax < h <= HEAP_SIZE
      invariant HalfDone(dad, Root(t), d.maxLength, order, h - s.heapMax, dl[..])
      invariant Tallied(d, freq[..], dad, Root(t), order[..h - s.heapMax], s.blCount[..], overflow,
                        s.optLen - old(s.optLen), s.staticLen - old(s.staticLen))
    {
      overflow := NextLength(s, freq, dl, d, maxCode, s.heap[h], overflow, t, order, dad, h - s.heapMax,
                             old(s.optLen), old(s.staticLen));
      h := h + 1;
    }
    assert order[..|order|] == order;
  }

  // ------------------------------------------------------------------ repairing an overflow

  /** Codes of length 1..n in units of 2^-max. */
  function KraftTo(bl: seq<nat>, max: nat, n: nat): (r: nat)
    requires n < |bl| && n <= max
  {
    if n == 0 then 0 else KraftTo(bl, max, n - 1) + MulNat(bl[n], Pow2(max - n))
  }

  function LeavesTo(bl: seq<nat>, n: nat): (r: nat)
    requires n < |bl|
  {
    if n == 0 then 0 else LeavesTo(bl, n - 1) + bl[n]
  }

  lemma {:induction false} KraftUpdateAt(bl: seq<nat>, max: nat, n: nat, i: nat, v: nat)
    requires n < |bl| && n <= max && 1 <= i < |bl|
    ensures KraftTo(bl[i := v], max, n) == KraftTo(bl, max, n) +
        (if i <= n then v * Pow2(max - i) - bl[i] * Pow2(max - i) else 0)
  {
    hide Pow2;
    if n > 0 { KraftUpdateAt(bl, max, n - 1, i, v); }
  }

  lemma {:induction false} LeavesUpdateAt(bl: seq<nat>, n: nat, i: nat, v: nat)
    requires n < |bl| && 1 <= i < |bl|
    ensures LeavesTo(bl[i := v], n) == LeavesTo(bl, n) + (if i <= n then v - bl[i] else 0)
  {
    if n > 0 { LeavesUpdateAt(bl, n - 1, i, v); }
  }

  /** Without shorter codes the Kraft sum is the number of leaves. */
  lemma {:induction false} OnlyLongest(bl: seq<nat>, max: nat, n: nat)
    requires n < |bl| && n < max && forall b :: 1 <= b <= n ==> bl[b] == 0
    ensures KraftTo(bl, max, n) == 0 && LeavesTo(bl, n) == 0
  {
    if n > 0 {
      OnlyLongest(bl, max, n - 1);
      MulZero(Pow2(max - n));
      MulComm(0, Pow2(max - n));
    }
  }

  ghost predicate CountsOk(bl: seq<nat>, max: nat, excess: nat, leaves: nat)
  {
    && |bl| == MAX_BITS + 1 && 1 <= max <= MAX_BITS && bl[0] == 0 && (forall b :: max < b <= MAX_BITS ==> bl[b] == 0)
    && KraftTo(bl, max, max) == Pow2(max) + excess && LeavesTo(bl, max) == leaves <= Pow2(max) && excess <= bl[max]
  }

  /** As long as there is excess, some leaf is shorter than the limit. */
  lemma {:induction false} ShorterLeaf(bl: seq<nat>, max: nat, excess: nat, leaves: nat)
    requires CountsOk(bl, max, excess, leaves) && excess > 0
    ensures exists b :: 1 <= b < max && bl[b] > 0
  {
    hide Pow2;
    if forall b :: 1 <= b < max ==> bl[b] == 0 {
      OnlyLongest(bl, max, max - 1);
      Pow2Least();
      MulOne(bl[max]);
      assert false;
    }
  }

  lemma {:induction false} MulOne(a: nat)
    ensures MulNat(a, 1) == a
  {
  }

  function Lowered(bl: seq<nat>, max: nat, bits: nat): (r: seq<nat>)
    requires 1 <= bits < max < |bl| && bl[bits] > 0 && bl[max] > 0
  {
    var b1 := bl[bits := bl[bits] - 1];
    var b2 := b1[bits + 1 := b1[bits + 1] + 2];
    b2[max := b2[max] - 1]
  }

  /** Moving one leaf down and an overflowing one beside it lowers the Kraft sum by one unit. */
  lemma {:induction false} LowerOne(bl: seq<nat>, max: nat, excess: nat, leaves: nat, bits: nat)
    requires CountsOk(bl, max, excess, leaves) && excess > 0 && 1 <= bits < max && bl[bits] > 0
    ensures CountsOk(Lowered(bl, max, bits), max, excess - 1, leaves) && Lowered(bl, max, bits)[max] >= bl[max] - 1
  {
    hide Pow2, KraftTo, LeavesTo;
    var b1 := bl[bits := bl[bits] - 1];
    var b2 := b1[bits + 1 := b1[bits + 1] + 2];
    KraftUpdateAt(bl, max, max, bits, bl[bits] - 1);
    KraftUpdateAt(b1, max, max, bits + 1, b1[bits + 1] + 2);
    KraftUpdateAt(b2, max, max, max, b2[max] - 1);
    LeavesUpdateAt(bl, max, bits, bl[bits] - 1);
    LeavesUpdateAt(b1, max, bits + 1, b1[bits + 1] + 2);
    LeavesUpdateAt(b2, max, max, b2[max] - 1);
    Pow2Least();
    UnitStep(bits, max);
    Distribute(bl[bits], 1, Pow2(max - bits));
    Distribute(b1[bits + 1], 2, Pow2(max - bits - 1));
  }

  /** One pass: of the leaves above the limit one of the longest goes down by one and takes a leaf of the greatest
      length as its brother. */
  ghost predicate Pass(bl: seq<nat>, bl': seq<nat>, max: nat, b: nat)
  {
    && 1 <= b < max < |bl| && bl[b] > 0 && bl[max] > 0 && (forall c: nat :: b < c < max ==> bl[c] == 0)
    && |bl'| == |bl|
    && (if b + 1 == max then bl' == bl[b := bl[b] - 1][max := bl[max] + 1]
        else bl' == bl[b := bl[b] - 1][b + 1 := 2][max := bl[max] - 1])
  }

  /** n passes. */
  ghost predicate Passes(bl: seq<nat>, bl': seq<nat>, max: nat, n: nat)
    decreases n
  {
    if n == 0 then bl' == bl else exists m, b :: Passes(bl, m, max, n - 1) && Pass(m, bl', max, b)
  }

  lemma {:induction false} NoPass(bl: seq<nat>, max: nat)
    ensures Passes(bl, bl, max, 0)
  {
  }

  lemma {:induction false} PassesMore(bl: seq<nat>, m: seq<nat>, bl': seq<nat>, max: nat, n: nat, b: nat)
    requires Passes(bl, m, max, n) && 1 <= b < max < |m| && m[b] > 0 && m[max] > 0 && bl' == Lowered(m, max, b)
    requires forall c: nat :: b < c < max ==> m[c] == 0
    ensures Passes(bl, bl', max, n + 1)
  {
    hide Passes;
    assert Pass(m, bl', max, b);
    PassesStep(bl, m, bl', max, n, b);
  }

  lemma {:induction false} PassesStep(bl: seq<nat>, m: seq<nat>, bl': seq<nat>, max: nat, n: nat, b: nat)
    requires Passes(bl, m, max, n) && Pass(m, bl', max, b)
    ensures Passes(bl, bl', max, n + 1)
  {
    hide Pass;
  }

  /** Each pass shortens the overflow by two until the Kraft sum is exact; some code of the greatest length stays. */
  method RepairCounts(s: Builder, max: nat, overflow0: nat, ghost leaves: nat)
    requires overflow0 > 0 && overflow0 % 2 == 0 && CountsOk(s.blCount[..], max, overflow0 / 2, leaves)
        && s.blCount[max] > overflow0 / 2
    modifies s.blCount
    ensures CountsOk(s.blCount[..], max, 0, leaves) && s.blCount[max] > 0
    ensures Passes(old(s.blCount[..]), s.blCount[..], max, overflow0 / 2)
  {
    hide Pow2, KraftTo, LeavesTo, Passes;
    var overflow: int := overflow0;
    NoPass(s.blCount[..], max);
    while overflow > 0
      invariant Passes(old(s.blCount[..]), s.blCount[..], max, overflow0 / 2 - overflow / 2)
      invariant overflow >= 0 && overflow % 2 == 0 && CountsOk(s.blCount[..], max, overflow / 2, leaves)
      invariant s.blCount[max] > overflow / 2
    {
      ghost var bl: seq<nat> := s.blCount[..];
      ShorterLeaf(bl, max, overflow / 2, leaves);
      var bits := max - 1;
      while s.blCount[bits] == 0
        invariant 1 <= bits < max && exists b :: 1 <= b <= bits && s.blCount[b] > 0
        invariant s.blCount[..] == bl && forall c: nat :: bits < c < max ==> bl[c] == 0
        decreases bits
      {
        bits := bits - 1;
      }
      LowerOne(bl, max, overflow / 2, leaves, bits);
      s.blCount[bits] := s.blCount[bits] - 1;
      s.blCount[bits + 1] := s.blCount[bits + 1] + 2;
      s.blCount[max] := s.blCount[max] - 1;
      assert s.blCount[..] == Lowered(bl, max, bits);
      PassesMore(old(s.blCount[..]), bl, s.blCount[..], max, overflow0 / 2 - overflow / 2, bits);
      overflow := overflow - 2;
    }
  }

  // ------------------------------------------------------------------ the counts after the first pass

  lemma {:induction false} SumTable01(base: nat, dad: seq<nat>, root: nat, max: nat, b: nat, s: seq<nat>)
    ensures Sum(CountTab(base, dad, root, max, b), s) >= 0
  {
    hide Depth;
    if s != [] { SumTable01(base, dad, root, max, b, s[1..]); }
  }

  function CountIn(base: nat, dad: seq<nat>, root: nat, max: nat, s: seq<nat>, b: nat): (r: nat)
  {
    SumTable01(base, dad, root, max, b, s);
    Sum(CountTab(base, dad, root, max, b), s)
  }

  function CountsOf(base: nat, dad: seq<nat>, root: nat, max: nat, s: seq<nat>): (bl: seq<nat>)
    ensures CountsAre(bl, base, dad, root, max, s)
  {
    seq(MAX_BITS + 1, b requires 0 <= b <= MAX_BITS => CountIn(base, dad, root, max, s, b))
  }

  /** A list of nodes that are leaves of clamped length at least one. */
  ghost predicate RealLeaves(base: nat, dad: seq<nat>, root: nat, s: seq<nat>)
  {
    forall i :: 0 <= i < |s| ==> s[i] < base && s[i] < |dad| && Depth(dad, root, s[i]) >= 1
  }

  /** The counts by length carry the Kraft sum and the number of the leaves. */
  lemma {:induction false} KraftOfCounts(base: nat, dad: seq<nat>, root: nat, max: nat, s: seq<nat>, bl: seq<nat>)
    requires 1 <= max <= MAX_BITS && RealLeaves(base, dad, root, s) && CountsAre(bl, base, dad, root, max, s)
    ensures KraftTo(bl, max, max) == Sum(UnitTab(dad, root, max), s) && LeavesTo(bl, max) == |s|
    ensures bl[max] == Sum(AtMaxTab(dad, root, max), s)
    ensures bl[0] == 0 && forall b :: max < b <= MAX_BITS ==> bl[b] == 0
  {
    hide Depth, Pow2, KraftTo, LeavesTo;
    if s == [] {
      assert forall b: nat :: b <= MAX_BITS ==> bl[b] == 0;
      NoCounts(bl, max, max);
    } else {
      var k := |s| - 1;
      var x, s0 := s[k], s[..k];
      assert s == s0 + [x];
      var bl0 := CountsOf(base, dad, root, max, s0);
      KraftOfCounts(base, dad, root, max, s0, bl0);
      var c := Clamped(dad, root, max, x);
      CountLeaf(bl0, base, dad, root, max, s0, x);
      assert bl == bl0[c := bl0[c] + 1];
      KraftUpdateAt(bl0, max, max, c, bl0[c] + 1);
      LeavesUpdateAt(bl0, max, c, bl0[c] + 1);
      Distribute(bl0[c], 1, Pow2(max - c));
      SumAppend(UnitTab(dad, root, max), s0, x);
      SumAppend(AtMaxTab(dad, root, max), s0, x);
    }
  }

  lemma {:induction false} NoCounts(bl: seq<nat>, max: nat, n: nat)
    requires n < |bl| && n <= max && forall b :: 1 <= b <= n ==> bl[b] == 0
    ensures KraftTo(bl, max, n) == 0 && LeavesTo(bl, n) == 0
  {
    if n > 0 {
      NoCounts(bl, max, n - 1);
      MulComm(0, Pow2(max - n));
    }
  }

  lemma {:induction false} LeavesAreReal(t: Hist, dad: seq<nat>)
    requires |t.ch| > 0 && Shape(t, dad, [Root(t)])
    ensures RealLeaves(t.base, dad, Root(t), t.leaves)
  {
    forall i | 0 <= i < |t.leaves|
      ensures t.leaves[i] < t.base && t.leaves[i] < |dad| && Depth(dad, Root(t), t.leaves[i]) >= 1
    {
      var x := t.leaves[i];
      assert IsNode(t, x) && x !in [Root(t)];
      assert IsSon(t, x, dad[x] - t.base);
      SonDepth(t, dad, x, dad[x] - t.base);
    }
  }

  /** After the first pass the Kraft sum exceeds one by half the overflow. */
  lemma {:induction false} FirstPassCounts(t: Hist, d: Desc, freq: seq<nat>, dad: seq<nat>, order: seq<nat>,
      maxCode: nat, bl: seq<nat>, overflow: int, opt: int, static_: int)
    requires |t.ch| > 0 && TreeReady(t, d, freq, dad, order, maxCode)
    requires Tallied(d, freq, dad, Root(t), order, bl, overflow, opt, static_)
    ensures overflow >= 0 && overflow % 2 == 0 && CountsOk(bl, d.maxLength, overflow / 2, |t.leaves|)
    ensures overflow > 0 ==> bl[d.maxLength] > overflow / 2
  {
    hide Pow2, Depth, FathersOk, SonsOk, KraftTo, LeavesTo, FreqOk, Sum;
    OverflowFacts(t, dad, d.maxLength, order);
    forall b: nat | b <= MAX_BITS
      ensures bl[b] == Sum(CountTab(d.elems, dad, Root(t), d.maxLength, b), t.leaves)
    {
      LeafSum(CountTab(d.elems, dad, Root(t), d.maxLength, b), t, order);
    }
    LeavesAreReal(t, dad);
    KraftOfCounts(d.elems, dad, Root(t), d.maxLength, t.leaves, bl);
  }

  // ------------------------------------------------------------------ reassigning the lengths

  /** Tables read off the lengths now in dl. */
  function LenTab(base: nat, dl: seq<nat>, b: nat): (g: seq<int>)
    ensures |g| == |dl|
    ensures forall x: nat :: x < |dl| ==> g[x] == if x < base && dl[x] == b then 1 else 0
  {
    seq(|dl|, x requires 0 <= x < |dl| => if x < base && dl[x] == b then 1 else 0)
  }

  function LenCost(d: Desc, freq: seq<nat>, dl: seq<nat>): (g: seq<int>)
    requires |freq| == |dl|
    ensures |g| == |dl|
    ensures forall x: nat :: x < |dl| ==> g[x] == if x < d.elems then MulNat(freq[x], dl[x] + ExtraBits(d, x)) else 0
  {
    seq(|dl|, x requires 0 <= x < |dl| => if x < d.elems then MulNat(freq[x], dl[x] + ExtraBits(d, x)) else 0)
  }

  function LeafTab(base: nat, n: nat): (g: seq<int>)
    ensures |g| == n
    ensures forall x: nat :: x < n ==> g[x] == if x < base then 1 else 0
  {
    seq(n, x requires 0 <= x < n => if x < base then 1 else 0)
  }

  lemma {:induction false} SumConcat(g: seq<int>, a: seq<nat>, b: seq<nat>)
    ensures Sum(g, a + b) == Sum(g, a) + Sum(g, b)
  {
    if a == [] {
      assert a + b == b;
    } else {
      SumConcat(g, a[1..], b);
      assert (a + b)[1..] == a[1..] + b;
    }
  }

  /** How many of the b-bit codes have been handed out when n codes of the current length are left. */
  function Taken(bl: seq<nat>, bits: nat, n: nat, b: nat): (r: int)
    requires b < |bl|
  {
    if b > bits then bl[b] else if b == bits then bl[b] - n else 0
  }

  /** The last nodes of the order, from position q on, have their final lengths. */
  ghost predicate TailCounts(base: nat, order: seq<nat>, q: nat, dl: seq<nat>, bl: seq<nat>, bits: nat, n: nat)
    requires q <= |order| && |bl| == MAX_BITS + 1
  {
    forall b: nat :: b <= MAX_BITS ==> Sum(LenTab(base, dl, b), order[q..]) == Taken(bl, bits, n, b)
  }

  ghost predicate TailSorted(base: nat, order: seq<nat>, q: nat, dl: seq<nat>, bits: nat)
    requires q <= |order|
  {
    && (forall i :: 0 <= i < |order| ==> order[i] < |dl|)
    && (forall i :: q <= i < |order| && order[i] < base ==> bits <= dl[order[i]] <= MAX_BITS)
    && (forall i, j :: q <= i < j < |order| && order[i] < base && order[j] < base ==> dl[order[i]] <= dl[order[j]])
  }

  /** The reassignment when q nodes of the order are still to be visited and n codes of length bits to be given out;
      opt is the change of optLen since the reassignment began. */
  ghost predicate Reassigning(d: Desc, freq: seq<nat>, dad: seq<nat>, root: nat, order: seq<nat>, q: nat, dl: seq<nat>,
                              bl: seq<nat>, bits: nat, n: nat, opt: int)
  {
    && q <= |order| && |bl| == MAX_BITS + 1 && |freq| == |dad| == |dl| && bits <= MAX_BITS
    && (forall i, j :: 0 <= i < j < |order| ==> order[i] != order[j])
    && (forall i :: 0 <= i < q ==> order[i] < |dl| && dl[order[i]] == Clamped(dad, root, d.maxLength, order[i]))
    && TailCounts(d.elems, order, q, dl, bl, bits, n) && TailSorted(d.elems, order, q, dl, bits)
    && opt + Sum(CostTab(d, freq, dad, root), order[q..]) == Sum(LenCost(d, freq, dl), order[q..])
    && Sum(LeafTab(d.elems, |dl|), order[..q]) == (if bits >= 1 then LeavesTo(bl, bits - 1) + n else 0)
  }

  /** One node further down the order: only its own length may change. */
  lemma {:induction false} TailFrame(g: seq<int>, g': seq<int>, order: seq<nat>, q: nat)
    requires 0 < q <= |order| && forall i :: q <= i < |order| ==> At(g', order[i]) == At(g, order[i])
    ensures Sum(g', order[q - 1..]) == At(g', order[q - 1]) + Sum(g, order[q..])
  {
    assert order[q - 1..][1..] == order[q..];
    forall x: nat | x in order[q..] ensures At(g', x) == At(g, x) {
      var i :| 0 <= i < |order[q..]| && order[q..][i] == x;
      assert order[q + i] == x;
    }
    SumSame(g, g', order[q..]);
  }

  lemma {:induction false} HeadStep(g: seq<int>, order: seq<nat>, q: nat)
    requires 0 < q <= |order|
    ensures Sum(g, order[..q]) == Sum(g, order[..q - 1]) + At(g, order[q - 1])
  {
    assert order[..q] == order[..q - 1] + [order[q - 1]];
    SumAppend(g, order[..q - 1], order[q - 1]);
  }

  /** An inner node is passed over. */
  lemma {:induction false} SkipInner(d: Desc, freq: seq<nat>, dad: seq<nat>, root: nat, order: seq<nat>, q: nat,
      dl: seq<nat>, bl: seq<nat>, bits: nat, n: nat, opt: int)
    requires 0 < q && Reassigning(d, freq, dad, root, order, q, dl, bl, bits, n, opt) && order[q - 1] >= d.elems
    ensures Reassigning(d, freq, dad, root, order, q - 1, dl, bl, bits, n, opt)
  {
    hide Clamped, Sum, LeavesTo, MulNat;
    forall b: nat | b <= MAX_BITS ensures Sum(LenTab(d.elems, dl, b), order[q - 1..]) == Taken(bl, bits, n, b) {
      TailFrame(LenTab(d.elems, dl, b), LenTab(d.elems, dl, b), order, q);
    }
    TailFrame(CostTab(d, freq, dad, root), CostTab(d, freq, dad, root), order, q);
    TailFrame(LenCost(d, freq, dl), LenCost(d, freq, dl), order, q);
    HeadStep(LeafTab(d.elems, |dl|), order, q);
  }

  /** A leaf gets the current length. */
  lemma {:induction false} GiveLength(d: Desc, freq: seq<nat>, dad: seq<nat>, root: nat, order: seq<nat>, q: nat,
      dl: seq<nat>, bl: seq<nat>, bits: nat, n: nat, opt: int, dl': seq<nat>, opt': int)
    requires 0 < q && Reassigning(d, freq, dad, root, order, q, dl, bl, bits, n, opt) && order[q - 1] < d.elems
        && n > 0 && bits > 0
    requires order[q - 1] < |freq| && order[q - 1] < |dl| && dl' == dl[order[q - 1] := bits]
    requires opt' == opt + bits * freq[order[q - 1]] - dl[order[q - 1]] * freq[order[q - 1]]
    ensures Reassigning(d, freq, dad, root, order, q - 1, dl', bl, bits, n - 1, opt')
  {
    hide Clamped, Sum, LeavesTo, MulNat, TailSorted, TailCounts;
    var m := order[q - 1];
    GiveCount(d.elems, order, q, dl, bl, bits, n, dl');
    GiveSorted(d.elems, order, q, dl, bits, dl');
    TailFrame(CostTab(d, freq, dad, root), CostTab(d, freq, dad, root), order, q);
    TailFrame(LenCost(d, freq, dl), LenCost(d, freq, dl'), order, q);
    HeadStep(LeafTab(d.elems, |dl|), order, q);
    LengthChange(freq[m], bits, dl[m], ExtraBits(d, m));
  }

  lemma {:induction false} GiveCount(base: nat, order: seq<nat>, q: nat, dl: seq<nat>, bl: seq<nat>, bits: nat,
      n: nat, dl': seq<nat>)
    requires 0 < q <= |order| && |bl| == MAX_BITS + 1 && n > 0 && order[q - 1] < base && order[q - 1] < |dl|
    requires dl' == dl[order[q - 1] := bits] && (forall i :: q <= i < |order| ==> order[i] != order[q - 1])
    requires TailCounts(base, order, q, dl, bl, bits, n)
    ensures TailCounts(base, order, q - 1, dl', bl, bits, n - 1)
  {
    hide Sum;
    forall b: nat | b <= MAX_BITS ensures Sum(LenTab(base, dl', b), order[q - 1..]) == Taken(bl, bits, n - 1, b) {
      TailFrame(LenTab(base, dl, b), LenTab(base, dl', b), order, q);
    }
  }

  lemma {:induction false} GiveSorted(base: nat, order: seq<nat>, q: nat, dl: seq<nat>, bits: nat, dl': seq<nat>)
    requires 0 < q <= |order| && order[q - 1] < |dl| && dl' == dl[order[q - 1] := bits] && bits <= MAX_BITS
    requires (forall i :: q <= i < |order| ==> order[i] != order[q - 1]) && TailSorted(base, order, q, dl, bits)
    ensures TailSorted(base, order, q - 1, dl', bits)
  {
  }

  lemma {:induction false} LengthChange(f: nat, a: nat, b: nat, x: nat)
    ensures MulNat(f, a + x) - MulNat(f, b + x) == a * f - b * f
  {
    MulComm(f, a + x);
    MulComm(f, b + x);
    Distribute(a, x, f);
    Distribute(b, x, f);
  }

  /** All codes of this length are given out: on to the next shorter one. */
  lemma {:induction false} NextBits(d: Desc, freq: seq<nat>, dad: seq<nat>, root: nat, order: seq<nat>, q: nat,
      dl: seq<nat>, bl: seq<nat>, bits: nat, opt: int)
    requires bits >= 1 && Reassigning(d, freq, dad, root, order, q, dl, bl, bits, 0, opt) && bl[0] == 0
    ensures Reassigning(d, freq, dad, root, order, q, dl, bl, bits - 1, bl[bits - 1], opt)
  {
    hide Clamped, Sum, MulNat;
  }

  /** As long as codes are left there is a node to visit. */
  lemma {:induction false} NodeLeft(d: Desc, freq: seq<nat>, dad: seq<nat>, root: nat, order: seq<nat>, q: nat,
      dl: seq<nat>, bl: seq<nat>, bits: nat, n: nat, opt: int)
    requires bits >= 1 && n > 0 && Reassigning(d, freq, dad, root, order, q, dl, bl, bits, n, opt)
    ensures q > 0 && order[q - 1] < |dl|
  {
    hide Clamped, TailCounts, MulNat;
    assert q == 0 ==> Sum(LeafTab(d.elems, |dl|), order[..q]) == 0 by { assert order[..0] == []; }
  }

  /** Scans the nodes in order of increasing frequency and gives out the lengths, longest first. */
  method Reassign(s: Builder, freq: array<nat>, dl: array<nat>, d: Desc, maxCode: nat,
                  ghost t: Hist, ghost order: seq<nat>, ghost dad: seq<nat>)
    returns (ghost q: nat)
    requires Separate(s, freq, dl) && |t.ch| > 0 && TreeReady(t, d, freq[..], dad, order, maxCode)
    requires s.heapMax < s.heap.Length && order == s.heap[s.heapMax..]
    requires HalfDone(dad, Root(t), d.maxLength, order, |order|, dl[..])
    requires CountsOk(s.blCount[..], d.maxLength, 0, |t.leaves|)
    modifies dl, s`optLen
    ensures Reassigning(d, freq[..], dad, Root(t), order, q, dl[..], s.blCount[..], 0, 0, s.optLen - old(s.optLen))
    ensures forall x: nat :: x < dl.Length && !(x in order && x < d.elems) ==> dl[x] == old(dl[x])
  {
    hide TreeReady, HalfDone, CountsOk, Reassigning, LeavesTo;
    ghost var bl: seq<nat> := s.blCount[..];
    CountsRange(bl, d.maxLength, 0, |t.leaves|);
    StartReassign(t, d, freq[..], dad, order, maxCode, dl[..], bl);
    var h: nat := HEAP_SIZE;
    var bits := d.maxLength;
    ghost var n0 := bl[bits];
    while bits != 0
      invariant bits <= d.maxLength && s.heapMax <= h <= HEAP_SIZE && n0 == bl[bits]
      invariant Reassigning(d, freq[..], dad, Root(t), order, h - s.heapMax, dl[..], bl, bits, n0,
          s.optLen - old(s.optLen))
      invariant forall x: nat :: x < dl.Length && !(x in order && x < d.elems) ==> dl[x] == old(dl[x])
    {
      var n := s.blCount[bits];
      while n != 0
        invariant s.heapMax <= h <= HEAP_SIZE
        invariant Reassigning(d, freq[..], dad, Root(t), order, h - s.heapMax, dl[..], bl, bits, n,
            s.optLen - old(s.optLen))
        invariant forall x: nat :: x < dl.Length && !(x in order && x < d.elems) ==> dl[x] == old(dl[x])
        decreases h
      {
        NodeLeft(d, freq[..], dad, Root(t), order, h - s.heapMax, dl[..], bl, bits, n, s.optLen - old(s.optLen));
        h, n := VisitNode(s, freq, dl, d, maxCode, h, bits, n, t, order, dad, bl, old(s.optLen));
      }
      NextBits(d, freq[..], dad, Root(t), order, h - s.heapMax, dl[..], bl, bits, s.optLen - old(s.optLen));
      bits := bits - 1;
      n0 := bl[bits];
    }
    q := h - s.heapMax;
  }

  lemma {:induction false} CountsRange(bl: seq<nat>, max: nat, excess: nat, leaves: nat)
    requires CountsOk(bl, max, excess, leaves)
    ensures |bl| == MAX_BITS + 1 && 1 <= max <= MAX_BITS && bl[0] == 0
  {
  }

  method VisitNode(s: Builder, freq: array<nat>, dl: array<nat>, d: Desc, maxCode: nat, h: nat, bits: nat, n: nat,
                   ghost t: Hist, ghost order: seq<nat>, ghost dad: seq<nat>, ghost bl: seq<nat>, ghost opt: int)
    returns (h': nat, n': nat)
    requires Separate(s, freq, dl) && |t.ch| > 0 && TreeReady(t, d, freq[..], dad, order, maxCode)
    requires s.heapMax < h <= s.heap.Length && order == s.heap[s.heapMax..] && 1 <= bits && n > 0
    requires order[h - s.heapMax - 1] < dl.Length
    requires Reassigning(d, freq[..], dad, Root(t), order, h - s.heapMax, dl[..], bl, bits, n, s.optLen - opt)
    modifies dl, s`optLen
    ensures h' == h - 1
    ensures Reassigning(d, freq[..], dad, Root(t), order, h' - s.heapMax, dl[..], bl, bits, n', s.optLen - opt)
    ensures forall x: nat :: x < dl.Length && !(x in order && x < d.elems) ==> dl[x] == old(dl[x])
  {
    hide TreeReady, Reassigning;
    ghost var l: seq<nat> := dl[..];
    h' := h - 1;
    var m := s.heap[h'];
    n' := n;
    assert m == order[h' - s.heapMax];
    LeafByCode(t, d, freq[..], dad, order, maxCode, h' - s.heapMax);
    if m > maxCode {
      SkipInner(d, freq[..], dad, Root(t), order, h - s.heapMax, l, bl, bits, n, s.optLen - opt);
    } else {
      GiveLength(d, freq[..], dad, Root(t), order, h - s.heapMax, l, bl, bits, n, s.optLen - opt, l[m := bits],
                 s.optLen - opt + bits * freq[m] - l[m] * freq[m]);
      Distribute(bits, dl[m], freq[m]);
      if dl[m] != bits {
        s.optLen := s.optLen + (bits - dl[m]) * freq[m];
        dl[m] := bits;
      }
      assert dl[..] == l[m := bits];
      n' := n - 1;
    }
  }

  lemma {:induction false} LeafByCode(t: Hist, d: Desc, freq: seq<nat>, dad: seq<nat>, order: seq<nat>, maxCode: nat,
      p: nat)
    requires |t.ch| > 0 && TreeReady(t, d, freq, dad, order, maxCode) && p < |order|
    ensures order[p] > maxCode <==> order[p] >= d.elems
  {
    hide FathersOk, SonsOk, Telescopes, FreqOk, OrderIs, Pow2;
    OrderIsNode(t, dad, order, p);
  }

  lemma {:induction false} LeafCount(base: nat, n: nat, s: seq<nat>)
    requires base <= n && forall i :: 0 <= i < |s| ==> s[i] < base
    ensures Sum(LeafTab(base, n), s) == |s|
  {
    if s != [] { LeafCount(base, n, s[1..]); }
  }

  lemma {:induction false} StartReassign(t: Hist, d: Desc, freq: seq<nat>, dad: seq<nat>, order: seq<nat>, maxCode: nat,
                                         dl: seq<nat>, bl: seq<nat>)
    requires |t.ch| > 0 && TreeReady(t, d, freq, dad, order, maxCode)
    requires HalfDone(dad, Root(t), d.maxLength, order, |order|, dl) && CountsOk(bl, d.maxLength, 0, |t.leaves|)
    ensures Reassigning(d, freq, dad, Root(t), order, |order|, dl, bl, d.maxLength, bl[d.maxLength], 0)
  {
    hide Pow2, FathersOk, SonsOk, FreqOk, OrderIs, KraftTo, Clamped;
    assert order[|order|..] == [] && order[..|order|] == order;
    forall i, j | 0 <= i < j < |order| ensures order[i] != order[j] { OrderDistinct(t, dad, order, i, j); }
    forall i | 0 <= i < |order|
      ensures order[i] < |dl| && dl[order[i]] == Clamped(dad, Root(t), d.maxLength, order[i])
    {
      OrderIsNode(t, dad, order, i);
      assert order[i] in order;
    }
    LeafSum(LeafTab(d.elems, |dl|), t, order);
    LeafCount(d.elems, |dl|, t.leaves);
  }

  // ------------------------------------------------------------------ gen_bitlen

  /** What gen_bitlen leaves behind: a complete set of code lengths within the limit, counted in bl, and the
      bit lengths of the block with these codes and with the static ones. */
  ghost predicate LengthsDone(t: Hist, d: Desc, freq: seq<nat>, dl: seq<nat>, bl: seq<nat>, opt: int, static_: int)
  {
    && |dl| == |freq| && |bl| == MAX_BITS + 1
    && (forall b: nat :: b <= MAX_BITS ==> bl[b] == Sum(LenTab(d.elems, dl, b), t.leaves))
    && CountsOk(bl, d.maxLength, 0, |t.leaves|)
    && (forall x: nat :: x in t.leaves ==> x < |dl| && 1 <= dl[x] <= d.maxLength)
    && opt == Sum(LenCost(d, freq, dl), t.leaves) && static_ == Sum(StaticTab(d, freq), t.leaves)
  }

  lemma {:induction false} LenPositive(base: nat, dl: seq<nat>, b: nat, s: seq<nat>, x: nat)
    requires x in s && x < base && x < |dl| && dl[x] == b
    ensures Sum(LenTab(base, dl, b), s) >= 1
  {
    LenNonnegative(base, dl, b, s[1..]);
    if s[0] != x { LenPositive(base, dl, b, s[1..], x); }
  }

  lemma {:induction false} LenNonnegative(base: nat, dl: seq<nat>, b: nat, s: seq<nat>)
    ensures Sum(LenTab(base, dl, b), s) >= 0
  {
    if s != [] { LenNonnegative(base, dl, b, s[1..]); }
  }

  /** Counted lengths are in range. */
  lemma {:induction false} InRange(base: nat, dl: seq<nat>, bl: seq<nat>, max: nat, s: seq<nat>, x: nat, excess: nat,
      leaves: nat)
    requires CountsOk(bl, max, excess, leaves) && forall b: nat ::
        b <= MAX_BITS ==> bl[b] == Sum(LenTab(base, dl, b), s)
    requires x in s && x < base && x < |dl| && dl[x] <= MAX_BITS
    ensures 1 <= dl[x] <= max
  {
    hide KraftTo, LeavesTo, Pow2;
    LenPositive(base, dl, dl[x], s, x);
  }

  /** Every leaf has its place in the order. */
  lemma {:induction false} LeafPlace(t: Hist, dad: seq<nat>, order: seq<nat>, x: nat) returns (p: nat)
    requires Ordered(t, order) && Shape(t, dad, [Root(t)]) && x in t.leaves
    ensures p < |order| && order[p] == x && x < t.base && x < |dad|
  {
    hide OrderIs;
    assert IsNode(t, x);
    var i :| 0 <= i < |t.leaves| && t.leaves[i] == x;
    assert x !in [Root(t)];
    assert IsSon(t, x, dad[x] - t.base);
    p := PlaceOf(t, order, x, dad[x] - t.base);
  }

  lemma {:induction false} WithoutOverflow(t: Hist, d: Desc, freq: seq<nat>, dad: seq<nat>, order: seq<nat>,
      maxCode: nat, dl: seq<nat>, bl: seq<nat>, opt: int, static_: int)
    requires |t.ch| > 0 && TreeReady(t, d, freq, dad, order, maxCode)
    requires HalfDone(dad, Root(t), d.maxLength, order, |order|, dl)
    requires Tallied(d, freq, dad, Root(t), order, bl, 0, opt, static_)
    ensures LengthsDone(t, d, freq, dl, bl, opt, static_)
    ensures forall x: nat :: x in t.leaves ==> x < |dl| && dl[x] == Depth(dad, Root(t), x)
  {
    hide Pow2, FathersOk, SonsOk, FreqOk, Depth, MulNat, KraftTo, LeavesTo, Sum, OrderIs;
    FirstPassCounts(t, d, freq, dad, order, maxCode, bl, 0, opt, static_);
    assert order[..|order|] == order;
    forall b: nat | b <= MAX_BITS ensures bl[b] == Sum(LenTab(d.elems, dl, b), t.leaves) {
      SameOnOrder(t, dad, order, CountTab(d.elems, dad, Root(t), d.maxLength, b), LenTab(d.elems, dl, b));
    }
    SameOnOrder(t, dad, order, CostTab(d, freq, dad, Root(t)), LenCost(d, freq, dl));
    SameOnOrder(t, dad, order, StaticTab(d, freq), StaticTab(d, freq));
    forall x: nat | x in t.leaves ensures x < |dl| && 1 <= dl[x] <= d.maxLength && dl[x] == Depth(dad, Root(t), x) {
      var p := LeafPlace(t, dad, order, x);
      NoOver(dad, Root(t), d.maxLength, order, p);
      InRange(d.elems, dl, bl, d.maxLength, t.leaves, x, 0, |t.leaves|);
    }
  }

  /** Two leaf quantities that agree on the listed nodes: one along the order, the other over the leaves. */
  lemma {:induction false} SameOnOrder(t: Hist, dad: seq<nat>, order: seq<nat>, g: seq<int>, g': seq<int>)
    requires Ordered(t, order) && Telescopes(t, [Root(t)]) && LeafOnly(g', t.base)
    requires forall x: nat :: x in order ==> At(g', x) == At(g, x)
    ensures Sum(g, order) == Sum(g', t.leaves)
  {
    hide Sum, OrderIs;
    SumSame(g, g', order);
    LeafSum(g', t, order);
  }

  /** No overflow counted: no listed node is too deep. */
  lemma {:induction false} NoOver(dad: seq<nat>, root: nat, max: nat, s: seq<nat>, p: nat)
    requires Sum(OverTab(dad, root, max), s) == 0 && p < |s| && s[p] < |dad|
    ensures Depth(dad, root, s[p]) <= max
  {
    hide Depth;
    OverNonnegative(dad, root, max, s[1..]);
    if p > 0 { NoOver(dad, root, max, s[1..], p - 1); }
  }

  lemma {:induction false} OverNonnegative(dad: seq<nat>, root: nat, max: nat, s: seq<nat>)
    ensures Sum(OverTab(dad, root, max), s) >= 0
  {
    hide Depth;
    if s != [] { OverNonnegative(dad, root, max, s[1..]); }
  }

  /** If y is more frequent than x, its code is not longer. */
  ghost predicate NotLonger(freq: seq<nat>, dl: seq<nat>, x: nat, y: nat)
  {
    x < |freq| && y < |freq| && x < |dl| && y < |dl| && freq[x] < freq[y] ==> dl[y] <= dl[x]
  }

  /** No leaf of higher frequency has a longer code. */
  ghost predicate LengthsSorted(t: Hist, freq: seq<nat>, dl: seq<nat>)
  {
    forall x: nat, y: nat :: x in t.leaves && y in t.leaves ==> NotLonger(freq, dl, x, y)
  }

  /** The nodes not visited are no leaves, so what only leaves have adds up to the same over the visited ones. */
  lemma {:induction false} TailIsAll(g: seq<int>, base: nat, order: seq<nat>, q: nat)
    requires q <= |order| && LeafOnly(g, base) && Sum(LeafTab(base, |g|), order[..q]) == 0
    ensures Sum(g, order[q..]) == Sum(g, order)
  {
    hide Sum;
    assert order == order[..q] + order[q..];
    NoLeafInHead(base, |g|, order[..q]);
    HeadZero(g, base, order[..q]);
    SumConcat(g, order[..q], order[q..]);
  }

  lemma {:induction false} AfterRepair(t: Hist, d: Desc, freq: seq<nat>, dad: seq<nat>, order: seq<nat>, maxCode: nat,
                                       q: nat, dl: seq<nat>, bl0: seq<nat>, bl: seq<nat>, overflow: int, opt0: int,
                                         opt: int, static_: int)
    requires |t.ch| > 0 && TreeReady(t, d, freq, dad, order, maxCode) && CountsOk(bl, d.maxLength, 0, |t.leaves|)
    requires Tallied(d, freq, dad, Root(t), order, bl0, overflow, opt0, static_)
    requires Reassigning(d, freq, dad, Root(t), order, q, dl, bl, 0, 0, opt)
    ensures LengthsDone(t, d, freq, dl, bl, opt0 + opt, static_)
  {
    hide Pow2, FathersOk, SonsOk, FreqOk, Depth, MulNat, KraftTo, LeavesTo, Sum, OrderIs, Clamped, CountsAre,
      Telescopes;
    TailIsAll(CostTab(d, freq, dad, Root(t)), d.elems, order, q);
    TailIsAll(LenCost(d, freq, dl), d.elems, order, q);
    forall b: nat | b <= MAX_BITS ensures bl[b] == Sum(LenTab(d.elems, dl, b), t.leaves) {
      TailIsAll(LenTab(d.elems, dl, b), d.elems, order, q);
      LeafSum(LenTab(d.elems, dl, b), t, order);
    }
    LeafSum(LenCost(d, freq, dl), t, order);
    LeafSum(StaticTab(d, freq), t, order);
    forall x: nat | x in t.leaves ensures x < |dl| && 1 <= dl[x] <= d.maxLength {
      var p := VisitedLeaf(t, d, dad, order, q, dl, x);
      InRange(d.elems, dl, bl, d.maxLength, t.leaves, x, 0, |t.leaves|);
    }
  }

  /** Every leaf is among the visited nodes. */
  lemma {:induction false} VisitedLeaf(t: Hist, d: Desc, dad: seq<nat>, order: seq<nat>, q: nat, dl: seq<nat>,
      x: nat) returns (p: nat)
    requires Ordered(t, order) && Shape(t, dad, [Root(t)]) && t.base == d.elems && |dl| == |dad| && x in t.leaves
    requires q <= |order| && Sum(LeafTab(d.elems, |dl|), order[..q]) == 0
    ensures q <= p < |order| && order[p] == x && x < d.elems && x < |dl|
  {
    hide Sum, OrderIs, Shape;
    p := LeafPlace(t, dad, order, x);
    NoLeafBefore(d.elems, |dl|, order, q);
  }

  /** The order lists the nodes by decreasing frequency. */
  ghost predicate ByFrequency(freq: seq<nat>, order: seq<nat>)
  {
    forall i, j :: 0 <= i < j < |order| ==> order[i] < |freq| && order[j] < |freq| && freq[order[j]] <= freq[order[i]]
  }

  lemma {:induction false} RepairSorted(t: Hist, d: Desc, freq: seq<nat>, dad: seq<nat>, order: seq<nat>,
                                        q: nat, dl: seq<nat>)
    requires Ordered(t, order) && Shape(t, dad, [Root(t)]) && t.base == d.elems && |dl| == |dad| == |freq|
    requires q <= |order| && Sum(LeafTab(d.elems, |dl|), order[..q]) == 0 && TailSorted(d.elems, order, q, dl, 0)
    requires ByFrequency(freq, order)
    ensures LengthsSorted(t, freq, dl)
  {
    hide Shape, Ordered, Sum;
    forall x: nat, y: nat | x in t.leaves && y in t.leaves ensures NotLonger(freq, dl, x, y) {
      var i := VisitedLeaf(t, d, dad, order, q, dl, x);
      var j := VisitedLeaf(t, d, dad, order, q, dl, y);
      if i < j { assert freq[order[j]] <= freq[order[i]]; }
    }
  }

  lemma {:induction false} NoLeafInHead(base: nat, n: nat, s: seq<nat>)
    requires Sum(LeafTab(base, n), s) == 0
    ensures forall i :: 0 <= i < |s| && s[i] < n ==> s[i] >= base
  {
    if s != [] {
      LeafNonnegative(base, n, s[1..]);
      NoLeafInHead(base, n, s[1..]);
      forall i | 0 <= i < |s| && s[i] < n ensures s[i] >= base { if i > 0 { assert s[i] == s[1..][i - 1]; } }
    }
  }

  lemma {:induction false} NoLeafBefore(base: nat, n: nat, order: seq<nat>, q: nat)
    requires q <= |order| && Sum(LeafTab(base, n), order[..q]) == 0
    ensures forall i :: 0 <= i < q && order[i] < n ==> order[i] >= base
  {
    NoLeafInHead(base, n, order[..q]);
    forall i | 0 <= i < q && order[i] < n ensures order[i] >= base { assert order[..q][i] == order[i]; }
  }

  lemma {:induction false} LeafNonnegative(base: nat, n: nat, s: seq<nat>)
    ensures Sum(LeafTab(base, n), s) >= 0
  {
    if s != [] { LeafNonnegative(base, n, s[1..]); }
  }

  lemma {:induction false} HeadZero(g: seq<int>, base: nat, s: seq<nat>)
    requires LeafOnly(g, base) && forall i :: 0 <= i < |s| && s[i] < |g| ==> s[i] >= base
    ensures Sum(g, s) == 0
  {
    if s != [] { HeadZero(g, base, s[1..]); }
  }

  // ------------------------------------------------------------------ gen_bitlen as a whole

  /** No leaf is deeper than the longest code allowed. */
  ghost predicate Shallow(t: Hist, dad: seq<nat>, max: nat)
    requires |t.ch| > 0
  {
    forall x: nat :: x in t.leaves ==> Depth(dad, Root(t), x) <= max
  }

  /** Below every node there is a leaf. */
  lemma {:induction false} LeafBelow(t: Hist, dad: seq<nat>, x: nat) returns (y: nat)
    requires |t.ch| > 0 && Shape(t, dad, [Root(t)]) && IsNode(t, x)
    ensures y in t.leaves && Depth(dad, Root(t), y) >= Depth(dad, Root(t), x)
    decreases x
  {
    if x in t.leaves {
      y := x;
    } else {
      var k := x - t.base;
      SonsDepth(t, dad, k);
      assert IsSon(t, t.ch[k].0, k);
      y := LeafBelow(t, dad, t.ch[k].0);
    }
  }

  lemma {:induction false} NoneOver(dad: seq<nat>, root: nat, max: nat, s: seq<nat>)
    requires forall i :: 0 <= i < |s| ==> Depth(dad, root, s[i]) <= max
    ensures Sum(OverTab(dad, root, max), s) == 0
  {
    hide Depth;
    if s != [] { NoneOver(dad, root, max, s[1..]); }
  }

  /** The overflow counter is zero exactly when the tree is shallow enough. */
  lemma {:induction false} OverflowMeansDeep(t: Hist, d: Desc, freq: seq<nat>, dad: seq<nat>, order: seq<nat>,
      maxCode: nat)
    requires |t.ch| > 0 && TreeReady(t, d, freq, dad, order, maxCode)
    ensures Sum(OverTab(dad, Root(t), d.maxLength), order) == 0 <==> Shallow(t, dad, d.maxLength)
  {
    hide FathersOk, SonsOk, Telescopes, FreqOk, OrderIs, Pow2, Depth, Sum;
    if Sum(OverTab(dad, Root(t), d.maxLength), order) == 0 {
      forall x: nat | x in t.leaves ensures Depth(dad, Root(t), x) <= d.maxLength {
        var p := LeafPlace(t, dad, order, x);
        NoOver(dad, Root(t), d.maxLength, order, p);
      }
    }
    if Shallow(t, dad, d.maxLength) {
      forall i | 0 <= i < |order| ensures Depth(dad, Root(t), order[i]) <= d.maxLength {
        OrderIsNode(t, dad, order, i);
        var y := LeafBelow(t, dad, order[i]);
      }
      NoneOver(dad, Root(t), d.maxLength, order);
    }
  }

  /** Of two nodes the more frequent one is not deeper. */
  lemma {:induction false} DepthSorted(t: Hist, freq: seq<nat>, dad: seq<nat>, order: seq<nat>, i: nat, j: nat)
    requires Ordered(t, order) && Shape(t, dad, [Root(t)]) && FreqOk(t, freq) && ByFrequency(freq, order)
    requires i < |order| && j < |order| && order[i] < |freq| && order[j] < |freq| && freq[order[i]] < freq[order[j]]
    ensures Depth(dad, Root(t), order[j]) <= Depth(dad, Root(t), order[i])
    decreases i
  {
    hide Shape, Depth, OrderIs, Ordered;
    RootFirst(t, order);
    if j == 0 {
      RootDepth(dad, Root(t));
    } else {
      var ki := SonAt(t, order, i);
      var kj := SonAt(t, order, j);
      var i' := FatherEarlier(t, dad, order, i);
      var j' := FatherEarlier(t, dad, order, j);
      SonDepth(t, dad, order[i], ki);
      SonDepth(t, dad, order[j], kj);
      if ki != kj {
        FathersSorted(t, freq, order, i, j, ki, kj);
        DepthSorted(t, freq, dad, order, i', j');
      }
    }
  }

  lemma {:induction false} RootFirst(t: Hist, order: seq<nat>)
    requires Ordered(t, order)
    ensures |t.ch| > 0 && |order| == 2 * |t.ch| + 1 && order[0] == Root(t)
  {
  }

  lemma {:induction false} NotMore(freq: seq<nat>, order: seq<nat>, i: nat, j: nat)
    requires ByFrequency(freq, order) && i < j < |order|
    ensures order[i] < |freq| && order[j] < |freq| && freq[order[j]] <= freq[order[i]]
  {
  }

  lemma {:induction false} FathersSorted(t: Hist, freq: seq<nat>, order: seq<nat>, i: nat, j: nat, ki: nat, kj: nat)
    requires Ordered(t, order) && FreqOk(t, freq) && ByFrequency(freq, order)
    requires 0 < i < |order| && 0 < j < |order| && order[i] < |freq| && order[j] < |freq|
        && freq[order[i]] < freq[order[j]]
    requires IsSon(t, order[i], ki) && IsSon(t, order[j], kj) && ki != kj
    requires 1 + 2 * (|t.ch| - 1 - ki) <= i <= 2 + 2 * (|t.ch| - 1 - ki)
    requires 1 + 2 * (|t.ch| - 1 - kj) <= j <= 2 + 2 * (|t.ch| - 1 - kj)
    ensures freq[t.base + ki] < freq[t.base + kj]
  {
    var a, b := 1 + 2 * (|t.ch| - 1 - ki), 1 + 2 * (|t.ch| - 1 - kj);
    assert j < i by { if i < j { NotMore(freq, order, i, j); } }
    assert order[a] == order[1..][a - 1] && order[a + 1] == order[1..][a];
    assert order[b] == order[1..][b - 1] && order[b + 1] == order[1..][b];
    assert order[a] == t.ch[ki].1 && order[a + 1] == t.ch[ki].0;
    assert order[b] == t.ch[kj].1 && order[b + 1] == t.ch[kj].0;
    assert freq[order[a]] <= freq[order[b + 1]] <= freq[order[b]] && freq[order[a + 1]] <= freq[order[a]];
  }

  lemma {:induction false} ShallowSorted(t: Hist, freq: seq<nat>, dad: seq<nat>, order: seq<nat>, dl: seq<nat>)
    requires Ordered(t, order) && Shape(t, dad, [Root(t)]) && FreqOk(t, freq) && ByFrequency(freq, order)
    requires forall x: nat :: x in t.leaves ==> x < |dl| && dl[x] == Depth(dad, Root(t), x)
    ensures LengthsSorted(t, freq, dl)
  {
    hide Shape, Depth, OrderIs, Ordered, FreqOk;
    forall x: nat, y: nat | x in t.leaves && y in t.leaves ensures NotLonger(freq, dl, x, y) {
      if x < |freq| && y < |freq| && freq[x] < freq[y] {
        var i := LeafPlace(t, dad, order, x);
        var j := LeafPlace(t, dad, order, y);
        DepthSorted(t, freq, dad, order, i, j);
      }
    }
  }

  /** Lengths of symbols outside the tree stay as they were. */
  lemma {:induction false} OthersKept(t: Hist, dad: seq<nat>, order: seq<nat>, x: nat)
    requires Ordered(t, order) && Shape(t, dad, [Root(t)]) && x < t.base && x !in t.leaves
    ensures x !in order
  {
    if x in order {
      var p :| 0 <= p < |order| && order[p] == x;
      OrderIsNode(t, dad, order, p);
    }
  }

  lemma {:induction false} FirstPassKept(t: Hist, d: Desc, freq: seq<nat>, dad: seq<nat>, order: seq<nat>,
      maxCode: nat, dl: seq<nat>)
    requires |t.ch| > 0 && TreeReady(t, d, freq, dad, order, maxCode)
    requires HalfDone(dad, Root(t), d.maxLength, order, |order|, dl)
    ensures forall x: nat :: x < d.elems && x !in t.leaves && x < |dl| ==> dl[x] == dad[x]
  {
    hide FathersOk, SonsOk, Telescopes, FreqOk, OrderIs, Pow2, Clamped;
    assert order[..|order|] == order;
    forall x: nat | x < d.elems && x !in t.leaves && x < |dl| ensures dl[x] == dad[x] { OthersKept(t, dad, order, x); }
  }

  lemma {:induction false} ReassignKept(t: Hist, d: Desc, freq: seq<nat>, dad: seq<nat>, order: seq<nat>,
      maxCode: nat, dl: seq<nat>, dl': seq<nat>)
    requires |t.ch| > 0 && TreeReady(t, d, freq, dad, order, maxCode) && |dl'| == |dl|
    requires forall x: nat :: x < |dl| && !(x in order && x < d.elems) ==> dl'[x] == dl[x]
    ensures forall x: nat :: x < d.elems && x !in t.leaves && x < |dl| ==> dl'[x] == dl[x]
  {
    hide FathersOk, SonsOk, Telescopes, FreqOk, OrderIs, Pow2;
    forall x: nat | x < d.elems && x !in t.leaves && x < |dl| ensures dl'[x] == dl[x] { OthersKept(t, dad, order, x); }
  }

  lemma {:induction false} ReassignedParts(t: Hist, d: Desc, freq: seq<nat>, dad: seq<nat>, order: seq<nat>,
      maxCode: nat, q: nat, dl: seq<nat>, bl: seq<nat>, opt: int)
    requires |t.ch| > 0 && TreeReady(t, d, freq, dad, order, maxCode) && ByFrequency(freq, order)
    requires Reassigning(d, freq, dad, Root(t), order, q, dl, bl, 0, 0, opt)
    ensures LengthsSorted(t, freq, dl)
  {
    hide Shape, Telescopes, FreqOk, Ordered, Pow2, Sum, MulNat, Clamped, TailCounts, TailSorted, LengthsSorted;
    RepairSorted(t, d, freq, dad, order, q, dl);
  }

  lemma {:induction false} TallyOverflow(d: Desc, freq: seq<nat>, dad: seq<nat>, root: nat, s: seq<nat>,
                                         bl: seq<nat>, overflow: int, opt: int, static_: int)
    requires |freq| == |dad| && Tallied(d, freq, dad, root, s, bl, overflow, opt, static_)
    ensures overflow == Sum(OverTab(dad, root, d.maxLength), s)
  {
  }

  lemma {:induction false} ReadyParts(t: Hist, d: Desc, freq: seq<nat>, dad: seq<nat>, order: seq<nat>, maxCode: nat)
    requires TreeReady(t, d, freq, dad, order, maxCode)
    ensures |t.ch| > 0 && Ordered(t, order) && Shape(t, dad, [Root(t)]) && FreqOk(t, freq) && |freq| == |dad|
    ensures 1 <= d.maxLength <= MAX_BITS
  {
  }

  /** The code lengths: complete, within the limit, no more frequent symbol longer, and equal to the depths in
      the tree when these are within the limit. */
  method GenBitlen(s: Builder, freq: array<nat>, dl: array<nat>, d: Desc, maxCode: nat, ghost t: Hist,
      ghost order: seq<nat>)
    requires Separate(s, freq, dl) && |t.ch| > 0 && TreeReady(t, d, freq[..], dl[..], order, maxCode)
    requires s.heapMax < s.heap.Length && order == s.heap[s.heapMax..] && ByFrequency(freq[..], order)
    modifies dl, s.blCount, s`optLen, s`staticLen
    ensures LengthsDone(t, d, freq[..], dl[..], s.blCount[..], s.optLen - old(s.optLen), s.staticLen - old(s.staticLen))
    ensures LengthsSorted(t, freq[..], dl[..])
    ensures Shallow(t, old(dl[..]), d.maxLength) ==> forall x: nat ::
        x in t.leaves ==> x < dl.Length && dl[x] == Depth(old(dl[..]), Root(t), x)
    ensures Shallow(t, old(dl[..]), d.maxLength) || exists x: nat ::
        x in t.leaves && x < dl.Length && dl[x] == d.maxLength
    ensures forall x: nat :: x < d.elems && x !in t.leaves && x < dl.Length ==> dl[x] == old(dl[x])
  {
    hide TreeReady, HalfDone, Tallied, CountsOk, Reassigning, LengthsDone, LengthsSorted, Shallow, Depth, Sum, Shape,
      Ordered, FreqOk, ByFrequency;
    ghost var dad: seq<nat>, f: seq<nat> := dl[..], freq[..];
    ReadyParts(t, d, f, dad, order, maxCode);
    OverflowMeansDeep(t, d, f, dad, order, maxCode);
    var overflow := AssignLengths(s, freq, dl, d, maxCode, t, order, dad);
    ghost var bl0, l0: seq<nat> := s.blCount[..], dl[..];
    ghost var opt0 := s.optLen - old(s.optLen);
    TallyOverflow(d, f, dad, Root(t), order, bl0, overflow, opt0, s.staticLen - old(s.staticLen));
    FirstPassKept(t, d, f, dad, order, maxCode, l0);
    if overflow == 0 {
      WithoutOverflow(t, d, f, dad, order, maxCode, l0, bl0, opt0, s.staticLen - old(s.staticLen));
      ShallowSorted(t, f, dad, order, l0);
      return;
    }
    FirstPassCounts(t, d, f, dad, order, maxCode, bl0, overflow, opt0, s.staticLen - old(s.staticLen));
    ghost var max: nat := d.maxLength;
    assert bl0[max] == s.blCount[max];
    RepairCounts(s, d.maxLength, overflow, |t.leaves|);
    ghost var q := Reassign(s, freq, dl, d, maxCode, t, order, dad);
    ReassignKept(t, d, f, dad, order, maxCode, l0, dl[..]);
    AfterRepair(t, d, f, dad, order, maxCode, q, dl[..], bl0, s.blCount[..], overflow, opt0,
      s.optLen - old(s.optLen) - opt0,
                s.staticLen - old(s.staticLen));
    ReassignedParts(t, d, f, dad, order, maxCode, q, dl[..], s.blCount[..], s.optLen - old(s.optLen) - opt0);
    assert s.blCount[..][max] == s.blCount[max];
    LongestUsed(t, d, f, dl[..], s.blCount[..], s.optLen - old(s.optLen), s.staticLen - old(s.staticLen));
  }

  lemma {:induction false} LongestUsed(t: Hist, d: Desc, freq: seq<nat>, dl: seq<nat>, bl: seq<nat>, opt: int,
      static_: int)
    requires LengthsDone(t, d, freq, dl, bl, opt, static_) && d.maxLength <= MAX_BITS && bl[d.maxLength] > 0
    ensures exists x: nat :: x in t.leaves && x < |dl| && dl[x] == d.maxLength
  {
    hide CountsOk, Sum;
    if forall x: nat :: x in t.leaves ==> x < |dl| && dl[x] != d.maxLength {
      assert forall i :: 0 <= i < |t.leaves| ==> t.leaves[i] in t.leaves;
      NoneOfLength(d.elems, dl, d.maxLength, t.leaves);
    }
  }

  lemma {:induction false} NoneOfLength(base: nat, dl: seq<nat>, b: nat, s: seq<nat>)
    requires forall i :: 0 <= i < |s| ==> s[i] < |dl| && dl[s[i]] != b
    ensures Sum(LenTab(base, dl, b), s) == 0
  {
    if s != [] { NoneOfLength(base, dl, b, s[1..]); }
  }
}
