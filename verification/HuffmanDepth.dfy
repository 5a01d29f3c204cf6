/** Deep trees are heavy: a leaf at depth n needs a total frequency of the Fibonacci number n + 2 at least. */
module HuffmanDepth {
  import opened Bits
  import opened HuffmanCost
  import opened HuffmanTree
  import opened HuffmanLengths

  function Fib(n: nat): (f: nat)
  {
    if n < 2 then n else Fib(n - 1) + Fib(n - 2)
  }

  /** The bounds for codes of up to 7 and up to 15 bits. */
  lemma {:induction false} Limits()
    ensures Fib(10) == 55 && Fib(18) == 2584
  {
    assert Fib(6) == 8 && Fib(7) == 13;
    assert Fib(8) == 21 && Fib(9) == 34;
    assert Fib(10) == 55 && Fib(11) == 89;
    assert Fib(12) == 144 && Fib(13) == 233;
    assert Fib(14) == 377 && Fib(15) == 610;
    assert Fib(16) == 987 && Fib(17) == 1597;
  }

  lemma {:induction false} FibMono(m: nat, n: nat)
    requires m <= n
    ensures Fib(m) <= Fib(n)
    decreases n
  {
    if m < n && n >= 2 { FibMono(m, n - 1); }
  }

  /** Sons of later fathers are at least as frequent. */
  lemma {:induction false} LaterHeavier(t: Hist, freq: seq<nat>, order: seq<nat>, u: nat, k: nat, w: nat, j: nat)
    requires Ordered(t, order) && Below(order, |freq|) && IsSon(t, u, k) && IsSon(t, w, j) && j < k
    requires ByFrequency(freq, order)
    ensures u < |freq| && w < |freq| && freq[w] <= freq[u]
  {
    hide Ordered;
    var p := PlaceOf(t, order, u, k);
    var q := PlaceOf(t, order, w, j);
    assert order[p] in order && order[q] in order;
  }

  /** Every node has a frequency. */
  lemma {:induction false} Positive(t: Hist, freq: seq<nat>, dad: seq<nat>, x: nat)
    requires |t.ch| > 0 && Shape(t, dad, [Root(t)]) && FreqOk(t, freq) && Below(t.leaves, |freq|) && IsNode(t, x)
    requires forall y: nat :: y in t.leaves && y < |freq| ==> freq[y] > 0
    ensures x < |freq| && freq[x] > 0
    decreases x
  {
    if x !in t.leaves {
      var k := x - t.base;
      assert IsSon(t, t.ch[k].0, k);
      Positive(t, freq, dad, t.ch[k].0);
    }
  }

  /** Up the path to the root, each node weighs at least what the two below it weigh. */
  lemma {:induction false} Ascend(t: Hist, freq: seq<nat>, dad: seq<nat>, order: seq<nat>, v: nat, j: nat, w: nat,
      d: nat)
    requires |t.ch| > 0 && Shape(t, dad, [Root(t)]) && FreqOk(t, freq) && Ordered(t, order) && Below(order, |freq|)
    requires ByFrequency(freq, order)
    requires IsSon(t, w, j) && v == t.base + j && w < |freq| && v < |freq|
    requires freq[w] >= Fib(d + 1) && freq[v] >= Fib(d + 2)
    ensures Root(t) < |freq| && freq[Root(t)] >= Fib(d + 2 + Depth(dad, Root(t), v))
    decreases Root(t) - v
  {
    hide Ordered, HeapOk, Depth, Fib;
    if v == Root(t) {
      RootDepth(dad, Root(t));
    } else {
      assert IsNode(t, v) && v !in [Root(t)];
      var k: nat := dad[v] - t.base;
      assert IsSon(t, v, k);
      SonDepth(t, dad, v, k);
      var u := if v == t.ch[k].0 then t.ch[k].1 else t.ch[k].0;
      assert IsSon(t, u, k);
      LaterHeavier(t, freq, order, u, k, w, j);
      FibStep(d + 3);
      Ascend(t, freq, dad, order, t.base + k, k, v, d + 1);
    }
  }

  lemma {:induction false} FibStep(n: nat)
    requires n >= 2
    ensures Fib(n) == Fib(n - 1) + Fib(n - 2)
  {
  }

  lemma {:induction false} DeepLeaf(t: Hist, freq: seq<nat>, dad: seq<nat>, order: seq<nat>, x: nat)
    requires |t.ch| > 0 && Shape(t, dad, [Root(t)]) && FreqOk(t, freq) && Ordered(t, order) && Below(order, |freq|)
    requires ByFrequency(freq, order)
    requires Below(t.leaves, |freq|) && x in t.leaves && forall y: nat :: y in t.leaves && y < |freq| ==> freq[y] > 0
    ensures Root(t) < |freq| && freq[Root(t)] >= Fib(2 + Depth(dad, Root(t), x))
  {
    hide Ordered, HeapOk, Depth;
    assert IsNode(t, x) && x != Root(t);
    var k: nat := dad[x] - t.base;
    assert IsSon(t, x, k);
    SonDepth(t, dad, x, k);
    var u := if x == t.ch[k].0 then t.ch[k].1 else t.ch[k].0;
    assert IsSon(t, u, k);
    Positive(t, freq, dad, x);
    Positive(t, freq, dad, u);
    assert Fib(2) == 1 && Fib(3) == 2;
    Ascend(t, freq, dad, order, t.base + k, k, x, 1);
  }

  /** The root has the total frequency. */
  lemma {:induction false} NoExcess(t: Hist, freq: seq<nat>, n: nat)
    requires FreqOk(t, freq) && n <= |t.ch|
    ensures Excess(freq, t.ch[..n], t.base) == 0
  {
    if n > 0 {
      NoExcess(t, freq, n - 1);
      assert t.ch[..n][..n - 1] == t.ch[..n - 1];
    }
  }

  lemma {:induction false} RootTotal(t: Hist, freq: seq<nat>)
    requires |t.ch| > 0 && FreqOk(t, freq) && Telescopes(t, [Root(t)])
    ensures Root(t) < |freq| && Sum(freq, t.leaves) == freq[Root(t)]
  {
    NoExcess(t, freq, |t.ch|);
    assert t.ch[..|t.ch|] == t.ch && [Root(t)][1..] == [];
    assert Sum(freq, [Root(t)]) == At(freq, Root(t)) + Sum(freq, []);
  }

  /** A light tree is shallow. */
  lemma {:induction false} LightIsShallow(t: Hist, freq: seq<nat>, dad: seq<nat>, run: seq<(nat, nat)>,
      order: seq<nat>, max: nat)
    requires Grown(t, freq, dad, run, order) && LeavesAre(t.leaves, freq, t.base)
    requires Sum(freq, t.leaves) < Fib(max + 3)
    ensures Shallow(t, dad, max)
  {
    hide Shape, Telescopes, FreqOk, Sum, Fib, Depth;
    RootTotal(t, freq);
    forall x: nat | x in t.leaves ensures Depth(dad, Root(t), x) <= max {
      LeavesIn(t, freq);
      DeepLeaf(t, freq, dad, order, x);
      if Depth(dad, Root(t), x) > max { FibMono(max + 3, 2 + Depth(dad, Root(t), x)); }
    }
  }

  lemma {:induction false} LeavesIn(t: Hist, freq: seq<nat>)
    requires LeavesAre(t.leaves, freq, t.base)
    ensures Below(t.leaves, |freq|) && forall y: nat :: y in t.leaves && y < |freq| ==> freq[y] > 0
  {
    forall i | 0 <= i < |t.leaves| ensures t.leaves[i] < |freq| { assert t.leaves[i] in t.leaves; }
  }
}
