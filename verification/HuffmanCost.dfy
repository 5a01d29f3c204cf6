/** Optimality of greedy merging: no prefix code for the given weights costs less than the sum of
    the weights Huffman's algorithm creates.

    The lower bound is proved for every assignment of code lengths that satisfies Kraft's
    inequality, and Kraft's inequality is proved for every prefix-free list of bit strings. */
module HuffmanCost {
  import opened Bits

  /** Total cost of giving weight w[i] a code of l[i] bits. */
  function Cost(w: seq<nat>, l: seq<nat>): (c: nat)
    requires |w| == |l|
  {
    if w == [] then 0 else MulNat(w[0], l[0]) + Cost(w[1..], l[1..])
  }

  function MulNat(a: nat, b: nat): (r: nat)
  {
    MulMono(0, a, b);
    a * b
  }

  ghost predicate Bounded(l: seq<nat>, m: nat)
  {
    forall i :: 0 <= i < |l| ==> l[i] <= m
  }

  /** The Kraft sum in units of 2^-m. */
  function Kraft(l: seq<nat>, m: nat): (r: nat)
    requires Bounded(l, m)
  {
    if l == [] then 0 else Pow2(m - l[0]) + Kraft(l[1..], m)
  }

  lemma {:induction false} CostUpdateLength(w: seq<nat>, l: seq<nat>, i: nat, x: nat)
    requires |w| == |l| && i < |l|
    ensures Cost(w, l[i := x]) == Cost(w, l) + w[i] * x - w[i] * l[i]
  {
    if i > 0 {
      assert l[i := x][1..] == l[1..][i - 1 := x];
      CostUpdateLength(w[1..], l[1..], i - 1, x);
    } else {
      assert l[0 := x][1..] == l[1..];
    }
  }

  lemma {:induction false} CostUpdateWeight(w: seq<nat>, l: seq<nat>, i: nat, y: nat)
    requires |w| == |l| && i < |l|
    ensures Cost(w[i := y], l) == Cost(w, l) + y * l[i] - w[i] * l[i]
  {
    if i > 0 {
      assert w[i := y][1..] == w[1..][i - 1 := y];
      CostUpdateWeight(w[1..], l[1..], i - 1, y);
    } else {
      assert w[0 := y][1..] == w[1..];
    }
  }

  lemma {:induction false} KraftUpdate(l: seq<nat>, m: nat, i: nat, x: nat)
    requires Bounded(l, m) && i < |l| && x <= m
    ensures Kraft(l[i := x], m) == Kraft(l, m) + Pow2(m - x) - Pow2(m - l[i])
  {
    if i > 0 {
      assert l[i := x][1..] == l[1..][i - 1 := x];
      KraftUpdate(l[1..], m, i - 1, x);
    } else {
      assert l[0 := x][1..] == l[1..];
    }
  }

  function Swap<T>(s: seq<T>, i: nat, j: nat): (r: seq<T>)
    requires i < |s| && j < |s|
    ensures |r| == |s|
  {
    s[i := s[j]][j := s[i]]
  }

  lemma {:induction false} SwapMultiset<T>(s: seq<T>, i: nat, j: nat)
    requires i < |s| && j < |s|
    ensures multiset(Swap(s, i, j)) == multiset(s)
  {
  }

  /** Exchanging two lengths changes the cost by the product of the differences. */
  lemma {:induction false} SwapLengths(w: seq<nat>, l: seq<nat>, m: nat, i: nat, j: nat)
    requires |w| == |l| && i < |l| && j < |l| && Bounded(l, m)
    requires w[i] <= w[j] && l[i] <= l[j]
    ensures Bounded(Swap(l, i, j), m) && Kraft(Swap(l, i, j), m) == Kraft(l, m)
    ensures Cost(w, Swap(l, i, j)) <= Cost(w, l)
  {
    hide Pow2;
    CostUpdateLength(w, l, i, l[j]);
    CostUpdateLength(w, l[i := l[j]], j, l[i]);
    KraftUpdate(l, m, i, l[j]);
    KraftUpdate(l[i := l[j]], m, j, l[i]);
    if i != j { SwapGain(w[i], w[j], l[i], l[j]); }
  }

  lemma {:induction false} SwapGain(a: nat, b: nat, x: nat, y: nat)
    requires a <= b && x <= y
    ensures a * y + b * x <= a * x + b * y
  {
    Distribute(b, a, x);
    Distribute(b, a, y);
    MulMono(0, b - a, x);
    MulComm(b - a, x);
    MulComm(b - a, y);
    MulMono(x, y, b - a);
  }

  /** Moving a symbol with its length does not change anything. */
  lemma {:induction false} SwapSymbols(w: seq<nat>, l: seq<nat>, m: nat, i: nat, j: nat)
    requires |w| == |l| && i < |l| && j < |l| && Bounded(l, m)
    ensures Bounded(Swap(l, i, j), m) && Kraft(Swap(l, i, j), m) == Kraft(l, m)
    ensures Cost(Swap(w, i, j), Swap(l, i, j)) == Cost(w, l)
  {
    hide Pow2;
    var w', l' := Swap(w, i, j), Swap(l, i, j);
    CostUpdateLength(w, l, i, l[j]);
    CostUpdateLength(w, l[i := l[j]], j, l[i]);
    CostUpdateWeight(w, l', i, w[j]);
    CostUpdateWeight(w[i := w[j]], l', j, w[i]);
    KraftUpdate(l, m, i, l[j]);
    KraftUpdate(l[i := l[j]], m, j, l[i]);
  }

  lemma {:induction false} LongestFrom(l: seq<nat>, i: nat) returns (p: nat)
    requires i < |l|
    ensures i <= p < |l| && forall k :: i <= k < |l| ==> l[k] <= l[p]
  {
    p := i;
    for k := i to |l|
      invariant i <= p < |l| && forall q :: i <= q < k ==> l[q] <= l[p]
    {
      if l[k] > l[p] { p := k; }
    }
  }

  /** When no length exceeds x, the Kraft sum is a whole number of codes of length x. */
  lemma {:induction false} KraftMultiple(l: seq<nat>, m: nat, x: nat) returns (k: nat)
    requires Bounded(l, x) && x <= m
    ensures Bounded(l, m) && Kraft(l, m) == k * Pow2(m - x)
  {
    hide Pow2;
    if l == [] {
      k := 0;
    } else {
      var k' := KraftMultiple(l[1..], m, x);
      k := k' + Pow2(x - l[0]);
      Pow2Add(x - l[0], m - x);
      Distribute(k', Pow2(x - l[0]), Pow2(m - x));
    }
  }

  /** A longest code without a brother can be shortened to the next length. */
  lemma {:induction false} Shorten(w: seq<nat>, l: seq<nat>, m: nat)
    requires |w| == |l| >= 2 && Bounded(l, m) && Kraft(l, m) <= Pow2(m)
    requires l[0] >= l[1] && Bounded(l[1..], l[1])
    ensures Kraft(l[0 := l[1]], m) <= Pow2(m)
    ensures Cost(w, l[0 := l[1]]) <= Cost(w, l)
  {
    hide Pow2;
    CostUpdateLength(w, l, 0, l[1]);
    MulComm(w[0], l[0]);
    MulComm(w[0], l[1]);
    MulMono(l[1], l[0], w[0]);
    KraftUpdate(l, m, 0, l[1]);
    if l[0] > l[1] {
      var x := l[1];
      var k := KraftMultiple(l[1..], m, x);
      Pow2Add(x, m - x);
      if k >= Pow2(x) { MulMono(Pow2(x), k, Pow2(m - x)); }
      MulMono(k, Pow2(x) - 1, Pow2(m - x));
      Distribute(Pow2(x), 1, Pow2(m - x));
    }
  }

  // ------------------------------------------------------------------ greedy merging

  /** a and b are the two smallest elements. */
  ghost predicate TwoSmallest(ms: multiset<nat>, a: nat, b: nat)
  {
    && a in ms && b in ms - multiset{a}
    && (forall x :: x in ms ==> a <= x)
    && (forall x :: x in ms - multiset{a} ==> b <= x)
  }

  function Merge(ms: multiset<nat>, a: nat, b: nat): (r: multiset<nat>)
  {
    ms - multiset{a} - multiset{b} + multiset{a + b}
  }

  /** Merging the two smallest weights, as run records, leads from ms to end. */
  ghost predicate GreedyTo(ms: multiset<nat>, run: seq<(nat, nat)>, end: multiset<nat>)
    decreases |run|
  {
    if run == [] then ms == end
    else TwoSmallest(ms, run[0].0, run[0].1) && GreedyTo(Merge(ms, run[0].0, run[0].1), run[1..], end)
  }

  /** The sum of the weights created. */
  function Total(run: seq<(nat, nat)>): (r: nat)
  {
    if run == [] then 0 else run[0].0 + run[0].1 + Total(run[1..])
  }

  lemma {:induction false} GreedyAppend(ms: multiset<nat>, run: seq<(nat, nat)>, end: multiset<nat>, a: nat, b: nat)
    requires GreedyTo(ms, run, end) && TwoSmallest(end, a, b)
    ensures GreedyTo(ms, run + [(a, b)], Merge(end, a, b))
    ensures Total(run + [(a, b)]) == Total(run) + a + b
    decreases |run|
  {
    hide TwoSmallest, Merge;
    var r := run + [(a, b)];
    if run == [] {
      assert r == [(a, b)] && r[1..] == [];
    } else {
      var next := Merge(ms, run[0].0, run[0].1);
      assert r[0] == run[0] && r[1..] == run[1..] + [(a, b)];
      GreedyAppend(next, run[1..], end, a, b);
    }
  }

  /** Bring the two smallest weights to the front. */
  lemma {:induction false} SmallestFirst(w: seq<nat>, l: seq<nat>, m: nat, a: nat, b: nat) returns (w': seq<nat>,
      l': seq<nat>)
    requires |w| == |l| && Bounded(l, m) && TwoSmallest(multiset(w), a, b)
    ensures |w'| == |l'| == |w| >= 2 && multiset(w') == multiset(w) && Bounded(l', m)
    ensures w'[0] == a && w'[1] == b
    ensures Cost(w', l') == Cost(w, l) && Kraft(l', m) == Kraft(l, m)
  {
    hide Pow2, Cost, Kraft;
    assert a in w;
    var i :| 0 <= i < |w| && w[i] == a;
    SwapSymbols(w, l, m, 0, i);
    SwapMultiset(w, 0, i);
    var w1, l1 := Swap(w, 0, i), Swap(l, 0, i);
    assert w1[0] == a;
    var j := FindBehind(w1, b);
    SwapSymbols(w1, l1, m, 1, j);
    SwapMultiset(w1, 1, j);
    w', l' := Swap(w1, 1, j), Swap(l1, 1, j);
  }

  lemma {:induction false} FindBehind(w: seq<nat>, b: nat) returns (j: nat)
    requires w != [] && b in multiset(w) - multiset{w[0]}
    ensures 1 <= j < |w| && w[j] == b
  {
    assert w == [w[0]] + w[1..];
    assert multiset(w) - multiset{w[0]} == multiset(w[1..]);
    assert b in w[1..];
    var k :| 0 <= k < |w[1..]| && w[1..][k] == b;
    j := k + 1;
  }

  /** With the smallest weights in front, make the two front lengths the longest, and equal. */
  lemma {:induction false} LongestFirst(w: seq<nat>, l: seq<nat>, m: nat) returns (l': seq<nat>)
    requires |w| == |l| >= 2 && Bounded(l, m) && Kraft(l, m) <= Pow2(m)
    requires forall k :: 0 <= k < |w| ==> w[0] <= w[k]
    requires forall k :: 1 <= k < |w| ==> w[1] <= w[k]
    ensures |l'| == |l| && Bounded(l', m) && Kraft(l', m) <= Pow2(m) && Cost(w, l') <= Cost(w, l)
    ensures l'[0] == l'[1] && Bounded(l', l'[1])
  {
    hide Pow2, Cost, Kraft;
    var p := LongestFrom(l, 0);
    SwapLengths(w, l, m, 0, p);
    var l1 := Swap(l, 0, p);
    var q := LongestFrom(l1, 1);
    SwapLengths(w, l1, m, 1, q);
    var l2 := Swap(l1, 1, q);
    Shorten(w, l2, m);
    l' := l2[0 := l2[1]];
  }

  lemma {:induction false} FrontIsSmallest(w: seq<nat>, a: nat, b: nat)
    requires |w| >= 2 && w[0] == a && w[1] == b && TwoSmallest(multiset(w), a, b)
    ensures forall k :: 0 <= k < |w| ==> a <= w[k]
    ensures forall k :: 1 <= k < |w| ==> b <= w[k]
  {
    forall k | 0 <= k < |w| ensures a <= w[k] { assert w[k] in multiset(w); }
    assert w == [a] + w[1..];
    assert multiset(w) - multiset{a} == multiset(w[1..]);
    forall k | 1 <= k < |w| ensures b <= w[k] { assert w[1..][k - 1] in multiset(w[1..]); }
  }

  /** Two or more codes cannot all be empty. */
  lemma {:induction false} NotAllEmpty(l: seq<nat>, m: nat)
    requires |l| >= 2 && Bounded(l, 0)
    ensures Bounded(l, m) && Kraft(l, m) > Pow2(m)
  {
    assert Kraft(l, m) >= Pow2(m) + Kraft(l[1..], m);
    assert Kraft(l[1..], m) >= Pow2(m);
  }

  /** Replace the two front symbols by one that is a bit shorter. */
  lemma {:induction false} MergeFront(w: seq<nat>, l: seq<nat>, m: nat) returns (w': seq<nat>, l': seq<nat>)
    requires |w| == |l| >= 2 && Bounded(l, m) && l[0] == l[1] > 0
    ensures |w'| == |l'| == |w| - 1 && Bounded(l', m)
    ensures multiset(w') == Merge(multiset(w), w[0], w[1])
    ensures Kraft(l', m) == Kraft(l, m) && Cost(w', l') + w[0] + w[1] == Cost(w, l)
  {
    hide Pow2, MulNat, Merge;
    w', l' := [w[0] + w[1]] + w[2..], [l[0] - 1] + l[2..];
    assert w'[1..] == w[2..] && l'[1..] == l[2..];
    MergeMultiset(w);
    CostFront(w, l);
    MergeArith(w[0], w[1], l[0]);
    Pow2Twice(m - l[0]);
    assert Bounded(l', m);
  }

  lemma {:induction false} Pow2Twice(n: nat)
    ensures Pow2(n + 1) == Pow2(n) + Pow2(n)
  {
  }

  lemma {:induction false} CostFront(w: seq<nat>, l: seq<nat>)
    requires |w| == |l| >= 2
    ensures Cost(w, l) == MulNat(w[0], l[0]) + MulNat(w[1], l[1]) + Cost(w[2..], l[2..])
    ensures forall m :: Bounded(l, m) ==>
        Bounded(l[2..], m) && Kraft(l, m) == Pow2(m - l[0]) + Pow2(m - l[1]) + Kraft(l[2..], m)
  {
    assert w[1..][1..] == w[2..] && l[1..][1..] == l[2..];
    hide Pow2, MulNat;
  }

  lemma {:induction false} MergeMultiset(w: seq<nat>)
    requires |w| >= 2
    ensures multiset([w[0] + w[1]] + w[2..]) == Merge(multiset(w), w[0], w[1])
  {
    assert w == [w[0], w[1]] + w[2..];
    assert multiset(w) == multiset{w[0], w[1]} + multiset(w[2..]);
  }

  lemma {:induction false} MergeArith(a: nat, b: nat, x: nat)
    requires x > 0
    ensures MulNat(a + b, x - 1) + a + b == MulNat(a, x) + MulNat(b, x)
  {
    Distribute(a, b, x - 1);
    MulComm(a, x - 1);
    MulComm(b, x - 1);
    Distribute(x, 1, a);
    Distribute(x, 1, b);
    MulComm(a, x);
    MulComm(b, x);
  }

  /** No code that satisfies Kraft's inequality beats greedy merging. */
  lemma {:induction false} LowerBound(w: seq<nat>, l: seq<nat>, m: nat, run: seq<(nat, nat)>, end: multiset<nat>)
    requires |w| == |l| && Bounded(l, m) && Kraft(l, m) <= Pow2(m)
    requires GreedyTo(multiset(w), run, end)
    ensures Total(run) <= Cost(w, l)
    decreases |run|
  {
    hide Pow2, Cost, Kraft, TwoSmallest, Merge;
    if run != [] {
      var a, b := run[0].0, run[0].1;
      var w1, l1 := SmallestFirst(w, l, m, a, b);
      FrontIsSmallest(w1, a, b);
      var l2 := LongestFirst(w1, l1, m);
      if l2[1] == 0 { NotAllEmpty(l2, m); }
      var w3, l3 := MergeFront(w1, l2, m);
      LowerBound(w3, l3, m, run[1..], end);
    }
  }

  // ------------------------------------------------------------------ prefix codes

  ghost predicate IsPrefix(p: seq<bool>, s: seq<bool>)
  {
    |p| <= |s| && s[..|p|] == p
  }

  ghost predicate PrefixFree(cs: seq<seq<bool>>)
  {
    forall i, j :: 0 <= i < |cs| && 0 <= j < |cs| && i != j ==> !IsPrefix(cs[i], cs[j])
  }

  function Lengths(cs: seq<seq<bool>>): (l: seq<nat>)
    ensures |l| == |cs| && forall i :: 0 <= i < |cs| ==> l[i] == |cs[i]|
  {
    if cs == [] then [] else [|cs[0]|] + Lengths(cs[1..])
  }

  /** The rests of the codes that start with bit b. */
  function Tails(cs: seq<seq<bool>>, b: bool): (r: seq<seq<bool>>)
  {
    if cs == [] then []
    else if cs[0] != [] && cs[0][0] == b then [cs[0][1..]] + Tails(cs[1..], b)
    else Tails(cs[1..], b)
  }

  lemma {:induction false} TailsOrigin(cs: seq<seq<bool>>, b: bool, i: nat) returns (k: nat)
    requires i < |Tails(cs, b)|
    ensures k < |cs| && cs[k] == [b] + Tails(cs, b)[i]
  {
    if cs[0] != [] && cs[0][0] == b {
      if i == 0 {
        k := 0;
      } else {
        var k' := TailsOrigin(cs[1..], b, i - 1);
        k := k' + 1;
      }
    } else {
      var k' := TailsOrigin(cs[1..], b, i);
      k := k' + 1;
    }
  }

  lemma {:induction false} TailsPrefixFree(cs: seq<seq<bool>>, b: bool)
    requires PrefixFree(cs)
    ensures PrefixFree(Tails(cs, b))
  {
    if cs != [] {
      assert forall i :: 0 <= i < |cs[1..]| ==> cs[1..][i] == cs[i + 1];
      TailsPrefixFree(cs[1..], b);
      if cs[0] != [] && cs[0][0] == b {
        var ts := Tails(cs[1..], b);
        forall i | 0 <= i < |ts|
          ensures !IsPrefix(cs[0][1..], ts[i]) && !IsPrefix(ts[i], cs[0][1..])
        {
          var k := TailsOrigin(cs[1..], b, i);
          assert cs[k + 1] == [b] + ts[i] && cs[0] == [b] + cs[0][1..];
          if IsPrefix(cs[0][1..], ts[i]) { PrefixCons(b, cs[0][1..], ts[i]); }
          if IsPrefix(ts[i], cs[0][1..]) { PrefixCons(b, ts[i], cs[0][1..]); }
        }
      }
    }
  }

  lemma {:induction false} PrefixCons(b: bool, p: seq<bool>, s: seq<bool>)
    requires IsPrefix(p, s)
    ensures IsPrefix([b] + p, [b] + s)
  {
  }

  lemma {:induction false} KraftSplit(cs: seq<seq<bool>>, m: nat)
    requires m > 0 && Bounded(Lengths(cs), m) && forall i :: 0 <= i < |cs| ==> cs[i] != []
    ensures Bounded(Lengths(Tails(cs, false)), m - 1) && Bounded(Lengths(Tails(cs, true)), m - 1)
    ensures Kraft(Lengths(cs), m) == Kraft(Lengths(Tails(cs, false)), m - 1) + Kraft(Lengths(Tails(cs, true)), m - 1)
  {
    hide Pow2;
    if cs != [] {
      assert Lengths(cs)[1..] == Lengths(cs[1..]);
      KraftSplit(cs[1..], m);
      var b := cs[0][0];
      var ls := Lengths(Tails(cs, b));
      assert ls[1..] == Lengths(Tails(cs[1..], b));
    }
  }

  /** The empty string is a prefix of every other code. */
  lemma {:induction false} EmptyIsAlone(cs: seq<seq<bool>>, i: nat)
    requires PrefixFree(cs) && i < |cs| && cs[i] == []
    ensures |cs| == 1
  {
    if |cs| > 1 {
      var j := if i == 0 then 1 else 0;
      EmptyIsPrefix(cs[j]);
    }
  }

  lemma {:induction false} EmptyIsPrefix(s: seq<bool>)
    ensures IsPrefix([], s)
  {
  }

  lemma {:induction false} NoRoom(cs: seq<seq<bool>>)
    requires Bounded(Lengths(cs), 0) && forall i :: 0 <= i < |cs| ==> cs[i] != []
    ensures cs == []
  {
    if cs != [] { FirstLength(cs); }
  }

  lemma {:induction false} FirstLength(cs: seq<seq<bool>>)
    requires cs != []
    ensures Lengths(cs)[0] == |cs[0]|
  {
  }

  /** Kraft's inequality. */
  lemma {:induction false} KraftInequality(cs: seq<seq<bool>>, m: nat)
    requires PrefixFree(cs) && Bounded(Lengths(cs), m)
    ensures Kraft(Lengths(cs), m) <= Pow2(m)
    decreases m
  {
    if exists i :: 0 <= i < |cs| && cs[i] == [] {
      var i :| 0 <= i < |cs| && cs[i] == [];
      EmptyIsAlone(cs, i);
      assert Lengths(cs)[1..] == [];
    } else if m == 0 {
      NoRoom(cs);
    } else {
      KraftSplit(cs, m);
      TailsPrefixFree(cs, false);
      TailsPrefixFree(cs, true);
      KraftInequality(Tails(cs, false), m - 1);
      KraftInequality(Tails(cs, true), m - 1);
    }
  }

  lemma {:induction false} SomeBound(l: seq<nat>) returns (m: nat)
    ensures Bounded(l, m)
  {
    m := 0;
    if l != [] {
      var p := LongestFrom(l, 0);
      m := l[p];
    }
  }

  /** Greedy merging is optimal among all prefix codes. */
  lemma {:induction false} GreedyIsOptimal(w: seq<nat>, cs: seq<seq<bool>>, run: seq<(nat, nat)>, end: multiset<nat>)
    requires |w| == |cs| && PrefixFree(cs) && GreedyTo(multiset(w), run, end)
    ensures Total(run) <= Cost(w, Lengths(cs))
  {
    var m := SomeBound(Lengths(cs));
    KraftInequality(cs, m);
    LowerBound(w, Lengths(cs), m, run, end);
  }
}
