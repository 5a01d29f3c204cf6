/** The tree-building half of build_tree in trees.c.

    Nodes are numbered as in the source: leaves below base, the k-th created parent base + k.
    Freq and Code share one array, Dad and Len another, as the unions in deflate.h do. */
module HuffmanTree {
  import opened HuffmanCost
  import opened HuffmanHeap
  import opened Canonical

  const HEAP_SIZE: nat := 573

  /** leaves: the nodes that started in the heap; ch[k]: the two sons of node base + k. */
  datatype Hist = Hist(leaves: seq<nat>, ch: seq<(nat, nat)>, base: nat)

  function At(g: seq<int>, i: nat): (r: int)
  {
    if i < |g| then g[i] else 0
  }

  function Sum(g: seq<int>, s: seq<nat>): (r: int)
  {
    if s == [] then 0 else At(g, s[0]) + Sum(g, s[1..])
  }

  /** What the sons have in excess of their fathers, over all created nodes. */
  function Excess(g: seq<int>, ch: seq<(nat, nat)>, base: nat): (r: int)
  {
    if ch == [] then 0
    else
      var k := |ch| - 1;
      Excess(g, ch[..k], base) + At(g, ch[k].0) + At(g, ch[k].1) - At(g, base + k)
  }

  function Weights(freq: seq<nat>, s: seq<nat>): (r: multiset<nat>)
    requires Below(s, |freq|)
  {
    if s == [] then multiset{} else multiset{freq[s[0]]} + Weights(freq, s[1..])
  }

  ghost predicate Below(s: seq<nat>, n: nat)
  {
    forall i :: 0 <= i < |s| ==> s[i] < n
  }

  lemma {:induction false} Cancel(x: nat, a: multiset<nat>, b: multiset<nat>)
    requires multiset{x} + a == multiset{x} + b
    ensures a == b
  {
    assert a == (multiset{x} + a) - multiset{x};
  }

  lemma {:induction false} Remainder(x: nat, a: multiset<nat>, b: multiset<nat>)
    requires a == multiset{x} + b
    ensures b == a - multiset{x}
  {
  }

  function Without(s: seq<nat>, j: nat): (r: seq<nat>)
    requires j < |s|
  {
    s[..j] + s[j + 1..]
  }

  lemma {:induction false} WithoutMultiset(s: seq<nat>, j: nat)
    requires j < |s|
    ensures multiset(s) == multiset{s[j]} + multiset(Without(s, j))
  {
    assert s == s[..j] + ([s[j]] + s[j + 1..]);
    assert multiset(s) == multiset(s[..j]) + multiset([s[j]] + s[j + 1..]);
  }

  lemma {:induction false} WithoutTail(s: seq<nat>, j: nat)
    requires 0 < j < |s|
    ensures Without(s, j)[0] == s[0] && Without(s, j)[1..] == Without(s[1..], j - 1)
  {
  }

  lemma {:induction false} TakeOut(s: seq<nat>, t: seq<nat>) returns (j: nat)
    requires s != [] && multiset(s) == multiset(t)
    ensures j < |t| && t[j] == s[0] && multiset(s[1..]) == multiset(Without(t, j))
  {
    WithoutMultiset(s, 0);
    assert Without(s, 0) == s[1..];
    assert s[0] in multiset(t);
    j :| 0 <= j < |t| && t[j] == s[0];
    WithoutMultiset(t, j);
    Cancel(s[0], multiset(s[1..]), multiset(Without(t, j)));
  }

  lemma {:induction false} SumAt(g: seq<int>, t: seq<nat>, j: nat)
    requires j < |t|
    ensures Sum(g, t) == At(g, t[j]) + Sum(g, Without(t, j))
  {
    if j == 0 {
      assert Without(t, 0) == t[1..];
    } else {
      SumAt(g, t[1..], j - 1);
      WithoutTail(t, j);
    }
  }

  lemma {:induction false} SumPerm(g: seq<int>, s: seq<nat>, t: seq<nat>)
    requires multiset(s) == multiset(t)
    ensures Sum(g, s) == Sum(g, t)
  {
    if s == [] {
      assert |t| == |multiset(t)| == |multiset(s)| == |s|;
    } else {
      var j := TakeOut(s, t);
      SumAt(g, t, j);
      SumPerm(g, s[1..], Without(t, j));
    }
  }

  lemma {:induction false} WeightsAt(freq: seq<nat>, t: seq<nat>, j: nat)
    requires j < |t| && Below(t, |freq|) && Below(Without(t, j), |freq|)
    ensures Weights(freq, t) == multiset{freq[t[j]]} + Weights(freq, Without(t, j))
  {
    if j == 0 {
      assert Without(t, 0) == t[1..];
    } else {
      WithoutTail(t, j);
      WeightsAt(freq, t[1..], j - 1);
    }
  }

  lemma {:induction false} WeightsPerm(freq: seq<nat>, s: seq<nat>, t: seq<nat>)
    requires multiset(s) == multiset(t) && Below(s, |freq|) && Below(t, |freq|)
    ensures Weights(freq, s) == Weights(freq, t)
  {
    if s == [] {
      assert |t| == |multiset(t)| == |multiset(s)| == |s|;
    } else {
      var j := TakeOut(s, t);
      WeightsAt(freq, t, j);
      BelowPerm(s[1..], Without(t, j), |freq|);
      WeightsPerm(freq, s[1..], Without(t, j));
    }
  }

  lemma {:induction false} BelowPerm(s: seq<nat>, t: seq<nat>, n: nat)
    requires multiset(s) == multiset(t) && Below(s, n)
    ensures Below(t, n)
  {
    forall i | 0 <= i < |t| ensures t[i] < n {
      assert t[i] in multiset(t);
      assert t[i] in s;
    }
  }

  lemma {:induction false} WeightsMember(freq: seq<nat>, s: seq<nat>, x: nat)
    requires Below(s, |freq|) && x in Weights(freq, s)
    ensures exists i :: 0 <= i < |s| && freq[s[i]] == x
  {
    if freq[s[0]] != x {
      WeightsMember(freq, s[1..], x);
      var i :| 0 <= i < |s[1..]| && freq[s[1..][i]] == x;
      assert freq[s[i + 1]] == x;
    }
  }

  /** Changing a frequency that is not used changes nothing. */
  lemma {:induction false} WeightsFrame(freq: seq<nat>, freq': seq<nat>, s: seq<nat>, n: nat)
    requires n <= |freq| == |freq'| && Below(s, n) && forall i :: 0 <= i < n ==> freq'[i] == freq[i]
    ensures Weights(freq', s) == Weights(freq, s)
  {
    if s != [] { WeightsFrame(freq, freq', s[1..], n); }
  }

  /** One merge: n and m leave the heap, their father enters. */
  ghost predicate Merged(now: seq<nat>, now': seq<nat>, n: nat, m: nat, node: nat)
  {
    && n in now && m in multiset(now) - multiset{n}
    && multiset(now') == multiset(now) - multiset{n} - multiset{m} + multiset{node}
  }

  /** The nodes other than two given ones. */
  lemma {:induction false} SplitTwo(now: seq<nat>, n: nat, m: nat) returns (rest: seq<nat>)
    requires n in now && m in multiset(now) - multiset{n}
    ensures multiset(now) == multiset([n, m] + rest)
    ensures multiset([m] + rest) == multiset(now) - multiset{n}
    ensures multiset(rest) == multiset(now) - multiset{n} - multiset{m}
  {
    hide Without;
    var i :| 0 <= i < |now| && now[i] == n;
    WithoutMultiset(now, i);
    var r := Without(now, i);
    Remainder(n, multiset(now), multiset(r));
    assert m in multiset(r);
    var j :| 0 <= j < |r| && r[j] == m;
    WithoutMultiset(r, j);
    rest := Without(r, j);
    Remainder(m, multiset(r), multiset(rest));
    Regroup(n, m, rest, multiset(r), multiset(now));
  }

  lemma {:induction false} Others(now: seq<nat>, now': seq<nat>, n: nat, m: nat, node: nat) returns (rest: seq<nat>)
    requires Merged(now, now', n, m, node)
    ensures multiset(now) == multiset([n, m] + rest) && multiset(now') == multiset([node] + rest)
  {
    rest := SplitTwo(now, n, m);
    Regroup(n, m, rest, multiset{m} + multiset(rest), multiset{n} + (multiset{m} + multiset(rest)));
  }

  lemma {:induction false} Regroup(n: nat, m: nat, rest: seq<nat>, r: multiset<nat>, all: multiset<nat>)
    requires all == multiset{n} + r && r == multiset{m} + multiset(rest)
    ensures all == multiset([n, m] + rest) && r == multiset([m] + rest)
    ensures forall node: nat :: multiset{node} + multiset(rest) == multiset([node] + rest)
  {
    assert [n, m] + rest == [n] + ([m] + rest);
  }

  // ------------------------------------------------------------------ sums over the tree

  /** For every quantity g: the leaves carry what the heap carries plus the excess of the sons. */
  ghost predicate Telescopes(t: Hist, now: seq<nat>)
  {
    forall g: seq<int> :: Sum(g, t.leaves) == Sum(g, now) + Excess(g, t.ch, t.base)
  }

  lemma {:induction false} TelescopeStep(t: Hist, now: seq<nat>, now': seq<nat>, n: nat, m: nat)
    requires Telescopes(t, now) && Merged(now, now', n, m, t.base + |t.ch|)
    ensures Telescopes(t.(ch := t.ch + [(n, m)]), now')
  {
    hide Merged, Sum, Excess;
    var rest := Others(now, now', n, m, t.base + |t.ch|);
    forall g: seq<int>
      ensures Sum(g, t.leaves) == Sum(g, now') + Excess(g, t.ch + [(n, m)], t.base)
    {
      SumPerm(g, now, [n, m] + rest);
      SumPerm(g, now', [t.base + |t.ch|] + rest);
      ExcessStep(g, t, n, m, rest);
    }
  }

  lemma {:induction false} ExcessStep(g: seq<int>, t: Hist, n: nat, m: nat, rest: seq<nat>)
    ensures Excess(g, t.ch + [(n, m)], t.base)
         == Excess(g, t.ch, t.base) + Sum(g, [n, m] + rest) - Sum(g, [t.base + |t.ch|] + rest)
  {
    var node := t.base + |t.ch|;
    assert ([n, m] + rest)[1..] == [m] + rest && ([m] + rest)[1..] == rest && ([node] + rest)[1..] == rest;
    assert (t.ch + [(n, m)])[..|t.ch|] == t.ch;
  }

  // ------------------------------------------------------------------ the shape of the tree

  ghost predicate IsNode(t: Hist, x: nat)
  {
    x in t.leaves || t.base <= x < t.base + |t.ch|
  }

  ghost predicate IsSon(t: Hist, x: nat, k: nat)
  {
    k < |t.ch| && (x == t.ch[k].0 || x == t.ch[k].1)
  }

  ghost predicate HeapOk(t: Hist, now: seq<nat>)
  {
    (forall x :: multiset(now)[x] <= 1) && (forall x: nat :: x in now ==> IsNode(t, x))
  }

  /** Every node that has left the heap is a son of its father. */
  ghost predicate FathersOk(t: Hist, dl: seq<nat>, now: seq<nat>)
    requires Below(t.leaves, t.base) && t.base + |t.ch| <= |dl|
  {
    forall x: nat :: IsNode(t, x) && x !in now ==>
                       t.base <= dl[x] < t.base + |t.ch| && IsSon(t, x, dl[x] - t.base)
  }

  /** Every son is an older node that has left the heap and knows its father; brothers differ. */
  ghost predicate SonsOk(t: Hist, dl: seq<nat>, now: seq<nat>)
    requires Below(t.leaves, t.base) && t.base + |t.ch| <= |dl|
  {
    && (forall x: nat, k: nat :: IsSon(t, x, k) ==> x < t.base + k && dl[x] == t.base + k && x !in now && IsNode(t, x))
    && (forall k: nat :: k < |t.ch| ==> t.ch[k].0 != t.ch[k].1)
  }

  /** dl holds the father of every node that has left the heap; now is the heap. */
  ghost predicate Shape(t: Hist, dl: seq<nat>, now: seq<nat>)
  {
    && Below(t.leaves, t.base) && t.base + |t.ch| <= |dl|
    && HeapOk(t, now) && FathersOk(t, dl, now) && SonsOk(t, dl, now)
  }

  lemma {:induction false} NotYet(t: Hist, now: seq<nat>)
    requires Below(t.leaves, t.base) && HeapOk(t, now)
    ensures t.base + |t.ch| !in now
  {
    assert !IsNode(t, t.base + |t.ch|);
  }

  /** Who is in the heap after a merge. */
  lemma {:induction false} MergedMembers(now: seq<nat>, now': seq<nat>, n: nat, m: nat, node: nat, x: nat)
    requires Merged(now, now', n, m, node) && (forall y :: multiset(now)[y] <= 1) && node !in now
    ensures x in now' <==> x == node || (x in now && x != n && x != m)
    ensures multiset(now')[x] <= 1 && n in now && n != m && m in now
  {
    assert x in now' <==> multiset(now')[x] > 0;
    assert x in now <==> multiset(now)[x] > 0;
    assert m in now <==> multiset(now)[m] > 0;
  }

  ghost predicate HeapChange(now: seq<nat>, now': seq<nat>, n: nat, m: nat, node: nat)
  {
    && n in now && m in now && n != m && node !in now
    && forall x: nat :: x in now' <==> x == node || (x in now && x != n && x != m)
  }

  lemma {:induction false} FathersStep(t: Hist, dl: seq<nat>, now: seq<nat>, now': seq<nat>, n: nat, m: nat)
    requires Below(t.leaves, t.base) && t.base + |t.ch| < |dl| && n < |dl| && m < |dl|
    requires FathersOk(t, dl, now) && HeapChange(now, now', n, m, t.base + |t.ch|)
    ensures FathersOk(t.(ch := t.ch + [(n, m)]), dl[n := t.base + |t.ch|][m := t.base + |t.ch|], now')
  {
    var node, t' := t.base + |t.ch|, t.(ch := t.ch + [(n, m)]);
    var dl' := dl[n := node][m := node];
    forall x: nat | IsNode(t', x) && x !in now'
      ensures t.base <= dl'[x] < t.base + |t'.ch| && IsSon(t', x, dl'[x] - t.base)
    {
      if x == n || x == m {
        assert t'.ch[|t.ch|] == (n, m);
      } else {
        assert IsNode(t, x) && x !in now;
        assert IsSon(t, x, dl[x] - t.base);
      }
    }
  }

  lemma {:induction false} SonsStep(t: Hist, dl: seq<nat>, now: seq<nat>, now': seq<nat>, n: nat, m: nat)
    requires Below(t.leaves, t.base) && t.base + |t.ch| < |dl| && HeapOk(t, now)
    requires SonsOk(t, dl, now) && HeapChange(now, now', n, m, t.base + |t.ch|)
    ensures n < |dl| && m < |dl|
    ensures SonsOk(t.(ch := t.ch + [(n, m)]), dl[n := t.base + |t.ch|][m := t.base + |t.ch|], now')
  {
    var node, t' := t.base + |t.ch|, t.(ch := t.ch + [(n, m)]);
    assert IsNode(t, n) && IsNode(t, m);
    var dl' := dl[n := node][m := node];
    forall x: nat, k: nat | IsSon(t', x, k)
      ensures x < t.base + k && dl'[x] == t.base + k && x !in now' && IsNode(t', x)
    {
      if k < |t.ch| {
        assert IsSon(t, x, k);
      } else {
        assert x == n || x == m;
      }
    }
  }

  lemma {:induction false} ShapeStep(t: Hist, dl: seq<nat>, now: seq<nat>, now': seq<nat>, n: nat, m: nat)
    requires Shape(t, dl, now) && Merged(now, now', n, m, t.base + |t.ch|) && t.base + |t.ch| < |dl|
    ensures n < |dl| && m < |dl|
    ensures Shape(t.(ch := t.ch + [(n, m)]), dl[n := t.base + |t.ch|][m := t.base + |t.ch|], now')
  {
    hide FathersOk, SonsOk, Merged;
    var node := t.base + |t.ch|;
    NotYet(t, now);
    forall x: nat
      ensures x in now' <==> x == node || (x in now && x != n && x != m)
      ensures multiset(now')[x] <= 1 && n in now && n != m && m in now
    {
      MergedMembers(now, now', n, m, node, x);
    }
    SonsStep(t, dl, now, now', n, m);
    FathersStep(t, dl, now, now', n, m);
    assert HeapOk(t.(ch := t.ch + [(n, m)]), now');
  }

  /** The nodes in the order they left the heap, latest first. */
  ghost predicate OrderIs(t: Hist, ord: seq<nat>)
  {
    |ord| == 2 * |t.ch| &&
    forall k: nat :: k < |t.ch| ==> ord[2 * (|t.ch| - 1 - k)] == t.ch[k].1 && ord[2 * (|t.ch| - 1 - k) + 1] == t.ch[k].0
  }

  lemma {:induction false} OrderStep(t: Hist, ord: seq<nat>, n: nat, m: nat)
    requires OrderIs(t, ord)
    ensures OrderIs(t.(ch := t.ch + [(n, m)]), [m, n] + ord)
  {
  }

  /** Nodes leave the heap in order of increasing frequency. */
  ghost predicate LeaveSorted(freq: seq<nat>, ord: seq<nat>, now: seq<nat>)
    requires Below(ord, |freq|) && Below(now, |freq|)
  {
    && (forall i, j :: 0 <= i < j < |ord| ==> freq[ord[j]] <= freq[ord[i]])
    && (forall i, j :: 0 <= i < |now| && 0 <= j < |ord| ==> freq[ord[j]] <= freq[now[i]])
  }

  // ------------------------------------------------------------------ weights

  /** Every created node weighs as much as its sons together. */
  ghost predicate FreqOk(t: Hist, freq: seq<nat>)
  {
    && t.base + |t.ch| <= |freq|
    && forall k: nat :: k < |t.ch| ==>
                          t.ch[k].0 < t.base + k && t.ch[k].1 < t.base + k &&
                          freq[t.base + k] == freq[t.ch[k].0] + freq[t.ch[k].1]
  }

  /** The merges so far are the greedy ones for the leaves' weights. */
  ghost predicate GreedySoFar(t: Hist, freq: seq<nat>, run: seq<(nat, nat)>, now: seq<nat>)
    requires Below(t.leaves, |freq|) && Below(now, |freq|) && t.base + |t.ch| <= |freq|
  {
    && GreedyTo(Weights(freq, t.leaves), run, Weights(freq, now))
    && Total(run) == Created(freq, t)
  }

  /** The weight of all created nodes. */
  function Created(freq: seq<nat>, t: Hist): (r: nat)
    requires t.base + |t.ch| <= |freq|
    decreases |t.ch|
  {
    if t.ch == [] then 0
    else
      var k := |t.ch| - 1;
      Created(freq, t.(ch := t.ch[..k])) + freq[t.base + k]
  }

  // ------------------------------------------------------------------ one merge keeps everything

  /** What holds between two merges: now is the heap, ord the nodes that left it. */
  ghost predicate Building(t: Hist, freq: seq<nat>, dl: seq<nat>, run: seq<(nat, nat)>, now: seq<nat>, ord: seq<nat>)
  {
    && Shape(t, dl, now) && Telescopes(t, now) && OrderIs(t, ord)
    && FreqOk(t, freq) && |freq| == |dl|
    && Below(now, t.base + |t.ch|) && Below(ord, t.base + |t.ch|)
    && LeaveSorted(freq, ord, now) && GreedySoFar(t, freq, run, now)
    && Sum(freq, now) < 0x1_0000
  }

  /** n has the least frequency in the heap, m the least of the others. */
  ghost predicate LeastTwo(freq: seq<nat>, now: seq<nat>, n: nat, m: nat)
    requires Below(now, |freq|) && n < |freq| && m < |freq|
  {
    && (forall x: nat :: x in now ==> x < |freq| && freq[n] <= freq[x])
    && (forall x: nat :: x in multiset(now) - multiset{n} ==> x < |freq| && freq[m] <= freq[x])
  }

  lemma {:induction false} InNowBelow(now: seq<nat>, k: nat, x: nat)
    requires Below(now, k) && x in now
    ensures x < k
  {
  }

  lemma {:induction false} SortedStep(freq: seq<nat>, freq': seq<nat>, ord: seq<nat>, now: seq<nat>, now': seq<nat>,
                                      n: nat, m: nat, node: nat)
    requires node < |freq| && Below(now, node) && Below(ord, node) && n < node && m < node
    requires LeaveSorted(freq, ord, now) && HeapChange(now, now', n, m, node) && LeastTwo(freq, now, n, m)
    requires freq' == freq[node := freq[n] + freq[m]]
    ensures Below([m, n] + ord, node) && Below(now', node + 1)
    ensures LeaveSorted(freq', [m, n] + ord, now')
  {
    var ord' := [m, n] + ord;
    assert forall x: nat :: x in now && x != n ==> x in multiset(now) - multiset{n};
    assert forall j :: 0 <= j < |ord'| ==> freq'[ord'[j]] <= freq[m] by {
      var i :| 0 <= i < |now| && now[i] == m;
    }
    forall i, j | 0 <= i < j < |ord'| ensures freq'[ord'[j]] <= freq'[ord'[i]] {
      if i == 1 { var k :| 0 <= k < |now| && now[k] == n; }
    }
    forall i | 0 <= i < |now'| ensures now'[i] < node + 1 && freq[m] <= freq'[now'[i]] {
      assert now'[i] in now';
    }
  }

  lemma {:induction false} FreqStep(t: Hist, freq: seq<nat>, n: nat, m: nat)
    requires FreqOk(t, freq) && t.base + |t.ch| < |freq| && n < t.base + |t.ch| && m < t.base + |t.ch|
    ensures FreqOk(t.(ch := t.ch + [(n, m)]), freq[t.base + |t.ch| := freq[n] + freq[m]])
    ensures Created(freq[t.base + |t.ch| := freq[n] + freq[m]], t.(ch := t.ch + [(n, m)])) == Created(freq, t) +
        freq[n] + freq[m]
  {
    var t' := t.(ch := t.ch + [(n, m)]);
    var freq' := freq[t.base + |t.ch| := freq[n] + freq[m]];
    assert t'.(ch := t'.ch[..|t.ch|]) == t by { assert t'.ch[..|t.ch|] == t.ch; }
    CreatedFrame(freq, freq', t);
  }

  lemma {:induction false} CreatedFrame(freq: seq<nat>, freq': seq<nat>, t: Hist)
    requires t.base + |t.ch| <= |freq| == |freq'|
    requires forall i :: 0 <= i < t.base + |t.ch| ==> freq'[i] == freq[i]
    ensures Created(freq', t) == Created(freq, t)
    decreases |t.ch|
  {
    if t.ch != [] { CreatedFrame(freq, freq', t.(ch := t.ch[..|t.ch| - 1])); }
  }

  lemma {:induction false} FrontTwo(freq: seq<nat>, n: nat, m: nat, rest: seq<nat>)
    requires Below([n, m] + rest, |freq|) && n < |freq| && m < |freq|
    ensures Below(rest, |freq|) && Below([m] + rest, |freq|)
    ensures Weights(freq, [n, m] + rest) == multiset{freq[n]} + Weights(freq, [m] + rest)
    ensures Weights(freq, [m] + rest) == multiset{freq[m]} + Weights(freq, rest)
    ensures Sum(freq, [n, m] + rest) == freq[n] + freq[m] + Sum(freq, rest)
  {
    var s := [n, m] + rest;
    assert s[1..] == [m] + rest && ([m] + rest)[1..] == rest;
    assert s[0] < |freq| && s[1] < |freq|;
    forall i | 0 <= i < |rest| ensures rest[i] < |freq| { assert s[i + 2] < |freq|; }
  }

  lemma {:induction false} FrontOne(freq: seq<nat>, node: nat, rest: seq<nat>)
    requires Below([node] + rest, |freq|) && Below(rest, |freq|) && node < |freq|
    ensures Weights(freq, [node] + rest) == multiset{freq[node]} + Weights(freq, rest)
    ensures Sum(freq, [node] + rest) == freq[node] + Sum(freq, rest)
  {
    assert ([node] + rest)[1..] == rest;
  }

  lemma {:induction false} MergeOf(a: nat, b: nat, r: multiset<nat>)
    ensures multiset{a + b} + r == Merge(multiset{a} + (multiset{b} + r), a, b)
  {
  }

  lemma {:induction false} WeightsMerged(freq: seq<nat>, freq': seq<nat>, now: seq<nat>, now': seq<nat>, n: nat,
      m: nat, node: nat)
    requires node < |freq| && Below(now, node) && Below(now', |freq|) && n < node && m < node
    requires Merged(now, now', n, m, node) && freq' == freq[node := freq[n] + freq[m]]
    ensures Weights(freq', now') == Merge(Weights(freq, now), freq[n], freq[m])
    ensures Sum(freq', now') == Sum(freq, now) && freq[n] + freq[m] <= Sum(freq, now)
  {
    var rest := Others(now, now', n, m, node);
    hide Merged, Weights, Sum, Merge;
    BelowPerm(now, [n, m] + rest, node);
    BelowPerm(now', [node] + rest, |freq|);
    BelowTail2(n, m, rest, node);
    WeightsPerm(freq, now, [n, m] + rest);
    WeightsPerm(freq', now', [node] + rest);
    SumPerm(freq, now, [n, m] + rest);
    SumPerm(freq', now', [node] + rest);
    hide Below;
    ListsMerged(freq, freq', rest, n, m, node);
  }

  lemma {:induction false} BelowTail2(n: nat, m: nat, rest: seq<nat>, k: nat)
    requires Below([n, m] + rest, k)
    ensures Below(rest, k)
  {
    forall i | 0 <= i < |rest| ensures rest[i] < k { assert ([n, m] + rest)[i + 2] < k; }
  }

  lemma {:induction false} ListsMerged(freq: seq<nat>, freq': seq<nat>, rest: seq<nat>, n: nat, m: nat, node: nat)
    requires node < |freq| && n < node && m < node && Below(rest, node)
    requires Below([n, m] + rest, |freq|) && freq' == freq[node := freq[n] + freq[m]] && Below([node] + rest, |freq|)
    ensures Weights(freq', [node] + rest) == Merge(Weights(freq, [n, m] + rest), freq[n], freq[m])
    ensures Sum(freq', [node] + rest) == Sum(freq, [n, m] + rest) && freq[n] + freq[m] <= Sum(freq, [n, m] + rest)
  {
    hide Weights, Sum, Merge;
    FrontTwo(freq, n, m, rest);
    FrontOne(freq', node, rest);
    WeightsFrame(freq, freq', rest, node);
    MergeOf(freq[n], freq[m], Weights(freq, rest));
    SumFrame(freq, freq', rest, node);
    SumNonnegative(freq, rest);
  }

  lemma {:induction false} SumFrame(g: seq<int>, g': seq<int>, s: seq<nat>, n: nat)
    requires n <= |g| == |g'| && Below(s, n) && forall i :: 0 <= i < n ==> g'[i] == g[i]
    ensures Sum(g', s) == Sum(g, s)
  {
    if s != [] { SumFrame(g, g', s[1..], n); }
  }

  lemma {:induction false} SumNonnegative(g: seq<nat>, s: seq<nat>)
    ensures Sum(g, s) >= 0
  {
    if s != [] { SumNonnegative(g, s[1..]); }
  }

  /** The two least nodes carry the two smallest weights. */
  lemma {:induction false} LeastAreSmallest(freq: seq<nat>, now: seq<nat>, n: nat, m: nat)
    requires Below(now, |freq|) && n < |freq| && m < |freq|
    requires n in now && m in multiset(now) - multiset{n} && LeastTwo(freq, now, n, m)
    ensures TwoSmallest(Weights(freq, now), freq[n], freq[m])
  {
    hide Weights, Sum, TwoSmallest;
    var rest := SplitTwo(now, n, m);
    BelowPerm(now, [n, m] + rest, |freq|);
    WeightsPerm(freq, now, [n, m] + rest);
    FrontTwo(freq, n, m, rest);
    var others := [m] + rest;
    AllAtLeast(freq, now, freq[n]);
    OthersAtLeast(freq, others, freq[m], multiset(now) - multiset{n});
    SmallestOf(freq[n], freq[m], Weights(freq, now), Weights(freq, others), Weights(freq, rest));
  }

  lemma {:induction false} AllAtLeast(freq: seq<nat>, s: seq<nat>, least: nat)
    requires Below(s, |freq|) && forall x: nat :: x in s ==> x < |freq| && least <= freq[x]
    ensures forall x :: x in Weights(freq, s) ==> least <= x
  {
    hide Weights;
    forall x | x in Weights(freq, s) ensures least <= x { WeightsMember(freq, s, x); }
  }

  lemma {:induction false} OthersAtLeast(freq: seq<nat>, s: seq<nat>, least: nat, ms: multiset<nat>)
    requires Below(s, |freq|) && multiset(s) == ms
    requires forall x: nat :: x in ms ==> x < |freq| && least <= freq[x]
    ensures forall x :: x in Weights(freq, s) ==> least <= x
  {
    hide Weights;
    forall x | x in Weights(freq, s) ensures least <= x {
      WeightsMember(freq, s, x);
      var k :| 0 <= k < |s| && freq[s[k]] == x;
      assert s[k] in multiset(s);
    }
  }

  lemma {:induction false} SmallestOf(a: nat, b: nat, all: multiset<nat>, others: multiset<nat>, rest: multiset<nat>)
    requires all == multiset{a} + others && others == multiset{b} + rest
    requires forall x :: x in all ==> a <= x
    requires forall x :: x in others ==> b <= x
    ensures TwoSmallest(all, a, b)
  {
    Remainder(a, all, others);
  }

  lemma {:induction false} GreedyStep(t: Hist, freq: seq<nat>, freq': seq<nat>, run: seq<(nat, nat)>, now: seq<nat>,
      now': seq<nat>, n: nat, m: nat)
    requires Below(t.leaves, t.base) && t.base + |t.ch| < |freq| && FreqOk(t, freq)
    requires Below(now, t.base + |t.ch|) && Below(now', |freq|) && n < t.base + |t.ch| && m < t.base + |t.ch|
    requires Merged(now, now', n, m, t.base + |t.ch|) && LeastTwo(freq, now, n, m)
    requires freq' == freq[t.base + |t.ch| := freq[n] + freq[m]]
    requires GreedySoFar(t, freq, run, now)
    ensures GreedySoFar(t.(ch := t.ch + [(n, m)]), freq', run + [(freq[n], freq[m])], now')
  {
    hide Weights, Created, TwoSmallest, FreqOk, Total, Merge;
    WeightsMerged(freq, freq', now, now', n, m, t.base + |t.ch|);
    LeastAreSmallest(freq, now, n, m);
    GreedyAppend(Weights(freq, t.leaves), run, Weights(freq, now), freq[n], freq[m]);
    WeightsFrame(freq, freq', t.leaves, t.base + |t.ch|);
    FreqStep(t, freq, n, m);
  }

  lemma {:induction false} BuildStep(t: Hist, freq: seq<nat>, dl: seq<nat>, run: seq<(nat, nat)>, now: seq<nat>,
      now': seq<nat>, ord: seq<nat>, n: nat, m: nat)
    requires Building(t, freq, dl, run, now, ord) && t.base + |t.ch| < |freq|
    requires Merged(now, now', n, m, t.base + |t.ch|) && n < |freq| && m < |freq| && LeastTwo(freq, now, n, m)
    ensures freq[n] + freq[m] < 0x1_0000
    ensures Building(t.(ch := t.ch + [(n, m)]), freq[t.base + |t.ch| := freq[n] + freq[m]],
                     dl[n := t.base + |t.ch|][m := t.base + |t.ch|], run + [(freq[n], freq[m])], now', [m, n] + ord)
  {
    hide Telescopes, OrderIs, FreqOk, LeaveSorted, GreedySoFar, FathersOk, SonsOk, Sum, LeastTwo;
    var node := t.base + |t.ch|;
    NotYet(t, now);
    MergedAll(now, now', n, m, node);
    InNowBelow(now, node, n);
    InNowBelow(now, node, m);
    hide Merged;
    ShapeStep(t, dl, now, now', n, m);
    TelescopeStep(t, now, now', n, m);
    OrderStep(t, ord, n, m);
    SortedStep(freq, freq[node := freq[n] + freq[m]], ord, now, now', n, m, node);
    FreqStep(t, freq, n, m);
    GreedyStep(t, freq, freq[node := freq[n] + freq[m]], run, now, now', n, m);
    WeightsMerged(freq, freq[node := freq[n] + freq[m]], now, now', n, m, node);
  }

  lemma {:induction false} MergedAll(now: seq<nat>, now': seq<nat>, n: nat, m: nat, node: nat)
    requires Merged(now, now', n, m, node) && (forall y :: multiset(now)[y] <= 1) && node !in now
    ensures HeapChange(now, now', n, m, node)
  {
    assert m in now by { assert m in multiset(now); }
    forall x: nat ensures x in now' <==> x == node || (x in now && x != n && x != m) {
      MergedMembers(now, now', n, m, node, x);
    }
    MergedMembers(now, now', n, m, node, n);
  }

  /** A merge changes the frequency of the new node only, and only nodes get a father. */
  ghost predicate Kept(t: Hist, freq: seq<nat>, freq': seq<nat>, dl: seq<nat>, dl': seq<nat>)
  {
    && |freq'| == |freq| && |dl'| == |dl|
    && (forall i: nat :: i < t.base + |t.ch| && i < |freq| ==> freq'[i] == freq[i])
    && (forall i: nat :: i < t.base && i < |dl| && i !in t.leaves ==> dl'[i] == dl[i])
  }

  lemma {:induction false} KeptStep(t: Hist, freq: seq<nat>, dl: seq<nat>, n: nat, m: nat)
    requires IsNode(t, n) && IsNode(t, m) && t.base + |t.ch| < |freq| && n < |dl| && m < |dl| && n < |freq|
        && m < |freq|
    ensures Kept(t, freq, freq[t.base + |t.ch| := freq[n] + freq[m]], dl,
        dl[n := t.base + |t.ch|][m := t.base + |t.ch|])
  {
  }

  // ------------------------------------------------------------------ ties

  /** Node n comes first among nodes: none has a lower frequency, and none with the same a less deep subtree. */
  ghost predicate FirstOf(freq: seq<nat>, depth: seq<nat>, nodes: seq<nat>, n: nat)
  {
    && n < |freq| && n < |depth|
    && forall x: nat :: x in nodes ==>
      x < |freq| && x < |depth| && (freq[n] < freq[x] || (freq[n] == freq[x] && depth[n] <= depth[x]))
  }

  /** How deep the subtree of a node is, in 8 bits: a leaf is not, a father one more than the deeper of its sons. */
  function Deep(t: Hist, x: nat): (d: nat)
    decreases x
  {
    if x < t.base || x - t.base >= |t.ch| || t.ch[x - t.base].0 >= x || t.ch[x - t.base].1 >= x then 0
    else
      var a, b := Deep(t, t.ch[x - t.base].0), Deep(t, t.ch[x - t.base].1);
      ((if a >= b then a else b) + 1) % 256
  }

  /** The nodes without a father after k merges. */
  ghost predicate Orphan(t: Hist, k: nat, x: nat)
    requires k <= |t.ch|
  {
    (x in t.leaves || t.base <= x < t.base + k) && forall j: nat :: j < k ==> !IsSon(t, x, j)
  }

  /** Each merge takes the two first of the nodes without a father. */
  ghost predicate InTurn(t: Hist, freq: seq<nat>, k: nat)
    requires k < |t.ch|
  {
    var n, m := t.ch[k].0, t.ch[k].1;
    && n < |freq| && m < |freq| && n != m && Orphan(t, k, n) && Orphan(t, k, m)
    && (forall x: nat :: Orphan(t, k, x) ==> x < |freq| && Before(t, freq, n, x))
    && (forall x: nat :: Orphan(t, k, x) && x != n ==> x < |freq| && Before(t, freq, m, x))
  }

  predicate Before(t: Hist, freq: seq<nat>, n: nat, x: nat)
    requires n < |freq| && x < |freq|
  {
    freq[n] < freq[x] || (freq[n] == freq[x] && Deep(t, n) <= Deep(t, x))
  }

  ghost predicate AllInTurn(t: Hist, freq: seq<nat>)
  {
    forall k: nat :: k < |t.ch| ==> InTurn(t, freq, k)
  }

  /** The queue holds the nodes without a father, with the depths of their subtrees. */
  ghost predicate Ranked(t: Hist, freq: seq<nat>, depth: seq<nat>, now: seq<nat>)
  {
    && AllInTurn(t, freq) && SonsBelow(t) && (forall x: nat :: x in now <==> Orphan(t, |t.ch|, x))
    && (forall x: nat :: x in now ==> x < |depth| && depth[x] == Deep(t, x))
  }

  ghost predicate SonsBelow(t: Hist)
  {
    forall k: nat :: k < |t.ch| ==> t.ch[k].0 < t.base + k && t.ch[k].1 < t.base + k
  }

  /** Before the first merge. */
  lemma {:induction false} RankedStart(leaves: seq<nat>, base: nat, freq: seq<nat>, depth: seq<nat>, now: seq<nat>)
    requires multiset(now) == multiset(leaves) && AllFlat(depth, now)
    ensures Ranked(Hist(leaves, [], base), freq, depth, now)
  {
    forall x: nat ensures x in now <==> x in leaves {
      assert x in multiset(now) <==> x in multiset(leaves);
    }
    assert forall x: nat :: Orphan(Hist(leaves, [], base), 0, x) <==> x in leaves;
    assert forall x: nat :: x in now ==> Deep(Hist(leaves, [], base), x) == 0;
  }

  lemma {:induction false} RankedIs(t: Hist, freq: seq<nat>, depth: seq<nat>, now: seq<nat>)
    requires Ranked(t, freq, depth, now)
    ensures AllInTurn(t, freq)
  {
  }

  /** The nodes are leaves. */
  ghost predicate AllFlat(depth: seq<nat>, nodes: seq<nat>)
  {
    forall x: nat :: x in nodes ==> x < |depth| && depth[x] == 0
  }

  lemma {:induction false} FlatSame(depth: seq<nat>, nodes: seq<nat>, others: seq<nat>)
    requires AllFlat(depth, nodes) && multiset(others) == multiset(nodes)
    ensures AllFlat(depth, others)
  {
    forall x: nat | x in others ensures x < |depth| && depth[x] == 0 {
      assert x in multiset(others);
      assert x in nodes;
    }
  }

  lemma {:induction false} NoneFlat(depth: seq<nat>)
    ensures AllFlat(depth, [])
  {
  }

  /** One more merge leaves the depths below alone. */
  lemma {:induction false} DeepKept(t: Hist, p: (nat, nat), x: nat)
    requires x < t.base + |t.ch|
    ensures Deep(t.(ch := t.ch + [p]), x) == Deep(t, x)
    decreases x
  {
    if t.base <= x && t.ch[x - t.base].0 < x && t.ch[x - t.base].1 < x {
      DeepKept(t, p, t.ch[x - t.base].0);
      DeepKept(t, p, t.ch[x - t.base].1);
    }
  }

  lemma {:induction false} OrphanKept(t: Hist, p: (nat, nat), k: nat, x: nat)
    requires k <= |t.ch|
    ensures Orphan(t.(ch := t.ch + [p]), k, x) <==> Orphan(t, k, x)
  {
    var t' := t.(ch := t.ch + [p]);
    forall j: nat | j < k ensures IsSon(t', x, j) <==> IsSon(t, x, j) { }
  }

  lemma {:induction false} InTurnKept(t: Hist, p: (nat, nat), freq: seq<nat>, w: nat, k: nat)
    requires k < |t.ch| && InTurn(t, freq, k) && Below(t.leaves, t.base) && t.base + |t.ch| < |freq|
    ensures InTurn(t.(ch := t.ch + [p]), freq[t.base + |t.ch| := w], k)
  {
    hide Deep;
    var t', freq', n, m := t.(ch := t.ch + [p]), freq[t.base + |t.ch| := w], t.ch[k].0, t.ch[k].1;
    OrphanKept(t, p, k, n);
    OrphanKept(t, p, k, m);
    DeepKept(t, p, n);
    DeepKept(t, p, m);
    forall x: nat | Orphan(t', k, x)
      ensures x < |freq'| && Before(t', freq', n, x) && (x != n ==> Before(t', freq', m, x))
    {
      OrphanKept(t, p, k, x);
      DeepKept(t, p, x);
    }
  }

  /** Who is without a father after a merge. */
  lemma {:induction false} OrphanNext(t: Hist, n: nat, m: nat, x: nat)
    requires Below(t.leaves, t.base) && n < t.base + |t.ch| && m < t.base + |t.ch|
    requires SonsBelow(t)
    ensures Orphan(t.(ch := t.ch + [(n, m)]), |t.ch| + 1, x) <==>
        x == t.base + |t.ch| || (Orphan(t, |t.ch|, x) && x != n && x != m)
  {
    var t', k := t.(ch := t.ch + [(n, m)]), |t.ch|;
    OrphanKept(t, (n, m), k, x);
    assert IsSon(t', x, k) <==> x == n || x == m;
    if x == t.base + k {
      forall j: nat | j < k + 1 ensures !IsSon(t', x, j) { }
    }
  }

  /** A merge of the two first nodes of the queue. */
  lemma {:induction false} RankedNext(t: Hist, freq: seq<nat>, depth: seq<nat>, now: seq<nat>, left: seq<nat>, n: nat,
      m: nat, w: nat, depth': seq<nat>, now': seq<nat>)
    requires Ranked(t, freq, depth, now) && Below(t.leaves, t.base) && Below(now, t.base + |t.ch|)
    requires t.base + |t.ch| < |freq| && t.base + |t.ch| < |depth|
    requires FirstOf(freq, depth, now, n) && FirstOf(freq, depth, left, m)
    requires n in now && m in now && n != m && forall x: nat :: x in now && x != n ==> x in left
    requires forall x: nat :: x in now' <==> x == t.base + |t.ch| || (x in now && x != n && x != m)
    requires depth' == depth[t.base + |t.ch| := ((if depth[n] >= depth[m] then depth[n] else depth[m]) + 1) % 256]
    ensures Ranked(t.(ch := t.ch + [(n, m)]), freq[t.base + |t.ch| := w], depth', now')
  {
    hide InTurn, Orphan, Deep;
    var t', freq', node := t.(ch := t.ch + [(n, m)]), freq[t.base + |t.ch| := w], t.base + |t.ch|;
    forall k: nat | k < |t'.ch| ensures InTurn(t', freq', k) {
      if k < |t.ch| { InTurnKept(t, (n, m), freq, w, k); } else { TurnNow(t, freq, depth, now, left, n, m, w); }
    }
    forall x: nat ensures x in now' <==> Orphan(t', |t'.ch|, x) { OrphanNext(t, n, m, x); }
    forall x: nat | x in now' ensures x < |depth'| && depth'[x] == Deep(t', x) {
      if x != node { DeepKept(t, (n, m), x); } else { DeepNow(t, n, m); }
    }
  }

  lemma {:induction false} DeepNow(t: Hist, n: nat, m: nat)
    requires n < t.base + |t.ch| && m < t.base + |t.ch|
    ensures var a, b := Deep(t, n), Deep(t, m);
            Deep(t.(ch := t.ch + [(n, m)]), t.base + |t.ch|) == ((if a >= b then a else b) + 1) % 256
  {
    DeepKept(t, (n, m), n);
    DeepKept(t, (n, m), m);
  }

  lemma {:induction false} TurnNow(t: Hist, freq: seq<nat>, depth: seq<nat>, now: seq<nat>, left: seq<nat>, n: nat,
      m: nat, w: nat)
    requires Ranked(t, freq, depth, now) && Below(now, t.base + |t.ch|) && t.base + |t.ch| < |freq|
    requires FirstOf(freq, depth, now, n) && FirstOf(freq, depth, left, m)
    requires n in now && m in now && n != m && forall x: nat :: x in now && x != n ==> x in left
    ensures InTurn(t.(ch := t.ch + [(n, m)]), freq[t.base + |t.ch| := w], |t.ch|)
  {
    hide AllInTurn, Orphan, Deep;
    var t', freq', k := t.(ch := t.ch + [(n, m)]), freq[t.base + |t.ch| := w], |t.ch|;
    OrphanKept(t, (n, m), k, n);
    OrphanKept(t, (n, m), k, m);
    DeepKept(t, (n, m), n);
    DeepKept(t, (n, m), m);
    forall x: nat | Orphan(t', k, x)
      ensures x < |freq'| && Before(t', freq', n, x) && (x != n ==> Before(t', freq', m, x))
    {
      OrphanKept(t, (n, m), k, x);
      DeepKept(t, (n, m), x);
    }
  }

  // ------------------------------------------------------------------ heap operations on node lists

  lemma {:induction false} RootLeastOfSlice(h: seq<nat>, len: nat, freq: seq<nat>, depth: seq<nat>)
    requires 1 <= len && NodesOk(h, len, freq, depth) && HeapFrom(h, len, 1, freq, depth)
    ensures h[1] in Slice(h, len) && h[1] < |freq| && h[1] < |depth|
    ensures forall x: nat :: x in Slice(h, len) ==> x < |freq| && freq[h[1]] <= freq[x]
    ensures forall x: nat :: x in Slice(h, len) ==> x < |freq| && x < |depth| && Smaller(freq, depth, h[1], x)
  {
    assert Slice(h, len)[0] == h[1];
    forall x: nat | x in Slice(h, len)
      ensures x < |freq| && x < |depth| && Smaller(freq, depth, h[1], x)
    {
      var i :| 0 <= i < len && Slice(h, len)[i] == x;
      RootIsLeast(h, len, freq, depth, i + 1);
    }
  }

  lemma {:induction false} HeadApart(s: seq<nat>)
    requires s != []
    ensures multiset(s) == multiset{s[0]} + multiset(s[1..])
  {
    assert s == [s[0]] + s[1..];
  }

  lemma {:induction false} PopSlice(h: seq<nat>, len: nat)
    requires 2 <= len < |h|
    ensures multiset(Slice(h[1 := h[len]], len - 1)) == multiset(Slice(h, len)) - multiset{h[1]}
  {
    var s, s' := Slice(h, len), Slice(h[1 := h[len]], len - 1);
    HeadApart(s);
    HeadApart(s');
    assert s[1..] == s'[1..] + [s'[0]];
  }

  lemma {:induction false} PutSlice(h: seq<nat>, len: nat, node: nat)
    requires 1 <= len < |h|
    ensures multiset(Slice(h[1 := node], len)) == multiset(Slice(h, len)) - multiset{h[1]} + multiset{node}
  {
    var s, s' := Slice(h, len), Slice(h[1 := node], len);
    HeadApart(s);
    HeadApart(s');
    assert s'[1..] == s[1..];
  }

  /** A new root node leaves the order of the others alone. */
  lemma {:induction false} NewRoot(h: seq<nat>, len: nat, freq: seq<nat>, depth: seq<nat>, freq': seq<nat>,
      depth': seq<nat>, node: nat)
    requires 1 <= len && NodesOk(h, len, freq, depth) && HeapFrom(h, len, 1, freq, depth)
    requires node < |freq| == |freq'| && node < |depth| == |depth'| && node !in Slice(h, len)
    requires forall i :: 0 <= i < |freq| && i != node ==> freq'[i] == freq[i]
    requires forall i :: 0 <= i < |depth| && i != node ==> depth'[i] == depth[i]
    ensures NodesOk(h[1 := node], len, freq', depth') && HeapFrom(h[1 := node], len, 2, freq', depth')
  {
    forall i | 2 <= i <= len && 2 <= i / 2
      ensures Smaller(freq', depth', h[i / 2], h[i])
    {
      assert Slice(h, len)[i - 1] == h[i] && Slice(h, len)[i / 2 - 1] == h[i / 2];
      assert Smaller(freq, depth, h[i / 2], h[i]);
    }
  }

  // ------------------------------------------------------------------ the leaves

  function SumTo(freq: seq<nat>, n: nat): (r: nat)
    requires n <= |freq|
  {
    if n == 0 then 0 else SumTo(freq, n - 1) + freq[n - 1]
  }

  /** What the static tree charges for a list of codes. */
  function StaticCost(stree: seq<nat>, s: seq<nat>): (r: nat)
    decreases |s|
  {
    if s == [] then 0
    else StaticCost(stree, s[..|s| - 1]) + (if s[|s| - 1] < |stree| then stree[s[|s| - 1]] else 0)
  }

  lemma {:induction false} StaticAppend(stree: seq<nat>, s: seq<nat>, x: nat)
    ensures StaticCost(stree, s + [x]) == StaticCost(stree, s) + (if x < |stree| then stree[x] else 0)
  {
    assert (s + [x])[..|s|] == s;
  }

  /** leaves lists, once each, the symbols below n that have a frequency. */
  ghost predicate LeavesAre(leaves: seq<nat>, freq: seq<nat>, n: nat)
  {
    && n <= |freq| && (forall x :: multiset(leaves)[x] <= 1)
    && forall x: nat :: x in leaves <==> x < n && freq[x] != 0
  }

  /** The other symbols have length zero. */
  ghost predicate Unused(leaves: seq<nat>, dl: seq<nat>, n: nat)
  {
    n <= |dl| && forall x: nat :: x < n && x !in leaves ==> dl[x] == 0
  }

  lemma {:induction false} EmptySlice(h: seq<nat>)
    requires |h| > 0
    ensures Slice(h, 0) == []
    ensures forall freq: seq<int> :: Sum(freq, Slice(h, 0)) == 0
  {
  }

  lemma {:induction false} AppendSlice(h: seq<nat>, len: nat, x: nat)
    requires len + 1 < |h|
    ensures Slice(h[len + 1 := x], len + 1) == Slice(h, len) + [x]
  {
  }

  lemma {:induction false} AppendLeaf(leaves: seq<nat>, freq: seq<nat>, dl: seq<nat>, n: nat)
    requires LeavesAre(leaves, freq, n) && n < |freq| && freq[n] != 0 && Unused(leaves, dl, n) && n < |dl|
    ensures LeavesAre(leaves + [n], freq, n + 1) && Unused(leaves + [n], dl, n + 1)
  {
    assert multiset(leaves + [n]) == multiset(leaves) + multiset{n};
    assert n !in leaves;
    assert multiset(leaves)[n] == 0;
  }

  lemma {:induction false} SumAppend(g: seq<int>, s: seq<nat>, x: nat)
    ensures Sum(g, s + [x]) == Sum(g, s) + At(g, x)
  {
    if s == [] {
      assert s + [x] == [x];
    } else {
      SumAppend(g, s[1..], x);
      assert (s + [x])[1..] == s[1..] + [x];
    }
  }

  lemma {:induction false} SumSame(g: seq<int>, g': seq<int>, s: seq<nat>)
    requires forall x: nat :: x in s ==> At(g', x) == At(g, x)
    ensures Sum(g', s) == Sum(g, s)
  {
    if s != [] { SumSame(g, g', s[1..]); }
  }

  /** The used symbols below n are in the heap; top is the largest. */
  ghost predicate Collected(now: seq<nat>, freq: seq<nat>, dl: seq<nat>, n: nat, top: int)
  {
    && LeavesAre(now, freq, n) && Unused(now, dl, n) && Sum(freq, now) == SumTo(freq, n)
    && -1 <= top < n && (top == -1 <==> now == []) && (top >= 0 ==> top in now)
    && forall x: nat :: x in now ==> x <= top
  }

  lemma {:induction false} CollectNone(freq: seq<nat>, dl: seq<nat>)
    ensures Collected([], freq, dl, 0, -1)
  {
  }

  lemma {:induction false} CollectUsed(now: seq<nat>, freq: seq<nat>, dl: seq<nat>, n: nat, top: int)
    requires Collected(now, freq, dl, n, top) && n < |freq| && freq[n] != 0 && n < |dl|
    ensures Collected(now + [n], freq, dl, n + 1, n)
  {
    hide Sum;
    AppendLeaf(now, freq, dl, n);
    SumAppend(freq, now, n);
  }

  lemma {:induction false} CollectUnused(now: seq<nat>, freq: seq<nat>, dl: seq<nat>, n: nat, top: int)
    requires Collected(now, freq, dl, n, top) && n < |freq| && freq[n] == 0 && n < |dl|
    ensures Collected(now, freq, dl[n := 0], n + 1, top)
  {
    hide Sum;
  }

  /** now is now0 plus the forced codes, which now have frequency one; top is the largest code. */
  ghost predicate Forced(now0: seq<nat>, freq0: seq<nat>, now: seq<nat>, freq: seq<nat>, dl: seq<nat>, elems: nat,
      top: int, forced: seq<nat>)
  {
    && now == now0 + forced && (forced == [] || |now| <= 2) && |freq| == |freq0|
    && LeavesAre(now, freq, elems) && Unused(now, dl, elems) && Sum(freq, now) == Sum(freq0, now0) + |forced|
    && (forall n: nat :: n < |freq| ==> freq[n] == if n in forced then 1 else freq0[n])
    && (forall x: nat :: x in forced ==> x <= 2)
    && -1 <= top < elems && (top == -1 <==> now == []) && (top >= 0 ==> top in now)
    && forall x: nat :: x in now ==> x <= top
  }

  /** The codes added when fewer than two symbols are used; top is the largest used symbol. */
  function Missing(used: nat, top: int): (r: seq<int>)
  {
    if used == 0 then [0, 1]
    else if used == 1 then [if top < 2 then top + 1 else 0]
    else []
  }

  lemma {:induction false} ForceNone(now: seq<nat>, freq: seq<nat>, dl: seq<nat>, elems: nat, top: int, stree: seq<nat>)
    requires Collected(now, freq, dl, elems, top)
    ensures Forced(now, freq, now, freq, dl, elems, top, []) && StaticCost(stree, []) == 0
  {
    hide Sum;
    assert now + [] == now;
  }

  lemma {:induction false} ForceRange(now0: seq<nat>, freq0: seq<nat>, now: seq<nat>, freq: seq<nat>, dl: seq<nat>,
      elems: nat, top: int, forced: seq<nat>)
    requires Forced(now0, freq0, now, freq, dl, elems, top, forced)
    ensures -1 <= top < elems && (top == -1 <==> now == [])
  {
  }

  lemma {:induction false} ForceOne(now0: seq<nat>, freq0: seq<nat>, now: seq<nat>, freq: seq<nat>, dl: seq<nat>,
      elems: nat, top: int, forced: seq<nat>, node: nat, next: int)
    requires Forced(now0, freq0, now, freq, dl, elems, top, forced) && |now| <= 1 && 3 <= elems
    requires node == (if top < 2 then top + 1 else 0) && next == (if top < 2 then top + 1 else top)
    ensures node < |freq| && Forced(now0, freq0, now + [node], freq[node := 1], dl, elems, next, forced + [node])
  {
    hide Sum;
    assert node !in now by { if |now| == 1 { assert now == [now[0]]; } }
    ForcedLeaf(now, freq, dl, elems, node);
    assert now + [node] == now0 + (forced + [node]);
  }

  lemma {:induction false} ForcedLeaf(leaves: seq<nat>, freq: seq<nat>, dl: seq<nat>, n: nat, node: nat)
    requires LeavesAre(leaves, freq, n) && node < n && node !in leaves && Unused(leaves, dl, n)
    ensures LeavesAre(leaves + [node], freq[node := 1], n) && Unused(leaves + [node], dl, n)
    ensures Sum(freq[node := 1], leaves + [node]) == Sum(freq, leaves) + 1
  {
    assert multiset(leaves + [node]) == multiset(leaves) + multiset{node};
    assert multiset(leaves)[node] == 0;
    SumAppend(freq[node := 1], leaves, node);
    SumSame(freq, freq[node := 1], leaves);
  }

  /** The part of the compressor's state that builds trees. */
  class Builder {
    const heap: array<nat>
    const depth: array<nat>
    const blCount: array<nat>
    var heapLen: nat
    var heapMax: nat
    /** Bit lengths of the current block with optimal and with static trees; counts down below zero
        before the forced codes are added. */
    var optLen: int
    var staticLen: int

    constructor ()
      ensures fresh(heap) && fresh(depth) && heap != depth
      ensures heap.Length == HEAP_SIZE && depth.Length == HEAP_SIZE
      ensures fresh(blCount) && blCount != heap && blCount != depth && blCount.Length == MAX_BITS + 1
      ensures optLen == 0 && staticLen == 0
    {
      blCount := new nat[MAX_BITS + 1](_ => 0);
      optLen, staticLen := 0, 0;
      heap := new nat[HEAP_SIZE](_ => 0);
      depth := new nat[HEAP_SIZE](_ => 0);
      heapLen, heapMax := 0, HEAP_SIZE;
    }

    ghost predicate Apart(freq: array<nat>, dl: array<nat>)
    {
      && heap.Length == HEAP_SIZE && depth.Length == HEAP_SIZE && freq.Length == dl.Length <= HEAP_SIZE
      && heap != depth && heap != freq && heap != dl && depth != freq && depth != dl && freq != dl
    }

    ghost predicate Queue(freq: array<nat>)
      reads this, heap, depth, freq
    {
      heapLen < heap.Length &&
      NodesOk(heap[..], heapLen, freq[..], depth[..]) && HeapFrom(heap[..], heapLen, 1, freq[..], depth[..])
    }

    ghost function Now(): (r: seq<nat>)
      reads this, heap
      requires heapLen < heap.Length
    {
      Slice(heap[..], heapLen)
    }

    ghost predicate Between(t: Hist, run: seq<(nat, nat)>, freq: array<nat>, dl: array<nat>)
      reads this, heap, depth, freq, dl
    {
      && Apart(freq, dl) && Queue(freq)
      && |t.leaves| <= t.base <= 286 && 2 * t.base <= freq.Length
      && heapLen + |t.ch| == |t.leaves| && heapMax + 2 * |t.ch| == HEAP_SIZE
      && Building(t, freq[..], dl[..], run, Now(), heap[heapMax..])
    }

    /** Appends a node to the end of the heap array. */
    method Append(node: nat)
      requires heap.Length == HEAP_SIZE && depth.Length == HEAP_SIZE && heap != depth
      requires heapLen + 1 < HEAP_SIZE && node < HEAP_SIZE
      modifies this`heapLen, heap, depth
      ensures heapLen == old(heapLen) + 1 && Now() == old(Now()) + [node]
      ensures old(AllFlat(depth[..], Now())) ==> AllFlat(depth[..], Now())
    {
      ghost var h: seq<nat> := heap[..];
      AppendSlice(h, heapLen, node);
      heapLen := heapLen + 1;
      heap[heapLen] := node;
      depth[node] := 0;
      assert heap[..] == h[heapLen := node];
    }

    /** The node numbers with a frequency, in increasing order; symbols without one get length zero. */
    method CollectLeaves(freq: array<nat>, dl: array<nat>, elems: nat) returns (maxCode: int)
      requires Apart(freq, dl) && elems <= 286 && 2 * elems <= freq.Length
      modifies this`heapLen, this`heapMax, heap, depth, dl
      ensures heapLen <= elems && heapMax == HEAP_SIZE && (heapLen == 0 ==> maxCode == -1)
      ensures Collected(Now(), freq[..], dl[..], elems, maxCode) && AllFlat(depth[..], Now())
    {
      hide Slice, Collected, AllFlat;
      heapLen, heapMax, maxCode := 0, HEAP_SIZE, -1;
      EmptySlice(heap[..]);
      NoneFlat(depth[..]);
      CollectNone(freq[..], dl[..]);
      for n := 0 to elems
        invariant heapLen <= n && heapMax == HEAP_SIZE && (heapLen == 0 ==> maxCode == -1)
        invariant AllFlat(depth[..], Now())
        invariant Collected(Now(), freq[..], dl[..], n, maxCode)
      {
        ghost var now: seq<nat>, l: seq<nat> := Now(), dl[..];
        if freq[n] != 0 {
          CollectUsed(now, freq[..], l, n, maxCode);
          Append(n);
          maxCode := n;
        } else {
          CollectUnused(now, freq[..], l, n, maxCode);
          dl[n] := 0;
          assert dl[..] == l[n := 0];
        }
      }
    }

    /** At least two codes: a missing one is given frequency one. */
    method ForceTwo(freq: array<nat>, dl: array<nat>, elems: nat, maxCode0: int, stree: seq<nat>)
      returns (maxCode: nat, ghost forced: seq<nat>)
      requires Apart(freq, dl) && 3 <= elems <= 286 && 2 * elems <= freq.Length && heapLen <= elems
          && heapMax == HEAP_SIZE
      requires Collected(Now(), freq[..], dl[..], elems, maxCode0)
      requires (stree == [] || |stree| >= elems) && (heapLen == 0 ==> maxCode0 == -1) && AllFlat(depth[..], Now())
      modifies this`heapLen, this`optLen, this`staticLen, heap, depth, freq
      ensures 2 <= heapLen <= elems
      ensures Forced(old(Now()), old(freq[..]), Now(), freq[..], dl[..], elems, maxCode, forced)
      ensures optLen == old(optLen) - |forced|
      ensures staticLen == old(staticLen) - StaticCost(stree, forced)
      ensures forced == Missing(old(heapLen), maxCode0) && AllFlat(depth[..], Now())
    {
      hide Slice, Forced, StaticCost, AllFlat;
      var top: int := maxCode0;
      forced := [];
      ForceNone(Now(), freq[..], dl[..], elems, top, stree);
      while heapLen < 2
        invariant heapLen <= elems
        invariant Forced(old(Now()), old(freq[..]), Now(), freq[..], dl[..], elems, top, forced)
        invariant optLen == old(optLen) - |forced| && AllFlat(depth[..], Now())
        invariant staticLen == old(staticLen) - StaticCost(stree, forced)
        invariant heapLen == old(heapLen) + |forced|
        invariant forced == [] || heapLen <= 2
        invariant forced == [] ==> top == maxCode0
        invariant |forced| == 1 && old(heapLen) == 0 ==> forced == [0] && top == 0
        invariant |forced| == 2 - old(heapLen) ==> forced == Missing(old(heapLen), maxCode0)
        decreases 2 - heapLen
      {
        ghost var now: seq<nat>, f: seq<nat> := Now(), freq[..];
        ForceRange(old(Now()), old(freq[..]), now, f, dl[..], elems, top, forced);
        var node: nat := if top < 2 then top + 1 else 0;
        var next := if top < 2 then top + 1 else top;
        ForceOne(old(Now()), old(freq[..]), now, f, dl[..], elems, top, forced, node, next);
        StaticAppend(stree, forced, node);
        Append(node);
        freq[node] := 1;
        optLen := optLen - 1;
        if stree != [] { staticLen := staticLen - stree[node]; }
        assert freq[..] == f[node := 1];
        top, forced := next, forced + [node];
      }
      ForceRange(old(Now()), old(freq[..]), Now(), freq[..], dl[..], elems, top, forced);
      maxCode := top;
    }

    /** Takes the first node out of the queue, that of least frequency, and of these one whose subtree is least deep. */
    method PqRemove(freq: array<nat>) returns (top: nat)
      requires heap != depth && heap != freq && Queue(freq) && heapLen >= 2
      modifies this`heapLen, heap
      ensures heapLen == old(heapLen) - 1 && Queue(freq)
      ensures top in old(Now()) && top < freq.Length && top == old(heap[1])
      ensures forall x: nat :: x in old(Now()) ==> x < freq.Length && freq[top] <= freq[x]
      ensures FirstOf(freq[..], depth[..], old(Now()), top)
      ensures multiset(Now()) == multiset(old(Now())) - multiset{top}
      ensures forall i :: heapLen < i < heap.Length ==> heap[i] == old(heap[i])
    {
      hide HeapFrom, NodesOk, Slice, Permuted;
      ghost var h := heap[..];
      RootLeastOfSlice(h, heapLen, freq[..], depth[..]);
      PopSlice(h, heapLen);
      top := heap[1];
      heap[1] := heap[heapLen];
      assert heap[..] == h[1 := h[heapLen]];
      heapLen := heapLen - 1;
      PopOk(h, heapLen, freq[..], depth[..]);
      ghost var h1 := heap[..];
      PqDownHeap(heap, heapLen, freq, depth, 1);
      PermutedSlice(h1, heap[..], heapLen);
    }

    /** Takes the least frequent node n out and looks at the next one, m; both are recorded as having left. */
    method TakeTwo(freq: array<nat>) returns (n: nat, m: nat)
      requires heap != depth && heap != freq && Queue(freq) && 2 <= heapLen && heapLen + 2 <= heapMax <= heap.Length
      modifies this`heapLen, this`heapMax, heap
      ensures heapLen == old(heapLen) - 1 && heapMax == old(heapMax) - 2 && Queue(freq)
      ensures n in old(Now()) && n < freq.Length && multiset(Now()) == multiset(old(Now())) - multiset{n}
      ensures forall x: nat :: x in old(Now()) ==> x < freq.Length && freq[n] <= freq[x]
      ensures FirstOf(freq[..], depth[..], old(Now()), n) && FirstOf(freq[..], depth[..], Now(), m)
      ensures m == heap[1] && m in Now() && m < freq.Length
      ensures forall x: nat :: x in Now() ==> x < freq.Length && freq[m] <= freq[x]
      ensures heap[heapMax..] == [m, n] + old(heap[heapMax..])
    {
      hide HeapFrom, NodesOk, Slice, Permuted;
      ghost var ord: seq<nat> := heap[heapMax..];
      n := PqRemove(freq);
      assert heap[heapMax..] == ord;
      ghost var h1: seq<nat> := heap[..];
      RootLeastOfSlice(h1, heapLen, freq[..], depth[..]);
      m := heap[1];
      heapMax := heapMax - 1;
      heap[heapMax] := n;
      heapMax := heapMax - 1;
      heap[heapMax] := m;
      assert heap[heapMax..] == [m, n] + ord;
      StoreAbove(h1, heap[..], heapLen, freq[..], depth[..]);
    }

    /** Combines the two least frequent nodes under a new node. */
    method MergeOnce(freq: array<nat>, dl: array<nat>, node: nat, ghost t: Hist, ghost run: seq<(nat, nat)>)
      returns (ghost t': Hist, ghost run': seq<(nat, nat)>)
      requires Between(t, run, freq, dl) && heapLen >= 2 && node == t.base + |t.ch|
      requires Ranked(t, freq[..], depth[..], Now())
      modifies this`heapLen, this`heapMax, heap, depth, freq, dl
      ensures Between(t', run', freq, dl) && Ranked(t', freq[..], depth[..], Now())
      ensures t'.leaves == t.leaves && t'.base == t.base && |t'.ch| == |t.ch| + 1 && heapLen == old(heapLen) - 1
      ensures Kept(t, old(freq[..]), freq[..], old(dl[..]), dl[..])
    {
      hide HeapFrom, NodesOk, Slice, Permuted, Building, Merged, LeastTwo, Kept, Ranked, FirstOf;
      ghost var f: seq<nat>, d: seq<nat>, l: seq<nat> := freq[..], depth[..], dl[..];
      ghost var now, ord: seq<nat> := Now(), heap[heapMax..];
      NodeFresh(t, f, l, run, now, ord);
      var n, m := TakeTwo(freq);
      ghost var h: seq<nat>, left: seq<nat> := heap[..], Now();
      assert freq[..] == f && dl[..] == l;
      MergePlan(t, f, l, run, now, ord, left, n, m);
      Join(freq, dl, node, n, m, f, l, d, h, [m, n] + ord);
      t', run' := t.(ch := t.ch + [(n, m)]), run + [(f[n], f[m])];
      RankedMerge(t, f, d, l, run, now, ord, left, h, heapLen, n, m, f[n] + f[m], depth[..], Now());
      MergeDone(t, f, l, run, now, ord, h, heapLen, n, m, freq[..], dl[..], Now(), heap[heapMax..]);
    }

    /** The new node becomes the father of n and m and takes m's place in the queue. */
    method Join(freq: array<nat>, dl: array<nat>, node: nat, n: nat, m: nat,
                ghost f: seq<nat>, ghost l: seq<nat>, ghost d: seq<nat>, ghost h: seq<nat>, ghost ord: seq<nat>)
      requires Apart(freq, dl) && Queue(freq) && 1 <= heapLen && heapLen + 1 <= heapMax <= heap.Length
      requires f == freq[..] && l == dl[..] && d == depth[..] && h == heap[..] && ord == heap[heapMax..]
      requires n < node && m < node < |f| && f[n] + f[m] < 0x1_0000 && node !in Now()
      modifies heap, depth, freq, dl
      ensures freq[..] == f[node := f[n] + f[m]] && dl[..] == l[n := node][m := node]
      ensures depth[..] == d[node := ((if d[n] >= d[m] then d[n] else d[m]) + 1) % 256]
      ensures Queue(freq) && multiset(Now()) == multiset(Slice(h[1 := node], heapLen))
      ensures heap[heapMax..] == ord
    {
      hide HeapFrom, NodesOk, Slice, Permuted;
      freq[node] := (freq[n] + freq[m]) % 0x1_0000;
      depth[node] := ((if depth[n] >= depth[m] then depth[n] else depth[m]) + 1) % 256;
      dl[n] := node;
      dl[m] := node;
      assert freq[..] == f[node := f[n] + f[m]];
      assert dl[..] == l[n := node][m := node];
      PutRoot(freq, node, f, d);
    }

    /** Puts a new node in the place of the least one. */
    method PutRoot(freq: array<nat>, node: nat, ghost f: seq<nat>, ghost d: seq<nat>)
      requires heap != depth && heap != freq && 1 <= heapLen && heapLen + 1 <= heapMax <= heap.Length
      requires NodesOk(heap[..], heapLen, f, d) && HeapFrom(heap[..], heapLen, 1, f, d)
      requires node < |f| == freq.Length && node < |d| == depth.Length && node !in Now()
      requires forall i :: 0 <= i < |f| && i != node ==> freq[i] == f[i]
      requires forall i :: 0 <= i < |d| && i != node ==> depth[i] == d[i]
      modifies heap
      ensures Queue(freq) && multiset(Now()) == multiset(Slice(old(heap[..])[1 := node], heapLen))
      ensures heap[heapMax..] == old(heap[heapMax..])
    {
      hide HeapFrom, NodesOk, Slice, Permuted;
      ghost var h: seq<nat> := heap[..];
      heap[1] := node;
      assert heap[..] == h[1 := node];
      NewRoot(h, heapLen, f, d, freq[..], depth[..], node);
      PqDownHeap(heap, heapLen, freq, depth, 1);
      PermutedSlice(h[1 := node], heap[..], heapLen);
    }

    ghost predicate QueueFrom(freq: array<nat>, lo: nat)
      reads this, heap, depth, freq
    {
      heapLen < heap.Length &&
      NodesOk(heap[..], heapLen, freq[..], depth[..]) && HeapFrom(heap[..], heapLen, lo, freq[..], depth[..])
    }

    method DownHeap(freq: array<nat>, n: nat)
      requires heap != depth && heap != freq && 1 <= n <= heapLen && QueueFrom(freq, n + 1)
      modifies heap
      ensures QueueFrom(freq, n) && multiset(Now()) == multiset(old(Now()))
      ensures heap[heapLen + 1..] == old(heap[heapLen + 1..])
    {
      hide HeapFrom, NodesOk, Slice, Permuted;
      ghost var h: seq<nat> := heap[..];
      PqDownHeap(heap, heapLen, freq, depth, n);
      PermutedSlice(h, heap[..], heapLen);
      assert h[heapLen + 1..] == heap[heapLen + 1..];
    }

    /** Orders the leaves into a queue, from the last inner position up to the first. */
    method EstablishHeap(freq: array<nat>)
      requires heap != depth && heap != freq && heapLen < heap.Length
      requires NodesOk(heap[..], heapLen, freq[..], depth[..])
      modifies heap
      ensures Queue(freq) && multiset(Now()) == multiset(old(Now()))
      ensures heap[heapLen + 1..] == old(heap[heapLen + 1..])
    {
      hide HeapFrom, NodesOk, Slice;
      var n: nat := heapLen / 2;
      LeavesAreHeaps(heap[..], heapLen, freq[..], depth[..]);
      hide QueueFrom;
      while n >= 1
        invariant n <= heapLen / 2 && QueueFrom(freq, n + 1)
        invariant multiset(Now()) == multiset(old(Now())) && heap[heapLen + 1..] == old(heap[heapLen + 1..])
      {
        DownHeap(freq, n);
        n := n - 1;
      }
      QueueFromOne(freq, n + 1);
    }

    lemma {:induction false} QueueFromOne(freq: array<nat>, lo: nat)
      requires lo <= 1 && QueueFrom(freq, lo)
      ensures Queue(freq)
    {
      HeapFromOne(heap[..], heapLen, lo, freq[..], depth[..]);
    }

    /** Merges until one node, the root, is left; it is recorded last. */
    method GrowTree(freq: array<nat>, dl: array<nat>, elems: nat, ghost leaves: seq<nat>) returns (ghost t: Hist,
        ghost run: seq<(nat, nat)>)
      requires Apart(freq, dl) && elems <= 286 && 2 * elems <= freq.Length && Queue(freq)
      requires LeavesAre(leaves, freq[..], elems) && multiset(Now()) == multiset(leaves)
      requires 2 <= heapLen == |leaves| <= elems && heapMax == HEAP_SIZE && Sum(freq[..], leaves) < 0x1_0000
      requires AllFlat(depth[..], Now())
      modifies this`heapLen, this`heapMax, heap, depth, freq, dl
      ensures t.leaves == leaves && t.base == elems && heapMax + 2 * |leaves| - 1 == HEAP_SIZE
      ensures Grown(t, freq[..], dl[..], run, heap[heapMax..]) && AllInTurn(t, freq[..])
      ensures Kept(Hist(leaves, [], elems), old(freq[..]), freq[..], old(dl[..]), dl[..])
    {
      hide HeapFrom, NodesOk, Slice, Permuted, Building, Kept, Grown, Ranked, AllFlat;
      t, run := Hist(leaves, [], elems), [];
      var node := elems;
      assert heap[heapMax..] == [];
      StartBuilding(leaves, Now(), freq[..], dl[..], elems);
      RankedStart(leaves, elems, freq[..], depth[..], Now());
      while heapLen >= 2
        invariant 1 <= heapLen && t.leaves == leaves && t.base == elems && node == elems + |t.ch|
        invariant Between(t, run, freq, dl) && Ranked(t, freq[..], depth[..], Now())
        invariant Kept(Hist(leaves, [], elems), old(freq[..]), freq[..], old(dl[..]), dl[..])
        decreases heapLen
      {
        ghost var t0, f: seq<nat>, l: seq<nat> := t, freq[..], dl[..];
        t, run := MergeOnce(freq, dl, node, t, run);
        KeptTrans(Hist(leaves, [], elems), t0, old(freq[..]), f, freq[..], old(dl[..]), l, dl[..]);
        node := node + 1;
      }
      ghost var ord: seq<nat> := heap[heapMax..];
      RankedIs(t, freq[..], depth[..], Now());
      FirstOfSlice(heap[..]);
      heapMax := heapMax - 1;
      heap[heapMax] := heap[1];
      assert heap[heapMax..] == [heap[1]] + ord;
      Finished(t, freq[..], dl[..], run, heap[1], ord);
    }
  }

  lemma {:induction false} FirstOfSlice(h: seq<nat>)
    requires 1 < |h|
    ensures Slice(h, 1) == [h[1]]
  {
  }

  lemma {:induction false} LeavesAreHeaps(h: seq<nat>, len: nat, freq: seq<nat>, depth: seq<nat>)
    requires NodesOk(h, len, freq, depth)
    ensures HeapFrom(h, len, len / 2 + 1, freq, depth)
  {
  }

  lemma {:induction false} HeapFromOne(h: seq<nat>, len: nat, lo: nat, freq: seq<nat>, depth: seq<nat>)
    requires lo <= 1 && NodesOk(h, len, freq, depth) && HeapFrom(h, len, lo, freq, depth)
    ensures HeapFrom(h, len, 1, freq, depth)
  {
  }

  lemma {:induction false} LeavesBelow(leaves: seq<nat>, freq: seq<nat>, n: nat)
    requires LeavesAre(leaves, freq, n)
    ensures Below(leaves, n)
  {
    forall i | 0 <= i < |leaves| ensures leaves[i] < n { assert leaves[i] in leaves; }
  }

  lemma {:induction false} StartBuilding(leaves: seq<nat>, now: seq<nat>, freq: seq<nat>, dl: seq<nat>, base: nat)
    requires LeavesAre(leaves, freq, base) && multiset(now) == multiset(leaves) && |freq| == |dl|
    requires Sum(freq, leaves) < 0x1_0000
    ensures Building(Hist(leaves, [], base), freq, dl, [], now, [])
    ensures Kept(Hist(leaves, [], base), freq, freq, dl, dl)
  {
    hide Sum, Weights;
    var t := Hist(leaves, [], base);
    forall x: nat ensures x in now <==> x in leaves {
      assert x in now <==> x in multiset(now);
      assert x in leaves <==> x in multiset(leaves);
    }
    LeavesBelow(leaves, freq, base);
    BelowPerm(leaves, now, base);
    forall g: seq<int> ensures Sum(g, leaves) == Sum(g, now) + Excess(g, [], base) { SumPerm(g, leaves, now); }
    SumPerm(freq, leaves, now);
    WeightsPerm(freq, leaves, now);
  }

  lemma {:induction false} KeptTrans(s: Hist, t: Hist, f0: seq<nat>, f: seq<nat>, f': seq<nat>, l0: seq<nat>,
      l: seq<nat>, l': seq<nat>)
    requires s.leaves == t.leaves && s.base == t.base && |s.ch| <= |t.ch|
    requires Kept(s, f0, f, l0, l) && Kept(t, f, f', l, l')
    ensures Kept(s, f0, f', l0, l')
  {
  }

  /** The finished tree: one root, left by every other node; order lists the nodes, sorted by
      decreasing frequency, the root first and every father before its sons. */
  ghost predicate Grown(t: Hist, freq: seq<nat>, dl: seq<nat>, run: seq<(nat, nat)>, order: seq<nat>)
  {
    && |t.leaves| == |t.ch| + 1 && |t.ch| > 0 && |freq| == |dl|
    && Shape(t, dl, [Root(t)]) && Telescopes(t, [Root(t)]) && FreqOk(t, freq)
    && |order| == 2 * |t.ch| + 1 && order[0] == Root(t) && OrderIs(t, order[1..])
    && Below(order, |freq|) && (forall i, j :: 0 <= i < j < |order| ==> freq[order[j]] <= freq[order[i]])
    && GreedyTo(Weights(freq, t.leaves), run, multiset{freq[Root(t)]}) && Total(run) == Created(freq, t)
  }

  function Root(t: Hist): (r: nat)
    requires |t.ch| > 0
  {
    t.base + |t.ch| - 1
  }

  /** The node created last stays in the heap. */
  lemma {:induction false} RootStays(t: Hist, dl: seq<nat>, now: seq<nat>)
    requires Shape(t, dl, now) && |t.ch| > 0
    ensures Root(t) in now
  {
    var r := Root(t);
    assert IsNode(t, r);
    if r !in now { YoungerFather(t, dl, now, r); }
  }

  /** A father is created after its sons. */
  lemma {:induction false} YoungerFather(t: Hist, dl: seq<nat>, now: seq<nat>, x: nat)
    requires Shape(t, dl, now) && IsNode(t, x) && x !in now
    ensures x < |dl| && x < dl[x] < t.base + |t.ch|
  {
    assert IsSon(t, x, dl[x] - t.base);
  }

  lemma {:induction false} Finished(t: Hist, freq: seq<nat>, dl: seq<nat>, run: seq<(nat, nat)>, x: nat, ord: seq<nat>)
    requires Building(t, freq, dl, run, [x], ord) && |t.leaves| == |t.ch| + 1 && |t.ch| > 0
    ensures Grown(t, freq, dl, run, [x] + ord)
  {
    hide Telescopes, FathersOk, SonsOk, Sum;
    RootStays(t, dl, [x]);
    var order := [x] + ord;
    assert order[1..] == ord;
    assert [x][0] < t.base + |t.ch|;
    WeightsOne(freq, x);
    forall i, j | 0 <= i < j < |order| ensures freq[order[j]] <= freq[order[i]] {
      if i == 0 { assert freq[ord[j - 1]] <= freq[[x][0]]; }
    }
  }

  lemma {:induction false} WeightsOne(freq: seq<nat>, x: nat)
    requires x < |freq|
    ensures Weights(freq, [x]) == multiset{freq[x]}
  {
    assert [x][1..] == [];
  }

  lemma {:induction false} PermutedSlice(h: seq<nat>, h': seq<nat>, len: nat)
    requires len < |h| && Permuted(h, h', len)
    ensures len < |h'| && multiset(Slice(h', len)) == multiset(Slice(h, len))
    ensures forall i :: len < i < |h| ==> h'[i] == h[i]
  {
  }

  lemma {:induction false} PopOk(h: seq<nat>, len: nat, freq: seq<nat>, depth: seq<nat>)
    requires 1 <= len && NodesOk(h, len + 1, freq, depth) && HeapFrom(h, len + 1, 1, freq, depth)
    ensures NodesOk(h[1 := h[len + 1]], len, freq, depth) && HeapFrom(h[1 := h[len + 1]], len, 2, freq, depth)
  {
  }

  /** The node about to be created is not in the heap. */
  lemma {:induction false} NodeFresh(t: Hist, freq: seq<nat>, dl: seq<nat>, run: seq<(nat, nat)>, now: seq<nat>,
      ord: seq<nat>)
    requires Building(t, freq, dl, run, now, ord)
    ensures |freq| == |dl| && t.base + |t.ch| !in now && forall x: nat ::
        x in now ==> x < t.base + |t.ch| && IsNode(t, x)
  {
    hide Telescopes, OrderIs, FreqOk, LeaveSorted, GreedySoFar, FathersOk, SonsOk, Sum;
  }

  lemma {:induction false} StoreAbove(h: seq<nat>, h': seq<nat>, len: nat, freq: seq<nat>, depth: seq<nat>)
    requires len < |h| == |h'| && (forall i :: 0 <= i <= len ==> h'[i] == h[i])
    requires NodesOk(h, len, freq, depth) && HeapFrom(h, len, 1, freq, depth)
    ensures NodesOk(h', len, freq, depth) && HeapFrom(h', len, 1, freq, depth) && Slice(h', len) == Slice(h, len)
  {
  }

  lemma {:induction false} TakenAreLeast(freq: seq<nat>, now: seq<nat>, left: seq<nat>, n: nat, m: nat)
    requires n < |freq| && m < |freq| && Below(now, |freq|)
    requires n in now && multiset(left) == multiset(now) - multiset{n} && m in left && multiset(now)[n] <= 1
    requires forall x: nat :: x in now ==> x < |freq| && freq[n] <= freq[x]
    requires forall x: nat :: x in left ==> x < |freq| && freq[m] <= freq[x]
    ensures LeastTwo(freq, now, n, m) && m in multiset(now) - multiset{n} && n != m
    ensures forall x: nat :: x in left ==> x in now
  {
    forall x: nat | x in multiset(now) - multiset{n} ensures x < |freq| && freq[m] <= freq[x] {
      assert x in multiset(left);
    }
    forall x: nat | x in left ensures x in now { assert x in multiset(left); }
    assert m in multiset(left);
  }

  lemma {:induction false} TwoFit(freq: seq<nat>, now: seq<nat>, n: nat, m: nat)
    requires Below(now, |freq|) && n < |freq| && m < |freq| && n in now && m in multiset(now) - multiset{n}
    ensures freq[n] + freq[m] <= Sum(freq, now)
  {
    hide Sum, Weights;
    var rest := SplitTwo(now, n, m);
    BelowPerm(now, [n, m] + rest, |freq|);
    FrontTwo(freq, n, m, rest);
    SumPerm(freq, now, [n, m] + rest);
    SumNonnegative(freq, rest);
  }

  /** The two nodes taken are the least ones, and their frequencies fit the 16-bit field of their father. */
  lemma {:induction false} MergePlan(t: Hist, freq: seq<nat>, dl: seq<nat>, run: seq<(nat, nat)>, now: seq<nat>,
      ord: seq<nat>, left: seq<nat>, n: nat, m: nat)
    requires Building(t, freq, dl, run, now, ord) && n < |freq| && m < |freq|
    requires n in now && multiset(left) == multiset(now) - multiset{n} && m in left
    requires forall x: nat :: x in now ==> x < |freq| && freq[n] <= freq[x]
    requires forall x: nat :: x in left ==> x < |freq| && freq[m] <= freq[x]
    ensures LeastTwo(freq, now, n, m) && m in multiset(now) - multiset{n} && n != m
    ensures t.base + |t.ch| !in left && m in now && freq[n] + freq[m] < 0x1_0000
  {
    hide Telescopes, OrderIs, FreqOk, LeaveSorted, GreedySoFar, FathersOk, SonsOk, Sum, LeastTwo;
    NodeFresh(t, freq, dl, run, now, ord);
    TakenAreLeast(freq, now, left, n, m);
    TwoFit(freq, now, n, m);
  }

  /** The order of the queue after a merge. */
  lemma {:induction false} RankedMerge(t: Hist, freq: seq<nat>, depth: seq<nat>, dl: seq<nat>, run: seq<(nat, nat)>,
      now: seq<nat>, ord: seq<nat>, left: seq<nat>, h: seq<nat>, len: nat, n: nat, m: nat, w: nat, depth': seq<nat>,
      now': seq<nat>)
    requires Building(t, freq, dl, run, now, ord) && Ranked(t, freq, depth, now)
    requires t.base + |t.ch| < |freq| && t.base + |t.ch| < |depth| && n < |depth| && m < |depth|
    requires FirstOf(freq, depth, now, n) && FirstOf(freq, depth, left, m)
    requires n in now && m in now && m in multiset(now) - multiset{n} && n != m
    requires 1 <= len < |h| && m == h[1] && left == Slice(h, len) && multiset(left) == multiset(now) - multiset{n}
    requires multiset(now') == multiset(Slice(h[1 := t.base + |t.ch|], len))
    requires depth' == depth[t.base + |t.ch| := ((if depth[n] >= depth[m] then depth[n] else depth[m]) + 1) % 256]
    ensures Ranked(t.(ch := t.ch + [(n, m)]), freq[t.base + |t.ch| := w], depth', now')
  {
    hide Slice, Building, Merged, Ranked, FirstOf, FathersOk, SonsOk, Telescopes, OrderIs, FreqOk, LeaveSorted,
      GreedySoFar;
    NodeFresh(t, freq, dl, run, now, ord);
    BuildingParts(t, freq, dl, run, now, ord);
    MergedNow(h, len, now, now', n, m, t.base + |t.ch|);
    forall x: nat ensures x in now' <==> x == t.base + |t.ch| || (x in now && x != n && x != m) {
      MergedMembers(now, now', n, m, t.base + |t.ch|, x);
    }
    forall x: nat | x in now && x != n ensures x in left { assert x in multiset(left); }
    RankedNext(t, freq, depth, now, left, n, m, w, depth', now');
  }

  lemma {:induction false} BuildingParts(t: Hist, freq: seq<nat>, dl: seq<nat>, run: seq<(nat, nat)>, now: seq<nat>,
      ord: seq<nat>)
    requires Building(t, freq, dl, run, now, ord)
    ensures Below(t.leaves, t.base) && Below(now, t.base + |t.ch|) && forall y :: multiset(now)[y] <= 1
  {
    hide Telescopes, OrderIs, FreqOk, LeaveSorted, GreedySoFar, FathersOk, SonsOk, Sum;
  }

  /** After a merge, in terms of the new contents of the arrays. */
  lemma {:induction false} MergeDone(t: Hist, freq: seq<nat>, dl: seq<nat>, run: seq<(nat, nat)>, now: seq<nat>,
      ord: seq<nat>, h: seq<nat>, len: nat, n: nat, m: nat,
                                     freq': seq<nat>, dl': seq<nat>, now': seq<nat>, ord': seq<nat>)
    requires Building(t, freq, dl, run, now, ord) && t.base + |t.ch| < |freq| && n < |freq| && m < |freq|
    requires LeastTwo(freq, now, n, m) && n in now && m in now && m in multiset(now) - multiset{n}
    requires 1 <= len < |h| && m == h[1] && multiset(Slice(h, len)) == multiset(now) - multiset{n}
    requires freq' == freq[t.base + |t.ch| := freq[n] + freq[m]]
    requires dl' == dl[n := t.base + |t.ch|][m := t.base + |t.ch|]
    requires multiset(now') == multiset(Slice(h[1 := t.base + |t.ch|], len)) && ord' == [m, n] + ord
    ensures Building(t.(ch := t.ch + [(n, m)]), freq', dl', run + [(freq[n], freq[m])], now', ord')
    ensures Kept(t, freq, freq', dl, dl')
  {
    hide Slice, Building, Merged, LeastTwo, Kept;
    NodeFresh(t, freq, dl, run, now, ord);
    MergedNow(h, len, now, now', n, m, t.base + |t.ch|);
    BuildStep(t, freq, dl, run, now, now', ord, n, m);
    KeptStep(t, freq, dl, n, m);
  }

  lemma {:induction false} MergedNow(h: seq<nat>, len: nat, now: seq<nat>, now': seq<nat>, n: nat, m: nat, node: nat)
    requires 1 <= len < |h| && m == h[1] && n in now && m in multiset(now) - multiset{n}
    requires multiset(Slice(h, len)) == multiset(now) - multiset{n}
    requires multiset(now') == multiset(Slice(h[1 := node], len))
    ensures Merged(now, now', n, m, node)
  {
    PutSlice(h, len, node);
  }
}
