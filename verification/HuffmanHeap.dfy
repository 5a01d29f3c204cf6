/** pqdownheap of trees.c: the priority queue of tree nodes, kept in heap[1..heap_len]. */
module HuffmanHeap {

  /** The order of the queue: by frequency, then by depth of the subtree. */
  predicate Smaller(freq: seq<nat>, depth: seq<nat>, n: nat, m: nat)
    requires n < |freq| && m < |freq| && n < |depth| && m < |depth|
  {
    freq[n] < freq[m] || (freq[n] == freq[m] && depth[n] <= depth[m])
  }

  ghost predicate NodesOk(h: seq<nat>, len: nat, freq: seq<nat>, depth: seq<nat>)
  {
    len < |h| && forall i :: 1 <= i <= len ==> h[i] < |freq| && h[i] < |depth|
  }

  /** Every node of index at least lo is smaller than its sons. */
  ghost predicate HeapFrom(h: seq<nat>, len: nat, lo: nat, freq: seq<nat>, depth: seq<nat>)
    requires NodesOk(h, len, freq, depth)
  {
    forall i {:trigger h[i]} :: 2 <= i <= len && lo <= i / 2 ==> Smaller(freq, depth, h[i / 2], h[i])
  }

  function Slice(h: seq<nat>, len: nat): (s: seq<nat>)
    requires len < |h|
    ensures |s| == len
  {
    h[1..len + 1]
  }

  /** The same nodes in some order in heap[1..len], everything else untouched. */
  ghost predicate Permuted(h: seq<nat>, h': seq<nat>, len: nat)
    requires len < |h|
  {
    && |h'| == |h| && multiset(Slice(h', len)) == multiset(Slice(h, len))
    && h'[0] == h[0] && forall i :: len < i < |h| ==> h'[i] == h[i]
  }

  lemma {:induction false} SwapPermutes(h: seq<nat>, h': seq<nat>, len: nat, i: nat, j: nat)
    requires 1 <= i <= len && 1 <= j <= len < |h|
    requires h' == h[i := h[j]][j := h[i]]
    ensures Permuted(h, h', len)
  {
    var a, b := Slice(h, len), Slice(h', len);
    assert b == a[i - 1 := a[j - 1]][j - 1 := a[i - 1]];
    ExchangeMultiset(a, b, i - 1, j - 1);
  }

  lemma {:induction false} ExchangeMultiset(a: seq<nat>, b: seq<nat>, i: nat, j: nat)
    requires i < |a| && j < |a| && b == a[i := a[j]][j := a[i]]
    ensures multiset(b) == multiset(a)
  {
  }

  /** While the node at k is on its way down: all other nodes at or below lo are in order, and so are
      the sons of k with the father of k. */
  ghost predicate Sifting(s: seq<nat>, len: nat, lo: nat, k: nat, freq: seq<nat>, depth: seq<nat>)
    requires NodesOk(s, len, freq, depth)
  {
    && 1 <= lo <= k <= len
    && (forall i {:trigger s[i]} :: 2 <= i <= len && lo <= i / 2 && i / 2 != k ==> Smaller(freq, depth, s[i / 2], s[i]))
    && (forall i {:trigger s[i]} :: 2 <= i <= len && i / 2 == k && lo <= k / 2 ==>
                                        Smaller(freq, depth, s[k / 2], s[i]))
  }

  lemma {:induction false} SiftStep(s: seq<nat>, s': seq<nat>, len: nat, lo: nat, k: nat, j: nat, freq: seq<nat>,
      depth: seq<nat>)
    requires 1 <= lo && NodesOk(s, len, freq, depth) && Sifting(s, len, lo, k, freq, depth)
    requires 2 <= j <= len && j / 2 == k && s' == s[k := s[j]][j := s[k]]
    requires !Smaller(freq, depth, s[k], s[j])
    requires forall i {:trigger s[i]} :: 2 <= i <= len && i / 2 == k ==> Smaller(freq, depth, s[j], s[i])
    ensures NodesOk(s', len, freq, depth) && Sifting(s', len, lo, j, freq, depth)
  {
    assert Smaller(freq, depth, s[j], s[k]);
    hide Smaller;
    forall i | 2 <= i <= len && lo <= i / 2 && i / 2 != j ensures Smaller(freq, depth, s'[i / 2], s'[i]) {
      if i == k {
        assert Smaller(freq, depth, s[k / 2], s[j]);
      } else if i / 2 == k {
        assert s'[i / 2] == s[j];
      } else {
        assert Smaller(freq, depth, s[i / 2], s[i]);
      }
    }
    forall i | 2 <= i <= len && i / 2 == j ensures Smaller(freq, depth, s'[j / 2], s'[i]) {
      assert Smaller(freq, depth, s[i / 2], s[i]);
    }
  }

  lemma {:induction false} SiftDone(s: seq<nat>, len: nat, lo: nat, k: nat, freq: seq<nat>, depth: seq<nat>)
    requires 1 <= lo && NodesOk(s, len, freq, depth) && Sifting(s, len, lo, k, freq, depth)
    requires forall i {:trigger s[i]} :: 2 <= i <= len && i / 2 == k ==> Smaller(freq, depth, s[k], s[i])
    ensures HeapFrom(s, len, lo, freq, depth)
  {
  }

  method SmallestSon(heap: array<nat>, len: nat, k: nat, freq: array<nat>, depth: array<nat>,
      ghost s: seq<nat>) returns (j: nat)
    requires len < heap.Length && 1 <= k && 2 * k <= len
    requires |s| == heap.Length && NodesOk(s, len, freq[..], depth[..])
    requires forall i :: 1 <= i <= len && i != k ==> heap[i] == s[i]
    ensures 2 <= j <= len && j / 2 == k
    ensures forall i {:trigger s[i]} :: 2 <= i <= len && i / 2 == k ==> Smaller(freq[..], depth[..], s[j], s[i])
  {
    j := 2 * k;
    assert heap[j] == s[j];
    if j < len {
      assert heap[j + 1] == s[j + 1];
      if Smaller(freq[..], depth[..], heap[j + 1], heap[j]) { j := j + 1; }
    }
  }

  /** Moves heap[lo] down until the heap property holds from lo on. */
  method PqDownHeap(heap: array<nat>, len: nat, freq: array<nat>, depth: array<nat>, lo: nat)
    requires heap != freq && heap != depth && 1 <= lo <= len < heap.Length
    requires NodesOk(heap[..], len, freq[..], depth[..]) && HeapFrom(heap[..], len, lo + 1, freq[..], depth[..])
    modifies heap
    ensures Permuted(old(heap[..]), heap[..], len)
    ensures NodesOk(heap[..], len, freq[..], depth[..]) && HeapFrom(heap[..], len, lo, freq[..], depth[..])
  {
    hide Permuted, Sifting, Smaller, HeapFrom, NodesOk;
    var v, k := heap[lo], lo;
    ghost var h, s := heap[..], heap[..];        // s is the heap with v put in its hole
    ghost var f, d := freq[..], depth[..];
    StartSift(h, len, lo, f, d);
    while 2 * k <= len
      invariant lo <= k <= len && |s| == heap.Length && s == heap[..][k := v]
      invariant freq[..] == f && depth[..] == d
      invariant Permuted(h, s, len) && NodesOk(s, len, f, d) && Sifting(s, len, lo, k, f, d)
      decreases len - k
    {
      var j := SmallestSon(heap, len, k, freq, depth, s);
      InRange(s, len, k, f, d);
      InRange(s, len, j, f, d);
      assert heap[j] == s[j];
      if Smaller(freq[..], depth[..], v, heap[j]) {
        Transitive(s, len, k, j, f, d);
        SiftDone(s, len, lo, k, f, d);
        heap[k] := v;
        assert heap[..] == s;
        return;
      }
      ghost var s' := s[k := s[j]][j := s[k]];
      SwapPermutes(s, s', len, k, j);
      PermutedTrans(h, s, s', len);
      SiftStep(s, s', len, lo, k, j, f, d);
      heap[k] := heap[j];
      k := j;
      s := s';
      assert s == heap[..][k := v];
    }
    SiftDone(s, len, lo, k, f, d);
    heap[k] := v;
    assert heap[..] == s;
  }

  lemma {:induction false} StartSift(h: seq<nat>, len: nat, lo: nat, freq: seq<nat>, depth: seq<nat>)
    requires 1 <= lo <= len && NodesOk(h, len, freq, depth) && HeapFrom(h, len, lo + 1, freq, depth)
    ensures Permuted(h, h, len) && Sifting(h, len, lo, lo, freq, depth)
  {
  }

  lemma {:induction false} InRange(s: seq<nat>, len: nat, i: nat, freq: seq<nat>, depth: seq<nat>)
    requires NodesOk(s, len, freq, depth) && 1 <= i <= len
    ensures i < |s| && s[i] < |freq| && s[i] < |depth|
  {
  }

  lemma {:induction false} Transitive(s: seq<nat>, len: nat, k: nat, j: nat, freq: seq<nat>, depth: seq<nat>)
    requires NodesOk(s, len, freq, depth) && 1 <= k <= len && 2 <= j <= len && Smaller(freq, depth, s[k], s[j])
    requires forall i {:trigger s[i]} :: 2 <= i <= len && i / 2 == k ==> Smaller(freq, depth, s[j], s[i])
    ensures forall i {:trigger s[i]} :: 2 <= i <= len && i / 2 == k ==> Smaller(freq, depth, s[k], s[i])
  {
  }

  lemma {:induction false} PermutedTrans(h: seq<nat>, s: seq<nat>, t: seq<nat>, len: nat)
    requires len < |h| && Permuted(h, s, len) && Permuted(s, t, len)
    ensures Permuted(h, t, len)
  {
  }

  /** The root of the heap has the least frequency. */
  lemma {:induction false} RootIsLeast(h: seq<nat>, len: nat, freq: seq<nat>, depth: seq<nat>, i: nat)
    requires NodesOk(h, len, freq, depth) && HeapFrom(h, len, 1, freq, depth) && 1 <= i <= len
    ensures Smaller(freq, depth, h[1], h[i])
  {
    if i > 1 {
      RootIsLeast(h, len, freq, depth, i / 2);
      assert Smaller(freq, depth, h[i / 2], h[i]);
    }
  }
}
