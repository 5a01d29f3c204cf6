/** The search of deflate_rle for runs of one byte. */
module RunFinder {
  import opened BitWriter
  import opened History

  /** The j-th byte from at on is c. */
  predicate IsAt(w: seq<Byte>, at: nat, c: Byte, j: nat)
  {
    at + j < |w| && w[at + j] == c
  }

  /** How many bytes from the i-th on, counted from at, are c; 258 at most. */
  function RunFrom(w: seq<Byte>, at: nat, c: Byte, i: nat): (n: nat)
    decreases MAX_MATCH - i
  {
    if i >= MAX_MATCH || !IsAt(w, at, c, i) then i else RunFrom(w, at, c, i + 1)
  }

  lemma {:induction false} RunSteps(w: seq<Byte>, at: nat, c: Byte)
    requires at + MAX_MATCH < |w|
    ensures RunFrom(w, at, c, 0) < 3 <==> !(c == w[at] && c == w[at + 1] && c == w[at + 2])
  {
    assert RunFrom(w, at, c, 0) == if w[at] != c then 0 else RunFrom(w, at, c, 1);
    assert RunFrom(w, at, c, 1) == if w[at + 1] != c then 1 else RunFrom(w, at, c, 2);
    assert RunFrom(w, at, c, 2) == if w[at + 2] != c then 2 else RunFrom(w, at, c, 3);
    RunGrows(w, at, c, 3);
  }

  lemma {:induction false} RunGrows(w: seq<Byte>, at: nat, c: Byte, i: nat)
    requires i <= MAX_MATCH
    ensures i <= RunFrom(w, at, c, i) <= MAX_MATCH
    decreases MAX_MATCH - i
  {
    if i < MAX_MATCH { RunGrows(w, at, c, i + 1); }
  }

  lemma {:induction false} RunIs(w: seq<Byte>, at: nat, c: Byte, i: nat, n: nat)
    requires i <= n <= MAX_MATCH && (forall j: nat :: j < n ==> IsAt(w, at, c, j))
    requires n == MAX_MATCH || !IsAt(w, at, c, n)
    ensures RunFrom(w, at, c, i) == n
    decreases n - i
  {
    if i < n {
      assert IsAt(w, at, c, i);
      RunIs(w, at, c, i + 1, n);
    }
  }

  lemma {:induction false} RunAt(w: seq<Byte>, at: nat, c: Byte, i: nat, j: nat)
    requires i <= j < RunFrom(w, at, c, i) && i <= MAX_MATCH
    ensures IsAt(w, at, c, j)
    decreases MAX_MATCH - i
  {
    if i < j { RunAt(w, at, c, i + 1, j); }
  }

  /** Counts on from the third byte, eight at a time. */
  method CountRun(window: array<Byte>, at: nat, c: Byte) returns (n: nat)
    requires at + MAX_MATCH < window.Length && window[at] == window[at + 1] == window[at + 2] == c
    ensures n == RunFrom(window[..], at, c, 0) && 3 <= n <= MAX_MATCH
  {
    n := 2;
    var more := true;
    while more
      invariant 2 <= n <= MAX_MATCH && (more ==> n < MAX_MATCH && (n - 2) % 8 == 0) && (!more ==> n > 2)
      invariant forall j: nat :: j < n || (j == n && more) ==> IsAt(window[..], at, c, j)
      invariant !more && n < MAX_MATCH ==> !IsAt(window[..], at, c, n)
      decreases MAX_MATCH - n, more
    {
      n, more := CountEight(window, at, c, n);
      if n >= MAX_MATCH { more := false; }
    }
    RunIs(window[..], at, c, 0, n);
  }

  /** One round of at most eight comparisons. */
  method CountEight(window: array<Byte>, at: nat, c: Byte, n0: nat) returns (n: nat, more: bool)
    requires at + MAX_MATCH < window.Length && n0 + 8 <= MAX_MATCH
    requires forall j: nat :: j <= n0 ==> IsAt(window[..], at, c, j)
    ensures n0 < n <= n0 + 8 && (more ==> n == n0 + 8)
    ensures forall j: nat :: j < n || (j == n && more) ==> IsAt(window[..], at, c, j)
    ensures !more ==> !IsAt(window[..], at, c, n)
  {
    var k: nat := 0;
    n, more := n0, true;
    while k < 8 && more
      invariant 0 <= k <= 8 && n == n0 + k && (k == 0 ==> more)
      invariant forall j: nat :: j < n || (j == n && more) ==> IsAt(window[..], at, c, j)
      invariant !more ==> !IsAt(window[..], at, c, n)
    {
      n := n + 1;
      more := c == window[at + n];
      k := k + 1;
    }
  }
}
