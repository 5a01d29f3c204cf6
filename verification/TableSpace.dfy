/** The space that decoding tables for a set of code lengths take (inftrees.h): a root table, and a sub-table for every
    root prefix with longer codes, as large as the longest of them needs. */
module TableSpace {
  import opened Bits
  import opened Canonical

  /** The codes of up to l bits use up all numbers that start with the root bits q. */
  predicate UsedUp(lens: seq<nat>, root: nat, q: nat, l: nat)
    requires root <= MAX_BITS && l <= MAX_BITS
  {
    Pos(q + 1, root) <= End(lens, l)
  }

  /** The least length, from l on, up to which codes use up the root bits q; MAX_BITS + 1 if there is none. */
  function Deepest(lens: seq<nat>, root: nat, q: nat, l: nat): (m: nat)
    requires root <= MAX_BITS && l <= MAX_BITS + 1
    ensures l <= m <= MAX_BITS + 1
    ensures m <= MAX_BITS ==> UsedUp(lens, root, q, m)
    ensures forall i: nat :: l <= i < m ==> !UsedUp(lens, root, q, i)
    decreases MAX_BITS + 1 - l
  {
    if l > MAX_BITS || UsedUp(lens, root, q, l) then l else Deepest(lens, root, q, l + 1)
  }

  /** The index bits of the sub-table for the root bits q; zero for none. */
  function SubBits(lens: seq<nat>, root: nat, q: nat): (b: nat)
    requires root <= MAX_BITS
    ensures root + b <= MAX_BITS
  {
    var m := Deepest(lens, root, q, root);
    if m > MAX_BITS then 0 else m - root
  }

  function SubSize(lens: seq<nat>, root: nat, q: nat): (n: nat)
    requires root <= MAX_BITS
  {
    if SubBits(lens, root, q) == 0 then 0 else Pow2(SubBits(lens, root, q))
  }

  /** The root table and the sub-tables for the first k root prefixes. */
  function SizeTo(lens: seq<nat>, root: nat, k: nat): (n: nat)
    requires root <= MAX_BITS
  {
    if k == 0 then Pow2(root) else SizeTo(lens, root, k - 1) + SubSize(lens, root, k - 1)
  }

  function TableSize(lens: seq<nat>, root: nat): (n: nat)
    requires root <= MAX_BITS
  {
    SizeTo(lens, root, Pow2(root))
  }

  // ------------------------------------------------------------------ what the sizes are

  lemma {:induction false} BitsAre(lens: seq<nat>, root: nat, q: nat, b: nat)
    requires root + b <= MAX_BITS && UsedUp(lens, root, q, root + b)
    requires forall l: nat :: root <= l < root + b ==> !UsedUp(lens, root, q, l)
    ensures SubBits(lens, root, q) == b
  {
    hide UsedUp;
    var m := Deepest(lens, root, q, root);
  }

  lemma {:induction false} EndMono(lens: seq<nat>, l: nat, m: nat)
    requires l <= m <= MAX_BITS
    ensures End(lens, l) <= End(lens, m)
  {
    hide Pow2, NextCode, Used;
    if l < m {
      StartMono(lens, l, m);
      MulMono(NextCode(lens, m), NextCode(lens, m) + Used(lens, m), Unit(m));
    }
  }

  lemma {:induction false} PosMono(p: nat, q: nat, l: nat)
    requires p <= q && l <= MAX_BITS
    ensures Pos(p, l) <= Pos(q, l)
  {
    MulMono(p, q, Unit(l));
  }

  /** Prefixes used up by the root table itself take no more space. */
  lemma {:induction false} NoSubTables(lens: seq<nat>, root: nat, k: nat)
    requires root <= MAX_BITS && forall q: nat :: q < k ==> SubBits(lens, root, q) == 0
    ensures SizeTo(lens, root, k) == Pow2(root)
    decreases k
  {
    hide SubBits, Pow2;
    if k > 0 { NoSubTables(lens, root, k - 1); }
  }

  lemma {:induction false} RootOnly(lens: seq<nat>, root: nat, k: nat)
    requires root <= MAX_BITS && Pos(k, root) <= End(lens, root)
    ensures SizeTo(lens, root, k) == Pow2(root)
  {
    hide Pow2, Pos, End;
    forall q: nat | q < k ensures SubBits(lens, root, q) == 0 {
      PosMono(q + 1, k, root);
      BitsAre(lens, root, q, 0);
    }
    NoSubTables(lens, root, k);
  }

  /** Without codes longer than root there is only the root table. */
  lemma {:induction false} AllShort(lens: seq<nat>, root: nat)
    requires root <= MAX_BITS && forall l: nat :: root < l <= MAX_BITS ==> Count(lens, l) == 0
    ensures TableSize(lens, root) == Pow2(root)
  {
    hide Pow2, Pos, End;
    forall q: nat | q < Pow2(root) ensures SubBits(lens, root, q) == 0 {
      EndSame(lens, root, if Deepest(lens, root, q, root) <= MAX_BITS then Deepest(lens, root, q, root) else root);
    }
    NoSubTables(lens, root, Pow2(root));
  }

  lemma {:induction false} EndSame(lens: seq<nat>, l: nat, m: nat)
    requires l <= m <= MAX_BITS && forall i: nat :: l < i <= m ==> Count(lens, i) == 0
    ensures End(lens, m) == End(lens, l)
    decreases m
  {
    hide Pow2, CountTo;
    if l < m {
      EndSame(lens, l, m - 1);
      StartIsEnd(lens, m);
    }
  }

  lemma {:induction false} SizeGrows(lens: seq<nat>, root: nat, j: nat, k: nat)
    requires root <= MAX_BITS && j <= k
    ensures SizeTo(lens, root, j) <= SizeTo(lens, root, k)
    decreases k
  {
    hide SubSize, Pow2;
    if j < k { SizeGrows(lens, root, j, k - 1); }
  }

  /** The sub-table is just deep enough: some code with the root bits q has that many bits more, and none has more. */
  lemma {:induction false} SubBitsMeans(lens: seq<nat>, root: nat, q: nat)
    requires Complete(lens) && root <= MAX_BITS && q < Pow2(root)
    ensures root + SubBits(lens, root, q) <= MAX_BITS
    ensures forall s: nat, r: nat :: Owns(lens, s, r) && Pos(q, root) <= r < Pos(q + 1, root) ==>
        lens[s] <= root + SubBits(lens, root, q)
    ensures SubBits(lens, root, q) > 0 ==>
        exists s: nat, r: nat :: Owns(lens, s, r) && Pos(q, root) <= r < Pos(q + 1, root)
                                 && lens[s] == root + SubBits(lens, root, q)
  {
    hide Pow2, NextCode, CountTo, Left, Lo, Hi, End, Pos;
    var b := SubBits(lens, root, q);
    Covered(lens, root, q);
    forall s: nat, r: nat | Owns(lens, s, r) && Pos(q, root) <= r < Pos(q + 1, root) ensures lens[s] <= root + b {
      OwnerShort(lens, s, r, root + b);
    }
    if b > 0 {
      LastOf(q, root);
      var r := Pos(q + 1, root) - 1;
      var s := CompleteOwner(lens, r);
      OwnerShort(lens, s, r, root + b);
      assert !UsedUp(lens, root, q, root + b - 1);
      OwnerLong(lens, s, r, root + b - 1);
    }
  }

  lemma {:induction false} LastOf(q: nat, root: nat)
    requires root <= MAX_BITS && q < Pow2(root)
    ensures Pos(q, root) < Pos(q + 1, root) <= Pow2(MAX_BITS)
  {
    hide Pow2;
    Distribute(q, 1, Unit(root));
    Pow2Add(root, MAX_BITS - root);
    MulMono(q + 1, Pow2(root), Unit(root));
  }

  /** In a complete code every prefix is used up by the codes of the length found. */
  lemma {:induction false} Covered(lens: seq<nat>, root: nat, q: nat)
    requires Complete(lens) && root <= MAX_BITS && q < Pow2(root)
    ensures root + SubBits(lens, root, q) <= MAX_BITS && UsedUp(lens, root, q, root + SubBits(lens, root, q))
  {
    hide Pow2, Left, End, Pos;
    EndBound(lens, MAX_BITS);
    LastOf(q, root);
    assert UsedUp(lens, root, q, MAX_BITS);
  }

  lemma {:induction false} OwnerShort(lens: seq<nat>, s: nat, r: nat, l: nat)
    requires Owns(lens, s, r) && l <= MAX_BITS && r < End(lens, l)
    ensures lens[s] <= l
  {
    hide Pow2, NextCode, CountTo;
    IntervalWithin(lens, s);
    if l < lens[s] { StartMono(lens, l, lens[s]); }
  }

  lemma {:induction false} OwnerLong(lens: seq<nat>, s: nat, r: nat, l: nat)
    requires Owns(lens, s, r) && l <= MAX_BITS && End(lens, l) <= r
    ensures lens[s] > l
  {
    hide Pow2, NextCode, CountTo;
    IntervalWithin(lens, s);
    if lens[s] <= l { EndMono(lens, lens[s], l); }
  }

  // ------------------------------------------------------------------ the size of the root table

  /** The longest used length up to l, zero if there is none. */
  function Longest(lens: seq<nat>, l: nat): (m: nat)
    ensures m <= l && (m > 0 ==> Count(lens, m) > 0) && forall i: nat :: m < i <= l ==> Count(lens, i) == 0
  {
    if l == 0 || Count(lens, l) > 0 then l else Longest(lens, l - 1)
  }

  /** The shortest used length from l on, at most m. */
  function Shortest(lens: seq<nat>, l: nat, m: nat): (s: nat)
    requires l <= m
    ensures l <= s <= m && (s < m ==> Count(lens, s) > 0) && forall i: nat :: l <= i < s ==> Count(lens, i) == 0
    decreases m - l
  {
    if l == m || Count(lens, l) > 0 then l else Shortest(lens, l + 1, m)
  }

  /** The bits asked for, but not more than the longest and not less than the shortest code. */
  function RootBits(lens: seq<nat>, bits: nat): (root: nat)
  {
    var max := Longest(lens, MAX_BITS);
    if max == 0 then 1
    else
      var min := Shortest(lens, 1, max);
      var root := if bits > max then max else bits;
      if root < min then min else root
  }
}
