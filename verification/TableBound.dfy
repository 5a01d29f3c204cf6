/** Why ENOUGH is enough (inftrees.h): with at most 286 literal/length codes and nine root bits the tables take at most
    852 entries, with at most 30 distance codes and six root bits at most 592.

    Each sub-table has at most one unit per code, but for the lengths at which a sub-table is cut: there the part of the
    root prefix still free at each length counts once more, and it is less than the whole prefix. */
module TableBound {
  import opened Bits
  import opened Canonical
  import opened TableSpace
  import opened InflateTable

  /** How many of the strings of l bits begin with a code of up to l bits. */
  function Taken(lens: seq<nat>, l: nat): (n: nat)
  {
    NextCode(lens, l) + Used(lens, l)
  }

  lemma {:induction false} TakenStep(lens: seq<nat>, l: nat)
    requires l > 0
    ensures Taken(lens, l) == 2 * Taken(lens, l - 1) + Count(lens, l)
    ensures Taken(lens, 0) == 0
  {
  }

  // ------------------------------------------------------------------ counting symbols

  /** How many of the first n symbols have a length from 1 to m. */
  function CodedTo(lens: seq<nat>, m: nat, n: nat): (k: nat)
    requires n <= |lens|
  {
    if m == 0 then 0 else CodedTo(lens, m - 1, n) + CountTo(lens, m, n)
  }

  lemma {:induction false} CodedStep(lens: seq<nat>, m: nat, n: nat)
    requires 0 < n <= |lens|
    ensures CodedTo(lens, m, n) == CodedTo(lens, m, n - 1) + if 0 < lens[n - 1] <= m then 1 else 0
  {
    if m > 0 { CodedStep(lens, m - 1, n); }
  }

  lemma {:induction false} CodedFit(lens: seq<nat>, m: nat, n: nat)
    requires n <= |lens|
    ensures CodedTo(lens, m, n) <= n
    decreases n
  {
    if n > 0 {
      CodedStep(lens, m, n);
      CodedFit(lens, m, n - 1);
    } else {
      NoneCoded(lens, m);
    }
  }

  lemma {:induction false} NoneCoded(lens: seq<nat>, m: nat)
    ensures CodedTo(lens, m, 0) == 0
  {
    if m > 0 { NoneCoded(lens, m - 1); }
  }

  /** How many symbols have codes of up to m bits. */
  function Coded(lens: seq<nat>, m: nat): (k: nat)
  {
    CodedTo(lens, m, |lens|)
  }

  /** One or two short codes leave much room. */
  lemma {:induction false} FewShort(lens: seq<nat>, l: nat)
    ensures Coded(lens, l) == 0 ==> Taken(lens, l) == 0
    ensures Coded(lens, l) == 1 ==> 2 * Taken(lens, l) <= Pow2(l)
    ensures Coded(lens, l) == 2 && Taken(lens, l) < Pow2(l) ==> 4 * Taken(lens, l) <= 3 * Pow2(l)
  {
    hide CountTo, NextCode;
    if l > 0 {
      TakenStep(lens, l);
      FewShort(lens, l - 1);
      if l > 1 { assert Pow2(l) == 4 * Pow2(l - 2); }
    } else {
      assert NextCode(lens, 0) == 0 by { TakenStep(lens, 1); }
    }
  }

  /** Every root prefix left over needs at least two codes. */
  lemma {:induction false} ManyLong(lens: seq<nat>, root: nat, c: nat)
    requires c > 0 && Left(lens, root + c) >= 0
    ensures Coded(lens, root + c) + Left(lens, root + c) >= Coded(lens, root) + 2 * Left(lens, root)
    decreases c
  {
    hide CountTo;
    LeftStaysNegative(lens, root + c - 1, root + c);
    if c > 1 { ManyLong(lens, root, c - 1); }
  }

  /** When nothing is left there are no longer codes. */
  lemma {:induction false} NoneLonger(lens: seq<nat>, l: nat, m: nat)
    requires l <= m && Left(lens, l) == 0 && Left(lens, m) >= 0
    ensures Coded(lens, m) == Coded(lens, l) && Left(lens, m) == 0
    decreases m
  {
    hide CountTo;
    if l < m {
      LeftStaysNegative(lens, m - 1, m);
      NoneLonger(lens, l, m - 1);
    }
  }

  // ------------------------------------------------------------------ adding up the sub-tables

  /** How many root prefixes are used up by codes of c bits more. */
  function Whole(lens: seq<nat>, root: nat, c: nat): (n: nat)
  {
    Shr(Taken(lens, root + c), c)
  }

  lemma {:induction false} WholeIs(lens: seq<nat>, root: nat, c: nat, q: nat)
    requires root + c <= MAX_BITS
    ensures UsedUp(lens, root, q, root + c) <==> q < Whole(lens, root, c)
  {
    hide NextCode, Used, Pow2;
    var w, d, u := Taken(lens, root + c), Pow2(c), Unit(root + c);
    Pow2Add(c, MAX_BITS - root - c);
    MulAdd(q + 1, d, 0, u);
    DivModIdentity(w, d);
    var x := Whole(lens, root, c);
    if q < x {
      MulMono(q + 1, x, d);
      MulMono((q + 1) * d, w, u);
    } else {
      Distribute(x, 1, d);
      MulMono(x + 1, q + 1, d);
      MulMono(w + 1, (q + 1) * d, u);
      Distribute(w, 1, u);
    }
  }

  lemma {:induction false} WholeMono(lens: seq<nat>, root: nat, b: nat, c: nat)
    requires b <= c && root + c <= MAX_BITS
    ensures Whole(lens, root, b) <= Whole(lens, root, c)
  {
    hide Whole, Pos, End;
    var q := Whole(lens, root, c);
    WholeIs(lens, root, b, q);
    WholeIs(lens, root, c, q);
    EndMono(lens, root + b, root + c);
  }

  /** Prefixes used up by c bits and not by fewer have sub-tables of c bits. */
  lemma {:induction false} OfBits(lens: seq<nat>, root: nat, c: nat, q: nat)
    requires 0 < c && root + c <= MAX_BITS && Whole(lens, root, c - 1) <= q < Whole(lens, root, c)
    ensures SubSize(lens, root, q) == Pow2(c)
  {
    hide Whole, UsedUp, SubBits, Pow2;
    WholeIs(lens, root, c, q);
    forall l: nat | root <= l < root + c ensures !UsedUp(lens, root, q, l) {
      WholeIs(lens, root, l - root, q);
      WholeMono(lens, root, l - root, c - 1);
    }
    BitsAre(lens, root, q, c);
  }

  lemma {:induction false} SameSizes(lens: seq<nat>, root: nat, a: nat, b: nat, p: nat)
    requires root <= MAX_BITS && a <= b && forall q: nat :: a <= q < b ==> SubSize(lens, root, q) == p
    ensures (b - a) * p >= 0 && SizeTo(lens, root, b) == SizeTo(lens, root, a) + (b - a) * p
    decreases b
  {
    hide SubSize, Pow2;
    MulMono(0, b - a, p);
    if a < b {
      SameSizes(lens, root, a, b - 1, p);
      assert (b - a) * p == (b - 1 - a) * p + p by { Distribute(b - 1 - a, 1, p); }
    }
  }

  lemma {:induction false} SizeStep(lens: seq<nat>, root: nat, c: nat)
    requires 0 < c && root + c <= MAX_BITS
    ensures var x, x' := Whole(lens, root, c), Whole(lens, root, c - 1);
            (x - x') * Pow2(c) >= 0 && SizeTo(lens, root, x) == SizeTo(lens, root, x') + (x - x') * Pow2(c)
  {
    hide Whole, SubSize, Pow2;
    WholeMono(lens, root, c - 1, c);
    var x, x' := Whole(lens, root, c), Whole(lens, root, c - 1);
    forall q: nat | x' <= q < x ensures SubSize(lens, root, q) == Pow2(c) { OfBits(lens, root, c, q); }
    SameSizes(lens, root, x', x, Pow2(c));
  }

  /** What two successive lengths have to do with each other. */
  lemma {:induction false} CutStep(w: nat, w': nat, n: nat, c: nat)
    requires 0 < c && w == 2 * w' + n
    ensures 0 <= w' % Pow2(c - 1) < Pow2(c - 1) && 0 <= w % Pow2(c) && Pow2(c) == 2 * Pow2(c - 1)
    ensures (Shr(w, c) - Shr(w', c - 1)) * Pow2(c) + w % Pow2(c) == n + 2 * (w' % Pow2(c - 1))
  {
    var d, x, x' := Pow2(c - 1), Shr(w, c), Shr(w', c - 1);
    DivModIdentity(w, Pow2(c));
    DivModIdentity(w', d);
    Distribute(x, x', Pow2(c));
    assert x' * Pow2(c) == 2 * (x' * d);
  }

  /** The bound on the tables for the prefixes used up by c bits. */
  lemma {:induction false} SizeBound(lens: seq<nat>, root: nat, c: nat)
    requires root + c <= MAX_BITS
    ensures Taken(lens, root + c) % Pow2(c) >= 0
    ensures SizeTo(lens, root, Whole(lens, root, c)) + Taken(lens, root + c) % Pow2(c) + Coded(lens, root) + c + 1
         <= Pow2(root) + Coded(lens, root + c) + Pow2(c)
    decreases c
  {
    hide CountTo, NextCode, SubSize, SizeTo;
    if c == 0 {
      hide Pow2;
      WholeNone(lens, root);
    } else {
      var w, w' := Taken(lens, root + c), Taken(lens, root + c - 1);
      SizeBound(lens, root, c - 1);
      TakenStep(lens, root + c);
      CutStep(w, w', Count(lens, root + c), c);
      SizeStep(lens, root, c);
      hide Pow2;
    }
  }

  lemma {:induction false} WholeNone(lens: seq<nat>, root: nat)
    requires root <= MAX_BITS
    ensures Pow2(0) == 1 && Taken(lens, root) % Pow2(0) == 0 && Whole(lens, root, 0) == Taken(lens, root)
    ensures SizeTo(lens, root, Whole(lens, root, 0)) == Pow2(root)
  {
    hide NextCode, Used;
    RootOnly(lens, root, Taken(lens, root));
  }

  /** All sizes are powers of two, and the root table has two entries at least. */
  lemma {:induction false} SizeEven(lens: seq<nat>, root: nat, k: nat)
    requires 0 < root <= MAX_BITS
    ensures SizeTo(lens, root, k) % 2 == 0
  {
    hide SubBits, Pow2;
    if k > 0 {
      SizeEven(lens, root, k - 1);
      var b := SubBits(lens, root, k - 1);
      if b > 0 { PowerEven(b); }
    } else {
      PowerEven(root);
    }
  }

  lemma {:induction false} PowerEven(n: nat)
    requires n > 0
    ensures Pow2(n) % 2 == 0
  {
    hide Pow2;
    Pow2Double(n - 1);
    TwiceEven(Pow2(n - 1));
  }

  lemma {:induction false} TwiceEven(h: nat)
    ensures 2 * h % 2 == 0
  {
  }

  /** The whole table of a complete code. */
  lemma {:induction false} WholeTable(lens: seq<nat>, root: nat)
    requires Complete(lens) && 0 < root < MAX_BITS
    ensures TableSize(lens, root) % 2 == 0
    ensures TableSize(lens, root) + Coded(lens, root) + MAX_BITS - root + 1
         <= Pow2(root) + Coded(lens, MAX_BITS) + Pow2(MAX_BITS - root)
    ensures Coded(lens, MAX_BITS) >= Coded(lens, root) + 2 * Left(lens, root)
    ensures Left(lens, root) == 0 ==> Coded(lens, MAX_BITS) == Coded(lens, root)
    ensures Coded(lens, MAX_BITS) <= |lens| && Left(lens, root) == Pow2(root) - Taken(lens, root) >= 0
  {
    hide NextCode, SizeTo, Left, CodedTo, Pow2;
    var c := MAX_BITS - root;
    LeftIs(lens, MAX_BITS);
    LeftIs(lens, root);
    LeftStaysNegative(lens, root, MAX_BITS);
    Pow2Add(root, c);
    ShrOf(Pow2(root), c, 0);
    Pow2Mono(0, c);
    assert Whole(lens, root, c) == Pow2(root);
    SizeBound(lens, root, c);
    SizeEven(lens, root, Pow2(root));
    ManyLong(lens, root, c);
    CodedFit(lens, MAX_BITS, |lens|);
    if Left(lens, root) == 0 { NoneLonger(lens, root, MAX_BITS); }
  }

  // ------------------------------------------------------------------ the two constants

  lemma {:induction false} Powers()
    ensures Pow2(1) == 2 && Pow2(6) == 64 && Pow2(9) == 512
  {
    Pow2Values();
  }

  lemma {:induction false} LensTables(lens: seq<nat>)
    requires Complete(lens) && |lens| <= 286
    ensures TableSize(lens, 9) <= 852 && Taken(lens, 9) > 0
  {
    hide Complete, Pow2, TableSize, Coded, Taken, Left;
    Powers();
    WholeTable(lens, 9);
    FewShort(lens, 9);
  }

  lemma {:induction false} DistTables(lens: seq<nat>)
    requires Complete(lens) && |lens| <= 30
    ensures TableSize(lens, 6) <= 592 && Taken(lens, 6) > 0
  {
    hide Complete, Pow2, TableSize, Coded, Taken, Left;
    Powers();
    WholeTable(lens, 6);
    FewShort(lens, 6);
  }

  lemma {:induction false} NoneTaken(lens: seq<nat>, l: nat)
    requires forall i: nat :: 0 < i <= l ==> Count(lens, i) == 0
    ensures Taken(lens, l) == 0
  {
    hide CountTo;
    if l > 0 { NoneTaken(lens, l - 1); }
  }

  /** The size of the root table as inflate_table chooses it. */
  lemma {:induction false} RootIs(lens: seq<nat>, bits: nat)
    requires 0 < bits <= MAX_BITS
    ensures RootBits(lens, bits) <= MAX_BITS
    ensures Longest(lens, MAX_BITS) <= bits ==>
        RootBits(lens, bits) <= bits && TableSize(lens, RootBits(lens, bits)) == Pow2(RootBits(lens, bits))
    ensures Longest(lens, MAX_BITS) > bits && Taken(lens, bits) > 0 ==> RootBits(lens, bits) == bits
  {
    hide CountTo, NextCode, Used, Pow2, TableSize;
    var max := Longest(lens, MAX_BITS);
    if max <= bits {
      AllShort(lens, RootBits(lens, bits));
    } else if Taken(lens, bits) > 0 && Shortest(lens, 1, max) > bits {
      NoneTaken(lens, bits);
    }
  }

  /** Lengths that are not refused are complete, or those of a single one-bit code or of none. */
  lemma {:induction false} NotRefused(kind: Kind, lens: seq<nat>)
    requires LensOk(lens) && kind != CODES && !Refused(kind, lens)
    ensures Complete(lens) || Longest(lens, MAX_BITS) <= 1
  {
    hide CountTo, Left;
    var max := Longest(lens, MAX_BITS);
    if max > 0 { var s := SomeOfLength(lens, max); }
  }

  /** The space set aside for the literal/length table suffices. */
  lemma {:induction false} LensSuffice(lens: seq<nat>)
    requires LensOk(lens) && !Refused(LENS, lens) && |lens| <= 286
    ensures RootBits(lens, 9) <= MAX_BITS && TableSize(lens, RootBits(lens, 9)) <= ENOUGH_LENS
  {
    hide Complete, Pow2, TableSize, Taken, Longest, Shortest, RootBits, Refused;
    Powers();
    RootIs(lens, 9);
    NotRefused(LENS, lens);
    if Longest(lens, MAX_BITS) > 9 { LensTables(lens); } else { Pow2Mono(RootBits(lens, 9), 9); }
  }

  /** The space set aside for the distance table suffices. */
  lemma {:induction false} DistsSuffice(lens: seq<nat>)
    requires LensOk(lens) && !Refused(DISTS, lens) && |lens| <= 30
    ensures RootBits(lens, 6) <= MAX_BITS && TableSize(lens, RootBits(lens, 6)) <= ENOUGH_DISTS
  {
    hide Complete, Pow2, TableSize, Taken, Longest, Shortest, RootBits, Refused;
    Powers();
    RootIs(lens, 6);
    NotRefused(DISTS, lens);
    if Longest(lens, MAX_BITS) > 6 { DistTables(lens); } else { Pow2Mono(RootBits(lens, 6), 6); }
  }

  /** Codes that all fit the root table need no more than that. */
  lemma {:induction false} FlatSuffice(kind: Kind, lens: seq<nat>, bits: nat)
    requires 0 < bits <= MAX_BITS && Pow2(bits) <= Enough(kind) && forall s: nat :: s < |lens| ==> lens[s] <= bits
    ensures RootBits(lens, bits) <= MAX_BITS && TableSize(lens, RootBits(lens, bits)) <= Enough(kind)
  {
    hide Pow2, TableSize, Taken, RootBits, CountTo;
    RootIs(lens, bits);
    var max := Longest(lens, MAX_BITS);
    if max > 0 { var s := SomeOfLength(lens, max); }
    Pow2Mono(RootBits(lens, bits), bits);
  }
}
