/** Canonical Huffman codes, as section 3.2.2 of RFC 1951 defines them.

    lens[s] is the code length of symbol s, zero for an unused symbol.  The
    code of a symbol of length l owns an interval of 2^(15-l) of the 15-bit
    numbers that start with it; prefix-freeness is disjointness of intervals. */
module Canonical {
  import opened Bits

  const MAX_BITS: nat := 15

  ghost predicate LensOk(lens: seq<nat>)
  {
    forall s :: 0 <= s < |lens| ==> lens[s] <= MAX_BITS
  }

  /** How many of the first n symbols have length l. */
  function CountTo(lens: seq<nat>, l: nat, n: nat): (c: nat)
    requires n <= |lens|
    ensures c <= n
  {
    if n == 0 then 0 else CountTo(lens, l, n - 1) + if lens[n - 1] == l then 1 else 0
  }

  function Count(lens: seq<nat>, l: nat): (r: nat)
  {
    CountTo(lens, l, |lens|)
  }

  /** The number of symbols that have a code of length l; length zero means no code. */
  function Used(lens: seq<nat>, l: nat): (r: nat)
  {
    if l == 0 then 0 else Count(lens, l)
  }

  /** The smallest code of length l. */
  function NextCode(lens: seq<nat>, l: nat): (r: nat)
  {
    if l == 0 then 0 else 2 * (NextCode(lens, l - 1) + Used(lens, l - 1))
  }

  function Code(lens: seq<nat>, s: nat): (r: nat)
    requires s < |lens|
  {
    NextCode(lens, lens[s]) + CountTo(lens, lens[s], s)
  }

  /** Codes of length l that are still free once all shorter and equal lengths are served;
      negative when the lengths are over-subscribed. */
  function Left(lens: seq<nat>, l: nat): (r: int)
  {
    if l == 0 then 1 else 2 * Left(lens, l - 1) - Count(lens, l)
  }

  /** The lengths describe a prefix code (Kraft's inequality), possibly an incomplete one. */
  ghost predicate Valid(lens: seq<nat>)
  {
    LensOk(lens) && Left(lens, MAX_BITS) >= 0
  }

  ghost predicate Complete(lens: seq<nat>)
  {
    LensOk(lens) && Left(lens, MAX_BITS) == 0
  }

  lemma {:induction false} LeftIs(lens: seq<nat>, l: nat)
    ensures Left(lens, l) == Pow2(l) - NextCode(lens, l) - Used(lens, l)
  {
    if l > 0 { LeftIs(lens, l - 1); }
  }

  /** Once over-subscribed, always over-subscribed. */
  lemma {:induction false} LeftStaysNegative(lens: seq<nat>, l: nat, m: nat)
    requires l <= m && Left(lens, m) >= 0
    ensures Left(lens, l) >= 0
  {
    if l < m { LeftStaysNegative(lens, l, m - 1); }
  }

  lemma {:induction false} CountToMono(lens: seq<nat>, l: nat, m: nat, n: nat)
    requires m <= n <= |lens|
    ensures CountTo(lens, l, m) <= CountTo(lens, l, n)
    ensures m < n && lens[m] == l ==> CountTo(lens, l, m) < CountTo(lens, l, n)
    ensures m < n && lens[m] != l && CountTo(lens, l, m) < CountTo(lens, l, n) ==> m + 1 < n
    decreases n - m
  {
    if m < n { CountToMono(lens, l, m + 1, n); }
  }

  /** Rank is at most one less than the count, so a code stays within its length's range. */
  lemma {:induction false} CodeBound(lens: seq<nat>, s: nat)
    requires s < |lens| && 0 < lens[s]
    ensures Code(lens, s) + 1 <= NextCode(lens, lens[s]) + Used(lens, lens[s])
    ensures Left(lens, lens[s]) >= 0 ==> Code(lens, s) < Pow2(lens[s])
  {
    CountToMono(lens, lens[s], s, |lens|);
    LeftIs(lens, lens[s]);
  }

  // ------------------------------------------------------------------ intervals

  function Unit(l: nat): (r: nat)
    requires l <= MAX_BITS
  {
    Pow2(MAX_BITS - l)
  }

  /** Where the l-bit code c starts among the 15-bit numbers. */
  function Pos(c: nat, l: nat): (r: nat)
    requires l <= MAX_BITS
  {
    MulMono(0, c, Unit(l));
    c * Unit(l)
  }

  function Lo(lens: seq<nat>, s: nat): (r: nat)
    requires s < |lens| && lens[s] <= MAX_BITS
  {
    Pos(Code(lens, s), lens[s])
  }

  function Hi(lens: seq<nat>, s: nat): (r: nat)
    requires s < |lens| && lens[s] <= MAX_BITS
  {
    Pos(Code(lens, s) + 1, lens[s])
  }

  /** The 15-bit number r, most significant bit first, starts with the code of s. */
  ghost predicate Owns(lens: seq<nat>, s: nat, r: nat)
  {
    s < |lens| && 0 < lens[s] <= MAX_BITS && Lo(lens, s) <= r < Hi(lens, s)
  }

  /** Where the codes of length l start and end among the 15-bit numbers. */
  function Start(lens: seq<nat>, l: nat): (r: nat)
    requires l <= MAX_BITS
  {
    Pos(NextCode(lens, l), l)
  }

  function End(lens: seq<nat>, l: nat): (r: nat)
    requires l <= MAX_BITS
  {
    Pos(NextCode(lens, l) + Used(lens, l), l)
  }

  lemma {:induction false} UnitHalves(l: nat)
    requires 0 < l <= MAX_BITS
    ensures Unit(l - 1) == 2 * Unit(l)
  {
  }

  lemma {:induction false} StartIsEnd(lens: seq<nat>, l: nat)
    requires 0 < l <= MAX_BITS
    ensures Start(lens, l) == End(lens, l - 1)
  {
    var c := NextCode(lens, l - 1) + Used(lens, l - 1);
    assert (2 * c) * Unit(l) == c * (2 * Unit(l));
  }

  lemma {:induction false} StartMono(lens: seq<nat>, l: nat, m: nat)
    requires l < m <= MAX_BITS
    ensures End(lens, l) <= Start(lens, m)
  {
    StartIsEnd(lens, m);
    if l < m - 1 {
      StartMono(lens, l, m - 1);
      MulMono(NextCode(lens, m - 1), NextCode(lens, m - 1) + Used(lens, m - 1), Unit(m - 1));
    }
  }

  lemma {:induction false} EndBound(lens: seq<nat>, l: nat)
    requires Left(lens, l) >= 0 && l <= MAX_BITS
    ensures End(lens, l) <= Pow2(MAX_BITS)
    ensures Left(lens, l) == 0 ==> End(lens, l) == Pow2(MAX_BITS)
  {
    hide Left, NextCode, Used, Pow2;
    LeftIs(lens, l);
    Pow2Add(l, MAX_BITS - l);
    MulMono(NextCode(lens, l) + Used(lens, l), Pow2(l), Unit(l));
  }

  lemma {:induction false} IntervalWithin(lens: seq<nat>, s: nat)
    requires s < |lens| && 0 < lens[s] <= MAX_BITS
    ensures Start(lens, lens[s]) <= Lo(lens, s) < Hi(lens, s) <= End(lens, lens[s])
    ensures Hi(lens, s) == Lo(lens, s) + Unit(lens[s])
  {
    var l := lens[s];
    CodeBound(lens, s);
    MulMono(NextCode(lens, l), Code(lens, s), Unit(l));
    MulMono(Code(lens, s) + 1, NextCode(lens, l) + Used(lens, l), Unit(l));
    Distribute(Code(lens, s), 1, Unit(l));
  }

  /** Shorter codes, and smaller symbols among codes of equal length, come first. */
  ghost predicate Earlier(lens: seq<nat>, s: nat, t: nat)
    requires s < |lens| && t < |lens|
  {
    lens[s] < lens[t] || (lens[s] == lens[t] && s < t)
  }

  lemma {:induction false} IntervalsOrdered(lens: seq<nat>, s: nat, t: nat)
    requires s < |lens| && t < |lens| && 0 < lens[s] <= MAX_BITS && 0 < lens[t] <= MAX_BITS
    requires Earlier(lens, s, t)
    ensures Hi(lens, s) <= Lo(lens, t)
  {
    IntervalWithin(lens, s);
    IntervalWithin(lens, t);
    if lens[s] < lens[t] {
      StartMono(lens, lens[s], lens[t]);
    } else {
      CountToMono(lens, lens[s], s, t);
      MulMono(Code(lens, s) + 1, Code(lens, t), Unit(lens[s]));
    }
  }

  /** No 15-bit number starts with the codes of two different symbols. */
  lemma {:induction false} OwnerUnique(lens: seq<nat>, s: nat, t: nat, r: nat)
    requires Owns(lens, s, r) && Owns(lens, t, r)
    ensures s == t
  {
    if s != t {
      if Earlier(lens, s, t) { IntervalsOrdered(lens, s, t); } else { IntervalsOrdered(lens, t, s); }
    }
  }

  lemma {:induction false} NthOfLength(lens: seq<nat>, l: nat, k: nat, n: nat) returns (s: nat)
    requires n <= |lens| && k < CountTo(lens, l, n)
    ensures s < n && lens[s] == l && CountTo(lens, l, s) == k
  {
    if CountTo(lens, l, n - 1) > k {
      s := NthOfLength(lens, l, k, n - 1);
    } else {
      s := n - 1;
    }
  }

  /** Every number below the end of length l starts with some code of length at most l. */
  lemma {:induction false} OwnerExists(lens: seq<nat>, l: nat, r: nat) returns (s: nat)
    requires l <= MAX_BITS && r < End(lens, l)
    ensures Owns(lens, s, r) && lens[s] <= l
  {
    assert l > 0;
    StartIsEnd(lens, l);
    if r < Start(lens, l) {
      s := OwnerExists(lens, l - 1, r);
    } else {
      var c := r / Unit(l);
      DivModIdentity(r, Unit(l));
      if c < NextCode(lens, l) { MulMono(c + 1, NextCode(lens, l), Unit(l)); Distribute(c, 1, Unit(l)); }
      if c >= NextCode(lens, l) + Used(lens, l) { MulMono(NextCode(lens, l) + Used(lens, l), c, Unit(l)); }
      s := NthOfLength(lens, l, c - NextCode(lens, l), |lens|);
      Distribute(c, 1, Unit(l));
    }
  }

  /** A complete code decodes every 15-bit number. */
  lemma {:induction false} CompleteOwner(lens: seq<nat>, r: nat) returns (s: nat)
    requires Complete(lens) && r < Pow2(MAX_BITS)
    ensures Owns(lens, s, r)
  {
    EndBound(lens, MAX_BITS);
    s := OwnerExists(lens, MAX_BITS, r);
  }

  // ------------------------------------------------------------------ code strings

  /** The code of s as transmitted: most significant bit first. */
  function CodeBits(lens: seq<nat>, s: nat): (b: seq<bool>)
    requires s < |lens|
    ensures |b| == lens[s]
  {
    ToBits(Rev(Code(lens, s), lens[s]), lens[s])
  }

  /** The value of the next 15 bits of a stream, zero-extended, most significant bit first. */
  function Window(b: seq<bool>): (r: nat)
  {
    Rev(FromBits(if |b| < MAX_BITS then b else b[..MAX_BITS]), MAX_BITS)
  }

  ghost predicate StartsWith(b: seq<bool>, p: seq<bool>)
  {
    |p| <= |b| && b[..|p|] == p
  }

  /** Reading a code off a stream is interval membership. */
  lemma {:induction false} StartsWithIsOwns(lens: seq<nat>, s: nat, b: seq<bool>)
    requires s < |lens| && 0 < lens[s] <= MAX_BITS && Code(lens, s) < Pow2(lens[s])
    requires lens[s] <= |b|
    ensures StartsWith(b, CodeBits(lens, s)) <==> Owns(lens, s, Window(b))
  {
    var l, c := lens[s], Code(lens, s);
    var d := if |b| < MAX_BITS then b else b[..MAX_BITS];
    var v := FromBits(d);
    var r := Rev(v, MAX_BITS);
    assert d[..l] == b[..l];
    FromBitsPrefix(d, l);
    RevParts(v, l, MAX_BITS - l);
    RevMod(v, l);
    assert r / Unit(l) == Rev(FromBits(b[..l]), l);
    RevBound(c, l);
    if StartsWith(b, CodeBits(lens, s)) {
      FromToBits(Rev(c, l), l);
      DivMod(0, Pow2(l), Rev(c, l));
      RevInvolution(c, l);
      DivModIdentity(r, Unit(l));
      Distribute(c, 1, Unit(l));
    }
    if Owns(lens, s, r) {
      Distribute(c, 1, Unit(l));
      DivModOf(r, c, Unit(l), r - c * Unit(l));
      FromBitsBound(b[..l]);
      RevInvolution(FromBits(b[..l]), l);
      ToFromBits(b[..l]);
    }
  }

  /** No code is a prefix of another. */
  lemma {:induction false} PrefixFree(lens: seq<nat>, s: nat, t: nat)
    requires Valid(lens) && s < |lens| && t < |lens| && s != t && lens[s] > 0 && lens[t] > 0
    ensures !StartsWith(CodeBits(lens, t), CodeBits(lens, s))
  {
    LeftStaysNegative(lens, lens[s], MAX_BITS);
    LeftStaysNegative(lens, lens[t], MAX_BITS);
    CodeBound(lens, s);
    CodeBound(lens, t);
    var b := CodeBits(lens, t);
    if StartsWith(b, CodeBits(lens, s)) {
      assert StartsWith(b, b);
      StartsWithIsOwns(lens, s, b);
      StartsWithIsOwns(lens, t, b);
      OwnerUnique(lens, s, t, Window(b));
    }
  }
}
