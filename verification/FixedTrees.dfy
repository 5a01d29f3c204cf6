/** The fixed codes of section 3.2.6 of RFC 1951: their lengths, and the static trees of trees.c. */
module FixedTrees {
  import opened Bits
  import opened Canonical
  import opened StaticTables
  import opened HuffmanCodes

  function FixedLength(n: nat): (r: nat)
  {
    if n <= 143 then 8 else if n <= 255 then 9 else if n <= 279 then 7 else 8
  }

  function FixedLit(): (lens: seq<nat>)
    ensures |lens| == 288 && forall i: nat :: i < 288 ==> lens[i] == FixedLength(i)
  {
    seq(288, i requires 0 <= i < 288 => FixedLength(i))
  }

  function FixedDist(): (lens: seq<nat>)
    ensures |lens| == 32 && forall i: nat :: i < 32 ==> lens[i] == 5
  {
    seq(32, _ => 5)
  }

  /** A stretch of symbols that all have length l, or all another. */
  lemma {:induction false} CountStretch(lens: seq<nat>, l: nat, a: nat, b: nat, v: nat)
    requires a <= b <= |lens| && forall i :: a <= i < b ==> lens[i] == v
    ensures CountTo(lens, l, b) == CountTo(lens, l, a) + if v == l then b - a else 0
  {
    if a < b { CountStretch(lens, l, a, b - 1, v); }
  }

  lemma {:induction false} FixedCounts(l: nat)
    ensures Count(FixedLit(), l) == if l == 7 then 24 else if l == 8 then 152 else if l == 9 then 112 else 0
    ensures Count(FixedDist(), l) == if l == 5 then 32 else 0
  {
    hide CountTo;
    NoneYet(FixedLit(), l);
    NoneYet(FixedDist(), l);
    CountStretch(FixedLit(), l, 0, 144, 8);
    CountStretch(FixedLit(), l, 144, 256, 9);
    CountStretch(FixedLit(), l, 256, 280, 7);
    CountStretch(FixedLit(), l, 280, 288, 8);
    CountStretch(FixedDist(), l, 0, 32, 5);
  }

  lemma {:induction false} NoneYet(lens: seq<nat>, l: nat)
    ensures CountTo(lens, l, 0) == 0
  {
  }

  lemma {:induction false} FreeBelow(lens: seq<nat>, l: nat)
    requires forall b: nat :: 1 <= b <= l ==> Count(lens, b) == 0
    ensures Left(lens, l) == Pow2(l)
  {
    hide Count;
    if l > 0 { FreeBelow(lens, l - 1); }
  }

  lemma {:induction false} LeftStep(lens: seq<nat>, l: nat)
    ensures Left(lens, l + 1) == 2 * Left(lens, l) - Count(lens, l + 1)
  {
  }

  lemma {:induction false} LeftZero(lens: seq<nat>, m: nat, n: nat)
    requires m <= n && Left(lens, m) == 0 && forall b: nat :: m < b <= n ==> Count(lens, b) == 0
    ensures Left(lens, n) == 0
    decreases n
  {
    hide Count;
    if m < n { LeftZero(lens, m, n - 1); }
  }

  /** The fixed literal/length code is complete; that is why it has codes for the symbols 286 and 287. */
  lemma {:induction false} FixedLitComplete()
    ensures Complete(FixedLit()) && Valid(FixedLit())
  {
    hide Left, Count;
    forall l: nat ensures Count(FixedLit(), l) == if l == 7 then 24 else if l == 8 then 152 else if l == 9 then 112
      else 0 { FixedCounts(l); }
    FreeBelow(FixedLit(), 6);
    Pow2Values();
    LeftStep(FixedLit(), 6);
    LeftStep(FixedLit(), 7);
    LeftStep(FixedLit(), 8);
    LeftZero(FixedLit(), 9, MAX_BITS);
  }

  lemma {:induction false} FixedDistComplete()
    ensures Complete(FixedDist()) && Valid(FixedDist())
  {
    hide Left, Count;
    forall l: nat ensures Count(FixedDist(), l) == if l == 5 then 32 else 0 { FixedCounts(l); }
    FreeBelow(FixedDist(), 4);
    Pow2Values();
    LeftStep(FixedDist(), 4);
    LeftZero(FixedDist(), 5, MAX_BITS);
  }

  /** The codes in code and len are the canonical ones for the first n symbols of lens. */
  ghost predicate CodesFor(lens: seq<nat>, n: nat, code: seq<nat>, len: seq<nat>)
  {
    && n <= |lens| && n <= |code| && n <= |len|
    && forall i: nat :: i < n ==> len[i] == lens[i] && (lens[i] != 0 ==> code[i] == Rev(Code(lens, i), lens[i]))
  }

  lemma {:induction false} NoShorter(lens: seq<nat>, l: nat)
    requires forall b: nat :: 1 <= b < l ==> Count(lens, b) == 0
    ensures NextCode(lens, l) == 0
  {
    hide Count;
    if l > 0 { NoShorter(lens, l - 1); }
  }

  /** The static distance tree is trivial: the codes are the numbers. */
  lemma {:induction false} FixedDistCode(n: nat)
    requires n < 32
    ensures Code(FixedDist(), n) == n
  {
    hide CountTo, NextCode, Count;
    forall l: nat ensures Count(FixedDist(), l) == if l == 5 then 32 else 0 { FixedCounts(l); }
    NoShorter(FixedDist(), 5);
    CountStretch(FixedDist(), 5, 0, n, 5);
    NoneYet(FixedDist(), 5);
  }

  /** The table of section 3.2.6 of RFC 1951: how long the fixed code of a literal or length symbol is, and which. */
  lemma {:induction false} FixedCodeIs(s: nat)
    requires s < 288
    ensures FixedLit()[s] == if s < 144 then 8 else if s < 256 then 9 else if s < 280 then 7 else 8
    ensures Code(FixedLit(), s) == if s < 144 then 0x30 + s else if s < 256 then 0x190 + (s - 144)
        else if s < 280 then s - 256 else 0xc0 + (s - 280)
  {
    hide CountTo, NextCode, Count;
    forall l: nat ensures Count(FixedLit(), l) == if l == 7 then 24 else if l == 8 then 152 else if l == 9 then 112
      else 0 { FixedCounts(l); }
    NoShorter(FixedLit(), 7);
    NextStep(FixedLit(), 7);
    NextStep(FixedLit(), 8);
    FixedPlace(s);
  }

  lemma {:induction false} NextStep(lens: seq<nat>, l: nat)
    requires l > 0
    ensures NextCode(lens, l + 1) == 2 * (NextCode(lens, l) + Count(lens, l))
  {
    hide Count;
  }

  /** How many symbols before s have a fixed code as long as that of s. */
  lemma {:induction false} FixedPlace(s: nat)
    requires s < 288
    ensures CountTo(FixedLit(), FixedLit()[s], s)
         == if s < 144 then s else if s < 256 then s - 144 else if s < 280 then s - 256 else 144 + (s - 280)
  {
    hide CountTo;
    var lens, l := FixedLit(), FixedLit()[s];
    NoneYet(lens, l);
    CountStretch(lens, l, 0, if s < 144 then s else 144, 8);
    if s >= 144 { CountStretch(lens, l, 144, if s < 256 then s else 256, 9); }
    if s >= 256 { CountStretch(lens, l, 256, if s < 280 then s else 280, 7); }
    if s >= 280 { CountStretch(lens, l, 280, s, 8); }
  }

  method FillLens(len: array<nat>, lo: nat, hi: nat, v: nat, blCount: array<nat>)
    requires lo <= hi <= len.Length && v < blCount.Length && len != blCount
    modifies len, blCount
    ensures forall i :: lo <= i < hi ==> len[i] == v
    ensures forall i :: 0 <= i < len.Length && !(lo <= i < hi) ==> len[i] == old(len[i])
    ensures blCount[..] == old(blCount[..])[v := old(blCount[v]) + hi - lo]
  {
    var n := lo;
    ghost var b0: seq<nat> := blCount[..];
    while n < hi
      invariant lo <= n <= hi && blCount[..] == b0[v := b0[v] + n - lo]
      invariant forall i :: lo <= i < n ==> len[i] == v
      invariant forall i :: 0 <= i < len.Length && !(lo <= i < n) ==> len[i] == old(len[i])
    {
      len[n] := v;
      blCount[v] := blCount[v] + 1;
      n := n + 1;
    }
  }

  /** The entry of a literal or length symbol in the table of section 3.2.6 of RFC 1951. */
  predicate FixedEntry(s: nat, code: nat, len: nat)
  {
    && len == (if s < 144 then 8 else if s < 256 then 9 else if s < 280 then 7 else 8)
    && code == Rev(if s < 144 then 0x30 + s else if s < 256 then 0x190 + (s - 144) else if s < 280 then s - 256
        else 0xc0 + (s - 280), len)
  }

  lemma {:induction false} FixedEntries(code: seq<nat>, len: seq<nat>)
    requires CodesFor(FixedLit(), 288, code, len)
    ensures forall s: nat :: s < 288 ==> FixedEntry(s, code[s], len[s])
  {
    hide Rev, Code;
    forall s: nat | s < 288 ensures FixedEntry(s, code[s], len[s]) { FixedCodeIs(s); }
  }

  /** Builds the static trees. */
  method StaticTrees() returns (lcode: array<nat>, llen: array<nat>, dcode: array<nat>, dlen: array<nat>)
    ensures fresh(lcode) && fresh(llen) && fresh(dcode) && fresh(dlen)
    ensures CodesFor(FixedLit(), 288, lcode[..], llen[..]) && CodesFor(FixedDist(), 30, dcode[..], dlen[..])
    ensures lcode.Length == llen.Length == 288 && forall s: nat :: s < 288 ==> FixedEntry(s, lcode[s], llen[s])
    ensures dcode.Length == dlen.Length == 30 && forall c: nat :: c < 30 ==> dlen[c] == 5 && dcode[c] == Rev(c, 5)
  {
    hide Code, Rev, CountTo, Valid, Complete, Count, CodesTo, FixedEntry;
    llen := new nat[288](_ => 0);
    lcode := new nat[288](_ => 0);
    var blCount := new nat[MAX_BITS + 1](_ => 0);
    FillLens(llen, 0, 144, 8, blCount);
    FillLens(llen, 144, 256, 9, blCount);
    FillLens(llen, 256, 280, 7, blCount);
    FillLens(llen, 280, 288, 8, blCount);
    assert llen[..] == FixedLit();
    forall b: nat | b <= MAX_BITS ensures blCount[b] == Used(FixedLit(), b) { FixedCounts(b); }
    FixedLitComplete();
    assert llen[..287 + 1] == FixedLit();
    GenCodes(lcode, llen, 287, blCount);
    LitCodes(lcode[..], llen[..]);
    FixedEntries(lcode[..], llen[..]);
    dcode, dlen := StaticDistances();
  }

  method StaticDistances() returns (dcode: array<nat>, dlen: array<nat>)
    ensures fresh(dcode) && fresh(dlen) && CodesFor(FixedDist(), 30, dcode[..], dlen[..])
    ensures dcode.Length == dlen.Length == 30 && forall c: nat :: c < 30 ==> dlen[c] == 5 && dcode[c] == Rev(c, 5)
  {
    hide Code, Rev;
    dlen := new nat[30](_ => 0);
    dcode := new nat[30](_ => 0);
    for n := 0 to 30
      invariant forall i: nat :: i < n ==> dlen[i] == 5 && dcode[i] == Rev(i, 5)
    {
      dlen[n] := 5;
      dcode[n] := BiReverse(n, 5);
    }
    forall i: nat | i < 30 ensures Code(FixedDist(), i) == i { FixedDistCode(i); }
  }

  lemma {:induction false} LitCodes(code: seq<nat>, len: seq<nat>)
    requires len == FixedLit() && exists before :: CodesTo(len, before, code, 288)
    ensures CodesFor(FixedLit(), 288, code, len)
  {
    hide Code, Rev;
  }
}
