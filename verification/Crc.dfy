/** crc32.c: the tables, and the loop that uses them byte by byte. */
module Crc {
  import opened Bits
  import opened ExclusiveOr
  import opened BitWriter
  import opened ByteSwap
  import opened CrcSpec

  // ------------------------------------------------------------------ the tables

  /** Table k holds what a byte becomes with k zero bytes behind it; tables 4 to 7 are these with bytes swapped. */
  ghost predicate TablesMade(t: array2<nat>)
    reads t
  {
    && t.Length0 == 8 && t.Length1 == 256
    && forall k: nat, n: nat :: k < 4 && n < 256 ==> t[k, n] == Steps(n, 8 * (k + 1)) && t[k + 4, n] == Swap(t[k, n])
  }

  /** The exponents of the polynomial, except the highest. */
  const TERMS: seq<nat> := [0, 1, 2, 4, 5, 7, 8, 10, 11, 12, 16, 22, 23, 26]

  function TermsTo(n: nat): (p: nat)
    requires n <= 14
  {
    if n == 0 then 0 else TermsTo(n - 1) + Pow2(31 - TERMS[n - 1])
  }

  lemma {:induction false} HighPowers()
    ensures Pow2(19) == 0x8_0000 && Pow2(20) == 0x10_0000 && Pow2(21) == 0x20_0000 && Pow2(23) == 0x80_0000
        && Pow2(24) == 0x100_0000
    ensures Pow2(26) == 0x400_0000 && Pow2(27) == 0x800_0000 && Pow2(29) == 0x2000_0000 && Pow2(30) == 0x4000_0000
        && Pow2(31) == 0x8000_0000
  {
    Pow2Values();
    forall i: nat | i < 16 ensures Pow2(16 + i) == Pow2(16) * Pow2(i) { Pow2Add(16, i); }
    assert Pow2(16 + 3) == 0x8_0000 && Pow2(16 + 4) == 0x10_0000 && Pow2(16 + 5) == 0x20_0000
      && Pow2(16 + 7) == 0x80_0000;
    assert Pow2(16 + 8) == 0x100_0000 && Pow2(16 + 10) == 0x400_0000 && Pow2(16 + 11) == 0x800_0000;
    assert Pow2(16 + 13) == 0x2000_0000 && Pow2(16 + 14) == 0x4000_0000 && Pow2(16 + 15) == 0x8000_0000;
  }

  lemma {:induction false} TermsArePoly()
    ensures TermsTo(14) == POLY
  {
    hide Pow2;
    Pow2Values();
    HighPowers();
    assert TermsTo(4) == Pow2(31) + Pow2(30) + Pow2(29) + Pow2(27);
    assert TermsTo(8) == TermsTo(4) + Pow2(26) + Pow2(24) + Pow2(23) + Pow2(21);
    assert TermsTo(12) == TermsTo(8) + Pow2(20) + Pow2(19) + Pow2(15) + Pow2(9);
    assert TermsTo(14) == TermsTo(12) + Pow2(8) + Pow2(5);
  }

  /** The exclusive-or pattern; the terms are different, so adding their bits is or. */
  method MakePoly() returns (poly: nat)
    ensures poly == POLY
  {
    hide Pow2;
    poly := 0;
    for n := 0 to 14
      invariant poly == TermsTo(n)
    {
      poly := poly + Pow2(31 - TERMS[n]);
    }
    TermsArePoly();
  }

  lemma {:induction false} StepsEight(c: nat, k: nat)
    ensures Steps(c, k + 1) == Step(Steps(c, k))
  {
    hide Step;
    StepsAdd(c, k, 1);
  }

  lemma {:induction false} NoSteps(c: nat)
    ensures Steps(c, 0) == c
  {
  }

  /** make_crc_table. */
  method MakeTables() returns (t: array2<nat>)
    ensures TablesMade(t) && fresh(t)
  {
    t := new nat[8, 256];
    var poly := MakePoly();
    FirstTable(t, poly);
    var n := 0;
    while n < 256
      invariant 0 <= n <= 256
      invariant forall m: nat :: m < 256 ==> t[0, m] == Steps(m, 8)
      invariant forall k: nat, m: nat ::
          k < 4 && m < n ==> t[k, m] == Steps(m, 8 * (k + 1)) && t[k + 4, m] == Swap(t[k, m])
    {
      Column(t, n);
      n := n + 1;
    }
  }

  /** Eight steps. */
  method ByteCrc(n: nat, poly: nat) returns (c: nat)
    requires poly == POLY
    ensures c == Steps(n, 8)
  {
    hide Xor, Steps;
    c := n;
    NoSteps(n);
    for k := 0 to 8
      invariant c == Steps(n, k)
    {
      StepsEight(n, k);
      c := if c % 2 == 1 then Xor(poly, c / 2) else c / 2;
    }
  }

  method FirstTable(t: array2<nat>, poly: nat)
    requires t.Length0 == 8 && t.Length1 == 256 && poly == POLY
    modifies t
    ensures forall m: nat :: m < 256 ==> t[0, m] == Steps(m, 8)
  {
    hide Xor, Steps;
    for n := 0 to 256
      invariant forall m: nat :: m < n ==> t[0, m] == Steps(m, 8)
    {
      var c := ByteCrc(n, poly);
      t[0, n] := c;
    }
  }

  /** The entries for the byte n in the other tables. */
  method Column(t: array2<nat>, n: nat)
    requires t.Length0 == 8 && t.Length1 == 256 && n < 256
    requires forall m: nat :: m < 256 ==> t[0, m] == Steps(m, 8)
    modifies t
    ensures forall k: nat, m: nat :: k < 8 && m < 256 && m != n ==> t[k, m] == old(t[k, m])
    ensures t[0, n] == old(t[0, n])
    ensures forall k: nat :: k < 4 ==> t[k, n] == Steps(n, 8 * (k + 1)) && t[k + 4, n] == Swap(t[k, n])
  {
    hide Xor, Swap, Steps;
    var c := t[0, n];
    t[4, n] := Swap(c);
    for k := 1 to 4
      invariant c == t[k - 1, n] == Steps(n, 8 * k)
      invariant forall j: nat, m: nat :: j < 8 && m < 256 && m != n ==> t[j, m] == old(t[j, m])
      invariant t[0, n] == old(t[0, n])
      invariant forall j: nat :: j < k ==> t[j, n] == Steps(n, 8 * (j + 1)) && t[j + 4, n] == Swap(t[j, n])
    {
      NextZero(n, 8 * k, c);
      c := Xor(t[0, c % 256], c / 256);
      t[k, n] := c;
      t[k + 4, n] := Swap(c);
    }
  }

  lemma {:induction false} NextZero(n: nat, k: nat, c: nat)
    requires c == Steps(n, k)
    ensures Xor(Steps(c % 256, 8), c / 256) == Steps(n, k + 8)
  {
    hide Xor;
    Pow2Values();
    StepsLow(c, 8);
    StepsAdd(n, k, 8);
  }

  // ------------------------------------------------------------------ byte by byte

  lemma {:induction false} XorByByte(c: nat, b: Byte)
    ensures Xor(c, b) / 256 == c / 256
  {
    hide Xor;
    DivModIdentity(c, 256);
    XorByte(c % 256, c / 256, b, 0);
    XorZero(c / 256);
  }

  /** One byte with the table. */
  lemma {:induction false} DivideByte(c: nat, b: Byte)
    ensures Divide(c, ToBits(b, 8)) == Xor(Steps(Xor(c, b) % 256, 8), c / 256)
  {
    hide Xor, Steps, ToBits, Divide;
    Pow2Values();
    DivideWord(c, b, 8);
    StepsLow(Xor(c, b), 8);
    XorByByte(c, b);
  }

  /** The register so far. */
  ghost predicate DoneTo(c: nat, crc: nat, buf: seq<Byte>, i: nat)
    requires i <= |buf|
  {
    c == Divide(Xor(crc, ONES), BytesBits(buf[..i])) && c < 0x1_0000_0000
  }

  lemma {:induction false} DoneNone(crc: nat, buf: seq<Byte>)
    requires crc < 0x1_0000_0000
    ensures DoneTo(Xor(crc, ONES), crc, buf, 0)
  {
    hide Xor;
    assert buf[..0] == [];
    NoBytes();
    Pow2Of32();
    XorBound(crc, ONES, 32);
  }

  lemma {:induction false} DivideBound(c: nat, bits: seq<bool>)
    requires c < Pow2(32)
    ensures Divide(c, bits) < Pow2(32)
    decreases |bits|
  {
    hide Pow2, Xor;
    if bits != [] {
      Pow2Of32();
      XorBound(POLY, c / 2, 32);
      DivideBound(BitStep(c, bits[0]), bits[1..]);
    }
  }

  /** More bytes at once. */
  lemma {:induction false} DoneMore(c: nat, crc: nat, buf: seq<Byte>, i: nat, j: nat)
    requires i <= j <= |buf| && DoneTo(c, crc, buf, i)
    ensures DoneTo(Divide(c, BytesBits(buf[i..j])), crc, buf, j)
  {
    hide Divide, Xor, Pow2;
    assert buf[..j] == buf[..i] + buf[i..j];
    BytesConcat(buf[..i], buf[i..j]);
    DivideConcat(Xor(crc, ONES), BytesBits(buf[..i]), BytesBits(buf[i..j]));
    Pow2Of32();
    DivideBound(c, BytesBits(buf[i..j]));
  }

  lemma {:induction false} OneByte(b: Byte)
    ensures BytesBits([b]) == ToBits(b, 8)
  {
    assert [b][1..] == [] && ToBits(b, 8) + [] == ToBits(b, 8);
  }

  /** DO1. */
  method DoOne(t: array2<nat>, c0: nat, ghost crc: nat, buf: seq<Byte>, i: nat) returns (c: nat)
    requires TablesMade(t) && i < |buf| && DoneTo(c0, crc, buf, i)
    ensures DoneTo(c, crc, buf, i + 1)
  {
    hide Xor, Steps, Divide, ToBits, DoneTo, Swap;
    assert buf[i..i + 1] == [buf[i]];
    OneByte(buf[i]);
    DoneMore(c0, crc, buf, i, i + 1);
    DivideByte(c0, buf[i]);
    c := Xor(t[0, Xor(c0, buf[i]) % 256], c0 / 256);
  }

  lemma {:induction false} DoneAll(c: nat, crc: nat, buf: seq<Byte>)
    requires DoneTo(c, crc, buf, |buf|)
    ensures Xor(c, ONES) == CrcFrom(crc, buf)
  {
    hide Xor;
    assert buf[..|buf|] == buf;
  }

  /** The rest of crc32, without the loops over words. */
  method Crc32Bytes(t: array2<nat>, crc: nat, buf: seq<Byte>) returns (r: nat)
    requires TablesMade(t) && crc < 0x1_0000_0000
    ensures r == CrcFrom(crc, buf)
  {
    hide Xor, DoneTo, CrcFrom, TablesMade;
    var c := Xor(crc, ONES);
    DoneNone(crc, buf);
    var i: nat := 0;
    while |buf| - i >= 8
      invariant i <= |buf| && DoneTo(c, crc, buf, i)
      decreases |buf| - i
    {
      ghost var i0 := i;
      for k := 0 to 8
        invariant i == i0 + k && i0 + 8 <= |buf| && DoneTo(c, crc, buf, i)
      {
        c := DoOne(t, c, crc, buf, i);
        i := i + 1;
      }
    }
    while i < |buf|
      invariant i <= |buf| && DoneTo(c, crc, buf, i)
    {
      c := DoOne(t, c, crc, buf, i);
      i := i + 1;
    }
    DoneAll(c, crc, buf);
    r := Xor(c, ONES);
  }
}
