/** The four bytes of a 32-bit number, their reversal and exclusive or on them. */
module ByteSwap {
  import opened Bits
  import opened ExclusiveOr

  /** The number with the given bytes, least significant first. */
  function Compose(b0: nat, b1: nat, b2: nat, b3: nat): (c: nat)
  {
    b0 + 0x100 * (b1 + 0x100 * (b2 + 0x100 * b3))
  }

  function ByteAt(c: nat, i: nat): (b: nat)
    requires i < 4
    ensures b < 0x100
  {
    if i == 0 then c % 0x100
    else if i == 1 then c / 0x100 % 0x100
    else if i == 2 then c / 0x1_0000 % 0x100
    else c / 0x100_0000 % 0x100
  }

  /** ZSWAP32. */
  function Swap(c: nat): (r: nat)
  {
    Compose(ByteAt(c, 3), ByteAt(c, 2), ByteAt(c, 1), ByteAt(c, 0))
  }

  lemma {:induction false} Shifts(c: nat)
    ensures c / 0x1_0000 == c / 0x100 / 0x100 && c / 0x100_0000 == c / 0x100 / 0x100 / 0x100
  {
    DivDiv(c, 0x100, 0x100);
    DivDiv(c, 0x1_0000, 0x100);
  }

  lemma {:induction false} BytesOf(b0: nat, b1: nat, b2: nat, b3: nat)
    requires b0 < 0x100 && b1 < 0x100 && b2 < 0x100 && b3 < 0x100
    ensures var c := Compose(b0, b1, b2, b3);
            c < 0x1_0000_0000 && ByteAt(c, 0) == b0 && ByteAt(c, 1) == b1 && ByteAt(c, 2) == b2 && ByteAt(c, 3) == b3
  {
    var x2 := b2 + 0x100 * b3;
    var x1 := b1 + 0x100 * x2;
    var c := b0 + 0x100 * x1;
    Shifts(c);
    DivModOf(c, x1, 0x100, b0);
    DivModOf(x1, x2, 0x100, b1);
    DivModOf(x2, b3, 0x100, b2);
    DivModOf(b3, 0, 0x100, b3);
  }

  lemma {:induction false} Composed(c: nat)
    requires c < 0x1_0000_0000
    ensures c == Compose(ByteAt(c, 0), ByteAt(c, 1), ByteAt(c, 2), ByteAt(c, 3)) && c / 0x100_0000 == ByteAt(c, 3)
  {
    var q1 := c / 0x100;
    var q2 := q1 / 0x100;
    var q3 := q2 / 0x100;
    Shifts(c);
    DivModIdentity(c, 0x100);
    DivModIdentity(q1, 0x100);
    DivModIdentity(q2, 0x100);
    DivModOf(q3, 0, 0x100, q3);
  }

  lemma {:induction false} SwapBytes(c: nat)
    ensures Swap(c) < 0x1_0000_0000
    ensures forall i: nat :: i < 4 ==> ByteAt(Swap(c), i) == ByteAt(c, 3 - i)
  {
    BytesOf(ByteAt(c, 3), ByteAt(c, 2), ByteAt(c, 1), ByteAt(c, 0));
  }

  lemma {:induction false} SwapTwice(c: nat)
    requires c < 0x1_0000_0000
    ensures Swap(Swap(c)) == c
  {
    hide ByteAt, Compose;
    SwapBytes(c);
    Composed(c);
  }

  lemma {:induction false} XorByte(a: nat, b: nat, c: nat, d: nat)
    requires a < 0x100 && c < 0x100
    ensures Xor(a + 0x100 * b, c + 0x100 * d) == Xor(a, c) + 0x100 * Xor(b, d) && Xor(a, c) < 0x100
  {
    hide Xor;
    Pow2Values();
    XorParts(a, b, c, d, 8);
    XorBound(a, c, 8);
  }

  /** Exclusive or works on the bytes one by one. */
  lemma {:induction false} ComposeXor(a0: nat, a1: nat, a2: nat, a3: nat, b0: nat, b1: nat, b2: nat, b3: nat)
    requires a0 < 0x100 && a1 < 0x100 && a2 < 0x100 && a3 < 0x100 && b0 < 0x100 && b1 < 0x100 && b2 < 0x100
        && b3 < 0x100
    ensures Xor(Compose(a0, a1, a2, a3), Compose(b0, b1, b2, b3)) ==
        Compose(Xor(a0, b0), Xor(a1, b1), Xor(a2, b2), Xor(a3, b3))
    ensures Xor(a0, b0) < 0x100 && Xor(a1, b1) < 0x100 && Xor(a2, b2) < 0x100 && Xor(a3, b3) < 0x100
  {
    hide Xor;
    XorByte(a0, a1 + 0x100 * (a2 + 0x100 * a3), b0, b1 + 0x100 * (b2 + 0x100 * b3));
    XorByte(a1, a2 + 0x100 * a3, b1, b2 + 0x100 * b3);
    XorByte(a2, a3, b2, b3);
    Pow2Values();
    XorBound(a3, b3, 8);
  }

  lemma {:induction false} XorBytes(a: nat, b: nat)
    requires a < 0x1_0000_0000 && b < 0x1_0000_0000
    ensures Xor(a, b) < 0x1_0000_0000
    ensures forall i: nat :: i < 4 ==> ByteAt(Xor(a, b), i) == Xor(ByteAt(a, i), ByteAt(b, i))
  {
    hide Xor, ByteAt, Compose;
    Composed(a);
    Composed(b);
    ComposeXor(ByteAt(a, 0), ByteAt(a, 1), ByteAt(a, 2), ByteAt(a, 3), ByteAt(b, 0), ByteAt(b, 1), ByteAt(b, 2),
      ByteAt(b, 3));
    BytesOf(Xor(ByteAt(a, 0), ByteAt(b, 0)), Xor(ByteAt(a, 1), ByteAt(b, 1)), Xor(ByteAt(a, 2), ByteAt(b, 2)),
      Xor(ByteAt(a, 3), ByteAt(b, 3)));
  }

  lemma {:induction false} SwapLinear(a: nat, b: nat)
    requires a < 0x1_0000_0000 && b < 0x1_0000_0000
    ensures Swap(Xor(a, b)) == Xor(Swap(a), Swap(b))
  {
    hide Xor, ByteAt, Compose;
    XorBytes(a, b);
    ComposeXor(ByteAt(a, 3), ByteAt(a, 2), ByteAt(a, 1), ByteAt(a, 0), ByteAt(b, 3), ByteAt(b, 2), ByteAt(b, 1),
      ByteAt(b, 0));
  }
}
