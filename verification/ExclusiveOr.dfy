/** Exclusive or of unbounded numbers, and its bits. */
module ExclusiveOr {
  import opened Bits

  /** Exclusive or of two numbers. */
  function Xor(a: nat, b: nat): (r: nat)
    decreases a + b
  {
    if a == 0 && b == 0 then 0 else 2 * Xor(a / 2, b / 2) + if a % 2 != b % 2 then 1 else 0
  }

  /** Bit i of v. */
  predicate Bit(v: nat, i: nat)
  {
    if i == 0 then v % 2 == 1 else Bit(v / 2, i - 1)
  }

  lemma {:induction false} XorBit(a: nat, b: nat, i: nat)
    ensures Bit(Xor(a, b), i) <==> Bit(a, i) != Bit(b, i)
    decreases i
  {
    if a == 0 && b == 0 {
      ZeroBit(i);
    } else if i > 0 {
      XorBit(a / 2, b / 2, i - 1);
    }
  }

  lemma {:induction false} ZeroBit(i: nat)
    ensures !Bit(0, i)
  {
    if i > 0 { ZeroBit(i - 1); }
  }

  lemma {:induction false} ShiftBit(v: nat, s: nat, i: nat)
    ensures v * Pow2(s) >= 0 && (Bit(v * Pow2(s), i) <==> i >= s && Bit(v, i - s))
    decreases s
  {
    if s > 0 {
      var u := v * Pow2(s - 1);
      assert v * Pow2(s) == 2 * u;
      MulMono(0, v, Pow2(s - 1));
      if i > 0 { ShiftBit(v, s - 1, i - 1); }
    } else {
      assert v * Pow2(0) == v;
    }
  }

  lemma {:induction false} MaskBit(v: nat, k: nat, i: nat)
    ensures v % Pow2(k) >= 0 && (Bit(v % Pow2(k), i) <==> i < k && Bit(v, i))
    decreases i
  {
    DivModIdentity(v, Pow2(k));
    if k == 0 {
      assert v % 1 == 0;
      ZeroBit(i);
    } else {
      DivDiv(v, 2, Pow2(k - 1));
      var w := v / 2 % Pow2(k - 1);
      DivModIdentity(v / 2, Pow2(k - 1));
      assert v % Pow2(k) == 2 * w + v % 2;
      if i > 0 { MaskBit(v / 2, k - 1, i - 1); }
    }
  }

  lemma {:induction false} XorZero(a: nat)
    ensures Xor(a, 0) == a && Xor(0, a) == a && Xor(a, a) == 0
  {
    if a > 0 { XorZero(a / 2); }
  }

  lemma {:induction false} XorComm(a: nat, b: nat)
    ensures Xor(a, b) == Xor(b, a)
    decreases a + b
  {
    if a > 0 || b > 0 { XorComm(a / 2, b / 2); }
  }

  lemma {:induction false} XorAssoc(a: nat, b: nat, c: nat)
    ensures Xor(Xor(a, b), c) == Xor(a, Xor(b, c))
  {
    hide Bit, Xor;
    forall i: nat ensures Bit(Xor(Xor(a, b), c), i) == Bit(Xor(a, Xor(b, c)), i) {
      XorBit(Xor(a, b), c, i);
      XorBit(a, b, i);
      XorBit(a, Xor(b, c), i);
      XorBit(b, c, i);
    }
    SameBits(Xor(Xor(a, b), c), Xor(a, Xor(b, c)));
  }

  /** What is added twice is gone. */
  lemma {:induction false} XorTwice(a: nat, b: nat)
    ensures Xor(Xor(a, b), b) == a
  {
    hide Xor;
    XorAssoc(a, b, b);
    XorZero(b);
    XorZero(a);
  }

  /** Four terms in another order. */
  lemma {:induction false} XorSwap(a: nat, b: nat, c: nat, d: nat)
    ensures Xor(Xor(a, b), Xor(c, d)) == Xor(Xor(a, c), Xor(b, d))
  {
    hide Xor;
    XorAssoc(a, b, Xor(c, d));
    XorAssoc(b, c, d);
    XorComm(b, c);
    XorAssoc(c, b, d);
    XorAssoc(a, c, Xor(b, d));
  }

  lemma {:induction false} XorHalf(a: nat, b: nat)
    ensures Xor(a, b) / 2 == Xor(a / 2, b / 2) && (Xor(a, b) % 2 == 1 <==> a % 2 != b % 2)
  {
  }

  lemma {:induction false} XorBound(a: nat, b: nat, k: nat)
    requires a < Pow2(k) && b < Pow2(k)
    ensures Xor(a, b) < Pow2(k)
    decreases k
  {
    if k > 0 { XorBound(a / 2, b / 2, k - 1); }
  }

  function Shl(v: nat, k: nat): (r: nat)
  {
    MulMono(0, v, Pow2(k));
    v * Pow2(k)
  }

  /** Low and high parts are treated alike. */
  lemma {:induction false} XorParts(a: nat, b: nat, c: nat, d: nat, k: nat)
    requires a < Pow2(k) && c < Pow2(k)
    ensures b * Pow2(k) >= 0 && d * Pow2(k) >= 0 && Xor(b, d) * Pow2(k) >= 0
    ensures Xor(a + b * Pow2(k), c + d * Pow2(k)) == Xor(a, c) + Xor(b, d) * Pow2(k)
  {
    hide Xor, Pow2;
    XorShl(a, b, c, d, k);
    assert Shl(b, k) == b * Pow2(k) && Shl(d, k) == d * Pow2(k) && Shl(Xor(b, d), k) == Xor(b, d) * Pow2(k);
  }

  lemma {:induction false} XorShl(a: nat, b: nat, c: nat, d: nat, k: nat)
    requires a < Pow2(k) && c < Pow2(k)
    ensures Xor(a + Shl(b, k), c + Shl(d, k)) == Xor(a, c) + Shl(Xor(b, d), k)
    decreases k
  {
    hide Xor, Pow2, Shl;
    if k == 0 {
      NoShift(b);
      NoShift(d);
      NoShift(Xor(b, d));
      XorZero(0);
    } else {
      HalfBound(a, k);
      HalfBound(c, k);
      XorShl(a / 2, b, c / 2, d, k - 1);
      Halved(a, b, k);
      Halved(c, d, k);
      Halved(Xor(a, c), Xor(b, d), k);
      XorHalf(a, c);
      FromHalves(a + Shl(b, k), c + Shl(d, k), Xor(a, c) + Shl(Xor(b, d), k));
    }
  }

  lemma {:induction false} FromHalves(u: nat, v: nat, w: nat)
    requires Xor(u / 2, v / 2) == w / 2 && (w % 2 == 1 <==> u % 2 != v % 2)
    ensures Xor(u, v) == w
  {
    XorHalf(u, v);
  }

  lemma {:induction false} NoShift(b: nat)
    ensures Pow2(0) == 1 && Shl(b, 0) == b
  {
  }

  lemma {:induction false} HalfBound(a: nat, k: nat)
    requires k > 0 && a < Pow2(k)
    ensures a / 2 < Pow2(k - 1)
  {
  }

  lemma {:induction false} Halved(a: nat, b: nat, k: nat)
    requires k > 0
    ensures (a + Shl(b, k)) / 2 == a / 2 + Shl(b, k - 1) && (a + Shl(b, k)) % 2 == a % 2
  {
    assert Shl(b, k) == 2 * Shl(b, k - 1) by { assert b * Pow2(k) == 2 * (b * Pow2(k - 1)); }
  }

  /** Numbers with the same bits are the same. */
  lemma {:induction false} SameBits(a: nat, b: nat)
    requires forall i: nat :: Bit(a, i) == Bit(b, i)
    ensures a == b
    decreases a + b
  {
    assert Bit(a, 0) == Bit(b, 0);
    if a > 0 || b > 0 {
      forall i: nat ensures Bit(a / 2, i) == Bit(b / 2, i) { assert Bit(a, i + 1) == Bit(b, i + 1); }
      SameBits(a / 2, b / 2);
    }
  }
}
