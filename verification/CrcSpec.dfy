/** CRC-32 as division by the polynomial, bit by bit (section 8 of RFC 1952), and its linearity. */
module CrcSpec {
  import opened Bits
  import opened ExclusiveOr
  import opened BitWriter

  /** The polynomial without its highest term, the lowest power in the highest bit. */
  const POLY: nat := 0xedb8_8320
  const ONES: nat := 0xffff_ffff

  /** The register multiplied by x. */
  function Step(c: nat): (r: nat)
  {
    if c % 2 == 1 then Xor(POLY, c / 2) else c / 2
  }

  function Steps(c: nat, n: nat): (r: nat)
    decreases n
  {
    if n == 0 then c else Steps(Step(c), n - 1)
  }

  /** One bit of the message. */
  function BitStep(c: nat, b: bool): (r: nat)
  {
    if (c % 2 == 1) != b then Xor(POLY, c / 2) else c / 2
  }

  /** The division: the register after all bits of a message. */
  function Divide(c: nat, bits: seq<bool>): (r: nat)
    decreases |bits|
  {
    if bits == [] then c else Divide(BitStep(c, bits[0]), bits[1..])
  }

  /** The check value crc updated with data. */
  function CrcFrom(crc: nat, data: seq<Byte>): (c: nat)
  {
    Xor(Divide(Xor(crc, ONES), BytesBits(data)), ONES)
  }

  function CrcOf(data: seq<Byte>): (c: nat)
  {
    CrcFrom(0, data)
  }

  // ------------------------------------------------------------------ linearity

  lemma {:induction false} StepLinear(a: nat, b: nat)
    ensures Step(Xor(a, b)) == Xor(Step(a), Step(b))
  {
    hide Xor;
    XorHalf(a, b);
    var x, y := a / 2, b / 2;
    if a % 2 == 1 && b % 2 == 1 {
      XorComm(POLY, y);
      XorSwap(POLY, x, POLY, y);
      XorZero(POLY);
      XorZero(Xor(x, y));
    } else if a % 2 == 1 {
      XorAssoc(POLY, x, y);
    } else if b % 2 == 1 {
      XorAssoc(x, POLY, y);
      XorComm(x, POLY);
      XorAssoc(POLY, x, y);
    }
  }

  lemma {:induction false} StepsLinear(a: nat, b: nat, n: nat)
    ensures Steps(Xor(a, b), n) == Xor(Steps(a, n), Steps(b, n))
    decreases n
  {
    hide Xor, Step;
    if n > 0 {
      StepLinear(a, b);
      StepsLinear(Step(a), Step(b), n - 1);
    }
  }

  lemma {:induction false} StepsAdd(c: nat, m: nat, n: nat)
    ensures Steps(c, m + n) == Steps(Steps(c, m), n)
    decreases m
  {
    hide Step;
    if m > 0 { StepsAdd(Step(c), m - 1, n); }
  }

  lemma {:induction false} StepsOfZero(n: nat)
    ensures Steps(0, n) == 0
  {
    if n > 0 { StepsOfZero(n - 1); }
  }

  /** The low k bits go through the divisor, the others move down. */
  lemma {:induction false} StepsLow(c: nat, k: nat)
    ensures c % Pow2(k) >= 0 && Steps(c, k) == Xor(Steps(c % Pow2(k), k), Shr(c, k))
    decreases k
  {
    hide Xor;
    DivModIdentity(c, Pow2(k));
    if k == 0 {
      XorZero(c);
    } else {
      DivDiv(c, 2, Pow2(k - 1));
      DivModIdentity(c / 2, Pow2(k - 1));
      var low := c % Pow2(k);
      assert low / 2 == c / 2 % Pow2(k - 1) && low % 2 == c % 2;
      StepsLow(c / 2, k - 1);
      if c % 2 == 1 {
        StepsLinear(POLY, c / 2, k - 1);
        StepsLinear(POLY, low / 2, k - 1);
        XorAssoc(Steps(POLY, k - 1), Steps(low / 2, k - 1), Shr(c / 2, k - 1));
      }
    }
  }

  /** The register is a 32-bit number. */
  lemma {:induction false} StepBound(c: nat)
    requires c < Pow2(32)
    ensures Step(c) < Pow2(32)
  {
    hide Xor, Pow2;
    Pow2Of32();
    XorBound(POLY, c / 2, 32);
  }

  lemma {:induction false} Pow2Of32()
    ensures Pow2(24) == 0x100_0000 && Pow2(31) == 0x8000_0000 && Pow2(32) == 0x1_0000_0000
  {
    Pow2Values();
    Pow2Add(16, 8);
    Pow2Add(16, 15);
    Pow2Add(16, 16);
  }

  lemma {:induction false} StepsBound(c: nat, n: nat)
    requires c < Pow2(32)
    ensures Steps(c, n) < Pow2(32)
    decreases n
  {
    hide Step, Pow2;
    if n > 0 {
      StepBound(c);
      StepsBound(Step(c), n - 1);
    }
  }

  // ------------------------------------------------------------------ dividing whole words

  lemma {:induction false} BitStepIs(c: nat, v: nat)
    ensures Step(Xor(c, v)) == Xor(BitStep(c, v % 2 == 1), v / 2)
  {
    hide Xor;
    XorHalf(c, v);
    XorAssoc(POLY, c / 2, v / 2);
  }

  /** k bits of the message at once: added to the register they go through the divisor with it. */
  lemma {:induction false} DivideWord(c: nat, v: nat, k: nat)
    requires v < Pow2(k)
    ensures Divide(c, ToBits(v, k)) == Steps(Xor(c, v), k)
    decreases k
  {
    hide Xor, Step, BitStep;
    if k == 0 {
      XorZero(c);
    } else {
      BitStepIs(c, v);
      DivideWord(BitStep(c, v % 2 == 1), v / 2, k - 1);
    }
  }

  lemma {:induction false} DivideConcat(c: nat, a: seq<bool>, b: seq<bool>)
    ensures Divide(c, a + b) == Divide(Divide(c, a), b)
    decreases |a|
  {
    hide BitStep;
    if a == [] {
      assert a + b == b;
    } else {
      assert (a + b)[1..] == a[1..] + b;
      DivideConcat(BitStep(c, a[0]), a[1..], b);
    }
  }

  lemma {:induction false} BitStepSplit(c: nat, b: bool)
    ensures BitStep(c, b) == Xor(Step(c), BitStep(0, b))
  {
    hide Xor;
    XorZero(POLY);
    XorZero(c / 2);
    XorComm(POLY, c / 2);
    XorTwice(c / 2, POLY);
    XorZero(Xor(POLY, c / 2));
  }

  /** The register before and the message contribute separately. */
  lemma {:induction false} DivideSplit(c: nat, bits: seq<bool>)
    ensures Divide(c, bits) == Xor(Steps(c, |bits|), Divide(0, bits))
    decreases |bits|
  {
    hide Xor, Step, BitStep;
    if bits == [] {
      XorZero(c);
    } else {
      var b, rest := bits[0], bits[1..];
      BitStepSplit(c, b);
      DivideSplit(BitStep(c, b), rest);
      DivideSplit(BitStep(0, b), rest);
      StepsLinear(Step(c), BitStep(0, b), |rest|);
      XorAssoc(Steps(Step(c), |rest|), Steps(BitStep(0, b), |rest|), Divide(0, rest));
    }
  }

  /** The check value of a concatenation: that of the first part, moved on over the second, and that of the second. */
  lemma {:induction false} CrcConcat(a: seq<Byte>, b: seq<Byte>)
    ensures CrcOf(a + b) == Xor(Steps(CrcOf(a), 8 * |b|), CrcOf(b))
  {
    hide Xor, Step, BitStep, Divide, Steps;
    BytesConcat(a, b);
    var x, y, n := BytesBits(a), BytesBits(b), 8 * |b|;
    XorZero(ONES);
    DivideConcat(ONES, x, y);
    var r := Divide(ONES, x);
    DivideSplit(r, y);
    DivideSplit(ONES, y);
    StepsLinear(r, ONES, n);
    Regroup(Steps(r, n), Steps(ONES, n), Divide(0, y));
    CrcIs(a);
    CrcIs(b);
    CrcIs(a + b);
  }

  lemma {:induction false} CrcIs(data: seq<Byte>)
    ensures CrcOf(data) == Xor(Divide(ONES, BytesBits(data)), ONES)
  {
    hide Xor, Divide;
    XorZero(ONES);
  }

  lemma {:induction false} Regroup(p: nat, q: nat, d: nat)
    ensures Xor(Xor(p, d), ONES) == Xor(Xor(p, q), Xor(Xor(q, d), ONES))
  {
    hide Xor;
    var w := Xor(d, ONES);
    XorAssoc(p, d, ONES);
    XorAssoc(q, d, ONES);
    XorAssoc(p, q, Xor(q, w));
    XorAssoc(q, q, w);
    XorZero(q);
    XorZero(w);
  }
}
