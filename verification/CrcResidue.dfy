/** The residue of CRC-32: the check value of data with its own check value behind, whatever the data.  It tells the
    polynomial and the inversion before and after the division apart from all others. */
module CrcResidue {
  import opened Bits
  import opened ExclusiveOr
  import opened BitWriter
  import opened ByteSwap
  import opened CrcSpec
  import opened Crc
  import opened CrcWords

  // ---------------------------------------------------------------- registers bit by bit

  /** A hexadecimal digit, the highest bit first. */
  datatype Nibble = Nibble(b3: bool, b2: bool, b1: bool, b0: bool)

  /** A register of 32 bits, the highest digit first. */
  datatype Word = Word(n7: Nibble, n6: Nibble, n5: Nibble, n4: Nibble, n3: Nibble, n2: Nibble, n1: Nibble, n0: Nibble)

  const X0 := Nibble(false, false, false, false)
  const X1 := Nibble(false, false, false, true)
  const X2 := Nibble(false, false, true, false)
  const X3 := Nibble(false, false, true, true)
  const X4 := Nibble(false, true, false, false)
  const X5 := Nibble(false, true, false, true)
  const X6 := Nibble(false, true, true, false)
  const X7 := Nibble(false, true, true, true)
  const X8 := Nibble(true, false, false, false)
  const X9 := Nibble(true, false, false, true)
  const XA := Nibble(true, false, true, false)
  const XB := Nibble(true, false, true, true)
  const XC := Nibble(true, true, false, false)
  const XD := Nibble(true, true, false, true)
  const XE := Nibble(true, true, true, false)
  const XF := Nibble(true, true, true, true)

  /** One bit below x. */
  function Two(b: bool, x: nat): (v: nat)
  {
    2 * x + if b then 1 else 0
  }

  function Digit(a: Nibble): (d: nat)
  {
    Two(a.b0, Two(a.b1, Two(a.b2, Two(a.b3, 0))))
  }

  /** One digit below x. */
  function Sixteen(a: Nibble, x: nat): (v: nat)
  {
    16 * x + Digit(a)
  }

  function Value(w: Word): (v: nat)
  {
    Sixteen(w.n0, Sixteen(w.n1, Sixteen(w.n2, Sixteen(w.n3, Sixteen(w.n4, Sixteen(w.n5, Sixteen(w.n6,
      Sixteen(w.n7, 0))))))))
  }

  function AddNibble(a: Nibble, b: Nibble): (c: Nibble)
  {
    Nibble(a.b3 != b.b3, a.b2 != b.b2, a.b1 != b.b1, a.b0 != b.b0)
  }

  function Add(a: Word, b: Word): (c: Word)
  {
    Word(AddNibble(a.n7, b.n7), AddNibble(a.n6, b.n6), AddNibble(a.n5, b.n5), AddNibble(a.n4, b.n4),
      AddNibble(a.n3, b.n3), AddNibble(a.n2, b.n2), AddNibble(a.n1, b.n1), AddNibble(a.n0, b.n0))
  }

  /** The digit one bit to the right, with the lowest bit of the digit above. */
  function Right(a: Nibble, above: Nibble): (c: Nibble)
  {
    Nibble(above.b0, a.b3, a.b2, a.b1)
  }

  function Half(w: Word): (c: Word)
  {
    Word(Right(w.n7, X0), Right(w.n6, w.n7), Right(w.n5, w.n6), Right(w.n4, w.n5), Right(w.n3, w.n4), Right(w.n2, w.n3),
      Right(w.n1, w.n2), Right(w.n0, w.n1))
  }

  function WordStep(w: Word): (c: Word)
  {
    if w.n0.b0 then Add(Word(XE, XD, XB, X8, X8, X3, X2, X0), Half(w)) else Half(w)
  }

  function Four(w: Word): (c: Word)
  {
    WordStep(WordStep(WordStep(WordStep(w))))
  }

  lemma {:induction false} AddTwo(p: bool, x: nat, q: bool, y: nat)
    ensures Xor(Two(p, x), Two(q, y)) == Two(p != q, Xor(x, y))
  {
    hide Xor;
    FromHalves(Two(p, x), Two(q, y), Two(p != q, Xor(x, y)));
  }

  lemma {:induction false} AddSixteen(a: Nibble, x: nat, b: Nibble, y: nat)
    ensures Xor(Sixteen(a, x), Sixteen(b, y)) == Sixteen(AddNibble(a, b), Xor(x, y))
  {
    hide Xor, Two;
    SixteenIs(a, x);
    SixteenIs(b, y);
    SixteenIs(AddNibble(a, b), Xor(x, y));
    AddTwo(a.b3, x, b.b3, y);
    AddTwo(a.b2, Two(a.b3, x), b.b2, Two(b.b3, y));
    AddTwo(a.b1, Two(a.b2, Two(a.b3, x)), b.b1, Two(b.b2, Two(b.b3, y)));
    AddTwo(a.b0, Two(a.b1, Two(a.b2, Two(a.b3, x))), b.b0, Two(b.b1, Two(b.b2, Two(b.b3, y))));
  }

  lemma {:induction false} SixteenIs(a: Nibble, x: nat)
    ensures Sixteen(a, x) == Two(a.b0, Two(a.b1, Two(a.b2, Two(a.b3, x))))
  {
  }

  lemma {:induction false} AddIs(a: Word, b: Word)
    ensures Xor(Value(a), Value(b)) == Value(Add(a, b))
  {
    hide Xor, Sixteen, AddNibble;
    XorZero(0);
    var x6, y6 := Sixteen(a.n6, Sixteen(a.n7, 0)), Sixteen(b.n6, Sixteen(b.n7, 0));
    var x4, y4 := Sixteen(a.n4, Sixteen(a.n5, x6)), Sixteen(b.n4, Sixteen(b.n5, y6));
    var x2, y2 := Sixteen(a.n2, Sixteen(a.n3, x4)), Sixteen(b.n2, Sixteen(b.n3, y4));
    AddSixteen(a.n7, 0, b.n7, 0);
    AddSixteen(a.n6, Sixteen(a.n7, 0), b.n6, Sixteen(b.n7, 0));
    AddSixteen(a.n5, x6, b.n5, y6);
    AddSixteen(a.n4, Sixteen(a.n5, x6), b.n4, Sixteen(b.n5, y6));
    AddSixteen(a.n3, x4, b.n3, y4);
    AddSixteen(a.n2, Sixteen(a.n3, x4), b.n2, Sixteen(b.n3, y4));
    AddSixteen(a.n1, x2, b.n1, y2);
    AddSixteen(a.n0, Sixteen(a.n1, x2), b.n0, Sixteen(b.n1, y2));
  }

  /** Half of a number is the upper bits; its lowest bit comes into the digit below. */
  lemma {:induction false} HalfSixteen(a: Nibble, above: Nibble, x: nat)
    requires x % 2 == 1 <==> above.b0
    ensures Sixteen(a, x) / 2 == Sixteen(Right(a, above), x / 2) && (Sixteen(a, x) % 2 == 1 <==> a.b0)
  {
    hide Two;
    SixteenIs(a, x);
    SixteenIs(Right(a, above), x / 2);
    HalfTwo(above.b0, x / 2);
    HalfTwo(a.b0, Two(a.b1, Two(a.b2, Two(a.b3, x))));
    TwoIs(x);
  }

  lemma {:induction false} HalfTwo(b: bool, x: nat)
    ensures Two(b, x) / 2 == x && (Two(b, x) % 2 == 1 <==> b)
  {
  }

  lemma {:induction false} TwoIs(x: nat)
    ensures x == Two(x % 2 == 1, x / 2)
  {
  }

  lemma {:induction false} HalfIs(w: Word)
    ensures Value(w) / 2 == Value(Half(w)) && (Value(w) % 2 == 1 <==> w.n0.b0)
  {
    hide Sixteen, Right;
    var v6 := Sixteen(w.n6, Sixteen(w.n7, 0));
    var v4 := Sixteen(w.n4, Sixteen(w.n5, v6));
    var v2 := Sixteen(w.n2, Sixteen(w.n3, v4));
    HalfSixteen(w.n7, X0, 0);
    HalfSixteen(w.n6, w.n7, Sixteen(w.n7, 0));
    HalfSixteen(w.n5, w.n6, v6);
    HalfSixteen(w.n4, w.n5, Sixteen(w.n5, v6));
    HalfSixteen(w.n3, w.n4, v4);
    HalfSixteen(w.n2, w.n3, Sixteen(w.n3, v4));
    HalfSixteen(w.n1, w.n2, v2);
    HalfSixteen(w.n0, w.n1, Sixteen(w.n1, v2));
  }

  lemma {:induction false} WordStepIs(w: Word)
    ensures Step(Value(w)) == Value(WordStep(w))
  {
    hide Xor, Half, Add, Value;
    HalfIs(w);
    PolyIs();
    AddIs(Word(XE, XD, XB, X8, X8, X3, X2, X0), Half(w));
  }

  lemma {:induction false} PolyIs()
    ensures Value(Word(XE, XD, XB, X8, X8, X3, X2, X0)) == 0xedb8_8320 == POLY
  {
    assert Sixteen(X8, Sixteen(XB, Sixteen(XD, Sixteen(XE, 0)))) == 0xedb8;
  }

  lemma {:induction false} FourIs(w: Word)
    ensures Steps(Value(w), 4) == Value(Four(w))
  {
    hide Step, WordStep, Value;
    WordStepIs(w);
    WordStepIs(WordStep(w));
    WordStepIs(WordStep(WordStep(w)));
    WordStepIs(WordStep(WordStep(WordStep(w))));
    StepsOne(Value(w), 4);
    StepsOne(Step(Value(w)), 3);
    StepsOne(Step(Step(Value(w))), 2);
    StepsOne(Step(Step(Step(Value(w)))), 1);
    StepsNone(Step(Step(Step(Step(Value(w))))));
  }

  lemma {:induction false} StepsOne(c: nat, n: nat)
    requires n > 0
    ensures Steps(c, n) == Steps(Step(c), n - 1)
  {
    hide Step;
  }

  lemma {:induction false} StepsNone(c: nat)
    ensures Steps(c, 0) == c
  {
  }

  /** What the words before and after four steps do to the steps of before. */
  lemma {:induction false} FourMore(w: Word, v: Word, n: nat)
    requires Four(w) == v
    ensures Steps(Value(w), 4 + n) == Steps(Value(v), n)
  {
    hide Step, Four, Value, Steps;
    FourIs(w);
    StepsAdd(Value(w), 4, n);
  }

  /** A register of ones after 32 zero bits. */
  lemma {:induction false} OnesMoved()
    ensures Steps(0xffff_ffff, 32) == 0xdebb_20e3
  {
    hide Step, Steps, Value, Four;
    FourOfOnes0();
    FourOfOnes1();
    FourOfOnes2();
    FourOfOnes3();
    FourOfOnes4();
    FourOfOnes5();
    FourOfOnes6();
    FourOfOnes7();
    FourMore(Word(XF, XF, XF, XF, XF, XF, XF, XF), Word(XB, X2, X4, X2, X0, XD, XE, X3), 28);
    FourMore(Word(XB, X2, X4, X2, X0, XD, XE, X3), Word(X2, XD, XF, XD, X1, X0, X7, X2), 24);
    FourMore(Word(X2, XD, XF, XD, X1, X0, X7, X2), Word(X3, X9, XB, X1, XF, X1, XC, XF), 20);
    FourMore(Word(X3, X9, XB, X1, XF, X1, XC, XF), Word(XB, XE, X2, X6, XE, XD, X0, X0), 16);
    FourMore(Word(XB, XE, X2, X6, XE, XD, X0, X0), Word(X0, XB, XE, X2, X6, XE, XD, X0), 12);
    FourMore(Word(X0, XB, XE, X2, X6, XE, XD, X0), Word(X0, X0, XB, XE, X2, X6, XE, XD), 8);
    FourMore(Word(X0, X0, XB, XE, X2, X6, XE, XD), Word(X8, X6, XD, X8, X3, X0, XB, XA), 4);
    FourMore(Word(X8, X6, XD, X8, X3, X0, XB, XA), Word(XD, XE, XB, XB, X2, X0, XE, X3), 0);
    StepsNone(Value(Word(XD, XE, XB, XB, X2, X0, XE, X3)));
    OnesAre();
    MovedAre();
  }

  lemma {:induction false} OnesAre()
    ensures Value(Word(XF, XF, XF, XF, XF, XF, XF, XF)) == 0xffff_ffff
  {
    assert Sixteen(XF, Sixteen(XF, Sixteen(XF, Sixteen(XF, 0)))) == 0xffff;
  }

  lemma {:induction false} MovedAre()
    ensures Value(Word(XD, XE, XB, XB, X2, X0, XE, X3)) == 0xdebb_20e3
  {
    assert Sixteen(XB, Sixteen(XB, Sixteen(XE, Sixteen(XD, 0)))) == 0xdebb;
  }

  /** A register of ones after 32 zero bits, inverted. */
  lemma {:induction false} MovedInverted()
    ensures Xor(0xdebb_20e3, 0xffff_ffff) == 0x2144_df1c
  {
    hide Xor, Value;
    OnesAre();
    MovedAre();
    AddIs(Word(XD, XE, XB, XB, X2, X0, XE, X3), Word(XF, XF, XF, XF, XF, XF, XF, XF));
    InvertedAre();
  }

  lemma {:induction false} InvertedAre()
    ensures Value(Add(Word(XD, XE, XB, XB, X2, X0, XE, X3), Word(XF, XF, XF, XF, XF, XF, XF, XF))) == 0x2144_df1c
  {
    assert Sixteen(X4, Sixteen(X4, Sixteen(X1, Sixteen(X2, 0)))) == 0x2144;
  }

  lemma {:induction false} FourOfOnes0()
    ensures Four(Word(XF, XF, XF, XF, XF, XF, XF, XF)) == Word(XB, X2, X4, X2, X0, XD, XE, X3)
  {
  }

  lemma {:induction false} FourOfOnes1()
    ensures Four(Word(XB, X2, X4, X2, X0, XD, XE, X3)) == Word(X2, XD, XF, XD, X1, X0, X7, X2)
  {
  }

  lemma {:induction false} FourOfOnes2()
    ensures Four(Word(X2, XD, XF, XD, X1, X0, X7, X2)) == Word(X3, X9, XB, X1, XF, X1, XC, XF)
  {
  }

  lemma {:induction false} FourOfOnes3()
    ensures Four(Word(X3, X9, XB, X1, XF, X1, XC, XF)) == Word(XB, XE, X2, X6, XE, XD, X0, X0)
  {
  }

  lemma {:induction false} FourOfOnes4()
    ensures Four(Word(XB, XE, X2, X6, XE, XD, X0, X0)) == Word(X0, XB, XE, X2, X6, XE, XD, X0)
  {
  }

  lemma {:induction false} FourOfOnes5()
    ensures Four(Word(X0, XB, XE, X2, X6, XE, XD, X0)) == Word(X0, X0, XB, XE, X2, X6, XE, XD)
  {
  }

  lemma {:induction false} FourOfOnes6()
    ensures Four(Word(X0, X0, XB, XE, X2, X6, XE, XD)) == Word(X8, X6, XD, X8, X3, X0, XB, XA)
  {
  }

  lemma {:induction false} FourOfOnes7()
    ensures Four(Word(X8, X6, XD, X8, X3, X0, XB, XA)) == Word(XD, XE, XB, XB, X2, X0, XE, X3)
  {
  }

  // ---------------------------------------------------------------- the residue

  /** The check value as it stands behind the data, lowest byte first. */
  function Trailer(c: nat): (s: seq<Byte>)
  {
    [ByteAt(c, 0), ByteAt(c, 1), ByteAt(c, 2), ByteAt(c, 3)]
  }

  lemma {:induction false} TrailerBits(c: nat)
    requires c < 0x1_0000_0000
    ensures BytesBits(Trailer(c)) == ToBits(c, 32)
  {
    hide BytesBits, ToBits;
    WordBits(ByteAt(c, 0), ByteAt(c, 1), ByteAt(c, 2), ByteAt(c, 3));
    Composed(c);
  }

  /** Data with its own check value behind always has the same check value. */
  lemma {:induction false} Residue(data: seq<Byte>)
    ensures CrcOf(data) < 0x1_0000_0000 && CrcOf(data + Trailer(CrcOf(data))) == 0x2144_df1c
  {
    hide Xor, Step, BitStep, Divide, Steps, BytesBits, ToBits, Trailer, Pow2;
    var c, r := CrcOf(data), Divide(ONES, BytesBits(data));
    CrcIs(data);
    Pow2Of32();
    DivideBound(ONES, BytesBits(data));
    XorBound(r, ONES, 32);
    TrailerBits(c);
    CrcIs(data + Trailer(c));
    BytesConcat(data, Trailer(c));
    DivideConcat(ONES, BytesBits(data), ToBits(c, 32));
    DivideWord(r, c, 32);
    XorAssoc(r, r, ONES);
    XorZero(r);
    XorZero(ONES);
    OnesMoved();
    MovedInverted();
  }

  /** Four bytes of ones leave the register empty, so that only the inversion at the end is seen. */
  lemma {:induction false} OnesCheck()
    ensures CrcOf([0xff, 0xff, 0xff, 0xff]) == 0xffff_ffff
  {
    hide Xor, Step, Divide, Steps, BytesBits, ToBits, Pow2;
    CrcIs([0xff, 0xff, 0xff, 0xff]);
    Pow2Of32();
    WordBits(0xff, 0xff, 0xff, 0xff);
    DivideWord(ONES, 0xffff_ffff, 32);
    XorZero(ONES);
    StepsOfZero(32);
  }
}
