/** The loops of crc32.c that take four bytes at once, for machines of either byte order. */
module CrcWords {
  import opened Wrappers
  import opened Bits
  import opened ExclusiveOr
  import opened BitWriter
  import opened ByteSwap
  import opened CrcSpec
  import opened Crc

  // ------------------------------------------------------------------ four bytes

  /** The low byte goes through the divisor apart from the others. */
  lemma {:induction false} Peel(x: nat, k: nat)
    ensures Steps(x, k + 8) == Xor(Steps(x % 0x100, k + 8), Steps(x / 0x100, k))
  {
    hide Xor, Steps;
    Pow2Values();
    StepsLow(x, 8);
    StepsAdd(x, 8, k);
    StepsAdd(x % 0x100, 8, k);
    StepsLinear(Steps(x % 0x100, 8), x / 0x100, k);
  }

  /** Each byte of a word goes through the divisor on its own. */
  lemma {:induction false} WordSteps(x: nat)
    requires x < 0x1_0000_0000
    ensures Steps(x, 32) == Xor(Steps(ByteAt(x, 0), 32),
        Xor(Steps(ByteAt(x, 1), 24), Xor(Steps(ByteAt(x, 2), 16), Steps(ByteAt(x, 3), 8))))
  {
    hide Xor, Steps;
    Shifts(x);
    Composed(x);
    Peel(x, 24);
    Peel(x / 0x100, 16);
    Peel(x / 0x1_0000, 8);
  }

  lemma {:induction false} WordBits(b0: Byte, b1: Byte, b2: Byte, b3: Byte)
    ensures BytesBits([b0, b1, b2, b3]) == ToBits(Compose(b0, b1, b2, b3), 32)
  {
    hide ToBits, BytesBits, Pow2;
    Pow2Values();
    var x2 := b2 + 0x100 * b3;
    var x1 := b1 + 0x100 * x2;
    ToBitsJoin(b2, 8, b3, 8);
    ToBitsJoin(b1, 8, x2, 16);
    ToBitsJoin(b0, 8, x1, 24);
    OneByte(b0);
    OneByte(b1);
    OneByte(b2);
    OneByte(b3);
    BytesConcat([b2], [b3]);
    BytesConcat([b1], [b2] + [b3]);
    BytesConcat([b0], [b1] + ([b2] + [b3]));
    assert [b0, b1, b2, b3] == [b0] + ([b1] + ([b2] + [b3]));
  }

  /** The word at i as a little-endian machine reads it. */
  function WordAt(buf: seq<Byte>, i: nat): (w: nat)
    requires i + 4 <= |buf|
  {
    Compose(buf[i], buf[i + 1], buf[i + 2], buf[i + 3])
  }

  /** The register after four more bytes. */
  function FourOn(c: nat, w: nat): (r: nat)
  {
    Steps(Xor(c, w), 32)
  }

  lemma {:induction false} DoneFour(c: nat, crc: nat, buf: seq<Byte>, i: nat)
    requires i + 4 <= |buf| && DoneTo(c, crc, buf, i)
    ensures WordAt(buf, i) < 0x1_0000_0000 && DoneTo(FourOn(c, WordAt(buf, i)), crc, buf, i + 4)
  {
    hide Xor, Steps, Divide, ToBits, BytesBits, DoneTo, Compose, Pow2;
    Pow2Of32();
    BytesOf(buf[i], buf[i + 1], buf[i + 2], buf[i + 3]);
    WordBits(buf[i], buf[i + 1], buf[i + 2], buf[i + 3]);
    assert buf[i..i + 4] == [buf[i], buf[i + 1], buf[i + 2], buf[i + 3]];
    DoneMore(c, crc, buf, i, i + 4);
    DivideWord(c, WordAt(buf, i), 32);
  }

  // ------------------------------------------------------------------ little-endian machines

  /** DOLIT4. */
  method LittleFour(t: array2<nat>, c0: nat, ghost crc: nat, buf: seq<Byte>, i: nat) returns (c: nat)
    requires TablesMade(t) && i + 4 <= |buf| && DoneTo(c0, crc, buf, i)
    ensures DoneTo(c, crc, buf, i + 4)
  {
    hide Xor, Steps, Divide, ToBits, BytesBits, ByteAt, Compose, Swap;
    DoneFour(c0, crc, buf, i);
    c := Xor(c0, WordAt(buf, i));
    XorBytes(c0, WordAt(buf, i));
    WordSteps(c);
    ghost var x0, x1, x2, x3 := ByteAt(c, 0), ByteAt(c, 1), ByteAt(c, 2), ByteAt(c, 3);
    Regrouped(t[3, x0], t[2, x1], t[1, x2], t[0, x3]);
    c := Xor(Xor(Xor(t[3, ByteAt(c, 0)], t[2, ByteAt(c, 1)]), t[1, ByteAt(c, 2)]), t[0, ByteAt(c, 3)]);
  }

  lemma {:induction false} Regrouped(a: nat, b: nat, c: nat, d: nat)
    ensures Xor(Xor(Xor(a, b), c), d) == Xor(a, Xor(b, Xor(c, d)))
  {
    hide Xor;
    XorAssoc(Xor(a, b), c, d);
    XorAssoc(a, b, Xor(c, d));
  }

  /** crc32_little; address is where the buffer begins. */
  method Crc32Little(t: array2<nat>, crc0: nat, buf: seq<Byte>, address: nat) returns (r: nat)
    requires TablesMade(t)
    ensures r == CrcFrom(crc0 % 0x1_0000_0000, buf)
  {
    hide Xor, DoneTo, CrcFrom, TablesMade;
    ghost var crc := crc0 % 0x1_0000_0000;
    var c := Xor(crc0 % 0x1_0000_0000, ONES);
    DoneNone(crc, buf);
    var i: nat := 0;
    while i < |buf| && (address + i) % 4 != 0
      invariant i <= |buf| && DoneTo(c, crc, buf, i)
    {
      c := DoOne(t, c, crc, buf, i);
      i := i + 1;
    }
    while |buf| - i >= 32
      invariant i <= |buf| && DoneTo(c, crc, buf, i)
      decreases |buf| - i
    {
      ghost var i0 := i;
      for k := 0 to 8
        invariant i == i0 + 4 * k && i0 + 32 <= |buf| && DoneTo(c, crc, buf, i)
      {
        c := LittleFour(t, c, crc, buf, i);
        i := i + 4;
      }
    }
    while |buf| - i >= 4
      invariant i <= |buf| && DoneTo(c, crc, buf, i)
      decreases |buf| - i
    {
      c := LittleFour(t, c, crc, buf, i);
      i := i + 4;
    }
    while i < |buf|
      invariant i <= |buf| && DoneTo(c, crc, buf, i)
    {
      c := DoOne(t, c, crc, buf, i);
      i := i + 1;
    }
    DoneAll(c, crc, buf);
    r := Xor(c, ONES);
  }

  // ------------------------------------------------------------------ big-endian machines

  /** The register of the big-endian loop holds the bytes in reverse. */
  ghost predicate SwappedTo(c: nat, crc: nat, buf: seq<Byte>, i: nat)
    requires i <= |buf|
  {
    c < 0x1_0000_0000 && DoneTo(Swap(c), crc, buf, i)
  }

  lemma {:induction false} SwapOnes()
    ensures Swap(ONES) == ONES
  {
    assert ONES == Compose(0xff, 0xff, 0xff, 0xff);
    BytesOf(0xff, 0xff, 0xff, 0xff);
  }

  /** Shifting up with the bytes reversed is shifting down. */
  lemma {:induction false} SwapShift(d: nat)
    requires d < 0x1_0000_0000
    ensures Swap(d) * 0x100 % 0x1_0000_0000 == Swap(d / 0x100)
  {
    hide ByteAt;
    var d0, d1, d2, d3 := ByteAt(d, 0), ByteAt(d, 1), ByteAt(d, 2), ByteAt(d, 3);
    Composed(d);
    assert d / 0x100 == Compose(d1, d2, d3, 0) by { DivModOf(d, Compose(d1, d2, d3, 0), 0x100, d0); }
    BytesOf(d1, d2, d3, 0);
    BytesOf(0, d3, d2, d1);
    DivModOf(Swap(d) * 0x100, d0, 0x1_0000_0000, Compose(0, d3, d2, d1));
  }

  lemma {:induction false} LowByteXor(d: nat, b: Byte)
    requires d < 0x1_0000_0000
    ensures Xor(d, b) % 0x100 == Xor(ByteAt(d, 0), b) < 0x100
  {
    hide Xor;
    DivModIdentity(d, 0x100);
    XorByte(d % 0x100, d / 0x100, b, 0);
    DivModOf(Xor(d, b), Xor(d / 0x100, 0), 0x100, Xor(d % 0x100, b));
  }

  /** One byte, with the register reversed. */
  lemma {:induction false} BigByte(t: array2<nat>, c: nat, b: Byte)
    requires TablesMade(t) && c < 0x1_0000_0000
    ensures Xor(ByteAt(c, 3), b) < 0x100
    ensures Xor(t[4, Xor(ByteAt(c, 3), b)], c * 0x100 % 0x1_0000_0000) == Swap(Divide(Swap(c), ToBits(b, 8)))
    ensures Divide(Swap(c), ToBits(b, 8)) < 0x1_0000_0000
  {
    hide Xor, Steps, Divide, ToBits, Swap, ByteAt, Pow2;
    var d := Swap(c);
    SwapBytes(c);
    SwapTwice(c);
    assert ByteAt(d, 0) == ByteAt(c, 3);
    LowByteXor(d, b);
    DivideByte(d, b);
    SwapShift(d);
    var n := Xor(d, b) % 0x100;
    Pow2Of32();
    StepsBound(n, 8);
    DivideBound(d, ToBits(b, 8));
    SwapLinear(Steps(n, 8), d / 0x100);
    assert t[0 + 4, n] == Swap(t[0, n]);
  }

  method BigOne(t: array2<nat>, c0: nat, ghost crc: nat, buf: seq<Byte>, i: nat) returns (c: nat)
    requires TablesMade(t) && i < |buf| && SwappedTo(c0, crc, buf, i)
    ensures SwappedTo(c, crc, buf, i + 1)
  {
    hide Xor, Steps, Divide, ToBits, DoneTo, Swap, ByteAt;
    assert buf[i..i + 1] == [buf[i]];
    OneByte(buf[i]);
    ghost var d := Divide(Swap(c0), ToBits(buf[i], 8));
    DoneMore(Swap(c0), crc, buf, i, i + 1);
    BigByte(t, c0, buf[i]);
    Composed(c0);
    c := Xor(t[4, Xor(c0 / 0x100_0000, buf[i])], c0 * 0x100 % 0x1_0000_0000);
    SwapTwice(d);
    SwapBytes(d);
  }

  lemma {:induction false} SwapFour(a: nat, b: nat, c: nat, d: nat)
    requires a < 0x1_0000_0000 && b < 0x1_0000_0000 && c < 0x1_0000_0000 && d < 0x1_0000_0000
    ensures Xor(Xor(Xor(Swap(d), Swap(c)), Swap(b)), Swap(a)) == Swap(Xor(a, Xor(b, Xor(c, d))))
    ensures Xor(a, Xor(b, Xor(c, d))) < 0x1_0000_0000
  {
    hide Xor, Swap, ByteAt;
    XorBytes(c, d);
    XorBytes(b, Xor(c, d));
    XorBytes(a, Xor(b, Xor(c, d)));
    SwapLinear(c, d);
    SwapLinear(b, Xor(c, d));
    SwapLinear(a, Xor(b, Xor(c, d)));
    XorComm(Swap(d), Swap(c));
    XorComm(Xor(Swap(c), Swap(d)), Swap(b));
    XorComm(Xor(Swap(b), Xor(Swap(c), Swap(d))), Swap(a));
  }

  /** Four bytes, with the register reversed: the tables are used from the other end. */
  lemma {:induction false} BigWord(t: array2<nat>, c: nat)
    requires TablesMade(t) && c < 0x1_0000_0000
    ensures Steps(Swap(c), 32) < 0x1_0000_0000
    ensures Xor(Xor(Xor(t[4, ByteAt(c, 0)], t[5, ByteAt(c, 1)]), t[6, ByteAt(c, 2)]), t[7, ByteAt(c, 3)]) ==
        Swap(Steps(Swap(c), 32))
  {
    hide Xor, Steps, Swap, ByteAt, Pow2;
    var d := Swap(c);
    SwapBytes(c);
    WordSteps(d);
    var d0, d1, d2, d3 := ByteAt(d, 0), ByteAt(d, 1), ByteAt(d, 2), ByteAt(d, 3);
    assert ByteAt(c, 0) == d3 && ByteAt(c, 1) == d2 && ByteAt(c, 2) == d1 && ByteAt(c, 3) == d0;
    Pow2Of32();
    StepsBound(d0, 32);
    StepsBound(d1, 24);
    StepsBound(d2, 16);
    StepsBound(d3, 8);
    SwapFour(Steps(d0, 32), Steps(d1, 24), Steps(d2, 16), Steps(d3, 8));
    assert t[0 + 4, d3] == Swap(t[0, d3]) && t[1 + 4, d2] == Swap(t[1, d2]) && t[2 + 4, d1] == Swap(t[2, d1])
      && t[3 + 4, d0] == Swap(t[3, d0]);
  }

  /** A big-endian machine reads the bytes of a word the other way round. */
  lemma {:induction false} BigRead(c: nat, b0: Byte, b1: Byte, b2: Byte, b3: Byte)
    requires c < 0x1_0000_0000
    ensures Xor(c, Compose(b3, b2, b1, b0)) < 0x1_0000_0000
    ensures Swap(Xor(c, Compose(b3, b2, b1, b0))) == Xor(Swap(c), Compose(b0, b1, b2, b3))
  {
    hide Xor, ByteAt, Compose;
    BytesOf(b3, b2, b1, b0);
    XorBytes(c, Compose(b3, b2, b1, b0));
    SwapLinear(c, Compose(b3, b2, b1, b0));
  }

  /** DOBIG4. */
  method BigFour(t: array2<nat>, c0: nat, ghost crc: nat, buf: seq<Byte>, i: nat) returns (c: nat)
    requires TablesMade(t) && i + 4 <= |buf| && SwappedTo(c0, crc, buf, i)
    ensures SwappedTo(c, crc, buf, i + 4)
  {
    hide Xor, Steps, Divide, ToBits, BytesBits, DoneTo, ByteAt, Compose, Swap;
    DoneFour(Swap(c0), crc, buf, i);
    BigRead(c0, buf[i], buf[i + 1], buf[i + 2], buf[i + 3]);
    c := Xor(c0, Compose(buf[i + 3], buf[i + 2], buf[i + 1], buf[i]));
    BigWord(t, c);
    ghost var d := Steps(Swap(c), 32);
    c := Xor(Xor(Xor(t[4, ByteAt(c, 0)], t[5, ByteAt(c, 1)]), t[6, ByteAt(c, 2)]), t[7, ByteAt(c, 3)]);
    SwapTwice(d);
    SwapBytes(d);
  }

  lemma {:induction false} SwappedNone(crc: nat, buf: seq<Byte>)
    requires crc < 0x1_0000_0000
    ensures SwappedTo(Xor(Swap(crc), ONES), crc, buf, 0)
  {
    hide Xor, Swap, DoneTo, ByteAt;
    SwapOnes();
    SwapBytes(crc);
    SwapTwice(crc);
    SwapLinear(Swap(crc), ONES);
    XorBytes(Swap(crc), ONES);
    DoneNone(crc, buf);
  }

  lemma {:induction false} SwappedAll(c: nat, crc: nat, buf: seq<Byte>)
    requires SwappedTo(c, crc, buf, |buf|)
    ensures Swap(Xor(c, ONES)) == CrcFrom(crc, buf)
  {
    hide Xor, Swap, DoneTo, CrcFrom;
    SwapOnes();
    SwapLinear(c, ONES);
    DoneAll(Swap(c), crc, buf);
  }

  /** crc32_big. */
  method Crc32Big(t: array2<nat>, crc0: nat, buf: seq<Byte>, address: nat) returns (r: nat)
    requires TablesMade(t)
    ensures r == CrcFrom(crc0 % 0x1_0000_0000, buf)
  {
    hide Xor, SwappedTo, CrcFrom, TablesMade, Swap;
    ghost var crc := crc0 % 0x1_0000_0000;
    var c := Xor(Swap(crc0 % 0x1_0000_0000), ONES);
    SwappedNone(crc, buf);
    var i: nat := 0;
    while i < |buf| && (address + i) % 4 != 0
      invariant i <= |buf| && SwappedTo(c, crc, buf, i)
    {
      c := BigOne(t, c, crc, buf, i);
      i := i + 1;
    }
    while |buf| - i >= 32
      invariant i <= |buf| && SwappedTo(c, crc, buf, i)
      decreases |buf| - i
    {
      ghost var i0 := i;
      for k := 0 to 8
        invariant i == i0 + 4 * k && i0 + 32 <= |buf| && SwappedTo(c, crc, buf, i)
      {
        c := BigFour(t, c, crc, buf, i);
        i := i + 4;
      }
    }
    while |buf| - i >= 4
      invariant i <= |buf| && SwappedTo(c, crc, buf, i)
      decreases |buf| - i
    {
      c := BigFour(t, c, crc, buf, i);
      i := i + 4;
    }
    while i < |buf|
      invariant i <= |buf| && SwappedTo(c, crc, buf, i)
    {
      c := BigOne(t, c, crc, buf, i);
      i := i + 1;
    }
    SwappedAll(c, crc, buf);
    r := Swap(Xor(c, ONES));
  }

  // ------------------------------------------------------------------ the entry point

  /** How a machine stores a word, or that the loops over words are left out. */
  datatype Machine = Little | Big | BytesOnly

  /** crc32: the value of the data whatever the machine and wherever the buffer begins; without a buffer zero. */
  method Crc32(t: array2<nat>, crc: nat, buf: Option<seq<Byte>>, address: nat, machine: Machine) returns (r: nat)
    requires TablesMade(t) && crc < 0x1_0000_0000
    ensures r == if buf.None? then 0 else CrcFrom(crc, buf.value)
  {
    hide CrcFrom, TablesMade;
    if buf.None? { return 0; }
    match machine {
      case Little => r := Crc32Little(t, crc, buf.value, address);
      case Big => r := Crc32Big(t, crc, buf.value, address);
      case BytesOnly => r := Crc32Bytes(t, crc, buf.value);
    }
  }
}
