/** The bit buffer of trees.c: send_bits, put_short, bi_flush, bi_windup and copy_block as views of one
    sequence of bits. */
module BitWriter {
  import opened Bits

  type Byte = b: nat | b < 256

  /** The bits of a byte sequence, each byte least significant bit first (section 3.1.1 of RFC 1951). */
  function BytesBits(s: seq<Byte>): (b: seq<bool>)
    ensures |b| == 8 * |s|
  {
    if s == [] then [] else ToBits(s[0], 8) + BytesBits(s[1..])
  }

  lemma {:induction false} BytesConcat(a: seq<Byte>, b: seq<Byte>)
    ensures BytesBits(a + b) == BytesBits(a) + BytesBits(b)
  {
    if a == [] {
      assert a + b == b;
    } else {
      BytesConcat(a[1..], b);
      assert (a + b)[1..] == a[1..] + b;
      assert ToBits(a[0], 8) + (BytesBits(a[1..]) + BytesBits(b)) == ToBits(a[0], 8) + BytesBits(a[1..]) + BytesBits(b);
    }
  }

  lemma {:induction false} BytesOne(b: Byte)
    ensures BytesBits([b]) == ToBits(b, 8)
  {
    assert [b][1..] == [];
  }

  /** The bits of a byte sequence determine it. */
  lemma {:induction false} BytesInjective(a: seq<Byte>, b: seq<Byte>)
    requires BytesBits(a) == BytesBits(b)
    ensures a == b
  {
    hide ToBits, Pow2;
    if a != [] {
      var x, y := BytesBits(a), BytesBits(b);
      assert x[..8] == ToBits(a[0], 8) && y[..8] == ToBits(b[0], 8);
      assert x[8..] == BytesBits(a[1..]) && y[8..] == BytesBits(b[1..]);
      ByteOfBits(a[0]);
      ByteOfBits(b[0]);
      BytesInjective(a[1..], b[1..]);
    }
  }

  lemma {:induction false} ByteOfBits(b: Byte)
    ensures FromBits(ToBits(b, 8)) == b
  {
    FromToBits(b, 8);
    Pow2Values();
  }

  /** Zero bits up to the next byte boundary. */
  function Padding(n: nat): (b: seq<bool>)
    ensures (n + |b|) % 8 == 0 && |b| < 8
  {
    ToBits(0, (8 - n % 8) % 8)
  }

  class Writer {
    /** The bytes put out so far (pending_buf[..pending]). */
    var pending: seq<Byte>
    var biBuf: nat
    var biValid: nat

    ghost predicate Valid()
      reads this
    {
      biValid <= 16 && biBuf < Pow2(biValid)
    }

    /** All bits written. */
    ghost function Bits(): (b: seq<bool>)
      reads this
      ensures |b| == 8 * |pending| + biValid
    {
      BytesBits(pending) + ToBits(biBuf, biValid)
    }

    constructor ()
      ensures Valid() && Bits() == [] && pending == []
    {
      pending, biBuf, biValid := [], 0, 0;
    }

    method PutByte(b: Byte)
      modifies this`pending
      ensures pending == old(pending) + [b]
    {
      pending := pending + [b];
    }

    /** Two bytes, the low one first. */
    method PutShort(w: nat)
      requires w < 0x1_0000
      modifies this`pending
      ensures BytesBits(pending) == BytesBits(old(pending)) + ToBits(w, 16) && |pending| == |old(pending)| + 2
    {
      hide Pow2, ToBits, BytesBits;
      ShortBits(w);
      BytesConcat(pending, [w % 256]);
      BytesConcat(pending + [w % 256], [w / 256]);
      BytesOne(w % 256);
      BytesOne(w / 256);
      assert BytesBits(pending) + (ToBits(w % 256, 8) + ToBits(w / 256, 8)) == BytesBits(pending) +
        ToBits(w % 256, 8) + ToBits(w / 256, 8);
      PutByte(w % 256);
      PutByte(w / 256);
    }

    /** Appends the low bits of a value that fits in them. */
    method SendBits(value: nat, length: nat)
      requires Valid() && length <= 16 && value < Pow2(length)
      modifies this
      ensures Valid() && Bits() == old(Bits()) + ToBits(value, length)
    {
      hide Pow2, ToBits, BytesBits;
      ghost var valid0, buf0, before := biValid, biBuf, BytesBits(pending);
      Pow2Values();
      if biValid > 16 - length {
        SplitValue(value, length, biBuf, biValid);
        Shl16(value, biValid);
        biBuf := biBuf + value * Pow2(biValid) % 0x1_0000;
        PutShort(biBuf);
        biBuf := value / Pow2(16 - biValid);
        biValid := biValid + length - 16;
        assert before + ToBits(buf0, valid0) + ToBits(value, length)
            == before + (ToBits(buf0, valid0) + ToBits(value, length));
        assert BytesBits(pending) + ToBits(biBuf, biValid)
            == before + (ToBits(buf0 + value * Pow2(valid0) % 0x1_0000, 16) + ToBits(biBuf, biValid));
      } else {
        ToBitsJoin(biBuf, biValid, value, length);
        Appended(biBuf, biValid, value, length);
        biBuf := biBuf + value * Pow2(biValid) % 0x1_0000;
        biValid := biValid + length;
        assert before + (ToBits(buf0, valid0) + ToBits(value, length)) == before + ToBits(buf0, valid0) +
          ToBits(value, length);
      }
    }

    /** Writes out the whole bytes of the bit buffer; at most 7 bits stay in it. */
    method Flush()
      requires Valid()
      modifies this
      ensures Valid() && Bits() == old(Bits()) && biValid < 8
    {
      hide Pow2, ToBits, BytesBits;
      ghost var before := BytesBits(pending);
      Pow2Values();
      NoBits();
      if biValid == 16 {
        PutShort(biBuf);
        biBuf, biValid := 0, 0;
      } else if biValid >= 8 {
        LowByte(biBuf, biValid);
        BytesConcat(pending, [biBuf % 256]);
        BytesOne(biBuf % 256);
        ghost var buf0, valid0 := biBuf, biValid;
        PutByte(biBuf % 256);
        biBuf := biBuf / 256;
        biValid := biValid - 8;
        assert before + (ToBits(buf0 % 256, 8) + ToBits(biBuf, biValid)) == before + ToBits(buf0 % 256, 8) +
          ToBits(biBuf, biValid);
      }
    }

    /** Fills up the last byte with zero bits. */
    method Windup()
      requires Valid()
      modifies this
      ensures Valid() && Bits() == old(Bits()) + Padding(|old(Bits())|) && biValid == 0
    {
      hide Pow2, ToBits, BytesBits, Padding;
      ghost var before, buf0, valid0 := BytesBits(pending), biBuf, biValid;
      Pow2Values();
      NoBits();
      PadSame(|pending|, biValid);
      PadIs(biValid);
      PadBits(biBuf, biValid);
      if biValid > 8 {
        PutShort(biBuf);
        assert before + (ToBits(buf0, valid0) + Padding(valid0)) == before + ToBits(buf0, valid0) + Padding(valid0);
      } else if biValid > 0 {
        BytesConcat(pending, [biBuf % 256]);
        BytesOne(biBuf % 256);
        PutByte(biBuf % 256);
        assert before + (ToBits(buf0, valid0) + Padding(valid0)) == before + ToBits(buf0, valid0) + Padding(valid0);
      } else {
        assert before + [] + [] == before + [];
      }
      biBuf, biValid := 0, 0;
      assert BytesBits(pending) + [] == BytesBits(pending);
    }

    /** A stored block's data behind its length and the complement of its length. */
    method CopyBlock(buf: seq<Byte>)
      requires Valid() && |buf| <= 0xffff
      modifies this
      ensures Valid() && biValid == 0
      ensures Bits() == old(Bits()) + Padding(|old(Bits())|)
                      + (ToBits(|buf|, 16) + ToBits(0xffff - |buf|, 16) + BytesBits(buf))
    {
      hide Pow2, ToBits, BytesBits;
      Windup();
      NoBits();
      ghost var b0 := BytesBits(pending);
      assert Bits() == b0 + [];
      PutShort(|buf|);
      PutShort(0xffff - |buf|);
      var i := 0;
      ghost var b1 := BytesBits(pending);
      NoBytes();
      while i < |buf|
        invariant i <= |buf| && biValid == 0 && biBuf == 0
        invariant BytesBits(pending) == b1 + BytesBits(buf[..i])
      {
        BytesConcat(pending, [buf[i]]);
        BytesConcat(buf[..i], [buf[i]]);
        assert buf[..i + 1] == buf[..i] + [buf[i]];
        PutByte(buf[i]);
        i := i + 1;
      }
      assert buf[..|buf|] == buf;
      assert Bits() == b1 + BytesBits(buf) + [];
    }
  }

  lemma {:induction false} NoBytes()
    ensures BytesBits([]) == []
  {
  }

  lemma {:induction false} NoBits()
    ensures ToBits(0, 0) == [] && Pow2(0) == 1
  {
  }

  lemma {:induction false} ShortBits(w: nat)
    requires w < 0x1_0000
    ensures ToBits(w, 16) == ToBits(w % 256, 8) + ToBits(w / 256, 8) && w / 256 < 256
  {
    Pow2Values();
    ToBitsSplit(w, 8, 8);
    ToBitsMod(w, 8, 8);
  }

  lemma {:induction false} LowByte(buf: nat, valid: nat)
    requires 8 <= valid <= 16 && buf < Pow2(valid)
    ensures ToBits(buf, valid) == ToBits(buf % 256, 8) + ToBits(buf / 256, valid - 8) && buf / 256 < Pow2(valid - 8)
  {
    Pow2Values();
    ToBitsSplit(buf, 8, valid - 8);
    ToBitsMod(buf, 8, 8);
    Pow2Add(8, valid - 8);
  }

  /** A value that still fits behind the bits in the buffer. */
  lemma {:induction false} Appended(buf: nat, valid: nat, value: nat, length: nat)
    requires valid + length <= 16 && buf < Pow2(valid) && value < Pow2(length)
    ensures value * Pow2(valid) % 0x1_0000 == value * Pow2(valid)
    ensures 0 <= buf + value * Pow2(valid) < Pow2(valid + length)
  {
    Pow2Values();
    Pow2Add(valid, length);
    Pow2Mono(valid + length, 16);
    MulMono(value + 1, Pow2(length), Pow2(valid));
    MulMono(0, value, Pow2(valid));
    Distribute(value, 1, Pow2(valid));
    MulComm(Pow2(length), Pow2(valid));
  }

  lemma {:induction false} Shl16(value: nat, valid: nat)
    requires valid <= 16
    ensures value * Pow2(valid) % 0x1_0000 == value % Pow2(16 - valid) * Pow2(valid)
    ensures value % Pow2(16 - valid) * Pow2(valid) >= 0
  {
    Pow2Values();
    Pow2Add(valid, 16 - valid);
    var m, q, r := Pow2(16 - valid), value / Pow2(16 - valid), value % Pow2(16 - valid);
    DivModIdentity(value, m);
    MulAddInt(q, m, r, Pow2(valid));
    MulComm(m, Pow2(valid));
    MulMono(0, r, Pow2(valid));
    MulMono(r + 1, m, Pow2(valid));
    Distribute(r, 1, Pow2(valid));
    DivMod(q, 0x1_0000, r * Pow2(valid));
  }

  lemma {:induction false} MulAddInt(t: int, m: int, x: int, p: int)
    ensures (t * m + x) * p == t * (m * p) + x * p
  {
    Distribute(t * m, x, p);
    assert (t * m) * p == t * (m * p);
  }

  /** A value that is split between the buffer and the next one. */
  lemma {:induction false} SplitValue(value: nat, length: nat, buf: nat, valid: nat)
    requires valid <= 16 && length <= 16 < valid + length && buf < Pow2(valid) && value < Pow2(length)
    ensures 0 <= value % Pow2(16 - valid) * Pow2(valid) && buf + value % Pow2(16 - valid) * Pow2(valid) < 0x1_0000
    ensures value / Pow2(16 - valid) >= 0 && value / Pow2(16 - valid) < Pow2(valid + length - 16)
    ensures ToBits(buf, valid) + ToBits(value, length)
         == ToBits(buf + value % Pow2(16 - valid) * Pow2(valid), 16) +
           ToBits(value / Pow2(16 - valid), valid + length - 16)
  {
    hide Pow2, ToBits;
    var a := 16 - valid;
    var lo: nat, hi: nat := value % Pow2(a), Shr(value, a);
    assert hi == value / Pow2(a);
    Pow2Values();
    Appended(buf, valid, lo, a);
    ToBitsJoin(buf, valid, lo, a);
    ToBitsSplit(value, a, length - a);
    ToBitsMod(value, a, a);
    Pow2Add(a, length - a);
    DivModIdentity(value, Pow2(a));
    if hi >= Pow2(length - a) {
      MulMono(Pow2(length - a), hi, Pow2(a));
      MulComm(Pow2(length - a), Pow2(a));
    }
    assert ToBits(buf, valid) + (ToBits(lo, a) + ToBits(hi, length - a)) == ToBits(buf, valid) + ToBits(lo, a) +
      ToBits(hi, length - a);
  }

  lemma {:induction false} PadIs(valid: nat)
    ensures valid <= 8 && valid > 0 ==> Padding(valid) == ToBits(0, 8 - valid)
    ensures 8 < valid <= 16 ==> Padding(valid) == ToBits(0, 16 - valid)
    ensures Padding(0) == []
  {
    hide ToBits;
    assert |ToBits(0, 0)| == 0;
  }

  /** Whole bytes in front do not change the padding. */
  lemma {:induction false} PadSame(k: nat, n: nat)
    ensures Padding(8 * k + n) == Padding(n)
  {
    hide ToBits;
  }

  lemma {:induction false} PadBits(buf: nat, valid: nat)
    requires valid <= 16 && buf < Pow2(valid)
    ensures 0 < valid <= 8 ==> buf < 256 && ToBits(buf % 256, 8) == ToBits(buf, valid) + Padding(valid)
    ensures 8 < valid ==> buf < 0x1_0000 && ToBits(buf, 16) == ToBits(buf, valid) + Padding(valid)
  {
    hide Pow2, ToBits, Padding;
    Pow2Values();
    PadIs(valid);
    if 0 < valid <= 8 {
      Pow2Mono(valid, 8);
      ToBitsJoin(buf, valid, 0, 8 - valid);
    } else if 8 < valid {
      Pow2Mono(valid, 16);
      ToBitsJoin(buf, valid, 0, 16 - valid);
    }
  }
}
