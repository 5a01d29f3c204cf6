/** The bit accumulator of inflate.c: PULLBYTE, NEEDBITS, BITS, DROPBITS and BYTEBITS as views of the sequence
    of bits still to be read. */
module BitReader {
  import opened Bits
  import opened BitWriter
  import opened Decoder

  class Reader {
    /** The input of this call; the bytes from next on are unread. */
    var input: seq<Byte>
    var next: nat
    var hold: nat
    var bits: nat

    ghost predicate Valid()
      reads this
    {
      next <= |input| && hold < Pow2(bits)
    }

    /** The bits not yet used: those in the accumulator, then those of the unread bytes. */
    ghost function Rest(): (b: seq<bool>)
      reads this
      requires next <= |input|
      ensures |b| == bits + 8 * (|input| - next)
    {
      ToBits(hold, bits) + BytesBits(input[next..])
    }

    constructor ()
      ensures Valid() && Rest() == [] && input == [] && bits == 0
    {
      input, next, hold, bits := [], 0, 0, 0;
      new;
      NoBits();
      NoBytes();
    }

    /** The input of the next call: what was left unread, and more behind it. */
    method Feed(more: seq<Byte>)
      requires Valid()
      modifies this`input, this`next
      ensures Valid() && next == 0 && input == old(input[next..]) + more && Rest() == old(Rest()) + BytesBits(more)
      ensures hold == old(hold) && bits == old(bits)
    {
      hide ToBits, Pow2;
      BytesConcat(input[next..], more);
      assert ToBits(hold, bits) + BytesBits(input[next..]) + BytesBits(more) == ToBits(hold, bits) +
        (BytesBits(input[next..]) + BytesBits(more));
      input, next := input[next..] + more, 0;
      assert input[0..] == input;
    }

    method PullByte()
      requires Valid() && next < |input|
      modifies this`next, this`hold, this`bits
      ensures Valid() && Rest() == old(Rest()) && next == old(next) + 1 && bits == old(bits) + 8
    {
      hide Pow2, ToBits, BytesBits;
      FirstByte(input[next..]);
      assert input[next..][1..] == input[next + 1..];
      ghost var h := hold;
      AppendByte(hold, bits, input[next]);
      assert ToBits(hold, bits) + (ToBits(input[next], 8) + BytesBits(input[next + 1..]))
          == ToBits(hold, bits) + ToBits(input[next], 8) + BytesBits(input[next + 1..]);
      hold := hold + input[next] * Pow2(bits);
      bits := bits + 8;
      next := next + 1;
    }

    /** A whole byte of stored data; the accumulator is empty. */
    method TakeByte() returns (x: Byte)
      requires Valid() && bits == 0 && next < |input|
      modifies this`next
      ensures Valid() && |old(Rest())| >= 8 && x == Field(old(Rest()), 0, 8) && Rest() == old(Rest())[8..]
          && next == old(next) + 1
    {
      hide Pow2, ToBits, BytesBits, FromBits;
      x := input[next];
      NoBits();
      FirstByte(input[next..]);
      ByteField(x, BytesBits(input[next + 1..]));
      assert input[next..][1..] == input[next + 1..];
      assert Rest() == BytesBits(input[next..]);
      next := next + 1;
      assert Rest() == BytesBits(input[next..]);
    }

    /** Loads bytes until there are n bits; false when the input ends first. */
    method NeedBits(n: nat) returns (ok: bool)
      requires Valid()
      modifies this`next, this`hold, this`bits
      ensures Valid() && Rest() == old(Rest()) && old(next) <= next
      ensures if ok then bits >= n else next == |input| && |Rest()| < n
      ensures bits <= if old(bits) > n + 7 then old(bits) else n + 7
    {
      while bits < n
        invariant Valid() && Rest() == old(Rest()) && old(next) <= next
        invariant bits <= if old(bits) > n + 7 then old(bits) else n + 7
        decreases |input| - next
      {
        if next == |input| { return false; }
        PullByte();
      }
      ok := true;
    }

    /** Gives whole unused bytes back to the input, none that was held when reading started at next0. */
    method ReturnBytes(next0: nat)
      requires Valid() && next0 <= next && Ends(Rest(), BytesBits(input[next0..]))
          && |Rest()| < 8 * (|input| - next0) + 8
      modifies this`next, this`hold, this`bits
      ensures Valid() && Rest() == old(Rest()) && bits == old(bits) % 8 && next0 <= next <= old(next)
    {
      hide Pow2, ToBits, BytesBits, Ends;
      ghost var b, tail := Rest(), BytesBits(input[next0..]);
      var len: nat := bits / 8;
      ghost var k: nat := bits % 8;
      Dropped(hold, bits, k);
      HeldMod(hold, bits, k);
      assert b[..k] == ToBits(hold, k);
      next := next - len;
      assert input[next0..][next - next0..] == input[next..];
      BytesSuffix(input[next0..], next - next0);
      EndsPart(b, tail, k);
      assert b == b[..k] + b[k..];
      bits := bits - len * 8;
      hold := hold % Pow2(bits);
    }

    /** The low n bits. */
    function LowBits(n: nat): (r: nat)
      reads this
    {
      hold % Pow2(n)
    }

    lemma {:induction false} LowBitsAre(n: nat)
      requires Valid() && n <= bits
      ensures |Rest()| >= n && LowBits(n) == Field(Rest(), 0, n)
    {
      hide Pow2, ToBits, BytesBits, FromBits;
      FieldOfHold(hold, bits, BytesBits(input[next..]), 0, n);
      NoBits();
    }

    method DropBits(n: nat)
      requires Valid() && n <= bits
      modifies this`hold, this`bits
      ensures Valid() && n <= |old(Rest())| && Rest() == old(Rest())[n..] && bits == old(bits) - n
      ensures hold == old(Shr(hold, n))
    {
      hide Pow2, ToBits, BytesBits;
      ghost var tail := BytesBits(input[next..]);
      ghost var b := Rest();
      Dropped(hold, bits, n);
      hold := hold / Pow2(n);
      bits := bits - n;
      assert b[n..] == ToBits(hold, bits) + tail;
    }

    /** Drops the bits up to the next byte boundary. */
    method ByteBits()
      requires Valid()
      modifies this`hold, this`bits
      ensures Valid() && |old(Rest())| % 8 <= |old(Rest())| && Rest() == old(Rest())[|old(Rest())| % 8..]
      ensures bits == old(bits) - old(bits) % 8
    {
      assert |Rest()| % 8 == bits % 8;
      DropBits(bits % 8);
    }
  }

  /** One of the two ends with the other. */
  ghost predicate Ends(a: seq<bool>, b: seq<bool>)
  {
    if |a| <= |b| then a == b[|b| - |a|..] else b == a[|a| - |b|..]
  }

  lemma {:induction false} EndsAfter(x: seq<bool>, tail: seq<bool>, k: nat)
    requires k <= |x + tail|
    ensures Ends((x + tail)[k..], tail)
  {
    var a := (x + tail)[k..];
    if |a| > |tail| { assert a == x[k..] + tail; } else { assert a == tail[k - |x|..]; }
  }

  lemma {:induction false} EndsPart(a: seq<bool>, b: seq<bool>, k: nat)
    requires Ends(a, b) && k <= |a| && |a| - k <= |b|
    ensures a[k..] == b[|b| - (|a| - k)..]
  {
  }

  lemma {:induction false} BytesSuffix(s: seq<Byte>, k: nat)
    requires k <= |s|
    ensures |BytesBits(s)| == 8 * |s| && BytesBits(s)[8 * k..] == BytesBits(s[k..])
  {
    hide BytesBits;
    assert s == s[..k] + s[k..];
    BytesConcat(s[..k], s[k..]);
  }

  lemma {:induction false} FirstByte(s: seq<Byte>)
    requires s != []
    ensures BytesBits(s) == ToBits(s[0], 8) + BytesBits(s[1..])
  {
  }

  lemma {:induction false} ByteField(x: Byte, tail: seq<bool>)
    ensures |ToBits(x, 8) + tail| >= 8 && Field(ToBits(x, 8) + tail, 0, 8) == x && (ToBits(x, 8) + tail)[8..] == tail
  {
    hide ToBits, FromBits;
    assert (ToBits(x, 8) + tail)[0..8] == ToBits(x, 8);
    FromToBits(x, 8);
    Pow2Values();
  }

  lemma {:induction false} AppendByte(hold: nat, bits: nat, b: Byte)
    requires hold < Pow2(bits)
    ensures 0 <= b * Pow2(bits) && hold + b * Pow2(bits) < Pow2(bits + 8)
    ensures ToBits(hold + b * Pow2(bits), bits + 8) == ToBits(hold, bits) + ToBits(b, 8)
  {
    hide Pow2, ToBits;
    Pow2Values();
    ToBitsJoin(hold, bits, b, 8);
    Pow2Add(bits, 8);
    MulMono(0, b, Pow2(bits));
    MulMono(b + 1, 256, Pow2(bits));
    Distribute(b, 1, Pow2(bits));
    MulComm(Pow2(bits), 256);
  }

  /** A field of the accumulator. */
  lemma {:induction false} FieldOfHold(hold: nat, bits: nat, tail: seq<bool>, i: nat, n: nat)
    requires i + n <= bits
    ensures i + n <= |ToBits(hold, bits) + tail| && Field(ToBits(hold, bits) + tail, i, n) == Shr(hold, i) % Pow2(n)
  {
    hide Pow2, ToBits, FromBits;
    var b := ToBits(hold, bits) + tail;
    ToBitsSplit(hold, i, bits - i);
    ToBitsSplit(Shr(hold, i), n, bits - i - n);
    var x, y, z := ToBits(hold, i), ToBits(Shr(hold, i), n), ToBits(Shr(Shr(hold, i), n), bits - i - n);
    assert b == x + (y + z) + tail;
    assert b[i..i + n] == y;
    FromToBits(Shr(hold, i), n);
  }

  lemma {:induction false} HeldMod(hold: nat, bits: nat, k: nat)
    requires k <= bits
    ensures 0 <= hold % Pow2(k) < Pow2(k) && ToBits(hold % Pow2(k), k) == ToBits(hold, k)
  {
    hide Pow2, ToBits;
    DivModIdentity(hold, Pow2(k));
    ToBitsMod(hold, k, k);
  }

  lemma {:induction false} Dropped(hold: nat, bits: nat, n: nat)
    requires n <= bits && hold < Pow2(bits)
    ensures ToBits(hold, bits) == ToBits(hold, n) + ToBits(Shr(hold, n), bits - n) && Shr(hold, n) < Pow2(bits - n)
  {
    hide Pow2, ToBits;
    ToBitsSplit(hold, n, bits - n);
    Pow2Add(n, bits - n);
    DivModIdentity(hold, Pow2(n));
    if Shr(hold, n) >= Pow2(bits - n) {
      MulMono(Pow2(bits - n), Shr(hold, n), Pow2(n));
      MulComm(Pow2(bits - n), Pow2(n));
    }
  }
}
