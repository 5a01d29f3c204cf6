/** The running hash of deflate.c: UPDATE_HASH, and why after three updates it depends on the last three bytes only. */
module HashKey {
  import opened Bits
  import opened ExclusiveOr
  import opened BitWriter

  /** How the hash is taken: bits is its width, shift how far it moves with every byte. */
  datatype Hashing = Hashing(bits: nat, shift: nat)

  /** After three updates a byte has been shifted out. */
  predicate HashingOk(h: Hashing)
  {
    8 <= h.bits <= 16 && h.bits <= 3 * h.shift
  }

  /** UPDATE_HASH. */
  function Update(h: Hashing, key: nat, c: Byte): (r: nat)
    ensures r < Pow2(h.bits)
  {
    MulMono(0, key, Pow2(h.shift));
    DivModIdentity(Xor(key * Pow2(h.shift), c), Pow2(h.bits));
    Xor(key * Pow2(h.shift), c) % Pow2(h.bits)
  }

  /** The key of a string of three bytes. */
  function Key(h: Hashing, a: Byte, b: Byte, c: Byte): (r: nat)
    ensures r < Pow2(h.bits)
  {
    Update(h, Update(h, a, b), c)
  }

  /** Updating key with any byte gives the key of a, b and that byte. */
  ghost predicate Primed(h: Hashing, key: nat, a: Byte, b: Byte)
  {
    forall c: Byte :: Update(h, key, c) == Key(h, a, b, c)
  }

  lemma {:induction false} UpdateBit(h: Hashing, key: nat, c: Byte, i: nat)
    ensures Bit(Update(h, key, c), i) <==> i < h.bits && ((i >= h.shift && Bit(key, i - h.shift)) != Bit(c, i))
  {
    hide Bit, Xor, Pow2;
    MulMono(0, key, Pow2(h.shift));
    MaskBit(Xor(key * Pow2(h.shift), c), h.bits, i);
    XorBit(key * Pow2(h.shift), c, i);
    ShiftBit(key, h.shift, i);
  }

  /** The oldest byte no longer takes part. */
  lemma {:induction false} KeyRolls(h: Hashing, z: Byte, a: Byte, b: Byte)
    requires HashingOk(h)
    ensures Primed(h, Key(h, z, a, b), a, b)
  {
    hide Bit, Update;
    forall c: Byte ensures Update(h, Key(h, z, a, b), c) == Key(h, a, b, c) {
      forall i: nat ensures Bit(Update(h, Key(h, z, a, b), c), i) == Bit(Key(h, a, b, c), i) {
        var s := h.shift;
        UpdateBit(h, Key(h, z, a, b), c, i);
        UpdateBit(h, Update(h, a, b), c, i);
        if s <= i < h.bits {
          UpdateBit(h, Update(h, z, a), b, i - s);
          UpdateBit(h, a, b, i - s);
          if 2 * s <= i { UpdateBit(h, z, a, i - 2 * s); }
        }
      }
      SameBits(Update(h, Key(h, z, a, b), c), Key(h, a, b, c));
    }
  }

  lemma {:induction false} PrimedStart(h: Hashing, a: Byte, b: Byte)
    ensures Primed(h, Update(h, a, b), a, b)
  {
    hide Update;
  }

  lemma {:induction false} ByteBound(c: Byte, i: nat)
    requires i >= 8
    ensures !Bit(c, i)
  {
    hide Bit;
    Pow2Values();
    MaskBit(c, 8, i);
  }

  /** With the same key and the same first two bytes the third bytes are the same: why longest_match can leave
      out one comparison. */
  lemma {:induction false} KeyThird(h: Hashing, a: Byte, b: Byte, c: Byte, d: Byte)
    requires HashingOk(h) && Key(h, a, b, c) == Key(h, a, b, d)
    ensures c == d
  {
    hide Bit, Update;
    forall i: nat ensures Bit(c, i) == Bit(d, i) {
      if i < 8 {
        UpdateBit(h, Update(h, a, b), c, i);
        UpdateBit(h, Update(h, a, b), d, i);
      } else {
        ByteBound(c, i);
        ByteBound(d, i);
      }
    }
    SameBits(c, d);
  }

  /** The three bytes one above the other: the key is their sum without carry, cut to its width. */
  function Stacked(h: Hashing, a: Byte, b: Byte, c: Byte): (v: nat)
  {
    MulMono(0, a, Pow2(2 * h.shift));
    MulMono(0, b, Pow2(h.shift));
    Xor(Xor(a * Pow2(2 * h.shift), b * Pow2(h.shift)), c)
  }

  lemma {:induction false} StackedBit(h: Hashing, a: Byte, b: Byte, c: Byte, i: nat)
    ensures Bit(Stacked(h, a, b, c), i) <==>
        ((i >= 2 * h.shift && Bit(a, i - 2 * h.shift)) != (i >= h.shift && Bit(b, i - h.shift))) != Bit(c, i)
  {
    hide Bit, Xor, Pow2;
    var s := h.shift;
    MulMono(0, a, Pow2(2 * s));
    MulMono(0, b, Pow2(s));
    XorBit(Xor(a * Pow2(2 * s), b * Pow2(s)), c, i);
    XorBit(a * Pow2(2 * s), b * Pow2(s), i);
    ShiftBit(a, 2 * s, i);
    ShiftBit(b, s, i);
  }

  lemma {:induction false} KeyIs(h: Hashing, a: Byte, b: Byte, c: Byte)
    ensures Stacked(h, a, b, c) % Pow2(h.bits) >= 0 && Key(h, a, b, c) == Stacked(h, a, b, c) % Pow2(h.bits)
  {
    hide Bit, Update, Stacked;
    var v := Stacked(h, a, b, c);
    DivModIdentity(v, Pow2(h.bits));
    forall i: nat ensures Bit(Key(h, a, b, c), i) == Bit(v % Pow2(h.bits), i) {
      var s := h.shift;
      MaskBit(v, h.bits, i);
      StackedBit(h, a, b, c, i);
      UpdateBit(h, Update(h, a, b), c, i);
      if s <= i < h.bits { UpdateBit(h, a, b, i - s); }
    }
    SameBits(Key(h, a, b, c), v % Pow2(h.bits));
  }
}
