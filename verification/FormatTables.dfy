/** What the tables that the compressor, the decompressor and the definition of the format share hold, in numbers
    (sections 3.2.3 to 3.2.7 of RFC 1951). */
module FormatTables {
  import opened Wrappers
  import opened Bits
  import opened Canonical
  import opened InflateTable
  import opened StaticTables
  import opened FixedTrees
  import opened RunLength
  import opened BitWriter
  import opened Rfc1951
  import opened Decoder
  import opened BlockTrip
  import opened Blocks

  // ------------------------------------------------------------------ header of a dynamic block

  /** The lengths of the code length code come as 16, 17, 18, 0 and then alternately 8 upwards and 7 downwards. */
  lemma {:induction false} OrderIs(i: nat)
    requires i < 19
    ensures Order(i) == if i < 3 then 16 + i else if i == 3 then 0
        else if i % 2 == 0 then 8 + (i - 4) / 2 else 8 - (i - 3) / 2
    ensures Rank(Order(i)) == i
  {
  }

  /** What reading one symbol of the code length alphabet does: 0 to 15 are lengths, 16 repeats the last length, 17
      and 18 are runs of zeros. */
  lemma {:induction false} RepeatIs(got: seq<nat>, total: nat, it: Item)
    requires ItemOk(it)
    ensures ItemExtra(it.code) == if it.code == 16 then 2 else if it.code == 17 then 3 else if it.code == 18 then 7
        else 0
    ensures it.code < 16 ==> Apply(got, total, it) == Some(got + [it.code])
    ensures it.code == 16 ==>
        Apply(got, total, it) == if got == [] || |got| + 3 + it.extra > total then None
          else Some(got + Fill(got[|got| - 1], 3 + it.extra))
    ensures it.code == 17 ==>
        Apply(got, total, it) == if |got| + 3 + it.extra > total then None else Some(got + Fill(0, 3 + it.extra))
    ensures it.code == 18 ==>
        Apply(got, total, it) == if |got| + 11 + it.extra > total then None else Some(got + Fill(0, 11 + it.extra))
  {
  }

  /** Three bits in front of each block: whether it is the last, and how it is compressed. */
  lemma {:induction false} BlockStarts(blk: Block, last: bool, pos: nat, size: nat)
    requires BlockOk(blk, size)
    ensures |BlockBits(blk, last, pos, size)| >= 3
    ensures BlockBits(blk, last, pos, size)[..3] == [last, blk.FixedBlock?, blk.DynamicBlock?]
  {
    hide BodyBits, TreesBits, StoredBits, Padding, FixedLit, FixedDist, TokensFit, TreesFit, HeadBits;
    HeadIs(0, last);
    HeadIs(1, last);
    HeadIs(2, last);
  }

  lemma {:induction false} HeadIs(kind: nat, last: bool)
    requires kind < 4
    ensures HeadBits(kind, last) == [last, kind % 2 == 1, kind / 2 == 1]
  {
    var v := 2 * kind + if last then 1 else 0;
    ToBitsAt(v, 3, 0);
    ToBitsAt(v, 3, 1);
    ToBitsAt(v, 3, 2);
    Pow2Values();
  }

  /** A stored block sends its length, the complement and the data as bytes, the lower byte of a number first. */
  lemma {:induction false} StoredBytesAre(data: seq<Byte>)
    requires |data| <= 0xffff
    ensures var n := |data|;
            StoredBits(data) == BytesBits([n % 256, n / 256, 255 - n % 256, 255 - n / 256] + data)
  {
    hide ToBits, BytesBits;
    var n := |data|;
    var m := 0xffff - n;
    assert m % 256 == 255 - n % 256 && m / 256 == 255 - n / 256;
    TwoBytes(n);
    TwoBytes(m);
    BytesConcat([n % 256, n / 256], [m % 256, m / 256]);
    assert [n % 256, n / 256] + [m % 256, m / 256] == [n % 256, n / 256, m % 256, m / 256];
    BytesConcat([n % 256, n / 256, m % 256, m / 256], data);
  }

  lemma {:induction false} TwoBytes(v: nat)
    requires v <= 0xffff
    ensures ToBits(v, 16) == BytesBits([v % 256, v / 256])
  {
    hide ToBits, BytesBits;
    Pow2Values();
    ToBitsSplit(v, 8, 8);
    ToBitsMod(v, 8, 8);
    assert v / 256 == Shr(v, 8);
    BytesConcat([v % 256], [v / 256]);
    BytesOne(v % 256);
    BytesOne(v / 256);
    assert [v % 256, v / 256] == [v % 256] + [v / 256];
  }

  // ------------------------------------------------------------------ lengths and distances

  /** The shortest length and the extra bits of a length code. */
  lemma {:induction false} LengthCodeIs(c: nat)
    requires c <= 28
    ensures LBits(c) == if c < 8 || c == 28 then 0 else (c - 4) / 4
    ensures LBase(c) == if c < 8 then 3 + c else if c == 28 then 258 else 3 + (4 + c % 4) * Pow2((c - 4) / 4)
  {
    hide Pow2;
    Pow2Values();
    if c < 8 || c == 28 {
    } else {
      var e := (c - 4) / 4;
      assert 1 <= e <= 5;
    }
  }

  /** The shortest distance and the extra bits of a distance code. */
  lemma {:induction false} DistCodeIs(c: nat)
    requires c <= 29
    ensures DBits(c) == if c < 4 then 0 else c / 2 - 1
    ensures DBase(c) == if c < 4 then 1 + c else 1 + (2 + c % 2) * Pow2(c / 2 - 1)
  {
    hide Pow2;
    Pow2Values();
    Pow2More();
  }

  // ---------------------------------------------------------------- the fixed codes

  /** The lowest n bits of v, the highest of them first. */
  function HighFirst(v: nat, n: nat): (b: seq<bool>)
    ensures |b| == n
  {
    if n == 0 then [] else HighFirst(v / 2, n - 1) + [v % 2 == 1]
  }

  /** Codes are sent with their highest bit first. */
  lemma {:induction false} CodeHighFirst(v: nat, n: nat)
    requires v < Pow2(n)
    ensures ToBits(Rev(v, n), n) == HighFirst(v, n)
    decreases n
  {
    hide Pow2, ToBits;
    if n > 0 {
      HalfBelow(v, n);
      CodeHighFirst(v / 2, n - 1);
      RevBound(v / 2, n - 1);
      ToBitsJoin(Rev(v / 2, n - 1), n - 1, v % 2, 1);
      OneBit(v % 2);
    } else {
      NoneSent(Rev(v, n));
    }
  }

  lemma {:induction false} HalfBelow(v: nat, n: nat)
    requires n > 0 && v < Pow2(n)
    ensures v / 2 < Pow2(n - 1)
  {
  }

  lemma {:induction false} OneBit(v: nat)
    requires v < 2
    ensures ToBits(v, 1) == [v == 1]
  {
  }

  lemma {:induction false} NoneSent(v: nat)
    ensures ToBits(v, 0) == []
  {
  }

  /** The bits of a symbol in the fixed code for literals and lengths. */
  function FixedBits(s: nat): (b: seq<bool>)
    requires s < 288
  {
    if s < 144 then HighFirst(0x30 + s, 8)
    else if s < 256 then HighFirst(0x190 + (s - 144), 9)
    else if s < 280 then HighFirst(s - 256, 7)
    else HighFirst(0xc0 + (s - 280), 8)
  }

  lemma {:induction false} FixedBitsAre(s: nat)
    requires s < 288
    ensures CodeOf(FixedLit(), s) == FixedBits(s)
  {
    hide Code, Rev, ToBits, HighFirst, Pow2;
    FixedCodeIs(s);
    Pow2Values();
    CodeHighFirst(Code(FixedLit(), s), FixedLit()[s]);
  }

  /** A distance symbol is sent as its number in five bits. */
  lemma {:induction false} FixedDistanceIs(c: nat)
    requires c < 30
    ensures CodeOf(FixedDist(), c) == HighFirst(c, 5)
  {
    hide Code, Rev, ToBits, HighFirst, Pow2;
    FixedDistCode(c);
    Pow2Values();
    CodeHighFirst(c, 5);
  }

  /** How a token stands in a fixed block: a byte as its own symbol; a length as the symbol 257 + c and a distance as
      the symbol e whose ranges contain them, each with what exceeds the start of the range in extra bits, the lowest
      first. */
  lemma {:induction false} FixedTokenIs(t: Token)
    requires TokenOk(t)
    ensures match t
            case Literal(b) => TokenBits(FixedLit(), FixedDist(), t) == FixedBits(b)
            case Match(len, dist) =>
              exists c: nat, e: nat :: c <= 28 && e <= 29 && InRange(c, len, e, dist)
                && TokenBits(FixedLit(), FixedDist(), t)
                == FixedBits(257 + c) + ToBits(len - LBase(c), LBits(c)) + HighFirst(e, 5)
                  + ToBits(dist - DBase(e), DBits(e))
  {
    hide FixedLit, FixedDist, CodeOf, HighFirst, FixedBits, LBase, LBits, DBase, DBits, LengthCode, DistCode;
    match t
    case Literal(b) => FixedBitsAre(b);
    case Match(len, dist) =>
      LengthCodeOk(len - 3);
      LongestLength(len - 3);
      DistCodeOk(dist - 1);
      var c, e := LengthCode(len - 3), DistCode(dist - 1);
      FixedBitsAre(257 + c);
      FixedDistanceIs(e);
      assert InRange(c, len, e, dist);
      var x, y := FixedBits(257 + c) + ToBits(len - LBase(c), LBits(c)), ToBits(dist - DBase(e), DBits(e));
      assert x + (HighFirst(e, 5) + y) == x + HighFirst(e, 5) + y;
  }

  lemma {:induction false} LongestLength(l: nat)
    ensures LengthCode(l) == 28 <==> l >= 255
  {
    hide LastBase, Pow2, LBase, LBits;
    LengthEnds();
    if l < 255 { LastBaseOk(l, 27); }
  }

  predicate InRange(c: nat, len: nat, e: nat, dist: nat)
    requires c <= 28 && e <= 29
  {
    && LBase(c) <= len < LBase(c) + Pow2(LBits(c)) && (c == 28 <==> len == 258)
    && DBase(e) <= dist < DBase(e) + Pow2(DBits(e))
  }

  /** A fixed block ends with seven zero bits. */
  lemma {:induction false} FixedEndIs()
    ensures CodeOf(FixedLit(), END_BLOCK) == [false, false, false, false, false, false, false]
  {
    hide CodeOf, FixedLit;
    FixedBitsAre(256);
  }

  // ---------------------------------------------------------------- which sets of lengths are refused

  /** What the codes of at most l bits of the first n symbols take up of the 32768 numbers of 15 bits. */
  function Taken(lens: seq<nat>, l: nat, n: nat): (k: nat)
    requires n <= |lens| && l <= 15
  {
    if n == 0 then 0
    else Taken(lens, l, n - 1) + if 0 < lens[n - 1] <= l then Pow2(15 - lens[n - 1]) else 0
  }

  lemma {:induction false} TakenStep(lens: seq<nat>, l: nat, n: nat)
    requires n <= |lens| && 1 <= l <= 15
    ensures Taken(lens, l, n) == Taken(lens, l - 1, n) + CountTo(lens, l, n) * Pow2(15 - l)
  {
    hide Pow2;
    MulMono(0, CountTo(lens, l, n), Pow2(15 - l));
    if n > 0 {
      TakenStep(lens, l, n - 1);
      Distribute(CountTo(lens, l, n - 1), 1, Pow2(15 - l));
    }
  }

  lemma {:induction false} LeftIsFree(lens: seq<nat>, l: nat)
    requires l <= 15
    ensures Left(lens, l) * Pow2(15 - l) == 32768 - Taken(lens, l, |lens|)
    decreases l
  {
    hide Pow2, CountTo;
    Pow2Values();
    if l == 0 {
      NoneTaken(lens, |lens|);
    } else {
      LeftIsFree(lens, l - 1);
      TakenStep(lens, l, |lens|);
      Distribute(2 * Left(lens, l - 1), Count(lens, l), Pow2(15 - l));
      TwiceFree(Left(lens, l - 1), 15 - l);
    }
  }

  lemma {:induction false} NoneTaken(lens: seq<nat>, n: nat)
    requires n <= |lens|
    ensures Taken(lens, 0, n) == 0
  {
    if n > 0 { NoneTaken(lens, n - 1); }
  }

  lemma {:induction false} TwiceFree(x: int, n: nat)
    ensures 2 * x * Pow2(n) == x * Pow2(n + 1)
  {
  }

  lemma {:induction false} SomeTaken(lens: seq<nat>, n: nat)
    requires n <= |lens| && LensOk(lens)
    ensures Taken(lens, 15, n) > 0 <==> exists s: nat :: s < n && lens[s] != 0
  {
    hide Pow2;
    if n > 0 {
      SomeTaken(lens, n - 1);
      if lens[n - 1] != 0 { assert lens[n - 1] <= 15; }
    }
  }

  /** inflate_table refuses the lengths whose codes take up more than there is, and those that take up less, except for
      none at all and for a single code of one bit for literals and lengths or for distances. */
  lemma {:induction false} RefusedIs(kind: Kind, lens: seq<nat>)
    requires LensOk(lens)
    ensures var k := Taken(lens, 15, |lens|);
            Refused(kind, lens) <==>
              k > 32768 || (0 < k < 32768 && (kind == CODES || exists s: nat :: s < |lens| && lens[s] > 1))
  {
    hide Left, Taken;
    LeftIsFree(lens, 15);
    Pow2Values();
    SomeTaken(lens, |lens|);
  }
}
