/** The constant tables of trees.c: extra bits, the maps from lengths and distances to their codes, and the
    fixed trees (sections 3.2.5 and 3.2.6 of RFC 1951). */
module StaticTables {
  import opened Bits
  import opened Canonical
  import opened InflateTable

  const END_BLOCK: nat := 256
  const L_CODES: nat := 286
  const D_CODES: nat := 30
  const BL_CODES: nat := 19

  const EXTRA_LBITS: seq<nat> := [0, 0, 0, 0, 0, 0, 0, 0, 1, 1, 1, 1, 2, 2, 2, 2, 3, 3, 3, 3, 4, 4, 4, 4, 5, 5, 5, 5, 0]
  const EXTRA_DBITS: seq<nat> := [0, 0, 0, 0, 1, 1, 2, 2, 3, 3, 4, 4, 5, 5, 6, 6, 7, 7, 8, 8, 9, 9, 10, 10, 11, 11,
    12, 12, 13, 13]
  const EXTRA_BLBITS: seq<nat> := [0, 0, 0, 0, 0, 0, 0, 0, 0, 0, 0, 0, 0, 0, 0, 0, 2, 3, 7]
  const BL_ORDER: seq<nat> := [16, 17, 18, 0, 8, 7, 9, 6, 10, 5, 11, 4, 12, 3, 13, 2, 14, 1, 15]

  function LBase(c: nat): (r: nat)
    requires c <= 28
  {
    LBASE[c]
  }

  function LBits(c: nat): (r: nat)
    requires c <= 28
  {
    EXTRA_LBITS[c]
  }

  function DBase(c: nat): (r: nat)
    requires c <= 29
  {
    DBASE[c]
  }

  function DBits(c: nat): (r: nat)
    requires c <= 29
  {
    EXTRA_DBITS[c]
  }

  /** The length code (0..28) of a match length less three. */
  function LengthCode(l: nat): (r: nat)
  {
    if l >= 255 then 28 else LastBase(l, 27)
  }

  /** The largest length code up to c that starts at or below l. */
  function LastBase(l: nat, c: nat): (r: nat)
    requires c <= 27
  {
    if c == 0 || LBase(c) <= l + 3 then c else LastBase(l, c - 1)
  }

  /** The distance code (0..29) of a distance less one. */
  function DistCode(d: nat): (r: nat)
  {
    LastDist(d, 29)
  }

  function LastDist(d: nat, c: nat): (r: nat)
    requires c <= 29
  {
    if c == 0 || DBase(c) <= d + 1 then c else LastDist(d, c - 1)
  }

  /** The decoder's tables belong to the encoder's: each code starts where the one before it ends. */
  lemma {:induction false} LengthStep(c: nat)
    requires c < 27
    ensures LBase(c + 1) == LBase(c) + Pow2(LBits(c))
  {
    hide Pow2;
    Pow2Values();
  }

  lemma {:induction false} LengthRange(c: nat)
    requires c <= 28
    ensures 3 <= LBase(c) <= 258 && LBits(c) <= 5
  {
  }

  lemma {:induction false} LengthExtraIs(c: nat)
    requires c <= 28
    ensures LEXT[c] == 16 + LBits(c)
  {
  }

  lemma {:induction false} LengthEnds()
    ensures LBase(0) == 3 && LBase(27) + Pow2(LBits(27)) == 259 && LBase(28) == 258 && LBits(28) == 0
  {
    hide Pow2;
    Pow2Values();
  }

  lemma {:induction false} DistStep(c: nat)
    requires c < 29
    ensures DBase(c + 1) == DBase(c) + Pow2(DBits(c))
  {
    hide Pow2;
    Pow2Values();
    Pow2More();
  }

  lemma {:induction false} Pow2More()
    ensures Pow2(11) == 2048 && Pow2(12) == 4096 && Pow2(13) == 8192
  {
    Pow2Values();
  }

  lemma {:induction false} DistRange(c: nat)
    requires c <= 29
    ensures 1 <= DBase(c) <= 32768 && DBits(c) <= 13
  {
  }

  lemma {:induction false} DistExtraIs(c: nat)
    requires c <= 29
    ensures DEXT[c] == 16 + DBits(c)
  {
  }

  lemma {:induction false} DistEnds()
    ensures DBase(0) == 1 && DBase(16) == 257 && DBase(29) + Pow2(DBits(29)) == 32769
  {
    hide Pow2;
    Pow2Values();
  }

  lemma {:induction false} LastBaseOk(l: nat, c: nat)
    requires c <= 27 && l + 3 < LBase(c) + Pow2(LBits(c))
    ensures LastBase(l, c) <= c && LBase(LastBase(l, c)) <= l + 3 < LBase(LastBase(l, c)) + Pow2(LBits(LastBase(l, c)))
  {
    hide Pow2, LBase, LBits;
    LengthEnds();
    if c > 0 && LBase(c) > l + 3 {
      LengthStep(c - 1);
      LastBaseOk(l, c - 1);
    }
  }

  lemma {:induction false} LastDistOk(d: nat, c: nat)
    requires c <= 29 && d + 1 < DBase(c) + Pow2(DBits(c))
    ensures LastDist(d, c) <= c && DBase(LastDist(d, c)) <= d + 1 < DBase(LastDist(d, c)) + Pow2(DBits(LastDist(d, c)))
  {
    hide Pow2, DBase, DBits;
    DistEnds();
    if c > 0 && DBase(c) > d + 1 {
      DistStep(c - 1);
      LastDistOk(d, c - 1);
    }
  }

  /** Every match length has a code, and the rest fits the code's extra bits. */
  lemma {:induction false} LengthCodeOk(l: nat)
    requires l <= 255
    ensures LengthCode(l) <= 28
    ensures LBase(LengthCode(l)) <= l + 3 < LBase(LengthCode(l)) + Pow2(LBits(LengthCode(l)))
  {
    hide Pow2, LBase, LBits, LastBase;
    LengthEnds();
    if l < 255 { LastBaseOk(l, 27); }
  }

  lemma {:induction false} DistCodeOk(d: nat)
    requires d < 32768
    ensures DistCode(d) <= 29
    ensures DBase(DistCode(d)) <= d + 1 < DBase(DistCode(d)) + Pow2(DBits(DistCode(d)))
  {
    hide Pow2, DBase, DBits, LastDist;
    DistEnds();
    LastDistOk(d, 29);
  }

  /** The code is the only one whose range contains the length. */
  lemma {:induction false} LastBaseIs(l: nat, c: nat, top: nat)
    requires c <= top <= 27 && LBase(c) <= l + 3 < LBase(c) + Pow2(LBits(c))
    ensures LastBase(l, top) == c
    decreases top - c
  {
    hide Pow2, LBase, LBits;
    if c < top {
      BaseAfter(c, top);
      LastBaseIs(l, c, top - 1);
    }
  }

  lemma {:induction false} BaseAfter(c: nat, top: nat)
    requires c < top <= 27
    ensures LBase(c) + Pow2(LBits(c)) <= LBase(top)
  {
    hide Pow2, LBase, LBits;
    LengthStep(top - 1);
    if c < top - 1 { BaseAfter(c, top - 1); }
  }

  lemma {:induction false} LastDistIs(d: nat, c: nat, top: nat)
    requires c <= top <= 29 && DBase(c) <= d + 1 < DBase(c) + Pow2(DBits(c))
    ensures LastDist(d, top) == c
    decreases top - c
  {
    hide Pow2, DBase, DBits;
    if c < top {
      DistAfter(c, top);
      LastDistIs(d, c, top - 1);
    }
  }

  lemma {:induction false} DistAfter(c: nat, top: nat)
    requires c < top <= 29
    ensures DBase(c) + Pow2(DBits(c)) <= DBase(top)
  {
    hide Pow2, DBase, DBits;
    DistStep(top - 1);
    if c < top - 1 { DistAfter(c, top - 1); }
  }

  // ------------------------------------------------------------------ tr_static_init

  ghost predicate LengthTable(lengthCode: seq<nat>, baseLength: seq<nat>)
  {
    && |lengthCode| == 256 && |baseLength| == 29
    && (forall l: nat :: l < 256 ==> lengthCode[l] == LengthCode(l))
    && (forall c: nat :: c < 28 ==> baseLength[c] + 3 == LBase(c))
  }

  /** The code of distance d + 1 is found at DistIndex(d). */
  ghost predicate DistTable(distCode: seq<nat>, baseDist: seq<nat>)
  {
    && |distCode| == 512 && |baseDist| == 30
    && (forall d: nat :: d < 32768 ==> distCode[DistIndex(d)] == DistCode(d))
    && (forall c: nat :: c < 30 ==> baseDist[c] + 1 == DBase(c))
  }

  /** Where d_code looks up a distance less one. */
  function DistIndex(d: nat): (i: nat)
    ensures d < 32768 ==> i < 512
  {
    if d < 256 then d else 256 + d / 128
  }

  /** Where the codes from code on start, less three. */
  function LengthFrom(code: nat): (r: int)
    requires code <= 28
  {
    if code < 28 then LBase(code) - 3 else 256
  }

  lemma {:induction false} LengthFromStep(code: nat)
    requires code < 28
    ensures LengthFrom(0) == 0 && LengthFrom(28) == 256
    ensures LengthFrom(code) == LBase(code) - 3 && LengthFrom(code + 1) == LengthFrom(code) + Pow2(LBits(code)) <= 256
  {
    hide Pow2, LBase, LBits;
    LengthEnds();
    if code < 27 { LengthStep(code); }
    if code < 26 { BaseAfter(code + 1, 27); }
  }

  method FillLengths() returns (lengthCode: array<nat>, baseLength: array<nat>)
    ensures fresh(lengthCode) && fresh(baseLength) && LengthTable(lengthCode[..], baseLength[..])
  {
    hide Pow2, LastBase, LBase, LBits, LengthFrom;
    lengthCode := new nat[256](_ => 0);
    baseLength := new nat[29](_ => 0);
    var length: nat := 0;
    LengthFromStep(0);
    for code := 0 to 28
      invariant length == LengthFrom(code) <= 256
      invariant forall l: nat :: l < length ==> lengthCode[l] == LastBase(l, 27)
      invariant forall c: nat :: c < code ==> baseLength[c] + 3 == LBase(c)
    {
      LengthFromStep(code);
      baseLength[code] := length;
      length := FillCode(lengthCode, code, length);
    }
    lengthCode[length - 1] := 28;
  }

  method FillCode(lengthCode: array<nat>, code: nat, start: nat) returns (length: nat)
    requires lengthCode.Length == 256 && code < 28 && start + 3 == LBase(code)
    requires start + Pow2(LBits(code)) <= 256
    modifies lengthCode
    ensures length == start + Pow2(LBits(code))
    ensures forall l: nat :: start <= l < length ==> lengthCode[l] == LastBase(l, 27)
    ensures forall l: nat :: l < start ==> lengthCode[l] == old(lengthCode[l])
  {
    hide Pow2, LastBase, LBase, LBits;
    length := start;
    LengthExtra(code);
    for n := 0 to Pow2(EXTRA_LBITS[code])
      invariant length == start + n
      invariant forall l: nat :: start <= l < length ==> lengthCode[l] == LastBase(l, 27)
      invariant forall l: nat :: l < start ==> lengthCode[l] == old(lengthCode[l])
    {
      LastBaseIs(length, code, 27);
      lengthCode[length] := code;
      length := length + 1;
    }
  }

  lemma {:induction false} LengthExtra(code: nat)
    requires code <= 28
    ensures EXTRA_LBITS[code] == LBits(code)
  {
  }

  lemma {:induction false} DistExtra(code: nat)
    requires code <= 29
    ensures EXTRA_DBITS[code] == DBits(code)
    ensures code >= 16 ==> DBits(code) >= 7
  {
  }

  lemma {:induction false} NearStep(code: nat)
    requires code < 16
    ensures DBase(0) == 1 && DBase(16) == 257
    ensures DBase(code + 1) == DBase(code) + Pow2(DBits(code)) <= 257
  {
    hide Pow2, DBase, DBits;
    DistEnds();
    DistStep(code);
    if code < 15 { DistAfter(code + 1, 16); }
  }

  /** Distances up to 256 have their own entries. */
  method FillNear(distCode: array<nat>, baseDist: array<nat>) returns (dist: nat)
    requires distCode.Length == 512 && baseDist.Length == 30 && distCode != baseDist
    modifies distCode, baseDist
    ensures dist == 256 && forall d: nat :: d < 256 ==> distCode[d] == DistCode(d)
    ensures forall c: nat :: c < 16 ==> baseDist[c] + 1 == DBase(c)
  {
    hide Pow2, DistCode, DBase, DBits;
    dist := 0;
    NearStep(0);
    for code := 0 to 16
      invariant dist + 1 == DBase(code) && dist <= 256
      invariant forall d: nat :: d < dist ==> distCode[d] == DistCode(d)
      invariant forall c: nat :: c < code ==> baseDist[c] + 1 == DBase(c)
    {
      NearStep(code);
      baseDist[code] := dist;
      dist := FillNearCode(distCode, code, dist);
    }
  }

  method FillNearCode(distCode: array<nat>, code: nat, start: nat) returns (dist: nat)
    requires distCode.Length == 512 && code < 16 && start + 1 == DBase(code) && start + Pow2(DBits(code)) <= 256
    modifies distCode
    ensures dist == start + Pow2(DBits(code))
    ensures forall d: nat :: start <= d < dist ==> distCode[d] == DistCode(d)
    ensures forall i: nat :: i < 512 && !(start <= i < dist) ==> distCode[i] == old(distCode[i])
  {
    hide Pow2, LastDist, DBase, DBits;
    dist := start;
    DistExtra(code);
    for n := 0 to Pow2(EXTRA_DBITS[code])
      invariant dist == start + n
      invariant forall d: nat :: start <= d < dist ==> distCode[d] == DistCode(d)
      invariant forall i: nat :: i < 512 && !(start <= i < dist) ==> distCode[i] == old(distCode[i])
    {
      LastDistIs(dist, code, 29);
      distCode[dist] := code;
      dist := dist + 1;
    }
  }

  /** Where the codes from code on start, in units of 128. */
  function FarFrom(code: nat): (r: nat)
    requires 16 <= code <= 30
  {
    if code < 30 then DBase(code) / 128 else 256
  }

  lemma {:induction false} FarFromStep(code: nat)
    requires 16 <= code < 30
    ensures FarFrom(16) == 2 && FarFrom(30) == 256 && FarFrom(code) * 128 + 1 == DBase(code) && DBits(code) >= 7
    ensures FarFrom(code + 1) == FarFrom(code) + Pow2(DBits(code) - 7) <= 256
  {
    hide Pow2;
    Pow2Values();
  }

  /** All distances of the same multiple of 128 have the same code. */
  lemma {:induction false} FarRange(d: nat, code: nat, q: nat)
    requires 16 <= code < 30 && q * 128 <= d < q * 128 + 128
    requires FarFrom(code) <= q < FarFrom(code) + Pow2(DBits(code) - 7)
    ensures DistCode(d) == code && (d >= 256 ==> DistIndex(d) == 256 + q)
  {
    hide Pow2, LastDist, DBase, DBits, FarFrom;
    FarFromStep(code);
    Pow2Values();
    Pow2Add(DBits(code) - 7, 7);
    LastDistIs(d, code, 29);
  }

  ghost predicate FarDone(distCode: seq<nat>, q: nat)
  {
    |distCode| == 512 && forall d: nat :: d < q * 128 && d < 32768 ==> distCode[DistIndex(d)] == DistCode(d)
  }

  /** From there on the code depends on the distance divided by 128 only. */
  method FillFar(distCode: array<nat>, baseDist: array<nat>)
    requires distCode.Length == 512 && baseDist.Length == 30 && distCode != baseDist && FarDone(distCode[..], 2)
    requires forall c: nat :: c < 16 ==> baseDist[c] + 1 == DBase(c)
    modifies distCode, baseDist
    ensures DistTable(distCode[..], baseDist[..])
  {
    hide Pow2, DistCode, DBase, DBits, FarFrom, DistIndex, FarDone;
    var dist: nat := 2;
    FarFromStep(16);
    for code := 16 to 30
      invariant dist == FarFrom(code) <= 256
      invariant FarDone(distCode[..], dist)
      invariant forall c: nat :: c < code ==> baseDist[c] + 1 == DBase(c)
    {
      FarFromStep(code);
      DistExtra(code);
      baseDist[code] := dist * 128;
      for n := 0 to Pow2(EXTRA_DBITS[code] - 7)
        invariant dist == FarFrom(code) + n && FarDone(distCode[..], dist)
        invariant forall c: nat :: c < code + 1 ==> baseDist[c] + 1 == DBase(c)
      {
        ghost var before: seq<nat> := distCode[..];
        FarOne(before, code, dist);
        distCode[256 + dist] := code;
        assert distCode[..] == before[256 + dist := code];
        dist := dist + 1;
      }
    }
    FarAll(distCode[..]);
  }

  lemma {:induction false} FarOne(distCode: seq<nat>, code: nat, q: nat)
    requires 16 <= code < 30 && FarDone(distCode, q) && FarFrom(code) <= q < FarFrom(code) + Pow2(DBits(code) - 7)
        && 2 <= q < 256
    ensures FarDone(distCode[256 + q := code], q + 1)
  {
    hide Pow2, DistCode, DBase, DBits, FarFrom;
    var after := distCode[256 + q := code];
    forall d: nat | d < (q + 1) * 128 && d < 32768 ensures after[DistIndex(d)] == DistCode(d) {
      if d >= q * 128 { FarRange(d, code, q); }
    }
  }

  lemma {:induction false} FarAll(distCode: seq<nat>)
    requires FarDone(distCode, 256)
    ensures |distCode| == 512 && forall d: nat :: d < 32768 ==> distCode[DistIndex(d)] == DistCode(d)
  {
    hide DistCode, DistIndex;
  }

  /** The maps from lengths and distances to codes. */
  method TrStaticInit() returns (lengthCode: array<nat>, baseLength: array<nat>, distCode: array<nat>,
      baseDist: array<nat>)
    ensures fresh(lengthCode) && fresh(baseLength) && LengthTable(lengthCode[..], baseLength[..])
    ensures fresh(distCode) && fresh(baseDist) && DistTable(distCode[..], baseDist[..])
  {
    hide LengthTable, DistTable, DistCode, DBase;
    lengthCode, baseLength := FillLengths();
    distCode := new nat[512](_ => 0);
    baseDist := new nat[30](_ => 0);
    var dist := FillNear(distCode, baseDist);
    FillFar(distCode, baseDist);
  }
}
