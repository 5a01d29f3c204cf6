/** gen_codes and bi_reverse of trees.c: the canonical codes, stored with their bits reversed. */
module HuffmanCodes {
  import opened Bits
  import opened Canonical

  /** One more bit of a reversed code. */
  lemma {:induction false} ReverseStep(code: nat, k: nat)
    ensures Rev(code, k + 1) == Rev(code, k) * 2 + Shr(code, k) % 2
    ensures Shr(code, k) / 2 == Shr(code, k + 1)
  {
    hide Pow2;
    RevSplit(code, k, 1);
    RevOne(Shr(code, k));
    Pow2Add(k, 1);
    DivDiv(code, Pow2(k), 2);
    Pow2Values();
  }

  lemma {:induction false} RevOne(v: nat)
    ensures Rev(v, 1) == v % 2 && Pow2(1) == 2
  {
    assert Rev(v / 2, 0) == 0;
  }

  method BiReverse(code: nat, len: nat) returns (r: nat)
    requires 1 <= len <= MAX_BITS
    ensures r == Rev(code, len)
  {
    hide Rev, Pow2, Shr;
    var res: nat, c: nat, n := 0, code, len;
    ReverseNone(code);
    while n > 0
      invariant n <= len && res == 2 * Rev(code, len - n) && c == Shr(code, len - n)
    {
      ReverseStep(code, len - n);
      res := res + c % 2;
      c, res := c / 2, res * 2;
      n := n - 1;
    }
    r := res / 2;
  }

  lemma {:induction false} ReverseNone(code: nat)
    ensures Rev(code, 0) == 0 && Shr(code, 0) == code
  {
  }

  /** Codes of used lengths fit 15 bits, so the 16-bit counters do not wrap. */
  lemma {:induction false} NextCodeFits(lens: seq<nat>, l: nat)
    requires Valid(lens) && l <= MAX_BITS
    ensures NextCode(lens, l) + Used(lens, l) <= Pow2(l) <= 32768
  {
    hide Left, Pow2;
    LeftStaysNegative(lens, l, MAX_BITS);
    LeftIs(lens, l);
    Pow2Mono(l, MAX_BITS);
    Pow2Values();
  }

  /** The first code of every length. */
  method FirstCodes(ghost lens: seq<nat>, blCount: array<nat>) returns (nextCode: array<nat>)
    requires blCount.Length == MAX_BITS + 1 && Valid(lens)
    requires forall b: nat :: b <= MAX_BITS ==> blCount[b] == Used(lens, b)
    ensures fresh(nextCode) && nextCode.Length == MAX_BITS + 1
    ensures forall b: nat :: 1 <= b <= MAX_BITS ==> nextCode[b] == NextCode(lens, b)
  {
    hide Used, Pow2, Valid, NextCode;
    nextCode := new nat[MAX_BITS + 1](_ => 0);
    var code: nat := 0;
    NextCodeStep(lens, 0);
    for bits := 1 to MAX_BITS + 1
      invariant code == NextCode(lens, bits - 1)
      invariant forall b: nat :: 1 <= b < bits ==> nextCode[b] == NextCode(lens, b)
    {
      NextCodeStep(lens, bits - 1);
      NextCodeFits(lens, bits);
      code := (code + blCount[bits - 1]) * 2 % 0x1_0000;
      nextCode[bits] := code;
    }
  }

  lemma {:induction false} NextCodeStep(lens: seq<nat>, l: nat)
    ensures NextCode(lens, l + 1) == 2 * (NextCode(lens, l) + Used(lens, l)) && NextCode(lens, 0) == 0
  {
  }

  /** The first n symbols that have a code have it stored, the other entries are untouched. */
  ghost predicate CodesTo(lens: seq<nat>, before: seq<nat>, fc: seq<nat>, n: nat)
  {
    && |lens| <= |fc| == |before| && n <= |lens|
    && (forall i: nat :: i < n && lens[i] != 0 ==> fc[i] == Rev(Code(lens, i), lens[i]))
    && (forall i: nat :: i < |fc| && (i >= n || lens[i] == 0) ==> fc[i] == before[i])
  }

  /** How many codes of each length have been given out. */
  ghost predicate CountersAt(lens: seq<nat>, nextCode: seq<nat>, n: nat)
  {
    && n <= |lens| && |nextCode| == MAX_BITS + 1
    && forall b: nat :: 1 <= b <= MAX_BITS ==> nextCode[b] == NextCode(lens, b) + CountTo(lens, b, n)
  }

  lemma {:induction false} CountersStart(lens: seq<nat>, nextCode: seq<nat>)
    requires |nextCode| == MAX_BITS + 1 && forall b: nat :: 1 <= b <= MAX_BITS ==> nextCode[b] == NextCode(lens, b)
    ensures CountersAt(lens, nextCode, 0)
  {
  }

  lemma {:induction false} CountersStep(lens: seq<nat>, nextCode: seq<nat>, n: nat)
    requires LensOk(lens) && CountersAt(lens, nextCode, n) && n < |lens|
    ensures lens[n] == 0 ==> CountersAt(lens, nextCode, n + 1)
    ensures lens[n] != 0 ==> lens[n] < |nextCode| && nextCode[lens[n]] == Code(lens, n)
                             && CountersAt(lens, nextCode[lens[n] := nextCode[lens[n]] + 1], n + 1)
  {
    hide NextCode;
  }

  /** Stores the reversed canonical code of every symbol that has one; the code shares its field with the frequency. */
  method GenCodes(fc: array<nat>, dl: array<nat>, maxCode: nat, blCount: array<nat>)
    requires fc != dl && fc != blCount && maxCode < dl.Length && maxCode < fc.Length && blCount.Length == MAX_BITS + 1
    requires Valid(dl[..maxCode + 1])
    requires forall b: nat :: b <= MAX_BITS ==> blCount[b] == Used(dl[..maxCode + 1], b)
    modifies fc
    ensures CodesTo(dl[..maxCode + 1], old(fc[..]), fc[..], maxCode + 1)
  {
    hide Valid, Used, NextCode, Code, CountTo, Rev;
    ghost var lens: seq<nat> := dl[..maxCode + 1];
    var nextCode := FirstCodes(lens, blCount);
    CountersStart(lens, nextCode[..]);
    ValidIsOk(lens);
    for n := 0 to maxCode + 1
      invariant CodesTo(lens, old(fc[..]), fc[..], n) && CountersAt(lens, nextCode[..], n)
    {
      var len := dl[n];
      assert len == lens[n];
      ghost var c: seq<nat> := nextCode[..];
      CountersStep(lens, c, n);
      if len != 0 {
        var code := BiReverse(nextCode[len], len);
        nextCode[len] := nextCode[len] + 1;
        fc[n] := code;
        assert nextCode[..] == c[len := c[len] + 1];
      }
    }
  }

  lemma {:induction false} ValidIsOk(lens: seq<nat>)
    requires Valid(lens)
    ensures LensOk(lens)
  {
  }
}
