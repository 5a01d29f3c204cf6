/** crc32_combine: the check value of a concatenation from those of its parts, by squaring a bit matrix. */
module CrcCombine {
  import opened Bits
  import opened ExclusiveOr
  import opened BitWriter
  import opened CrcSpec

  /** The matrix of k zero bits: column n is what they make of the bit n alone. */
  ghost predicate Zeros(mat: seq<nat>, k: nat)
  {
    |mat| == 32 && forall n: nat :: n < 32 ==> mat[n] == Steps(Pow2(n), k)
  }

  lemma {:induction false} LowBit(vec: nat, n: nat)
    ensures vec * Pow2(n) >= 0 && vec / 2 * Pow2(n + 1) >= 0
    ensures vec * Pow2(n) == (if vec % 2 == 1 then Pow2(n) else 0) + vec / 2 * Pow2(n + 1)
  {
    var rest := vec / 2;
    MulMono(0, rest, Pow2(n + 1));
    MulMono(0, vec, Pow2(n));
    assert rest * Pow2(n + 1) == 2 * rest * Pow2(n);
    Distribute(2 * rest, vec % 2, Pow2(n));
  }

  /** The bit n comes off the vector. */
  lemma {:induction false} LowColumn(sum: nat, vec: nat, n: nat, k: nat, want: nat)
    requires vec * Pow2(n) >= 0
    requires Xor(sum, Steps(vec * Pow2(n), k)) == want
    ensures vec / 2 * Pow2(n + 1) >= 0
    ensures Xor(if vec % 2 == 1 then Xor(sum, Steps(Pow2(n), k)) else sum, Steps(vec / 2 * Pow2(n + 1), k)) == want
    ensures vec / 2 * Pow2(n + 1) <= vec * Pow2(n)
  {
    hide Xor, Steps, Pow2;
    LowBit(vec, n);
    if vec % 2 == 1 {
      var rest: nat := vec / 2 * Pow2(n + 1);
      NextPower(n);
      Apart(Pow2(n), vec / 2, n + 1);
      StepsLinear(Pow2(n), rest, k);
      XorAssoc(sum, Steps(Pow2(n), k), Steps(rest, k));
    }
  }

  lemma {:induction false} NextPower(n: nat)
    ensures Pow2(n) < Pow2(n + 1)
  {
  }

  /** Numbers without common bits. */
  lemma {:induction false} Apart(a: nat, b: nat, n: nat)
    requires a < Pow2(n)
    ensures b * Pow2(n) >= 0 && Xor(a, b * Pow2(n)) == a + b * Pow2(n)
  {
    hide Xor;
    XorParts(a, 0, 0, b, n);
    XorZero(a);
    XorZero(b);
  }

  lemma {:induction false} ColumnInside(vec: nat, n: nat)
    requires vec > 0 && vec * Pow2(n) < Pow2(32)
    ensures n < 32
  {
    MulAtLeast(vec, Pow2(n));
    if n >= 32 { Pow2Mono(32, n); }
  }

  /** gf2_matrix_times. */
  method Times(mat: array<nat>, vec0: nat, ghost k: nat) returns (sum: nat)
    requires Zeros(mat[..], k) && vec0 < Pow2(32)
    ensures sum == Steps(vec0, k)
  {
    hide Xor, Steps, Pow2;
    var vec := vec0;
    var n: nat := 0;
    sum := 0;
    assert vec0 * Pow2(0) == vec0 by { PowerNone(vec0); }
    XorZero(Steps(vec0, k));
    while vec > 0
      invariant 0 <= vec * Pow2(n) < Pow2(32)
      invariant Xor(sum, Steps(vec * Pow2(n), k)) == Steps(vec0, k)
    {
      ColumnInside(vec, n);
      LowColumn(sum, vec, n, k, Steps(vec0, k));
      assert mat[n] == mat[..][n];
      if vec % 2 == 1 { sum := Xor(sum, mat[n]); }
      vec := vec / 2;
      n := n + 1;
    }
    StepsOfZero(k);
    XorZero(sum);
  }

  lemma {:induction false} PowerNone(v: nat)
    ensures v * Pow2(0) == v
  {
  }

  /** gf2_matrix_square: twice as many zeros. */
  method Square(square: array<nat>, mat: array<nat>, ghost k: nat)
    requires square.Length == 32 && square != mat && Zeros(mat[..], k)
    modifies square
    ensures Zeros(square[..], 2 * k)
  {
    hide Xor, Steps, Pow2;
    for n := 0 to 32
      invariant mat[..] == old(mat[..])
      invariant forall i: nat :: i < n ==> square[i] == Steps(Pow2(i), 2 * k)
    {
      assert mat[n] == mat[..][n];
      Pow2Below(n);
      StepsBound(Pow2(n), k);
      var v := Times(mat, mat[n], k);
      StepsAdd(Pow2(n), k, k);
      square[n] := v;
    }
  }

  lemma {:induction false} Pow2Below(n: nat)
    requires n < 32
    ensures Pow2(n) < Pow2(32)
  {
    Pow2Mono(n, 31);
  }

  /** The matrix of one zero bit. */
  method OneZero(odd: array<nat>)
    requires odd.Length == 32
    modifies odd
    ensures Zeros(odd[..], 1)
  {
    hide Xor, Steps, Pow2;
    odd[0] := POLY;
    var row := 1;
    FirstRow();
    for n := 1 to 32
      invariant row == Pow2(n - 1)
      invariant forall i: nat :: i < n ==> odd[i] == Steps(Pow2(i), 1)
    {
      NextRow(n);
      odd[n] := row;
      row := row * 2;
    }
  }

  lemma {:induction false} FirstRow()
    ensures Pow2(0) == 1 && Steps(Pow2(0), 1) == POLY
  {
    XorZero(POLY);
    assert Steps(1, 1) == Steps(Step(1), 0);
  }

  lemma {:induction false} NextRow(n: nat)
    requires n > 0
    ensures Steps(Pow2(n), 1) == Pow2(n - 1) && Pow2(n) == 2 * Pow2(n - 1)
  {
    assert Steps(Pow2(n), 1) == Steps(Step(Pow2(n)), 0);
  }

  /** The length still to be moved over, k bits for each unit. */
  ghost predicate Left(c: nat, len: nat, k: nat, want: nat)
  {
    c < Pow2(32) && Steps(c, len * k) == want
  }

  lemma {:induction false} HalveLeft(c: nat, len: nat, k: nat, want: nat)
    requires Left(c, len, k, want)
    ensures Left(if len % 2 == 1 then Steps(c, k) else c, len / 2, 2 * k, want)
  {
    hide Pow2, Steps;
    Distribute(2 * (len / 2), len % 2, k);
    assert len / 2 * (2 * k) == 2 * (len / 2) * k;
    if len % 2 == 1 {
      assert len * k == k + len / 2 * (2 * k);
      StepsAdd(c, k, len / 2 * (2 * k));
      StepsBound(c, k);
    }
  }

  /** The concatenation behind two check values and a length. */
  ghost predicate Parts(crc1: nat, crc2: nat, len2: int, a: seq<Byte>, b: seq<Byte>)
  {
    crc1 == CrcOf(a) && crc2 == CrcOf(b) && len2 == |b|
  }

  lemma {:induction false} CombineParts(crc1: nat, crc2: nat, len2: int, a: seq<Byte>, b: seq<Byte>)
    requires Parts(crc1, crc2, len2, a, b)
    ensures CrcOf(a + b) == if len2 <= 0 then crc1 else Xor(Steps(crc1, 8 * len2), crc2)
  {
    hide Xor, Steps, CrcOf;
    if len2 <= 0 {
      assert a + b == a;
    } else {
      CrcConcat(a, b);
    }
  }

  /** One round of the loop: the matrix for twice the zeros, applied when the length is odd. */
  method Round(to: array<nat>, from: array<nat>, c0: nat, len: nat, ghost k: nat, ghost want: nat) returns (c: nat)
    requires to.Length == 32 && to != from && Zeros(from[..], k) && Left(c0, len, 2 * k, want)
    modifies to
    ensures Zeros(to[..], 2 * k) && Left(c, len / 2, 2 * (2 * k), want)
  {
    hide Zeros, Steps, Pow2;
    c := c0;
    Square(to, from, k);
    HalveLeft(c, len, 2 * k, want);
    if len % 2 == 1 { c := Times(to, c, 2 * k); }
  }

  /** crc32_combine_. */
  method Combine(crc1: nat, crc2: nat, len2: int) returns (r: nat)
    requires crc1 < Pow2(32)
    ensures r == if len2 <= 0 then crc1 else Xor(Steps(crc1, 8 * len2), crc2)
    ensures forall a: seq<Byte>, b: seq<Byte> :: Parts(crc1, crc2, len2, a, b) ==> r == CrcOf(a + b)
  {
    hide Zeros, Steps, Xor, Pow2, Parts, CrcOf;
    forall a: seq<Byte>, b: seq<Byte> | Parts(crc1, crc2, len2, a, b)
      ensures CrcOf(a + b) == if len2 <= 0 then crc1 else Xor(Steps(crc1, 8 * len2), crc2)
    {
      CombineParts(crc1, crc2, len2, a, b);
    }
    if len2 <= 0 { return crc1; }
    var even, odd := new nat[32], new nat[32];
    OneZero(odd);
    Square(even, odd, 1);
    Square(odd, even, 2);
    ghost var want := Steps(crc1, 8 * len2);
    ghost var k: nat := 4;
    var c := crc1;
    var len: nat := len2;
    assert Left(c, len, 2 * k, want) by { assert len * 8 == 8 * len2; }
    while len != 0
      invariant Zeros(odd[..], k) && Left(c, len, 2 * k, want)
      decreases len
    {
      c := Round(even, odd, c, len, k, want);
      len := len / 2;
      k := 2 * k;
      if len == 0 { break; }
      c := Round(odd, even, c, len, k, want);
      len := len / 2;
      k := 2 * k;
    }
    NoneLeft(c, 2 * k, want);
    r := Xor(c, crc2);
  }

  lemma {:induction false} NoneLeft(c: nat, k: nat, want: nat)
    requires Left(c, 0, k, want)
    ensures c == want
  {
    assert 0 * k == 0;
  }
}
