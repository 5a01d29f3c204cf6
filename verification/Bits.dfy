/** Powers of two, bit reversal, and little-endian bit strings.

    DEFLATE packs values least significant bit first and Huffman codes most
    significant bit first; everything that has to move between the two orders
    goes through Rev and the bit strings defined here. */
module Bits {

  function Pow2(n: nat): (p: nat)
    ensures p > 0
  {
    if n == 0 then 1 else 2 * Pow2(n - 1)
  }

  lemma {:induction false} DivNonnegative(v: int, d: int)
    requires v >= 0 && d > 0
    ensures v / d >= 0
  {
  }

  /** v without its low n bits. */
  function Shr(v: nat, n: nat): (r: nat)
  {
    DivNonnegative(v, Pow2(n));
    v / Pow2(n)
  }

  lemma {:induction false} Pow2Add(a: nat, b: nat)
    ensures Pow2(a + b) == Pow2(a) * Pow2(b)
  {
    if a == 0 {
    } else {
      Pow2Add(a - 1, b);
      assert Pow2(a + b) == 2 * (Pow2(a - 1) * Pow2(b));
    }
  }

  lemma {:induction false} Pow2Mono(a: nat, b: nat)
    requires a <= b
    ensures Pow2(a) <= Pow2(b)
  {
    if a < b { Pow2Mono(a, b - 1); }
  }

  lemma {:induction false} Pow2Values()
    ensures Pow2(0) == 1 && Pow2(1) == 2 && Pow2(2) == 4 && Pow2(3) == 8 && Pow2(4) == 16 && Pow2(5) == 32
    ensures Pow2(6) == 64 && Pow2(7) == 128 && Pow2(8) == 256 && Pow2(9) == 512 && Pow2(10) == 1024
    ensures Pow2(11) == 2048 && Pow2(12) == 4096 && Pow2(13) == 8192 && Pow2(14) == 16384
    ensures Pow2(15) == 32768 && Pow2(16) == 65536
  {
    assert Pow2(4) == 16;
    assert Pow2(8) == 256;
    assert Pow2(12) == 4096;
  }

  lemma {:induction false} MulAtLeast(k: int, d: int)
    requires k >= 1 && d >= 0
    ensures k * d >= d
  {
  }

  lemma {:induction false} DivModIdentity(x: int, d: int)
    requires d > 0
    ensures x == (x / d) * d + x % d && 0 <= x % d < d
  {
  }

  lemma {:induction false} Distribute(a: int, b: int, d: int)
    ensures (a - b) * d == a * d - b * d && (a + b) * d == a * d + b * d
  {
  }

  /** Quotient and remainder are the only numbers that recompose x. */
  lemma {:induction false} DivMod(q: int, d: int, r: int)
    requires 0 <= r < d
    ensures (q * d + r) / d == q && (q * d + r) % d == r
  {
    var x := q * d + r;
    DivModIdentity(x, d);
    var q', r' := x / d, x % d;
    Distribute(q, q', d);
    Distribute(q', q, d);
    if q > q' {
      MulAtLeast(q - q', d);
    } else if q < q' {
      MulAtLeast(q' - q, d);
    }
  }

  lemma {:induction false} DivModOf(x: int, q: int, d: int, r: int)
    requires 0 <= r < d && x == q * d + r
    ensures x / d == q && x % d == r
  {
    DivMod(q, d, r);
  }

  lemma {:induction false} MulAdd(t: nat, m: nat, x: nat, p: nat)
    ensures (t * m + x) * p == t * (m * p) + x * p
  {
    Distribute(t * m, x, p);
    assert (t * m) * p == t * (m * p);
  }

  lemma {:induction false} MulComm(a: int, b: int)
    ensures a * b == b * a
  {
  }

  lemma {:induction false} MulMono(a: int, b: int, d: int)
    requires 0 <= a <= b && d >= 0
    ensures 0 <= a * d <= b * d
  {
  }

  lemma {:induction false} DivDiv(v: nat, a: nat, b: nat)
    requires a > 0 && b > 0
    ensures (v / a) / b == v / (a * b)
    ensures v % (a * b) == (v / a % b) * a + v % a
  {
    var q, r := v / a, v % a;
    var q2, r2 := q / b, q % b;
    DivModIdentity(v, a);
    DivModIdentity(q, b);
    MulAdd(q2, b, r2, a);
    assert q * a == q2 * (b * a) + r2 * a;
    assert 0 <= r2 * a <= (b - 1) * a by { MulMono(r2, b - 1, a); }
    Distribute(b, 1, a);
    MulComm(a, b);
    DivModOf(v, q2, a * b, r2 * a + r);
  }

  /** The low n bits of v in the opposite order. */
  function Rev(v: nat, n: nat): (r: nat)
  {
    if n == 0 then 0 else (v % 2) * Pow2(n - 1) + Rev(v / 2, n - 1)
  }

  lemma {:induction false} RevBound(v: nat, n: nat)
    ensures Rev(v, n) < Pow2(n)
  {
    if n > 0 {
      RevBound(v / 2, n - 1);
      assert v % 2 == 0 || v % 2 == 1;
    }
  }

  lemma {:induction false} ShrOf(q: nat, n: nat, r: nat)
    requires r < Pow2(n)
    ensures Shr(q * Pow2(n) + r, n) == q
  {
    DivMod(q, Pow2(n), r);
  }

  /** Reversal swaps the two halves of a bit field. */
  lemma {:induction false} RevSplit(v: nat, a: nat, b: nat)
    ensures Rev(v, a + b) == Rev(v, a) * Pow2(b) + Rev(Shr(v, a), b)
  {
    if a == 0 {
    } else {
      RevSplit(v / 2, a - 1, b);
      DivDiv(v, 2, Pow2(a - 1));
      Pow2Add(a - 1, b);
      MulAdd(v % 2, Pow2(a - 1), Rev(v / 2, a - 1), Pow2(b));
      assert Shr(v / 2, a - 1) == Shr(v, a);
    }
  }

  /** Only the low n bits matter. */
  lemma {:induction false} RevMod(v: nat, n: nat)
    ensures Rev(v % Pow2(n), n) == Rev(v, n)
  {
    if n > 0 {
      var m := Pow2(n - 1);
      DivDiv(v, 2, m);
      assert v % Pow2(n) == (v / 2 % m) * 2 + v % 2;
      DivMod(v / 2 % m, 2, v % 2);
      RevMod(v / 2, n - 1);
    }
  }

  /** The top a bits of a reversed field are the reversed low a bits; the rest is the reversed high part. */
  lemma {:induction false} RevParts(v: nat, a: nat, b: nat)
    ensures Rev(v, a + b) / Pow2(b) == Rev(v, a)
    ensures Rev(v, a + b) % Pow2(b) == Rev(Shr(v, a), b)
  {
    var t, x, p, y := Rev(v, a + b), Rev(v, a), Pow2(b), Rev(Shr(v, a), b);
    assert t == x * p + y by { RevSplit(v, a, b); }
    assert y < p by { RevBound(Shr(v, a), b); }
    DivModOf(t, x, p, y);
  }

  /** A bit on top of an n-bit field becomes the lowest bit. */
  lemma {:induction false} RevTop(t: nat, u: nat, n: nat)
    requires t < 2 && u < Pow2(n)
    ensures Rev(t * Pow2(n) + u, n + 1) == Rev(u, n) * 2 + t
  {
    var x := t * Pow2(n) + u;
    assert Shr(x, n) == t && x % Pow2(n) == u by { DivMod(t, Pow2(n), u); }
    assert Rev(x, n) == Rev(u, n) by { RevMod(x, n); }
    RevSplit(x, n, 1);
    assert Rev(t, 1) == t;
  }

  lemma {:induction false} RevInvolution(v: nat, n: nat)
    requires v < Pow2(n)
    ensures Rev(Rev(v, n), n) == v
  {
    if n > 0 {
      RevBound(v / 2, n - 1);
      RevInvolution(v / 2, n - 1);
      RevTop(v % 2, Rev(v / 2, n - 1), n - 1);
    }
  }

  lemma {:induction false} RevInjective(x: nat, y: nat, n: nat)
    requires x < Pow2(n) && y < Pow2(n) && Rev(x, n) == Rev(y, n)
    ensures x == y
  {
    RevInvolution(x, n);
    RevInvolution(y, n);
  }

  /** Reversing a value in a wider field appends zero bits. */
  lemma {:induction false} RevWiden(v: nat, n: nat, m: nat)
    requires v < Pow2(n)
    ensures Rev(v, n + m) == Rev(v, n) * Pow2(m)
  {
    RevSplit(v, n, m);
    DivMod(0, Pow2(n), v);
    RevZero(m);
  }

  lemma {:induction false} RevZero(n: nat)
    ensures Rev(0, n) == 0
  {
    if n > 0 { RevZero(n - 1); }
  }

  lemma {:induction false} RevOnes(m: nat)
    ensures Rev(Pow2(m) - 1, m) == Pow2(m) - 1
  {
    if m > 0 {
      var v := Pow2(m) - 1;
      assert v == (Pow2(m - 1) - 1) * 2 + 1;
      RevOnes(m - 1);
    }
  }

  // ---------------------------------------------------------------- bit strings

  /** The low n bits of v, least significant first. */
  function ToBits(v: nat, n: nat): (s: seq<bool>)
    ensures |s| == n
  {
    if n == 0 then [] else [v % 2 == 1] + ToBits(v / 2, n - 1)
  }

  /** The number whose binary digits are s, least significant first. */
  function FromBits(s: seq<bool>): (v: nat)
  {
    if s == [] then 0 else (if s[0] then 1 else 0) + 2 * FromBits(s[1..])
  }

  lemma {:induction false} FromBitsBound(s: seq<bool>)
    ensures FromBits(s) < Pow2(|s|)
  {
    if s != [] { FromBitsBound(s[1..]); }
  }

  lemma {:induction false} FromToBits(v: nat, n: nat)
    ensures FromBits(ToBits(v, n)) == v % Pow2(n)
  {
    if n > 0 {
      FromToBits(v / 2, n - 1);
      DivDiv(v, 2, Pow2(n - 1));
      assert ToBits(v, n)[1..] == ToBits(v / 2, n - 1);
    }
  }

  lemma {:induction false} ToFromBits(s: seq<bool>)
    ensures ToBits(FromBits(s), |s|) == s
  {
    if s != [] {
      ToFromBits(s[1..]);
      var v := FromBits(s);
      assert v % 2 == (if s[0] then 1 else 0) && v / 2 == FromBits(s[1..]);
    }
  }

  lemma {:induction false} ToBitsMod(v: nat, n: nat, m: nat)
    requires n <= m
    ensures ToBits(v % Pow2(m), n) == ToBits(v, n)
  {
    if n > 0 {
      DivDiv(v, 2, Pow2(m - 1));
      DivMod(v / 2 % Pow2(m - 1), 2, v % 2);
      ToBitsMod(v / 2, n - 1, m - 1);
    }
  }

  /** A field splits into its low and high parts. */
  lemma {:induction false} ToBitsSplit(v: nat, a: nat, b: nat)
    ensures ToBits(v, a + b) == ToBits(v, a) + ToBits(Shr(v, a), b)
    decreases a
  {
    if a == 0 {
      assert ToBits(v, 0) + ToBits(v, b) == ToBits(v, b);
    } else {
      var u := v / 2;
      ToBitsSplit(u, a - 1, b);
      assert Shr(u, a - 1) == Shr(v, a) by { DivDiv(v, 2, Pow2(a - 1)); }
    }
  }

  /** Joining two fields: b bits of hi above a bits of lo. */
  lemma {:induction false} ToBitsJoin(lo: nat, a: nat, hi: nat, b: nat)
    requires lo < Pow2(a)
    ensures ToBits(lo + hi * Pow2(a), a + b) == ToBits(lo, a) + ToBits(hi, b)
  {
    var v := hi * Pow2(a) + lo;
    DivMod(hi, Pow2(a), lo);
    ToBitsSplit(v, a, b);
    ToBitsMod(v, a, a);
  }

  lemma {:induction false} ToBitsAt(v: nat, n: nat, i: nat)
    requires i < n
    ensures ToBits(v, n)[i] == (Shr(v, i) % 2 == 1)
  {
    if i > 0 {
      ToBitsAt(v / 2, n - 1, i - 1);
      DivDiv(v, 2, Pow2(i - 1));
    }
  }

  /** The low k bits of a number are the first k bits of its bit string. */
  lemma {:induction false} FromBitsPrefix(s: seq<bool>, k: nat)
    requires k <= |s|
    ensures FromBits(s) % Pow2(k) == FromBits(s[..k])
    ensures Shr(FromBits(s), k) == FromBits(s[k..])
  {
    var v := FromBits(s);
    FromBitsJoin(s[..k], s[k..]);
    assert s[..k] + s[k..] == s;
    FromBitsBound(s[..k]);
    DivMod(FromBits(s[k..]), Pow2(k), FromBits(s[..k]));
  }

  lemma {:induction false} FromBitsJoin(a: seq<bool>, b: seq<bool>)
    ensures FromBits(a + b) == FromBits(a) + FromBits(b) * Pow2(|a|)
  {
    if a == [] {
      assert a + b == b;
    } else {
      FromBitsJoin(a[1..], b);
      assert (a + b)[1..] == a[1..] + b;
      assert 2 * (FromBits(b) * Pow2(|a| - 1)) == FromBits(b) * Pow2(|a|);
    }
  }
}
