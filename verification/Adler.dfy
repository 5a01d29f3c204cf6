/** The Adler-32 checksum of adler32.c against the definition in section 2.2 of RFC 1950: deferring the modulus,
    reducing without division, and combining the checksums of two pieces. */
module Adler {
  import opened Wrappers
  import opened Bits
  import opened BitWriter

  const BASE: nat := 65521
  const NMAX: nat := 5552

  /** The two sums. */
  datatype Sums = Sums(a: nat, b: nat)

  predicate Reduced(s: Sums)
  {
    s.a < BASE && s.b < BASE
  }

  /** The checksum as one number. */
  function Pack(s: Sums): (c: nat)
  {
    s.a + 0x1_0000 * s.b
  }

  /** The definition: both sums are reduced after every byte. */
  function AdlerFrom(s: Sums, data: seq<Byte>): (r: Sums)
    ensures Reduced(s) ==> Reduced(r)
    decreases |data|
  {
    if data == [] then s
    else
      var a := (s.a + data[0]) % BASE;
      AdlerFrom(Sums(a, (s.b + a) % BASE), data[1..])
  }

  /** The checksum of a whole sequence. */
  function AdlerOf(data: seq<Byte>): (c: nat)
  {
    Pack(AdlerFrom(Sums(1, 0), data))
  }

  /** The sums without any reduction. */
  function RawFrom(s: Sums, data: seq<Byte>): (r: Sums)
    decreases |data|
  {
    if data == [] then s else RawFrom(Sums(s.a + data[0], s.b + s.a + data[0]), data[1..])
  }

  function Mod(s: Sums): (r: Sums)
    ensures Reduced(r)
  {
    Sums(s.a % BASE, s.b % BASE)
  }

  lemma {:induction false} ModSum(x: int, y: int, m: int)
    requires m > 0
    ensures (x % m + y) % m == (x + y) % m && (x + y % m) % m == (x + y) % m
  {
    DivModIdentity(x, m);
    DivModIdentity(y, m);
    DivModIdentity(x % m + y, m);
    DivModIdentity(x + y % m, m);
    var q, p := (x % m + y) / m, (x + y % m) / m;
    Distribute(x / m, q, m);
    Distribute(y / m, p, m);
    DivModOf(x + y, x / m + q, m, (x % m + y) % m);
    DivModOf(x + y, y / m + p, m, (x + y % m) % m);
  }

  /** Reducing once at the end is reducing after every byte. */
  lemma {:induction false} Deferred(s: Sums, data: seq<Byte>)
    ensures AdlerFrom(Mod(s), data) == Mod(RawFrom(s, data))
    decreases |data|
  {
    if data != [] {
      var a := s.a + data[0];
      ModSum(s.a, data[0], BASE);
      ModSum(s.b, a % BASE, BASE);
      ModSum(s.b, a, BASE);
      ModSum(s.b % BASE, a, BASE);
      assert Mod(Sums(a, s.b + a)) ==
        Sums((s.a % BASE + data[0]) % BASE, (s.b % BASE + (s.a % BASE + data[0]) % BASE) % BASE);
      Deferred(Sums(a, s.b + s.a + data[0]), data[1..]);
    }
  }

  lemma {:induction false} AdlerConcat(s: Sums, x: seq<Byte>, y: seq<Byte>)
    ensures AdlerFrom(s, x + y) == AdlerFrom(AdlerFrom(s, x), y)
    decreases |x|
  {
    if x == [] {
      assert x + y == y;
    } else {
      assert (x + y)[1..] == x[1..] + y;
      var a := (s.a + x[0]) % BASE;
      AdlerConcat(Sums(a, (s.b + a) % BASE), x[1..], y);
    }
  }

  lemma {:induction false} RawMore(s: Sums, data: seq<Byte>, x: Byte)
    ensures RawFrom(s, data + [x]) == Sums(RawFrom(s, data).a + x, RawFrom(s, data).b + RawFrom(s, data).a + x)
    decreases |data|
  {
    if data == [] {
      assert [x][1..] == [] && data + [x] == [x];
    } else {
      assert (data + [x])[1..] == data[1..] + [x];
      RawMore(Sums(s.a + data[0], s.b + s.a + data[0]), data[1..], x);
    }
  }

  /** After k bytes the sums are at most these. */
  function MostA(k: nat): (m: nat)
  {
    BASE - 1 + 255 * k
  }

  function MostB(k: nat): (m: nat)
  {
    if k == 0 then BASE - 1 else MostB(k - 1) + MostA(k)
  }

  lemma {:induction false} MostIs(k: nat)
    ensures 2 * MostB(k) == 2 * (BASE - 1) * (k + 1) + 255 * k * (k + 1)
  {
    if k > 0 { MostIs(k - 1); }
  }

  lemma {:induction false} MostMono(k: nat, n: nat)
    requires k <= n
    ensures MostB(k) <= MostB(n)
  {
    if k < n { MostMono(k, n - 1); }
  }

  /** Why NMAX bytes can be added before a reduction is needed. */
  lemma {:induction false} NoOverflow(k: nat)
    requires k <= NMAX
    ensures MostA(k) <= MostB(k) + 255 * k && MostB(k) < 0x1_0000_0000 && MostA(k) < 0x1_0000_0000
  {
    MostMono(k, NMAX);
    MostMono(0, k);
    MostIs(NMAX);
  }

  /** One more byte would be one too many. */
  lemma {:induction false} NmaxIsLargest()
    ensures MostB(NMAX) < 0x1_0000_0000 <= MostB(NMAX + 1)
  {
    MostIs(NMAX);
    MostIs(NMAX + 1);
  }

  lemma {:induction false} RawBound(s: Sums, data: seq<Byte>)
    requires Reduced(s)
    ensures RawFrom(s, data).a <= MostA(|data|) && RawFrom(s, data).b <= MostB(|data|)
    decreases |data|
  {
    if data != [] {
      var n := |data| - 1;
      assert data == data[..n] + [data[n]];
      RawBound(s, data[..n]);
      RawMore(s, data[..n], data[n]);
    }
  }

  // ------------------------------------------------------------------ reducing without division

  lemma {:induction false} Congruent(hi: nat, lo: nat, unit: nat, r: nat)
    requires unit == r + BASE * ((unit - r) / BASE) && r <= unit
    ensures hi * unit >= 0 && hi * r >= 0 && (hi * unit + lo) % BASE == (hi * r + lo) % BASE
  {
    var k := (unit - r) / BASE;
    MulComm(BASE, k);
    MulMono(0, hi, unit);
    MulMono(0, hi, r);
    assert hi * unit == hi * r + hi * (k * BASE);
    assert hi * (k * BASE) == (hi * k) * BASE;
    DivModIdentity(hi * r + lo, BASE);
    var q := (hi * r + lo) / BASE;
    Distribute(hi * k, q, BASE);
    DivModOf(hi * unit + lo, hi * k + q, BASE, (hi * r + lo) % BASE);
  }

  /** CHOP: 65536 is 15 more than a multiple of the modulus. */
  method Chop(a: nat) returns (r: nat)
    ensures r % BASE == a % BASE && r == a % 0x1_0000 + 15 * (a / 0x1_0000)
  {
    var tmp := a / 0x1_0000;
    r := a % 0x1_0000 + (tmp * 16 - tmp);
    Congruent(tmp, a % 0x1_0000, 0x1_0000, 15);
  }

  /** The last conditional subtraction. */
  method Once(a: nat) returns (r: nat)
    requires a < 2 * BASE
    ensures r == a % BASE
  {
    r := a;
    if r >= BASE { r := r - BASE; }
  }

  /** MOD28. */
  method Mod28(a: nat) returns (r: nat)
    requires a < 0x1000_0000
    ensures r == a % BASE
  {
    r := Chop(a);
    r := Once(r);
  }

  /** MOD. */
  method Mod32(a: nat) returns (r: nat)
    requires a < 0x1_0000_0000
    ensures r == a % BASE
  {
    r := Chop(a);
    r := Mod28(r);
  }

  /** MOD63. */
  method Mod63(a: nat) returns (r: nat)
    requires a < 0x8000_0000_0000_0000
    ensures r == a % BASE
  {
    var tmp := a / 0x1_0000_0000;
    r := a % 0x1_0000_0000 + (tmp * 256 - tmp * 32 + tmp);
    Congruent(tmp, a % 0x1_0000_0000, 0x1_0000_0000, 225);
    r := Chop(r);
    r := Chop(r);
    r := Once(r);
  }

  // ------------------------------------------------------------------ adler32

  lemma {:induction false} Unpack(s: Sums)
    requires s.a < 0x1_0000
    ensures Pack(s) % 0x1_0000 == s.a && Pack(s) / 0x1_0000 == s.b
  {
    DivModOf(Pack(s), s.b, 0x1_0000, s.a);
  }

  lemma {:induction false} ReducedStays(s: Sums)
    requires Reduced(s)
    ensures Mod(s) == s
  {
  }

  /** Adds the bytes from i to j; nothing exceeds 32 bits. */
  method Accumulate(buf: seq<Byte>, i: nat, j: nat, start: nat, adler0: nat, sum0: nat,
      ghost s: Sums) returns (adler: nat, sum2: nat)
    requires start <= i <= j <= |buf| && j - start <= NMAX && Reduced(s)
        && Sums(adler0, sum0) == RawFrom(s, buf[start..i])
    ensures Sums(adler, sum2) == RawFrom(s, buf[start..j]) && adler < 0x1_0000_0000 && sum2 < 0x1_0000_0000
  {
    adler, sum2 := adler0, sum0;
    RawBound(s, buf[start..i]);
    NoOverflow(i - start);
    for k := i to j
      invariant Sums(adler, sum2) == RawFrom(s, buf[start..k]) && adler < 0x1_0000_0000 && sum2 < 0x1_0000_0000
    {
      RawMore(s, buf[start..k], buf[k]);
      assert buf[start..k + 1] == buf[start..k] + [buf[k]];
      RawBound(s, buf[start..k + 1]);
      NoOverflow(k + 1 - start);
      adler := adler + buf[k];
      sum2 := sum2 + adler;
    }
  }

  /** Both sums reduced: what has been added since start counts as reduced after every byte. */
  method Reduce(adler: nat, sum2: nat, ghost s: Sums, ghost data: seq<Byte>) returns (a: nat, b: nat)
    requires Reduced(s) && Sums(adler, sum2) == RawFrom(s, data) && adler < 0x1_0000_0000 && sum2 < 0x1_0000_0000
    ensures Sums(a, b) == AdlerFrom(s, data) && Reduced(Sums(a, b))
  {
    a := Mod32(adler);
    b := Mod32(sum2);
    ReducedStays(s);
    Deferred(s, data);
  }

  /** adler32: the checksum updated with the bytes of buf; without a buffer the initial value. */
  method Adler32(adler: nat, buf: Option<seq<Byte>>) returns (c: nat)
    requires Reduced(Sums(adler % 0x1_0000, adler / 0x1_0000))
    ensures buf == None ==> c == AdlerOf([])
    ensures buf.Some? ==> c == Pack(AdlerFrom(Sums(adler % 0x1_0000, adler / 0x1_0000), buf.value))
  {
    var a: nat, b: nat := adler % 0x1_0000, adler / 0x1_0000;
    ghost var s := Sums(a, b);
    if buf.None? { return 1; }
    var data := buf.value;
    if |data| == 1 {
      a := Once(a + data[0]);
      b := Once(b + a);
      assert data[1..] == [];
      return a + 0x1_0000 * b;
    }
    if |data| < 16 {
      c := Short(data, a, b, s);
      return;
    }
    var i: nat := 0;
    assert data[..0] == [];
    while |data| - i >= NMAX
      invariant i <= |data| && Sums(a, b) == AdlerFrom(s, data[..i]) && Reduced(Sums(a, b))
      decreases |data| - i
    {
      a, b := Block(data, i, NMAX, a, b);
      AdlerConcat(s, data[..i], data[i..i + NMAX]);
      assert data[..i] + data[i..i + NMAX] == data[..i + NMAX];
      i := i + NMAX;
    }
    if i < |data| {
      ghost var n := |data|;
      a, b := Block(data, i, |data| - i, a, b);
      AdlerConcat(s, data[..i], data[i..n]);
      assert data[..i] + data[i..n] == data[..n];
    }
    assert data[..|data|] == data;
    c := a + 0x1_0000 * b;
  }

  /** Fewer than sixteen bytes. */
  method Short(data: seq<Byte>, a0: nat, b0: nat, ghost s: Sums) returns (c: nat)
    requires |data| < 16 && s == Sums(a0, b0) && Reduced(s)
    ensures c == Pack(AdlerFrom(s, data))
  {
    assert data[0..0] == [] && data[0..|data|] == data;
    var a, b := Accumulate(data, 0, |data|, 0, a0, b0, s);
    RawBound(s, data);
    MostIs(|data|);
    ShortBound(|data|);
    ReducedStays(s);
    Deferred(s, data);
    a := Once(a);
    b := Mod28(b);
    c := a + 0x1_0000 * b;
  }

  lemma {:induction false} ShortBound(n: nat)
    requires n < 16
    ensures MostA(n) < 2 * BASE && MostB(n) < 0x1000_0000
  {
    MostMono(n, 15);
    MostIs(15);
  }

  /** At most NMAX bytes, sixteen at a time as long as there are as many, and one reduction. */
  method Block(data: seq<Byte>, start: nat, len: nat, a0: nat, b0: nat) returns (a: nat, b: nat)
    requires start + len <= |data| && len <= NMAX && Reduced(Sums(a0, b0))
    ensures Sums(a, b) == AdlerFrom(Sums(a0, b0), data[start..start + len]) && Reduced(Sums(a, b))
  {
    ghost var s := Sums(a0, b0);
    a, b := a0, b0;
    var i: nat := start;
    assert data[start..start] == [];
    while start + len - i >= 16
      invariant start <= i <= start + len && Sums(a, b) == RawFrom(s, data[start..i])
      decreases start + len - i
    {
      a, b := Accumulate(data, i, i + 16, start, a, b, s);
      i := i + 16;
    }
    a, b := Accumulate(data, i, start + len, start, a, b, s);
    a, b := Reduce(a, b, s, data[start..start + len]);
  }

  // ------------------------------------------------------------------ combining

  /** What the bytes add to the two sums, the first sum apart. */
  function Gain(data: seq<Byte>): (g: Sums)
  {
    RawFrom(Sums(0, 0), data)
  }

  lemma {:induction false} RawLinear(s: Sums, data: seq<Byte>)
    ensures |data| * s.a >= 0 && RawFrom(s, data) == Sums(s.a + Gain(data).a, s.b + |data| * s.a + Gain(data).b)
    decreases |data|
  {
    if data != [] {
      var x, rest := data[0], data[1..];
      RawLinear(Sums(s.a + x, s.b + s.a + x), rest);
      RawLinear(Sums(x, x), rest);
      MulMono(0, |data|, s.a);
      assert |rest| * (s.a + x) == |rest| * s.a + |rest| * x;
      assert |data| * s.a == |rest| * s.a + s.a;
    }
  }

  lemma {:induction false} Products(n: nat, a: nat)
    ensures (n % BASE) * a >= 0 && n * a >= 0 && (n % BASE) * a % BASE == n * a % BASE
  {
    MulMono(0, n % BASE, a);
    MulMono(0, n, a);
    DivModIdentity(n, BASE);
    var q := n / BASE;
    assert n * a == (q * a) * BASE + (n % BASE) * a by { Distribute(q * BASE, n % BASE, a); MulComm(BASE, a); }
    DivModIdentity((n % BASE) * a, BASE);
    var p := (n % BASE) * a / BASE;
    Distribute(q * a, p, BASE);
    DivModOf(n * a, q * a + p, BASE, (n % BASE) * a % BASE);
  }

  lemma {:induction false} SameMod(x: int, y: int, k: int)
    requires x == y + k * BASE
    ensures x % BASE == y % BASE
  {
    DivModIdentity(y, BASE);
    Distribute(y / BASE, k, BASE);
    DivModOf(x, y / BASE + k, BASE, y % BASE);
  }

  /** The sums of a concatenation from those of its parts, the second of n bytes. */
  function Combined(s: Sums, t: Sums, n: nat): (r: Sums)
    requires Reduced(s) && Reduced(t)
    ensures Reduced(r)
  {
    Products(n, s.a);
    Sums((s.a + t.a + BASE - 1) % BASE, ((n % BASE) * s.a % BASE + s.b + t.b + BASE - n % BASE) % BASE)
  }

  lemma {:induction false} FirstSum(a: nat, g: nat)
    ensures (a + (1 + g) % BASE + BASE - 1) % BASE == (a + g) % BASE
  {
    ModSum(a + BASE - 1, 1 + g, BASE);
    SameMod(a + BASE + g, a + g, 1);
  }

  lemma {:induction false} SecondSum(n: nat, a: nat, b: nat, g: nat)
    ensures (n % BASE) * a >= 0 && n * a >= 0
    ensures ((n % BASE) * a % BASE + b + (n + g) % BASE + BASE - n % BASE) % BASE == (n * a + b + g) % BASE
  {
    Products(n, a);
    var r, p := n % BASE, n * a;
    DivModIdentity(n, BASE);
    ModSum(p % BASE + b + BASE - r, n + g, BASE);
    ModSum(p, b + BASE - r + n + g, BASE);
    SameMod(p + b + BASE - r + n + g, p + b + g, 1 + n / BASE);
  }

  /** The checksum of a concatenation from those of its parts: the sums are linear in the first one. */
  lemma {:induction false} CombineIs(s: Sums, y: seq<Byte>)
    requires Reduced(s)
    ensures AdlerFrom(s, y) == Combined(s, AdlerFrom(Sums(1, 0), y), |y|)
  {
    hide RawFrom, AdlerFrom;
    var g, n := Gain(y), |y|;
    ReducedStays(s);
    ReducedStays(Sums(1, 0));
    Deferred(s, y);
    Deferred(Sums(1, 0), y);
    RawLinear(s, y);
    RawLinear(Sums(1, 0), y);
    FirstSum(s.a, g.a);
    SecondSum(n, s.a, s.b, g.b);
  }

  lemma {:induction false} CombineConcat(x: seq<Byte>, y: seq<Byte>)
    ensures Combined(AdlerFrom(Sums(1, 0), x), AdlerFrom(Sums(1, 0), y), |y|) == AdlerFrom(Sums(1, 0), x + y)
  {
    hide AdlerFrom, Combined;
    AdlerConcat(Sums(1, 0), x, y);
    CombineIs(AdlerFrom(Sums(1, 0), x), y);
  }

  /** The halves of adler1 and adler2 combined. */
  method CombineSums(adler1: nat, adler2: nat, len2: nat) returns (c: nat)
    requires len2 < 0x8000_0000_0000_0000
    requires Reduced(Sums(adler1 % 0x1_0000, adler1 / 0x1_0000)) && Reduced(Sums(adler2 % 0x1_0000, adler2 / 0x1_0000))
    ensures c == Pack(Combined(Sums(adler1 % 0x1_0000, adler1 / 0x1_0000),
        Sums(adler2 % 0x1_0000, adler2 / 0x1_0000), len2))
  {
    var rem := Mod63(len2);
    var sum1: nat := adler1 % 0x1_0000;
    ProductBound(rem, sum1);
    var sum2 := Mod32(rem * sum1);
    sum1 := sum1 + adler2 % 0x1_0000 + BASE - 1;
    sum2 := sum2 + adler1 / 0x1_0000 + adler2 / 0x1_0000 + BASE - rem;
    ghost var u, v := sum1, sum2;
    if sum1 >= BASE { sum1 := sum1 - BASE; }
    if sum1 >= BASE { sum1 := sum1 - BASE; }
    ThreeTimes(u, sum1);
    if sum2 >= 2 * BASE { sum2 := sum2 - 2 * BASE; }
    if sum2 >= BASE { sum2 := sum2 - BASE; }
    FourTimes(v, sum2);
    c := sum1 + 0x1_0000 * sum2;
  }

  /** adler32_combine_: adler1 of a first and adler2 of a second piece of len2 bytes give the checksum of both together;
      a negative length gives a value that is no checksum. */
  method Combine(adler1: nat, adler2: nat, len2: int) returns (c: nat)
    requires adler1 < 0x1_0000_0000 && adler2 < 0x1_0000_0000 && len2 < 0x8000_0000_0000_0000
    requires Reduced(Sums(adler1 % 0x1_0000, adler1 / 0x1_0000)) && Reduced(Sums(adler2 % 0x1_0000, adler2 / 0x1_0000))
    ensures len2 < 0 ==> c == 0xffff_ffff
    ensures forall x: seq<Byte>, y: seq<Byte> ::
        adler1 == AdlerOf(x) && adler2 == AdlerOf(y) && len2 == |y| ==> c == AdlerOf(x + y)
  {
    if len2 < 0 { return 0xffff_ffff; }
    c := CombineSums(adler1, adler2, len2);
    forall x: seq<Byte>, y: seq<Byte> | adler1 == AdlerOf(x) && adler2 == AdlerOf(y) && len2 == |y|
      ensures c == AdlerOf(x + y) {
      hide AdlerFrom, Combined;
      CombineConcat(x, y);
      Unpack(AdlerFrom(Sums(1, 0), x));
      Unpack(AdlerFrom(Sums(1, 0), y));
    }
  }

  lemma {:induction false} ProductBound(x: nat, y: nat)
    requires x < BASE && y < BASE
    ensures 0 <= x * y < 0x1_0000_0000
  {
    MulMono(x, BASE, y);
    MulMono(y, BASE, BASE);
    MulComm(BASE, y);
  }

  lemma {:induction false} ThreeTimes(u: nat, r: int)
    requires u < 3 * BASE && r == (var w := if u >= BASE then u - BASE else u; if w >= BASE then w - BASE else w)
    ensures r == u % BASE
  {
  }

  lemma {:induction false} FourTimes(v: nat, r: int)
    requires v < 4 * BASE && r == (var w := if v >= 2 * BASE then v - 2 * BASE else v; if w >= BASE then w - BASE
        else w)
    ensures r == v % BASE
  {
  }
}
