/** Reading back what was written: the decoder, run on the bits of a block, puts out what the block's tokens
    stand for and stops right behind it. */
module BlockTrip {
  import opened Wrappers
  import opened Bits
  import opened Canonical
  import opened InflateTable
  import opened StaticTables
  import opened FixedTrees
  import opened RunLength
  import opened BitWriter
  import opened Rfc1951
  import opened Decoder

  /** The field at the front of a stream. */
  lemma {:induction false} FieldFront(v: nat, n: nat, more: seq<bool>)
    requires v < Pow2(n)
    ensures |ToBits(v, n) + more| >= n && Field(ToBits(v, n) + more, 0, n) == v
    ensures (ToBits(v, n) + more)[n..] == more
  {
    hide Pow2;
    var b := ToBits(v, n) + more;
    assert b[0..0 + n] == ToBits(v, n);
    FromToBits(v, n);
    DivModOf(v, 0, Pow2(n), v);
  }

  /** A field behind others. */
  lemma {:induction false} FieldBehind(a: seq<bool>, v: nat, n: nat, more: seq<bool>)
    requires v < Pow2(n)
    ensures |a + (ToBits(v, n) + more)| >= |a| + n && Field(a + (ToBits(v, n) + more), |a|, n) == v
  {
    hide Pow2;
    var b := a + (ToBits(v, n) + more);
    assert b[|a|..|a| + n] == ToBits(v, n);
    FromToBits(v, n);
    DivModOf(v, 0, Pow2(n), v);
  }

  lemma {:induction false} LookupFront(lens: seq<nat>, s: nat, more: seq<bool>)
    requires Valid(lens) && s < |lens| && lens[s] > 0
    ensures Lookup(lens, CodeOf(lens, s) + more) == Sym(s, lens[s]) && |CodeOf(lens, s)| == lens[s]
    ensures (CodeOf(lens, s) + more)[lens[s]..] == more
  {
    hide CodeBits, Lookup;
    var b := CodeOf(lens, s) + more;
    assert b[..lens[s]] == CodeBits(lens, s);
    LookupCode(lens, s, b);
  }

  /** The symbols of a token have codes. */
  ghost predicate HasCode(ll: seq<nat>, dl: seq<nat>, t: Token)
    requires TokenOk(t)
  {
    match t
    case Literal(b) => b < |ll| && ll[b] > 0
    case Match(len, dist) =>
      && 257 + LengthCode(len - 3) < |ll| && ll[257 + LengthCode(len - 3)] > 0
      && DistCode(dist - 1) < |dl| && dl[DistCode(dist - 1)] > 0
  }

  lemma {:induction false} CopyTrip(c: Conf, n: nat)
    requires ConfOk(c) && c.st.phase.Copying? && c.st.phase.len == n && c.st.phase.dist <= |c.st.out|
        && c.st.phase.dist <= c.st.size
    ensures Reaches(c, Conf(c.st.(phase := Len(c.st.phase.ll, c.st.phase.dl),
        out := CopyMatch(c.st.out, n, c.st.phase.dist)), c.rest))
    decreases n
  {
    hide Reaches, Accepted;
    var p := c.st.phase;
    var out' := c.st.out + [c.st.out[|c.st.out| - p.dist]];
    var st' := c.st.(phase := if n == 1 then Len(p.ll, p.dl) else Copying(p.ll, p.dl, n - 1, p.dist), out := out');
    ReachesStep(c, st', 0);
    assert c.rest[0..] == c.rest;
    if n > 1 {
      CopyTrip(Conf(st', c.rest), n - 1);
      ReachesTrans(c, Conf(st', c.rest),
        Conf(c.st.(phase := Len(p.ll, p.dl), out := CopyMatch(out', n - 1, p.dist)), c.rest));
    }
  }

  lemma {:induction false} LiteralTrip(st: State, ll: seq<nat>, dl: seq<nat>, b: Byte, more: seq<bool>)
    requires st.phase == Len(ll, dl) && TreesOk(ll, dl) && HasCode(ll, dl, Literal(b))
    ensures Reaches(Conf(st, TokenBits(ll, dl, Literal(b)) + more),
        Conf(st.(out := st.out + [b], ts := st.ts + [Literal(b)]), more))
  {
    hide Reaches, Accepted, Lookup, CodeBits;
    AcceptedValid(LENS, ll);
    LookupFront(ll, b, more);
    var c := Conf(st, CodeOf(ll, b) + more);
    var st1 := st.(phase := Emitting(ll, dl, b), ts := st.ts + [Literal(b)]);
    ReachesStep(c, st1, ll[b]);
    ReachesStep(Conf(st1, more), st1.(phase := Len(ll, dl), out := st.out + [b]), 0);
    assert more[0..] == more;
    ReachesTrans(c, Conf(st1, more), Conf(st.(out := st.out + [b], ts := st.ts + [Literal(b)]), more));
  }

  /** Length code, extra bits, distance code, extra bits. */
  lemma {:induction false} LengthTrip(st: State, ll: seq<nat>, dl: seq<nat>, len: nat, more: seq<bool>)
    requires st.phase == Len(ll, dl) && TreesOk(ll, dl) && 3 <= len <= 258
    requires 257 + LengthCode(len - 3) < |ll| && ll[257 + LengthCode(len - 3)] > 0
    ensures LengthCode(len - 3) <= 28 && LBase(LengthCode(len - 3)) <= len
    ensures var lc := LengthCode(len - 3);
      Reaches(Conf(st, CodeOf(ll, 257 + lc) + ToBits(len - LBase(lc), LBits(lc)) + more),
        Conf(st.(phase := Dist(ll, dl, len)), more))
  {
    hide Reaches, Accepted, Lookup, CodeBits, LengthCode, LBase, LBits, Pow2;
    LengthCodeOk(len - 3);
    AcceptedValid(LENS, ll);
    var lc := LengthCode(len - 3);
    var x := ToBits(len - LBase(lc), LBits(lc)) + more;
    assert CodeOf(ll, 257 + lc) + ToBits(len - LBase(lc), LBits(lc)) + more == CodeOf(ll, 257 + lc) + x;
    LookupFront(ll, 257 + lc, x);
    FieldFront(len - LBase(lc), LBits(lc), more);
    var st1 := st.(phase := LenExt(ll, dl, LBase(lc), LBits(lc)));
    ReachesStep(Conf(st, CodeOf(ll, 257 + lc) + x), st1, ll[257 + lc]);
    ReachesStep(Conf(st1, x), st.(phase := Dist(ll, dl, len)), LBits(lc));
    ReachesTrans(Conf(st, CodeOf(ll, 257 + lc) + x), Conf(st1, x), Conf(st.(phase := Dist(ll, dl, len)), more));
  }

  lemma {:induction false} DistTrip(st: State, ll: seq<nat>, dl: seq<nat>, len: nat, dist: nat, more: seq<bool>)
    requires st.phase == Dist(ll, dl, len) && TreesOk(ll, dl) && 3 <= len <= 258 && 1 <= dist <= 32768
    requires DistCode(dist - 1) < |dl| && dl[DistCode(dist - 1)] > 0
    ensures DistCode(dist - 1) <= 29 && DBase(DistCode(dist - 1)) <= dist
    ensures var dc := DistCode(dist - 1);
      Reaches(Conf(st, CodeOf(dl, dc) + ToBits(dist - DBase(dc), DBits(dc)) + more),
              Conf(st.(phase := Copying(ll, dl, len, dist), ts := st.ts + [Match(len, dist)]), more))
    ensures ConfOk(Conf(st.(phase := Copying(ll, dl, len, dist), ts := st.ts + [Match(len, dist)]), more))
  {
    hide Reaches, Accepted, Lookup, CodeBits, DistCode, DBase, DBits, Pow2;
    DistCodeOk(dist - 1);
    AcceptedValid(DISTS, dl);
    var dc := DistCode(dist - 1);
    var x := ToBits(dist - DBase(dc), DBits(dc)) + more;
    assert CodeOf(dl, dc) + ToBits(dist - DBase(dc), DBits(dc)) + more == CodeOf(dl, dc) + x;
    LookupFront(dl, dc, x);
    FieldFront(dist - DBase(dc), DBits(dc), more);
    var st1 := st.(phase := DistExt(ll, dl, len, DBase(dc), DBits(dc)));
    var st2 := st.(phase := Copying(ll, dl, len, dist), ts := st.ts + [Match(len, dist)]);
    ReachesStep(Conf(st, CodeOf(dl, dc) + x), st1, dl[dc]);
    ReachesStep(Conf(st1, x), st2, DBits(dc));
    ReachesTrans(Conf(st, CodeOf(dl, dc) + x), Conf(st1, x), Conf(st2, more));
  }

  lemma {:induction false} MatchTrip(st: State, ll: seq<nat>, dl: seq<nat>, len: nat, dist: nat, more: seq<bool>)
    requires st.phase == Len(ll, dl) && TreesOk(ll, dl) && TokenOk(Match(len, dist))
        && HasCode(ll, dl, Match(len, dist))
    requires dist <= |st.out| && dist <= st.size
    ensures Reaches(Conf(st, TokenBits(ll, dl, Match(len, dist)) + more),
                    Conf(st.(out := CopyMatch(st.out, len, dist), ts := st.ts + [Match(len, dist)]), more))
  {
    hide Reaches, Accepted, LengthCode, DistCode, LBase, LBits, DBase, DBits, Pow2, CodeOf, ToBits, CopyMatch, TreesOk;
    LengthCodeOk(len - 3);
    DistCodeOk(dist - 1);
    var lc, dc := LengthCode(len - 3), DistCode(dist - 1);
    var a := CodeOf(ll, 257 + lc) + ToBits(len - LBase(lc), LBits(lc));
    var x := CodeOf(dl, dc) + ToBits(dist - DBase(dc), DBits(dc));
    assert a + x + more == a + (x + more);
    var c := Conf(st, a + x + more);
    var st1 := st.(phase := Dist(ll, dl, len));
    var st2 := st.(phase := Copying(ll, dl, len, dist), ts := st.ts + [Match(len, dist)]);
    LengthTrip(st, ll, dl, len, x + more);
    DistTrip(st1, ll, dl, len, dist, more);
    CopyTrip(Conf(st2, more), len);
    ReachesTrans(c, Conf(st1, x + more), Conf(st2, more));
    ReachesTrans(c, Conf(st2, more),
      Conf(st.(out := CopyMatch(st.out, len, dist), ts := st.ts + [Match(len, dist)]), more));
  }

  ghost predicate TokensFit(ll: seq<nat>, dl: seq<nat>, ts: seq<Token>, size: nat)
  {
    TokensOk(ts) && forall i :: 0 <= i < |ts| ==> HasCode(ll, dl, ts[i]) && (ts[i].Match? ==> ts[i].dist <= size)
  }

  /** All tokens of a block. */
  lemma {:induction false} TokensTrip(st: State, ll: seq<nat>, dl: seq<nat>, ts: seq<Token>, more: seq<bool>)
    requires st.phase == Len(ll, dl) && TreesOk(ll, dl) && TokensFit(ll, dl, ts, st.size) && Expand(st.out, ts).Some?
    ensures Reaches(Conf(st, TokensBits(ll, dl, ts) + more),
        Conf(st.(out := Expand(st.out, ts).value, ts := st.ts + ts), more))
    decreases |ts|
  {
    hide Reaches, Accepted, TokenBits, CopyMatch, LengthCode, DistCode;
    if ts == [] {
      assert [] + more == more && st.ts + [] == st.ts;
      ReachesItself(Conf(st, more));
    } else {
      var t, rest := ts[0], TokensBits(ll, dl, ts[1..]) + more;
      assert TokensBits(ll, dl, ts) + more == TokenBits(ll, dl, t) + rest;
      var out' := ExpandOne(st.out, t).value;
      var st' := st.(out := out', ts := st.ts + [t]);
      match t {
        case Literal(b) => LiteralTrip(st, ll, dl, b, rest);
        case Match(len, dist) => MatchTrip(st, ll, dl, len, dist, rest);
      }
      TokensTrip(st', ll, dl, ts[1..], more);
      assert st'.ts + ts[1..] == st.ts + ts;
      ReachesTrans(Conf(st, TokensBits(ll, dl, ts) + more), Conf(st', rest),
        Conf(st.(out := Expand(st.out, ts).value, ts := st.ts + ts), more));
    }
  }

  /** The tokens and the end of the block. */
  lemma {:induction false} BodyTrip(st: State, ll: seq<nat>, dl: seq<nat>, ts: seq<Token>, more: seq<bool>)
    requires st.phase == Len(ll, dl) && TreesOk(ll, dl) && TokensFit(ll, dl, ts, st.size) && Expand(st.out, ts).Some?
    requires END_BLOCK < |ll| && ll[END_BLOCK] > 0
    ensures Reaches(Conf(st, BodyBits(ll, dl, ts) + more),
        Conf(st.(phase := Type, out := Expand(st.out, ts).value, ts := st.ts + ts), more))
  {
    hide Reaches, Accepted, TokensBits, Expand, CodeBits, Lookup;
    var end := CodeOf(ll, END_BLOCK) + more;
    assert BodyBits(ll, dl, ts) + more == TokensBits(ll, dl, ts) + end;
    TokensTrip(st, ll, dl, ts, end);
    AcceptedValid(LENS, ll);
    LookupFront(ll, END_BLOCK, more);
    var st1 := st.(out := Expand(st.out, ts).value, ts := st.ts + ts);
    ReachesStep(Conf(st1, end), st1.(phase := Type), ll[END_BLOCK]);
    ReachesTrans(Conf(st, BodyBits(ll, dl, ts) + more), Conf(st1, end), Conf(st1.(phase := Type), more));
  }

  // ------------------------------------------------------------------ block headers

  /** The three bits in front of a block. */
  lemma {:induction false} HeadTrip(st: State, kind: nat, last: bool, more: seq<bool>)
    requires st.phase.Type? && !st.last && kind < 3
    ensures Reaches(Conf(st, HeadBits(kind, last) + more),
                    Conf(st.(last := last, phase := if kind == 0 then Stored else if kind == 1
                      then Len(FixedLit(), FixedDist()) else Table), more))
    ensures TreesOk(FixedLit(), FixedDist())
  {
    hide Reaches, Accepted, FixedLit, FixedDist, Pow2;
    FixedAccepted();
    HeadFields(kind, last, more);
    var b := HeadBits(kind, last) + more;
    ReachesStep(Conf(st, b), st.(last := last, phase := if kind == 0 then Stored else if kind == 1
      then Len(FixedLit(), FixedDist()) else Table), 3);
  }

  lemma {:induction false} HeadFields(kind: nat, last: bool, more: seq<bool>)
    requires kind < 3
    ensures |HeadBits(kind, last) + more| >= 3 && (HeadBits(kind, last) + more)[0] == last
    ensures Field(HeadBits(kind, last) + more, 1, 2) == kind && (HeadBits(kind, last) + more)[3..] == more
  {
    hide FromBits;
    var v := 2 * kind + if last then 1 else 0;
    var b := HeadBits(kind, last) + more;
    assert v % 2 == (if last then 1 else 0) && v / 2 == kind;
    assert HeadBits(kind, last) == [last] + ToBits(kind, 2);
    assert b[1..1 + 2] == ToBits(kind, 2);
    FromToBits(kind, 2);
    Pow2Values();
  }

  // ------------------------------------------------------------------ stored blocks

  lemma {:induction false} BytesTrip(st: State, data: seq<Byte>, more: seq<bool>)
    requires st.phase == Copy(|data|) && |data| <= 0xffff
    ensures Reaches(Conf(st, BytesBits(data) + more),
                    Conf(st.(phase := Type, out := st.out + data, ts := st.ts + Literals(data)), more))
    decreases |data|
  {
    hide Reaches, ToBits;
    var c := Conf(st, BytesBits(data) + more);
    if data == [] {
      assert st.out + data == st.out && st.ts + Literals(data) == st.ts && [] + more == more && more[0..] == more;
      ReachesStep(c, st.(phase := Type), 0);
    } else {
      var x := BytesBits(data[1..]) + more;
      assert c.rest == ToBits(data[0], 8) + x;
      Pow2Values();
      FieldFront(data[0], 8, x);
      var st1 := st.(phase := Copy(|data| - 1), out := st.out + [data[0]], ts := st.ts + [Literal(data[0])]);
      ReachesStep(c, st1, 8);
      BytesTrip(st1, data[1..], more);
      assert st1.out + data[1..] == st.out + data;
      assert st1.ts + Literals(data[1..]) == st.ts + Literals(data);
      ReachesTrans(c, Conf(st1, x), Conf(st.(phase := Type, out := st.out + data, ts := st.ts + Literals(data)), more));
    }
  }

  function Literals(data: seq<Byte>): (ts: seq<Token>)
    ensures |ts| == |data| && forall i :: 0 <= i < |data| ==> ts[i] == Literal(data[i])
  {
    seq(|data|, i requires 0 <= i < |data| => Literal(data[i]))
  }

  /** To the byte boundary. */
  lemma {:induction false} PadTrip(st: State, pad: seq<bool>, more: seq<bool>)
    requires st.phase.Stored? && |pad| < 8 && |more| % 8 == 0
    ensures Reaches(Conf(st, pad + more), Conf(st.(phase := StoredLen), more))
  {
    hide Reaches;
    var b := pad + more;
    assert |b| % 8 == |pad| && b[|pad|..] == more;
    ReachesStep(Conf(st, b), st.(phase := StoredLen), |pad|);
  }

  /** The length and its complement. */
  lemma {:induction false} StoredLenTrip(st: State, n: nat, more: seq<bool>)
    requires st.phase.StoredLen? && n <= 0xffff
    ensures Reaches(Conf(st, ToBits(n, 16) + ToBits(0xffff - n, 16) + more), Conf(st.(phase := Copy(n)), more))
  {
    hide Reaches, ToBits, FromBits, Pow2;
    Pow2Values();
    var b := ToBits(n, 16) + ToBits(0xffff - n, 16) + more;
    assert b == ToBits(n, 16) + (ToBits(0xffff - n, 16) + more);
    FieldFront(n, 16, ToBits(0xffff - n, 16) + more);
    FieldBehind(ToBits(n, 16), 0xffff - n, 16, more);
    assert b[32..] == more;
    ReachesStep(Conf(st, b), st.(phase := Copy(n)), 32);
  }

  /** The whole of a stored block; pad is the padding up to the byte boundary. */
  lemma {:induction false} StoredTrip(st: State, last: bool, pad: seq<bool>, data: seq<Byte>, more: seq<bool>)
    requires st.phase.Type? && !st.last && |data| <= 0xffff && |pad| < 8 && |more| % 8 == 0
    ensures Reaches(Conf(st, HeadBits(0, last) + (pad + StoredBits(data) + more)),
                    Conf(st.(last := last, out := st.out + data, ts := st.ts + Literals(data)), more))
  {
    hide Reaches, ToBits, FixedLit, FixedDist, Literals, HeadBits;
    var n := |data|;
    var tail := BytesBits(data) + more;
    var lens := ToBits(n, 16) + ToBits(0xffff - n, 16) + tail;
    var b := pad + StoredBits(data) + more;
    assert b == pad + lens && |lens| % 8 == 0;
    var st1 := st.(last := last, phase := Stored);
    HeadTrip(st, 0, last, b);
    PadTrip(st1, pad, lens);
    StoredLenTrip(st1.(phase := StoredLen), n, tail);
    BytesTrip(st1.(phase := Copy(n)), data, more);
    hide StoredBits;
    var c := Conf(st, HeadBits(0, last) + b);
    ReachesTrans(c, Conf(st1, b), Conf(st1.(phase := StoredLen), lens));
    ReachesTrans(c, Conf(st1.(phase := StoredLen), lens), Conf(st1.(phase := Copy(n)), tail));
    ReachesTrans(c, Conf(st1.(phase := Copy(n)), tail),
      Conf(st.(last := last, out := st.out + data, ts := st.ts + Literals(data)), more));
  }

  // ------------------------------------------------------------------ fixed blocks

  lemma {:induction false} FixedTrip(st: State, last: bool, ts: seq<Token>, more: seq<bool>)
    requires st.phase.Type? && !st.last && TokensFit(FixedLit(), FixedDist(), ts, st.size) && Expand(st.out, ts).Some?
    ensures Reaches(Conf(st, HeadBits(1, last) + (BodyBits(FixedLit(), FixedDist(), ts) + more)),
                    Conf(st.(last := last, out := Expand(st.out, ts).value, ts := st.ts + ts), more))
  {
    hide Reaches, Accepted, Expand, HeadBits, BodyBits;
    var b := BodyBits(FixedLit(), FixedDist(), ts) + more;
    HeadTrip(st, 1, last, b);
    var st1 := st.(last := last, phase := Len(FixedLit(), FixedDist()));
    BodyTrip(st1, FixedLit(), FixedDist(), ts, more);
    ReachesTrans(Conf(st, HeadBits(1, last) + b), Conf(st1, b),
                 Conf(st.(last := last, out := Expand(st.out, ts).value, ts := st.ts + ts), more));
  }

  // ------------------------------------------------------------------ dynamic blocks

  /** The first k code length code lengths in the order they are sent. */
  function Sent(cl: seq<nat>, k: nat): (s: seq<nat>)
    requires |cl| == 19 && k <= 19
    ensures |s| == k && forall i: nat :: i < k ==> s[i] == cl[Order(i)]
  {
    seq(k, i requires 0 <= i < k => cl[Order(i)])
  }

  lemma {:induction false} OrderTrip(st: State, nlen: nat, ndist: nat, ncode: nat, cl: seq<nat>, k: nat,
      more: seq<bool>)
    requires |cl| == 19 && k <= ncode <= 19 && CodesOk(cl, 7) && 257 <= nlen <= 286 && 1 <= ndist <= 30 && 4 <= ncode
    requires st.phase == LenLens(nlen, ndist, ncode, [])
    ensures Reaches(Conf(st, OrderBits(cl, k) + more),
        Conf(st.(phase := LenLens(nlen, ndist, ncode, Sent(cl, k))), more))
  {
    hide Reaches, ToBits, Order, Pow2, CodesOk;
    if k == 0 {
      assert [] + more == more && Sent(cl, 0) == [];
      ReachesItself(Conf(st, more));
    } else {
      var x := ToBits(cl[Order(k - 1)], 3) + more;
      assert OrderBits(cl, k) + more == OrderBits(cl, k - 1) + x;
      OrderTrip(st, nlen, ndist, ncode, cl, k - 1, x);
      var st1 := st.(phase := LenLens(nlen, ndist, ncode, Sent(cl, k - 1)));
      var st2 := st.(phase := LenLens(nlen, ndist, ncode, Sent(cl, k)));
      OrderStep(st1, nlen, ndist, ncode, cl, k, more);
      ReachesTrans(Conf(st, OrderBits(cl, k) + more), Conf(st1, x), Conf(st2, more));
    }
  }

  /** The next of the code length code lengths. */
  lemma {:induction false} OrderStep(st: State, nlen: nat, ndist: nat, ncode: nat, cl: seq<nat>, k: nat,
      more: seq<bool>)
    requires |cl| == 19 && 1 <= k <= ncode <= 19 && CodesOk(cl, 7) && 257 <= nlen <= 286 && 1 <= ndist <= 30
        && 4 <= ncode
    requires st.phase == LenLens(nlen, ndist, ncode, Sent(cl, k - 1))
    ensures Reaches(Conf(st, ToBits(cl[Order(k - 1)], 3) + more),
        Conf(st.(phase := LenLens(nlen, ndist, ncode, Sent(cl, k))), more))
  {
    hide Reaches, ToBits, Order, Pow2, FromBits;
    var v := cl[Order(k - 1)];
    Pow2Values();
    FieldFront(v, 3, more);
    assert Sent(cl, k) == Sent(cl, k - 1) + [v];
    ReachesStep(Conf(st, ToBits(v, 3) + more), st.(phase := LenLens(nlen, ndist, ncode, Sent(cl, k))), 3);
  }

  /** The lengths not sent are zero. */
  ghost predicate SentAll(cl: seq<nat>, n: nat)
  {
    |cl| == 19 && n <= 19 && forall i: nat :: n <= i < 19 ==> cl[Order(i)] == 0
  }

  lemma {:induction false} SentIsAll(cl: seq<nat>, n: nat)
    requires SentAll(cl, n)
    ensures CodeLengths(Sent(cl, n)) == cl
  {
    hide Order, Rank;
    forall s: nat | s < 19 ensures CodeLengths(Sent(cl, n))[s] == cl[s] { OrderOfRank(s); }
  }

  /** The fourteen bits of counts. */
  lemma {:induction false} CountsTrip(st: State, nlen: nat, ndist: nat, ncode: nat, more: seq<bool>)
    requires st.phase.Table? && 257 <= nlen <= 286 && 1 <= ndist <= 30 && 4 <= ncode <= 19
    ensures Reaches(Conf(st, ToBits(nlen - 257, 5) + ToBits(ndist - 1, 5) + ToBits(ncode - 4, 4) + more),
                    Conf(st.(phase := LenLens(nlen, ndist, ncode, [])), more))
  {
    hide Reaches, ToBits, FromBits, Pow2;
    Pow2Values();
    var a, d, n := ToBits(nlen - 257, 5), ToBits(ndist - 1, 5), ToBits(ncode - 4, 4);
    var b := a + d + n + more;
    assert b == a + (d + n + more);
    FieldFront(nlen - 257, 5, d + n + more);
    assert b == a + (d + (n + more));
    FieldBehind(a, ndist - 1, 5, n + more);
    assert b == (a + d) + (n + more);
    FieldBehind(a + d, ncode - 4, 4, more);
    assert b[14..] == more;
    ReachesStep(Conf(st, b), st.(phase := LenLens(nlen, ndist, ncode, [])), 14);
  }

  /** Decoding adds at least one length per symbol. */
  lemma {:induction false} DecodeGrows(got: seq<nat>, total: nat, items: seq<Item>)
    requires Decode(got, total, items).Some?
    ensures |Decode(got, total, items).value| >= |got| + |items|
    decreases |items|
  {
    if items != [] { DecodeGrows(Apply(got, total, items[0]).value, total, items[1..]); }
  }

  ghost predicate ItemsFit(cl: seq<nat>, items: seq<Item>)
  {
    |cl| == 19 && forall i :: 0 <= i < |items| ==> ItemOk(items[i]) && cl[items[i].code] > 0
  }

  lemma {:induction false} ItemTrip(st: State, nlen: nat, ndist: nat, cl: seq<nat>, got: seq<nat>, it: Item,
      got': seq<nat>, more: seq<bool>)
    requires st.phase == CodeLens(nlen, ndist, cl, got) && PhaseOk(st.phase) && |got| < nlen + ndist
    requires ItemOk(it) && cl[it.code] > 0 && Apply(got, nlen + ndist, it) == Some(got')
    ensures Reaches(Conf(st, ItemBits(cl, it) + more), Conf(st.(phase := CodeLens(nlen, ndist, cl, got')), more))
    ensures PhaseOk(CodeLens(nlen, ndist, cl, got'))
  {
    hide Reaches, ToBits, Accepted, CodeBits, Lookup, Apply, FromBits, Pow2, CodeOf;
    AcceptedValid(CODES, cl);
    var x := ToBits(it.extra, ItemExtra(it.code)) + more;
    var b := ItemBits(cl, it) + more;
    assert b == CodeOf(cl, it.code) + x;
    LookupFront(cl, it.code, x);
    Pow2Values();
    FieldBehind(CodeOf(cl, it.code), it.extra, ItemExtra(it.code), more);
    assert Item(it.code, it.extra) == it;
    assert b[cl[it.code] + ItemExtra(it.code)..] == more;
    ReachesStep(Conf(st, b), st.(phase := CodeLens(nlen, ndist, cl, got')), cl[it.code] + ItemExtra(it.code));
  }

  lemma {:induction false} ItemsTrip(st: State, nlen: nat, ndist: nat, cl: seq<nat>, got: seq<nat>, items: seq<Item>,
      got': seq<nat>, more: seq<bool>)
    requires st.phase == CodeLens(nlen, ndist, cl, got) && PhaseOk(st.phase)
    requires ItemsFit(cl, items) && Decode(got, nlen + ndist, items) == Some(got') && |got'| <= nlen + ndist
    ensures Reaches(Conf(st, ItemsBits(cl, items) + more), Conf(st.(phase := CodeLens(nlen, ndist, cl, got')), more))
    ensures PhaseOk(CodeLens(nlen, ndist, cl, got'))
    decreases |items|
  {
    hide Reaches, Accepted, Apply, ItemBits;
    if items == [] {
      assert [] + more == more;
      ReachesItself(Conf(st, more));
    } else {
      DecodeGrows(got, nlen + ndist, items);
      var mid := Apply(got, nlen + ndist, items[0]).value;
      var x := ItemsBits(cl, items[1..]) + more;
      assert ItemsBits(cl, items) + more == ItemBits(cl, items[0]) + x;
      ItemTrip(st, nlen, ndist, cl, got, items[0], mid, x);
      var st1 := st.(phase := CodeLens(nlen, ndist, cl, mid));
      ItemsTrip(st1, nlen, ndist, cl, mid, items[1..], got', more);
      ReachesTrans(Conf(st, ItemsBits(cl, items) + more), Conf(st1, x),
        Conf(st.(phase := CodeLens(nlen, ndist, cl, got')), more));
    }
  }

  /** What a dynamic block needs of its codes. */
  ghost predicate TreesFit(ll: seq<nat>, dl: seq<nat>, cl: seq<nat>, n: nat)
  {
    && 257 <= |ll| <= 286 && 1 <= |dl| <= 30 && 4 <= n <= 19 && SentAll(cl, n)
    && LensFit(ll) && LensFit(dl) && CodesOk(cl, 7) && Accepted(CODES, cl) && TreesOk(ll, dl) && ll[END_BLOCK] > 0
    && ItemsFit(cl, Items(ll) + Items(dl))
  }

  /** The codes of a dynamic block. */
  lemma {:induction false} TreesTrip(st: State, ll: seq<nat>, dl: seq<nat>, cl: seq<nat>, n: nat, more: seq<bool>)
    requires st.phase.Table? && TreesFit(ll, dl, cl, n)
    ensures Reaches(Conf(st, TreesBits(ll, dl, cl, n) + more), Conf(st.(phase := Len(ll, dl)), more))
  {
    hide Reaches, ToBits, Accepted, Runs, ItemsBits, Decode, OrderBits, ItemsFit;
    var head := ToBits(|ll| - 257, 5) + ToBits(|dl| - 1, 5) + ToBits(n - 4, 4);
    var items := Items(ll) + Items(dl);
    var x2 := ItemsBits(cl, items) + more;
    var x1 := OrderBits(cl, n) + x2;
    assert TreesBits(ll, dl, cl, n) + more == head + x1;
    var c := Conf(st, head + x1);
    var st1 := st.(phase := LenLens(|ll|, |dl|, n, []));
    var st2 := st.(phase := LenLens(|ll|, |dl|, n, Sent(cl, n)));
    var st3 := st.(phase := CodeLens(|ll|, |dl|, cl, []));
    var st4 := st.(phase := CodeLens(|ll|, |dl|, cl, ll + dl));
    CountsTrip(st, |ll|, |dl|, n, x1);
    OrderTrip(st1, |ll|, |dl|, n, cl, n, x2);
    CodesAccepted(st2, |ll|, |dl|, n, cl, x2);
    RoundTripTwo(ll, dl);
    ItemsTrip(st3, |ll|, |dl|, cl, [], items, ll + dl, more);
    TreesAccepted(st4, ll, dl, cl, more);
    ReachesTrans(c, Conf(st1, x1), Conf(st2, x2));
    ReachesTrans(c, Conf(st2, x2), Conf(st3, x2));
    ReachesTrans(c, Conf(st3, x2), Conf(st4, more));
    ReachesTrans(c, Conf(st4, more), Conf(st.(phase := Len(ll, dl)), more));
  }

  lemma {:induction false} CodesAccepted(st: State, nlen: nat, ndist: nat, n: nat, cl: seq<nat>, more: seq<bool>)
    requires SentAll(cl, n) && CodesOk(cl, 7) && Accepted(CODES, cl) && 257 <= nlen <= 286 && 1 <= ndist <= 30 && 4 <= n
    requires st.phase == LenLens(nlen, ndist, n, Sent(cl, n))
    ensures Reaches(Conf(st, more), Conf(st.(phase := CodeLens(nlen, ndist, cl, [])), more))
  {
    hide Reaches, Refused, Order, CodeLengths;
    SentIsAll(cl, n);
    ReachesStep(Conf(st, more), st.(phase := CodeLens(nlen, ndist, cl, [])), 0);
    assert more[0..] == more;
  }

  lemma {:induction false} TreesAccepted(st: State, ll: seq<nat>, dl: seq<nat>, cl: seq<nat>, more: seq<bool>)
    requires 257 <= |ll| <= 286 && 1 <= |dl| <= 30 && TreesOk(ll, dl) && ll[END_BLOCK] > 0
    requires st.phase == CodeLens(|ll|, |dl|, cl, ll + dl) && PhaseOk(st.phase)
    ensures Reaches(Conf(st, more), Conf(st.(phase := Len(ll, dl)), more))
  {
    hide Reaches, Refused;
    assert (ll + dl)[..|ll|] == ll && (ll + dl)[|ll|..] == dl;
    ReachesStep(Conf(st, more), st.(phase := Len(ll, dl)), 0);
    assert more[0..] == more;
  }

  lemma {:induction false} DynamicTrip(st: State, last: bool, ll: seq<nat>, dl: seq<nat>, cl: seq<nat>, n: nat,
      ts: seq<Token>, more: seq<bool>)
    requires st.phase.Type? && !st.last && TreesFit(ll, dl, cl, n) && TokensFit(ll, dl, ts, st.size)
        && Expand(st.out, ts).Some?
    ensures Reaches(Conf(st, HeadBits(2, last) + (TreesBits(ll, dl, cl, n) + (BodyBits(ll, dl, ts) + more))),
                    Conf(st.(last := last, out := Expand(st.out, ts).value, ts := st.ts + ts), more))
  {
    hide Reaches, Accepted, Expand, HeadBits, BodyBits, TreesBits, ItemsFit, FixedLit, FixedDist;
    var x := BodyBits(ll, dl, ts) + more;
    var b := TreesBits(ll, dl, cl, n) + x;
    HeadTrip(st, 2, last, b);
    var st1 := st.(last := last, phase := Table);
    var st2 := st.(last := last, phase := Len(ll, dl));
    TreesTrip(st1, ll, dl, cl, n, x);
    BodyTrip(st2, ll, dl, ts, more);
    var c := Conf(st, HeadBits(2, last) + b);
    ReachesTrans(c, Conf(st1, b), Conf(st2, x));
    ReachesTrans(c, Conf(st2, x), Conf(st.(last := last, out := Expand(st.out, ts).value, ts := st.ts + ts), more));
  }
}
