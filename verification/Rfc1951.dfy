/** The DEFLATE format of RFC 1951: tokens and what they mean, how blocks are written, and a decoder that
    takes one small step at a time on a sequence of bits. */
module Rfc1951 {
  import opened Wrappers
  import opened Bits
  import opened Canonical
  import opened InflateTable
  import opened StaticTables
  import opened FixedTrees
  import opened RunLength
  import opened BitWriter

  // ------------------------------------------------------------------ tokens

  datatype Token = Literal(b: Byte) | Match(len: nat, dist: nat)

  predicate TokenOk(t: Token)
  {
    t.Match? ==> 3 <= t.len <= 258 && 1 <= t.dist <= 32768
  }

  ghost predicate TokensOk(ts: seq<Token>)
  {
    forall i :: 0 <= i < |ts| ==> TokenOk(ts[i])
  }

  /** Appends len bytes, each the one dist positions before it; the copy may overlap itself. */
  function CopyMatch(out: seq<Byte>, len: nat, dist: nat): (r: seq<Byte>)
    requires 1 <= dist <= |out|
    ensures |r| == |out| + len && r[..|out|] == out
    decreases len
  {
    if len == 0 then out else CopyMatch(out + [out[|out| - dist]], len - 1, dist)
  }

  function ExpandOne(out: seq<Byte>, t: Token): (r: Option<seq<Byte>>)
  {
    match t
    case Literal(b) => Some(out + [b])
    case Match(len, dist) => if 1 <= dist <= |out| then Some(CopyMatch(out, len, dist)) else None
  }

  /** What a list of tokens stands for, behind the output out. */
  function Expand(out: seq<Byte>, ts: seq<Token>): (r: Option<seq<Byte>>)
    decreases |ts|
  {
    if ts == [] then Some(out)
    else
      match ExpandOne(out, ts[0])
      case None => None
      case Some(more) => Expand(more, ts[1..])
  }

  /** How many bytes a token stands for. */
  function Size(t: Token): (n: nat)
  {
    match t
    case Literal(_) => 1
    case Match(len, _) => len
  }

  function Span(ts: seq<Token>): (n: nat)
  {
    if ts == [] then 0 else Size(ts[0]) + Span(ts[1..])
  }

  lemma {:induction false} SpanIs(out: seq<Byte>, ts: seq<Token>)
    requires Expand(out, ts).Some?
    ensures |Expand(out, ts).value| == |out| + Span(ts)
    decreases |ts|
  {
    if ts != [] { SpanIs(ExpandOne(out, ts[0]).value, ts[1..]); }
  }

  // ------------------------------------------------------------------ writing

  function CodeOf(lens: seq<nat>, s: nat): (r: seq<bool>)
  {
    if s < |lens| then CodeBits(lens, s) else []
  }

  function TokenBits(ll: seq<nat>, dl: seq<nat>, t: Token): (r: seq<bool>)
    requires TokenOk(t)
  {
    match t
    case Literal(b) => CodeOf(ll, b)
    case Match(len, dist) =>
      LengthCodeOk(len - 3);
      DistCodeOk(dist - 1);
      var lc, dc := LengthCode(len - 3), DistCode(dist - 1);
      (CodeOf(ll, 257 + lc) + ToBits(len - LBase(lc), LBits(lc))) +
        (CodeOf(dl, dc) + ToBits(dist - DBase(dc), DBits(dc)))
  }

  function TokensBits(ll: seq<nat>, dl: seq<nat>, ts: seq<Token>): (r: seq<bool>)
    requires TokensOk(ts)
  {
    if ts == [] then [] else TokenBits(ll, dl, ts[0]) + TokensBits(ll, dl, ts[1..])
  }

  /** The compressed data of a block. */
  function BodyBits(ll: seq<nat>, dl: seq<nat>, ts: seq<Token>): (r: seq<bool>)
    requires TokensOk(ts)
  {
    TokensBits(ll, dl, ts) + CodeOf(ll, END_BLOCK)
  }

  function HeadBits(kind: nat, last: bool): (b: seq<bool>)
    requires kind < 4
    ensures |b| == 3
  {
    ToBits(2 * kind + if last then 1 else 0, 3)
  }

  function ItemBits(cl: seq<nat>, it: Item): (r: seq<bool>)
  {
    CodeOf(cl, it.code) + ToBits(it.extra, ItemExtra(it.code))
  }

  function ItemsBits(cl: seq<nat>, items: seq<Item>): (r: seq<bool>)
  {
    if items == [] then [] else ItemBits(cl, items[0]) + ItemsBits(cl, items[1..])
  }

  /** The lengths of the code length codes, in their own order. */
  function OrderBits(cl: seq<nat>, n: nat): (b: seq<bool>)
    requires |cl| == 19 && n <= 19
    ensures |b| == 3 * n
  {
    if n == 0 then [] else OrderBits(cl, n - 1) + ToBits(cl[Order(n - 1)], 3)
  }

  function Order(i: nat): (s: nat)
    requires i < 19
    ensures s < 19
  {
    BL_ORDER[i]
  }

  const BL_RANK: seq<nat> := [3, 17, 15, 13, 11, 9, 7, 5, 4, 6, 8, 10, 12, 14, 16, 18, 0, 1, 2]

  function Rank(s: nat): (i: nat)
    requires s < 19
    ensures i < 19
  {
    BL_RANK[s]
  }

  lemma {:induction false} OrderOfRank(s: nat)
    requires s < 19
    ensures Order(Rank(s)) == s
  {
  }

  lemma {:induction false} RankOfOrder(i: nat)
    requires i < 19
    ensures Rank(Order(i)) == i
  {
  }

  /** The header of a dynamic block, section 3.2.7 of RFC 1951. */
  function TreesBits(ll: seq<nat>, dl: seq<nat>, cl: seq<nat>, n: nat): (r: seq<bool>)
    requires 257 <= |ll| && 1 <= |dl| && |cl| == 19 && 4 <= n <= 19
  {
    ToBits(|ll| - 257, 5) + ToBits(|dl| - 1, 5) + ToBits(n - 4, 4) + OrderBits(cl, n) +
      ItemsBits(cl, Items(ll) + Items(dl))
  }

  /** A stored block's content behind the padding. */
  function StoredBits(data: seq<Byte>): (r: seq<bool>)
    requires |data| <= 0xffff
  {
    ToBits(|data|, 16) + ToBits(0xffff - |data|, 16) + BytesBits(data)
  }

  // ------------------------------------------------------------------ reading a code

  datatype Found = Sym(s: nat, n: nat) | NoCode | More

  /** The symbol whose code b starts with; NoCode when no continuation of b starts with a code. */
  ghost function Lookup(lens: seq<nat>, b: seq<bool>): (f: Found)
    ensures f.Sym? ==> f.s < |lens| && f.n == lens[f.s] && 0 < f.n <= |b|
    ensures f.NoCode? ==> |b| > 0
  {
    if Owned(lens, Window(b)) then
      var s: nat :| Owns(lens, s, Window(b));
      if lens[s] <= |b| then Sym(s, lens[s]) else More
    else if |b| == 0 then More
    else NoCode
  }

  lemma {:induction false} LookupOwner(lens: seq<nat>, b: seq<bool>, s: nat)
    requires Owns(lens, s, Window(b))
    ensures Lookup(lens, b) == if lens[s] <= |b| then Sym(s, lens[s]) else More
  {
    hide Window, Lo, Hi;
    assert Owned(lens, Window(b));
    forall t: nat | Owns(lens, t, Window(b)) ensures t == s { OwnerUnique(lens, s, t, Window(b)); }
  }

  /** Looking up a stream that starts with a code finds its symbol. */
  lemma {:induction false} LookupCode(lens: seq<nat>, s: nat, b: seq<bool>)
    requires Valid(lens) && s < |lens| && lens[s] > 0 && StartsWith(b, CodeBits(lens, s))
    ensures Lookup(lens, b) == Sym(s, lens[s])
  {
    hide Owns, Window, Code, Pow2, Left, CodeBits;
    LeftStaysNegative(lens, lens[s], MAX_BITS);
    CodeBound(lens, s);
    StartsWithIsOwns(lens, s, b);
    LookupOwner(lens, b, s);
  }

  /** What is found is what the stream starts with. */
  lemma {:induction false} LookupStarts(lens: seq<nat>, b: seq<bool>)
    requires Valid(lens) && Lookup(lens, b).Sym?
    ensures StartsWith(b, CodeBits(lens, Lookup(lens, b).s))
  {
    hide Window, Code, Pow2, Left, CodeBits;
    var s := Lookup(lens, b).s;
    LeftStaysNegative(lens, lens[s], MAX_BITS);
    CodeBound(lens, s);
    assert Owned(lens, Window(b));
    StartsWithIsOwns(lens, s, b);
  }

  /** A set of lengths the decoder accepts. */
  ghost predicate Accepted(kind: Kind, lens: seq<nat>)
  {
    LensOk(lens) && |lens| <= MaxSymbols(kind) && !Refused(kind, lens)
  }

  lemma {:induction false} AcceptedValid(kind: Kind, lens: seq<nat>)
    requires Accepted(kind, lens)
    ensures Valid(lens)
  {
    hide Count;
    if !AnyCode(lens) {
      forall l: nat | 1 <= l ensures Count(lens, l) == 0 { NoneCountedOf(lens, l); }
      FreeBelow(lens, MAX_BITS);
    }
  }

  lemma {:induction false} NoneCountedOf(lens: seq<nat>, l: nat)
    requires l >= 1 && !AnyCode(lens)
    ensures Count(lens, l) == 0
  {
    NoneOfLength(lens, l, |lens|);
  }

  lemma {:induction false} NoneOfLength(lens: seq<nat>, l: nat, n: nat)
    requires l >= 1 && n <= |lens| && !AnyCode(lens)
    ensures CountTo(lens, l, n) == 0
  {
    if n > 0 { NoneOfLength(lens, l, n - 1); }
  }

  lemma {:induction false} WindowBound(b: seq<bool>)
    ensures Window(b) < Pow2(MAX_BITS)
  {
    hide Pow2;
    RevBound(FromBits(if |b| < MAX_BITS then b else b[..MAX_BITS]), MAX_BITS);
  }

  /** Where no code matches there is at most the one-bit code. */
  lemma {:induction false} UnownedShort(kind: Kind, lens: seq<nat>, b: seq<bool>, s: nat)
    requires Accepted(kind, lens) && !Owned(lens, Window(b)) && s < |lens| && lens[s] > 0
    ensures lens[s] == 1
  {
    hide Window, Pow2, Left;
    AcceptedValid(kind, lens);
    if Left(lens, MAX_BITS) == 0 {
      WindowBound(b);
      var t := CompleteOwner(lens, Window(b));
    }
  }

  /** More input does not change what was found. */
  lemma {:induction false} LookupMore(kind: Kind, lens: seq<nat>, b: seq<bool>, c: seq<bool>)
    requires Accepted(kind, lens) && Lookup(lens, b) != More
    ensures Lookup(lens, b + c) == Lookup(lens, b)
  {
    hide Window, CodeBits, Lookup, Accepted, Left;
    AcceptedValid(kind, lens);
    match Lookup(lens, b)
    case Sym(s, n) =>
      LookupStarts(lens, b);
      LookupSym(lens, b);
      StartsLonger(b, c, CodeBits(lens, s));
      LookupCode(lens, s, b + c);
    case NoCode =>
      LookupNone(lens, b);
      if Owned(lens, Window(b + c)) {
        var s: nat :| Owns(lens, s, Window(b + c));
        OwnedShort(kind, lens, b, c, s);
      }
      NotOwned(lens, b + c);
    case More =>
  }

  lemma {:induction false} LookupSym(lens: seq<nat>, b: seq<bool>)
    requires Lookup(lens, b).Sym?
    ensures Lookup(lens, b).s < |lens| && Lookup(lens, b).n == lens[Lookup(lens, b).s] > 0
  {
  }

  lemma {:induction false} LookupNone(lens: seq<nat>, b: seq<bool>)
    requires Lookup(lens, b) == NoCode
    ensures !Owned(lens, Window(b)) && |b| > 0
  {
  }

  lemma {:induction false} NotOwned(lens: seq<nat>, b: seq<bool>)
    ensures !Owned(lens, Window(b)) && |b| > 0 ==> Lookup(lens, b) == NoCode
  {
  }

  lemma {:induction false} StartsLonger(b: seq<bool>, c: seq<bool>, p: seq<bool>)
    ensures StartsWith(b, p) ==> StartsWith(b + c, p)
    ensures StartsWith(b + c, p) && |p| <= |b| ==> StartsWith(b, p)
  {
    if |p| <= |b| { assert (b + c)[..|p|] == b[..|p|]; }
  }

  lemma {:induction false} OwnedShort(kind: Kind, lens: seq<nat>, b: seq<bool>, c: seq<bool>, s: nat)
    requires Accepted(kind, lens) && |b| > 0 && Owns(lens, s, Window(b + c))
    ensures Owned(lens, Window(b))
  {
    hide Window, CodeBits, Left, Code, Pow2;
    if !Owned(lens, Window(b)) {
      UnownedShort(kind, lens, b, s);
      AcceptedValid(kind, lens);
      LeftStaysNegative(lens, lens[s], MAX_BITS);
      CodeBound(lens, s);
      StartsWithIsOwns(lens, s, b + c);
      StartsLonger(b, c, CodeBits(lens, s));
      StartsWithIsOwns(lens, s, b);
    }
  }
}
