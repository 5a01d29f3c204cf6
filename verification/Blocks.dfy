/** Whole blocks and streams of blocks, and that decoding a stream gives back what its blocks stand for. */
module Blocks {
  import opened Wrappers
  import opened Bits
  import opened Canonical
  import opened InflateTable
  import opened StaticTables
  import opened FixedTrees
  import opened RunLength
  import opened BitWriter
  import opened Rfc1951
  import opened Decoder
  import opened BlockTrip

  datatype Block =
    | StoredBlock(data: seq<Byte>)
    | FixedBlock(ts: seq<Token>)
    | DynamicBlock(ll: seq<nat>, dl: seq<nat>, cl: seq<nat>, n: nat, ts: seq<Token>)

  /** A block that can be written, and read with a window of the given size. */
  ghost predicate BlockOk(blk: Block, size: nat)
  {
    match blk
    case StoredBlock(data) => |data| <= 0xffff
    case FixedBlock(ts) => TokensFit(FixedLit(), FixedDist(), ts, size)
    case DynamicBlock(ll, dl, cl, n, ts) => TreesFit(ll, dl, cl, n) && TokensFit(ll, dl, ts, size)
  }

  /** The tokens a block stands for. */
  function Content(blk: Block): (r: seq<Token>)
  {
    match blk
    case StoredBlock(data) => Literals(data)
    case FixedBlock(ts) => ts
    case DynamicBlock(_, _, _, _, ts) => ts
  }

  /** A block's bits when pos bits have been written before it. */
  ghost function BlockBits(blk: Block, last: bool, pos: nat, size: nat): (r: seq<bool>)
    requires BlockOk(blk, size)
  {
    match blk
    case StoredBlock(data) => HeadBits(0, last) + (Padding(pos + 3) + StoredBits(data))
    case FixedBlock(ts) => HeadBits(1, last) + BodyBits(FixedLit(), FixedDist(), ts)
    case DynamicBlock(ll, dl, cl, n, ts) => HeadBits(2, last) + (TreesBits(ll, dl, cl, n) + BodyBits(ll, dl, ts))
  }

  lemma {:induction false} LiteralsExpand(out: seq<Byte>, data: seq<Byte>)
    ensures Expand(out, Literals(data)) == Some(out + data)
    decreases |data|
  {
    if data == [] {
      assert out + [] == out;
    } else {
      assert Literals(data)[1..] == Literals(data[1..]);
      LiteralsExpand(out + [data[0]], data[1..]);
      assert out + [data[0]] + data[1..] == out + data;
    }
  }

  lemma {:induction false} OneStored(st: State, data: seq<Byte>, last: bool, pos: nat, more: seq<bool>)
    requires st.phase.Type? && !st.last && |data| <= 0xffff
    requires (pos + |BlockBits(StoredBlock(data), last, pos, st.size)| + |more|) % 8 == 0
    ensures Expand(st.out, Literals(data)).Some?
    ensures Reaches(Conf(st, BlockBits(StoredBlock(data), last, pos, st.size) + more),
                    Conf(st.(last := last, out := Expand(st.out, Literals(data)).value,
                      ts := st.ts + Literals(data)), more))
  {
    hide Reaches, Expand, HeadBits, Padding, ToBits, Literals, BytesBits;
    LiteralsExpand(st.out, data);
    assert HeadBits(0, last) + (Padding(pos + 3) + StoredBits(data)) + more == HeadBits(0, last) +
      (Padding(pos + 3) + StoredBits(data) + more);
    StoredTrip(st, last, Padding(pos + 3), data, more);
  }

  lemma {:induction false} OneFixed(st: State, ts: seq<Token>, last: bool, pos: nat, more: seq<bool>)
    requires st.phase.Type? && !st.last && TokensFit(FixedLit(), FixedDist(), ts, st.size) && Expand(st.out, ts).Some?
    ensures Reaches(Conf(st, BlockBits(FixedBlock(ts), last, pos, st.size) + more),
                    Conf(st.(last := last, out := Expand(st.out, ts).value, ts := st.ts + ts), more))
  {
    hide Reaches, Expand, HeadBits, BodyBits, TokensFit, FixedLit, FixedDist;
    var body := BodyOf(FixedLit(), FixedDist(), ts, st.size);
    assert HeadBits(1, last) + body + more == HeadBits(1, last) + (body + more);
    FixedTrip(st, last, ts, more);
  }

  lemma {:induction false} OneDynamic(st: State, ll: seq<nat>, dl: seq<nat>, cl: seq<nat>, n: nat, ts: seq<Token>,
      last: bool, pos: nat, more: seq<bool>)
    requires st.phase.Type? && !st.last && TreesFit(ll, dl, cl, n) && TokensFit(ll, dl, ts, st.size)
        && Expand(st.out, ts).Some?
    ensures Reaches(Conf(st, BlockBits(DynamicBlock(ll, dl, cl, n, ts), last, pos, st.size) + more),
                    Conf(st.(last := last, out := Expand(st.out, ts).value, ts := st.ts + ts), more))
  {
    hide Reaches, Expand, HeadBits, BodyBits, TreesBits, TokensFit, TreesFit;
    var trees, body := TreesOf(ll, dl, cl, n), BodyOf(ll, dl, ts, st.size);
    assert HeadBits(2, last) + (trees + body) + more == HeadBits(2, last) + (trees + (body + more));
    DynamicTrip(st, last, ll, dl, cl, n, ts, more);
  }

  /** Decoding a block: the output grows by what its tokens stand for, and the decoder stops right behind it. */
  lemma {:induction false} OneBlock(st: State, blk: Block, last: bool, pos: nat, more: seq<bool>)
    requires st.phase.Type? && !st.last && BlockOk(blk, st.size) && Expand(st.out, Content(blk)).Some?
    requires (pos + |BlockBits(blk, last, pos, st.size)| + |more|) % 8 == 0
    ensures Reaches(Conf(st, BlockBits(blk, last, pos, st.size) + more),
                    Conf(st.(last := last, out := Expand(st.out, Content(blk)).value, ts := st.ts + Content(blk)),
                      more))
  {
    hide Reaches, Expand, BlockBits, TokensFit, TreesFit, Literals;
    match blk
    case StoredBlock(data) => OneStored(st, data, last, pos, more);
    case FixedBlock(ts) => OneFixed(st, ts, last, pos, more);
    case DynamicBlock(ll, dl, cl, n, ts) => OneDynamic(st, ll, dl, cl, n, ts, last, pos, more);
  }

  ghost function BodyOf(ll: seq<nat>, dl: seq<nat>, ts: seq<Token>, size: nat): (r: seq<bool>)
    requires TokensFit(ll, dl, ts, size)
  {
    BodyBits(ll, dl, ts)
  }

  ghost function TreesOf(ll: seq<nat>, dl: seq<nat>, cl: seq<nat>, n: nat): (r: seq<bool>)
    requires TreesFit(ll, dl, cl, n)
  {
    TreesBits(ll, dl, cl, n)
  }

  // ------------------------------------------------------------------ streams

  ghost predicate BlocksOk(bs: seq<Block>, size: nat)
  {
    forall i :: 0 <= i < |bs| ==> BlockOk(bs[i], size)
  }

  /** Blocks one behind the other from bit pos on; only the final one is marked as the last, and zero bits fill
      up the last byte. */
  ghost function StreamBits(bs: seq<Block>, pos: nat, size: nat): (r: seq<bool>)
    requires BlocksOk(bs, size)
    decreases |bs|
  {
    if bs == [] then Padding(pos)
    else
      var b := BlockBits(bs[0], |bs| == 1, pos, size);
      b + StreamBits(bs[1..], pos + |b|, size)
  }

  function Contents(bs: seq<Block>): (r: seq<Token>)
  {
    if bs == [] then [] else Content(bs[0]) + Contents(bs[1..])
  }

  lemma {:induction false} StreamAligned(bs: seq<Block>, pos: nat, size: nat)
    requires BlocksOk(bs, size)
    ensures (pos + |StreamBits(bs, pos, size)|) % 8 == 0
    decreases |bs|
  {
    hide BlockBits, Padding;
    if bs != [] { StreamAligned(bs[1..], pos + |BlockBits(bs[0], |bs| == 1, pos, size)|, size); }
  }

  lemma {:induction false} ExpandConcat(out: seq<Byte>, a: seq<Token>, b: seq<Token>)
    ensures Expand(out, a + b) == match Expand(out, a) case None => None case Some(mid) => Expand(mid, b)
    decreases |a|
  {
    hide ExpandOne;
    if a == [] {
      assert a + b == b;
    } else {
      assert (a + b)[0] == a[0] && (a + b)[1..] == a[1..] + b;
      if ExpandOne(out, a[0]).Some? { ExpandConcat(ExpandOne(out, a[0]).value, a[1..], b); }
    }
  }

  /** The round trip for a whole stream: from its first bit the decoder reaches the end with all that the blocks
      stand for as output, having used every bit. */
  lemma {:induction false} StreamTrip(st: State, bs: seq<Block>, pos: nat)
    requires st.phase.Type? && (st.last <==> bs == []) && BlocksOk(bs, st.size) && Expand(st.out, Contents(bs)).Some?
    ensures Reaches(Conf(st, StreamBits(bs, pos, st.size)),
                    Conf(State(Check, true, Expand(st.out, Contents(bs)).value, st.ts + Contents(bs), st.size), []))
    decreases |bs|
  {
    hide Reaches, Expand, BlockBits, Content, Padding;
    var c := Conf(st, StreamBits(bs, pos, st.size));
    if bs == [] {
      NothingExpands(st.out);
      assert st.ts + [] == st.ts;
      ReachesStep(c, st.(phase := Check), |c.rest|);
      assert c.rest[|c.rest|..] == [];
    } else {
      var b := BlockBits(bs[0], |bs| == 1, pos, st.size);
      var rest := StreamBits(bs[1..], pos + |b|, st.size);
      StreamAligned(bs[1..], pos + |b|, st.size);
      ExpandConcat(st.out, Content(bs[0]), Contents(bs[1..]));
      OneBlock(st, bs[0], |bs| == 1, pos, rest);
      var st1 := st.(last := |bs| == 1, out := Expand(st.out, Content(bs[0])).value, ts := st.ts + Content(bs[0]));
      StreamTrip(st1, bs[1..], pos + |b|);
      assert st.ts + Content(bs[0]) + Contents(bs[1..]) == st.ts + Contents(bs);
      ReachesTrans(c, Conf(st1, rest),
                   Conf(State(Check, true, Expand(st.out, Contents(bs)).value, st.ts + Contents(bs), st.size), []));
    }
  }

  lemma {:induction false} NothingExpands(out: seq<Byte>)
    ensures Expand(out, []) == Some(out)
  {
  }
}
