/** What the tokens and blocks written so far stand for: a prefix of the input. */
module Covering {
  import opened Wrappers
  import opened Bits
  import opened BitWriter
  import opened Rfc1951
  import opened Decoder
  import opened BlockTrip
  import opened Blocks

  /** The len bytes from n on are those dist bytes before. */
  ghost predicate Repeats(all: seq<Byte>, n: nat, dist: nat, len: nat)
  {
    1 <= dist <= n && n + len <= |all| && forall i :: n <= i < n + len ==> all[i] == all[i - dist]
  }

  /** A match copies just that. */
  lemma {:induction false} CopyRepeats(all: seq<Byte>, n: nat, dist: nat, len: nat)
    requires Repeats(all, n, dist, len)
    ensures CopyMatch(all[..n], len, dist) == all[..n + len]
    decreases len
  {
    if len > 0 {
      assert all[n] == all[n - dist];
      assert all[..n] + [all[n]] == all[..n + 1];
      CopyRepeats(all, n + 1, dist, len - 1);
    }
  }

  /** The blocks stand for the input up to from, the tokens behind them for that up to upto. */
  ghost predicate Covered(all: seq<Byte>, from: int, upto: int, bs: seq<Block>, ts: seq<Token>)
  {
    && 0 <= from <= upto <= |all|
    && Expand([], Contents(bs)) == Some(all[..from]) && Expand(all[..from], ts) == Some(all[..upto])
  }

  lemma {:induction false} CoverSpan(all: seq<Byte>, from: int, upto: int, bs: seq<Block>, ts: seq<Token>)
    requires Covered(all, from, upto, bs, ts)
    ensures Span(ts) == upto - from
  {
    hide Expand, Contents, Span;
    SpanIs(all[..from], ts);
  }

  lemma {:induction false} CoverNone(all: seq<Byte>)
    ensures Covered(all, 0, 0, [], [])
  {
    assert all[..0] == [];
  }

  lemma {:induction false} CoverMore(all: seq<Byte>, all': seq<Byte>, from: int, upto: int, bs: seq<Block>,
      ts: seq<Token>)
    requires Covered(all, from, upto, bs, ts) && all <= all'
    ensures Covered(all', from, upto, bs, ts)
  {
    assert all[..from] == all'[..from] && all[..upto] == all'[..upto];
  }

  lemma {:induction false} CoverLiteral(all: seq<Byte>, from: int, upto: int, bs: seq<Block>, ts: seq<Token>)
    requires Covered(all, from, upto, bs, ts) && upto < |all|
    ensures Covered(all, from, upto + 1, bs, ts + [Literal(all[upto])])
  {
    hide Expand, Contents;
    ExpandAppend(all[..from], ts, Literal(all[upto]));
    assert all[..upto] + [all[upto]] == all[..upto + 1];
  }

  lemma {:induction false} CoverMatch(all: seq<Byte>, from: int, upto: int, bs: seq<Block>, ts: seq<Token>, len: nat,
      dist: nat)
    requires Covered(all, from, upto, bs, ts) && Repeats(all, upto, dist, len)
    ensures Covered(all, from, upto + len, bs, ts + [Match(len, dist)])
  {
    hide Expand, Contents, CopyMatch;
    ExpandAppend(all[..from], ts, Match(len, dist));
    CopyRepeats(all, upto, dist, len);
  }

  /** A block that stands for the tokens, or for the bytes themselves. */
  lemma {:induction false} CoverBlock(all: seq<Byte>, from: int, upto: int, bs: seq<Block>, ts: seq<Token>, blk: Block)
    requires Covered(all, from, upto, bs, ts)
    requires if blk.StoredBlock? then blk.data == all[from..upto] else Content(blk) == ts
    ensures Covered(all, upto, upto, bs + [blk], [])
  {
    hide Expand, Contents;
    ContentsMore(bs, blk);
    ExpandConcat([], Contents(bs), Content(blk));
    if blk.StoredBlock? {
      LiteralsExpand(all[..from], blk.data);
      assert all[..from] + all[from..upto] == all[..upto];
    }
    NothingExpands(all[..upto]);
  }

  lemma {:induction false} ContentsMore(bs: seq<Block>, blk: Block)
    ensures Contents(bs + [blk]) == Contents(bs) + Content(blk)
    decreases |bs|
  {
    hide Content;
    if bs == [] {
      assert [blk][1..] == [] && Content(blk) + [] == [] + Content(blk);
    } else {
      assert (bs + [blk])[1..] == bs[1..] + [blk];
      ContentsMore(bs[1..], blk);
      assert Content(bs[0]) + (Contents(bs[1..]) + Content(blk)) == Content(bs[0]) + Contents(bs[1..]) + Content(blk);
    }
  }

  /** All tokens, block by block. */
  function Joined(parts: seq<seq<Token>>): (ts: seq<Token>)
  {
    if parts == [] then [] else Joined(parts[..|parts| - 1]) + parts[|parts| - 1]
  }

  /** Each block holds its part of the tokens, if it does not store the bytes that they stand for. */
  ghost predicate Sliced(bs: seq<Block>, parts: seq<seq<Token>>)
  {
    |bs| == |parts| && forall i :: 0 <= i < |bs| ==> bs[i].StoredBlock? || Content(bs[i]) == parts[i]
  }

  /** The blocks hold the tokens said so far, except for those in ts that still wait. */
  ghost predicate Holds(bs: seq<Block>, parts: seq<seq<Token>>, ts: seq<Token>, said: seq<Token>)
  {
    Sliced(bs, parts) && Joined(parts) + ts == said
  }

  lemma {:induction false} HoldsMore(bs: seq<Block>, parts: seq<seq<Token>>, ts: seq<Token>, said: seq<Token>, t: Token)
    requires Holds(bs, parts, ts, said)
    ensures Holds(bs, parts, ts + [t], said + [t])
  {
    assert Joined(parts) + (ts + [t]) == Joined(parts) + ts + [t];
  }

  lemma {:induction false} HoldsBlock(bs: seq<Block>, parts: seq<seq<Token>>, ts: seq<Token>, said: seq<Token>,
      blk: Block)
    requires Holds(bs, parts, ts, said) && (blk.StoredBlock? || Content(blk) == ts)
    ensures Holds(bs + [blk], parts + [ts], [], said)
  {
    hide Content;
    assert (parts + [ts])[..|parts|] == parts;
    assert Joined(parts + [ts]) + [] == Joined(parts) + ts;
  }

  /** The bits of blocks of which none is the last. */
  ghost function SentBits(bs: seq<Block>, pos: nat, size: nat): (r: seq<bool>)
    requires BlocksOk(bs, size)
    decreases |bs|
  {
    if bs == [] then []
    else
      var b := BlockBits(bs[0], false, pos, size);
      b + SentBits(bs[1..], pos + |b|, size)
  }

  lemma {:induction false} SentMore(bs: seq<Block>, blk: Block, pos: nat, size: nat)
    requires BlocksOk(bs, size) && BlockOk(blk, size)
    ensures BlocksOk(bs + [blk], size)
    ensures SentBits(bs + [blk], pos, size) == SentBits(bs, pos, size) +
        BlockBits(blk, false, pos + |SentBits(bs, pos, size)|, size)
    decreases |bs|
  {
    hide BlockBits, BlockOk;
    var cs := bs + [blk];
    if bs == [] {
      assert cs[1..] == [];
      assert BlockBits(blk, false, pos, size) + [] == [] + BlockBits(blk, false, pos, size);
    } else {
      assert cs[1..] == bs[1..] + [blk];
      var b := BlockBits(bs[0], false, pos, size);
      SentMore(bs[1..], blk, pos + |b|, size);
      var rest := SentBits(bs[1..], pos + |b|, size);
      var x := BlockBits(blk, false, pos + |b + rest|, size);
      assert b + (rest + x) == b + rest + x;
    }
  }

  /** With the last block behind them and the last byte filled up they are a stream. */
  lemma {:induction false} SentLast(bs: seq<Block>, blk: Block, pos: nat, size: nat)
    requires BlocksOk(bs, size) && BlockOk(blk, size)
    ensures BlocksOk(bs + [blk], size)
    ensures var b := SentBits(bs, pos, size) + BlockBits(blk, true, pos + |SentBits(bs, pos, size)|, size);
            StreamBits(bs + [blk], pos, size) == b + Padding(pos + |b|)
    decreases |bs|
  {
    hide BlockBits, BlockOk, Padding;
    var cs := bs + [blk];
    if bs == [] {
      assert cs[1..] == [];
    } else {
      assert cs[1..] == bs[1..] + [blk];
      var b := BlockBits(bs[0], false, pos, size);
      SentLast(bs[1..], blk, pos + |b|, size);
      var rest := SentBits(bs[1..], pos + |b|, size);
      var x := BlockBits(blk, true, pos + |b + rest|, size);
      assert b + (rest + x) == b + rest + x;
      assert b + (rest + x + Padding(pos + |b + rest + x|)) == b + rest + x + Padding(pos + |b + rest + x|);
    }
  }
}
