/** Why deflate_fast and deflate_slow are deterministic: how the input is cut into calls does not matter, as long as
    none of them flushes before the end. */
module Cutting {
  import opened BitWriter
  import opened HashKey
  import opened HashChains
  import opened History
  import opened MatchFinder
  import opened Rfc1951
  import opened Choices

  /** As much is read ahead as can matter. */
  predicate Enough(seen: seq<Byte>, all: seq<Byte>, n: nat)
  {
    seen <= all && n < |seen| && (n + 262 <= |seen| || seen == all)
  }

  lemma {:induction false} CommonCut(seen: seq<Byte>, all: seq<Byte>, m: nat, n: nat, i: nat)
    requires Enough(seen, all, n) && m < n && i <= 258
    ensures CommonFrom(seen, m, n, i) == CommonFrom(all, m, n, i)
    decreases 258 - i
  {
    if i < 258 { CommonCut(seen, all, m, n, i + 1); }
  }

  lemma {:induction false} EarlierCut(h: Hashing, seen: seq<Byte>, all: seq<Byte>, ins: set<nat>, k: nat, top: nat,
      floor: nat, n: int)
    requires seen <= all && top + 2 <= |seen|
    ensures Earlier(h, seen, ins, k, top, floor, n) == Earlier(h, all, ins, k, top, floor, n)
    ensures forall m :: m in Earlier(h, all, ins, k, top, floor, n) ==> m < top
    decreases top
  {
    hide Key;
    if n > 0 && top > floor + 1 {
      EarlierCut(h, seen, all, ins, k, top - 1, floor, n - 1);
      EarlierCut(h, seen, all, ins, k, top - 1, floor, n);
    }
  }

  /** The window has just slid so far that the string at its first byte would be in reach. */
  predicate OnEdge(r: Rules, k: Deed)
  {
    k.Look? && k.base > 0 && k.at == k.base + r.size - 262
  }

  /** The same deed with all input seen, and with the window where it cannot matter. */
  function Widened(r: Rules, k: Deed, all: seq<Byte>): (k': Deed)
  {
    match k
    case Look(_, _, base, _, _, _, _) => k.(seen := all, base := if OnEdge(r, k) then base else 0)
    case Stop(_) => Stop(all)
  }

  lemma {:induction false} VisitedCut(r: Rules, at: nat, seen: seq<Byte>, all: seq<Byte>, base: nat, base': nat,
      ins: set<nat>, prev: nat)
    requires Enough(seen, all, at) && base <= at
    requires base' == base || (base' == 0 && at > base + r.size - 262)
    ensures Visited(r, at, seen, base, ins, prev) == Visited(r, at, all, base', ins, prev)
    ensures forall m :: m in Visited(r, at, seen, base, ins, prev) ==> m < at
  {
    hide Earlier, Key;
    if at + 2 < |seen| {
      var k := KeyAt(r.h, seen, at);
      var f, g := Floor(base, at, r.size - 261), Floor(base, at, r.size - 262);
      EarlierCut(r.h, seen, all, ins, k, at, f, 1);
      var first := Earlier(r.h, seen, ins, k, at, f, 1);
      if first != [] {
        assert first[0] in first;
        EarlierCut(r.h, seen, all, ins, k, first[0], g, ChainLength(r.cfg, prev) - 1);
      }
    }
  }

  lemma {:induction false} FindsCut(seen: seq<Byte>, all: seq<Byte>, n: nat, ms: seq<nat>, prev: nat, cfg: Config,
      len: nat, start: nat)
    requires Enough(seen, all, n) && forall m :: m in ms ==> m < n
    requires Finds(seen, n, ms, prev, Nice(cfg, |seen| - n), len, start)
    ensures Finds(all, n, ms, prev, Nice(cfg, |all| - n), len, start) && len <= 258
  {
    hide CommonFrom;
    forall j: nat | j < |ms| ensures Common(seen, ms[j], n) == Common(all, ms[j], n) <= 258 {
      assert ms[j] in ms;
      CommonCut(seen, all, ms[j], n, 0);
      CommonGrows(all, ms[j], n, 0);
    }
    if len > 0 {
      var i: nat :| FindsAt(seen, n, ms, prev, Nice(cfg, |seen| - n), len, start, i);
      assert FindsAt(all, n, ms, prev, Nice(cfg, |all| - n), len, start, i);
    }
  }

  /** A round does the same with all input seen. */
  lemma {:induction false} LookCut(r: Rules, s: Stage, k: Deed, all: seq<Byte>)
    requires k.Look? && LookOk(r, {|all|}, s, k) && k.seen <= all && s.len <= 258
    ensures LookOk(r, {|all|}, s, Widened(r, k, all)) && k.len <= 258
    ensures Next(r, s, Widened(r, k, all)) == Next(r, s, k)
  {
    hide Visited, Finds, Range, Nice;
    VisitedCut(r, k.at, k.seen, all, k.base, Widened(r, k, all).base, k.ins, k.prev);
    FindsCut(k.seen, all, k.at, if r.lazy && k.prev >= r.cfg.maxLazy then []
      else Visited(r, k.at, k.seen, k.base, k.ins, k.prev), k.prev, r.cfg, k.len, k.at - k.dist);
  }

  function AllWidened(r: Rules, ks: seq<Deed>, all: seq<Byte>): (js: seq<Deed>)
    ensures |js| == |ks| && forall i :: 0 <= i < |ks| ==> js[i] == Widened(r, ks[i], all)
  {
    seq(|ks|, i requires 0 <= i < |ks| => Widened(r, ks[i], all))
  }

  /** So does a whole run. */
  lemma {:induction false} FollowsCut(r: Rules, ks: seq<Deed>, all: seq<Byte>)
    requires Follows(r, {|all|}, ks) && Reads(ks, all)
    ensures Follows(r, {|all|}, AllWidened(r, ks, all)) && Final(r, AllWidened(r, ks, all)) == Final(r, ks)
    ensures Final(r, ks).len <= 258
    decreases |ks|
  {
    hide LookOk, Widened, Next;
    if ks != [] {
      var n := |ks| - 1;
      var s, js := Final(r, ks[..n]), AllWidened(r, ks, all);
      FollowsCut(r, ks[..n], all);
      assert js[..n] == AllWidened(r, ks[..n], all);
      DeedCut(r, s, ks[n], all);
    }
  }

  lemma {:induction false} DeedCut(r: Rules, s: Stage, k: Deed, all: seq<Byte>)
    requires DeedOk(r, {|all|}, s, k) && k.seen <= all && s.len <= 258
    ensures DeedOk(r, {|all|}, s, Widened(r, k, all)) && Next(r, s, Widened(r, k, all)) == Next(r, s, k)
    ensures Next(r, s, k).len <= 258
  {
    hide LookOk, HeldByte;
    if k.Look? {
      LookCut(r, s, k, all);
    } else {
      assert k.seen == all;
    }
  }

  /** Behind the end nothing more comes. */
  lemma {:induction false} NothingMore(r: Rules, ks: seq<Deed>, n: nat, all: seq<Byte>)
    requires Follows(r, {|all|}, ks) && Reads(ks, all) && n <= |ks|
    requires Final(r, ks[..n]).at == |all| && !Final(r, ks[..n]).held
    ensures Final(r, ks).ts == Final(r, ks[..n]).ts && Final(r, ks).at == |all| && !Final(r, ks).held
    decreases |ks|
  {
    hide LookOk;
    if n < |ks| {
      var m := |ks| - 1;
      assert ks[..m][..n] == ks[..n];
      NothingMore(r, ks[..m], n, all);
      LookBefore(r, Final(r, ks[..m]), ks[m], all);
    } else {
      assert ks[..n] == ks;
    }
  }

  lemma {:induction false} LookBefore(r: Rules, s: Stage, k: Deed, all: seq<Byte>)
    requires DeedOk(r, {|all|}, s, k) && k.seen <= all
    ensures k.Look? ==> s.at < |all|
  {
    hide Finds, Visited, Arrived;
  }

  /** The tokens of an input that is flushed only at its end do not depend on the pieces it comes in, but for the
      moments at which the window slides: they can matter only at a position where it has just slid so far that a
      string in reach is at its first byte, which no search looks at. */
  lemma {:induction false} CutFree(r: Rules, ks: seq<Deed>, js: seq<Deed>, all: seq<Byte>)
    requires Follows(r, {|all|}, ks) && Reads(ks, all) && Follows(r, {|all|}, js) && Reads(js, all) && |ks| <= |js|
    requires Final(r, ks).at == |all| && !Final(r, ks).held
    requires forall i :: 0 <= i < |ks| ==> (OnEdge(r, ks[i]) <==> OnEdge(r, js[i]))
    ensures Final(r, js).ts == Final(r, ks).ts && Final(r, js).at == |all| && !Final(r, js).held
  {
    hide Final, LookOk, Next;
    var n := |ks|;
    FollowsFront(r, {|all|}, js, n);
    FollowsCut(r, ks, all);
    FollowsCut(r, js[..n], all);
    FollowsOne(r, {|all|}, AllWidened(r, ks, all), AllWidened(r, js[..n], all));
    NothingMore(r, js, n, all);
  }

  lemma {:induction false} FollowsFront(r: Rules, stops: set<nat>, ks: seq<Deed>, n: nat)
    requires Follows(r, stops, ks) && n <= |ks|
    ensures Follows(r, stops, ks[..n])
    decreases |ks|
  {
    hide Final, DeedOk;
    if n < |ks| {
      FollowsFront(r, stops, ks[..|ks| - 1], n);
      assert ks[..|ks| - 1][..n] == ks[..n];
    } else {
      assert ks[..n] == ks;
    }
  }

  /** A higher floor by one leaves out only the string there. */
  lemma {:induction false} EarlierAbove(h: Hashing, all: seq<Byte>, ins: set<nat>, k: nat, top: nat, floor: nat)
    ensures var ms := Earlier(h, all, ins, k, top, floor, 1);
            Earlier(h, all, ins, k, top, floor + 1, 1) == if ms != [] && ms[0] == floor + 1 then [] else ms
    decreases top
  {
    hide Keyed;
    if top > floor + 1 {
      EarlierAbove(h, all, ins, k, top - 1, floor);
      assert Earlier(h, all, ins, k, top - 1, floor, 0) == [] && Earlier(h, all, ins, k, top - 1, floor + 1, 0) == [];
    }
  }

  /** There a search looks at nothing exactly if the latest string with the key is at the first byte of the window, and
      else at the same strings. */
  lemma {:induction false} EdgeIs(r: Rules, at: nat, seen: seq<Byte>, base: nat, ins: set<nat>, prev: nat)
    requires base > 0 && at == base + r.size - 262 && r.size >= 262
    ensures var ms := Visited(r, at, seen, 0, ins, prev);
            Visited(r, at, seen, base, ins, prev) == if ms != [] && ms[0] == base then [] else ms
  {
    hide Earlier, Key;
    if at + 2 < |seen| { EarlierAbove(r.h, seen, ins, KeyAt(r.h, seen, at), at, base - 1); }
  }
}
