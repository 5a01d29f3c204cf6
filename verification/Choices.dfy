/** What the compressing loops choose, told by the input alone: the strings a search looks at, what it finds, and the
    tokens that follow with and without lazy evaluation. */
module Choices {
  import opened Bits
  import opened BitWriter
  import opened HashKey
  import opened HashChains
  import opened History
  import opened MatchFinder
  import opened Rfc1951

  /** What is fixed while a stream is compressed; lazy tells deflate_slow from deflate_fast. */
  datatype Rules = Rules(h: Hashing, size: nat, cfg: Config, filtered: bool, lazy: bool)

  /** What a loop does.  Look: a round at position at, when the bytes in seen had been read, the window began at base
      and the strings at ins were inserted; the search for a match longer than prev found len bytes at distance dist,
      or nothing if len is zero.  Stop: the end of a call that is to flush, behind all of seen. */
  datatype Deed =
    | Look(at: nat, seen: seq<Byte>, base: nat, ins: set<nat>, prev: nat, len: nat, dist: nat)
    | Stop(seen: seq<Byte>)

  /** Where a loop stands: at the position at, with the strings at ins inserted and those of the last positions still
      waiting for bytes; ts are the tokens so far, and with lazy evaluation one byte may be held back together with
      the match of len bytes at distance dist found for it, where a len of two stands for none. */
  datatype Stage = Stage(at: nat, ins: set<nat>, waiting: nat, ts: seq<Token>, held: bool, len: nat, dist: nat)

  // ---------------------------------------------------------------- the strings looked at

  /** The n latest inserted positions with key k behind floor and before top, the latest first. */
  ghost function Earlier(h: Hashing, all: seq<Byte>, ins: set<nat>, k: nat, top: nat, floor: nat, n: int): (r: seq<nat>)
    decreases top
  {
    if n <= 0 || top <= floor + 1 then []
    else if Keyed(h, all, ins, top - 1, k) then [top - 1] + Earlier(h, all, ins, k, top - 1, floor, n - 1)
    else Earlier(h, all, ins, k, top - 1, floor, n)
  }

  lemma {:induction false} EarlierNone(h: Hashing, all: seq<Byte>, ins: set<nat>, k: nat, top: nat, floor: nat, n: int,
      m: nat)
    requires NoneBetween(h, all, ins, k, m, top) && m <= floor
    ensures Earlier(h, all, ins, k, top, floor, n) == []
    decreases top
  {
    hide Keyed;
    if n > 0 && top > floor + 1 {
      assert !Keyed(h, all, ins, top - 1, k);
      EarlierNone(h, all, ins, k, top - 1, floor, n, m);
    }
  }

  /** The latest comes first. */
  lemma {:induction false} EarlierFirst(h: Hashing, all: seq<Byte>, ins: set<nat>, k: nat, top: nat, floor: nat, n: int,
      m: nat)
    requires NoneBetween(h, all, ins, k, m, top) && floor < m < top && Keyed(h, all, ins, m, k) && n > 0
    ensures Earlier(h, all, ins, k, top, floor, n) == [m] + Earlier(h, all, ins, k, m, floor, n - 1)
    decreases top
  {
    hide Keyed;
    if m < top - 1 {
      assert !Keyed(h, all, ins, top - 1, k);
      EarlierFirst(h, all, ins, k, top - 1, floor, n, m);
    }
  }

  /** They are the latest: in falling order, and complete down to the last of them, or down to floor if they are fewer
      than n. */
  lemma {:induction false} EarlierIs(h: Hashing, all: seq<Byte>, ins: set<nat>, k: nat, top: nat, floor: nat, n: nat)
    ensures var r := Earlier(h, all, ins, k, top, floor, n);
            && |r| <= n && (forall i: nat :: i < |r| ==> floor < r[i] < top && Keyed(h, all, ins, r[i], k))
            && (forall i: nat, j: nat :: i < j < |r| ==> r[j] < r[i])
            && (forall q: nat :: floor < q < top && Keyed(h, all, ins, q, k) ==>
                  q in r || (|r| == n && forall i: nat :: i < n ==> q < r[i]))
    decreases top
  {
    hide Keyed;
    if n > 0 && top > floor + 1 {
      if Keyed(h, all, ins, top - 1, k) {
        EarlierIs(h, all, ins, k, top - 1, floor, n - 1);
      } else {
        EarlierIs(h, all, ins, k, top - 1, floor, n);
      }
    }
  }

  /** The later of base and the position reach bytes before at. */
  function Floor(base: nat, at: nat, reach: int): (r: nat)
  {
    if at - reach > base then at - reach else base
  }

  /** The strings a search at position at looks at: those with the same key, the latest first, none at the first byte of
      the window; the first of them may be size - 262 bytes back, the others only less. */
  ghost function Visited(r: Rules, at: nat, seen: seq<Byte>, base: nat, ins: set<nat>, prev: nat): (ms: seq<nat>)
  {
    if at + 2 >= |seen| then []
    else
      var k := KeyAt(r.h, seen, at);
      var first := Earlier(r.h, seen, ins, k, at, Floor(base, at, r.size - 261), 1);
      if first == [] then []
      else first + Earlier(r.h, seen, ins, k, first[0], Floor(base, at, r.size - 262), ChainLength(r.cfg, prev) - 1)
  }

  // ---------------------------------------------------------------- one round

  /** Short matches that lazy evaluation does not take. */
  predicate Dropped(r: Rules, len: nat, dist: nat)
  {
    r.lazy && len <= 5 && (r.filtered || (len == 3 && dist > 4096))
  }

  /** The strings inserted when a round looks for a match: those from before, those that waited for bytes that have
      come, and the current one. */
  function Arrived(s: Stage, seen: seq<Byte>): (r: set<nat>)
    requires s.at <= |seen|
  {
    s.ins + Range(s.at - s.waiting, s.at - Waiting(s.waiting, |seen| - s.at))
      + if s.at + 2 < |seen| then {s.at} else {}
  }

  /** A round looks 262 bytes ahead or to the end of what a flushing call was given, and finds what there is to find. */
  ghost predicate LookOk(r: Rules, stops: set<nat>, s: Stage, k: Deed)
    requires k.Look?
  {
    && k.at == s.at < |k.seen| && (k.at + 262 <= |k.seen| || |k.seen| in stops)
    && k.base <= k.at && (k.base > 0 ==> k.at >= k.base + r.size - 262)
    && k.ins == Arrived(s, k.seen) && k.prev == s.len && k.dist <= k.at
    && Finds(k.seen, k.at, if r.lazy && k.prev >= r.cfg.maxLazy then []
          else Visited(r, k.at, k.seen, k.base, k.ins, k.prev),
        k.prev, Nice(r.cfg, |k.seen| - k.at), k.len, k.at - k.dist)
  }

  ghost predicate DeedOk(r: Rules, stops: set<nat>, s: Stage, k: Deed)
  {
    match k
    case Look(_, _, _, _, _, _, _) => LookOk(r, stops, s, k)
    case Stop(seen) => s.at == |seen| && |seen| in stops
  }

  /** The byte held back as a literal. */
  function HeldByte(s: Stage, seen: seq<Byte>): (ts: seq<Token>)
  {
    if s.held && 0 < s.at <= |seen| then [Literal(seen[s.at - 1])] else []
  }

  /** deflate_fast: a match is taken at once; its strings are inserted if it is not longer than max_lazy. */
  function TakeNow(r: Rules, s: Stage, k: Deed): (s': Stage)
    requires k.Look? && k.at < |k.seen|
  {
    var waiting := Waiting(s.waiting, |k.seen| - k.at);
    if k.len >= 3 then
      Stage(k.at + k.len,
        k.ins + if k.len <= r.cfg.maxLazy && k.at + k.len + 3 <= |k.seen| then Range(k.at + 1, k.at + k.len) else {},
        waiting, s.ts + [Match(k.len, k.dist)], false, 2, 0)
    else
      Stage(k.at + 1, k.ins, waiting, s.ts + [Literal(k.seen[k.at])], false, 2, 0)
  }

  /** The length that lazy evaluation goes on with, two if there is nothing. */
  function Taken(r: Rules, k: Deed): (len: nat)
    requires k.Look?
  {
    if k.len > 0 && !Dropped(r, k.len, k.dist) then k.len else 2
  }

  /** deflate_slow: a match waits for the next position and is taken if nothing longer is found there. */
  function TakeLater(r: Rules, s: Stage, k: Deed): (s': Stage)
    requires k.Look? && k.at < |k.seen|
  {
    var waiting := Waiting(s.waiting, |k.seen| - k.at);
    var len := Taken(r, k);
    if s.len >= 3 && len <= s.len then
      var end := k.at + s.len - 1;
      Stage(end, k.ins + Range(k.at + 1, if end <= |k.seen| - 2 then end else |k.seen| - 2), waiting,
        s.ts + [Match(s.len, s.dist)], false, 2, 0)
    else
      Stage(k.at + 1, k.ins, waiting, s.ts + HeldByte(s, k.seen), true, len, if len >= 3 then k.dist else 0)
  }

  function Next(r: Rules, s: Stage, k: Deed): (s': Stage)
  {
    match k
    case Look(at, seen, _, _, _, _, _) =>
      if at >= |seen| then s else if r.lazy then TakeLater(r, s, k) else TakeNow(r, s, k)
    case Stop(seen) => Stage(s.at, s.ins, if s.at < 2 then s.at else 2, s.ts + HeldByte(s, seen), false, 2, 0)
  }

  // ---------------------------------------------------------------- whole runs

  /** Where the deeds lead to. */
  function Final(r: Rules, ks: seq<Deed>): (s: Stage)
  {
    if ks == [] then Stage(0, {}, 0, [], false, 2, 0) else Next(r, Final(r, ks[..|ks| - 1]), ks[|ks| - 1])
  }

  /** Every deed is right where it is done; stops are the ends of what flushing calls were given. */
  ghost predicate Follows(r: Rules, stops: set<nat>, ks: seq<Deed>)
  {
    ks != [] ==>
      Follows(r, stops, ks[..|ks| - 1]) && DeedOk(r, stops, Final(r, ks[..|ks| - 1]), ks[|ks| - 1])
  }

  /** What was seen is a beginning of the input. */
  ghost predicate Reads(ks: seq<Deed>, all: seq<Byte>)
  {
    forall i :: 0 <= i < |ks| ==> ks[i].seen <= all
  }

  lemma {:induction false} FollowsNext(r: Rules, stops: set<nat>, ks: seq<Deed>, k: Deed, all: seq<Byte>)
    requires Follows(r, stops, ks) && DeedOk(r, stops, Final(r, ks), k) && Reads(ks, all) && k.seen <= all
    ensures Follows(r, stops, ks + [k]) && Final(r, ks + [k]) == Next(r, Final(r, ks), k) && Reads(ks + [k], all)
  {
    hide DeedOk, Next;
    assert (ks + [k])[..|ks|] == ks;
  }

  lemma {:induction false} FollowsStops(r: Rules, stops: set<nat>, stops': set<nat>, ks: seq<Deed>)
    requires Follows(r, stops, ks) && stops <= stops'
    ensures Follows(r, stops', ks)
    decreases |ks|
  {
    hide Final, Arrived, Finds, Visited;
    if ks != [] { FollowsStops(r, stops, stops', ks[..|ks| - 1]); }
  }

  lemma {:induction false} ReadsMore(ks: seq<Deed>, all: seq<Byte>, all': seq<Byte>)
    requires Reads(ks, all) && all <= all'
    ensures Reads(ks, all')
  {
  }

  /** What a greedy round tallies: a literal exactly if no string looked at has three bytes in common with the current
      one, else the match of a string looked at, as long as it agrees. */
  lemma {:induction false} GreedyToken(r: Rules, stops: set<nat>, s: Stage, k: Deed)
    requires k.Look? && LookOk(r, stops, s, k) && !r.lazy && s.len == 2
    ensures var t := Next(r, s, k).ts;
            var ms := Visited(r, k.at, k.seen, k.base, k.ins, 2);
            && |t| == |s.ts| + 1 && t[..|s.ts|] == s.ts
            && (t[|s.ts|] == Literal(k.seen[k.at]) <==> NoneLonger(k.seen, k.at, ms, 2))
            && (t[|s.ts|].Match? ==>
                  && t[|s.ts|].dist <= k.at && k.at - t[|s.ts|].dist in ms
                  && t[|s.ts|].len == Common(k.seen, k.at - t[|s.ts|].dist, k.at))
  {
    hide Common, Visited, Arrived;
    if k.len > 0 {
      var i: nat :| FindsAt(k.seen, k.at, Visited(r, k.at, k.seen, k.base, k.ins, 2), 2, Nice(r.cfg, |k.seen| - k.at),
        k.len, k.at - k.dist, i);
    }
  }

  /** The tokens are determined by the input and by how far it had been read and where the window began at each round.
      */
  lemma {:induction false} FollowsOne(r: Rules, stops: set<nat>, ks: seq<Deed>, js: seq<Deed>)
    requires Follows(r, stops, ks) && Follows(r, stops, js) && |ks| == |js|
    requires forall i :: 0 <= i < |ks| ==>
        && ks[i].seen == js[i].seen
        && (ks[i].Look? && js[i].Look? && ks[i].at == js[i].at ==> ks[i].base == js[i].base)
    ensures ks == js
    decreases |ks|
  {
    hide Final, Finds, Visited, Arrived, Nice;
    if ks != [] {
      var n := |ks| - 1;
      FollowsOne(r, stops, ks[..n], js[..n]);
      if ks[n].Look? {
        var k, j := ks[n], js[n];
        FindsOne(k.seen, k.at,
          if r.lazy && k.prev >= r.cfg.maxLazy then [] else Visited(r, k.at, k.seen, k.base, k.ins, k.prev), k.prev,
          Nice(r.cfg, |k.seen| - k.at), k.len, k.at - k.dist, j.len, j.at - j.dist);
      }
      assert ks == ks[..n] + [ks[n]] && js == js[..n] + [js[n]];
    }
  }

  // ---------------------------------------------------------------- what a search in the window finds

  /** The window positions ms stand for the positions qs of the input. */
  ghost predicate Moved(base: nat, ms: seq<nat>, qs: seq<nat>)
  {
    |ms| == |qs| && forall i: nat :: i < |ms| ==> qs[i] == base + ms[i]
  }

  /** The key of the string at strstart. */
  ghost function KeyHere(s: Past): (k: nat)
    requires s.base + s.strstart + 2 < |s.all|
    reads s`base, s`strstart, s`all
  {
    KeyAt(s.h, s.all, s.base + s.strstart)
  }

  /** A chain is complete: it visits the latest positions with the key of the current string. */
  lemma {:induction false} ChainIs(s: Past, cur: nat, n: nat)
    requires Searching(s) && s.Candidate(cur) && cur >= Limit(s) && s.prev.Length > 0 && n > 0
    ensures Moved(s.base, ChainFrom(s.prev[..], cur, Limit(s), n),
        [s.base + cur] + Earlier(s.h, s.all, s.ins, KeyHere(s), s.base + cur, s.base + Limit(s), n - 1))
    decreases n
  {
    hide Past.Core, ChainsOk, KeyAt, NoneBetween, Keyed, Earlier, Searching, ChainFrom, Moved, Past.Candidate, Limit;
    NextCandidate(s, cur);
    var m, k, floor := s.prev[..][Slot(cur, s.prev.Length)], KeyHere(s), s.base + Limit(s);
    var ms := if m > Limit(s) then ChainFrom(s.prev[..], m, Limit(s), n - 1) else [];
    ChainHead(s.prev[..], cur, Limit(s), n);
    if m <= Limit(s) {
      EarlierNone(s.h, s.all, s.ins, k, s.base + cur, floor, n - 1, s.base + m);
      MovedNone(s.base);
    } else if n > 1 {
      CandidateKeyed(s, m);
      ChainIs(s, m, n - 1);
      EarlierFirst(s.h, s.all, s.ins, k, s.base + cur, floor, n - 1, s.base + m);
    } else {
      ChainZero(s.prev[..], m, Limit(s), s.h, s.all, s.ins, k, s.base + cur, floor);
      MovedNone(s.base);
    }
    MovedMore(s.base, cur, ms, Earlier(s.h, s.all, s.ins, k, s.base + cur, floor, n - 1));
  }

  lemma {:induction false} MovedNone(base: nat)
    ensures Moved(base, [], [])
  {
  }

  lemma {:induction false} MovedMore(base: nat, m: nat, ms: seq<nat>, qs: seq<nat>)
    requires Moved(base, ms, qs)
    ensures Moved(base, [m] + ms, [base + m] + qs)
  {
  }

  lemma {:induction false} ChainHead(prev: seq<nat>, cur: nat, limit: nat, n: nat)
    requires |prev| > 0 && n > 0
    ensures var m := prev[Slot(cur, |prev|)];
            ChainFrom(prev, cur, limit, n) == [cur] + if m > limit then ChainFrom(prev, m, limit, n - 1) else []
  {
    hide Slot;
  }

  lemma {:induction false} ChainZero(prev: seq<nat>, m: nat, limit: nat, h: Hashing, all: seq<Byte>, ins: set<nat>,
      k: nat, top: nat, floor: nat)
    requires |prev| > 0
    ensures ChainFrom(prev, m, limit, 0) == [] && Earlier(h, all, ins, k, top, floor, 0) == []
  {
  }

  lemma {:induction false} CandidateKeyed(s: Past, m: nat)
    requires s.Candidate(m)
    ensures Keyed(s.h, s.all, s.ins, s.base + m, KeyHere(s)) && m < s.strstart
  {
    hide KeyAt;
  }

  lemma {:induction false} FloorIs(s: Past)
    requires s.Shape()
    ensures s.MaxDist() == s.wSize - 262 && Floor(s.base, s.base + s.strstart, s.wSize - 262) == s.base + Limit(s)
    ensures Floor(s.base, s.base + s.strstart, s.wSize - 261)
         == if s.strstart > s.wSize - 261 then s.base + s.strstart - (s.wSize - 261) else s.base
  {
  }

  /** Searching from the head of the chain, unless it is empty or too far back, visits just the strings that the input
      and the inserted positions tell. */
  lemma {:induction false} VisitedIs(s: Past, r: Rules, hashHead: nat, prev: nat)
    requires s.Entered() && s.strstart <= s.window.Length - MIN_LOOKAHEAD && r.h == s.h && r.size == s.wSize
        && ConfigOk(r.cfg)
    requires hashHead != 0 ==> s.lookahead >= MIN_MATCH && s.Candidate(hashHead)
    requires s.lookahead < MIN_MATCH || (s.base + s.strstart + 2 < |s.all|
        && NoneBetween(s.h, s.all, s.ins, KeyHere(s), s.base + hashHead, s.base + s.strstart))
    ensures var ms := Visited(r, s.base + s.strstart, s.all, s.base, s.ins, prev);
            if hashHead == 0 || s.strstart - hashHead > s.MaxDist() then ms == []
            else
              && s.prev.Length > 0
              && Moved(s.base, ChainFrom(s.prev[..], hashHead, Limit(s), ChainLength(r.cfg, prev)), ms)
  {
    hide Past.Core, ChainsOk, KeyAt, NoneBetween, Keyed, Earlier, Searching, ChainFrom, Moved, Past.Candidate, Limit,
      Past.PrimedAt;
    EnteredIs(s);
    FloorIs(s);
    if s.lookahead >= MIN_MATCH {
      var at, k := s.base + s.strstart, KeyHere(s);
      var floor := Floor(s.base, at, s.wSize - 261);
      if hashHead == 0 || s.strstart - hashHead > s.MaxDist() {
        EarlierNone(s.h, s.all, s.ins, k, at, floor, 1, s.base + hashHead);
      } else {
        CandidateKeyed(s, hashHead);
        EarlierFirst(s.h, s.all, s.ins, k, at, floor, 1, s.base + hashHead);
        ChainZero(s.prev[..], 0, 0, s.h, s.all, s.ins, k, s.base + hashHead, floor);
        LimitIs(s, hashHead);
        ChainIs(s, hashHead, ChainLength(r.cfg, prev));
        assert Earlier(s.h, s.all, s.ins, k, at, floor, 1) == [s.base + hashHead];
        assert Visited(r, at, s.all, s.base, s.ins, prev) == [s.base + hashHead]
            + Earlier(s.h, s.all, s.ins, k, s.base + hashHead, s.base + Limit(s), ChainLength(r.cfg, prev) - 1);
      }
    }
  }

  lemma {:induction false} EnteredIs(s: Past)
    requires s.Entered()
    ensures s.Core() && s.Shape() && s.prev.Length > 0 && |s.all| == s.base + s.strstart + s.lookahead
    ensures s.lookahead >= MIN_MATCH && s.strstart <= s.window.Length - MIN_LOOKAHEAD ==> Searching(s)
  {
    hide ChainsOk, Past.PrimedAt;
  }

  lemma {:induction false} LimitIs(s: Past, m: nat)
    requires s.Shape() && m < s.strstart && s.strstart - m <= s.MaxDist()
    ensures m >= Limit(s)
  {
  }

  /** Strings in the window and in the input have the same bytes in common, as far as there is input. */
  lemma {:induction false} CommonInput(w: seq<Byte>, filled: nat, all: seq<Byte>, base: nat, m: nat, at: nat, i: nat)
    requires filled <= |w| && |all| == base + filled && w[..filled] == all[base..]
    requires m < at && at + i <= filled && i <= 258
    ensures var n := CommonFrom(w, m, at, i);
            CommonFrom(all, base + m, base + at, i) == if n <= filled - at then n else filled - at
    decreases 258 - i
  {
    CommonGrows(w, m, at, i);
    if i < 258 && at + i < filled {
      assert w[..filled][at + i] == all[base..][at + i] && w[..filled][m + i] == all[base..][m + i];
      CommonInput(w, filled, all, base, m, at, i + 1);
    }
  }

  /** What a search in the window finds, cut to the lookahead, is what there is to find in the input. */
  lemma {:induction false} FindsInput(s: Past, ms: seq<nat>, qs: seq<nat>, prev: nat, cfg: Config, best: nat, len: nat,
      start: nat)
    requires s.Data() && s.filled == s.strstart + s.lookahead && Moved(s.base, ms, qs)
        && (forall m :: m in ms ==> m < s.strstart)
    requires best >= prev && len == if best <= s.lookahead then best else s.lookahead
    requires Finds(s.window[..], s.strstart, ms, prev, Nice(cfg, s.lookahead), if best > prev then best else 0,
        if best > prev then start else s.strstart)
    ensures Finds(s.all, s.base + s.strstart, qs, prev, Nice(cfg, s.lookahead), if len > prev then len else 0,
        s.base + if len > prev then start else s.strstart)
  {
    hide CommonFrom;
    var w: seq<Byte>, at, b, nice := s.window[..], s.strstart, s.base, Nice(cfg, s.lookahead);
    forall j: nat | j < |ms|
      ensures qs[j] == b + ms[j] && Common(s.all, qs[j], b + at)
           == if Common(w, ms[j], at) <= s.lookahead then Common(w, ms[j], at) else s.lookahead
    {
      assert ms[j] in ms && w[..s.filled] == s.window[..s.filled];
      CommonInput(w, s.filled, s.all, b, ms[j], at, 0);
    }
    if best > prev {
      var i: nat :| FindsAt(w, at, ms, prev, nice, best, start, i);
      assert len > prev ==> FindsAt(s.all, b + at, qs, prev, nice, len, b + start, i);
    }
  }

  // ---------------------------------------------------------------- the state of the window

  /** The window stands where the stage says; strings that waited may have been inserted since. */
  ghost predicate Standing(s: Stage, at: nat, ins: set<nat>, insert: nat, lookahead: nat, said: seq<Token>)
  {
    && s.at == at && s.ts == said && s.waiting <= 2 && insert == Waiting(s.waiting, lookahead)
    && Grown(s.ins, ins, at - s.waiting, at - insert)
  }

  lemma {:induction false} StandingIs(s: Stage, at: nat, ins: set<nat>, insert: nat, lookahead: nat, said: seq<Token>)
    requires Standing(s, at, ins, insert, lookahead, said)
    ensures s.at == at && s.ts == said && s.waiting <= 2 && insert == Waiting(s.waiting, lookahead)
  {
    hide Grown;
  }

  /** More input is read. */
  lemma {:induction false} StandingMore(s: Stage, at: nat, ins: set<nat>, insert: nat, lookahead: nat, said: seq<Token>,
      ins': set<nat>, insert': nat, lookahead': nat)
    requires Standing(s, at, ins, insert, lookahead, said) && lookahead <= lookahead'
    requires insert' == Waiting(insert, lookahead') && Grown(ins, ins', at - insert, at - insert')
    ensures Standing(s, at, ins', insert', lookahead', said)
  {
    hide Grown;
    GrownJoin(s.ins, ins, ins', at - s.waiting, at - insert, at - insert');
  }

  /** A stage is reached when nothing waits that could be inserted. */
  lemma {:induction false} StandingAt(s: Stage, at: nat, ins: set<nat>, insert: nat, lookahead: nat, said: seq<Token>)
    requires s.at == at && s.ts == said && s.ins == ins && s.waiting == insert == Waiting(insert, lookahead) <= 2
    ensures Standing(s, at, ins, insert, lookahead, said)
  {
    GrownNone(ins, at - insert, at - insert);
  }

  /** The current string is inserted. */
  lemma {:induction false} StandingLook(s: Stage, at: nat, ins: set<nat>, insert: nat, lookahead: nat, said: seq<Token>,
      ins': set<nat>, seen: seq<Byte>)
    requires Standing(s, at, ins, insert, lookahead, said) && |seen| == at + lookahead
    requires if lookahead >= 3 then ins' == ins + {at} else ins' == ins
    ensures ins' == Arrived(s, seen) && insert == Waiting(s.waiting, |seen| - s.at)
  {
    hide Range;
  }

  /** A greedy round leads to its stage. */
  lemma {:induction false} GreedyStanding(r: Rules, s: Stage, k: Deed, at: nat, ins: set<nat>, insert: nat,
      lookahead: nat, said: seq<Token>)
    requires k.Look? && k.at < |k.seen| && !r.lazy && |k.seen| == at + lookahead
    requires at == if k.len >= 3 then k.at + k.len else k.at + 1
    requires said == s.ts + [if k.len >= 3 then Match(k.len, k.dist) else Literal(k.seen[k.at])]
    requires insert == Waiting(s.waiting, |k.seen| - k.at) == Waiting(insert, lookahead) <= 2
    requires if k.len >= 3 && k.len <= r.cfg.maxLazy && lookahead >= 3 then Grown(k.ins, ins, k.at + 1, at)
        else ins == k.ins
    ensures Next(r, s, k).len == 2 && !Next(r, s, k).held && Standing(Next(r, s, k), at, ins, insert, lookahead, said)
  {
    hide Range, Waiting;
    StandingAt(Next(r, s, k), at, ins, insert, lookahead, said);
  }

  /** The end of a flushing call leads to its stage. */
  lemma {:induction false} StopStanding(r: Rules, s: Stage, seen: seq<Byte>, ins: set<nat>, was: nat, insert: nat,
      said: seq<Token>)
    requires Standing(s, |seen|, ins, was, 0, said) && insert == if |seen| < 2 then |seen| else 2
    ensures var t := Next(r, s, Stop(seen));
            t.len == 2 && !t.held && Standing(t, |seen|, ins, insert, 0, said + HeldByte(s, seen))
    ensures !s.held ==> said + HeldByte(s, seen) == said
  {
    GrownNone(ins, |seen| - insert, |seen| - insert);
  }

  /** A lazy round that takes the match held back leads to its stage. */
  lemma {:induction false} TakenStanding(r: Rules, s: Stage, k: Deed, at: nat, ins: set<nat>, insert: nat,
      lookahead: nat, said: seq<Token>)
    requires k.Look? && s.at == k.at < |k.seen| && r.lazy && |k.seen| == at + lookahead
    requires s.len >= 3 && Taken(r, k) <= s.len && at == k.at + s.len - 1 && said == s.ts + [Match(s.len, s.dist)]
    requires insert == Waiting(s.waiting, |k.seen| - k.at) == Waiting(insert, lookahead) <= 2
    requires Grown(k.ins, ins, k.at + 1, if at <= |k.seen| - 2 then at else |k.seen| - 2)
    ensures var t := Next(r, s, k); t.len == 2 && !t.held && Standing(t, at, ins, insert, lookahead, said)
  {
    hide Range, Waiting;
    StandingAt(Next(r, s, k), at, ins, insert, lookahead, said);
  }

  /** A lazy round that holds the current byte back leads to its stage. */
  lemma {:induction false} HeldStanding(r: Rules, s: Stage, k: Deed, ins: set<nat>, insert: nat, lookahead: nat,
      said: seq<Token>)
    requires k.Look? && s.at == k.at < |k.seen| && r.lazy && |k.seen| == k.at + 1 + lookahead
    requires (s.len < 3 || Taken(r, k) > s.len) && said == s.ts + HeldByte(s, k.seen) && ins == k.ins
    requires insert == Waiting(s.waiting, |k.seen| - k.at) == Waiting(insert, lookahead) <= 2
    ensures var t := Next(r, s, k);
            t.held && t.len == Taken(r, k) && (t.len >= 3 ==> t.dist == k.dist)
              && Standing(t, k.at + 1, ins, insert, lookahead, said)
  {
    hide Range, Waiting;
    StandingAt(Next(r, s, k), k.at + 1, ins, insert, lookahead, said);
  }
}
