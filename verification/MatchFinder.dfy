/** longest_match of deflate.c: the search of a hash chain for the longest earlier copy of the current string. */
module MatchFinder {
  import opened Bits
  import opened BitWriter
  import opened HashKey
  import opened HashChains
  import opened History

  /** The tuning parameters of a compression level. */
  datatype Config = Config(goodMatch: nat, maxLazy: nat, niceMatch: nat, maxChain: nat)

  predicate ConfigOk(cfg: Config)
  {
    cfg.maxChain >= 4 && cfg.maxLazy >= MIN_MATCH
  }

  /** How many bytes from the i-th on, counted from the start, are the same at a and b. */
  function CommonFrom(w: seq<Byte>, a: nat, b: nat, i: nat): (n: nat)
    decreases MAX_MATCH - i
  {
    if i >= MAX_MATCH || a + i >= |w| || b + i >= |w| || w[a + i] != w[b + i] then i else CommonFrom(w, a, b, i + 1)
  }

  /** The length of the common beginning of the strings at a and b, 258 at most. */
  function Common(w: seq<Byte>, a: nat, b: nat): (r: nat)
  {
    CommonFrom(w, a, b, 0)
  }

  /** The j-th bytes from a and from b on are the same. */
  predicate Same(w: seq<Byte>, a: nat, b: nat, j: nat)
  {
    a + j < |w| && b + j < |w| && w[a + j] == w[b + j]
  }

  /** n bytes at a and b are the same. */
  ghost predicate SameRun(w: seq<Byte>, a: nat, b: nat, n: nat)
  {
    forall j: nat :: j < n ==> Same(w, a, b, j)
  }

  lemma {:induction false} CommonFromIs(w: seq<Byte>, a: nat, b: nat, i: nat, n: nat)
    requires SameRun(w, a, b, n) && i <= n <= MAX_MATCH
    ensures CommonFrom(w, a, b, i) >= n
    ensures n == MAX_MATCH || (a + n < |w| && b + n < |w| && w[a + n] != w[b + n]) ==> CommonFrom(w, a, b, i) == n
    decreases n - i
  {
    if i < n {
      assert Same(w, a, b, i);
      CommonFromIs(w, a, b, i + 1, n);
    } else if n < MAX_MATCH {
      CommonGrows(w, a, b, n);
    }
  }

  lemma {:induction false} CommonGrows(w: seq<Byte>, a: nat, b: nat, i: nat)
    requires i <= MAX_MATCH
    ensures i <= CommonFrom(w, a, b, i) <= MAX_MATCH
    decreases MAX_MATCH - i
  {
    if i < MAX_MATCH { CommonGrows(w, a, b, i + 1); }
  }

  /** A difference at j ends the common beginning. */
  lemma {:induction false} CommonEnds(w: seq<Byte>, a: nat, b: nat, i: nat, j: nat)
    requires i <= j <= MAX_MATCH && a + j < |w| && b + j < |w| && w[a + j] != w[b + j]
    ensures CommonFrom(w, a, b, i) <= j
    decreases j - i
  {
    if i < j { CommonEnds(w, a, b, i + 1, j); }
  }

  /** The chain a search walks along: at most n positions above limit, each linked to by the one before. */
  function ChainFrom(prev: seq<nat>, cur: nat, limit: nat, n: nat): (r: seq<nat>)
    requires |prev| > 0
    decreases n
  {
    if n == 0 then []
    else
      var m := prev[Slot(cur, |prev|)];
      [cur] + if m > limit then ChainFrom(prev, m, limit, n - 1) else []
  }

  /** The string at strstart has been inserted, and there is room to look 258 bytes ahead. */
  ghost predicate Searching(s: Past)
    reads s, s.window, s.prev, s.head
  {
    s.Core() && s.filled == s.strstart + s.lookahead && s.top == s.base + s.strstart + 1 && s.lookahead >= MIN_MATCH
      && s.strstart <= s.window.Length - MIN_LOOKAHEAD
  }

  function Limit(s: Past): (r: nat)
    reads s`strstart
  {
    if s.strstart > s.MaxDist() > 0 then s.strstart - s.MaxDist() else 0
  }

  lemma {:induction false} NextCandidate(s: Past, m: nat)
    requires Searching(s) && s.Candidate(m) && m >= Limit(s)
    ensures s.prev.Length > 0 && s.base + s.strstart + 2 < |s.all|
    ensures var next := s.prev[Slot(m, s.prev.Length)];
            (next > Limit(s) ==> s.Candidate(next) && next < m)
              && NoneBetween(s.h, s.all, s.ins, KeyAt(s.h, s.all, s.base + s.strstart), s.base + next, s.base + m)
  {
    hide ChainsOk, KeyAt, Slot, NoneBetween;
    FollowLink(s.Chained(), m);
  }

  /** The hash-chain invariant: every position on the chain of the current string has the key of that string. */
  lemma {:induction false} ChainKeys(s: Past, cur: nat, n: nat)
    requires Searching(s) && s.Candidate(cur) && cur >= Limit(s) && s.prev.Length > 0
    ensures forall m :: m in ChainFrom(s.prev[..], cur, Limit(s), n) ==> s.Candidate(m) && m >= Limit(s)
    decreases n
  {
    hide Past.Candidate, Searching;
    if n > 0 {
      NextCandidate(s, cur);
      var m := s.prev[..][Slot(cur, s.prev.Length)];
      if m > Limit(s) { ChainKeys(s, m, n - 1); }
    }
  }

  /** Where the first two bytes agree so does the third, which is never compared. */
  lemma {:induction false} ThirdByte(s: Past, m: nat)
    requires Searching(s) && s.Candidate(m)
    ensures m + 2 < s.strstart + 2 < s.window.Length
    ensures s.window[m] == s.window[s.strstart] && s.window[m + 1] == s.window[s.strstart + 1] ==>
        s.window[m + 2] == s.window[s.strstart + 2]
  {
    hide ChainsOk, Key;
    s.InWindow(m);
    s.InWindow(s.strstart);
    if s.window[m] == s.window[s.strstart] && s.window[m + 1] == s.window[s.strstart + 1] {
      KeyThird(s.h, s.window[m], s.window[m + 1], s.window[m + 2], s.window[s.strstart + 2]);
    }
  }

  /** Compares from the fourth byte on, eight at a time; the third is not looked at. */
  method Compare(window: array<Byte>, match0: nat, scan: nat) returns (len: nat)
    requires match0 < scan && scan + MAX_MATCH < window.Length
    ensures 3 <= len <= MAX_MATCH && forall j: nat :: 3 <= j < len ==> Same(window[..], match0, scan, j)
    ensures len < MAX_MATCH ==> window[match0 + len] != window[scan + len]
  {
    len := 2;
    var more := true;
    while more
      invariant 2 <= len <= MAX_MATCH && (more ==> len < MAX_MATCH && (len - 2) % 8 == 0) && (!more ==> len > 2)
      invariant forall j: nat :: 3 <= j < len || (j == len > 2 && more) ==> Same(window[..], match0, scan, j)
      invariant !more && len < MAX_MATCH ==> window[match0 + len] != window[scan + len]
      decreases MAX_MATCH - len, more
    {
      len, more := CompareEight(window, match0, scan, len);
      if len >= MAX_MATCH { more := false; }
    }
  }

  /** One round of at most eight comparisons. */
  method CompareEight(window: array<Byte>, match0: nat, scan: nat, len0: nat) returns (len: nat, more: bool)
    requires match0 < scan && scan + MAX_MATCH < window.Length && 2 <= len0 && len0 + 8 <= MAX_MATCH
    requires forall j: nat :: 3 <= j <= len0 ==> Same(window[..], match0, scan, j)
    ensures len0 < len <= len0 + 8 && (more ==> len == len0 + 8)
    ensures forall j: nat :: 3 <= j < len || (j == len && more) ==> Same(window[..], match0, scan, j)
    ensures !more ==> window[match0 + len] != window[scan + len]
  {
    var k: nat := 0;
    len, more := len0, true;
    while k < 8 && more
      invariant 0 <= k <= 8 && len == len0 + k && (k == 0 ==> more)
      invariant forall j: nat :: 3 <= j < len || (j == len > 2 && more) ==> Same(window[..], match0, scan, j)
      invariant !more ==> window[match0 + len] != window[scan + len]
    {
      len := len + 1;
      more := window[match0 + len] == window[scan + len];
      k := k + 1;
    }
  }

  /** What the search has found so far. */
  ghost predicate Best(s: Past, prevLength: nat, best: nat)
    reads s, s.window
  {
    && prevLength <= best <= MAX_MATCH
    && (best > prevLength ==>
      Limit(s) <= s.matchStart < s.strstart
      && best == Common(s.window[..], s.matchStart, s.strstart)
      && SameRun(s.window[..], s.matchStart, s.strstart, best))
  }

  /** The quick test that rules out strings not longer than best. */
  method Promising(s: Past, m: nat, best: nat, scanEnd: Byte, scanEnd1: Byte) returns (yes: bool)
    requires Searching(s) && s.Candidate(m) && 1 <= best <= MAX_MATCH
    requires scanEnd == s.window[s.strstart + best] && scanEnd1 == s.window[s.strstart + best - 1]
    ensures !yes ==> Common(s.window[..], m, s.strstart) <= best
    ensures yes ==> SameRun(s.window[..], m, s.strstart, 3)
  {
    hide ChainsOk, Key, KeyAt;
    ThirdByte(s, m);
    ghost var w: seq<Byte> := s.window[..];
    var at := s.strstart;
    if s.window[m + best] != scanEnd {
      CommonEnds(w, m, at, 0, best);
      return false;
    }
    if s.window[m + best - 1] != scanEnd1 {
      CommonEnds(w, m, at, 0, best - 1);
      return false;
    }
    if s.window[m] != s.window[at] {
      CommonEnds(w, m, at, 0, 0);
      return false;
    }
    if s.window[m + 1] != s.window[at + 1] {
      CommonEnds(w, m, at, 0, 1);
      return false;
    }
    yes := true;
  }

  /** Looks at one string of the chain; true when it is long enough to stop. */
  method Try(s: Past, m: nat, prevLength: nat, best0: nat, nice: nat) returns (best: nat, stop: bool)
    requires Searching(s) && s.Candidate(m) && m >= Limit(s) && 1 <= prevLength && Best(s, prevLength, best0)
    modifies s`matchStart
    ensures Searching(s) && s.Candidate(m) && Best(s, prevLength, best) && best0 <= best
        && Common(s.window[..], m, s.strstart) <= best
    ensures s.matchStart == if best > best0 then m else old(s.matchStart)
    ensures stop <==> best > best0 && best >= nice
  {
    hide ChainsOk, Key, KeyAt, CommonFrom;
    best, stop := best0, false;
    var yes := Promising(s, m, best, s.window[s.strstart + best], s.window[s.strstart + best - 1]);
    if yes {
      var len := Compare(s.window, m, s.strstart);
      CommonFromIs(s.window[..], m, s.strstart, 0, len);
      if len > best {
        s.matchStart := m;
        best := len;
        stop := len >= nice;
      }
    }
  }

  /** No string of the list begins like the current one for more than n bytes. */
  ghost predicate NoneLonger(w: seq<Byte>, at: nat, ms: seq<nat>, n: nat)
  {
    forall i: nat :: i < |ms| ==> Common(w, ms[i], at) <= n
  }

  /** The string ms[i] is what a search finds that looks at the strings ms in order, for one that has more than prev
      bytes in common with the current one, and stops as soon as it has found one with nice bytes: it is longer than
      all before it, none of which would have ended the search, and none behind it is longer if it was gone on to. */
  ghost predicate FindsAt(w: seq<Byte>, at: nat, ms: seq<nat>, prev: nat, nice: nat, len: nat, start: nat, i: nat)
  {
    && i < |ms| && ms[i] == start && len == Common(w, start, at) > prev
    && (forall j: nat :: j < i ==>
      Common(w, ms[j], at) < len && (Common(w, ms[j], at) <= prev || Common(w, ms[j], at) < nice))
    && (len >= nice || NoneLonger(w, at, ms, len))
  }

  /** The search finds a string of len bytes at start, or none longer than prev if len is zero. */
  ghost predicate Finds(w: seq<Byte>, at: nat, ms: seq<nat>, prev: nat, nice: nat, len: nat, start: nat)
  {
    if len == 0 then start == at && NoneLonger(w, at, ms, prev)
    else exists i: nat :: FindsAt(w, at, ms, prev, nice, len, start, i)
  }

  /** There is only one thing to find. */
  lemma {:induction false} FindsOne(w: seq<Byte>, at: nat, ms: seq<nat>, prev: nat, nice: nat, len: nat, start: nat,
      len': nat, start': nat)
    requires Finds(w, at, ms, prev, nice, len, start) && Finds(w, at, ms, prev, nice, len', start')
    ensures len == len' && start == start'
  {
    hide Common;
    if len > 0 && len' > 0 {
      var i: nat :| FindsAt(w, at, ms, prev, nice, len, start, i);
      var j: nat :| FindsAt(w, at, ms, prev, nice, len', start', j);
    }
  }

  /** The search has looked at the strings ms without reason to stop; best is the length of the best so far. */
  ghost predicate Seen(w: seq<Byte>, at: nat, ms: seq<nat>, prev: nat, nice: nat, best: nat, start: nat)
  {
    && Finds(w, at, ms, prev, nice, if best > prev then best else 0, if best > prev then start else at)
    && NoneLonger(w, at, ms, best) && best >= prev && (best > prev ==> best < nice)
  }

  /** One more string looked at. */
  lemma {:induction false} SeenMore(w: seq<Byte>, at: nat, ms: seq<nat>, prev: nat, nice: nat, best: nat, start: nat,
      m: nat, best': nat, start': nat)
    requires Seen(w, at, ms, prev, nice, best, start) && Common(w, m, at) <= best' && best <= best'
    requires if best' > best then best' == Common(w, m, at) && start' == m else start' == start
    ensures best' == best || best' < nice ==> Seen(w, at, ms + [m], prev, nice, best', start')
    ensures best' > best ==> FindsAt(w, at, ms + [m], prev, nice, best', start', |ms|) || best' < nice
  {
    hide Common;
    var ns := ms + [m];
    if best' == best > prev {
      var i: nat :| FindsAt(w, at, ms, prev, nice, best, start, i);
      assert FindsAt(w, at, ns, prev, nice, best', start', i);
    } else if best' > best {
      forall j: nat | j < |ms|
        ensures Common(w, ns[j], at) < best' && (Common(w, ns[j], at) <= prev || Common(w, ns[j], at) < nice)
      {
        assert ns[j] == ms[j];
      }
      if best' < nice { assert NoneLonger(w, at, ns, best'); }
      assert FindsAt(w, at, ns, prev, nice, best', start', |ms|);
    }
  }

  /** What is found with reason to stop stays the same with more strings behind. */
  lemma {:induction false} FoundStays(w: seq<Byte>, at: nat, ms: seq<nat>, more: seq<nat>, prev: nat, nice: nat,
      len: nat, start: nat, i: nat)
    requires FindsAt(w, at, ms, prev, nice, len, start, i) && len >= nice
    ensures FindsAt(w, at, ms + more, prev, nice, len, start, i)
  {
    hide Common;
  }

  lemma {:induction false} ChainStep(prev: seq<nat>, cur: nat, limit: nat, n: nat, seen: seq<nat>)
    requires |prev| > 0 && n >= 1
    ensures seen + ChainFrom(prev, cur, limit, n)
         == (seen + [cur]) + if prev[Slot(cur, |prev|)] > limit
           then ChainFrom(prev, prev[Slot(cur, |prev|)], limit, n - 1) else []
  {
  }

  lemma {:induction false} ChainNone(prev: seq<nat>, cur: nat, limit: nat, seen: seq<nat>)
    requires |prev| > 0
    ensures seen + ChainFrom(prev, cur, limit, 0) == seen && seen + [] == seen
  {
  }

  /** The walk along the chain; whole is all of it. */
  method Walk(s: Past, curMatch: nat, prevLength: nat, n: nat, nice: nat, ghost whole: seq<nat>) returns (best: nat)
    requires Searching(s) && s.Candidate(curMatch) && curMatch >= Limit(s) && 1 <= prevLength <= MAX_MATCH && n >= 1
    requires s.prev.Length == s.wSize > 0 && whole == ChainFrom(s.prev[..], curMatch, Limit(s), n)
    modifies s`matchStart
    ensures Searching(s) && Best(s, prevLength, best) && (best == prevLength ==> s.matchStart == old(s.matchStart))
    ensures Finds(s.window[..], s.strstart, whole, prevLength, nice, if best > prevLength then best else 0,
        if best > prevLength then s.matchStart else s.strstart)
  {
    hide Searching, Past.Candidate, Best, Common, ChainFrom, NoneLonger, Slot, Seen, FindsAt;
    var limit := Limit(s);
    var cur, chain := curMatch, n;
    best := prevLength;
    BestNone(s, prevLength);
    NoneSeen(s.window[..], s.strstart, best, nice, s.matchStart);
    ghost var seen := [];
    assert seen + whole == whole;
    while true
      invariant Searching(s) && s.Candidate(cur) && cur >= limit && chain >= 1 && Best(s, prevLength, best)
      invariant whole == seen + ChainFrom(s.prev[..], cur, limit, chain)
          && Seen(s.window[..], s.strstart, seen, prevLength, nice, best, s.matchStart)
      invariant prevLength <= best && (best == prevLength ==> s.matchStart == old(s.matchStart))
      decreases chain
    {
      var stop;
      ghost var best0, start0 := best, s.matchStart;
      best, stop := Try(s, cur, prevLength, best, nice);
      TriedIs(s, prevLength, best0, best, cur);
      NextCandidate(s, cur);
      SeenMore(s.window[..], s.strstart, seen, prevLength, nice, best0, start0, cur, best, s.matchStart);
      ChainStep(s.prev[..], cur, limit, chain, seen);
      if stop {
        FoundStays(s.window[..], s.strstart, seen + [cur], whole[|seen| + 1..], prevLength, nice, best, s.matchStart,
          |seen|);
        break;
      }
      seen := seen + [cur];
      cur := s.prev[Slot(cur, s.wSize)];
      ChainNone(s.prev[..], cur, limit, seen);
      SeenIs(s.window[..], s.strstart, seen, prevLength, nice, best, s.matchStart);
      if cur <= limit { break; }
      chain := chain - 1;
      if chain == 0 { break; }
    }
  }

  lemma {:induction false} TriedIs(s: Past, prevLength: nat, best0: nat, best: nat, m: nat)
    requires Best(s, prevLength, best) && prevLength <= best0 && (best > best0 ==> s.matchStart == m)
    ensures best > best0 ==> best == Common(s.window[..], m, s.strstart)
  {
    hide Common, SameRun;
  }

  lemma {:induction false} SeenIs(w: seq<Byte>, at: nat, ms: seq<nat>, prev: nat, nice: nat, best: nat, start: nat)
    requires Seen(w, at, ms, prev, nice, best, start)
    ensures Finds(w, at, ms, prev, nice, if best > prev then best else 0, if best > prev then start else at)
  {
    hide Common;
  }

  lemma {:induction false} NoneSeen(w: seq<Byte>, at: nat, prev: nat, nice: nat, start: nat)
    ensures Seen(w, at, [], prev, nice, prev, start)
  {
  }

  /** How many strings are looked at when the match to beat is already good. */
  function ChainLength(cfg: Config, prevLength: nat): (r: nat)
  {
    if prevLength >= cfg.goodMatch then cfg.maxChain / 4 else cfg.maxChain
  }

  /** The length at which the search stops. */
  function Nice(cfg: Config, lookahead: nat): (r: nat)
  {
    if cfg.niceMatch > lookahead then lookahead else cfg.niceMatch
  }

  /** longest_match: the longest string on the chain from curMatch on that is longer than prevLength, but not longer
      than the lookahead; best is its length before it is cut. */
  method LongestMatch(s: Past, cfg: Config, curMatch: nat, prevLength: nat) returns (len: nat, ghost best: nat)
    requires Searching(s) && ConfigOk(cfg) && s.Candidate(curMatch) && curMatch >= Limit(s)
        && 1 <= prevLength <= MAX_MATCH
    modifies s`matchStart
    ensures Searching(s) && Best(s, prevLength, best) && len == (if best <= s.lookahead then best else s.lookahead)
    ensures len > prevLength ==>
        Limit(s) <= s.matchStart < s.strstart
        && SameRun(s.window[..], s.matchStart, s.strstart, len)
    ensures best == prevLength ==> s.matchStart == old(s.matchStart)
    ensures s.prev.Length > 0
    ensures Finds(s.window[..], s.strstart, ChainFrom(s.prev[..], curMatch, Limit(s), ChainLength(cfg, prevLength)),
        prevLength, Nice(cfg, s.lookahead), if best > prevLength then best else 0,
        if best > prevLength then s.matchStart else s.strstart)
  {
    hide Searching, Past.Candidate, Best, Common, ChainFrom, NoneLonger, SameRun, Finds;
    SearchSizes(s);
    var nice := cfg.niceMatch;
    if nice > s.lookahead { nice := s.lookahead; }
    var chain := cfg.maxChain;
    if prevLength >= cfg.goodMatch { chain := chain / 4; }
    var most := Walk(s, curMatch, prevLength, chain, nice, ChainFrom(s.prev[..], curMatch, Limit(s), chain));
    best := most;
    len := if most <= s.lookahead then most else s.lookahead;
    BestCut(s, prevLength, most, len);
  }

  lemma {:induction false} SearchSizes(s: Past)
    requires Searching(s)
    ensures s.prev.Length == s.wSize > 0 && Limit(s) == if s.strstart > s.MaxDist() then s.strstart - s.MaxDist() else 0
  {
    hide ChainsOk;
  }

  lemma {:induction false} BestNone(s: Past, prevLength: nat)
    requires prevLength <= MAX_MATCH
    ensures Best(s, prevLength, prevLength)
  {
  }

  lemma {:induction false} BestCut(s: Past, prevLength: nat, best: nat, n: nat)
    requires Best(s, prevLength, best)
    ensures best > prevLength ==> Limit(s) <= s.matchStart < s.strstart
    ensures best > prevLength && n <= best ==> SameRun(s.window[..], s.matchStart, s.strstart, n)
  {
    hide Common;
  }
}
