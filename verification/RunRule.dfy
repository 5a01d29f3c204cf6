/** What deflate_rle chooses: the tokens as a function of the input. */
module RunRule {
  import opened BitWriter
  import opened Rfc1951
  import opened RunFinder

  /** The token of deflate_rle at n when the bytes in seen have been read: a match with the byte before if that is
      repeated three times or more, else a literal. */
  function RunToken(seen: seq<Byte>, n: nat): (t: Token)
    requires n < |seen|
  {
    if n == 0 || RunFrom(seen, n, seen[n - 1], 0) < 3 then Literal(seen[n])
    else Match(RunFrom(seen, n, seen[n - 1], 0), 1)
  }

  /** A run is as long as the bytes stay the same, up to 258 and to the end of what has been read. */
  lemma {:induction false} RunTokenIs(seen: seq<Byte>, n: nat)
    requires n < |seen|
    ensures RunToken(seen, n).Literal? ==>
        && RunToken(seen, n).b == seen[n]
        && !(n > 0 && n + 2 < |seen| && seen[n] == seen[n + 1] == seen[n + 2] == seen[n - 1])
    ensures RunToken(seen, n).Match? ==>
        var len := RunToken(seen, n).len;
        && RunToken(seen, n).dist == 1 && n > 0 && 3 <= len <= 258 && n + len <= |seen|
        && (forall i: nat :: n <= i < n + len ==> seen[i] == seen[n - 1])
        && (len == 258 || n + len == |seen| || seen[n + len] != seen[n - 1])
  {
    hide RunFrom;
    if n > 0 {
      var c := seen[n - 1];
      var run := RunFrom(seen, n, c, 0);
      RunGrows(seen, n, c, 0);
      forall i: nat | i < run ensures IsAt(seen, n, c, i) { RunAt(seen, n, c, 0, i); }
      RunEnds(seen, n, c, 0);
      if run >= 3 {
        assert IsAt(seen, n, c, run - 1);
        forall i: nat | n <= i < n + run ensures seen[i] == c { assert IsAt(seen, n, c, i - n); }
      }
    }
  }

  lemma {:induction false} RunEnds(w: seq<Byte>, at: nat, c: Byte, i: nat)
    requires i <= 258
    ensures RunFrom(w, at, c, i) == 258 || !IsAt(w, at, c, RunFrom(w, at, c, i))
    decreases 258 - i
  {
    if i < 258 && IsAt(w, at, c, i) { RunEnds(w, at, c, i + 1); }
  }

  /** The token is that of a loop that looked 259 bytes ahead or to the end of what a flushing call was given. */
  ghost predicate RunTokenAt(stops: set<nat>, all: seq<Byte>, n: nat, t: Token)
  {
    exists e: nat :: n < e <= |all| && (n + 259 <= e || e in stops) && t == RunToken(all[..e], n)
  }

  /** The tokens are those of the first n bytes of the input. */
  ghost predicate RunParse(stops: set<nat>, all: seq<Byte>, ts: seq<Token>, n: nat)
    decreases |ts|
  {
    if ts == [] then n == 0
    else
      var t := ts[|ts| - 1];
      Size(t) <= n && RunParse(stops, all, ts[..|ts| - 1], n - Size(t)) && RunTokenAt(stops, all, n - Size(t), t)
  }

  lemma {:induction false} RunParseMore(stops: set<nat>, stops': set<nat>, all: seq<Byte>, all': seq<Byte>,
      ts: seq<Token>, n: nat)
    requires RunParse(stops, all, ts, n) && all <= all' && stops <= stops'
    ensures RunParse(stops', all', ts, n)
    decreases |ts|
  {
    hide RunToken;
    if ts != [] {
      var t := ts[|ts| - 1];
      RunParseMore(stops, stops', all, all', ts[..|ts| - 1], n - Size(t));
      var e: nat :| n - Size(t) < e <= |all| && (n - Size(t) + 259 <= e || e in stops)
          && t == RunToken(all[..e], n - Size(t));
      assert all[..e] == all'[..e];
    }
  }

  /** One more token. */
  lemma {:induction false} RunParseNext(stops: set<nat>, all: seq<Byte>, ts: seq<Token>, n: nat)
    requires RunParse(stops, all, ts, n) && n < |all| && (n + 259 <= |all| || |all| in stops)
    ensures RunParse(stops, all, ts + [RunToken(all, n)], n + Size(RunToken(all, n)))
  {
    hide RunToken;
    var t := RunToken(all, n);
    assert (ts + [t])[..|ts|] == ts && all[..|all|] == all;
    assert RunTokenAt(stops, all, n, t);
  }

  lemma {:induction false} RunInput(w: seq<Byte>, filled: nat, all: seq<Byte>, base: nat, at: nat, c: Byte, i: nat)
    requires filled <= |w| && |all| == base + filled && w[..filled] == all[base..] && at + i <= filled && i <= 258
    ensures var n := RunFrom(w, at, c, i); RunFrom(all, base + at, c, i) == if n <= filled - at then n else filled - at
    decreases 258 - i
  {
    RunGrows(w, at, c, i);
    if i < 258 && at + i < filled {
      assert w[..filled][at + i] == all[base..][at + i];
      RunInput(w, filled, all, base, at, c, i + 1);
    }
  }

  /** The tokens of deflate_rle as a function of the input from position n on. */
  function RleTokens(all: seq<Byte>, n: nat): (ts: seq<Token>)
    requires n <= |all|
    decreases |all| - n
  {
    if n == |all| then []
    else
      RunTokenIs(all, n);
      [RunToken(all, n)] + RleTokens(all, n + Size(RunToken(all, n)))
  }

  /** Looking 259 bytes ahead is looking at all input. */
  lemma {:induction false} RunTokenCut(all: seq<Byte>, n: nat, e: nat)
    requires n < e <= |all| && (n + 259 <= e || e == |all|)
    ensures RunToken(all[..e], n) == RunToken(all, n)
  {
    if e == |all| {
      assert all[..e] == all;
    } else if n > 0 {
      RunCut(all, e, n, all[n - 1], 0);
    }
  }

  lemma {:induction false} RunCut(all: seq<Byte>, e: nat, n: nat, c: Byte, i: nat)
    requires n + 259 <= e <= |all| && i <= 258
    ensures RunFrom(all[..e], n, c, i) == RunFrom(all, n, c, i)
    decreases 258 - i
  {
    if i < 258 { RunCut(all, e, n, c, i + 1); }
  }

  /** However the input is cut into calls, if only the last one flushes the tokens are those of the input. */
  lemma {:induction false} RunWhole(all: seq<Byte>, ts: seq<Token>, n: nat)
    requires RunParse({|all|}, all, ts, n) && n <= |all|
    ensures ts + RleTokens(all, n) == RleTokens(all, 0)
    decreases |ts|
  {
    hide RunToken, RleTokens;
    if ts != [] {
      var k := |ts| - 1;
      var at: nat := n - Size(ts[k]);
      RunWhole(all, ts[..k], at);
      var e: nat :| at < e <= |all| && (at + 259 <= e || e in {|all|}) && ts[k] == RunToken(all[..e], at);
      RunTokenCut(all, at, e);
      RleTokensHead(all, at);
      assert ts == ts[..k] + [ts[k]];
      assert ts[..k] + ([ts[k]] + RleTokens(all, n)) == ts + RleTokens(all, n);
    } else {
      assert [] + RleTokens(all, 0) == RleTokens(all, 0);
    }
  }

  lemma {:induction false} RleTokensHead(all: seq<Byte>, n: nat)
    requires n < |all|
    ensures n + Size(RunToken(all, n)) <= |all|
    ensures RleTokens(all, n) == [RunToken(all, n)] + RleTokens(all, n + Size(RunToken(all, n)))
  {
    RunTokenIs(all, n);
  }

  predicate Uniform(all: seq<Byte>)
  {
    forall i, j :: 0 <= i < |all| && 0 <= j < |all| ==> all[i] == all[j]
  }

  /** One byte over and over is matches of 258 bytes and one for the rest, behind one literal. */
  lemma {:induction false} UniformToken(all: seq<Byte>, n: nat)
    requires Uniform(all) && 0 < n < |all|
    ensures var rest := |all| - n;
            RunToken(all, n) == if rest >= 258 then Match(258, 1) else if rest >= 3 then Match(rest, 1)
              else Literal(all[0])
  {
    RunTokenIs(all, n);
  }

  /** 300 times the same byte. */
  lemma {:induction false} UniformThreeHundred(all: seq<Byte>)
    requires Uniform(all) && |all| == 300
    ensures RleTokens(all, 0) == [Literal(all[0]), Match(258, 1), Match(41, 1)]
  {
    hide RunToken, RleTokens;
    assert RunToken(all, 0) == Literal(all[0]) by { RunTokenFirst(all); }
    UniformToken(all, 1);
    UniformToken(all, 259);
    RleTokensHead(all, 0);
    RleTokensHead(all, 1);
    RleTokensHead(all, 259);
    RleTokensEnd(all);
  }

  lemma {:induction false} RunTokenFirst(all: seq<Byte>)
    requires |all| > 0
    ensures RunToken(all, 0) == Literal(all[0])
  {
  }

  lemma {:induction false} RleTokensEnd(all: seq<Byte>)
    ensures RleTokens(all, |all|) == []
  {
  }

  /** The tokens are the first n bytes of the input. */
  ghost predicate Plain(all: seq<Byte>, ts: seq<Token>, n: nat)
  {
    n <= |all| && |ts| == n && forall i :: 0 <= i < n ==> ts[i] == Literal(all[i])
  }

  lemma {:induction false} PlainMore(all: seq<Byte>, all': seq<Byte>, ts: seq<Token>, n: nat)
    requires Plain(all, ts, n) && all <= all'
    ensures Plain(all', ts, n)
  {
  }

  lemma {:induction false} PlainNext(all: seq<Byte>, ts: seq<Token>, n: nat)
    requires Plain(all, ts, n) && n < |all|
    ensures Plain(all, ts + [Literal(all[n])], n + 1)
  {
  }
}
