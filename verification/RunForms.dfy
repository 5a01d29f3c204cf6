/** The run-length coding of code lengths told by the runs themselves, with the numbers of section 3.2.7 of RFC 1951. */
module RunForms {
  import opened RunLength

  /** r zeros: one by one below three, else as few runs of up to 138 as possible. */
  function ZeroRun(r: nat): (items: seq<Item>)
  {
    if r < 3 then Copies(0, r)
    else if r <= 10 then [Item(17, r - 3)]
    else if r <= 138 then [Item(18, r - 11)]
    else [Item(18, 127)] + ZeroRun(r - 138)
  }

  /** r lengths v behind another v: repeats of up to six. */
  function RepeatRun(v: nat, r: nat): (items: seq<Item>)
  {
    if r < 3 then Copies(v, r) else if r <= 6 then [Item(16, r - 3)] else [Item(16, 3)] + RepeatRun(v, r - 6)
  }

  /** r lengths v behind another length: the first as it is, the others as repeats. */
  function FirstRun(v: nat, r: nat): (items: seq<Item>)
  {
    if r < 4 then Copies(v, r)
    else if r <= 7 then [Item(v, 0), Item(16, r - 4)]
    else [Item(v, 0), Item(16, 3)] + RepeatRun(v, r - 7)
  }

  /** A run of r lengths v from position n on, and another length or nothing behind. */
  ghost predicate IsRun(lens: seq<nat>, n: nat, r: nat, v: nat)
  {
    n + r <= |lens| && (forall i :: n <= i < n + r ==> lens[i] == v) && (n + r < |lens| ==> lens[n + r] != v)
  }

  /** How the coding goes through a run behind the length prev: the longest chunk first. */
  function Chunks(v: nat, prev: int, r: nat): (items: seq<Item>)
    decreases r
  {
    if r == 0 then []
    else if r <= MaxCount(v, prev) then Emit(v, prev, r)
    else Emit(v, prev, MaxCount(v, prev)) + Chunks(v, v, r - MaxCount(v, prev))
  }

  lemma {:induction false} RunChunks(lens: seq<nat>, n: nat, r: nat, v: nat, prev: int, count: nat)
    requires LensFit(lens) && IsRun(lens, n, r, v) && r > 0 && count < MaxCount(v, prev)
    ensures Runs(lens, n, prev, count) == Chunks(v, prev, count + r) + Runs(lens, n + r, v, 0)
    decreases r
  {
    hide Emit;
    assert lens[n] == v <= 15;
    RunsStep(lens, n, prev, count);
    if r > 1 {
      assert lens[n + 1] == v;
      if count + 1 < MaxCount(v, prev) {
        RunChunks(lens, n + 1, r - 1, v, prev, count + 1);
      } else {
        RunChunks(lens, n + 1, r - 1, v, v, 0);
        var e, c, rest := Emit(v, prev, count + 1), Chunks(v, v, r - 1), Runs(lens, n + r, v, 0);
        assert e + (c + rest) == e + c + rest;
      }
    }
  }

  lemma {:induction false} ZeroChunks(prev: int, r: nat)
    ensures Chunks(0, prev, r) == ZeroRun(r)
    decreases r
  {
    if r > 138 { ZeroChunks(0, r - 138); }
  }

  lemma {:induction false} RepeatChunks(v: nat, r: nat)
    requires v > 0
    ensures Chunks(v, v, r) == RepeatRun(v, r)
    decreases r
  {
    if r > 6 { RepeatChunks(v, r - 6); }
  }

  lemma {:induction false} FirstChunks(v: nat, prev: int, r: nat)
    requires v > 0 && prev != v
    ensures Chunks(v, prev, r) == FirstRun(v, r)
  {
    if r > 7 { RepeatChunks(v, r - 7); }
  }

  function RunItems(v: nat, r: nat): (items: seq<Item>)
  {
    if v == 0 then ZeroRun(r) else FirstRun(v, r)
  }

  /** How many lengths from n on are the same. */
  function RunAt(lens: seq<nat>, n: nat): (r: nat)
    requires n < |lens|
    ensures r > 0 && n + r <= |lens|
    decreases |lens| - n
  {
    if n + 1 < |lens| && lens[n + 1] == lens[n] then 1 + RunAt(lens, n + 1) else 1
  }

  lemma {:induction false} RunAtIs(lens: seq<nat>, n: nat)
    requires n < |lens|
    ensures IsRun(lens, n, RunAt(lens, n), lens[n])
    decreases |lens| - n
  {
    if n + 1 < |lens| && lens[n + 1] == lens[n] { RunAtIs(lens, n + 1); }
  }

  /** One run after the other. */
  function ByRuns(lens: seq<nat>, n: nat): (items: seq<Item>)
    decreases |lens| - n
  {
    if n >= |lens| then [] else RunItems(lens[n], RunAt(lens, n)) + ByRuns(lens, n + RunAt(lens, n))
  }

  lemma {:induction false} RunsFrom(lens: seq<nat>, n: nat, prev: int)
    requires LensFit(lens) && n <= |lens| && (n < |lens| ==> prev != lens[n])
    ensures Runs(lens, n, prev, 0) == ByRuns(lens, n)
    decreases |lens| - n
  {
    hide RunItems, Runs, Chunks;
    if n < |lens| {
      var v, r := lens[n], RunAt(lens, n);
      RunAtIs(lens, n);
      RunChunks(lens, n, r, v, prev, 0);
      RunCoded(v, prev, r);
      RunsFrom(lens, n + r, v);
    } else {
      RunsEnd(lens, n, prev, 0);
    }
  }

  lemma {:induction false} RunCoded(v: nat, prev: int, r: nat)
    requires prev != v
    ensures Chunks(v, prev, r) == RunItems(v, r)
  {
    if v == 0 { ZeroChunks(prev, r); } else { FirstChunks(v, prev, r); }
  }

  /** The coding is that of its runs, each as short as the repeat symbols allow. */
  lemma {:induction false} ItemsAreRuns(lens: seq<nat>)
    requires LensFit(lens)
    ensures Items(lens) == ByRuns(lens, 0)
  {
    RunsFrom(lens, 0, -1);
  }
}
