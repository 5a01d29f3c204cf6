/** The run-length coding of the code lengths: scan_tree and send_tree of trees.c, and the repeats
    undone in the CODELENS state of inflate.c (section 3.2.7 of RFC 1951). */
module RunLength {
  import opened Wrappers

  /** A symbol of the code length alphabet and the value of its extra bits. */
  datatype Item = Item(code: nat, extra: nat)

  const REP_3_6: nat := 16
  const REPZ_3_10: nat := 17
  const REPZ_11_138: nat := 18

  /** What the guard behind the last length is set to. */
  const GUARD: nat := 0xffff

  /** Width of the extra bits of a code length symbol. */
  function ItemExtra(code: nat): (r: nat)
  {
    if code == REP_3_6 then 2 else if code == REPZ_3_10 then 3 else if code == REPZ_11_138 then 7 else 0
  }

  /** The extra bits fit their field. */
  predicate ItemOk(it: Item)
  {
    it.code <= 18 && (it.extra < if it.code == REP_3_6 then 4 else if it.code == REPZ_3_10 then 8
      else if it.code == REPZ_11_138 then 128 else 1)
  }

  function Fill(v: nat, n: nat): (s: seq<nat>)
    ensures |s| == n && forall i :: 0 <= i < n ==> s[i] == v
  {
    seq(n, _ => v)
  }

  // ------------------------------------------------------------------ decoding

  /** One symbol read by the decoder that has the lengths got of total lengths; None is a format error. */
  function Apply(got: seq<nat>, total: nat, it: Item): (r: Option<seq<nat>>)
  {
    if it.code < 16 then Some(got + [it.code])
    else if it.code == REP_3_6 && got == [] then None
    else
      var len := if it.code == REP_3_6 then got[|got| - 1] else 0;
      var copy := (if it.code == REPZ_11_138 then 11 else 3) + it.extra;
      if |got| + copy > total then None else Some(got + Fill(len, copy))
  }

  function Decode(got: seq<nat>, total: nat, items: seq<Item>): (r: Option<seq<nat>>)
    decreases |items|
  {
    if items == [] then Some(got)
    else
      match Apply(got, total, items[0])
      case None => None
      case Some(more) => Decode(more, total, items[1..])
  }

  lemma {:induction false} DecodeConcat(got: seq<nat>, total: nat, a: seq<Item>, b: seq<Item>, mid: seq<nat>)
    requires Decode(got, total, a) == Some(mid)
    ensures Decode(got, total, a + b) == Decode(mid, total, b)
    decreases |a|
  {
    hide Apply;
    if a == [] {
      assert a + b == b;
    } else {
      assert (a + b)[0] == a[0] && (a + b)[1..] == a[1..] + b;
      DecodeConcat(Apply(got, total, a[0]).value, total, a[1..], b, mid);
    }
  }

  // ------------------------------------------------------------------ encoding

  /** Longest and shortest run of the length cur that is coded as a repeat; prev is the length before it. */
  function MaxCount(cur: nat, prev: int): (r: nat)
  {
    if cur == 0 then 138 else if cur == prev then 6 else 7
  }

  function MinCount(cur: nat, prev: int): (r: nat)
  {
    if cur == 0 || cur == prev then 3 else 4
  }

  function Copies(v: nat, n: nat): (s: seq<Item>)
    ensures |s| == n && forall i :: 0 <= i < n ==> s[i] == Item(v, 0)
  {
    seq(n, _ => Item(v, 0))
  }

  /** The symbols for a run of count lengths cur. */
  function Emit(cur: nat, prev: int, count: nat): (r: seq<Item>)
    requires 1 <= count
  {
    if count < MinCount(cur, prev) then Copies(cur, count)
    else if cur != 0 then
      if cur != prev then [Item(cur, 0), Item(REP_3_6, count - 4)] else [Item(REP_3_6, count - 3)]
    else if count <= 10 then [Item(REPZ_3_10, count - 3)]
    else if count <= 138 then [Item(REPZ_11_138, count - 11)]
    else []
  }

  function NextLen(lens: seq<nat>, n: nat): (r: nat)
    requires n < |lens|
  {
    if n + 1 < |lens| then lens[n + 1] else GUARD
  }

  /** The symbols still to be sent when the lengths below n are done but for count equal ones. */
  function Runs(lens: seq<nat>, n: nat, prev: int, count: nat): (r: seq<Item>)
    decreases |lens| - n
  {
    if n >= |lens| then []
    else if count + 1 < MaxCount(lens[n], prev) && lens[n] == NextLen(lens, n) then Runs(lens, n + 1, prev, count + 1)
    else Emit(lens[n], prev, count + 1) + Runs(lens, n + 1, lens[n], 0)
  }

  /** The run-length coding of a list of lengths. */
  function Items(lens: seq<nat>): (r: seq<Item>)
  {
    Runs(lens, 0, -1, 0)
  }

  ghost predicate LensFit(lens: seq<nat>)
  {
    forall i :: 0 <= i < |lens| ==> lens[i] <= 15
  }

  /** prev is the length before position p, or nothing was sent yet. */
  ghost predicate PrevIs(lens: seq<nat>, p: nat, prev: int)
  {
    p <= |lens| && (prev == -1 || (p > 0 && prev == lens[p - 1]))
  }

  /** A run in progress: the count lengths before n equal the one at n, and another repeat still fits. */
  ghost predicate InRun(lens: seq<nat>, n: nat, prev: int, count: nat)
  {
    && count <= n <= |lens| && PrevIs(lens, n - count, prev) && (count > 0 ==> n < |lens|)
    && (n < |lens| ==> count < MaxCount(lens[n], prev) && forall i :: n - count <= i < n ==> lens[i] == lens[n])
  }

  lemma {:induction false} InRunStep(lens: seq<nat>, n: nat, prev: int, count: nat)
    requires LensFit(lens) && InRun(lens, n, prev, count) && n < |lens|
    ensures count + 1 < MaxCount(lens[n], prev) && lens[n] == NextLen(lens, n) ==> InRun(lens, n + 1, prev, count + 1)
    ensures InRun(lens, n + 1, lens[n], 0)
  {
  }

  lemma {:induction false} DecodeFill(got: seq<nat>, total: nat, v: nat, n: nat)
    requires v < 16
    ensures Decode(got, total, Copies(v, n)) == Some(got + Fill(v, n))
    decreases n
  {
    var s := Copies(v, n);
    if n == 0 {
      assert got + Fill(v, 0) == got;
    } else {
      assert s[1..] == Copies(v, n - 1);
      DecodeFill(got + [v], total, v, n - 1);
      assert got + [v] + Fill(v, n - 1) == got + Fill(v, n);
    }
  }

  lemma {:induction false} DecodeOne(got: seq<nat>, total: nat, it: Item)
    ensures Decode(got, total, [it]) == Apply(got, total, it)
  {
    assert [it][1..] == [];
  }

  /** One run is decoded to its lengths. */
  lemma {:induction false} DecodeEmit(got: seq<nat>, total: nat, cur: nat, prev: int, count: nat)
    requires cur <= 15 && 1 <= count <= MaxCount(cur, prev) && |got| + count <= total
    requires prev == -1 || (got != [] && got[|got| - 1] == prev)
    ensures Decode(got, total, Emit(cur, prev, count)) == Some(got + Fill(cur, count))
    ensures forall i :: 0 <= i < |Emit(cur, prev, count)| ==> ItemOk(Emit(cur, prev, count)[i])
  {
    hide Decode;
    if count < MinCount(cur, prev) {
      DecodeFill(got, total, cur, count);
    } else if cur != 0 && cur != prev {
      var a, b := Item(cur, 0), Item(REP_3_6, count - 4);
      DecodeOne(got, total, a);
      DecodeConcat(got, total, [a], [b], got + [cur]);
      assert [a] + [b] == [a, b];
      DecodeOne(got + [cur], total, b);
      assert got + [cur] + Fill(cur, count - 1) == got + Fill(cur, count);
    } else {
      DecodeOne(got, total, Emit(cur, prev, count)[0]);
    }
  }

  /** The rest of the symbols is decoded to the rest of the lengths. */
  lemma {:induction false} DecodeRuns(base: seq<nat>, total: nat, lens: seq<nat>, n: nat, prev: int, count: nat)
    requires LensFit(lens) && InRun(lens, n, prev, count) && |base| + |lens| <= total
    ensures Decode(base + lens[..n - count], total, Runs(lens, n, prev, count)) == Some(base + lens)
    ensures forall i :: 0 <= i < |Runs(lens, n, prev, count)| ==> ItemOk(Runs(lens, n, prev, count)[i])
    decreases |lens| - n
  {
    hide Decode, Emit;
    var got := base + lens[..n - count];
    if n == |lens| {
      assert lens[..n] == lens;
      DecodeNone(got, total);
    } else {
      InRunStep(lens, n, prev, count);
      if count + 1 < MaxCount(lens[n], prev) && lens[n] == NextLen(lens, n) {
        DecodeRuns(base, total, lens, n + 1, prev, count + 1);
      } else {
        DecodeEmit(got, total, lens[n], prev, count + 1);
        assert got + Fill(lens[n], count + 1) == base + lens[..n + 1];
        DecodeConcat(got, total, Emit(lens[n], prev, count + 1), Runs(lens, n + 1, lens[n], 0), base + lens[..n + 1]);
        DecodeRuns(base, total, lens, n + 1, lens[n], 0);
      }
    }
  }

  lemma {:induction false} DecodeNone(got: seq<nat>, total: nat)
    ensures Decode(got, total, []) == Some(got)
  {
  }

  /** The round trip: behind the lengths already read, the decoder gets back exactly the lengths that were
      coded, and every repeat count fits its field. */
  lemma {:induction false} RoundTrip(base: seq<nat>, lens: seq<nat>, total: nat)
    requires LensFit(lens) && |base| + |lens| <= total
    ensures Decode(base, total, Items(lens)) == Some(base + lens)
    ensures forall i :: 0 <= i < |Items(lens)| ==> ItemOk(Items(lens)[i])
  {
    assert base + lens[..0] == base;
    DecodeRuns(base, total, lens, 0, -1, 0);
  }

  /** Both trees, one after the other, in one array of lengths. */
  lemma {:induction false} RoundTripTwo(ll: seq<nat>, dl: seq<nat>)
    requires LensFit(ll) && LensFit(dl)
    ensures Decode([], |ll| + |dl|, Items(ll) + Items(dl)) == Some(ll + dl)
  {
    RoundTrip([], ll, |ll| + |dl|);
    RoundTrip(ll, dl, |ll| + |dl|);
    assert [] + ll == ll;
    DecodeConcat([], |ll| + |dl|, Items(ll), Items(dl), ll);
  }

  // ------------------------------------------------------------------ scan_tree

  /** How often a symbol occurs. */
  function Occurs(items: seq<Item>, code: nat): (r: nat)
  {
    if items == [] then 0 else Occurs(items[..|items| - 1], code) + if items[|items| - 1].code == code then 1 else 0
  }

  lemma {:induction false} OccursConcat(a: seq<Item>, b: seq<Item>, code: nat)
    ensures Occurs(a + b, code) == Occurs(a, code) + Occurs(b, code)
    decreases |b|
  {
    if b == [] {
      assert a + b == a;
    } else {
      assert (a + b)[..|a + b| - 1] == a + b[..|b| - 1];
      OccursConcat(a, b[..|b| - 1], code);
    }
  }

  lemma {:induction false} OccursFill(v: nat, n: nat, code: nat)
    ensures Occurs(Copies(v, n), code) == if code == v then n else 0
  {
    if n > 0 {
      var s := Copies(v, n);
      assert s[..n - 1] == Copies(v, n - 1);
      OccursFill(v, n - 1, code);
    }
  }

  lemma {:induction false} OccursOne(it: Item, code: nat)
    ensures Occurs([it], code) == if it.code == code then 1 else 0
  {
    assert [it][..0] == [];
  }

  lemma {:induction false} OccursTwo(a: Item, b: Item, code: nat)
    ensures Occurs([a, b], code) == (if a.code == code then 1 else 0) + if b.code == code then 1 else 0
  {
    OccursConcat([a], [b], code);
    assert [a] + [b] == [a, b];
    OccursOne(a, code);
    OccursOne(b, code);
  }

  /** freq has grown by the number of occurrences in items. */
  ghost predicate Counted(before: seq<nat>, freq: seq<nat>, items: seq<Item>)
  {
    |freq| == |before| && forall c: nat :: c < |freq| ==> freq[c] == before[c] + Occurs(items, c)
  }

  lemma {:induction false} CountedMore(before: seq<nat>, freq: seq<nat>, items: seq<Item>, more: seq<Item>,
      freq': seq<nat>)
    requires Counted(before, freq, items) && Counted(freq, freq', more)
    ensures Counted(before, freq', items + more)
  {
    hide Occurs;
    forall c: nat | c < |freq'| ensures freq'[c] == before[c] +
      Occurs(items + more, c) { OccursConcat(items, more, c); }
  }

  lemma {:induction false} CountedNone(freq: seq<nat>)
    ensures Counted(freq, freq, [])
  {
  }

  /** The counting done for one run. */
  method CountRun(blFreq: array<nat>, curlen: nat, prevlen: int, count: nat)
    requires blFreq.Length >= 19 && curlen <= 15 && 1 <= count <= MaxCount(curlen, prevlen)
    modifies blFreq
    ensures Counted(old(blFreq[..]), blFreq[..], Emit(curlen, prevlen, count))
  {
    hide Occurs;
    forall c: nat ensures Occurs(Copies(curlen, count), c) == if curlen == c then count else 0 {
      OccursFill(curlen, count, c);
    }
    forall a: Item, c: nat ensures Occurs([a], c) == if a.code == c then 1 else 0 { OccursOne(a, c); }
    forall a: Item, b: Item, c: nat
      ensures Occurs([a, b], c) == (if a.code == c then 1 else 0) + if b.code == c then 1 else 0 { OccursTwo(a, b, c); }
    if count < MinCount(curlen, prevlen) {
      blFreq[curlen] := blFreq[curlen] + count;
    } else if curlen != 0 {
      if curlen != prevlen { blFreq[curlen] := blFreq[curlen] + 1; }
      blFreq[REP_3_6] := blFreq[REP_3_6] + 1;
    } else if count <= 10 {
      blFreq[REPZ_3_10] := blFreq[REPZ_3_10] + 1;
    } else {
      blFreq[REPZ_11_138] := blFreq[REPZ_11_138] + 1;
    }
  }

  /** Sets the guard behind the lengths and adds the number of times send_tree will send each symbol. */
  method ScanTree(dl: array<nat>, maxCode: nat, blFreq: array<nat>)
    requires dl != blFreq && maxCode + 1 < dl.Length && blFreq.Length >= 19 && LensFit(dl[..maxCode + 1])
    modifies dl, blFreq
    ensures dl[..] == old(dl[..])[maxCode + 1 := GUARD]
    ensures Counted(old(blFreq[..]), blFreq[..], Items(old(dl[..maxCode + 1])))
  {
    hide Runs, Emit, Counted, InRun;
    ghost var lens: seq<nat> := dl[..maxCode + 1];
    var prevlen: int, nextlen: nat, count: nat := -1, dl[0], 0;
    var maxCount: nat, minCount: nat := 7, 4;
    if nextlen == 0 { maxCount, minCount := 138, 3; }
    dl[maxCode + 1] := GUARD;
    StartRun(lens);
    CountedNone(blFreq[..]);
    ghost var done: seq<Item> := [];
    for n := 0 to maxCode + 1
      invariant dl[..] == old(dl[..])[maxCode + 1 := GUARD] && nextlen == dl[n] && InRun(lens, n, prevlen, count)
      invariant n <= maxCode ==> maxCount == MaxCount(nextlen, prevlen) && minCount == MinCount(nextlen, prevlen)
      invariant Items(lens) == done + Runs(lens, n, prevlen, count)
      invariant Counted(old(blFreq[..]), blFreq[..], done)
    {
      var curlen := nextlen;
      nextlen := dl[n + 1];
      assert curlen == lens[n] && nextlen == NextLen(lens, n);
      InRunRange(lens, n, prevlen, count);
      InRunStep(lens, n, prevlen, count);
      RunsStep(lens, n, prevlen, count);
      count := count + 1;
      if !(count < maxCount && curlen == nextlen) {
        ghost var before: seq<nat> := blFreq[..];
        CountRun(blFreq, curlen, prevlen, count);
        CountedMore(old(blFreq[..]), before, done, Emit(curlen, prevlen, count), blFreq[..]);
        done := done + Emit(curlen, prevlen, count);
        count, prevlen := 0, curlen;
        if nextlen == 0 { maxCount, minCount := 138, 3; }
        else if curlen == nextlen { maxCount, minCount := 6, 3; }
        else { maxCount, minCount := 7, 4; }
      }
    }
    RunsEnd(lens, maxCode + 1, prevlen, count);
    assert done + [] == done;
  }

  lemma {:induction false} RunsStep(lens: seq<nat>, n: nat, prev: int, count: nat)
    requires n < |lens|
    ensures Runs(lens, n, prev, count)
         == if count + 1 < MaxCount(lens[n], prev) && lens[n] == NextLen(lens, n)
           then Runs(lens, n + 1, prev, count + 1)
            else Emit(lens[n], prev, count + 1) + Runs(lens, n + 1, lens[n], 0)
  {
  }

  lemma {:induction false} RunsEnd(lens: seq<nat>, n: nat, prev: int, count: nat)
    requires n >= |lens|
    ensures Runs(lens, n, prev, count) == []
  {
  }

  lemma {:induction false} StartRun(lens: seq<nat>)
    requires LensFit(lens)
    ensures InRun(lens, 0, -1, 0) && Items(lens) == [] + Runs(lens, 0, -1, 0)
  {
  }

  lemma {:induction false} InRunRange(lens: seq<nat>, n: nat, prev: int, count: nat)
    requires InRun(lens, n, prev, count) && n < |lens|
    ensures count < MaxCount(lens[n], prev)
  {
  }
}
