/** inflate_table: building the two-level decoding tables of inftrees.c.

    The loop works on bit-reversed codes that are incremented backwards.  The
    proof follows the same loop in the unreversed order: after k symbols, every
    15-bit number below P (where the codes handed out so far end) already
    decodes to the symbol that owns it. */
module InflateTable {
  import opened Bits
  import opened Canonical
  import opened TableSpace

  /** One table entry: op says what val means, bits is the part of the code it accounts for. */
  datatype Entry = Entry(op: nat, bits: nat, val: nat)

  datatype Kind = CODES | LENS | DISTS

  const LBASE: seq<nat> := [3, 4, 5, 6, 7, 8, 9, 10, 11, 13, 15, 17, 19, 23, 27, 31,
                            35, 43, 51, 59, 67, 83, 99, 115, 131, 163, 195, 227, 258, 0, 0]
  const LEXT: seq<nat> := [16, 16, 16, 16, 16, 16, 16, 16, 17, 17, 17, 17, 18, 18, 18, 18,
                           19, 19, 19, 19, 20, 20, 20, 20, 21, 21, 21, 21, 16, 72, 78]
  const DBASE: seq<nat> := [1, 2, 3, 4, 5, 7, 9, 13, 17, 25, 33, 49, 65, 97, 129, 193,
                            257, 385, 513, 769, 1025, 1537, 2049, 3073, 4097, 6145,
                            8193, 12289, 16385, 24577, 0, 0]
  const DEXT: seq<nat> := [16, 16, 16, 16, 17, 17, 18, 18, 19, 19, 20, 20, 21, 21, 22, 22,
                           23, 23, 24, 24, 25, 25, 26, 26, 27, 27,
                           28, 28, 29, 29, 64, 64]

  const ENOUGH_LENS: nat := 852
  const ENOUGH_DISTS: nat := 592

  const INVALID: Entry := Entry(64, 1, 0)

  /** Most symbols a code of each kind can have. */
  function MaxSymbols(kind: Kind): (r: nat)
  {
    match kind case CODES => 19 case LENS => 288 case DISTS => 32
  }

  /** What a symbol decodes to when its code takes the given number of bits. */
  function SymEntry(kind: Kind, s: nat, bits: nat): (e: Entry)
    requires s < MaxSymbols(kind)
    ensures !IsLink(e) && e.bits == bits
  {
    match kind
    case CODES => Entry(0, bits, s)
    case LENS =>
      if s < 256 then Entry(0, bits, s)
      else if s > 256 then Entry(LEXT[s - 257], bits, LBASE[s - 257])
      else Entry(32 + 64, bits, 0)
    case DISTS => Entry(DEXT[s], bits, DBASE[s])
  }

  /** An entry of the root table that leads to a sub-table of 2^op entries at val. */
  predicate IsLink(e: Entry)
  {
    e.op != 0 && e.op < 16
  }

  /** Decoding the stream bits w (least significant first) with table t: at most two lookups. */
  ghost predicate Reads(t: seq<Entry>, root: nat, w: nat, e: Entry)
  {
    var i := w % Pow2(root);
    i < |t| &&
    if IsLink(t[i]) then
      var j := t[i].val + Shr(w % Pow2(t[i].bits + t[i].op), t[i].bits);
      t[i].bits == root && root + t[i].op <= MAX_BITS && j < |t| &&
      e == Entry(t[j].op, t[i].bits + t[j].bits, t[j].val)
    else
      e == t[i]
  }

  /** The table decodes every code to its symbol and everything else to the invalid marker. */
  ghost predicate TableCorrect(t: seq<Entry>, root: nat, kind: Kind, lens: seq<nat>)
  {
    && 1 <= root <= MAX_BITS && |lens| <= MaxSymbols(kind)
    && (forall s: nat, w: nat :: w < Pow2(MAX_BITS) && Owns(lens, s, Rev(w, MAX_BITS)) ==>
                                   Reads(t, root, w, SymEntry(kind, s, lens[s])))
    && (forall w: nat :: w < Pow2(MAX_BITS) && !Owned(lens, Rev(w, MAX_BITS)) ==> Reads(t, root, w, INVALID))
  }

  ghost predicate Owned(lens: seq<nat>, r: nat)
  {
    exists s: nat :: Owns(lens, s, r)
  }

  // ------------------------------------------------------------------ counting and sorting

  /** Where the symbols of length l start in the sorted order. */
  function First(lens: seq<nat>, l: nat): (r: nat)
  {
    if l <= 1 then 0 else First(lens, l - 1) + Count(lens, l - 1)
  }

  function FirstTo(lens: seq<nat>, l: nat, n: nat): (r: nat)
    requires n <= |lens|
  {
    if l <= 1 then 0 else FirstTo(lens, l - 1, n) + CountTo(lens, l - 1, n)
  }

  lemma {:induction false} FirstToStep(lens: seq<nat>, l: nat, n: nat)
    requires n < |lens|
    ensures FirstTo(lens, l, n + 1) == FirstTo(lens, l, n) + if 0 < lens[n] < l then 1 else 0
  {
    if l > 1 { FirstToStep(lens, l - 1, n); }
  }

  lemma {:induction false} FirstToBound(lens: seq<nat>, l: nat, n: nat)
    requires n <= |lens|
    ensures FirstTo(lens, l, n) <= n
  {
    if n == 0 {
      FirstToEmpty(lens, l);
    } else {
      FirstToBound(lens, l, n - 1);
      FirstToStep(lens, l, n - 1);
    }
  }

  lemma {:induction false} FirstToEmpty(lens: seq<nat>, l: nat)
    ensures FirstTo(lens, l, 0) == 0
  {
    if l > 1 { FirstToEmpty(lens, l - 1); }
  }

  lemma {:induction false} FirstIsFirstTo(lens: seq<nat>, l: nat)
    ensures First(lens, l) == FirstTo(lens, l, |lens|) <= |lens|
  {
    FirstToBound(lens, l, |lens|);
    if l > 1 { FirstIsFirstTo(lens, l - 1); }
  }

  lemma {:induction false} FirstMono(lens: seq<nat>, l: nat, m: nat)
    requires 0 < l < m
    ensures First(lens, l) + Count(lens, l) <= First(lens, m)
  {
    if l < m - 1 { FirstMono(lens, l, m - 1); }
  }

  /** The k-th symbol of length l sits at First(l) + k. */
  ghost predicate NthAt(lens: seq<nat>, work: seq<nat>, l: nat, k: nat)
  {
    var i := First(lens, l) + k;
    i < |work| && work[i] < |lens| && lens[work[i]] == l && CountTo(lens, l, work[i]) == k
  }

  ghost predicate SortedTo(lens: seq<nat>, work: seq<nat>, n: nat)
    requires n <= |lens|
  {
    forall l: nat, k: nat {:trigger NthAt(lens, work, l, k)} ::
      1 <= l <= MAX_BITS && k < CountTo(lens, l, n) ==> NthAt(lens, work, l, k)
  }

  lemma {:induction false} NoneCounted(lens: seq<nat>)
    ensures forall l: nat :: CountTo(lens, l, 0) == 0
  {
  }

  lemma {:induction false} CountOne(lens: seq<nat>, n: nat)
    requires n < |lens|
    ensures forall l: nat :: CountTo(lens, l, n + 1) == CountTo(lens, l, n) + if lens[n] == l then 1 else 0
  {
  }

  method CountLengths(lens: seq<nat>) returns (count: array<nat>)
    requires LensOk(lens)
    ensures fresh(count) && count.Length == MAX_BITS + 1
    ensures forall l: nat :: l <= MAX_BITS ==> count[l] == Count(lens, l)
  {
    hide CountTo;
    count := new nat[MAX_BITS + 1](_ => 0);
    NoneCounted(lens);
    for sym := 0 to |lens|
      invariant forall l: nat :: l <= MAX_BITS ==> count[l] == CountTo(lens, l, sym)
    {
      CountOne(lens, sym);
      count[lens[sym]] := count[lens[sym]] + 1;
    }
  }

  lemma {:induction false} FirstSteps(lens: seq<nat>, l: nat)
    ensures First(lens, l + 1) == First(lens, l) + Used(lens, l)
    ensures First(lens, 1) == 0
  {
  }

  method StartOffsets(lens: seq<nat>, count: array<nat>) returns (offs: array<nat>)
    requires count.Length == MAX_BITS + 1
    requires forall l: nat :: l <= MAX_BITS ==> count[l] == Count(lens, l)
    ensures fresh(offs) && offs.Length == MAX_BITS + 1
    ensures forall l: nat :: 1 <= l <= MAX_BITS ==> offs[l] == First(lens, l)
  {
    hide CountTo, First;
    offs := new nat[MAX_BITS + 1](_ => 0);
    FirstSteps(lens, 0);
    for len := 1 to MAX_BITS
      invariant forall l: nat :: 1 <= l <= len ==> offs[l] == First(lens, l)
    {
      FirstSteps(lens, len);
      offs[len + 1] := offs[len] + count[len];
    }
  }

  method SortSymbols(lens: seq<nat>, count: array<nat>, work: array<nat>)
    requires LensOk(lens) && |lens| <= work.Length && count != work
    requires count.Length == MAX_BITS + 1
    requires forall l: nat :: l <= MAX_BITS ==> count[l] == Count(lens, l)
    modifies work
    ensures SortedTo(lens, work[..], |lens|)
  {
    hide *;
    var offs := StartOffsets(lens, count);
    PlaceSymbols(lens, offs, work);
  }

  method PlaceSymbols(lens: seq<nat>, offs: array<nat>, work: array<nat>)
    requires LensOk(lens) && |lens| <= work.Length && offs != work
    requires offs.Length == MAX_BITS + 1
    requires forall l: nat :: 1 <= l <= MAX_BITS ==> offs[l] == First(lens, l)
    modifies work, offs
    ensures SortedTo(lens, work[..], |lens|)
  {
    hide First, CountTo, NthAt, SortedTo;
    NoneCounted(lens);
    SortedNone(lens, work[..]);
    for sym := 0 to |lens|
      invariant forall l: nat :: 1 <= l <= MAX_BITS ==> offs[l] == First(lens, l) + CountTo(lens, l, sym)
      invariant SortedTo(lens, work[..], sym)
    {
      var l := lens[sym];
      CountOne(lens, sym);
      if l != 0 {
        SlotBound(lens, sym);
        ghost var before := work[..];
        work[offs[l]] := sym;
        assert work[..] == before[offs[l] := sym];
        SortStep(lens, before, work[..], sym);
        offs[l] := offs[l] + 1;
      } else {
        SkipUnused(lens, work[..], sym);
      }
    }
  }

  lemma {:induction false} SortedNone(lens: seq<nat>, work: seq<nat>)
    ensures SortedTo(lens, work, 0)
  {
  }

  lemma {:induction false} SkipUnused(lens: seq<nat>, work: seq<nat>, sym: nat)
    requires sym < |lens| && lens[sym] == 0 && SortedTo(lens, work, sym)
    ensures SortedTo(lens, work, sym + 1)
  {
    forall l: nat, k: nat | 1 <= l <= MAX_BITS && k < CountTo(lens, l, sym + 1)
      ensures NthAt(lens, work, l, k)
    {
      assert k < CountTo(lens, l, sym);
    }
  }

  lemma {:induction false} SlotBound(lens: seq<nat>, sym: nat)
    requires LensOk(lens) && sym < |lens| && lens[sym] != 0
    ensures First(lens, lens[sym]) + CountTo(lens, lens[sym], sym) < |lens|
  {
    CountToMono(lens, lens[sym], sym, |lens|);
    FirstIsFirstTo(lens, lens[sym] + 1);
  }

  lemma {:induction false} SortStep(lens: seq<nat>, before: seq<nat>, after: seq<nat>, sym: nat)
    requires LensOk(lens) && sym < |lens| && lens[sym] != 0
    requires First(lens, lens[sym]) + CountTo(lens, lens[sym], sym) < |before|
    requires SortedTo(lens, before, sym)
    requires after == before[First(lens, lens[sym]) + CountTo(lens, lens[sym], sym) := sym]
    ensures SortedTo(lens, after, sym + 1)
  {
    forall l: nat, k: nat | 1 <= l <= MAX_BITS && k < CountTo(lens, l, sym + 1)
      ensures NthAt(lens, after, l, k)
    {
      if k == CountTo(lens, l, sym) {
        assert l == lens[sym];
      } else {
        assert NthAt(lens, before, l, k);
        CountToMono(lens, l, sym, |lens|);
        CountToMono(lens, lens[sym], sym, |lens|);
        if l < lens[sym] { FirstMono(lens, l, lens[sym]); }
        if lens[sym] < l { FirstMono(lens, lens[sym], l); }
      }
    }
  }

  // ------------------------------------------------------------------ the table in code order

  /** The root index of the 15-bit number r. */
  function RootIdx(root: nat, r: nat): (v: nat)
    requires root <= MAX_BITS
  {
    Rev(Shr(r, MAX_BITS - root), root)
  }

  /** Its index in a sub-table of 2^op entries. */
  function SubIdx(root: nat, op: nat, r: nat): (v: nat)
    requires root + op <= MAX_BITS
  {
    Rev(Shr(r % Unit(root), MAX_BITS - root - op), op)
  }

  /** Reads, with the stream bits turned around; end bounds the part of t that may be consulted. */
  ghost predicate ReadsAt(t: seq<Entry>, root: nat, end: nat, r: nat, e: Entry)
    requires root <= MAX_BITS
  {
    var i := RootIdx(root, r);
    i < end <= |t| &&
    if IsLink(t[i]) then
      root + t[i].op <= MAX_BITS && t[i].bits == root &&
      var j := t[i].val + SubIdx(root, t[i].op, r);
      j < end && e == Entry(t[j].op, root + t[j].bits, t[j].val)
    else
      e == t[i]
  }

  lemma {:induction false} RootIdxIs(root: nat, w: nat)
    requires root <= MAX_BITS && w < Pow2(MAX_BITS)
    ensures RootIdx(root, Rev(w, MAX_BITS)) == w % Pow2(root)
  {
    hide Pow2, Rev;
    RevParts(w, root, MAX_BITS - root);
    RevMod(w, root);
    DivModIdentity(w, Pow2(root));
    RevInvolution(w % Pow2(root), root);
  }

  lemma {:induction false} SubIdxIs(root: nat, op: nat, w: nat)
    requires root + op <= MAX_BITS && w < Pow2(MAX_BITS)
    ensures SubIdx(root, op, Rev(w, MAX_BITS)) == Shr(w % Pow2(root + op), root)
  {
    hide Pow2, Rev;
    var r, u := Rev(w, MAX_BITS), Shr(w, root);
    RevParts(w, root, MAX_BITS - root);
    assert r % Unit(root) == Rev(u, MAX_BITS - root);
    RevParts(u, op, MAX_BITS - root - op);
    assert SubIdx(root, op, r) == Rev(Rev(u, op), op);
    RevMod(u, op);
    DivModIdentity(u, Pow2(op));
    RevInvolution(u % Pow2(op), op);
    // (w mod 2^(root+op)) / 2^root == (w / 2^root) mod 2^op
    DivDiv(w, Pow2(root), Pow2(op));
    Pow2Add(root, op);
    DivModIdentity(w, Pow2(root));
    DivMod(u % Pow2(op), Pow2(root), w % Pow2(root));
  }

  lemma {:induction false} ReadsTurned(t: seq<Entry>, root: nat, end: nat, w: nat, e: Entry)
    requires root <= MAX_BITS && w < Pow2(MAX_BITS) && end <= |t|
    requires ReadsAt(t, root, end, Rev(w, MAX_BITS), e)
    ensures Reads(t[..end], root, w, e)
  {
    hide Pow2, Rev;
    RootIdxIs(root, w);
    var x := t[w % Pow2(root)];
    if IsLink(x) { SubIdxIs(root, x.op, w); }
  }

  // ------------------------------------------------------------------ one step of the main loop

  /** What stays fixed during the main loop. */
  datatype Ctx = Ctx(kind: Kind, lens: seq<nat>, root: nat)

  ghost predicate CtxOk(x: Ctx)
  {
    Valid(x.lens) && |x.lens| <= MaxSymbols(x.kind) && 1 <= x.root <= MAX_BITS
  }

  /** The table being filled starts at next and has 2^curr entries; when sub holds it is the
      sub-table for the root prefix q, otherwise it is the root table itself. */
  datatype Target = Target(next: nat, curr: nat, sub: bool, q: nat)

  function End2(g: Target): (r: nat)
  {
    g.next + Pow2(g.curr)
  }

  ghost predicate TargetOk(x: Ctx, t: seq<Entry>, g: Target)
    requires CtxOk(x)
  {
    && End2(g) <= |t|
    && (if g.sub then
          && 1 <= g.curr && x.root + g.curr <= MAX_BITS && Pow2(x.root) <= g.next && g.q < Pow2(x.root)
          && Rev(g.q, x.root) < |t| && t[Rev(g.q, x.root)] == Entry(g.curr, x.root, g.next)
        else g.next == 0 && g.curr == x.root)
  }

  /** Links lead to finished sub-tables below the one being filled, or to that one. */
  ghost predicate LinkOk(x: Ctx, t: seq<Entry>, g: Target, r: nat)
    requires CtxOk(x)
  {
    var i := RootIdx(x.root, r);
    i < Pow2(x.root) && i < |t| &&
    (IsLink(t[i]) ==>
       && g.sub && t[i].bits == x.root && x.root + t[i].op <= MAX_BITS && Pow2(x.root) <= t[i].val
       && (Shr(r, MAX_BITS - x.root) != g.q ==> t[i].val + Pow2(t[i].op) <= g.next))
  }

  /** Every number below p decodes to its owner. */
  ghost predicate DoneTo(x: Ctx, t: seq<Entry>, g: Target, p: nat)
    requires CtxOk(x)
  {
    && (forall r: nat :: r < p ==> LinkOk(x, t, g, r))
    && (forall s: nat, r: nat :: r < p && Owns(x.lens, s, r) ==>
                                   ReadsAt(t, x.root, End2(g), r, SymEntry(x.kind, s, x.lens[s])))
  }

  /** t' is t with every index congruent to h modulo 2^l of the 2^curr entries from at set to e. */
  ghost predicate Filled(t: seq<Entry>, t': seq<Entry>, at: nat, curr: nat, l: nat, h: nat, e: Entry)
  {
    |t'| == |t| &&
    forall i: nat :: i < |t| ==>
                       t'[i] == if at <= i < at + Pow2(curr) && (i - at) % Pow2(l) == h then e else t[i]
  }

  /** In a table of n index bits, the low l index bits of r are its next l code bits. */
  lemma {:induction false} IdxLow(y: nat, n: nat, l: nat, h: nat)
    requires l <= n && h < Pow2(l) && Shr(y, n - l) < Pow2(l)
    ensures Rev(y, n) % Pow2(l) == h <==> Shr(y, n - l) == Rev(h, l)
  {
    RevParts(y, n - l, l);
    RevInvolution(h, l);
    RevInvolution(Shr(y, n - l), l);
  }

  lemma {:induction false} ShrShr(v: nat, a: nat, b: nat)
    ensures Shr(Shr(v, a), b) == Shr(v, a + b)
  {
    Pow2Add(a, b);
    DivDiv(v, Pow2(a), Pow2(b));
  }

  lemma {:induction false} ShrBound(v: nat, a: nat, b: nat)
    requires v < Pow2(a + b)
    ensures Shr(v, a) < Pow2(b)
  {
    Pow2Add(a, b);
    DivModIdentity(v, Pow2(a));
    if v / Pow2(a) >= Pow2(b) { MulMono(Pow2(b), v / Pow2(a), Pow2(a)); }
  }

  /** Filling the root table hits exactly the numbers that start with the len-bit code c. */
  lemma {:induction false} RootHit(root: nat, len: nat, c: nat, r: nat)
    requires len <= root <= MAX_BITS && c < Pow2(len) && r < Pow2(MAX_BITS)
    ensures RootIdx(root, r) < Pow2(root)
    ensures RootIdx(root, r) % Pow2(len) == Rev(c, len) <==> Shr(r, MAX_BITS - len) == c
  {
    hide Pow2, Rev;
    var y := Shr(r, MAX_BITS - root);
    RevBound(y, root);
    ShrShr(r, MAX_BITS - root, root - len);
    ShrBound(r, MAX_BITS - len, len);
    RevBound(c, len);
    IdxLow(y, root, len, Rev(c, len));
    RevInvolution(c, len);
  }

  /** Splitting a number at two places: the middle field. */
  lemma {:induction false} MiddleField(r: nat, root: nat, l: nat)
    requires root + l <= MAX_BITS && r < Pow2(MAX_BITS)
    ensures Shr(r % Unit(root), MAX_BITS - root - l) < Pow2(l)
    ensures Shr(r, MAX_BITS - root - l)
         == Shr(r, MAX_BITS - root) * Pow2(l) + Shr(r % Unit(root), MAX_BITS - root - l)
  {
    hide Pow2, Rev;
    var d := MAX_BITS - root - l;
    Pow2Add(l, d);
    DivModIdentity(r, Unit(root));
    var m := r % Unit(root);
    ShrBound(m, d, l);
    DivModIdentity(m, Pow2(d));
    MulAdd(Shr(r, MAX_BITS - root), Pow2(l), Shr(m, d), Pow2(d));
    DivModOf(r, Shr(r, MAX_BITS - root) * Pow2(l) + Shr(m, d), Pow2(d), m % Pow2(d));
  }

  /** Filling the sub-table for root prefix q hits exactly the numbers with that prefix that
      start with the code q * 2^l + c. */
  lemma {:induction false} SubHit(root: nat, curr: nat, l: nat, c: nat, r: nat)
    requires root + curr <= MAX_BITS && l <= curr && c < Pow2(l) && r < Pow2(MAX_BITS)
    ensures SubIdx(root, curr, r) < Pow2(curr)
    ensures SubIdx(root, curr, r) % Pow2(l) == Rev(c, l) <==>
            Shr(r, MAX_BITS - root - l) == Shr(r, MAX_BITS - root) * Pow2(l) + c
  {
    hide Pow2, Rev;
    var m := r % Unit(root);
    var y := Shr(m, MAX_BITS - root - curr);
    RevBound(y, curr);
    ShrShr(m, MAX_BITS - root - curr, curr - l);
    MiddleField(r, root, l);
    RevBound(c, l);
    IdxLow(y, curr, l, Rev(c, l));
    RevInvolution(c, l);
  }

  /** The code of the symbol being entered, and what is filled for it. */
  ghost predicate FillsFor(x: Ctx, g: Target, s: nat, l: nat, h: nat)
    requires CtxOk(x)
  {
    && s < |x.lens| && 0 < x.lens[s] && Code(x.lens, s) < Pow2(x.lens[s]) && l <= g.curr
    && (if g.sub then
          && x.lens[s] == x.root + l && g.q * Pow2(l) <= Code(x.lens, s) < (g.q + 1) * Pow2(l)
          && h == Rev(Code(x.lens, s) - g.q * Pow2(l), l)
        else
          x.lens[s] == l && h == Rev(Code(x.lens, s), l))
  }

  /** The numbers of a symbol's interval are those whose first len bits are its code. */
  lemma {:induction false} PrefixIs(r: nat, c: nat, len: nat)
    requires len <= MAX_BITS
    ensures Pos(c, len) <= r < Pos(c + 1, len) <==> Shr(r, MAX_BITS - len) == c
    ensures r < Pos(c, len) <==> Shr(r, MAX_BITS - len) < c
  {
    hide Pow2, Rev;
    var q := Shr(r, MAX_BITS - len);
    DivModIdentity(r, Unit(len));
    Distribute(q, 1, Unit(len));
    Distribute(c, 1, Unit(len));
    if q < c { MulMono(q + 1, c, Unit(len)); }
    if q > c { MulMono(c + 1, q, Unit(len)); }
  }

  lemma {:induction false} BelowTop(r: nat, c: nat, len: nat)
    requires len <= MAX_BITS && c < Pow2(len) && r < Pos(c + 1, len)
    ensures r < Pow2(MAX_BITS)
  {
    hide Pow2, Rev;
    Pow2Add(len, MAX_BITS - len);
    MulMono(c + 1, Pow2(len), Unit(len));
  }

  /** The entries consulted for r are the same in both tables. */
  ghost predicate SameAt(t: seq<Entry>, t': seq<Entry>, root: nat, r: nat)
    requires root <= MAX_BITS
  {
    var i := RootIdx(root, r);
    |t| == |t'| && i < |t| && t'[i] == t[i] &&
    (IsLink(t[i]) && root + t[i].op <= MAX_BITS ==>
       var j := t[i].val + SubIdx(root, t[i].op, r); j < |t| ==> t'[j] == t[j])
  }

  lemma {:induction false} Frame(t: seq<Entry>, t': seq<Entry>, root: nat, end: nat, end': nat, r: nat, e: Entry)
    requires root <= MAX_BITS && SameAt(t, t', root, r) && end <= end' <= |t|
    requires ReadsAt(t, root, end, r, e)
    ensures ReadsAt(t', root, end', r, e)
  {
  }

  lemma {:induction false} RootFillKeeps(x: Ctx, t: seq<Entry>, t': seq<Entry>, len: nat, c: nat, e: Entry, r: nat)
    requires CtxOk(x) && len <= x.root && c < Pow2(len) && Pow2(x.root) <= |t|
    requires Filled(t, t', 0, x.root, len, Rev(c, len), e)
    requires r < Pow2(MAX_BITS) && Shr(r, MAX_BITS - len) != c
    requires RootIdx(x.root, r) < |t| && !IsLink(t[RootIdx(x.root, r)])
    ensures SameAt(t, t', x.root, r)
  {
    hide Pow2, Rev, NextCode, CountTo, Left;
    RootHit(x.root, len, c, r);
  }

  lemma {:induction false} SubFillKeeps(x: Ctx, t: seq<Entry>, t': seq<Entry>, g: Target, l: nat, c: nat, e: Entry,
      r: nat)
    requires CtxOk(x) && TargetOk(x, t, g) && g.sub && l <= g.curr && c < Pow2(l)
    requires Filled(t, t', g.next, g.curr, l, Rev(c, l), e)
    requires r < Pow2(MAX_BITS) && LinkOk(x, t, g, r)
    requires Shr(r, MAX_BITS - x.root - l) != g.q * Pow2(l) + c
    ensures SameAt(t, t', x.root, r)
  {
    hide Pow2, Rev, NextCode, CountTo, Left;
    var i := RootIdx(x.root, r);
    var op := t[i].op;
    if IsLink(t[i]) {
      SubHit(x.root, op, 0, 0, r);
      if Shr(r, MAX_BITS - x.root) == g.q { SubHit(x.root, g.curr, l, c, r); }
    }
  }

  lemma {:induction false} LinkFrame(x: Ctx, t: seq<Entry>, t': seq<Entry>, g: Target, r: nat)
    requires CtxOk(x) && SameAt(t, t', x.root, r) && LinkOk(x, t, g, r)
    ensures LinkOk(x, t', g, r)
  {
  }

  /** Numbers below the current code keep decoding as before. */
  lemma {:induction false} FillKeeps(x: Ctx, t: seq<Entry>, t': seq<Entry>, g: Target, s: nat, l: nat, h: nat, r: nat)
    requires CtxOk(x) && TargetOk(x, t, g) && FillsFor(x, g, s, l, h)
    requires Filled(t, t', g.next, g.curr, l, h, SymEntry(x.kind, s, l))
    requires r < Lo(x.lens, s) && LinkOk(x, t, g, r)
    ensures SameAt(t, t', x.root, r)
  {
    hide Pow2, Rev, NextCode, CountTo, Left;
    var c, len := Code(x.lens, s), x.lens[s];
    assert Shr(r, MAX_BITS - len) < c by { PrefixIs(r, c, len); }
    assert r < Pow2(MAX_BITS) by {
      Distribute(c, 1, Unit(len));
      BelowTop(r, c, len);
    }
    if g.sub {
      var low := c - g.q * Pow2(l);
      assert low < Pow2(l) by { Distribute(g.q, 1, Pow2(l)); }
      SubFillKeeps(x, t, t', g, l, low, SymEntry(x.kind, s, l), r);
    } else {
      RootFillKeeps(x, t, t', len, c, SymEntry(x.kind, s, l), r);
    }
  }

  lemma {:induction false} RootFillDecodes(x: Ctx, t: seq<Entry>, t': seq<Entry>, len: nat, c: nat, e: Entry, r: nat)
    requires CtxOk(x) && len <= x.root && c < Pow2(len) && Pow2(x.root) <= |t|
    requires Filled(t, t', 0, x.root, len, Rev(c, len), e) && !IsLink(e)
    requires r < Pow2(MAX_BITS) && Shr(r, MAX_BITS - len) == c
    ensures ReadsAt(t', x.root, Pow2(x.root), r, e) && !IsLink(t'[RootIdx(x.root, r)])
  {
    hide Pow2, Rev, NextCode, CountTo, Left;
    RootHit(x.root, len, c, r);
  }

  lemma {:induction false} SubFillDecodes(x: Ctx, t: seq<Entry>, t': seq<Entry>, g: Target, l: nat, c: nat, e: Entry,
      r: nat)
    requires CtxOk(x) && TargetOk(x, t, g) && g.sub && l <= g.curr && c < Pow2(l)
    requires Filled(t, t', g.next, g.curr, l, Rev(c, l), e)
    requires r < Pow2(MAX_BITS) && Shr(r, MAX_BITS - x.root - l) == g.q * Pow2(l) + c
    ensures LinkOk(x, t', g, r)
    ensures ReadsAt(t', x.root, End2(g), r, Entry(e.op, x.root + e.bits, e.val))
  {
    hide Pow2, Rev, NextCode, CountTo, Left;
    hide Shr;
    ShrShr(r, MAX_BITS - x.root - l, l);
    ShrOf(g.q, l, c);
    RevBound(g.q, x.root);
    SubHit(x.root, g.curr, l, c, r);
  }

  /** Numbers that start with the current code now decode to its symbol. */
  lemma {:induction false} FillDecodes(x: Ctx, t: seq<Entry>, t': seq<Entry>, g: Target, s: nat, l: nat, h: nat, r: nat)
    requires CtxOk(x) && TargetOk(x, t, g) && FillsFor(x, g, s, l, h)
    requires Filled(t, t', g.next, g.curr, l, h, SymEntry(x.kind, s, l))
    requires Lo(x.lens, s) <= r < Hi(x.lens, s)
    ensures LinkOk(x, t', g, r)
    ensures ReadsAt(t', x.root, End2(g), r, SymEntry(x.kind, s, x.lens[s]))
  {
    hide Pow2, Rev, NextCode, CountTo, Left;
    var c, len := Code(x.lens, s), x.lens[s];
    PrefixIs(r, c, len);
    BelowTop(r, c, len);
    if g.sub {
      Distribute(g.q, 1, Pow2(l));
      SubFillDecodes(x, t, t', g, l, c - g.q * Pow2(l), SymEntry(x.kind, s, l), r);
    } else {
      RootHit(x.root, len, c, r);
      RootFillDecodes(x, t, t', len, c, SymEntry(x.kind, s, l), r);
    }
  }

  lemma {:induction false} FillStep(x: Ctx, t: seq<Entry>, t': seq<Entry>, g: Target, s: nat, l: nat, h: nat)
    requires CtxOk(x) && TargetOk(x, t, g) && FillsFor(x, g, s, l, h)
    requires Filled(t, t', g.next, g.curr, l, h, SymEntry(x.kind, s, l))
    requires DoneTo(x, t, g, Lo(x.lens, s))
    ensures TargetOk(x, t', g) && DoneTo(x, t', g, Hi(x.lens, s))
  {
    hide Pow2, Rev, NextCode, CountTo, Left;
    if g.sub { RevBound(g.q, x.root); }
    forall r: nat | r < Hi(x.lens, s) ensures LinkOk(x, t', g, r) {
      if r < Lo(x.lens, s) {
        FillKeeps(x, t, t', g, s, l, h, r);
        LinkFrame(x, t, t', g, r);
      } else {
        FillDecodes(x, t, t', g, s, l, h, r);
      }
    }
    forall s2: nat, r: nat | r < Hi(x.lens, s) && Owns(x.lens, s2, r)
      ensures ReadsAt(t', x.root, End2(g), r, SymEntry(x.kind, s2, x.lens[s2]))
    {
      if r < Lo(x.lens, s) {
        FillKeeps(x, t, t', g, s, l, h, r);
        Frame(t, t', x.root, End2(g), End2(g), r, SymEntry(x.kind, s2, x.lens[s2]));
      } else {
        OwnerUnique(x.lens, s, s2, r);
        FillDecodes(x, t, t', g, s, l, h, r);
      }
    }
  }

  /** Starting the sub-table for a root prefix that no earlier code has. */
  lemma {:induction false} NewSubTable(x: Ctx, t: seq<Entry>, t': seq<Entry>, g: Target, curr: nat, q: nat)
    requires CtxOk(x) && TargetOk(x, t, g) && q < Pow2(x.root)
    requires 1 <= curr && x.root + curr <= MAX_BITS && End2(g) + Pow2(curr) <= |t|
    requires Rev(q, x.root) < |t| && t' == t[Rev(q, x.root) := Entry(curr, x.root, End2(g))]
    requires DoneTo(x, t, g, Pos(q, x.root))
    requires curr < 16
    ensures TargetOk(x, t', Target(End2(g), curr, true, q))
    ensures DoneTo(x, t', Target(End2(g), curr, true, q), Pos(q, x.root))
  {
    hide Pow2, Rev, NextCode, CountTo, Left, Shr;
    var g' := Target(End2(g), curr, true, q);
    RevBound(q, x.root);
    forall r: nat | r < Pos(q, x.root) ensures LinkOk(x, t', g', r) {
      SubTableKeeps(x, t, t', g, curr, q, r);
    }
    forall s: nat, r: nat | r < Pos(q, x.root) && Owns(x.lens, s, r)
      ensures ReadsAt(t', x.root, End2(g'), r, SymEntry(x.kind, s, x.lens[s]))
    {
      SubTableKeeps(x, t, t', g, curr, q, r);
      Frame(t, t', x.root, End2(g), End2(g'), r, SymEntry(x.kind, s, x.lens[s]));
    }
  }

  lemma {:induction false} SubTableKeeps(x: Ctx, t: seq<Entry>, t': seq<Entry>, g: Target, curr: nat, q: nat, r: nat)
    requires CtxOk(x) && TargetOk(x, t, g) && q < Pow2(x.root)
    requires Rev(q, x.root) < |t| && t' == t[Rev(q, x.root) := Entry(curr, x.root, End2(g))]
    requires r < Pos(q, x.root) && LinkOk(x, t, g, r)
    ensures SameAt(t, t', x.root, r)
    ensures LinkOk(x, t', Target(End2(g), curr, true, q), r)
  {
    hide Pow2, Rev, NextCode, CountTo, Left;
    RevBound(q, x.root);
    PrefixIs(r, q, x.root);
    var y, i := Shr(r, MAX_BITS - x.root), RootIdx(x.root, r);
    Distribute(q, 1, Unit(x.root));
    BelowTop(r, q, x.root);
    ShrBound(r, MAX_BITS - x.root, x.root);
    if Rev(y, x.root) == Rev(q, x.root) { RevInjective(y, q, x.root); }
    if IsLink(t[i]) { BelowSub(x, t, g, q, r); }
  }

  /** A sub-table read for a number below prefix q stays inside finished tables and outside the root table. */
  lemma {:induction false} BelowSub(x: Ctx, t: seq<Entry>, g: Target, q: nat, r: nat)
    requires CtxOk(x) && TargetOk(x, t, g) && q < Pow2(x.root) && r < Pos(q, x.root)
    requires LinkOk(x, t, g, r) && IsLink(t[RootIdx(x.root, r)])
    ensures var e := t[RootIdx(x.root, r)];
            x.root + e.op <= MAX_BITS && SubIdx(x.root, e.op, r) < Pow2(e.op) &&
            Pow2(x.root) <= e.val && e.val + Pow2(e.op) <= End2(g)
  {
    hide Pow2, Rev;
    var e := t[RootIdx(x.root, r)];
    Distribute(q, 1, Unit(x.root));
    BelowTop(r, q, x.root);
    SubHit(x.root, e.op, 0, 0, r);
  }

  // ------------------------------------------------------------------ the pieces of the main loop

  /** Replicates an entry for every index whose low l bits are h, from the top down. */
  method FillEntries(table: array<Entry>, at: nat, h: nat, l: nat, curr: nat, here: Entry)
    requires l <= curr && h < Pow2(l) && at + Pow2(curr) <= table.Length
    modifies table
    ensures Filled(old(table[..]), table[..], at, curr, l, h, here)
  {
    hide Pow2;
    var incr := Pow2(l);
    var fill := Pow2(curr);
    ghost var m := Pow2(curr - l);
    Pow2Add(curr - l, l);
    DivMod(0, incr, h);
    while fill != 0
      invariant fill == m * incr && fill <= Pow2(curr)
      invariant forall i: nat :: i < table.Length ==>
                  table[i] == if at + fill <= i < at + Pow2(curr) && (i - at) % incr == h then here else old(table[i])
      decreases m
    {
      FillIndex(m, incr, h, fill);
      fill, m := fill - incr, m - 1;
      table[at + h + fill] := here;
    }
  }

  lemma {:induction false} FillIndex(m: nat, incr: nat, h: nat, fill: nat)
    requires h < incr && fill == m * incr && fill != 0
    ensures fill >= incr && m > 0 && fill - incr == (m - 1) * incr
    ensures forall a: nat :: fill - incr <= a < fill ==> (a % incr == h <==> a == fill - incr + h)
  {
    Distribute(m, 1, incr);
    MulMono(1, m, incr);
    forall a: nat | fill - incr <= a < fill ensures a % incr == h <==> a == fill - incr + h {
      DivModOf(a, m - 1, incr, a - (fill - incr));
    }
  }

  /** Adds one to a bit-reversed code: the carry runs from the top bit down. */
  method BackIncrement(huff: nat, len: nat) returns (r: nat)
    requires 0 < len && huff < Pow2(len)
    ensures r < Pow2(len) && Rev(r, len) == (Rev(huff, len) + 1) % Pow2(len)
  {
    hide Rev, Pow2;
    var incr := Pow2(len - 1);
    ghost var i: nat := len;          // incr is 2^(i-1), or zero once i is
    assert Shr(huff, len) == 0 == Pow2(0) - 1 by {
      Pow2Zero();
      DivMod(0, Pow2(len), huff);
    }
    while incr != 0 && huff / incr % 2 == 1
      invariant i <= len && incr == (if i == 0 then 0 else Pow2(i - 1))
      invariant Shr(huff, i) == Pow2(len - i) - 1
      decreases i
    {
      ShrBit(huff, i - 1);
      Pow2Double(len - i);
      if i > 1 { Pow2Double(i - 2); } else { Pow2Zero(); }
      incr := incr / 2;
      i := i - 1;
    }
    if incr != 0 {
      CarryStops(huff, len, i - 1);
      r := huff % incr + incr;
    } else {
      CarryRunsOut(huff, len);
      r := 0;
    }
  }

  lemma {:induction false} Pow2Zero()
    ensures Pow2(0) == 1
  {
  }

  lemma {:induction false} Pow2Double(n: nat)
    ensures Pow2(n + 1) == 2 * Pow2(n)
  {
  }

  lemma {:induction false} ShrBit(v: nat, i: nat)
    ensures Shr(v, i) == 2 * Shr(v, i + 1) + v / Pow2(i) % 2
  {
    DivDiv(v, Pow2(i), 2);
    MulComm(Pow2(i), 2);
  }

  /** The carry stops at bit i, the highest zero bit. */
  lemma {:induction false} CarryStops(huff: nat, len: nat, i: nat)
    requires i < len && huff < Pow2(len)
    requires huff / Pow2(i) % 2 == 0 && Shr(huff, i + 1) == Pow2(len - 1 - i) - 1
    ensures var r := huff % Pow2(i) + Pow2(i);
            0 <= r < Pow2(len) && Rev(r, len) == (Rev(huff, len) + 1) % Pow2(len)
  {
    hide Pow2, Rev;
    var m := len - 1 - i;
    var p := Pow2(i);
    var r := 1 * p + huff % p;
    DivModIdentity(huff, p);
    assert 0 <= r < Pow2(len) by {
      Pow2Double(i);
      Pow2Mono(i + 1, len);
    }
    assert Shr(r, i) == 1 && r % p == huff % p by { DivMod(1, p, huff % p); }
    assert Rev(r, i) == Rev(huff, i) by {
      RevMod(r, i);
      RevMod(huff, i);
    }
    ShrBit(huff, i);
    RevSplit(huff, i, m + 1);
    RevSplit(r, i, m + 1);
    RevHighZero(m);
    assert Rev(r, len) == Rev(huff, len) + 1;
    RevBound(r, len);
    SmallMod(Rev(r, len), Pow2(len));
  }

  lemma {:induction false} SmallMod(a: nat, d: nat)
    requires a < d
    ensures a % d == a
  {
  }

  lemma {:induction false} RevHighZero(m: nat)
    ensures Rev(2 * (Pow2(m) - 1), m + 1) == Pow2(m) - 1
    ensures Rev(1, m + 1) == Pow2(m)
  {
    RevOnes(m);
    RevZero(m);
  }

  lemma {:induction false} CarryRunsOut(huff: nat, len: nat)
    requires huff < Pow2(len) && Shr(huff, 0) == Pow2(len) - 1
    ensures Rev(0, len) == (Rev(huff, len) + 1) % Pow2(len)
  {
    RevOnes(len);
    RevZero(len);
    assert huff == Pow2(len) - 1;
    assert Pow2(len) % Pow2(len) == 0 by { DivMod(1, Pow2(len), 0); }
  }

  // ------------------------------------------------------------------ the main loop

  ghost predicate Counted(lens: seq<nat>, count: seq<nat>)
  {
    |count| == MAX_BITS + 1 && forall l: nat :: l <= MAX_BITS ==> count[l] == Count(lens, l)
  }

  /** count holds the codes of each length that are still to be entered, c the next code of length len. */
  ghost predicate CountsLeft(lens: seq<nat>, count: seq<nat>, len: nat, c: nat)
  {
    && |count| == MAX_BITS + 1 && 1 <= len <= MAX_BITS
    && (forall l: nat :: len < l <= MAX_BITS ==> count[l] == Count(lens, l))
    && NextCode(lens, len) <= c && c + count[len] == NextCode(lens, len) + Used(lens, len)
  }

  /** Every code with root prefix q fits the sub-table of curr bits: either no code is longer, or the
      codes up to that length use up the prefix. */
  ghost predicate RoomFor(lens: seq<nat>, root: nat, curr: nat, q: nat, max: nat)
    requires root + curr <= MAX_BITS
  {
    root + curr == max || Pos(q + 1, root) <= End(lens, root + curr)
  }

  method SubTableBits(lens: seq<nat>, count: array<nat>, len: nat, root: nat, max: nat, ghost c: nat, ghost q: nat)
    returns (curr: nat)
    requires 1 <= root < len <= max <= MAX_BITS
    requires CountsLeft(lens, count[..], len, c)
    requires Pos(q, root) == Pos(c, len) && q < Pow2(root) && Complete(lens) && IsMax(lens, max)
    ensures len <= root + curr <= max && RoomFor(lens, root, curr, q, max) && curr == SubBits(lens, root, q)
  {
    hide Pow2, NextCode, Count, Used, CountTo, Pos, End, SubBits, IsMax;
    curr := len - root;
    var left: int := Pow2(curr);
    ghost var done := Pos(c, len);     // where the codes considered so far end
    FirstLeft(root, len, q, c);
    NotBefore(lens, root, q, len, c);
    while curr + root < max
      invariant len <= root + curr <= max
      invariant left * Unit(root + curr) == Pos(q + 1, root) - done
      invariant done == (if root + curr == len then Pos(c, len) else Start(lens, root + curr))
      invariant forall l: nat :: root <= l < root + curr ==> !UsedUp(lens, root, q, l)
    {
      var l := curr + root;
      Distribute(left, count[l], Unit(l));
      EndAfter(lens, count[..], len, c, l);
      left := left - count[l];
      done := End(lens, l);
      if left <= 0 {
        NotPositive(left, Unit(l));
        break;
      }
      MulPositive(left, l);
      StartIsEnd(lens, l + 1);
      UnitHalves(l + 1);
      DoubleHalf(left, Unit(l), Unit(l + 1));
      curr := curr + 1;
      left := left * 2;
    }
    DepthFound(lens, root, q, curr, max);
  }

  lemma {:induction false} MulPositive(a: int, l: nat)
    requires a > 0 && l <= MAX_BITS
    ensures a * Unit(l) > 0
  {
    MulAtLeast(a, Unit(l));
  }

  /** Codes shorter than one that begins with q do not reach into q. */
  lemma {:induction false} NotBefore(lens: seq<nat>, root: nat, q: nat, len: nat, c: nat)
    requires root < len <= MAX_BITS && NextCode(lens, len) <= c && Pos(q, root) == Pos(c, len) && q < Pow2(root)
    ensures forall l: nat :: root <= l < len ==> !UsedUp(lens, root, q, l)
  {
    hide Pow2, NextCode, Count, Used, Pos, End;
    LastOf(q, root);
    PosMono(NextCode(lens, len), c, len);
    forall l: nat | root <= l < len ensures !UsedUp(lens, root, q, l) { StartMono(lens, l, len); }
  }

  lemma {:induction false} DepthFound(lens: seq<nat>, root: nat, q: nat, curr: nat, max: nat)
    requires Complete(lens) && IsMax(lens, max) && q < Pow2(root) && root + curr <= max
    requires RoomFor(lens, root, curr, q, max)
    requires forall l: nat :: root <= l < root + curr ==> !UsedUp(lens, root, q, l)
    ensures curr == SubBits(lens, root, q)
  {
    hide Pow2, NextCode, CountTo, Used, Pos, End, Left, SubBits;
    if root + curr == max {
      Covered(lens, root, q);
      var m := root + SubBits(lens, root, q);
      if max < m { EndSame(lens, max, m); }
    }
    BitsAre(lens, root, q, curr);
  }

  lemma {:induction false} FirstLeft(root: nat, len: nat, q: nat, c: nat)
    requires root < len <= MAX_BITS && Pos(q, root) == Pos(c, len)
    ensures Pow2(len - root) * Unit(len) == Pos(q + 1, root) - Pos(c, len)
  {
    hide Pow2;
    Pow2Add(len - root, MAX_BITS - len);
    Distribute(q, 1, Unit(root));
  }

  /** The remaining codes of length l lead from where the shorter ones end to End(l). */
  lemma {:induction false} EndAfter(lens: seq<nat>, count: seq<nat>, len: nat, c: nat, l: nat)
    requires CountsLeft(lens, count, len, c) && len <= l <= MAX_BITS
    ensures (if l == len then Pos(c, len) else Start(lens, l)) + count[l] * Unit(l) == End(lens, l)
  {
    hide Pow2, NextCode, CountTo;
    Distribute(if l == len then c else NextCode(lens, l), count[l], Unit(l));
  }

  lemma {:induction false} NotPositive(a: int, d: int)
    requires a <= 0 && d >= 0
    ensures a * d <= 0
  {
  }

  lemma {:induction false} DoubleHalf(a: int, d: int, e: int)
    requires d == 2 * e
    ensures a * d == (a * 2) * e
  {
  }

  /** The next length that has any codes: its first code starts where length len ended. */
  lemma {:induction false} NextLength(lens: seq<nat>, len: nat, max: nat) returns (l: nat)
    requires 1 <= len < max <= MAX_BITS && Count(lens, max) > 0
    ensures len < l <= max && Count(lens, l) > 0
    ensures First(lens, l) == First(lens, len) + Count(lens, len)
    ensures NextCode(lens, l) == (NextCode(lens, len) + Used(lens, len)) * Pow2(l - len)
    decreases max - len
  {
    hide Pow2, CountTo;
    l := len + 1;
    var base := NextCode(lens, len) + Used(lens, len);
    Pow2Zero();
    Pow2Double(0);
    while Count(lens, l) == 0
      invariant len < l <= max
      invariant First(lens, l) == First(lens, len) + Count(lens, len)
      invariant NextCode(lens, l) == base * Pow2(l - len)
      decreases max - l
    {
      assert l != max;
      Pow2Double(l - len);
      DoubleHalf(base, 2 * Pow2(l - len), Pow2(l - len));
      MulAdd(2, base, 0, Pow2(l - len));
      l := l + 1;
    }
  }

  /** The state of the main loop when the symbol work[sym], with code c of length len, is next. */
  datatype Loop = Loop(sym: nat, len: nat, c: nat, huff: nat, next: nat, curr: nat, drop: nat, low: nat)

  function LoopTarget(x: Ctx, v: Loop): (r: Target)
  {
    Target(v.next, v.curr, v.drop > 0, Rev(v.low, x.root))
  }

  ghost predicate CodeState(x: Ctx, count: seq<nat>, v: Loop, max: nat)
  {
    && CountsLeft(x.lens, count, v.len, v.c) && v.len <= max && count[v.len] > 0
    && v.sym + count[v.len] == First(x.lens, v.len) + Count(x.lens, v.len)
    && v.huff < Pow2(v.len) && Rev(v.huff, v.len) == v.c
  }

  ghost predicate PrefixState(x: Ctx, v: Loop, max: nat)
    requires CtxOk(x) && v.len <= MAX_BITS
  {
    if v.len <= x.root then
      v.drop == 0 && v.low == 0xffff_ffff
    else
      && v.drop == x.root && v.low < Pow2(x.root)
      && Shr(v.c, v.len - x.root) == Rev(v.low, x.root)
      && v.len <= x.root + v.curr <= max <= MAX_BITS
      && RoomFor(x.lens, x.root, v.curr, Rev(v.low, x.root), max)
  }

  ghost predicate TableState(x: Ctx, t: seq<Entry>, v: Loop, max: nat)
    requires CtxOk(x) && v.len <= MAX_BITS
  {
    && TargetOk(x, t, LoopTarget(x, v)) && DoneTo(x, t, LoopTarget(x, v), Pos(v.c, v.len))
    && PrefixState(x, v, max)
  }

  /** The next symbol in sorted order has the next code. */
  lemma {:induction false} CurrentSymbol(x: Ctx, work: seq<nat>, count: seq<nat>, v: Loop, max: nat)
    requires CtxOk(x) && SortedTo(x.lens, work, |x.lens|) && max <= MAX_BITS
    requires CodeState(x, count, v, max)
    ensures v.sym < |work| && work[v.sym] < |x.lens| && x.lens[work[v.sym]] == v.len
    ensures Code(x.lens, work[v.sym]) == v.c < Pow2(v.len)
  {
    hide Pow2, NextCode, Rev;
    var k := v.c - NextCode(x.lens, v.len);
    assert k < Count(x.lens, v.len);
    assert NthAt(x.lens, work, v.len, k);
    RevBound(v.huff, v.len);
  }

  /** What is filled for that symbol. */
  lemma {:induction false} FillPlan(x: Ctx, t: seq<Entry>, work: seq<nat>, count: seq<nat>, v: Loop, max: nat)
    requires CtxOk(x) && SortedTo(x.lens, work, |x.lens|) && max <= MAX_BITS
    requires CodeState(x, count, v, max) && TableState(x, t, v, max)
    ensures v.sym < |work| && v.drop <= v.len && Shr(v.huff, v.drop) < Pow2(v.len - v.drop)
    ensures FillsFor(x, LoopTarget(x, v), work[v.sym], v.len - v.drop, Shr(v.huff, v.drop))
  {
    hide Pow2, Rev, NextCode, CountTo;
    CurrentSymbol(x, work, count, v, max);
    var l := v.len - v.drop;
    ShrBound(v.huff, v.drop, l);
    if v.drop == 0 {
      Pow2Zero();
      RevInvolution(v.huff, v.len);
    } else {
      var q := Rev(v.low, x.root);
      RevParts(v.huff, x.root, l);
      var low := v.c % Pow2(l);
      DivModIdentity(v.c, Pow2(l));
      Distribute(q, 1, Pow2(l));
      assert low == Rev(Shr(v.huff, x.root), l);
      RevInvolution(Shr(v.huff, x.root), l);
    }
  }

  /** While codes of length len remain, the next code still fits len bits. */
  lemma {:induction false} NextFits(lens: seq<nat>, len: nat, c: nat)
    requires Valid(lens) && 1 <= len <= MAX_BITS && c < NextCode(lens, len) + Used(lens, len)
    ensures c < Pow2(len)
  {
    hide Pow2, NextCode, CountTo;
    LeftStaysNegative(lens, len, MAX_BITS);
    LeftIs(lens, len);
  }

  lemma {:induction false} ShrPos(c: nat, l: nat, root: nat)
    requires root <= l <= MAX_BITS
    ensures Shr(Pos(c, l), MAX_BITS - l) == c
    ensures Shr(Pos(c, l), MAX_BITS - root) == Shr(c, l - root)
  {
    hide Pow2;
    ShrOf(c, MAX_BITS - l, 0);
    ShrShr(Pos(c, l), MAX_BITS - l, l - root);
  }

  /** The code after one with root prefix q ends at most where the prefix ends. */
  lemma {:induction false} StepPrefix(c: nat, len: nat, root: nat, q: nat)
    requires root < len <= MAX_BITS && Shr(c, len - root) == q
    ensures Pos(q, root) <= Pos(c + 1, len) <= Pos(q + 1, root)
  {
    hide Pow2;
    Distribute(c, 1, Unit(len));
    var r := Pos(c + 1, len) - 1;
    PrefixIs(r, c, len);
    ShrShr(r, MAX_BITS - len, len - root);
    PrefixIs(r, q, root);
  }

  /** The state between two symbols: the next code is known, its target may still be the old one. */
  ghost predicate Between(x: Ctx, t: seq<Entry>, g: Target, low: nat, max: nat, c: nat, len: nat)
    requires CtxOk(x) && len <= MAX_BITS
  {
    && TargetOk(x, t, g) && DoneTo(x, t, g, Pos(c, len))
    && (if g.sub then
          && g.q == Rev(low, x.root) && low < Pow2(x.root) && x.root < len && x.root + g.curr <= max
          && max <= MAX_BITS && RoomFor(x.lens, x.root, g.curr, g.q, max)
          && Pos(g.q, x.root) <= Pos(c, len) <= Pos(g.q + 1, x.root)
        else
          low == 0xffff_ffff &&
          (x.root < len ==> Pos(c, len) <= End(x.lens, x.root) && exists k: nat :: Pos(c, len) == Pos(k, x.root)))
  }

  lemma {:induction false} BetweenAfter(x: Ctx, t: seq<Entry>, v: Loop, max: nat, c': nat, len': nat)
    requires CtxOk(x) && v.len <= len' <= MAX_BITS && PrefixState(x, v, max)
    requires Pos(c', len') == Pos(v.c + 1, v.len) && v.c < NextCode(x.lens, v.len) + Used(x.lens, v.len)
    requires TargetOk(x, t, LoopTarget(x, v)) && DoneTo(x, t, LoopTarget(x, v), Pos(v.c + 1, v.len))
    ensures Between(x, t, LoopTarget(x, v), v.low, max, c', len')
  {
    hide Pow2, Rev, NextCode, CountTo;
    if v.len <= x.root {
      var k := (v.c + 1) * Pow2(x.root - v.len);
      MulMono(0, v.c + 1, Pow2(x.root - v.len));
      Pow2Add(x.root - v.len, MAX_BITS - x.root);
      MulAdd(v.c + 1, Pow2(x.root - v.len), 0, Unit(x.root));
      assert Pos(c', len') == Pos(k, x.root);
      PosMono(v.c + 1, NextCode(x.lens, v.len) + Used(x.lens, v.len), v.len);
      EndMono(x.lens, v.len, x.root);
    } else {
      StepPrefix(v.c, v.len, x.root, Rev(v.low, x.root));
    }
  }

  /** Low root bits of the reversed code are the root prefix. */
  lemma {:induction false} RootPrefix(huff: nat, len: nat, c: nat, root: nat)
    requires root <= len && Rev(huff, len) == c
    ensures Rev(huff % Pow2(root), root) == Shr(c, len - root)
  {
    hide Pow2, Rev;
    RevParts(huff, root, len - root);
    RevMod(huff, root);
  }

  /** Same prefix as before: the sub-table is long enough for the next code. */
  lemma {:induction false} SameSubTable(x: Ctx, t: seq<Entry>, g: Target, low: nat, max: nat, huff: nat, c: nat,
      len: nat)
    requires CtxOk(x) && 1 <= len <= max <= MAX_BITS && Between(x, t, g, low, max, c, len)
    requires Rev(huff, len) == c && NextCode(x.lens, len) <= c
    requires x.root < len && huff % Pow2(x.root) == low
    ensures g.sub && Shr(c, len - x.root) == g.q && len <= x.root + g.curr
  {
    hide Pow2, Rev, NextCode, CountTo;
    DivModIdentity(huff, Pow2(x.root));
    Pow2Mono(x.root, MAX_BITS);
    Pow2Top();
    RootPrefix(huff, len, c, x.root);
    ShrPos(c, len, x.root);
    PrefixIs(Pos(c, len), g.q, x.root);
    if len > x.root + g.curr {
      StartMono(x.lens, x.root + g.curr, len);
      MulMono(NextCode(x.lens, len), c, Unit(len));
      assert false;
    }
  }

  lemma {:induction false} Pow2Top()
    ensures Pow2(MAX_BITS) == 32768
  {
    Pow2Values();
  }

  /** A new prefix: the next code starts exactly where that prefix starts. */
  lemma {:induction false} FreshPrefix(x: Ctx, t: seq<Entry>, g: Target, low: nat, max: nat, huff: nat, c: nat,
      len: nat)
    requires CtxOk(x) && 1 <= len <= max <= MAX_BITS && Between(x, t, g, low, max, c, len)
    requires huff < Pow2(len) && Rev(huff, len) == c
    requires x.root < len && huff % Pow2(x.root) != low
    ensures var q := Rev(huff % Pow2(x.root), x.root);
            q < Pow2(x.root) && Shr(c, len - x.root) == q && Pos(q, x.root) == Pos(c, len)
            && (g.sub ==> q == g.q + 1)
  {
    hide Pow2, Rev, NextCode, CountTo;
    RootPrefix(huff, len, c, x.root);
    ShrPos(c, len, x.root);
    RevBound(huff % Pow2(x.root), x.root);
    var q := Rev(huff % Pow2(x.root), x.root);
    if g.sub {
      DivModIdentity(huff, Pow2(x.root));
      if q == g.q { RevInjective(huff % Pow2(x.root), low, x.root); }
      PrefixIs(Pos(c, len), g.q, x.root);
      ShrPos(g.q + 1, x.root, x.root);
    } else {
      var k: nat :| Pos(c, len) == Pos(k, x.root);
      ShrPos(k, x.root, x.root);
    }
  }

  /** count[len] after the current symbol is entered: more codes of the same length. */
  lemma {:induction false} AdvanceSame(x: Ctx, count: seq<nat>, v: Loop, max: nat, huff: nat)
    requires CtxOk(x) && CodeState(x, count, v, max) && max <= MAX_BITS && count[v.len] > 1
    requires huff < Pow2(v.len) && Rev(huff, v.len) == (v.c + 1) % Pow2(v.len)
    ensures CodeState(x, count[v.len := count[v.len] - 1], v.(sym := v.sym + 1, c := v.c + 1, huff := huff), max)
  {
    hide Pow2, Rev, NextCode, CountTo;
    NextFits(x.lens, v.len, v.c + 1);
    SmallMod(v.c + 1, Pow2(v.len));
  }

  /** The codes of length len are used up: the next one extends the following code by zeros. */
  lemma {:induction false} AdvanceLength(x: Ctx, work: seq<nat>, count: seq<nat>, v: Loop, max: nat, huff: nat)
    returns (c: nat, len: nat)
    requires CtxOk(x) && SortedTo(x.lens, work, |x.lens|) && Count(x.lens, max) > 0
    requires CodeState(x, count, v, max) && max <= MAX_BITS && count[v.len] == 1 && v.len < max
    requires huff < Pow2(v.len) && Rev(huff, v.len) == (v.c + 1) % Pow2(v.len)
    ensures v.len < len <= max && v.sym + 1 < |work| && work[v.sym + 1] < |x.lens| && x.lens[work[v.sym + 1]] == len
    ensures CodeState(x, count[v.len := 0], v.(sym := v.sym + 1, c := c, len := len, huff := huff), max)
    ensures Pos(c, len) == Pos(v.c + 1, v.len)
  {
    hide Pow2, Rev, NextCode, CountTo, First;
    len := NextLength(x.lens, v.len, max);
    c := NextCode(x.lens, len);
    NextFits(x.lens, len, c);
    var d := Pow2(len - v.len);
    Pow2Add(v.len, len - v.len);
    if v.c + 1 >= Pow2(v.len) { MulMono(Pow2(v.len), v.c + 1, d); }
    SmallMod(v.c + 1, Pow2(v.len));
    RevWiden(huff, v.len, len - v.len);
    Pow2Mono(v.len, len);
    assert NthAt(x.lens, work, len, 0);
    Pow2Add(len - v.len, MAX_BITS - len);
    MulAdd(v.c + 1, d, 0, Unit(len));
  }

  /** Enters the symbol s with the given reversed code into the table being filled. */
  method EnterSymbol(ghost x: Ctx, ghost work: seq<nat>, ghost count: seq<nat>, ghost v: Loop, ghost max: nat,
                     table: array<Entry>, start: nat, kind: Kind, s: nat, len: nat, huff: nat, next: nat, curr: nat,
                       drop: nat)
    requires CtxOk(x) && x.kind == kind && SortedTo(x.lens, work, |x.lens|) && max <= MAX_BITS
    requires start + next + Pow2(curr) <= table.Length
    requires CodeState(x, count, v, max) && TableState(x, table[start..], v, max)
    requires v.sym < |work| && s == work[v.sym] && s < |x.lens|
    requires len == v.len && huff == v.huff && next == v.next && curr == v.curr && drop == v.drop
    modifies table
    ensures table[..start] == old(table[..start])
    ensures v.c < Pow2(len) && v.c < NextCode(x.lens, len) + Used(x.lens, len)
    ensures TargetOk(x, table[start..], LoopTarget(x, v))
        && DoneTo(x, table[start..], LoopTarget(x, v), Pos(v.c + 1, len))
  {
    hide Pow2, Rev, NextCode, CountTo, TargetOk, DoneTo, First;
    FillPlan(x, table[start..], work, count, v, max);
    CurrentSymbol(x, work, count, v, max);
    ghost var t := table[start..];
    ghost var all := table[..];
    FillEntries(table, start + next, Shr(huff, drop), len - drop, curr, SymEntry(kind, s, len - drop));
    FilledTail(all, table[..], start, next, curr, len - drop, Shr(huff, drop), SymEntry(kind, s, len - drop));
    assert table[..][start..] == table[start..];
    assert table[..start] == table[..][..start];
    FillStep(x, t, table[start..], LoopTarget(x, v), s, len - drop, Shr(huff, drop));
  }

  lemma {:induction false} FilledTail(t: seq<Entry>, t': seq<Entry>, start: nat, at: nat, curr: nat, l: nat, h: nat,
      e: Entry)
    requires start <= |t| && Filled(t, t', start + at, curr, l, h, e)
    ensures Filled(t[start..], t'[start..], at, curr, l, h, e)
    ensures t[..start] == t'[..start]
  {
    hide Pow2;
  }

  /** Goes on to the next code: counts the symbol just entered and moves to the next used length. */
  method NextSymbol(ghost x: Ctx, ghost v: Loop, lens: seq<nat>, work: array<nat>, count: array<nat>,
                    sym: nat, len: nat, huff: nat, max: nat)
    returns (done: bool, sym': nat, len': nat, huff': nat, ghost c': nat)
    requires CtxOk(x) && x.lens == lens && SortedTo(lens, work[..], |lens|) && max <= MAX_BITS && Count(lens, max) > 0
    requires CodeState(x, count[..], v, max) && v.c < Pow2(len)
    requires sym == v.sym && len == v.len && huff == v.huff && count != work
    modifies count
    ensures sym' == sym + 1
    ensures done ==> len == max && v.c + 1 == NextCode(lens, max) + Used(lens, max) && count[len] == 0 && len' == len
    ensures huff' < Pow2(len) && Rev(huff', len) == (v.c + 1) % Pow2(len)
    ensures !done ==> len <= len' <= max && Pos(c', len') == Pos(v.c + 1, len)
    ensures !done ==> CodeState(x, count[..], v.(sym := sym', c := c', len := len', huff := huff'), max)
  {
    hide Pow2, Rev, NextCode, CountTo, First;
    ghost var before := count[..];
    huff' := BackIncrement(huff, len);
    sym' := sym + 1;
    len', c', done := len, v.c + 1, false;
    count[len] := count[len] - 1;
    assert count[..] == before[len := before[len] - 1];
    if count[len] == 0 {
      if len == max {
        done := true;
      } else {
        ghost var l;
        c', l := AdvanceLength(x, work[..], before, v, max, huff');
        len' := lens[work[sym']];
      }
    } else {
      AdvanceSame(x, before, v, max, huff');
    }
  }

  function Enough(kind: Kind): (r: nat)
  {
    if kind == DISTS then ENOUGH_DISTS else ENOUGH_LENS
  }

  /** The space in use is what the prefixes up to the current one need. */
  ghost predicate Sized(x: Ctx, g: Target, used: nat)
    requires CtxOk(x)
  {
    used == if g.sub then SizeTo(x.lens, x.root, g.q + 1) else Pow2(x.root)
  }

  /** No prefix was skipped that needs a sub-table. */
  lemma {:induction false} SizedBefore(x: Ctx, t: seq<Entry>, g: Target, low: nat, max: nat, c: nat, len: nat, q: nat,
      used: nat)
    requires CtxOk(x) && x.root < len <= MAX_BITS && Between(x, t, g, low, max, c, len) && Sized(x, g, used)
    requires Pos(q, x.root) == Pos(c, len) && (g.sub ==> q == g.q + 1)
    ensures used == SizeTo(x.lens, x.root, q)
  {
    hide Pow2, Rev, NextCode, CountTo, TargetOk, DoneTo, Pos, End, SizeTo;
    if !g.sub { RootOnly(x.lens, x.root, q); }
  }

  /** Opens the sub-table for a new root prefix, unless the table space is used up. */
  method OpenSubTable(ghost x: Ctx, lens: seq<nat>, count: array<nat>, table: array<Entry>, start: nat, kind: Kind,
      root: nat, max: nat, ghost g: Target, low: nat, used: nat, huff: nat, len: nat, ghost c: nat)
    returns (ok: bool, next: nat, curr: nat, used': nat, low': nat)
    requires CtxOk(x) && x.kind == kind && x.lens == lens && x.root == root && 1 <= len <= max <= MAX_BITS
    requires kind != CODES && start + Enough(kind) <= table.Length && start + used <= table.Length
    requires Between(x, table[start..], g, low, max, c, len) && used == End2(g)
    requires CountsLeft(lens, count[..], len, c)
    requires huff < Pow2(len) && Rev(huff, len) == c && root < len && huff % Pow2(root) != low
    requires Sized(x, g, used) && Complete(lens) && IsMax(lens, max)
    modifies table
    ensures table[..start] == old(table[..start])
    ensures low' < Pow2(root) && Rev(low', root) < Pow2(root) && used' == SizeTo(lens, root, Rev(low', root) + 1)
    ensures ok <==> used' <= Enough(kind)
    ensures ok ==> used' == next + Pow2(curr) && start + used' <= table.Length && used' <= Enough(kind)
    ensures ok ==> low' < Pow2(root) && len <= root + curr <= max && Shr(c, len - root) == Rev(low', root)
    ensures ok ==> RoomFor(lens, root, curr, Rev(low', root), max)
    ensures ok ==> TargetOk(x, table[start..], Target(next, curr, true, Rev(low', root)))
    ensures ok ==> DoneTo(x, table[start..], Target(next, curr, true, Rev(low', root)), Pos(c, len))
  {
    hide Pow2, Rev, NextCode, CountTo, DoneTo, RoomFor, SubBits, IsMax, Left;
    FreshPrefix(x, table[start..], g, low, max, huff, c, len);
    DivModIdentity(huff, Pow2(root));
    SizedBefore(x, table[start..], g, low, max, c, len, Rev(huff % Pow2(root), root), used);
    ghost var t := table[start..];
    next := used;
    low' := huff % Pow2(root);
    curr := SubTableBits(lens, count, len, root, max, c, Rev(low', root));
    used' := used + Pow2(curr);
    ok := used' <= Enough(kind);
    if ok {
      RootFits(x, t, g);
      RevInvolution(low', root);
      table[start + low'] := Entry(curr, root, next);
      assert table[start..] == t[low' := Entry(curr, root, next)];
      NewSubTable(x, t, table[start..], g, curr, Rev(low', root));
    }
  }

  /** The root table is part of the space in use. */
  lemma {:induction false} RootFits(x: Ctx, t: seq<Entry>, g: Target)
    requires CtxOk(x) && TargetOk(x, t, g)
    ensures Pow2(x.root) <= End2(g) <= |t|
  {
    hide Pow2;
  }

  lemma {:induction false} StartState(x: Ctx, t: seq<Entry>, count: seq<nat>, min: nat, max: nat)
    requires CtxOk(x) && 1 <= min <= max <= MAX_BITS && min <= x.root && Pow2(x.root) <= |t|
    requires Counted(x.lens, count) && Count(x.lens, min) > 0
    requires forall l: nat :: 1 <= l < min ==> Count(x.lens, l) == 0
    ensures CodeState(x, count, Loop(0, min, 0, 0, 0, x.root, 0, 0xffff_ffff), max)
    ensures TableState(x, t, Loop(0, min, 0, 0, 0, x.root, 0, 0xffff_ffff), max)
  {
    hide Pow2, Rev, CountTo;
    RevZero(min);
    for l := 1 to min
      invariant NextCode(x.lens, l) == 0 && First(x.lens, l) == 0
    {
    }
  }

  lemma {:induction false} SymBound(x: Ctx, count: seq<nat>, v: Loop, max: nat)
    requires CtxOk(x) && CodeState(x, count, v, max) && max <= MAX_BITS
    ensures v.sym < |x.lens|
  {
    hide Pow2, Rev, NextCode, CountTo;
    FirstIsFirstTo(x.lens, v.len + 1);
  }

  /** No new sub-table is needed: the next code goes where the last one went. */
  lemma {:induction false} KeepTarget(x: Ctx, t: seq<Entry>, v: Loop, g: Target, max: nat, huff: nat, c: nat, len: nat)
    requires CtxOk(x) && v.len <= len <= max <= MAX_BITS && 1 <= len && PrefixState(x, v, max)
    requires g == LoopTarget(x, v) && Between(x, t, g, v.low, max, c, len)
    requires huff < Pow2(len) && Rev(huff, len) == c && NextCode(x.lens, len) <= c
    requires len <= x.root || huff % Pow2(x.root) == v.low
    ensures TableState(x, t, v.(c := c, len := len, huff := huff), max)
  {
    hide Pow2, Rev, NextCode, CountTo, TargetOk, DoneTo, RoomFor;
    if len > x.root { SameSubTable(x, t, g, v.low, max, huff, c, len); }
  }

  /** Before the next code: a new sub-table when its root prefix is new. */
  method MoveOn(ghost x: Ctx, ghost v: Loop, lens: seq<nat>, count: array<nat>, table: array<Entry>, start: nat,
      kind: Kind, root: nat, max: nat, used0: nat, ghost sym: nat, len: nat, ghost c: nat, huff: nat,
      next0: nat, curr0: nat, drop0: nat, low0: nat)
    returns (ok: bool, next: nat, curr: nat, drop: nat, low: nat, used: nat)
    requires CtxOk(x) && x.kind == kind && x.lens == lens && x.root == root && IsMax(lens, max) && 0 < max <= MAX_BITS
    requires v.len <= len <= max && PrefixState(x, v, max) && (Complete(lens) || max <= root)
    requires v.next == next0 && v.curr == curr0 && v.drop == drop0 && v.low == low0
    requires used0 == next0 + Pow2(curr0) && start + used0 <= table.Length && Sized(x, LoopTarget(x, v), used0)
    requires Between(x, table[start..], LoopTarget(x, v), low0, max, c, len)
    requires CodeState(x, count[..], Loop(sym, len, c, huff, next0, curr0, drop0, low0), max)
    requires if kind == CODES then max <= root else start + Enough(kind) <= table.Length && used0 <= Enough(kind)
    modifies table
    ensures table[..start] == old(table[..start])
    ensures ok ==> TableState(x, table[start..], Loop(sym, len, c, huff, next, curr, drop, low), max)
    ensures ok ==> used == next + Pow2(curr) && start + used <= table.Length
    ensures ok ==> Sized(x, LoopTarget(x, Loop(sym, len, c, huff, next, curr, drop, low)), used)
    ensures ok && kind != CODES ==> used <= Enough(kind)
    ensures max <= root ==> ok && next == next0 && curr == curr0
    ensures !ok ==> kind != CODES && TableSize(lens, root) > Enough(kind)
  {
    hide Pow2, Rev, NextCode, CountTo, First, TargetOk, DoneTo, RoomFor, Between, IsMax, Left, SizeTo, Complete;
    ok, next, curr, drop, low, used := true, next0, curr0, drop0, low0, used0;
    if len > root && huff % Pow2(root) != low {
      drop := root;
      ok, next, curr, used, low :=
        OpenSubTable(x, lens, count, table, start, kind, root, max, LoopTarget(x, v), low, used, huff, len, c);
      if !ok { SizeGrows(lens, root, Rev(low, root) + 1, Pow2(root)); }
    } else {
      KeepTarget(x, table[start..], v, LoopTarget(x, v), max, huff, c, len);
    }
  }

  /** The main loop: all codes in order, shortest first. */
  method FillTables(lens: seq<nat>, work: array<nat>, count: array<nat>, table: array<Entry>, start: nat, kind: Kind,
                    root: nat, min: nat, max: nat)
    returns (ok: bool, used: nat, huff: nat, next: nat, ghost g: Target)
    requires CtxOk(Ctx(kind, lens, root)) && SortedTo(lens, work[..], |lens|) && count != work
    requires 1 <= min <= max <= MAX_BITS && Counted(lens, count[..])
    requires Count(lens, min) > 0 && Count(lens, max) > 0 && min <= root
    requires forall l: nat :: 1 <= l < min ==> Count(lens, l) == 0
    requires IsMax(lens, max) && (Complete(lens) || max <= root)
    requires if kind == CODES then max <= root && start + Pow2(root) <= table.Length
             else start + Enough(kind) <= table.Length
    modifies table, count
    ensures table[..start] == old(table[..start])
    ensures kind == CODES ==> ok && used == Pow2(root)
    ensures ok ==> g.next == next && used == End2(g) && start + used <= table.Length
    ensures ok ==> TargetOk(Ctx(kind, lens, root), table[start..], g)
    ensures ok ==> DoneTo(Ctx(kind, lens, root), table[start..], g, End(lens, max))
    ensures ok ==> huff < Pow2(max) && Rev(huff, max) == (NextCode(lens, max) + Used(lens, max)) % Pow2(max)
    ensures ok && max <= root ==> next == 0 && used == Pow2(root)
    ensures ok && kind != CODES ==> used <= Enough(kind)
    ensures ok ==> used == TableSize(lens, root)
    ensures !ok ==> kind != CODES && TableSize(lens, root) > Enough(kind)
  {
    hide Pow2, Rev, NextCode, CountTo, First, TargetOk, DoneTo, RoomFor, Between, IsMax, Left, SizeTo, TableSize;
    ghost var x := Ctx(kind, lens, root);
    used := Pow2(root);
    var sym: nat, len: nat, curr: nat, drop: nat, low: nat := 0, min, root, 0, 0xffff_ffff;
    huff, next, ok := 0, 0, kind == CODES || used <= Enough(kind);
    g := Target(0, root, false, Rev(low, root));
    if !ok {
      RootCounts(lens, root);
      return;
    }
    ghost var c: nat := 0;
    StartState(x, table[start..], count[..], min, max);
    while true
      invariant len <= max
      invariant CodeState(x, count[..], Loop(sym, len, c, huff, next, curr, drop, low), max)
      invariant TableState(x, table[start..], Loop(sym, len, c, huff, next, curr, drop, low), max)
      invariant used == next + Pow2(curr) && start + used <= table.Length && ok
      invariant table[..start] == old(table[..start])
      invariant max <= root ==> next == 0 && curr == root
      invariant kind != CODES ==> used <= Enough(kind)
      invariant Sized(x, LoopTarget(x, Loop(sym, len, c, huff, next, curr, drop, low)), used)
      decreases |lens| - sym
    {
      ghost var v := Loop(sym, len, c, huff, next, curr, drop, low);
      CurrentSymbol(x, work[..], count[..], v, max);
      SymBound(x, count[..], v, max);
      EnterSymbol(x, work[..], count[..], v, max, table, start, kind, work[sym], len, huff, next, curr, drop);
      g := LoopTarget(x, v);
      var done;
      done, sym, len, huff, c := NextSymbol(x, v, lens, work, count, sym, len, huff, max);
      if done {
        AllSized(x, v, max, used);
        break;
      }
      BetweenAfter(x, table[start..], v, max, c, len);
      ok, next, curr, drop, low, used :=
        MoveOn(x, v, lens, count, table, start, kind, root, max, used, sym, len, c, huff, next, curr, drop, low);
      if !ok { return; }
    }
  }

  lemma {:induction false} RootCounts(lens: seq<nat>, root: nat)
    requires root <= MAX_BITS
    ensures TableSize(lens, root) >= Pow2(root)
  {
    SizeGrows(lens, root, 0, Pow2(root));
  }

  /** After the last code the space in use is what the lengths need. */
  lemma {:induction false} AllSized(x: Ctx, v: Loop, max: nat, used: nat)
    requires CtxOk(x) && v.len == max && IsMax(x.lens, max) && 0 < max <= MAX_BITS && PrefixState(x, v, max)
    requires Sized(x, LoopTarget(x, v), used) && (Complete(x.lens) || max <= x.root)
    requires v.c + 1 == NextCode(x.lens, max) + Used(x.lens, max)
    ensures used == TableSize(x.lens, x.root)
  {
    hide Pow2, Rev, NextCode, CountTo, SizeTo, Left;
    if max <= x.root {
      AllShort(x.lens, x.root);
    } else {
      EndBound(x.lens, MAX_BITS);
      EndStays(x.lens, max, MAX_BITS);
      var q := Rev(v.low, x.root);
      StepPrefix(v.c, v.len, x.root, q);
      RevBound(v.low, x.root);
      LastPrefix(q, x.root);
    }
  }

  lemma {:induction false} LastPrefix(q: nat, root: nat)
    requires root <= MAX_BITS && q < Pow2(root) && Pow2(MAX_BITS) <= Pos(q + 1, root)
    ensures q + 1 == Pow2(root)
  {
    hide Pow2;
    Pow2Add(root, MAX_BITS - root);
    if q + 1 < Pow2(root) {
      Distribute(Pow2(root), q + 1, Unit(root));
      MulAtLeast(Pow2(root) - (q + 1), Unit(root));
    }
  }

  // ------------------------------------------------------------------ the whole function

  ghost predicate AnyCode(lens: seq<nat>)
  {
    exists s: nat :: s < |lens| && lens[s] != 0
  }

  /** The sets of lengths that are refused: over-subscribed ones, and incomplete ones except a
      single one-bit literal/length or distance code. */
  ghost predicate Refused(kind: Kind, lens: seq<nat>)
  {
    AnyCode(lens) &&
    (Left(lens, MAX_BITS) < 0 ||
     (Left(lens, MAX_BITS) > 0 && (kind == CODES || exists s: nat :: s < |lens| && lens[s] > 1)))
  }

  lemma {:induction false} CountPositive(lens: seq<nat>, s: nat)
    requires s < |lens|
    ensures Count(lens, lens[s]) > 0
  {
    CountToMono(lens, lens[s], s, |lens|);
  }

  lemma {:induction false} SomeOfLength(lens: seq<nat>, l: nat) returns (s: nat)
    requires Count(lens, l) > 0
    ensures s < |lens| && lens[s] == l
  {
    s := NthOfLength(lens, l, 0, |lens|);
  }

  /** The longest used length, zero if there is none. */
  ghost predicate IsMax(lens: seq<nat>, max: nat)
  {
    max <= MAX_BITS && (max > 0 ==> Count(lens, max) > 0) &&
    forall l: nat :: max < l <= MAX_BITS ==> Count(lens, l) == 0
  }

  lemma {:induction false} MaxMeaning(lens: seq<nat>, max: nat)
    requires LensOk(lens) && IsMax(lens, max)
    ensures AnyCode(lens) <==> max > 0
    ensures (exists s: nat :: s < |lens| && lens[s] > 1) <==> max > 1
    ensures forall s: nat :: s < |lens| ==> lens[s] <= max
  {
    hide CountTo;
    if max > 0 { var s := SomeOfLength(lens, max); }
    forall s: nat | s < |lens| ensures lens[s] <= max { CountPositive(lens, s); }
  }

  /** Beyond the longest length the end does not move. */
  lemma {:induction false} EndStays(lens: seq<nat>, max: nat, l: nat)
    requires IsMax(lens, max) && max <= l <= MAX_BITS
    ensures End(lens, l) == End(lens, max)
  {
    hide Pow2, CountTo;
    if l > max {
      EndStays(lens, max, l - 1);
      StartIsEnd(lens, l);
    }
  }

  lemma {:induction false} OwnedBelowEnd(lens: seq<nat>, max: nat, s: nat, r: nat)
    requires LensOk(lens) && IsMax(lens, max) && Owns(lens, s, r)
    ensures r < End(lens, max)
  {
    hide Pow2, CountTo, NextCode;
    CountPositive(lens, s);
    IntervalWithin(lens, s);
    if lens[s] < max {
      StartMono(lens, lens[s], max);
      MulMono(NextCode(lens, max), NextCode(lens, max) + Used(lens, max), Unit(max));
    }
  }

  /** Everything below the end of the longest codes decodes; for a complete code that is everything. */
  lemma {:induction false} CompleteTable(kind: Kind, lens: seq<nat>, root: nat, t: seq<Entry>, g: Target, max: nat)
    requires CtxOk(Ctx(kind, lens, root)) && Left(lens, MAX_BITS) == 0 && IsMax(lens, max)
    requires TargetOk(Ctx(kind, lens, root), t, g) && DoneTo(Ctx(kind, lens, root), t, g, End(lens, max))
    ensures TableCorrect(t[..End2(g)], root, kind, lens)
  {
    hide Pow2, CountTo, NextCode, Rev, Left, Reads, ReadsAt;
    EndBound(lens, MAX_BITS);
    EndStays(lens, max, MAX_BITS);
    forall s: nat, w: nat | w < Pow2(MAX_BITS) && Owns(lens, s, Rev(w, MAX_BITS))
      ensures Reads(t[..End2(g)], root, w, SymEntry(kind, s, lens[s]))
    {
      OwnedBelowEnd(lens, max, s, Rev(w, MAX_BITS));
      ReadsTurned(t, root, End2(g), w, SymEntry(kind, s, lens[s]));
    }
    forall w: nat | w < Pow2(MAX_BITS) ensures Owned(lens, Rev(w, MAX_BITS)) {
      RevBound(w, MAX_BITS);
      var s := CompleteOwner(lens, Rev(w, MAX_BITS));
    }
  }

  /** All entries of the root table are final. */
  ghost predicate NoLinks(t: seq<Entry>, root: nat)
  {
    Pow2(root) <= |t| && forall i: nat :: i < Pow2(root) ==> !IsLink(t[i])
  }

  /** A complete set of codes that all fit the root table. */
  lemma {:induction false} FlatTable(kind: Kind, lens: seq<nat>, root: nat, t: seq<Entry>, g: Target, max: nat)
    requires CtxOk(Ctx(kind, lens, root)) && Left(lens, MAX_BITS) == 0 && IsMax(lens, max)
    requires TargetOk(Ctx(kind, lens, root), t, g) && DoneTo(Ctx(kind, lens, root), t, g, End(lens, max)) && g.next == 0
    ensures NoLinks(t[..End2(g)], root)
  {
    hide Pow2, CountTo, NextCode, Rev, Left, ReadsAt;
    EndBound(lens, MAX_BITS);
    EndStays(lens, max, MAX_BITS);
    forall i: nat | i < Pow2(root) ensures !IsLink(t[i]) {
      Pow2Mono(root, MAX_BITS);
      RootIdxIs(root, i);
      RevBound(i, MAX_BITS);
      DivModOf(i, 0, Pow2(root), i);
      assert LinkOk(Ctx(kind, lens, root), t, g, Rev(i, MAX_BITS));
    }
  }

  /** A single one-bit code: zero decodes to its symbol, one to the invalid marker. */
  lemma {:induction false} SingleTable(kind: Kind, lens: seq<nat>, t: seq<Entry>, t': seq<Entry>, g: Target)
    requires CtxOk(Ctx(kind, lens, 1)) && Left(lens, MAX_BITS) > 0 && IsMax(lens, 1)
    requires TargetOk(Ctx(kind, lens, 1), t, g) && DoneTo(Ctx(kind, lens, 1), t, g, End(lens, 1))
    requires g.next == 0 && End2(g) == 2 && t' == t[1 := INVALID]
    ensures TableCorrect(t'[..2], 1, kind, lens)
  {
    hide CountTo, Rev, Left, ReadsAt, SymEntry, Pow2;
    Pow2Values();
    SingleEnd(lens);
    var x := Ctx(kind, lens, 1);
    forall s: nat, w: nat | w < Pow2(MAX_BITS) && Owns(lens, s, Rev(w, MAX_BITS))
      ensures Reads(t'[..2], 1, w, SymEntry(kind, s, lens[s]))
    {
      var r := Rev(w, MAX_BITS);
      OwnedBelowEnd(lens, 1, s, r);
      SingleIndex(w);
      assert LinkOk(x, t, g, r);
      ReadsTurned(t, 1, 2, w, SymEntry(kind, s, lens[s]));
      RootIdxIs(1, w);
      assert t[..2][0] == t'[..2][0];
    }
    forall w: nat | w < Pow2(MAX_BITS) && !Owned(lens, Rev(w, MAX_BITS))
      ensures Reads(t'[..2], 1, w, INVALID)
    {
      SingleIndex(w);
      if Rev(w, MAX_BITS) < 16384 {
        var s := OwnerExists(lens, 1, Rev(w, MAX_BITS));
      }
    }
  }

  lemma {:induction false} SingleEnd(lens: seq<nat>)
    requires LensOk(lens) && Left(lens, MAX_BITS) > 0 && IsMax(lens, 1)
    ensures End(lens, 1) == 16384 && Count(lens, 1) == 1
  {
    hide CountTo;
    LeftStaysNegative(lens, 1, MAX_BITS);
    Pow2Values();
    if Left(lens, 1) == 0 {
      for l := 1 to MAX_BITS
        invariant Left(lens, l) == 0
      {
      }
    }
    assert NextCode(lens, 1) == 0;
  }

  lemma {:induction false} SingleIndex(w: nat)
    requires w < Pow2(MAX_BITS)
    ensures w % Pow2(1) == (if Rev(w, MAX_BITS) < 16384 then 0 else 1)
  {
    Pow2Values();
    RootIdxIs(1, w);
    RevBound(w, MAX_BITS);
    RevOneBit(Shr(Rev(w, MAX_BITS), 14));
  }

  lemma {:induction false} RevOneBit(b: nat)
    ensures Rev(b, 1) == b % 2
  {
  }

  /** No code at all: both one-bit inputs give the invalid marker. */
  lemma {:induction false} EmptyTable(kind: Kind, lens: seq<nat>, t: seq<Entry>)
    requires |lens| <= MaxSymbols(kind) && !AnyCode(lens) && t == [INVALID, INVALID]
    ensures TableCorrect(t, 1, kind, lens)
  {
    hide Rev;
    Pow2Values();
  }

  lemma {:induction false} NoCodes(lens: seq<nat>)
    requires IsMax(lens, 0)
    ensures TableSize(lens, 1) == 2
  {
    hide CountTo, Pow2;
    Pow2Values();
    AllShort(lens, 1);
  }

  lemma {:induction false} MaxIs(lens: seq<nat>, max: nat)
    requires IsMax(lens, max)
    ensures max == Longest(lens, MAX_BITS)
  {
    hide CountTo;
    var m := Longest(lens, MAX_BITS);
  }

  lemma {:induction false} MinIs(lens: seq<nat>, min: nat, max: nat)
    requires 1 <= min <= max && Count(lens, min) > 0 && forall l: nat :: 1 <= l < min ==> Count(lens, l) == 0
    ensures min == Shortest(lens, 1, max)
  {
    hide CountTo;
    var m := Shortest(lens, 1, max);
  }

  method LongestLength(lens: seq<nat>, count: array<nat>) returns (max: nat)
    requires Counted(lens, count[..])
    ensures IsMax(lens, max)
  {
    hide CountTo;
    max := MAX_BITS;
    while max >= 1
      invariant max <= MAX_BITS
      invariant forall l: nat :: max < l <= MAX_BITS ==> Count(lens, l) == 0
    {
      if count[max] != 0 { break; }
      max := max - 1;
    }
  }

  method ShortestLength(lens: seq<nat>, count: array<nat>, max: nat) returns (min: nat)
    requires Counted(lens, count[..]) && 1 <= max <= MAX_BITS && Count(lens, max) > 0
    ensures 1 <= min <= max && Count(lens, min) > 0
    ensures forall l: nat :: 1 <= l < min ==> Count(lens, l) == 0
  {
    hide CountTo;
    min := 1;
    while min < max
      invariant 1 <= min <= max
      invariant forall l: nat :: 1 <= l < min ==> Count(lens, l) == 0
    {
      if count[min] != 0 { break; }
      min := min + 1;
    }
  }

  /** Negative as soon as some length is over-subscribed; otherwise the codes left over. */
  method CheckLengths(lens: seq<nat>, count: array<nat>) returns (left: int)
    requires Counted(lens, count[..])
    ensures left < 0 <==> Left(lens, MAX_BITS) < 0
    ensures left >= 0 ==> left == Left(lens, MAX_BITS)
  {
    hide CountTo;
    left := 1;
    for len := 1 to MAX_BITS + 1
      invariant left == Left(lens, len - 1) && left >= 0
    {
      left := 2 * left;
      left := left - count[len];
      if left < 0 {
        if Left(lens, MAX_BITS) >= 0 { LeftStaysNegative(lens, len, MAX_BITS); }
        return;
      }
    }
  }

  /** After the last code the reversed code has wrapped to zero exactly when the set is complete. */
  lemma {:induction false} FinalHuff(lens: seq<nat>, max: nat, huff: nat)
    requires LensOk(lens) && 1 <= max && IsMax(lens, max) && Left(lens, MAX_BITS) >= 0
    requires huff < Pow2(max) && Rev(huff, max) == (NextCode(lens, max) + Used(lens, max)) % Pow2(max)
    ensures Left(lens, MAX_BITS) == 0 ==> huff == 0
    ensures Left(lens, MAX_BITS) > 0 && max == 1 ==> huff == 1
  {
    hide CountTo, Rev, Pow2;
    LeftIs(lens, max);
    RevZero(max);
    if Left(lens, MAX_BITS) == 0 {
      LeftBeyond(lens, max, MAX_BITS);
      DivMod(1, Pow2(max), 0);
      RevInjective(huff, 0, max);
    } else if max == 1 {
      SingleEnd(lens);
      Pow2Values();
      RevOneBit(huff);
    }
  }

  lemma {:induction false} LeftBeyond(lens: seq<nat>, max: nat, l: nat)
    requires IsMax(lens, max) && max <= l <= MAX_BITS && Left(lens, l) == 0
    ensures Left(lens, max) == 0
  {
    hide CountTo;
    if max < l { LeftBeyond(lens, max, l - 1); }
  }

  /** Sorted symbols, admissible lengths: fill the tables and mark the free code of a single one-bit code. */
  method BuildTable(lens: seq<nat>, work: array<nat>, count: array<nat>, table: array<Entry>, start: nat, kind: Kind,
                    bits: nat, root: nat, min: nat, max: nat, left: int)
    returns (ret: int, end: nat)
    requires CtxOk(Ctx(kind, lens, root)) && SortedTo(lens, work[..], |lens|) && count != work
    requires 1 <= min <= root <= max && IsMax(lens, max) && Counted(lens, count[..])
    requires Count(lens, min) > 0
    requires forall l: nat :: 1 <= l < min ==> Count(lens, l) == 0
    requires if kind == CODES then max <= root <= bits && start + Pow2(bits) <= table.Length
             else start + Enough(kind) <= table.Length
    requires left == Left(lens, MAX_BITS) && (left == 0 || (left > 0 && kind != CODES && max == 1))
    modifies table, count
    ensures table[..start] == old(table[..start])
    ensures ret == 0 || (ret == 1 && kind != CODES)
    ensures ret == 1 <==> kind != CODES && TableSize(lens, root) > Enough(kind)
    ensures ret == 0 ==> end == start + TableSize(lens, root)
    ensures ret == 0 ==> start <= end <= table.Length && TableCorrect(table[start..end], root, kind, lens)
    ensures ret == 0 ==> end <= start + (if kind == CODES then Pow2(bits) else Enough(kind))
    ensures ret == 0 && kind == CODES ==> NoLinks(table[start..end], root)
  {
    hide TableSize, Counted, Pow2, CountTo, NextCode, Left, TableCorrect, DoneTo, Rev, TargetOk, NoLinks;
    ret, end := 1, start;
    if kind == CODES { Pow2Mono(root, bits); }
    var ok, used, huff, next;
    ghost var g;
    ok, used, huff, next, g := FillTables(lens, work, count, table, start, kind, root, min, max);
    if !ok { return; }
    FinalHuff(lens, max, huff);
    ret, end := 0, start + used;
    ghost var t := table[start..];
    if huff != 0 {
      Pow2Values();
      table[start + next + huff] := INVALID;
      assert table[start..] == t[1 := INVALID];
      SingleTable(kind, lens, t, table[start..], g);
      assert table[start..end] == table[start..][..2];
    } else {
      if left > 0 { assert false; }
      CompleteTable(kind, lens, root, t, g, max);
      if kind == CODES { FlatTable(kind, lens, root, t, g, max); }
      assert table[start..end] == t[..used];
    }
  }

  /** Builds decoding tables at table[start..] for the given code lengths; bits asks for the size of
      the root table.  Returns 0 with a correct table, -1 for lengths that are refused, or 1 when the
      space reserved for a literal/length or distance table does not suffice. */
  method InflateTable(kind: Kind, lens: seq<nat>, table: array<Entry>, start: nat, bits: nat, work: array<nat>)
    returns (ret: int, end: nat, root: nat)
    requires LensOk(lens) && |lens| <= MaxSymbols(kind) && |lens| <= work.Length
    requires 1 <= bits <= MAX_BITS
    requires if kind == CODES then start + Pow2(bits) <= table.Length && forall s :: 0 <= s < |lens| ==> lens[s] <= bits
             else start + Enough(kind) <= table.Length
    modifies table, work
    ensures table[..start] == old(table[..start])
    ensures ret == 0 || ret == -1 || ret == 1
    ensures ret == -1 <==> Refused(kind, lens)
    ensures root == RootBits(lens, bits) <= MAX_BITS
    ensures ret == 1 <==> kind != CODES && !Refused(kind, lens) && TableSize(lens, root) > Enough(kind)
    ensures ret == 0 ==> end == start + TableSize(lens, root)
    ensures ret == 0 ==> start <= end <= table.Length && TableCorrect(table[start..end], root, kind, lens)
    ensures ret == 0 ==> end <= start + (if kind == CODES then Pow2(bits) else Enough(kind))
    ensures ret == 0 && kind == CODES ==> NoLinks(table[start..end], root)
  {
    hide Pow2, CountTo, NextCode, Left, TableCorrect, TargetOk, DoneTo, IsMax, TableSize, Longest, Shortest;
    Pow2Values();
    Pow2Mono(1, bits);
    ret, end := 0, start;
    var count := CountLengths(lens);
    var max := LongestLength(lens, count);
    MaxMeaning(lens, max);
    MaxIs(lens, max);
    root := if bits > max then max else bits;
    if max == 0 {
      table[start], table[start + 1] := INVALID, INVALID;
      end, root := start + 2, 1;
      EmptyTable(kind, lens, table[start..end]);
      NoCodes(lens);
      return;
    }
    if kind == CODES { ghost var s := SomeOfLength(lens, max); }
    var min := ShortestLength(lens, count, max);
    MinIs(lens, min, max);
    if root < min { root := min; }
    var left := CheckLengths(lens, count);
    if left < 0 || (left > 0 && (kind == CODES || max != 1)) {
      ret := -1;
      return;
    }
    SortSymbols(lens, count, work);
    ret, end := BuildTable(lens, work, count, table, start, kind, bits, root, min, max, left);
  }
}
