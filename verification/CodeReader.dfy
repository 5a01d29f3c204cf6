/** Reading one code through the decoding tables, pulling in no more bytes than the code needs: the loops on
    lencode and distcode in inflate.c. */
module CodeReader {
  import opened Bits
  import opened Canonical
  import opened InflateTable
  import opened FixedTrees
  import opened BitWriter
  import opened BitReader
  import opened Rfc1951

  /** What a table entry for the stream b says. */
  ghost predicate Means(kind: Kind, lens: seq<nat>, b: seq<bool>, e: Entry)
  {
    match Lookup(lens, b)
    case Sym(s, n) => s < MaxSymbols(kind) && e == SymEntry(kind, s, n)
    case NoCode => e == INVALID
    case More => e.bits > |b|
  }

  lemma {:induction false} WindowOfHold(hold: nat, bits: nat)
    requires hold < Pow2(bits)
    ensures Window(ToBits(hold, bits)) == Rev(hold % Pow2(MAX_BITS), MAX_BITS)
  {
    hide Pow2, Rev, ToBits, FromBits;
    var b := ToBits(hold, bits);
    if bits < MAX_BITS {
      FromToBits(hold, bits);
      Pow2Mono(bits, MAX_BITS);
      DivModOf(hold, 0, Pow2(bits), hold);
      DivModOf(hold, 0, Pow2(MAX_BITS), hold);
    } else {
      ToBitsSplit(hold, MAX_BITS, bits - MAX_BITS);
      assert b[..MAX_BITS] == ToBits(hold, MAX_BITS);
      FromToBits(hold, MAX_BITS);
    }
  }

  /** The table holds the right entry for every state of the accumulator. */
  lemma {:induction false} EntryFor(t: seq<Entry>, root: nat, kind: Kind, lens: seq<nat>, hold: nat,
      bits: nat) returns (e: Entry)
    requires TableCorrect(t, root, kind, lens) && hold < Pow2(bits)
    ensures Reads(t, root, hold % Pow2(MAX_BITS), e) && Means(kind, lens, ToBits(hold, bits), e)
  {
    hide Pow2, Rev, ToBits, Reads, Owns, Lookup, Window;
    var b, w := ToBits(hold, bits), hold % Pow2(MAX_BITS);
    WindowOfHold(hold, bits);
    DivModIdentity(hold, Pow2(MAX_BITS));
    if Owned(lens, Rev(w, MAX_BITS)) {
      var s: nat :| Owns(lens, s, Rev(w, MAX_BITS));
      OwnsRange(lens, s, Rev(w, MAX_BITS));
      LookupOwner(lens, b, s);
      e := SymEntry(kind, s, lens[s]);
    } else {
      LookupUnowned(lens, b);
      e := INVALID;
    }
  }

  lemma {:induction false} OwnsRange(lens: seq<nat>, s: nat, r: nat)
    requires Owns(lens, s, r)
    ensures s < |lens| && lens[s] > 0
  {
  }

  lemma {:induction false} LookupUnowned(lens: seq<nat>, b: seq<bool>)
    requires !Owned(lens, Window(b))
    ensures Lookup(lens, b) == if |b| == 0 then More else NoCode
  {
  }

  /** The first table index depends on the low root bits only, the second on fifteen at most. */
  lemma {:induction false} IndexBits(hold: nat, n: nat)
    requires n <= MAX_BITS
    ensures hold % Pow2(MAX_BITS) >= 0 && hold % Pow2(MAX_BITS) % Pow2(n) == hold % Pow2(n)
  {
    hide Pow2;
    Pow2Add(n, MAX_BITS - n);
    DivDiv(hold, Pow2(n), Pow2(MAX_BITS - n));
    DivModIdentity(hold, Pow2(n));
    MulComm(Pow2(n), Pow2(MAX_BITS - n));
    DivMod(hold / Pow2(n) % Pow2(MAX_BITS - n), Pow2(n), hold % Pow2(n));
    DivModIdentity(hold, Pow2(MAX_BITS));
  }

  /** The two lookups of the source. */
  function FirstIndex(root: nat, hold: nat): (r: nat)
  {
    ModNonnegative(hold, Pow2(root));
    hold % Pow2(root)
  }

  function SecondIndex(last: Entry, hold: nat): (r: nat)
  {
    ModNonnegative(hold, Pow2(last.bits + last.op));
    last.val + Shr(hold % Pow2(last.bits + last.op), last.bits)
  }

  lemma {:induction false} ModNonnegative(a: nat, b: nat)
    requires b > 0
    ensures a % b >= 0
  {
  }

  /** What the first lookup gives, and the second one if the first is a link. */
  lemma {:induction false} LookupSteps(t: seq<Entry>, root: nat, kind: Kind, lens: seq<nat>, hold: nat, bits: nat)
    returns (e: Entry)
    requires TableCorrect(t, root, kind, lens) && hold < Pow2(bits)
    ensures Means(kind, lens, ToBits(hold, bits), e) && FirstIndex(root, hold) < |t|
    ensures var here := t[FirstIndex(root, hold)];
      if IsLink(here) then
        here.bits == root && SecondIndex(here, hold) < |t| &&
        e == Entry(t[SecondIndex(here, hold)].op, here.bits + t[SecondIndex(here, hold)].bits,
          t[SecondIndex(here, hold)].val)
      else e == here
  {
    hide Pow2, Means, ToBits;
    e := EntryFor(t, root, kind, lens, hold, bits);
    IndexBits(hold, root);
    var here := t[FirstIndex(root, hold)];
    if IsLink(here) { IndexBits(hold, here.bits + here.op); }
  }

  /** Held bits that do not determine a symbol: it is longer than they are. */
  lemma {:induction false} FoundLonger(kind: Kind, lens: seq<nat>, b: seq<bool>, c: seq<bool>)
    requires Accepted(kind, lens) && Lookup(lens, b) == More
    ensures Lookup(lens, b + c).Sym? ==> Lookup(lens, b + c).n > |b|
    ensures Lookup(lens, b + c).NoCode? ==> |b| == 0
  {
    hide Lookup, Window, CodeBits, Accepted, Left;
    AcceptedValid(kind, lens);
    if Lookup(lens, b + c).Sym? {
      var s := Lookup(lens, b + c).s;
      LookupStarts(lens, b + c);
      LookupSym(lens, b + c);
      StartsLonger(b, c, CodeBits(lens, s));
      if lens[s] <= |b| { LookupCode(lens, s, b); }
    } else if Lookup(lens, b + c).NoCode? && |b| > 0 {
      LookupNone(lens, b + c);
      NotOwned(lens, b);
      var s: nat :| Owns(lens, s, Window(b));
      OwnsRange(lens, s, Window(b));
      LookupOwner(lens, b, s);
      UnownedShort(kind, lens, b + c, s);
    }
  }

  /** How many bits a lookup uses. */
  ghost function UsedBits(f: Found): (r: nat)
  {
    match f case Sym(_, n) => n case NoCode => 1 case More => 0
  }

  /** No more bytes were pulled in than the code needed: those held before did not determine it. */
  ghost predicate Frugal(lens: seq<nat>, b: seq<bool>, bits0: nat, bits: nat)
  {
    bits == bits0 || (bits0 + 8 <= bits && bits - 8 <= |b| && Lookup(lens, b[..bits - 8]) == More)
  }

  /** The code at the front of the stream, not taken away yet. */
  method PeekCode(r: Reader, table: seq<Entry>, root: nat, ghost kind: Kind, ghost lens: seq<nat>) returns (ok: bool,
      here: Entry)
    requires r.Valid() && TableCorrect(table, root, kind, lens) && Accepted(kind, lens)
    modifies r`next, r`hold, r`bits
    ensures r.Valid() && r.Rest() == old(r.Rest()) && old(r.next) <= r.next
    ensures if ok then FirstIndex(root, r.hold) < |table| && here == table[FirstIndex(root, r.hold)]
        && here.bits <= r.bits
            else r.next == |r.input| && Lookup(lens, r.Rest()) == More
    ensures Frugal(lens, r.Rest(), old(r.bits), r.bits)
  {
    hide Pow2, TableCorrect, Accepted, Lookup, FirstIndex, SecondIndex, ToBits;
    ok := true;
    while true
      invariant r.Valid() && r.Rest() == old(r.Rest()) && old(r.next) <= r.next && ok
      invariant Frugal(lens, r.Rest(), old(r.bits), r.bits)
      decreases |r.input| - r.next
    {
      ghost var e := LookupSteps(table, root, kind, lens, r.hold, r.bits);
      here := table[FirstIndex(root, r.hold)];
      if here.bits <= r.bits { break; }
      NotYetFound(kind, lens, ToBits(r.hold, r.bits), e);
      HeldFront(r);
      if r.next == |r.input| {
        ok := false;
        return;
      }
      r.PullByte();
    }
  }

  lemma {:induction false} NotYetFound(kind: Kind, lens: seq<nat>, b: seq<bool>, e: Entry)
    requires Means(kind, lens, b, e) && e.bits > |b|
    ensures Lookup(lens, b) == More
  {
    hide Lookup;
    LookupFits(lens, b);
  }

  lemma {:induction false} LookupFits(lens: seq<nat>, b: seq<bool>)
    ensures Lookup(lens, b).Sym? ==> 0 < Lookup(lens, b).n <= |b|
    ensures Lookup(lens, b).NoCode? ==> |b| > 0
  {
  }

  lemma {:induction false} HeldFront(r: Reader)
    requires r.Valid()
    ensures r.bits <= |r.Rest()| && r.Rest()[..r.bits] == ToBits(r.hold, r.bits)
    ensures r.next == |r.input| ==> r.Rest() == ToBits(r.hold, r.bits)
    ensures r.Rest() == ToBits(r.hold, r.bits) + BytesBits(r.input[r.next..])
  {
    hide ToBits;
    NoBytes();
    if r.next == |r.input| { assert r.input[r.next..] == []; }
  }

  /** Reads the code at the front of the stream. */
  method ReadCode(r: Reader, table: seq<Entry>, root: nat, ghost kind: Kind, ghost lens: seq<nat>) returns (ok: bool,
      here: Entry)
    requires r.Valid() && TableCorrect(table, root, kind, lens) && Accepted(kind, lens)
    modifies r`next, r`hold, r`bits
    ensures r.Valid() && old(r.next) <= r.next
    ensures !ok ==> r.next == |r.input| && r.Rest() == old(r.Rest()) && Lookup(lens, r.Rest()) == More
    ensures ok ==> Lookup(lens, old(r.Rest())) != More && UsedBits(Lookup(lens, old(r.Rest()))) <= |old(r.Rest())|
                   && r.Rest() == old(r.Rest())[UsedBits(Lookup(lens, old(r.Rest())))..]
                   && EntryIs(kind, Lookup(lens, old(r.Rest())), here)
    ensures ok && (old(r.bits) < 8 || Lookup(lens, old(ToBits(r.hold, r.bits))) == More) ==> r.bits < 8
  {
    hide Pow2, TableCorrect, Accepted, Lookup, FirstIndex, SecondIndex, ToBits, Frugal;
    ghost var bits0 := r.bits;
    HeldFront(r);
    ok, here := PeekCode(r, table, root, kind, lens);
    if !ok { return; }
    ghost var e := LookupSteps(table, root, kind, lens, r.hold, r.bits);
    if here.op != 0 && here.op < 16 {
      ok, here := ReadLinked(r, table, root, here, kind, lens, bits0);
    } else {
      CodeFound(r, kind, lens, e, bits0);
      r.DropBits(here.bits);
    }
  }

  /** The second part of a code whose first part is last. */
  method ReadLinked(r: Reader, table: seq<Entry>, root: nat, last: Entry, ghost kind: Kind, ghost lens: seq<nat>,
      ghost bits0: nat)
    returns (ok: bool, here: Entry)
    requires r.Valid() && TableCorrect(table, root, kind, lens) && Accepted(kind, lens) && bits0 <= |r.Rest()|
    requires IsLink(last) && last.bits == root <= r.bits && FirstIndex(root, r.hold) < |table|
        && last == table[FirstIndex(root, r.hold)]
    requires Frugal(lens, r.Rest(), bits0, r.bits)
    modifies r`next, r`hold, r`bits
    ensures r.Valid() && old(r.next) <= r.next
    ensures !ok ==> r.next == |r.input| && r.Rest() == old(r.Rest()) && Lookup(lens, r.Rest()) == More
    ensures ok ==> Lookup(lens, old(r.Rest())) != More && UsedBits(Lookup(lens, old(r.Rest()))) <= |old(r.Rest())|
                   && r.Rest() == old(r.Rest())[UsedBits(Lookup(lens, old(r.Rest())))..]
                   && EntryIs(kind, Lookup(lens, old(r.Rest())), here)
    ensures ok && (bits0 < 8 || Lookup(lens, old(r.Rest())[..bits0]) == More) ==> r.bits < 8
  {
    hide Pow2, TableCorrect, Accepted, Lookup, FirstIndex, SecondIndex, ToBits, Frugal;
    ghost var b := r.Rest();
    ok, here := PeekSecond(r, table, root, last, kind, lens, bits0);
    if !ok { return; }
    ghost var e := LookupSteps(table, root, kind, lens, r.hold, r.bits);
    CodeFound(r, kind, lens, e, bits0);
    DropTwice(b, last.bits, here.bits);
    r.DropBits(last.bits);
    r.DropBits(here.bits);
  }

  lemma {:induction false} DropTwice(b: seq<bool>, m: nat, n: nat)
    requires m + n <= |b|
    ensures b[m..][n..] == b[m + n..]
  {
  }

  /** The entry of the sub-table that last links to. */
  method PeekSecond(r: Reader, table: seq<Entry>, root: nat, last: Entry, ghost kind: Kind, ghost lens: seq<nat>,
      ghost bits0: nat)
    returns (ok: bool, here: Entry)
    requires r.Valid() && TableCorrect(table, root, kind, lens) && Accepted(kind, lens)
    requires IsLink(last) && last.bits == root <= r.bits && FirstIndex(root, r.hold) < |table|
        && last == table[FirstIndex(root, r.hold)]
    requires Frugal(lens, r.Rest(), bits0, r.bits)
    modifies r`next, r`hold, r`bits
    ensures r.Valid() && r.Rest() == old(r.Rest()) && old(r.next) <= r.next && Frugal(lens, r.Rest(), bits0, r.bits)
    ensures if ok then
              FirstIndex(root, r.hold) < |table| && last == table[FirstIndex(root, r.hold)]
                && SecondIndex(last, r.hold) < |table| &&
              here == table[SecondIndex(last, r.hold)] && last.bits + here.bits <= r.bits
            else r.next == |r.input| && Lookup(lens, r.Rest()) == More
  {
    hide Pow2, TableCorrect, Accepted, Lookup, FirstIndex, SecondIndex, ToBits;
    ok := true;
    while true
      invariant r.Valid() && r.Rest() == old(r.Rest()) && old(r.next) <= r.next && root <= r.bits && ok
      invariant Frugal(lens, r.Rest(), bits0, r.bits)
      invariant FirstIndex(root, r.hold) < |table| && last == table[FirstIndex(root, r.hold)]
      decreases |r.input| - r.next
    {
      ghost var e := LookupSteps(table, root, kind, lens, r.hold, r.bits);
      here := table[SecondIndex(last, r.hold)];
      if last.bits + here.bits <= r.bits { break; }
      NotYetFound(kind, lens, ToBits(r.hold, r.bits), e);
      HeldFront(r);
      if r.next == |r.input| {
        ok := false;
        return;
      }
      FirstIndexIs(r, root);
      r.PullByte();
      FirstIndexIs(r, root);
    }
  }

  lemma {:induction false} FirstIndexIs(r: Reader, root: nat)
    requires r.Valid() && root <= r.bits
    ensures |r.Rest()| >= root && FirstIndex(root, r.hold) == Decoder.Field(r.Rest(), 0, root)
  {
    hide Pow2, ToBits;
    r.LowBitsAre(root);
  }

  /** The entry a found code leads to. */
  ghost predicate EntryIs(kind: Kind, f: Found, here: Entry)
  {
    match f
    case Sym(s, n) => s < MaxSymbols(kind) && here.op == SymEntry(kind, s, n).op && here.val == SymEntry(kind, s, n).val
    case NoCode => here.op == 64 && here.val == 0
    case More => false
  }

  /** An entry whose bits are all there is what the whole rest of the stream starts with. */
  lemma {:induction false} CodeFound(r: Reader, kind: Kind, lens: seq<nat>, e: Entry, bits0: nat)
    requires r.Valid() && Accepted(kind, lens) && Means(kind, lens, ToBits(r.hold, r.bits), e) && e.bits <= r.bits
    requires Frugal(lens, r.Rest(), bits0, r.bits) && bits0 <= |r.Rest()|
    ensures Lookup(lens, r.Rest()) != More && e.bits == UsedBits(Lookup(lens, r.Rest()))
        && EntryIs(kind, Lookup(lens, r.Rest()), e)
    ensures bits0 < 8 || Lookup(lens, r.Rest()[..bits0]) == More ==> r.bits - e.bits < 8
  {
    hide Lookup, Accepted, ToBits, Pow2;
    HeldFront(r);
    var held, tail := ToBits(r.hold, r.bits), BytesBits(r.input[r.next..]);
    LookupFits(lens, held);
    LookupMore(kind, lens, held, tail);
    if r.bits != bits0 {
      var k := r.bits - 8;
      assert r.Rest() == r.Rest()[..k] + r.Rest()[k..];
      FoundLonger(kind, lens, r.Rest()[..k], r.Rest()[k..]);
    }
  }

  // ------------------------------------------------------------------ the fast path

  /** Fifteen bits hold any code. */
  lemma {:induction false} EnoughHeld(kind: Kind, lens: seq<nat>, b: seq<bool>)
    requires Accepted(kind, lens) && |b| >= MAX_BITS
    ensures Lookup(lens, b) != More && UsedBits(Lookup(lens, b)) <= MAX_BITS
  {
    hide Window;
    if Owned(lens, Window(b)) {
      var s: nat :| Owns(lens, s, Window(b));
      OwnsRange(lens, s, Window(b));
      LookupOwner(lens, b, s);
    } else {
      LookupUnowned(lens, b);
    }
  }

  /** Taking the first part of a code away before the second lookup. */
  lemma {:induction false} IndexAfter(last: Entry, hold: nat)
    ensures SecondIndex(last, hold) == last.val + FirstIndex(last.op, Shr(hold, last.bits))
  {
    hide Pow2;
    var a, b := last.bits, last.op;
    Pow2Add(a, b);
    DivDiv(hold, Pow2(a), Pow2(b));
    DivModIdentity(hold, Pow2(a));
    DivModIdentity(hold / Pow2(a), Pow2(b));
    var q, m, t := hold / Pow2(a), hold % Pow2(a), hold / Pow2(a) / Pow2(b);
    MulComm(Pow2(a), Pow2(b));
    DivMod(q % Pow2(b), Pow2(a), m);
    MulMono(q % Pow2(b) + 1, Pow2(b), Pow2(a));
    Distribute(q % Pow2(b), 1, Pow2(a));
    Regroup(hold, Pow2(a), Pow2(b), q, m, t);
    DivModOf(hold, t, Pow2(a + b), (q % Pow2(b)) * Pow2(a) + m);
  }

  lemma {:induction false} Regroup(hold: nat, p: nat, w: nat, q: nat, m: nat, t: nat)
    requires p > 0 && w > 0 && hold == q * p + m && q == t * w + q % w
    ensures hold == t * (p * w) + ((q % w) * p + m)
  {
    Distribute(t * w, q % w, p);
    MulAssoc(t, w, p);
    MulComm(w, p);
  }

  lemma {:induction false} MulAssoc(a: int, b: int, c: int)
    ensures a * b * c == a * (b * c)
  {
  }

  /** Reads the code at the front of the stream with at least fifteen bits held. */
  method FastCode(r: Reader, table: seq<Entry>, root: nat, ghost kind: Kind, ghost lens: seq<nat>) returns (here: Entry)
    requires r.Valid() && TableCorrect(table, root, kind, lens) && Accepted(kind, lens) && r.bits >= 15
    modifies r`hold, r`bits
    ensures r.Valid()
    ensures Lookup(lens, old(r.Rest())) != More && UsedBits(Lookup(lens, old(r.Rest()))) <= 15 <= |old(r.Rest())|
    ensures r.Rest() == old(r.Rest())[UsedBits(Lookup(lens, old(r.Rest())))..]
        && EntryIs(kind, Lookup(lens, old(r.Rest())), here)
  {
    hide Pow2, TableCorrect, Accepted, Lookup, FirstIndex, SecondIndex, ToBits, EntryIs;
    ghost var b := r.Rest();
    ghost var e := FastEntry(r, table, root, kind, lens);
    here := table[FirstIndex(root, r.hold)];
    if IsLink(here) {
      ghost var hold, last := r.hold, here;
      DropTwice(b, last.bits, e.bits - last.bits);
      IndexAfter(last, hold);
      r.DropBits(here.bits);
      here := table[here.val + FirstIndex(here.op, r.hold)];
      SameEntry(kind, Lookup(lens, b), e, here);
      r.DropBits(here.bits);
    } else {
      r.DropBits(here.bits);
    }
  }

  lemma {:induction false} SameEntry(kind: Kind, f: Found, e: Entry, here: Entry)
    requires EntryIs(kind, f, e) && here.op == e.op && here.val == e.val
    ensures EntryIs(kind, f, here)
  {
  }

  lemma {:induction false} FastEntry(r: Reader, table: seq<Entry>, root: nat, kind: Kind,
      lens: seq<nat>) returns (e: Entry)
    requires r.Valid() && TableCorrect(table, root, kind, lens) && Accepted(kind, lens) && r.bits >= 15
    ensures Lookup(lens, r.Rest()) != More && UsedBits(Lookup(lens, r.Rest())) <= 15 <= |r.Rest()|
    ensures e.bits == UsedBits(Lookup(lens, r.Rest())) && EntryIs(kind, Lookup(lens, r.Rest()), e)
        && FirstIndex(root, r.hold) < |table|
    ensures var here := table[FirstIndex(root, r.hold)];
      if IsLink(here) then
        SecondIndex(here, r.hold) < |table|
          && e == Entry(table[SecondIndex(here, r.hold)].op, here.bits + table[SecondIndex(here, r.hold)].bits,
          table[SecondIndex(here, r.hold)].val)
      else e == here
  {
    hide Pow2, TableCorrect, Accepted, Lookup, FirstIndex, SecondIndex, ToBits;
    e := LookupSteps(table, root, kind, lens, r.hold, r.bits);
    HeldFront(r);
    var held, tail := ToBits(r.hold, r.bits), BytesBits(r.input[r.next..]);
    EnoughHeld(kind, lens, held);
    LookupMore(kind, lens, held, tail);
  }
}
