/** The inflate state machine of inflate.c, proved to take the steps of the decoder on bits whatever the pieces
    in which input arrives and output is taken. */
module Inflate {
  import opened Bits
  import opened Canonical
  import opened InflateTable
  import opened TableBound
  import opened StaticTables
  import opened FixedTrees
  import opened RunLength
  import opened BitWriter
  import opened BitReader
  import opened Rfc1951
  import opened Decoder
  import opened CodeReader
  import opened InflateSteps
  import opened InflateWindow

  datatype Mode =
    TYPE | STORED | COPY | TABLE | LENLENS | CODELENS | LEN | LENEXT | DIST | DISTEXT | MATCH | LIT | CHECK | BAD

  /** One step, and what is left of the input. */
  lemma {:induction false} TakeStep(c0: Conf, st: State, b: seq<bool>, st1: State, used: nat, b1: seq<bool>)
    requires Reaches(c0, Conf(st, b)) && PhaseOk(st.phase) && Step(st, b) == Go(st1, used) && used <= |b|
        && b1 == b[used..]
    ensures Reaches(c0, Conf(st1, b1)) && PhaseOk(st1.phase) && st1.size == st.size
    ensures Fewer(st, b, st1, b1)
  {
    hide Step, PhaseOk, Reaches;
    StepOk(st, b);
    StepProgress(st, b);
    ReachesStep(Conf(st, b), st1, used);
    ReachesTrans(c0, Conf(st, b), Conf(st1, b1));
  }

  /** Less is left to do. */
  ghost predicate Fewer(st: State, b: seq<bool>, st1: State, b1: seq<bool>)
  {
    |b1| < |b| || (|b1| == |b| && StepsLeft(st1.phase) < StepsLeft(st.phase))
  }

  ghost predicate NoMore(st: State, b: seq<bool>, st1: State, b1: seq<bool>)
  {
    |b1| < |b| || (|b1| == |b| && StepsLeft(st1.phase) <= StepsLeft(st.phase))
  }

  /** The tables for the trees ll and dl. */
  ghost predicate TablesFor(lencode: seq<Entry>, lenbits: nat, distcode: seq<Entry>, distbits: nat, ll: seq<nat>,
      dl: seq<nat>)
  {
    TableCorrect(lencode, lenbits, LENS, ll) && TableCorrect(distcode, distbits, DISTS, dl)
  }

  /** The table for the code length code. */
  ghost predicate TableForCodes(lencode: seq<Entry>, lenbits: nat, cl: seq<nat>)
  {
    TableCorrect(lencode, lenbits, CODES, cl) && NoLinks(lencode, lenbits)
  }

  /** The code length code lengths read so far, each in its place. */
  ghost predicate InPlace(lens: seq<nat>, got: seq<nat>)
  {
    |got| <= 19 <= |lens| && forall i: nat :: i < |got| ==> lens[Order(i)] == got[i]
  }

  lemma {:induction false} InPlaceNone(lens: seq<nat>)
    requires 19 <= |lens|
    ensures InPlace(lens, [])
  {
  }

  /** The distances fit the window: the decoder never meets one that is larger than it but within the output. */
  ghost predicate NeverWild(c: Conf)
  {
    !Run(c).st.phase.Wild?
  }

  lemma {:induction false} WildNotReached(c: Conf, d: Conf)
    requires NeverWild(c) && Reaches(c, d)
    ensures !d.st.phase.Wild?
  {
    hide Reaches;
    RunReaches(c, d);
    if d.st.phase.Wild? { RunStuck(d); }
  }

  /** Between two steps fewer than eight bits are held, or too few for the next step. */
  ghost predicate HoldOk(st: State, hold: nat, bits: nat)
  {
    bits < 8 || Step(st, ToBits(hold, bits)) == Wait
  }

  lemma {:induction false} HeldWaits(r: Reader, st: State)
    requires r.Valid() && r.next == |r.input| && Step(st, r.Rest()) == Wait
    ensures HoldOk(st, r.hold, r.bits)
  {
    hide Step, ToBits;
    HeldFront(r);
  }

  lemma {:induction false} HeldShort(st: State, hold: nat, bits: nat)
    requires bits < 8 || Ended(st.phase)
    ensures HoldOk(st, hold, bits)
  {
  }

  lemma {:induction false} HeldType(st: State, hold: nat, bits: nat)
    requires HoldOk(st, hold, bits) && st.phase.Type? && !st.last
    ensures bits < 8
  {
    hide ToBits, FixedLit, FixedDist;
  }

  lemma {:induction false} HeldStored(st: State, hold: nat, bits: nat)
    requires HoldOk(st, hold, bits) && (st.phase.Stored? || st.phase.StoredLen?)
    ensures bits < 32 && (st.phase.Stored? ==> bits < 8)
  {
    hide ToBits;
  }

  lemma {:induction false} HeldTable(st: State, hold: nat, bits: nat)
    requires HoldOk(st, hold, bits) && st.phase.Table?
    ensures bits < 14
  {
    hide ToBits;
  }

  /** Where no bits are used, fewer than eight are held. */
  lemma {:induction false} HeldIdle(st: State, hold: nat, bits: nat)
    requires HoldOk(st, hold, bits)
    requires st.phase.Stored? || st.phase.Copying? || st.phase.Emitting? || (st.phase.Type? && st.last)
        || (st.phase.Copy? && st.phase.n == 0)
    ensures bits < 8
  {
    hide ToBits;
  }

  // ------------------------------------------------------------------ reading fields

  /** NEEDBITS, BITS and DROPBITS of n bits. */
  method TakeField(r: Reader, n: nat) returns (ok: bool, v: nat)
    requires r.Valid()
    modifies r`next, r`hold, r`bits
    ensures r.Valid() && old(r.next) <= r.next
    ensures if ok then |old(r.Rest())| >= n && v == Field(old(r.Rest()), 0, n) && r.Rest() == old(r.Rest())[n..]
            else r.next == |r.input| && r.Rest() == old(r.Rest()) && |r.Rest()| < n
    ensures ok && (old(r.bits) < 8 || old(r.bits) < n) ==> r.bits < 8
  {
    hide Pow2, ToBits, FromBits;
    v := 0;
    ok := r.NeedBits(n);
    if ok {
      r.LowBitsAre(n);
      v := r.LowBits(n);
      r.DropBits(n);
    }
  }

  /** The three bits of a block header. */
  method ReadHeader(r: Reader) returns (ok: bool, last: bool, kind: nat)
    requires r.Valid()
    modifies r`next, r`hold, r`bits
    ensures r.Valid()
    ensures if ok then |old(r.Rest())| >= 3 && last == old(r.Rest())[0] && kind == Field(old(r.Rest()), 1, 2)
        && r.Rest() == old(r.Rest())[3..]
            else r.next == |r.input| && r.Rest() == old(r.Rest()) && |r.Rest()| < 3
    ensures ok && old(r.bits) < 8 ==> r.bits < 8
  {
    hide Pow2, ToBits, FromBits;
    ghost var b := r.Rest();
    last, kind := false, 0;
    ok := r.NeedBits(3);
    if ok {
      HeaderBits(b);
      DropTwice(b, 1, 2);
      r.LowBitsAre(1);
      last := r.LowBits(1) == 1;
      r.DropBits(1);
      r.LowBitsAre(2);
      kind := r.LowBits(2);
      r.DropBits(2);
    }
  }

  lemma {:induction false} HeaderBits(b: seq<bool>)
    requires |b| >= 3
    ensures b[0] <==> Field(b, 0, 1) == 1
    ensures Field(b[1..], 0, 2) == Field(b, 1, 2)
  {
    assert b[0..0 + 1] == [b[0]];
    assert [b[0]][1..] == [];
    assert FromBits([]) == 0;
    assert FromBits([b[0]]) == if b[0] then 1 else 0;
    assert b[1..][0..0 + 2] == b[1..1 + 2];
  }

  /** The length of a stored block and its complement; the accumulator holds whole bytes. */
  method ReadStoredLens(r: Reader) returns (ok: bool, low: nat, high: nat)
    requires r.Valid() && r.bits % 8 == 0 && r.bits < 32
    modifies r`next, r`hold, r`bits
    ensures r.Valid()
    ensures if ok then |old(r.Rest())| >= 32 && low == Field(old(r.Rest()), 0, 16)
        && high == Field(old(r.Rest()), 16, 16) && r.bits == 32
                       && r.Rest() == old(r.Rest())
            else r.next == |r.input| && r.Rest() == old(r.Rest()) && |r.Rest()| < 32
    ensures r.bits % 8 == 0
  {
    hide Pow2, ToBits, FromBits;
    low, high := 0, 0;
    ok := r.NeedBits(32);
    if ok {
      assert r.bits == 32;
      StoredFields(r);
      low, high := r.hold % 0x1_0000, r.hold / 0x1_0000;
    }
  }

  lemma {:induction false} StoredFields(r: Reader)
    requires r.Valid() && r.bits == 32
    ensures |r.Rest()| >= 32 && r.hold % 0x1_0000 == Field(r.Rest(), 0, 16)
        && r.hold / 0x1_0000 == Field(r.Rest(), 16, 16)
    ensures r.hold % 0x1_0000 >= 0 && r.hold / 0x1_0000 >= 0
  {
    hide Pow2, ToBits, FromBits;
    var tail := BytesBits(r.input[r.next..]);
    FieldOfHold(r.hold, 32, tail, 0, 16);
    FieldOfHold(r.hold, 32, tail, 16, 16);
    Pow2Values();
    Pow2Add(16, 16);
    NoBits();
    DivModIdentity(r.hold, 0x1_0000);
    DivModOf(r.hold / 0x1_0000, 0, 0x1_0000, r.hold / 0x1_0000);
  }

  /** The three counts in front of a dynamic block's codes. */
  method ReadCounts(r: Reader) returns (ok: bool, nlen: nat, ndist: nat, ncode: nat)
    requires r.Valid()
    modifies r`next, r`hold, r`bits
    ensures r.Valid()
    ensures if ok then |old(r.Rest())| >= 14 && nlen == Field(old(r.Rest()), 0, 5) + 257
        && ndist == Field(old(r.Rest()), 5, 5) + 1
                       && ncode == Field(old(r.Rest()), 10, 4) + 4 && r.Rest() == old(r.Rest())[14..]
            else r.next == |r.input| && r.Rest() == old(r.Rest()) && |r.Rest()| < 14
    ensures ok && (old(r.bits) < 8 || old(r.bits) < 14) ==> r.bits < 8
  {
    hide Pow2, ToBits, FromBits, Field;
    ghost var b := r.Rest();
    nlen, ndist, ncode := 0, 0, 0;
    ok := r.NeedBits(14);
    if ok {
      DropTwice(b, 5, 5);
      DropTwice(b, 10, 4);
      r.LowBitsAre(5);
      nlen := r.LowBits(5) + 257;
      r.DropBits(5);
      r.LowBitsAre(5);
      FieldOfRest(b, 5, 5);
      ndist := r.LowBits(5) + 1;
      r.DropBits(5);
      r.LowBitsAre(4);
      FieldOfRest(b, 10, 4);
      ncode := r.LowBits(4) + 4;
      r.DropBits(4);
    }
  }

  lemma {:induction false} FieldOfRest(b: seq<bool>, i: nat, n: nat)
    requires i + n <= |b|
    ensures Field(b[i..], 0, n) == Field(b, i, n)
  {
    assert b[i..][0..0 + n] == b[i..i + n];
  }

  lemma {:induction false} StepHead(st: State, b: seq<bool>)
    ensures st.phase.Type? ==> Step(st, b) == StepType(st, b)
    ensures st.phase.Stored? ==> Step(st, b) == StepStored(st, b)
    ensures st.phase.StoredLen? ==> Step(st, b) == StepStoredLen(st, b)
    ensures st.phase.Table? ==> Step(st, b) == StepTable(st, b)
  {
  }

  // ------------------------------------------------------------------ variables and state

  /** The numbers among the variables of the state machine. */
  datatype Vars = Vars(mode: Mode, last: bool, length: nat, offset: nat, extra: nat, nlen: nat, ndist: nat,
    ncode: nat, have: nat)

  /** The variables and the number of bits held stand for the state of the decoder. */
  ghost predicate Stands(v: Vars, bits: nat, st: State)
  {
    && st.last == v.last
    && match v.mode
       case TYPE => st.phase.Type?
       case STORED => (st.phase.Stored? || (st.phase.StoredLen? && bits % 8 == 0))
       case COPY => st.phase == Copy(v.length) && bits == 0
       case TABLE => st.phase.Table?
       case CHECK => st.phase.Check?
       case BAD => st.phase.Bad?
       case LENLENS => st.phase.LenLens? && st.phase.nlen == v.nlen && st.phase.ndist == v.ndist
         && st.phase.ncode == v.ncode && |st.phase.got| == v.have
       case CODELENS => st.phase.CodeLens? && st.phase.nlen == v.nlen && st.phase.ndist == v.ndist
         && |st.phase.got| == v.have
       case LEN => st.phase.Len?
       case LENEXT => st.phase.LenExt? && st.phase.len == v.length && st.phase.extra == v.extra
       case DIST => st.phase.Dist? && st.phase.len == v.length
       case DISTEXT => st.phase.DistExt? && st.phase.len == v.length && st.phase.dist == v.offset
         && st.phase.extra == v.extra
       case MATCH => st.phase.Copying? && st.phase.len == v.length && st.phase.dist == v.offset
       case LIT => st.phase.Emitting? && st.phase.b == v.length
  }

  /** The trees of a state that decodes symbols. */
  ghost function TreesOf(p: Phase): (t: (seq<nat>, seq<nat>))
  {
    match p
    case Len(a, b) => (a, b)
    case LenExt(a, b, _, _) => (a, b)
    case Dist(a, b, _) => (a, b)
    case DistExt(a, b, _, _, _) => (a, b)
    case Copying(a, b, _, _) => (a, b)
    case Emitting(a, b, _) => (a, b)
    case _ => ([], [])
  }

  predicate Decoding(m: Mode)
  {
    m == LEN || m == LENEXT || m == DIST || m == DISTEXT || m == MATCH || m == LIT
  }

  // What Stands says of each mode; elsewhere it is hidden.

  lemma {:induction false} InType(v: Vars, bits: nat, st: State)
    requires v.mode == TYPE
    ensures Stands(v, bits, st) <==> st.last == v.last && st.phase.Type?
  {
  }

  lemma {:induction false} InStored(v: Vars, bits: nat, st: State)
    requires v.mode == STORED
    ensures Stands(v, bits, st) <==>
        st.last == v.last && (st.phase.Stored? || (st.phase.StoredLen? && bits % 8 == 0))
  {
  }

  lemma {:induction false} InCopy(v: Vars, bits: nat, st: State)
    requires v.mode == COPY
    ensures Stands(v, bits, st) <==> st.last == v.last && st.phase == Copy(v.length) && bits == 0
  {
  }

  lemma {:induction false} InTable(v: Vars, bits: nat, st: State)
    requires v.mode == TABLE
    ensures Stands(v, bits, st) <==> st.last == v.last && st.phase.Table?
  {
  }

  lemma {:induction false} InCheck(v: Vars, bits: nat, st: State)
    requires v.mode == CHECK
    ensures Stands(v, bits, st) <==> st.last == v.last && st.phase.Check?
  {
  }

  lemma {:induction false} InLenLens(v: Vars, bits: nat, st: State)
    requires v.mode == LENLENS
    ensures Stands(v, bits, st) <==>
        st.last == v.last && st.phase.LenLens? && st.phase.nlen == v.nlen && st.phase.ndist == v.ndist
        && st.phase.ncode == v.ncode && |st.phase.got| == v.have
  {
  }

  lemma {:induction false} InCodeLens(v: Vars, bits: nat, st: State)
    requires v.mode == CODELENS
    ensures Stands(v, bits, st) <==>
        st.last == v.last && st.phase.CodeLens? && st.phase.nlen == v.nlen && st.phase.ndist == v.ndist
        && |st.phase.got| == v.have
  {
  }

  lemma {:induction false} InLen(v: Vars, bits: nat, st: State)
    requires v.mode == LEN
    ensures Stands(v, bits, st) <==> st.last == v.last && st.phase.Len?
  {
  }

  lemma {:induction false} InLenExt(v: Vars, bits: nat, st: State)
    requires v.mode == LENEXT
    ensures Stands(v, bits, st) <==>
        st.last == v.last && st.phase.LenExt? && st.phase.len == v.length && st.phase.extra == v.extra
  {
  }

  lemma {:induction false} InDist(v: Vars, bits: nat, st: State)
    requires v.mode == DIST
    ensures Stands(v, bits, st) <==> st.last == v.last && st.phase.Dist? && st.phase.len == v.length
  {
  }

  lemma {:induction false} InDistExt(v: Vars, bits: nat, st: State)
    requires v.mode == DISTEXT
    ensures Stands(v, bits, st) <==>
        st.last == v.last && st.phase.DistExt? && st.phase.len == v.length && st.phase.dist == v.offset
        && st.phase.extra == v.extra
  {
  }

  lemma {:induction false} InMatch(v: Vars, bits: nat, st: State)
    requires v.mode == MATCH
    ensures Stands(v, bits, st) <==>
        st.last == v.last && st.phase.Copying? && st.phase.len == v.length && st.phase.dist == v.offset
  {
  }

  lemma {:induction false} InLit(v: Vars, bits: nat, st: State)
    requires v.mode == LIT
    ensures Stands(v, bits, st) <==> st.last == v.last && st.phase.Emitting? && st.phase.b == v.length
  {
  }

  lemma {:induction false} InBad(v: Vars, bits: nat, st: State)
    requires v.mode == BAD
    ensures Stands(v, bits, st) <==> st.last == v.last && st.phase.Bad?
  {
  }

  /** o is prev and then the first n bytes of the buffer. */
  ghost predicate Output(o: seq<Byte>, prev: seq<Byte>, out: array<Byte>, n: nat)
    requires n <= out.Length
    reads out
  {
    o == prev + out[..n]
  }

  class Inflater {
    const r: Reader
    const win: Window
    const lens: array<nat>
    const work: array<nat>
    const codes: array<Entry>
    /** The tables for the fixed codes. */
    const lenfix: seq<Entry>
    const lenfixBits: nat
    const distfix: seq<Entry>
    const distfixBits: nat

    var mode: Mode
    var last: bool
    var length: nat
    var offset: nat
    var extra: nat
    var nlen: nat
    var ndist: nat
    var ncode: nat
    var have: nat
    var lencode: seq<Entry>
    var lenbits: nat
    var distcode: seq<Entry>
    var distbits: nat
    /** Bytes written by the current call. */
    var put: nat

    ghost var st: State
    /** A table did not fit the space reserved for it. */

    /** The tables for the fixed codes are right. */
    ghost predicate Fixed()
    {
      TablesFor(lenfix, lenfixBits, distfix, distfixBits, FixedLit(), FixedDist())
    }

    ghost function V(): (r: Vars)
      reads this
    {
      Vars(mode, last, length, offset, extra, nlen, ndist, ncode, have)
    }

    /** What the arrays and tables hold in the modes that use them. */
    ghost predicate TablesIn(m: Mode, p: Phase)
      reads this, lens
    {
      && (Decoding(m) ==> TablesFor(lencode, lenbits, distcode, distbits, TreesOf(p).0, TreesOf(p).1))
      && (m == LENLENS ==> p.LenLens? && InPlace(lens[..], p.got))
      && (m == CODELENS ==>
        p.CodeLens? && have <= lens.Length && lens[..have] == p.got
        && TableForCodes(lencode, lenbits, p.cl))
    }

    /** What holds whatever the mode. */
    ghost predicate Raw()
      reads this, r
    {
      && Fixed() && r.Valid() && st.size == win.window.Length
      && lens.Length == 320 && work.Length == 288 && codes.Length == ENOUGH_LENS + ENOUGH_DISTS && lens != work
    }

    ghost predicate Valid()
      reads this, r, lens
    {
      Raw() && PhaseOk(st.phase) && Stands(V(), r.bits, st) && TablesIn(mode, st.phase) && HoldOk(st, r.hold, r.bits)
    }

    lemma {:induction false} TablesPlain(m: Mode, p: Phase)
      requires m == TYPE || m == STORED || m == COPY || m == TABLE || m == CHECK || m == BAD
      ensures TablesIn(m, p)
    {
    }

    lemma {:induction false} TablesLens(p: Phase)
      requires p.LenLens? && InPlace(lens[..], p.got)
      ensures TablesIn(LENLENS, p)
    {
    }

    lemma {:induction false} TablesCodes(p: Phase)
      requires p.CodeLens? && have <= lens.Length && lens[..have] == p.got && TableForCodes(lencode, lenbits, p.cl)
      ensures TablesIn(CODELENS, p)
    {
    }

    lemma {:induction false} TablesTrees(m: Mode, p: Phase)
      requires (m == LEN || m == LENEXT || m == DIST || m == DISTEXT || m == MATCH || m == LIT)
          && TablesFor(lencode, lenbits, distcode, distbits, TreesOf(p).0, TreesOf(p).1)
      ensures TablesIn(m, p)
    {
      hide TablesFor;
    }

    /** Goes on in another mode. */
    method Become(m: Mode, ghost st1: State)
      requires Raw() && PhaseOk(st1.phase) && st1.size == st.size
      requires Stands(V().(mode := m), r.bits, st1) && TablesIn(m, st1.phase) && HoldOk(st1, r.hold, r.bits)
      modifies this`mode, this`st
      ensures Valid() && mode == m && st == st1
    {
      hide TablesFor, Pow2, ToBits, PhaseOk, HoldOk, Stands, Step, Fixed, TreesOf, InPlace, TableForCodes;
      mode, st := m, st1;
    }

    ghost predicate At(c0: Conf)
      reads this, r
      requires r.next <= |r.input|
    {
      Reaches(c0, Conf(st, r.Rest()))
    }

    /** All input is used and more is needed. */
    ghost predicate Starved()
      reads this, r
      requires r.next <= |r.input|
    {
      r.next == |r.input| && Step(st, r.Rest()) == Wait && !Ended(st.phase)
    }

    constructor (size: nat)
      requires size > 0
      ensures Valid() && win.Valid([]) && mode == TYPE && !last && r.Rest() == [] && win.window.Length == size
         
      ensures st == State(Type, false, [], [], size) && put == 0
      ensures fresh(r) && fresh(win) && fresh(win.window) && fresh(lens) && fresh(work) && fresh(codes)
    {
      hide TableCorrect, FixedLit, FixedDist, Pow2;
      r := new Reader();
      win := new Window(size);
      lens, work, codes := new nat[320], new nat[288], new Entry[ENOUGH_LENS + ENOUGH_DISTS](_ => INVALID);
      var lf, lb, df, db := FixedTables();
      lenfix, lenfixBits, distfix, distfixBits := lf, lb, df, db;
      mode, last, put := TYPE, false, 0;
      length, offset, extra, nlen, ndist, ncode, have := 0, 0, 0, 0, 0, 0, 0;
      lencode, lenbits, distcode, distbits := [], 0, [], 0;
      st := State(Type, false, [], [], size);
    }

    lemma {:induction false} AtType()
      requires Valid() && mode == TYPE
      ensures Raw() && PhaseOk(st.phase) && st.phase.Type? && st.last == last && r.bits < 8
    {
      hide TablesFor, Step, PhaseOk, Fixed, ToBits;
      InType(V(), r.bits, st);
      if last { HeldIdle(st, r.hold, r.bits); } else { HeldType(st, r.hold, r.bits); }
    }

    /** A block header. */
    method DoType(ghost c0: Conf) returns (leave: bool)
      requires Valid() && mode == TYPE && At(c0)
      modifies this, r
      ensures Valid() && At(c0) && put == old(put) && st.out == old(st.out)
      ensures if leave then Starved() else Fewer(old(st), old(r.Rest()), st, r.Rest())
    {
      hide Decoding, Reader.Rest, Reaches, TablesFor, FixedLit, FixedDist, Pow2, ToBits, Field, Step, PhaseOk, Fewer,
        StepType,
        Fixed, Valid, Stands, TablesIn;
      AtType();
      ghost var b, s0 := r.Rest(), st;
      StepHead(st, b);
      if last {
        LastStep(st, b);
        r.ByteBits();
        ghost var s1 := s0.(phase := Check);
        TakeStep(c0, s0, b, s1, |b| % 8, r.Rest());
        HeldShort(s1, r.hold, r.bits);
        InCheck(V().(mode := CHECK), r.bits, s1);
        TablesPlain(CHECK, s1.phase);
        Become(CHECK, s1);
        return false;
      }
      HeaderStep(st, b);
      var ok, final, kind := ReadHeader(r);
      if !ok {
        HeldWaits(r, st);
        InType(V(), r.bits, st);
        TablesPlain(TYPE, st.phase);
        Become(TYPE, st);
        return true;
      }
      TakeStep(c0, s0, b, StepType(s0, b).st, 3, r.Rest());
      last := final;
      StartBlock(kind, StepType(s0, b).st);
      leave := false;
    }

    /** Takes the tables for the fixed codes. */
    method UseFixed()
      requires Fixed()
      modifies this`lencode, this`lenbits, this`distcode, this`distbits
      ensures TablesFor(lencode, lenbits, distcode, distbits, FixedLit(), FixedDist())
    {
      hide TablesFor, FixedLit, FixedDist;
      lencode, lenbits, distcode, distbits := lenfix, lenfixBits, distfix, distfixBits;
    }

    /** Chooses the mode by the type of the block. */
    method StartBlock(kind: nat, ghost s1: State)
      requires Raw() && PhaseOk(s1.phase) && s1.size == st.size && s1.last == last && s1.phase == TypePhase(kind)
          && r.bits < 8
      modifies this
      ensures Valid() && st == s1 && put == old(put)
    {
      hide Decoding, Reader.Rest, TablesFor, FixedLit, FixedDist, Pow2, Field, PhaseOk, HoldOk, Stands, Step,
        StepType, ToBits,
        Fixed, InPlace, TableForCodes, Valid, TablesIn;
      HeldShort(s1, r.hold, r.bits);
      if kind == 0 {
        InStored(V().(mode := STORED), r.bits, s1);
        TablesPlain(STORED, s1.phase);
        Become(STORED, s1);
      } else if kind == 1 {
        UseFixed();
        InLen(V().(mode := LEN), r.bits, s1);
        TablesTrees(LEN, s1.phase);
        Become(LEN, s1);
      } else if kind == 2 {
        InTable(V().(mode := TABLE), r.bits, s1);
        TablesPlain(TABLE, s1.phase);
        Become(TABLE, s1);
      } else {
        InBad(V().(mode := BAD), r.bits, s1);
        TablesPlain(BAD, s1.phase);
        Become(BAD, s1);
      }
    }

    lemma {:induction false} AtStored()
      requires Valid() && mode == STORED
      ensures Raw() && PhaseOk(st.phase) && (st.phase.Stored? || (st.phase.StoredLen? && r.bits % 8 == 0))
          && st.last == last
      ensures r.bits < 32 && (st.phase.Stored? ==> r.bits < 8)
    {
      hide TablesFor, Step, PhaseOk, Fixed, ToBits;
      InStored(V(), r.bits, st);
      HeldStored(st, r.hold, r.bits);
    }

    /** On to the byte boundary; nothing happens if that was done before. */
    method AlignBits(ghost c0: Conf)
      requires Raw() && PhaseOk(st.phase) && (st.phase.Stored? || (st.phase.StoredLen? && r.bits % 8 == 0))
          && r.bits < 32 && At(c0)
      modifies this`st, r`hold, r`bits
      ensures Raw() && PhaseOk(st.phase) && st == old(st).(phase := StoredLen) && r.bits % 8 == 0 && r.bits < 32
          && At(c0)
      ensures NoMore(old(st), old(r.Rest()), st, r.Rest())
    {
      hide Reaches, TablesFor, Pow2, ToBits, BytesBits, Step, PhaseOk, Fixed;
      ghost var b0, s0 := r.Rest(), st;
      r.ByteBits();
      Aligned(c0, s0, b0, r.Rest());
      st := s0.(phase := StoredLen);
    }

    /** The lengths in front of stored data. */
    method DoStored(ghost c0: Conf) returns (leave: bool)
      requires Valid() && mode == STORED && At(c0)
      modifies this, r
      ensures Valid() && At(c0) && put == old(put) && st.out == old(st.out)
      ensures if leave then Starved() else Fewer(old(st), old(r.Rest()), st, r.Rest())
    {
      hide Reaches, TablesFor, Pow2, ToBits, Field, Step, PhaseOk, Fewer, Fixed, StepStoredLen, Valid, Stands,
        TablesIn, NoMore;
      ghost var b0, s0 := r.Rest(), st;
      AtStored();
      AlignBits(c0);
      ghost var b, s1 := r.Rest(), st;
      StoredLenStep(s1, b);
      var ok, low, high := ReadStoredLens(r);
      if !ok {
        HeldWaits(r, s1);
        InStored(V(), r.bits, s1);
        TablesPlain(STORED, s1.phase);
        Become(STORED, s1);
        return true;
      }
      ghost var o := StepStoredLen(s1, b);
      TakeStep(c0, s1, b, o.st, o.used, b[o.used..]);
      FewerTwice(s0, b0, s1, b, o.st, b[o.used..]);
      StartCopy(low, high, s1, b);
      leave := false;
    }

    /** Compares the length with its complement. */
    method StartCopy(low: nat, high: nat, ghost s1: State, ghost b: seq<bool>)
      requires Raw() && s1.size == st.size && s1.phase.StoredLen? && s1.last == last
      requires |b| >= 32 && low == Field(b, 0, 16) && high == Field(b, 16, 16) && r.bits == 32 && b == r.Rest()
      requires StepStoredLen(s1, b).Go? && PhaseOk(StepStoredLen(s1, b).st.phase) && StepStoredLen(s1, b).used <= |b|
      modifies this, r`hold, r`bits
      ensures Valid() && st == StepStoredLen(s1, b).st && put == old(put) && r.Rest() == b[StepStoredLen(s1, b).used..]
    {
      hide TablesFor, Pow2, ToBits, Field, PhaseOk, HoldOk, Stands, Step, StepStoredLen, Fixed, TreesOf, InPlace,
        TableForCodes, Valid, TablesIn;
      StoredLenStep(s1, b);
      ghost var s2 := StepStoredLen(s1, b).st;
      if low + high != 0xffff {
        assert b[0..] == b;
        HeldShort(s2, r.hold, r.bits);
        InBad(V().(mode := BAD), r.bits, s2);
        TablesPlain(BAD, s2.phase);
        Become(BAD, s2);
      } else {
        length := low;
        r.DropBits(32);
        HeldShort(s2, r.hold, r.bits);
        InCopy(V().(mode := COPY), r.bits, s2);
        TablesPlain(COPY, s2.phase);
        Become(COPY, s2);
      }
    }

    lemma {:induction false} AtTable()
      requires Valid() && mode == TABLE
      ensures Raw() && PhaseOk(st.phase) && st.phase.Table? && st.last == last && r.bits < 14
    {
      hide TablesFor, Step, PhaseOk, Fixed, ToBits;
      InTable(V(), r.bits, st);
      HeldTable(st, r.hold, r.bits);
    }

    /** The counts of a dynamic block. */
    method DoTable(ghost c0: Conf) returns (leave: bool)
      requires Valid() && mode == TABLE && At(c0)
      modifies this, r
      ensures Valid() && At(c0) && put == old(put) && st.out == old(st.out)
      ensures if leave then Starved() else Fewer(old(st), old(r.Rest()), st, r.Rest())
    {
      hide Decoding, Reader.Rest, Reaches, TablesFor, Pow2, ToBits, Field, Step, PhaseOk, Fewer, Fixed, StepTable,
        Valid,
        Stands, TablesIn, HoldOk, TableForCodes, InPlace, TreesOf;
      AtTable();
      ghost var b, s0 := r.Rest(), st;
      StepHead(st, b);
      TableStep(st, b);
      var ok, n, d, c := ReadCounts(r);
      if !ok {
        HeldWaits(r, st);
        InTable(V(), r.bits, st);
        TablesPlain(TABLE, st.phase);
        Become(TABLE, st);
        return true;
      }
      TakeStep(c0, s0, b, StepTable(s0, b).st, 14, r.Rest());
      StartLengths(n, d, c, s0);
      leave := false;
    }

    method StartLengths(n: nat, d: nat, c: nat, ghost s0: State)
      requires Raw() && s0.size == st.size && s0.last == last && r.bits < 8 && PhaseOk(CountsPhase(n, d, c))
      modifies this
      ensures Valid() && st == s0.(phase := CountsPhase(n, d, c)) && put == old(put)
    {
      hide Decoding, Reader.Rest, TablesFor, Pow2, ToBits, PhaseOk, HoldOk, Stands, Step, Fixed, TreesOf, InPlace,
        TableForCodes, Valid, TablesIn;
      InPlaceNone(lens[..]);
      nlen, ndist, ncode := n, d, c;
      ghost var s1 := s0.(phase := CountsPhase(n, d, c));
      HeldShort(s1, r.hold, r.bits);
      if nlen > 286 || ndist > 30 {
        InBad(V().(mode := BAD), r.bits, s1);
        TablesPlain(BAD, s1.phase);
        Become(BAD, s1);
      } else {
        have := 0;
        InLenLens(V().(mode := LENLENS), r.bits, s1);
        TablesLens(s1.phase);
        Become(LENLENS, s1);
      }
    }

    /** While the code length code lengths are read. */
    ghost predicate ReadingLens(c0: Conf)
      reads this, r, lens
    {
      && Raw() && PhaseOk(st.phase) && mode == LENLENS && st.phase.LenLens?
        && st.phase == LenLens(nlen, ndist, ncode, st.phase.got)
      && |st.phase.got| == have <= ncode <= 19 && InPlace(lens[..], st.phase.got) && At(c0) && st.last == last
        && r.bits < 8
    }

    lemma {:induction false} AtLenLens(c0: Conf)
      requires Valid() && mode == LENLENS && At(c0)
      ensures ReadingLens(c0)
    {
      hide TablesFor, Step, PhaseOk, Fixed, ToBits, Reaches, InPlace;
      InLenLens(V(), r.bits, st);
      HeldLens(st, r.hold, r.bits);
      LensBounds(st.phase);
    }

    /** The next of the code length code lengths. */
    method ReadLen(ghost c0: Conf) returns (ok: bool)
      requires ReadingLens(c0) && have < ncode
      modifies this`have, this`st, r, lens
      ensures st.out == old(st.out)
      ensures if ok then ReadingLens(c0) && |r.Rest()| < |old(r.Rest())| && have == old(have) + 1
          else Valid() && At(c0) && Starved()
    {
      hide Reader.Rest, Reaches, TablesFor, Pow2, ToBits, Field, Step, PhaseOk, Fixed, Stands, TablesIn, InPlace;
      ghost var b, s0, ls := r.Rest(), st, lens[..];
      LenLensStep(st, b);
      var v;
      ok, v := TakeField(r, 3);
      if !ok {
        HeldWaits(r, st);
        InLenLens(V(), r.bits, st);
        TablesLens(st.phase);
        return;
      }
      InPlaceMore(ls, s0.phase.got, v);
      lens[Order(have)] := v;
      assert lens[..] == ls[Order(have) := v];
      have := have + 1;
      st := StepLenLens(s0, b).st;
      TakeStep(c0, s0, b, st, 3, r.Rest());
    }

    /** The code length code lengths and the table for them. */
    method DoLenLens(ghost c0: Conf) returns (leave: bool)
      requires Valid() && mode == LENLENS && At(c0)
      modifies this, r, lens, work, codes
      ensures Valid() && At(c0) && put == old(put) && st.out == old(st.out)
      ensures if leave then Starved() else Fewer(old(st), old(r.Rest()), st, r.Rest())
    {
      hide Reaches, TablesFor, Pow2, ToBits, Field, Step, PhaseOk, Fixed, Valid, Stands, TablesIn, ReadingLens;
      ghost var b0, s0 := r.Rest(), st;
      AtLenLens(c0);
      LensRange(c0);
      while have < ncode
        invariant ReadingLens(c0) && st.out == s0.out && put == old(put) && have <= 19 && ncode <= 19
            && r.next <= |r.input|
        invariant have <= ncode && s0.phase.LenLens? && |r.Rest()| <= |b0|
        decreases ncode - have
      {
        var ok := ReadLen(c0);
        if !ok { return true; }
        LensRange(c0);
      }
      BuildCodes(c0);
      leave := false;
    }

    lemma {:induction false} LensRange(c0: Conf)
      requires ReadingLens(c0)
      ensures r.next <= |r.input| && have <= ncode <= 19 && st.phase.LenLens?
    {
      hide Reaches, Step, Fixed;
    }

    /** The lengths not sent are zero. */
    method ZeroRest(ghost got: seq<nat>)
      requires lens.Length == 320 && have <= 19 && |got| == have && InPlace(lens[..], got)
      modifies this`have, lens
      ensures have == 19 && lens[..19] == CodeLengths(got)
    {
      hide Order, Rank;
      while have < 19
        invariant |got| <= have <= 19 && InPlace(lens[..], got)
        invariant forall i: nat :: |got| <= i < have ==> lens[Order(i)] == 0
      {
        OrderApart(have);
        lens[Order(have)] := 0;
        have := have + 1;
      }
      forall s: nat | s < 19 ensures lens[s] == CodeLengths(got)[s] { OrderOfRank(s); }
    }

    /** The table for the code length code, unless the lengths are refused. */
    method CodesTable(ghost cl: seq<nat>) returns (ok: bool)
      requires lens.Length == 320 && work.Length == 288 && codes.Length == ENOUGH_LENS + ENOUGH_DISTS && lens != work
      requires lens[..19] == cl && LensOk(cl) && forall s :: 0 <= s < 19 ==> cl[s] <= 7
      modifies this`lencode, this`lenbits, work, codes
      ensures (ok <==> !Refused(CODES, cl)) && (ok ==> TableForCodes(lencode, lenbits, cl))
    {
      hide Refused, TableCorrect, NoLinks, Pow2;
      Pow2Values();
      var ret, end, root := InflateTable.InflateTable(CODES, lens[..19], codes, 0, 7, work);
      ok := ret == 0;
      if ok { lencode, lenbits := codes[0..end], root; }
    }

    /** Builds the table for the code length code. */
    method BuildCodes(ghost c0: Conf)
      requires ReadingLens(c0) && have == ncode
      modifies this, lens, work, codes
      ensures Valid() && At(c0) && put == old(put) && st.out == old(st.out)
      ensures st.phase.CodeLens? || st.phase.Bad?
    {
      hide Decoding, Reader.Rest, Reaches, TablesFor, Pow2, ToBits, Field, Step, PhaseOk, Fixed, Valid, Stands,
        TablesIn,
        InPlace, HoldOk, Refused, CodeLengths,
           StepLenLens, TableForCodes;
      ghost var b, s0 := r.Rest(), st;
      ghost var got: seq<nat> := st.phase.got;
      LensBounds(st.phase);
      ZeroRest(got);
      ghost var cl: seq<nat> := lens[..19];
      CodesStep(s0, b);
      ghost var s1 := StepLenLens(s0, b).st;
      TakeStep(c0, s0, b, s1, 0, b);
      SmallLengths(got);
      var ok := CodesTable(cl);
      HeldShort(s1, r.hold, r.bits);
      if ok {
        have := 0;
        InCodeLens(V().(mode := CODELENS), r.bits, s1);
        assert lens[..0] == [];
        TablesCodes(s1.phase);
        Become(CODELENS, s1);
      } else {
        InBad(V().(mode := BAD), r.bits, s1);
        TablesPlain(BAD, s1.phase);
        Become(BAD, s1);
      }
    }

    /** While the code lengths are read. */
    ghost predicate ReadingCodes(c0: Conf)
      reads this, r, lens
    {
      CodesState(c0) && HoldOk(st, r.hold, r.bits)
    }

    ghost predicate CodesState(c0: Conf)
      reads this, r, lens
    {
      && Raw() && PhaseOk(st.phase) && mode == CODELENS && st.phase.CodeLens?
        && st.phase == CodeLens(nlen, ndist, st.phase.cl, st.phase.got)
      && 257 <= nlen <= 286 && 1 <= ndist <= 30 && |st.phase.got| == have <= nlen + ndist
        && lens[..have] == st.phase.got && TableForCodes(lencode, lenbits, st.phase.cl)
      && At(c0) && st.last == last
    }

    lemma {:induction false} AtCodeLens(c0: Conf)
      requires Valid() && mode == CODELENS && At(c0)
      ensures ReadingCodes(c0)
    {
      hide TablesFor, Step, PhaseOk, Fixed, ToBits, Reaches, TableForCodes;
      InCodeLens(V(), r.bits, st);
      LensBounds(st.phase);
    }

    lemma {:induction false} StillCodes(c0: Conf)
      requires ReadingCodes(c0) && r.next == |r.input| && Step(st, r.Rest()) == Wait
      ensures Valid() && Starved()
    {
      hide TablesFor, Step, PhaseOk, Fixed, ToBits, Reaches, TableForCodes, Stands, TablesIn;
      HeldWaits(r, st);
      InCodeLens(V(), r.bits, st);
      TablesCodes(st.phase);
    }

    /** Looks at the next code length symbol. */
    method PeekItem(ghost c0: Conf) returns (ok: bool, here: Entry)
      requires ReadingCodes(c0) && have < nlen + ndist
      modifies r
      ensures r.Valid() && r.Rest() == old(r.Rest())
      ensures !ok ==> Valid() && At(c0) && Starved()
      ensures ok ==> CodesState(c0) && here.val <= 18 && ItemFound(Lookup(st.phase.cl, r.Rest()), here)
      ensures ok ==> here.bits <= r.bits && (r.bits < here.bits + 8 || r.bits < here.bits + ItemExtra(here.val))
    {
      hide Reaches, TablesFor, Pow2, ToBits, Step, PhaseOk, Fixed, Valid, Stands, TablesIn, TableForCodes, HoldOk,
        Lookup, Frugal, Accepted, SymEntry;
      ghost var cl := st.phase.cl;
      ghost var bits0, hold0 := r.bits, r.hold;
      HeldFront(r);
      HeldItem(st, r.hold, r.bits);
      LensBounds(st.phase);
      CodesTableIs(lencode, lenbits, cl);
      ok, here := PeekCode(r, lencode, lenbits, CODES, cl);
      if !ok {
        ItemStep(st, r.Rest());
        HeldWaits(r, st);
        StillCodes(c0);
        return;
      }
      ghost var e := LookupSteps(lencode, lenbits, CODES, cl, r.hold, r.bits);
      NotLink(lencode, lenbits, r.hold);
      CodeFound(r, CODES, cl, e, bits0);
      ItemIs(cl, r.Rest(), here);
      if bits0 >= 8 { HeldEnough(cl, r.Rest(), bits0, here, r.bits, st, hold0); }
    }

    /** A length that stands for itself. */
    method PlainItem(here: Entry, ghost c0: Conf)
      requires CodesState(c0) && have < nlen + ndist && ItemFound(Lookup(st.phase.cl, r.Rest()), here) && here.val < 16
      requires here.bits <= r.bits < here.bits + 8
      modifies this`have, this`st, r, lens
      ensures ReadingCodes(c0) && |r.Rest()| < |old(r.Rest())| && st.out == old(st.out)
    {
      hide Reaches, TablesFor, Pow2, ToBits, Step, PhaseOk, Fixed, TableForCodes, HoldOk, Lookup, StepCodeLens;
      ghost var b, s0, ls := r.Rest(), st, lens[..];
      ItemStep(st, b);
      PlainStep(st, b, here);
      r.DropBits(here.bits);
      lens[have] := here.val;
      assert lens[..] == ls[have := here.val];
      have := have + 1;
      st := StepCodeLens(s0, b).st;
      TakeStep(c0, s0, b, st, here.bits, r.Rest());
      HeldShort(st, r.hold, r.bits);
    }

    /** A length that is repeated. */
    method RepeatItem(here: Entry, ghost c0: Conf) returns (ok: bool)
      requires CodesState(c0) && have < nlen + ndist && ItemFound(Lookup(st.phase.cl, r.Rest()), here) && here.val >= 16
      requires here.bits <= r.bits && (r.bits < here.bits + 8 || r.bits < here.bits + ItemExtra(here.val))
      modifies this`have, this`st, this`mode, r, lens
      ensures r.Valid() && st.out == old(st.out)
      ensures if ok then |r.Rest()| < |old(r.Rest())| && (if mode == BAD then Valid() && At(c0) else ReadingCodes(c0))
              else Valid() && At(c0) && Starved()
    {
      hide Reaches, TablesFor, Pow2, ToBits, Step, PhaseOk, Fixed, TableForCodes, HoldOk, Lookup, StepCodeLens,
        Valid, Stands, TablesIn;
      ItemStep(st, r.Rest());
      RepeatStep(st, r.Rest(), here);
      var x: nat := if here.val == 16 then 2 else if here.val == 17 then 3 else 7;
      ok := r.NeedBits(here.bits + x);
      if !ok {
        HeldWaits(r, st);
        StillCodes(c0);
        return;
      }
      TakeRepeat(here, x, c0);
    }

    /** The extra bits and the repeat. */
    method TakeRepeat(here: Entry, x: nat, ghost c0: Conf)
      requires CodesState(c0) && have < nlen + ndist && ItemFound(Lookup(st.phase.cl, r.Rest()), here)
          && 16 <= here.val <= 18
      requires x == ItemExtra(here.val) && here.bits + x <= r.bits < here.bits + x + 8
      modifies this`have, this`st, this`mode, r`hold, r`bits, lens
      ensures r.Valid() && st.out == old(st.out)
      ensures |r.Rest()| < |old(r.Rest())| && (if mode == BAD then Valid() && At(c0) else ReadingCodes(c0))
    {
      hide Reader.Rest, Reaches, TablesFor, Pow2, ToBits, Step, PhaseOk, Fixed, TableForCodes, HoldOk, Lookup,
        StepCodeLens, Field, Valid, Stands, TablesIn;
      ghost var b, s0 := r.Rest(), st;
      ItemStep(st, b);
      RepeatStep(st, b, here);
      r.DropBits(here.bits);
      if here.val == 16 && have == 0 {
        TakeStep(c0, s0, b, s0.(phase := Bad), here.bits, r.Rest());
        BadLengths(s0);
        return;
      }
      FieldOfRest(b, here.bits, x);
      r.LowBitsAre(x);
      var v := r.LowBits(x);
      r.DropBits(x);
      DropTwice(b, here.bits, x);
      TakeStep(c0, s0, b, StepCodeLens(s0, b).st, here.bits + x, r.Rest());
      Repeat(here.val, v, s0);
      HeldShort(st, r.hold, r.bits);
    }

    method BadLengths(ghost s0: State)
      requires Raw() && s0.last == last && s0.size == st.size
      modifies this`mode, this`st
      ensures Valid() && mode == BAD && st == s0.(phase := Bad)
    {
      hide TablesFor, Pow2, ToBits, Step, PhaseOk, Fixed, HoldOk, Valid, Stands, TablesIn;
      ghost var s1 := s0.(phase := Bad);
      CheckOk();
      HeldShort(s1, r.hold, r.bits);
      InBad(V().(mode := BAD), r.bits, s1);
      TablesPlain(BAD, s1.phase);
      Become(BAD, s1);
    }

    /** Writes a length copy times. */
    method WriteFill(len: nat, n: nat)
      requires have + n <= lens.Length
      modifies this`have, lens
      ensures have == old(have) + n && lens[..have] == old(lens[..have]) + Fill(len, n)
    {
      hide Fill;
      ghost var got: seq<nat> := lens[..have];
      var copy := n;
      FillNone(len);
      while copy != 0
        invariant 0 <= copy <= n && have == |got| + n - copy <= lens.Length - copy
            && lens[..have] == got + Fill(len, n - copy)
      {
        FillMore(len, n - copy);
        lens[have] := len;
        assert lens[..have + 1] == lens[..have] + [len];
        assert got + Fill(len, n - copy) + [len] == got + (Fill(len, n - copy) + [len]);
        have := have + 1;
        copy := copy - 1;
      }
    }

    /** Writes the repeated lengths. */
    method Repeat(val: nat, v: nat, ghost s0: State)
      requires Raw() && st == s0 && 16 <= val <= 18 && (val == 16 ==> have > 0) && s0.last == last
      requires mode == CODELENS && s0.phase.CodeLens? && |s0.phase.got| == have <= nlen + ndist <= 316
          && lens[..have] == s0.phase.got
      modifies this`have, this`st, this`mode, lens
      ensures st == s0.(phase := Repeated(s0.phase, nlen + ndist, Item(val, v)))
      ensures if st.phase.Bad? then Valid() && mode == BAD
              else
                mode == CODELENS && st.phase.CodeLens? && |st.phase.got| == have <= nlen + ndist
                && lens[..have] == st.phase.got
    {
      hide Reader.Rest, TablesFor, Pow2, ToBits, Step, PhaseOk, Fixed, HoldOk, Valid, Stands, TablesIn, Fill;
      var len: nat := 0;
      var copy := 3 + v;
      if val == 16 { len := lens[have - 1]; } else if val == 18 { copy := 11 + v; }
      if have + copy > nlen + ndist {
        BadLengths(s0);
        return;
      }
      WriteFill(len, copy);
      st := s0.(phase := Repeated(s0.phase, nlen + ndist, Item(val, v)));
    }

    /** The code lengths of both trees, and the tables for them. */
    method DoCodeLens(ghost c0: Conf) returns (leave: bool)
      requires Valid() && mode == CODELENS && At(c0)
      modifies this, r, lens, work, codes
      ensures Valid() && At(c0) && put == old(put) && st.out == old(st.out)
      ensures if leave then Starved() else Fewer(old(st), old(r.Rest()), st, r.Rest())
    {
      hide Reaches, TablesFor, Pow2, ToBits, Step, PhaseOk, Fixed, Valid, Stands, TablesIn, HoldOk, Lookup,
        TableForCodes, CodesState, Raw, ItemFound;
      ghost var b0, s0 := r.Rest(), st;
      AtCodeLens(c0);
      CodesRange(c0);
      while have < nlen + ndist
        invariant ReadingCodes(c0) && st.out == s0.out && put == old(put) && r.next <= |r.input| && |r.Rest()| <= |b0|
        invariant mode == CODELENS && st.phase.CodeLens? && s0.phase.CodeLens? && have <= nlen + ndist
        decreases |r.Rest()|
      {
        var ok, here := PeekItem(c0);
        if !ok { return true; }
        if here.val < 16 {
          PlainItem(here, c0);
        } else {
          ok := RepeatItem(here, c0);
          if !ok { return true; }
          if mode == BAD { return false; }
        }
        CodesRange(c0);
      }
      LoadTrees(c0);
      leave := false;
    }

    lemma {:induction false} CodesRange(c0: Conf)
      requires ReadingCodes(c0)
      ensures r.next <= |r.input| && mode == CODELENS && st.phase.CodeLens? && have <= nlen + ndist && CodesState(c0)
    {
      hide Reaches, Step, Fixed, TableForCodes;
    }

    lemma {:induction false} AllLengths(c0: Conf)
      requires ReadingCodes(c0) && have == nlen + ndist
      ensures r.bits < 8 && Raw() && PhaseOk(st.phase) && st.last == last && At(c0)
      ensures st.phase.CodeLens? && st.phase.got == lens[..nlen + ndist] && st.phase.nlen == nlen
          && CodesOk(st.phase.got, 15)
      ensures 257 <= nlen <= 286 && 1 <= ndist <= 30
      ensures Step(st, r.Rest()) == Go(st.(phase := TreesPhase(st.phase.got, nlen)), 0)
    {
      hide Reaches, TablesFor, Fixed, ToBits, TreesPhase, TableForCodes, Accepted;
      HeldDone(st, r.hold, r.bits);
      DoneStep(st, r.Rest());
    }

    /** Builds the tables for both trees. */
    method LoadTrees(ghost c0: Conf)
      requires ReadingCodes(c0) && have == nlen + ndist
      modifies this, work, codes
      ensures Valid() && At(c0) && put == old(put) && st.out == old(st.out) && r.Rest() == old(r.Rest())
      ensures Fewer(old(st), r.Rest(), st, r.Rest())
    {
      hide Reader.Rest, Reaches, TablesFor, Pow2, ToBits, Step, PhaseOk, Fixed, Valid, Stands, TablesIn, HoldOk,
        TreesPhase, Refused, Fewer, ReadingCodes, TableCorrect;
      AllLengths(c0);
      ghost var b, s0 := r.Rest(), st;
      ghost var got: seq<nat> := st.phase.got;
      ghost var s1 := s0.(phase := TreesPhase(got, nlen));
      assert b[0..] == b;
      TakeStep(c0, s0, b, s1, 0, b);
      Halves(got, lens[..], nlen, ndist);
      if lens[256] == 0 {
        NoEnd(got, nlen);
        Refuse(s1);
        return;
      }
      var ok := BuildTrees(got);
      if !ok {
        Refused1(got, nlen);
        Refuse(s1);
        return;
      }
      BothAccepted(got, nlen);
      HeldShort(s1, r.hold, r.bits);
      InLen(V().(mode := LEN), r.bits, s1);
      TablesTrees(LEN, s1.phase);
      Become(LEN, s1);
    }

    /** The literal and length table with the distance table behind it. */
    method BuildTrees(ghost got: seq<nat>) returns (ok: bool)
      requires Raw() && 257 <= nlen <= 286 && 1 <= ndist <= 30 && |got| == nlen + ndist
      requires lens[..nlen] == got[..nlen] && lens[nlen..nlen + ndist] == got[nlen..] && LensOk(got[..nlen])
          && LensOk(got[nlen..])
      modifies this`lencode, this`lenbits, this`distcode, this`distbits, work, codes
      ensures ok ==> !Refused(LENS, got[..nlen]) && !Refused(DISTS, got[nlen..])
      ensures ok ==> TablesFor(lencode, lenbits, distcode, distbits, got[..nlen], got[nlen..])
      ensures !ok ==> Refused(LENS, got[..nlen]) || Refused(DISTS, got[nlen..])
    {
      hide TablesFor, Pow2, Fixed, Refused, TableCorrect, TableSpace.TableSize, TableSpace.RootBits, Reader.Rest,
        PhaseOk;
      ok := false;
      if !Refused(LENS, got[..nlen]) { LensSuffice(got[..nlen]); }
      if !Refused(DISTS, got[nlen..]) { DistsSuffice(got[nlen..]); }
      var ret, end, root := InflateTable.InflateTable(LENS, lens[..nlen], codes, 0, 9, work);
      if ret != 0 { return; }
      lencode, lenbits := codes[0..end], root;
      var start := end;
      ret, end, root := InflateTable.InflateTable(DISTS, lens[nlen..nlen + ndist], codes, start, 6, work);
      if ret != 0 { return; }
      distcode, distbits := codes[start..end], root;
      BothTables(lencode, lenbits, distcode, distbits, got[..nlen], got[nlen..]);
      ok := true;
    }

    /** A set of lengths that is refused. */
    method Refuse(ghost s1: State)
      requires Raw() && PhaseOk(s1.phase) && s1.last == last && s1.size == st.size && s1.phase.Bad?
          && r.bits < 8
      modifies this`mode, this`st
      ensures Valid() && mode == BAD && st == s1
    {
      hide Reader.Rest, TablesFor, Pow2, ToBits, Step, PhaseOk, Fixed, HoldOk, Valid, TablesIn;
      HeldShort(s1, r.hold, r.bits);
      TablesPlain(BAD, s1.phase);
      Become(BAD, s1);
    }

    // ---------------------------------------------------------------- symbols

    /** While literals and matches are decoded, whatever the mode. */
    ghost predicate Working(c0: Conf)
      reads this, r
    {
      && Raw() && PhaseOk(st.phase) && InTrees(st.phase) && At(c0) && st.last == last
      && TablesFor(lencode, lenbits, distcode, distbits, TreesOf(st.phase).0, TreesOf(st.phase).1)
    }

    lemma {:induction false} AtWork(c0: Conf)
      requires Valid() && Decoding(mode) && At(c0)
      ensures Working(c0) && Stands(V(), r.bits, st) && HoldOk(st, r.hold, r.bits)
    {
      hide TablesFor, Step, PhaseOk, Fixed, ToBits, Reaches, HoldOk, InPlace, TableForCodes, TreesOf;
    }

    /** Not enough bits for a code or its extra bits. */
    lemma {:induction false} StillWorking(c0: Conf, m: Mode)
      requires Working(c0) && Stands(V(), r.bits, st) && mode == m && Decoding(m)
      requires r.next == |r.input| && Step(st, r.Rest()) == Wait
      ensures Valid() && Starved()
    {
      hide TablesFor, Step, PhaseOk, Fixed, ToBits, Reaches, Stands, TreesOf, HoldOk;
      HeldWaits(r, st);
      TablesTrees(m, st.phase);
    }

    /** A literal or length code. */
    method DoLen(ghost c0: Conf) returns (leave: bool)
      requires Valid() && mode == LEN && At(c0)
      modifies this, r
      ensures Valid() && At(c0) && put == old(put) && st.out == old(st.out)
      ensures if leave then Starved() else Fewer(old(st), old(r.Rest()), st, r.Rest())
    {
      hide Reaches, TablesFor, Pow2, ToBits, Step, PhaseOk, Fixed, Valid, Stands, TablesIn, HoldOk, Lookup, Fewer,
        TreesOf, EntryIs, LenState, Accepted, TableCorrect;
      ghost var b, s0 := r.Rest(), st;
      AtWork(c0);
      InLen(V(), r.bits, st);
      HeldLen(st, r.hold, r.bits);
      TreesAccepted(st.phase);
      TablesAre(lencode, lenbits, distcode, distbits, st.phase);
      var ok, here := ReadCode(r, lencode, lenbits, LENS, st.phase.ll);
      if !ok {
        LenWaits(st, b);
        InLen(V(), r.bits, st);
        StillWorking(c0, LEN);
        return true;
      }
      LenStep(s0, b, here);
      TakeStep(c0, s0, b, LenState(s0, here), UsedBits(Lookup(s0.phase.ll, b)), r.Rest());
      TakeLen(here, s0);
      leave := false;
    }

    /** The four kinds of entries. */
    method TakeLen(here: Entry, ghost s0: State)
      requires Raw() && st == s0 && s0.phase.Len? && (here.op == 0 ==> here.val < 256) && s0.last == last
      requires PhaseOk(LenState(s0, here).phase) && r.bits < 8
      requires TablesFor(lencode, lenbits, distcode, distbits, s0.phase.ll, s0.phase.dl)
      modifies this`mode, this`length, this`extra, this`st
      ensures Valid() && st == LenState(s0, here) && st.out == s0.out
    {
      hide Decoding, Reader.Rest, TablesFor, Pow2, ToBits, Step, PhaseOk, Fixed, Valid, Stands, TablesIn, HoldOk;
      ghost var s1 := LenState(s0, here);
      HeldShort(s1, r.hold, r.bits);
      length := here.val;
      if here.op == 0 {
        InLit(V().(mode := LIT), r.bits, s1);
        TablesTrees(LIT, s1.phase);
        Become(LIT, s1);
      } else if here.op / 32 % 2 == 1 {
        InType(V().(mode := TYPE), r.bits, s1);
        TablesPlain(TYPE, s1.phase);
        Become(TYPE, s1);
      } else if here.op / 64 % 2 == 1 {
        InBad(V().(mode := BAD), r.bits, s1);
        TablesPlain(BAD, s1.phase);
        Become(BAD, s1);
      } else {
        extra := here.op % 16;
        InLenExt(V().(mode := LENEXT), r.bits, s1);
        TablesTrees(LENEXT, s1.phase);
        Become(LENEXT, s1);
      }
    }

    /** The extra bits of a length. */
    method DoLenExt(ghost c0: Conf) returns (leave: bool)
      requires Valid() && mode == LENEXT && At(c0)
      modifies this, r
      ensures Valid() && At(c0) && put == old(put) && st.out == old(st.out)
      ensures if leave then Starved() else Fewer(old(st), old(r.Rest()), st, r.Rest())
    {
      hide Reaches, TablesFor, Pow2, ToBits, Field, Step, PhaseOk, Fixed, Valid, Stands, TablesIn, HoldOk, Fewer,
        TreesOf;
      ghost var b, s0 := r.Rest(), st;
      AtWork(c0);
      InLenExt(V(), r.bits, st);
      HeldExtra(st, r.hold, r.bits);
      ExtraStep(s0, b);
      var ok, v := TakeExtra(r, extra);
      if !ok {
        InLenExt(V(), r.bits, st);
        StillWorking(c0, LENEXT);
        return true;
      }
      ghost var s1 := LengthState(s0, v);
      TakeStep(c0, s0, b, s1, extra, r.Rest());
      length := length + v;
      HeldShort(s1, r.hold, r.bits);
      InDist(V().(mode := DIST), r.bits, s1);
      SameTrees(s0.phase, s1.phase);
      TablesTrees(DIST, s1.phase);
      Become(DIST, s1);
      leave := false;
    }

    /** A distance code. */
    method DoDist(ghost c0: Conf) returns (leave: bool)
      requires Valid() && mode == DIST && At(c0)
      modifies this, r
      ensures Valid() && At(c0) && put == old(put) && st.out == old(st.out)
      ensures if leave then Starved() else Fewer(old(st), old(r.Rest()), st, r.Rest())
    {
      hide Reaches, TablesFor, Pow2, ToBits, Step, PhaseOk, Fixed, Valid, Stands, TablesIn, HoldOk, Lookup, Fewer,
        TreesOf, EntryIs, DistState, Accepted, TableCorrect;
      ghost var b, s0 := r.Rest(), st;
      AtWork(c0);
      InDist(V(), r.bits, st);
      HeldDist(st, r.hold, r.bits);
      TreesAccepted(st.phase);
      TablesAre(lencode, lenbits, distcode, distbits, st.phase);
      var ok, here := ReadCode(r, distcode, distbits, DISTS, st.phase.dl);
      if !ok {
        DistWaits(st, b);
        InDist(V(), r.bits, st);
        StillWorking(c0, DIST);
        return true;
      }
      InflateSteps.DistStep(s0, b, here);
      TakeStep(c0, s0, b, DistState(s0, here), UsedBits(Lookup(s0.phase.dl, b)), r.Rest());
      TakeDist(here, s0);
      leave := false;
    }

    method TakeDist(here: Entry, ghost s0: State)
      requires Raw() && st == s0 && s0.phase.Dist? && s0.last == last && length == s0.phase.len
      requires PhaseOk(DistState(s0, here).phase) && r.bits < 8
      requires TablesFor(lencode, lenbits, distcode, distbits, s0.phase.ll, s0.phase.dl)
      modifies this`mode, this`offset, this`extra, this`st
      ensures Valid() && st == DistState(s0, here) && st.out == s0.out
    {
      hide Reader.Rest, TablesFor, Pow2, ToBits, Step, PhaseOk, Fixed, Valid, Stands, TablesIn, HoldOk;
      ghost var s1 := DistState(s0, here);
      HeldShort(s1, r.hold, r.bits);
      if here.op / 64 % 2 == 1 {
        InBad(V().(mode := BAD), r.bits, s1);
        TablesPlain(BAD, s1.phase);
        Become(BAD, s1);
      } else {
        offset := here.val;
        extra := here.op % 16;
        InDistExt(V().(mode := DISTEXT), r.bits, s1);
        TablesTrees(DISTEXT, s1.phase);
        Become(DISTEXT, s1);
      }
    }

    /** The extra bits of a distance. */
    method DoDistExt(ghost c0: Conf) returns (leave: bool)
      requires Valid() && mode == DISTEXT && At(c0)
      modifies this, r
      ensures Valid() && At(c0) && put == old(put) && st.out == old(st.out)
      ensures if leave then Starved() else Fewer(old(st), old(r.Rest()), st, r.Rest())
    {
      hide Reaches, TablesFor, Pow2, ToBits, Field, Step, PhaseOk, Fixed, Valid, Stands, TablesIn, HoldOk, Fewer,
        TreesOf;
      ghost var b, s0 := r.Rest(), st;
      AtWork(c0);
      InDistExt(V(), r.bits, st);
      HeldExtra(st, r.hold, r.bits);
      ExtraStep(s0, b);
      var ok, v := TakeExtra(r, extra);
      if !ok {
        InDistExt(V(), r.bits, st);
        StillWorking(c0, DISTEXT);
        return true;
      }
      ghost var s1 := DistanceState(s0, v);
      TakeStep(c0, s0, b, s1, extra, r.Rest());
      offset := offset + v;
      HeldShort(s1, r.hold, r.bits);
      InMatch(V().(mode := MATCH), r.bits, s1);
      SameTrees(s0.phase, s1.phase);
      TablesTrees(MATCH, s1.phase);
      Become(MATCH, s1);
      leave := false;
    }

    // ---------------------------------------------------------------- output

    /** The output of the calls before this one, and what this one has written. */
    ghost predicate Written(prev: seq<Byte>, out: array<Byte>)
      reads this, out
    {
      put <= out.Length && Output(st.out, prev, out, put)
    }

    /** There is no room for the byte the next step puts out. */
    ghost predicate Full(out: array<Byte>)
      reads this
    {
      put == out.Length && NeedsRoom(st.phase)
    }

    method PutByte(x: Byte, out: array<Byte>, ghost prev: seq<Byte>, ghost s1: State)
      requires Written(prev, out) && put < out.Length && s1.out == st.out + [x]
      modifies this`put, this`st, out
      ensures st == s1 && put == old(put) + 1 && Written(prev, out) && out[..old(put)] == old(out[..put])
    {
      out[put] := x;
      assert out[..put + 1] == out[..put] + [x];
      put, st := put + 1, s1;
    }

    /** A literal. */
    method DoLit(out: array<Byte>, ghost prev: seq<Byte>, ghost c0: Conf) returns (leave: bool)
      requires Valid() && mode == LIT && At(c0) && Written(prev, out)
      modifies this, out
      ensures Valid() && At(c0) && Written(prev, out)
      ensures if leave then Full(out) else Fewer(old(st), r.Rest(), st, r.Rest())
    {
      hide Reaches, TablesFor, Pow2, ToBits, Step, PhaseOk, Fixed, Valid, Stands, TablesIn, HoldOk, Fewer, TreesOf;
      ghost var b, s0 := r.Rest(), st;
      AtWork(c0);
      InLit(V(), r.bits, st);
      if put == out.Length { return true; }
      EmitStep(s0, b);
      HeldIdle(st, r.hold, r.bits);
      ghost var s1 := EmitState(s0);
      TakeStep(c0, s0, b, s1, 0, b);
      PutByte(length, out, prev, s1);
      HeldShort(s1, r.hold, r.bits);
      InLen(V().(mode := LEN), r.bits, s1);
      SameTrees(s0.phase, s1.phase);
      TablesTrees(LEN, s1.phase);
      Become(LEN, s1);
      leave := false;
    }

    /** While a match is copied; its last byte ends it. */
    ghost predicate Matching(c0: Conf)
      reads this, r
    {
      && Working(c0) && st.phase == (if length == 0 then Len(TreesOf(st.phase).0, TreesOf(st.phase).1)
                                     else Copying(TreesOf(st.phase).0, TreesOf(st.phase).1, length, offset))
      && offset > 0
    }

    /** One byte of a match. */
    method CopyByte(x: Byte, out: array<Byte>, ghost prev: seq<Byte>, ghost c0: Conf)
      requires Matching(c0) && length > 0 && Written(prev, out) && put < out.Length && NeverWild(c0)
      requires offset <= |st.out| && x == st.out[|st.out| - offset]
      modifies this`put, this`length, this`st, out
      ensures Matching(c0) && Written(prev, out) && length == old(length) - 1 && put == old(put) + 1
          && out[..old(put)] == old(out[..put])
    {
      hide Reaches, TablesFor, Pow2, ToBits, Step, PhaseOk, Fixed, Fewer, TreesOf;
      ghost var b, s0 := r.Rest(), st;
      ghost var s1 := CopyState(s0, x);
      CopyTame(c0, s0, b);
      assert b[0..] == b;
      TakeStep(c0, s0, b, s1, 0, b);
      SameTrees(s0.phase, s1.phase);
      PutByte(x, out, prev, s1);
      length := length - 1;
      TreesAre(s1.phase);
      TreesAre(s0.phase);
    }

    /** The next n bytes of the match lie in one piece of the window, from from on. */
    predicate InPiece(n: nat, from: nat)
      reads this, win
    {
      && n <= offset - put <= win.whave && from == Back(win.wnext, win.window.Length, offset - put)
      && (offset - put <= win.wnext || n <= offset - put - win.wnext)
    }

    /** Bytes of a match that lie in the window. */
    method CopyWindow(n: nat, from0: nat, out: array<Byte>, ghost prev: seq<Byte>, ghost c0: Conf)
      requires Matching(c0) && n <= length && put + n <= out.Length && Written(prev, out) && NeverWild(c0)
      requires win.Valid(prev) && out != win.window && n >= 1 && InPiece(n, from0)
      modifies this`put, this`length, this`st, out
      ensures Matching(c0) && Written(prev, out) && length == old(length) - n && put == old(put) + n
          && out[..old(put)] == old(out[..put])
    {
      hide Matching, Holds;
      var i: nat := 0;
      while i < n
        invariant i <= n && Matching(c0) && Written(prev, out) && length == old(length) - i && put == old(put) + i
            && put <= out.Length
        invariant out[..old(put)] == old(out[..put])
      {
        InWindow(win.window[..], win.whave, win.wnext, prev, offset - put, st.out, put);
        assert out[..put][..old(put)] == out[..old(put)];
        CopyByte(win.window[from0 + i], out, prev, c0);
        assert out[..put - 1][..old(put)] == out[..old(put)];
        i := i + 1;
      }
    }

    /** Bytes of a match that were put out by this call. */
    method CopyOut(n: nat, out: array<Byte>, ghost prev: seq<Byte>, ghost c0: Conf)
      requires Matching(c0) && n <= length && put + n <= out.Length && Written(prev, out) && NeverWild(c0)
          && offset <= put
      modifies this`put, this`length, this`st, out
      ensures Matching(c0) && Written(prev, out) && length == old(length) - n && put == old(put) + n
          && out[..old(put)] == old(out[..put])
    {
      hide Matching;
      var from: nat := put - offset;
      var i: nat := 0;
      while i < n
        invariant i <= n && Matching(c0) && Written(prev, out) && length == old(length) - i && put == old(put) + i
            && put <= out.Length
        invariant from == put - offset
        invariant out[..old(put)] == old(out[..put])
      {
        MatchOffset(c0);
        InOutput(prev, out[..put], offset, st.out);
        assert out[..put][..old(put)] == out[..old(put)];
        CopyByte(out[from], out, prev, c0);
        assert out[..put - 1][..old(put)] == out[..old(put)];
        from := from + 1;
        i := i + 1;
      }
    }

    lemma {:induction false} MatchOffset(c0: Conf)
      requires Matching(c0)
      ensures offset > 0
    {
      hide Working, TreesOf;
    }

    lemma {:induction false} AtMatch(c0: Conf)
      requires Valid() && mode == MATCH && At(c0)
      ensures Matching(c0) && 0 < length && st.phase.Copying? && st.phase.len == length && r.bits < 8 && r.Valid()
    {
      hide TablesFor, Step, Fixed, ToBits, Reaches, PhaseOk;
      AtWork(c0);
      InMatch(V(), r.bits, st);
      PhaseBounds(st.phase);
      TreesAre(st.phase);
      HeldIdle(st, r.hold, r.bits);
    }

    /** A distance beyond all output. */
    method TooFar(ghost prev: seq<Byte>, out: array<Byte>, ghost c0: Conf)
      requires Matching(c0) && length > 0 && Written(prev, out) && win.Valid(prev) && NeverWild(c0)
          && offset > put + win.whave && r.bits < 8
      modifies this`mode, this`st
      ensures Valid() && mode == BAD && At(c0) && Written(prev, out)
      ensures Fewer(old(st), r.Rest(), st, r.Rest())
    {
      hide Reader.Rest, Reaches, TablesFor, Pow2, ToBits, Step, PhaseOk, Fixed, Fewer, TreesOf, Valid, Stands,
        TablesIn, HoldOk;
      ghost var b, s0 := r.Rest(), st;
      ghost var s1 := s0.(phase := Bad);
      FarStep(c0, s0, b, prev, win.window[..], win.whave, win.wnext, put);
      TakeStep(c0, s0, b, s1, 0, b);
      HeldShort(s1, r.hold, r.bits);
      InBad(V().(mode := BAD), r.bits, s1);
      TablesPlain(BAD, s1.phase);
      Become(BAD, s1);
    }

    lemma {:induction false} MatchGoesOn(c0: Conf, s0: State)
      requires Matching(c0) && s0.phase.Copying? && length < s0.phase.len && r.Valid()
      ensures Fewer(s0, r.Rest(), st, r.Rest())
    {
      hide Working;
    }

    /** Behind the last byte of a match comes the next code. */
    method FinishMatch(ghost c0: Conf)
      requires Matching(c0) && r.bits < 8 && mode == MATCH
      modifies this`mode
      ensures Valid() && At(c0) && st == old(st)
    {
      hide Reaches, TablesFor, Pow2, ToBits, Step, PhaseOk, Fixed, TreesOf, HoldOk, Stands, TablesIn;
      HeldShort(st, r.hold, r.bits);
      if length == 0 { mode := LEN; }
      if length == 0 { InLen(V(), r.bits, st); } else { InMatch(V(), r.bits, st); }
      TablesTrees(mode, st.phase);
    }

    /** Part of a match, as much as lies in one piece and has room. */
    method DoMatch(out: array<Byte>, ghost prev: seq<Byte>, ghost c0: Conf) returns (leave: bool)
      requires Valid() && mode == MATCH && At(c0) && Written(prev, out) && win.Valid(prev) && out != win.window
          && NeverWild(c0)
      modifies this, out
      ensures Valid() && At(c0) && Written(prev, out)
      ensures if leave then Full(out) else Fewer(old(st), r.Rest(), st, r.Rest())
    {
      hide Valid, Matching, NeverWild, Reaches, Fewer, Raw, Holds, Step;
      AtMatch(c0);
      if put == out.Length { return true; }
      ghost var s0 := st;
      var left: nat := out.Length - put;
      leave := false;
      if offset > put {
        var copy := offset - put;
        if copy > win.whave {
          TooFar(prev, out, c0);
          return;
        }
        var from: nat;
        HoldsRange(win.window[..], win.whave, win.wnext, prev);
        if copy > win.wnext {
          copy := copy - win.wnext;
          from := win.wsize - copy;
        } else {
          from := win.wnext - copy;
        }
        if copy > length { copy := length; }
        if copy > left { copy := left; }
        CopyWindow(copy, from, out, prev, c0);
      } else {
        var copy := length;
        if copy > left { copy := left; }
        CopyOut(copy, out, prev, c0);
      }
      MatchGoesOn(c0, s0);
      FinishMatch(c0);
    }

    /** While stored bytes are copied. */
    ghost predicate Storing(c0: Conf)
      reads this, r
    {
      Raw() && PhaseOk(st.phase) && st.phase == Copy(length) && r.bits == 0 && At(c0) && st.last == last
    }

    lemma {:induction false} AtCopy(c0: Conf)
      requires Valid() && mode == COPY && At(c0)
      ensures Storing(c0)
    {
      hide TablesFor, Step, Fixed, ToBits, Reaches, PhaseOk;
      InCopy(V(), r.bits, st);
    }

    /** Copies n stored bytes. */
    method CopyStored(n: nat, out: array<Byte>, ghost prev: seq<Byte>, ghost c0: Conf)
      requires Storing(c0) && n <= length && n <= |r.input| - r.next && put + n <= out.Length && Written(prev, out)
      modifies this`put, this`length, this`st, out, r`next
      ensures Storing(c0) && Written(prev, out) && |r.Rest()| == |old(r.Rest())| - 8 * n
    {
      hide TablesFor, Step, Fixed, ToBits, Reaches, PhaseOk, Pow2, BytesBits, Field;
      var i: nat := 0;
      while i < n
        invariant i <= n && Storing(c0) && Written(prev, out) && n - i <= length && n - i <= |r.input| - r.next
            && put + n - i <= out.Length
        invariant |r.Rest()| == |old(r.Rest())| - 8 * i
      {
        ghost var b, s0 := r.Rest(), st;
        var x := r.TakeByte();
        StoredStep(s0, b, x);
        TakeStep(c0, s0, b, StoredState(s0, x), 8, r.Rest());
        PutByte(x, out, prev, StoredState(s0, x));
        length := length - 1;
        i := i + 1;
      }
    }

    /** Stored bytes, as many as there are and have room. */
    method DoCopy(out: array<Byte>, ghost prev: seq<Byte>, ghost c0: Conf) returns (leave: bool)
      requires Valid() && mode == COPY && At(c0) && Written(prev, out)
      modifies this, r, out
      ensures Valid() && At(c0) && Written(prev, out)
      ensures if leave then Starved() || Full(out) else Fewer(old(st), old(r.Rest()), st, r.Rest())
    {
      hide TablesFor, Step, Fixed, ToBits, Reaches, PhaseOk, Pow2, BytesBits, Valid, Stands, TablesIn, HoldOk;
      AtCopy(c0);
      ghost var b, s0 := r.Rest(), st;
      var copy := length;
      if copy != 0 {
        if copy > |r.input| - r.next { copy := |r.input| - r.next; }
        if copy > out.Length - put { copy := out.Length - put; }
        if copy == 0 {
          StoredWaits(st, r.Rest());
          return true;
        }
        CopyStored(copy, out, prev, c0);
        CopyValid(c0);
        return false;
      }
      StoredEnd(s0, b);
      ghost var s1 := s0.(phase := Type);
      TakeStep(c0, s0, b, s1, 0, b);
      HeldShort(s1, r.hold, r.bits);
      InType(V().(mode := TYPE), r.bits, s1);
      TablesPlain(TYPE, s1.phase);
      Become(TYPE, s1);
      leave := false;
    }

    lemma {:induction false} CopyValid(c0: Conf)
      requires Storing(c0) && mode == COPY
      ensures Valid() && At(c0)
    {
      hide Reaches, TablesFor, Pow2, ToBits, Step, PhaseOk, Fixed, HoldOk, Stands, TablesIn;
      HeldShort(st, r.hold, r.bits);
      InCopy(V(), r.bits, st);
      TablesPlain(COPY, st.phase);
    }

    // ---------------------------------------------------------------- the fast path

    /** Between two rounds of inflate_fast, or behind the last one. */
    ghost predicate Fast(c0: Conf)
      reads this, r
    {
      && Raw() && PhaseOk(st.phase) && At(c0) && st.last == last
      && match mode
         case LEN => Working(c0) && st.phase.Len?
         case TYPE => st.phase.Type?
         case BAD => st.phase.Bad?
         case _ => false
    }

    /** Puts out a literal. */
    method FastLiteral(x: nat, out: array<Byte>, ghost prev: seq<Byte>, ghost c0: Conf)
      requires Working(c0) && st.phase.Emitting? && x == st.phase.b && Written(prev, out) && put < out.Length
      modifies this`put, this`st, out
      ensures Working(c0) && st.phase.Len? && Written(prev, out)
    {
      hide Reaches, TablesFor, Pow2, ToBits, Step, PhaseOk, Fixed, TreesOf, Fewer;
      ghost var b, s0 := r.Rest(), st;
      EmitStep(s0, b);
      ghost var s1 := EmitState(s0);
      TakeStep(c0, s0, b, s1, 0, b);
      SameTrees(s0.phase, s1.phase);
      PutByte(x, out, prev, s1);
    }

    /** Copies n bytes of a match from the window or from the output. */
    method CopySome(inWindow: bool, n: nat, from: nat, out: array<Byte>, ghost prev: seq<Byte>, ghost c0: Conf)
      requires Matching(c0) && 1 <= n <= length && put + n <= out.Length && Written(prev, out) && NeverWild(c0)
          && win.Valid(prev) && out != win.window
      requires inWindow ==> InPiece(n, from)
      requires !inWindow ==> from == put - offset
      modifies this`put, this`length, this`st, out
      ensures Matching(c0) && Written(prev, out) && length == old(length) - n && put == old(put) + n
    {
      hide Matching, NeverWild, Holds;
      if inWindow { CopyWindow(n, from, out, prev, c0); } else { CopyOut(n, out, prev, c0); }
    }

    /** Copies the rest of a match, three bytes at a time. */
    method CopyRest(inWindow: bool, from0: nat, out: array<Byte>, ghost prev: seq<Byte>, ghost c0: Conf)
      requires Matching(c0) && put + length <= out.Length && Written(prev, out) && NeverWild(c0) && win.Valid(prev)
          && out != win.window
      requires inWindow ==> InPiece(length, from0)
      requires !inWindow ==> from0 == put - offset
      modifies this`put, this`length, this`st, out
      ensures Matching(c0) && Written(prev, out) && length == 0
    {
      hide Matching, NeverWild, Holds;
      var from: nat := from0;
      while length > 2
        invariant Matching(c0) && put + length <= out.Length && Written(prev, out)
        invariant inWindow && length > 0 ==> InPiece(length, from)
        invariant !inWindow ==> from == put - offset
      {
        CopySome(inWindow, 3, from, out, prev, c0);
        from := from + 3;
      }
      if length != 0 {
        var two := length > 1;
        CopySome(inWindow, 1, from, out, prev, c0);
        if two { CopySome(inWindow, 1, from + 1, out, prev, c0); }
      }
    }

    /** A whole match whose distance reaches back op bytes into the window. */
    method FastWindow(op0: nat, out: array<Byte>, ghost prev: seq<Byte>, ghost c0: Conf)
      requires Matching(c0) && put + length <= out.Length && Written(prev, out) && NeverWild(c0) && win.Valid(prev)
          && out != win.window
      requires op0 == offset - put && 1 <= op0 <= win.whave
      modifies this`put, this`length, this`st, out
      ensures Matching(c0) && Written(prev, out) && length == 0
    {
      hide Matching, NeverWild;
      HoldsRange(win.window[..], win.whave, win.wnext, prev);
      var op := op0;
      var from: nat;
      var inWindow := true;
      if win.wnext == 0 {
        from := win.wsize - op;
        if op < length {
          CopySome(true, op, from, out, prev, c0);
          from, inWindow := put - offset, false;
        }
      } else if win.wnext < op {
        from := win.wsize + win.wnext - op;
        op := op - win.wnext;
        if op < length {
          CopySome(true, op, from, out, prev, c0);
          from := 0;
          if win.wnext < length {
            op := win.wnext;
            CopySome(true, op, from, out, prev, c0);
            from, inWindow := put - offset, false;
          }
        }
      } else {
        from := win.wnext - op;
        if op < length {
          CopySome(true, op, from, out, prev, c0);
          from, inWindow := put - offset, false;
        }
      }
      CopyRest(inWindow, from, out, prev, c0);
    }

    /** Copies a whole match; false when the distance is too far back. */
    method FastCopy(out: array<Byte>, ghost prev: seq<Byte>, ghost c0: Conf) returns (ok: bool)
      requires Matching(c0) && 0 < length && put + length <= out.Length && Written(prev, out) && NeverWild(c0)
          && win.Valid(prev) && out != win.window
      modifies this`put, this`length, this`st, out
      ensures Written(prev, out) && if ok then Working(c0) && st.phase.Len? else Taken(c0) && st.phase.Bad?
    {
      hide Matching, NeverWild, Holds, Reaches, PhaseOk, Step, Working, Taken;
      ok := true;
      if offset > put {
        var op := offset - put;
        if op > win.whave {
          ok := false;
          FastFar(prev, out, c0);
          return;
        }
        FastWindow(op, out, prev, c0);
      } else {
        CopyRest(false, put - offset, out, prev, c0);
      }
      MatchDone(c0);
    }

    lemma {:induction false} MatchDone(c0: Conf)
      requires Matching(c0) && length == 0
      ensures Working(c0) && st.phase.Len?
    {
      hide Working, TreesOf;
    }

    ghost method FastFar(prev: seq<Byte>, out: array<Byte>, c0: Conf)
      requires Matching(c0) && length > 0 && Written(prev, out) && win.Valid(prev) && NeverWild(c0)
          && offset > put + win.whave
      modifies this`st
      ensures Written(prev, out) && Taken(c0) && st.phase.Bad?
    {
      hide Reaches, TablesFor, Pow2, ToBits, Step, PhaseOk, Fixed, Fewer, TreesOf;
      ghost var b, s0 := r.Rest(), st;
      FarStep(c0, s0, b, prev, win.window[..], win.whave, win.wnext, put);
      st := s0.(phase := Bad);
      TakeStep(c0, s0, b, st, 0, b);
    }

    /** The symbol has been read; its state is s1. */
    ghost method Follow(s1: State, c0: Conf)
      requires Raw() && Moved(c0, st, s1, r.Rest()) && st.last == last
      requires TablesFor(lencode, lenbits, distcode, distbits, TreesOf(st.phase).0, TreesOf(st.phase).1)
      modifies this`st
      ensures st == s1 && st.out == old(st.out) && Taken(c0) && (InTrees(s1.phase) ==> Working(c0))
    {
      hide Reaches, TablesFor, Pow2, PhaseOk, Fixed, TreesOf, InTrees, Reader.Rest, Reader.Valid, Step, ToBits;
      st := s1;
    }

    /** The extra bits of a distance. */
    method FastDistExtra(op: nat, dist: nat, ghost c0: Conf)
      requires Working(c0) && st.phase.DistExt? && st.phase.len == length && st.phase.dist == dist
          && st.phase.extra == op && |r.Rest()| >= 13
      modifies this`offset, this`st, r
      ensures Matching(c0) && 0 < length <= 258 && st.out == old(st.out)
      ensures r.Valid() && Behind(r.Rest(), old(r.Rest())) && old(r.next) <= r.next && r.input == old(r.input)
    {
      hide Reaches, TablesFor, Pow2, ToBits, Step, PhaseOk, Fixed, TreesOf, Field, Reader.Rest, DistanceState, Moved,
        Taken, Behind;
      ghost var b, s0 := r.Rest(), st;
      PhaseBounds(s0.phase);
      var v := TakeDistExtra(r, op);
      DistanceMoves(c0, s0, b, v, r.Rest());
      offset := dist + v;
      Follow(DistanceState(s0, v), c0);
      BehindDrop(b, op);
    }

    /** The extra bits of a distance, and the match. */
    method FastDistance(op: nat, dist: nat, out: array<Byte>, ghost prev: seq<Byte>, ghost c0: Conf)
      requires Working(c0) && st.phase.DistExt? && st.phase.len == length && st.phase.dist == dist
          && st.phase.extra == op && mode == LEN
      requires Written(prev, out) && put + 258 <= out.Length && NeverWild(c0) && win.Valid(prev) && out != win.window
          && |r.Rest()| >= 13
      modifies this`put, this`length, this`offset, this`st, this`mode, r, out
      ensures Fast(c0) && Written(prev, out) && r.Valid() && Behind(r.Rest(), old(r.Rest())) && old(r.next) <= r.next
          && r.input == old(r.input)
    {
      hide Reaches, TablesFor, Pow2, Step, PhaseOk, Fixed, TreesOf, NeverWild, Window.Valid, Output, Matching, Raw,
        Working, Reader.Rest;
      FastDistExtra(op, dist, c0);
      var ok := FastCopy(out, prev, c0);
      if ok { WorkingFast(c0); } else { Stop(BAD, c0); }
      FastReader(c0);
    }

    /** Behind a symbol of the fast path. */
    ghost predicate Taken(c0: Conf)
      reads this, r
    {
      && Raw() && PhaseOk(st.phase) && At(c0) && st.last == last
      && (InTrees(st.phase) ==> TablesFor(lencode, lenbits, distcode, distbits, TreesOf(st.phase).0,
        TreesOf(st.phase).1))
    }

    lemma {:induction false} TakenWorks(c0: Conf)
      requires Taken(c0) && InTrees(st.phase)
      ensures Working(c0)
    {
      hide Reaches, TablesFor, Step, PhaseOk, Fixed, TreesOf;
    }

    lemma {:induction false} WorkingFast(c0: Conf)
      requires Working(c0) && st.phase.Len? && mode == LEN
      ensures Fast(c0)
    {
      hide Reaches, TablesFor, Step, PhaseOk, Fixed, TreesOf;
    }

    /** Ends the fast path. */
    method Stop(m: Mode, ghost c0: Conf)
      requires Taken(c0) && ((m == TYPE && st.phase.Type?) || (m == BAD && st.phase.Bad?))
      modifies this`mode
      ensures Fast(c0) && mode == m
    {
      hide Reaches, TablesFor, Step, PhaseOk, Fixed, TreesOf;
      mode := m;
    }

    /** The extra bits of a length. */
    method FastExtra(op: nat, len: nat, ghost c0: Conf)
      requires Working(c0) && st.phase.LenExt? && st.phase.len == len && st.phase.extra == op && |r.Rest()| >= 33
      modifies this`length, this`st, r
      ensures Working(c0) && st.phase.Dist? && st.phase.len == length && st.out == old(st.out)
      ensures r.Valid() && Behind(r.Rest(), old(r.Rest())) && |r.Rest()| >= 28 && old(r.next) <= r.next
          && r.input == old(r.input)
    {
      hide Reaches, TablesFor, Pow2, ToBits, Step, PhaseOk, Fixed, TreesOf, Field, Reader.Rest, LengthState, Moved,
        Taken, InTrees, Behind;
      ghost var b, s0 := r.Rest(), st;
      PhaseBounds(s0.phase);
      var v := TakeLenExtra(r, op);
      LengthMoves(c0, s0, b, v, r.Rest());
      length := len + v;
      Follow(LengthState(s0, v), c0);
      BehindDrop(b, op);
    }

    /** A distance code. */
    method FastDist(ghost c0: Conf) returns (here: Entry)
      requires Working(c0) && st.phase.Dist? && |r.Rest()| >= 28
      modifies this`st, r
      ensures Taken(c0) && old(st).phase.Dist? && st == DistState(old(st), here) && st.out == old(st.out)
      ensures here.op / 16 % 2 == 1 <==> here.op / 64 % 2 == 0
      ensures r.Valid() && Behind(r.Rest(), old(r.Rest())) && |r.Rest()| >= 13 && old(r.next) <= r.next
          && r.input == old(r.input)
    {
      hide Reaches, TablesFor, Pow2, Step, PhaseOk, Fixed, TreesOf, Lookup, Accepted, EntryIs, TableCorrect,
        UsedBits, DistState, InTrees, Reader.Rest,
           ToBits, Moved, Taken, Behind;
      ghost var b, s0 := r.Rest(), st;
      FillTo15(r);
      TreesAccepted(s0.phase);
      TablesAre(lencode, lenbits, distcode, distbits, s0.phase);
      here := FastCode(r, distcode, distbits, DISTS, s0.phase.dl);
      DistMoves(c0, s0, b, here, r.Rest());
      Follow(DistState(s0, here), c0);
      BehindDrop(b, UsedBits(Lookup(s0.phase.dl, b)));
    }

    /** The extra bits of a length, and the distance. */
    method FastLength(op: nat, len: nat, out: array<Byte>, ghost prev: seq<Byte>, ghost c0: Conf)
      requires Working(c0) && st.phase.LenExt? && st.phase.len == len && st.phase.extra == op && mode == LEN
      requires Written(prev, out) && put + 258 <= out.Length && NeverWild(c0) && win.Valid(prev) && out != win.window
          && |r.Rest()| >= 33
      modifies this`put, this`length, this`offset, this`st, this`mode, r, out
      ensures Fast(c0) && Written(prev, out) && r.Valid() && Behind(r.Rest(), old(r.Rest())) && old(r.next) <= r.next
          && r.input == old(r.input)
    {
      hide Reaches, TablesFor, Pow2, Step, PhaseOk, Fixed, TreesOf, NeverWild, Window.Valid, Working, Behind, Raw,
        Output, Taken, DistState, Reader.Rest;
      WorkingReader(c0);
      ghost var b := r.Rest();
      FastExtra(op, len, c0);
      ghost var b1 := r.Rest();
      ghost var s1 := st;
      var here := FastDist(c0);
      ghost var b2 := r.Rest();
      BehindTrans(b2, b1, b);
      if here.op / 16 % 2 == 1 {
        DistStateIs(s1, here);
        TakenWorks(c0);
        FastDistance(here.op % 16, here.val, out, prev, c0);
        BehindTrans(r.Rest(), b2, b);
      } else {
        DistStateIs(s1, here);
        Stop(BAD, c0);
      }
    }

    lemma {:induction false} WorkingReader(c0: Conf)
      requires Working(c0)
      ensures r.Valid()
    {
      hide Reaches, TablesFor, Step, PhaseOk, Fixed, TreesOf;
    }

    /** A literal or length code; k of the bits do not make one up. */
    method FastLen(ghost c0: Conf, ghost k: nat) returns (here: Entry)
      requires Working(c0) && st.phase.Len? && |r.input| - r.next >= 6
      requires k <= |r.Rest()| && (k < 8 || Lookup(st.phase.ll, r.Rest()[..k]) == More)
      modifies this`st, r
      ensures Taken(c0) && old(st).phase.Len? && (here.op == 0 ==> here.val < 256) && st == LenState(old(st), here)
          && st.out == old(st.out)
      ensures here.op != 0 ==> (here.op / 16 % 2 == 1 <==> here.op / 32 % 2 == 0 && here.op / 64 % 2 == 0)
      ensures r.Valid() && Behind(r.Rest(), old(r.Rest())) && |r.Rest()| >= 33 && old(r.next) <= r.next
          && r.input == old(r.input)
      ensures |r.Rest()| < |old(r.Rest())| && |r.Rest()| + k < |old(r.Rest())| + 8
    {
      hide Reaches, TablesFor, Pow2, Step, PhaseOk, Fixed, TreesOf, Lookup, Accepted, EntryIs, TableCorrect,
        UsedBits, LenState, InTrees, Reader.Rest,
           ToBits, Moved, Taken, Behind;
      ghost var b, s0 := r.Rest(), st;
      FillTo15(r);
      TreesAccepted(s0.phase);
      TablesAre(lencode, lenbits, distcode, distbits, s0.phase);
      here := FastCode(r, lencode, lenbits, LENS, s0.phase.ll);
      LenMoves(c0, s0, b, here, r.Rest());
      AllUsed(s0.phase.ll, b, k);
      Follow(LenState(s0, here), c0);
      BehindDrop(b, UsedBits(Lookup(s0.phase.ll, b)));
    }

    /** One round of the loop of inflate_fast; length and offset stand for its locals len and dist.
        At least six bytes of input and 258 bytes of room are there; k of the bits do not make up a code. */
    method FastSymbol(out: array<Byte>, ghost prev: seq<Byte>, ghost c0: Conf, ghost k: nat)
      requires Fast(c0) && mode == LEN && Written(prev, out) && NeverWild(c0) && win.Valid(prev) && out != win.window
      requires r.Valid() && |r.input| - r.next >= 6 && out.Length - put >= 258
      requires st.phase.Len? && k <= |r.Rest()| && (k < 8 || Lookup(st.phase.ll, r.Rest()[..k]) == More)
      modifies this, r, out
      ensures Fast(c0) && Written(prev, out) && r.Valid() && Behind(r.Rest(), old(r.Rest())) && old(r.next) <= r.next
          && r.input == old(r.input)
      ensures |r.Rest()| < |old(r.Rest())| && |r.Rest()| + k < |old(r.Rest())| + 8
    {
      hide Reaches, TablesFor, Pow2, ToBits, Step, PhaseOk, Fixed, TreesOf, NeverWild, Holds, Working, Behind, Raw,
        Lookup;
      ghost var b := r.Rest();
      var here := FastLen(c0, k);
      ghost var b1 := r.Rest();
      if here.op == 0 {
        TakenWorks(c0);
        FastLiteral(here.val, out, prev, c0);
        WorkingFast(c0);
      } else if here.op / 16 % 2 == 1 {
        TakenWorks(c0);
        FastLength(here.op % 16, here.val, out, prev, c0);
        BehindShorter(r.Rest(), b1, b);
      } else if here.op / 32 % 2 == 1 {
        Stop(TYPE, c0);
      } else {
        Stop(BAD, c0);
      }
      FastReader(c0);
    }

    lemma {:induction false} FastReader(c0: Conf)
      requires Fast(c0)
      ensures r.Valid() && (mode == LEN ==> st.phase.Len?) && (mode == LEN || mode == TYPE || mode == BAD)
    {
      hide Reaches, TablesFor, Working, Step, PhaseOk, Fixed, TreesOf;
    }

    lemma {:induction false} FastStart(c0: Conf)
      requires Valid() && mode == LEN && At(c0)
      ensures Fast(c0) && r.Valid() && st.phase.Len? && r.bits <= |r.Rest()| && Behind(r.Rest(), r.Rest())
      ensures r.bits < 8 || Lookup(st.phase.ll, r.Rest()[..r.bits]) == More
      ensures r.Rest() == ToBits(r.hold, r.bits) + BytesBits(r.input[r.next..])
    {
      hide Reaches, TablesFor, Step, PhaseOk, Fixed, TreesOf, ToBits, BytesBits, Lookup;
      AtWork(c0);
      InLen(V(), r.bits, st);
      HeldLen(st, r.hold, r.bits);
      HeldFront(r);
    }

    /** Leaves fewer than eight bits in the accumulator. */
    method ReturnUnused(next0: nat, ghost c0: Conf, ghost b0: seq<bool>, ghost held: seq<bool>)
      requires Fast(c0) && next0 <= r.next && Behind(r.Rest(), b0) && b0 == held + BytesBits(r.input[next0..])
      requires |r.Rest()| < 8 * (|r.input| - next0) + 8
      modifies r
      ensures Valid() && At(c0) && r.Rest() == old(r.Rest()) && r.bits < 8 && next0 <= r.next
    {
      hide Reaches, TablesFor, Step, PhaseOk, Fixed, TreesOf, ToBits, BytesBits, HoldOk, Stands, TablesIn, Pow2;
      BehindEnds(r.Rest(), held, BytesBits(r.input[next0..]));
      r.ReturnBytes(next0);
      HeldShort(st, r.hold, r.bits);
      if mode == LEN {
        InLen(V(), r.bits, st);
        TablesTrees(LEN, st.phase);
      } else if mode == TYPE {
        InType(V(), r.bits, st);
        TablesPlain(TYPE, st.phase);
      } else {
        InBad(V(), r.bits, st);
        TablesPlain(BAD, st.phase);
      }
    }

    /** inflate_fast: whole symbols as long as there is plenty of input and room. */
    method InflateFast(out: array<Byte>, ghost prev: seq<Byte>, ghost c0: Conf)
      requires Valid() && mode == LEN && At(c0) && Written(prev, out) && NeverWild(c0) && win.Valid(prev)
          && out != win.window
      requires |r.input| - r.next >= 6 && out.Length - put >= 258
      modifies this, r, out
      ensures Valid() && At(c0) && Written(prev, out) && (mode == LEN || mode == TYPE || mode == BAD) && r.bits < 8
          && old(r.next) <= r.next
      ensures Fewer(old(st), old(r.Rest()), st, r.Rest())
    {
      hide Valid, Fast, Reaches, NeverWild, Holds, Step, PhaseOk, Lookup, ToBits, Pow2, BytesBits, Written, Behind;
      ghost var b0, s0 := r.Rest(), st;
      ghost var k: nat, tail: nat := r.bits, 8 * (|r.input| - r.next);
      ghost var b := b0;
      var next0: nat := r.next;
      FastStart(c0);
      while true
        invariant Fast(c0) && mode == LEN && Written(prev, out) && r.Valid() && b == r.Rest() && Behind(b, b0)
            && next0 <= r.next && r.input == old(r.input)
        invariant |r.input| - r.next >= 6 && out.Length - put >= 258
        invariant st.phase.Len? && k <= |b| && (k < 8 || Lookup(st.phase.ll, b[..k]) == More)
        invariant |b| <= |b0| && (|b| == tail + k || (k == 0 && |b| < tail + 8))
        decreases |b|
      {
        FastSymbol(out, prev, c0, k);
        FastReader(c0);
        BehindShorter(r.Rest(), b, b0);
        k, b := 0, r.Rest();
        if mode != LEN || |r.input| - r.next < 6 || out.Length - put < 258 { break; }
      }
      ReturnUnused(next0, c0, b0, old(ToBits(r.hold, r.bits)));
    }

    // ---------------------------------------------------------------- calls

    /** The window is up to date, or will not be used again. */
    ghost predicate Ready(prev: seq<Byte>)
      reads this, win, win.window
    {
      win.Valid(prev) || (mode == BAD && win.wsize == 0)
    }

    /** The modes that read the head of a block. */
    method DoHead(ghost c0: Conf) returns (leave: bool)
      requires Valid() && At(c0) && (mode == TYPE || mode == STORED || mode == TABLE || mode == LENLENS
          || mode == CODELENS)
      modifies this, r, lens, work, codes
      ensures Valid() && At(c0) && put == old(put) && st.out == old(st.out)
      ensures if leave then Starved() else Fewer(old(st), old(r.Rest()), st, r.Rest())
    {
      hide Valid, Reaches, Fewer, Step;
      if mode == TYPE {
        leave := DoType(c0);
      } else if mode == STORED {
        leave := DoStored(c0);
      } else if mode == TABLE {
        leave := DoTable(c0);
      } else if mode == LENLENS {
        leave := DoLenLens(c0);
      } else {
        leave := DoCodeLens(c0);
      }
    }

    /** The modes that read symbols. */
    method DoSymbol(out: array<Byte>, ghost prev: seq<Byte>, ghost c0: Conf) returns (leave: bool)
      requires Valid() && At(c0) && Written(prev, out)
          && (mode == LEN || mode == LENEXT || mode == DIST || mode == DISTEXT)
      requires win.Valid(prev) && out != win.window && NeverWild(c0)
      modifies this, r, out
      ensures Valid() && At(c0) && Written(prev, out)
      ensures if leave then Starved() else Fewer(old(st), old(r.Rest()), st, r.Rest())
    {
      hide Valid, Reaches, Fewer, Step, NeverWild, Holds;
      if mode == LEN {
        if |r.input| - r.next >= 6 && out.Length - put >= 258 {
          InflateFast(out, prev, c0);
          leave := false;
        } else {
          leave := DoLen(c0);
        }
      } else if mode == LENEXT {
        leave := DoLenExt(c0);
      } else if mode == DIST {
        leave := DoDist(c0);
      } else {
        leave := DoDistExt(c0);
      }
    }

    /** The modes that put out bytes. */
    method DoOutput(out: array<Byte>, ghost prev: seq<Byte>, ghost c0: Conf) returns (leave: bool)
      requires Valid() && At(c0) && Written(prev, out) && (mode == COPY || mode == MATCH || mode == LIT)
      requires win.Valid(prev) && out != win.window && NeverWild(c0)
      modifies this, r, out
      ensures Valid() && At(c0) && Written(prev, out)
      ensures if leave then Starved() || Full(out) else Fewer(old(st), old(r.Rest()), st, r.Rest())
    {
      hide Valid, Reaches, Fewer, Step, NeverWild, Holds;
      if mode == COPY {
        leave := DoCopy(out, prev, c0);
      } else if mode == MATCH {
        leave := DoMatch(out, prev, c0);
      } else {
        leave := DoLit(out, prev, c0);
      }
    }

    /** More input behind what is left of the old. */
    method Feed(more: seq<Byte>, ghost c0: Conf)
      requires Valid() && At(c0)
      modifies r`input, r`next
      ensures Valid() && At(With(c0, BytesBits(more))) && r.input == old(r.input[r.next..]) + more
    {
      hide TablesFor, Step, Reaches, PhaseOk, Fixed, TablesIn, Stands, HoldOk, BytesBits;
      ReachesMore(c0, Conf(st, r.Rest()), BytesBits(more));
      r.Feed(more);
    }

    method Begin(out: array<Byte>, ghost prev: seq<Byte>, ghost c0: Conf)
      requires Valid() && At(c0) && st.out == prev && Ready(prev)
      modifies this`put
      ensures Valid() && At(c0) && Written(prev, out) && Ready(prev) && put == 0
    {
      hide TablesFor, Step, Reaches, PhaseOk, Fixed, TreesOf, InPlace, TableForCodes;
      put := 0;
      assert out[..0] == [];
    }

    lemma {:induction false} Readable()
      requires Valid()
      ensures r.next <= |r.input|
    {
      hide TablesFor, Step, PhaseOk, Fixed;
    }

    /** Adds what was put out to the window, unless it will not be used again. */
    method Leave(out: array<Byte>, ghost prev: seq<Byte>)
      requires Written(prev, out) && Ready(prev) && out != win.window
      modifies win, win.window
      ensures Ready(st.out)
    {
      hide Holds;
      assert out[put - put..put] == out[..put];
      if win.wsize != 0 || (put != 0 && mode != BAD) { win.Update(out, put, put, prev); }
    }

    /** A call of inflate: goes on until input or room runs out or the stream has ended, and keeps the window. */
    method Inflate(out: array<Byte>, ghost prev: seq<Byte>, ghost c0: Conf)
      requires Valid() && At(c0) && st.out == prev && Ready(prev) && out != win.window && NeverWild(c0)
      modifies this, r, lens, work, codes, out, win, win.window
      ensures Valid() && At(c0) && Written(prev, out) && Ready(st.out)
      ensures mode == CHECK || mode == BAD || Starved() || Full(out)
    {
      hide Reader.Rest, Valid, Reaches, Step, NeverWild, Holds, StepsLeft, At, Starved, Full;
      Begin(out, prev, c0);
      Readable();
      while mode != CHECK && mode != BAD
        invariant Valid() && r.next <= |r.input| && At(c0) && Written(prev, out) && Ready(prev)
        decreases |r.Rest()|, StepsLeft(st.phase)
      {
        var leave;
        if mode == TYPE || mode == STORED || mode == TABLE || mode == LENLENS || mode == CODELENS {
          leave := DoHead(c0);
        } else if mode == LEN || mode == LENEXT || mode == DIST || mode == DISTEXT {
          leave := DoSymbol(out, prev, c0);
        } else {
          leave := DoOutput(out, prev, c0);
        }
        Readable();
        if leave { break; }
      }
      Leave(out, prev);
    }
  }

  lemma {:induction false} HeldLens(st: State, hold: nat, bits: nat)
    requires HoldOk(st, hold, bits) && st.phase.LenLens?
    ensures bits < 8
  {
    hide ToBits, Refused;
  }

  /** Where the counts lead. */
  function CountsPhase(nlen: nat, ndist: nat, ncode: nat): (r: Phase)
  {
    if nlen > 286 || ndist > 30 then Bad else LenLens(nlen, ndist, ncode, [])
  }

  lemma {:induction false} TableStep(st: State, b: seq<bool>)
    ensures |b| < 14 ==> StepTable(st, b) == Wait
    ensures |b| >= 14 ==>
        StepTable(st, b) ==
        Go(st.(phase := CountsPhase(Field(b, 0, 5) + 257, Field(b, 5, 5) + 1, Field(b, 10, 4) + 4)), 14)
  {
    hide Field;
  }

  lemma {:induction false} CheckOk()
    ensures PhaseOk(Check) && PhaseOk(Bad) && PhaseOk(Type)
  {
  }

  lemma {:induction false} LastStep(st: State, b: seq<bool>)
    requires st.last
    ensures StepType(st, b) == Go(st.(phase := Check), |b| % 8)
  {
  }

  lemma {:induction false} HeaderStep(st: State, b: seq<bool>)
    requires !st.last
    ensures |b| < 3 ==> StepType(st, b) == Wait
    ensures |b| >= 3 ==> StepType(st, b) == Go(st.(last := b[0], phase := TypePhase(Field(b, 1, 2))), 3)
  {
    hide FixedLit, FixedDist;
  }

  /** Where a block type leads. */
  function TypePhase(kind: nat): (r: Phase)
  {
    if kind == 0 then Stored else if kind == 1 then Len(FixedLit(), FixedDist()) else if kind == 2 then Table else Bad
  }

  lemma {:induction false} StoredLenStep(st: State, b: seq<bool>)
    ensures st.phase.StoredLen? ==> Step(st, b) == StepStoredLen(st, b)
    ensures |b| < 32 ==> StepStoredLen(st, b) == Wait
    ensures |b| >= 32 && Field(b, 0, 16) + Field(b, 16, 16) != 0xffff ==>
        StepStoredLen(st, b) == Go(st.(phase := Bad), 0)
    ensures |b| >= 32 && Field(b, 0, 16) + Field(b, 16, 16) == 0xffff ==>
        StepStoredLen(st, b) == Go(st.(phase := Copy(Field(b, 0, 16))), 32)
  {
    hide Field;
  }

  /** Dropping the bits up to the byte boundary, now or earlier. */
  lemma {:induction false} Aligned(c0: Conf, st: State, b0: seq<bool>, b: seq<bool>)
    requires (st.phase.Stored? || st.phase.StoredLen?) && Reaches(c0, Conf(st, b0)) && b == b0[|b0| % 8..]
    requires st.phase.StoredLen? ==> |b0| % 8 == 0
    ensures Reaches(c0, Conf(st.(phase := StoredLen), b)) && PhaseOk(StoredLen)
    ensures NoMore(st, b0, st.(phase := StoredLen), b)
  {
    hide Reaches;
    if st.phase.Stored? {
      TakeStep(c0, st, b0, st.(phase := StoredLen), |b0| % 8, b);
    } else {
      assert b0[0..] == b0;
    }
  }

  lemma {:induction false} FewerTwice(s0: State, b0: seq<bool>, s1: State, b1: seq<bool>, s2: State, b2: seq<bool>)
    requires NoMore(s0, b0, s1, b1) && Fewer(s1, b1, s2, b2)
    ensures Fewer(s0, b0, s2, b2)
  {
  }

  /** The tables that fixedtables sets up. */
  method FixedTables() returns (lenfix: seq<Entry>, lenbits: nat, distfix: seq<Entry>, distbits: nat)
    ensures TableCorrect(lenfix, lenbits, LENS, FixedLit()) && TableCorrect(distfix, distbits, DISTS, FixedDist())
  {
    hide TableCorrect, Refused, Pow2, TableSpace.TableSize, TableSpace.RootBits;
    FixedAccepted();
    Pow2Values();
    var work := new nat[288];
    var t, u := new Entry[ENOUGH_LENS](_ => INVALID), new Entry[ENOUGH_DISTS](_ => INVALID);
    FlatSuffice(LENS, FixedLit(), 9);
    FlatSuffice(DISTS, FixedDist(), 5);
    var ret, end;
    ret, end, lenbits := InflateTable.InflateTable(LENS, FixedLit(), t, 0, 9, work);
    lenfix := t[0..end];
    ret, end, distbits := InflateTable.InflateTable(DISTS, FixedDist(), u, 0, 5, work);
    distfix := u[0..end];
  }

  function MoreLens(p: Phase, v: nat): (r: Phase)
    requires p.LenLens?
  {
    LenLens(p.nlen, p.ndist, p.ncode, p.got + [v])
  }

  lemma {:induction false} LenLensStep(st: State, b: seq<bool>)
    requires st.phase.LenLens? && |st.phase.got| < st.phase.ncode
    ensures Step(st, b) == StepLenLens(st, b)
    ensures |b| < 3 ==> StepLenLens(st, b) == Wait
    ensures |b| >= 3 ==> StepLenLens(st, b) == Go(st.(phase := MoreLens(st.phase, Field(b, 0, 3))), 3)
  {
    hide Field;
  }

  lemma {:induction false} InPlaceMore(lens: seq<nat>, got: seq<nat>, v: nat)
    requires InPlace(lens, got) && |got| < 19
    ensures InPlace(lens[Order(|got|) := v], got + [v])
  {
    hide Order;
    forall i: nat | i < |got| ensures Order(i) != Order(|got|) {
      RankOfOrder(i);
      RankOfOrder(|got|);
    }
  }

  lemma {:induction false} LensBounds(p: Phase)
    requires PhaseOk(p)
    ensures p.LenLens? ==> |p.got| <= p.ncode <= 19 && 257 <= p.nlen <= 286 && 1 <= p.ndist <= 30 && CodesOk(p.got, 7)
    ensures p.CodeLens? ==>
        |p.got| <= p.nlen + p.ndist && 257 <= p.nlen <= 286 && 1 <= p.ndist <= 30
        && Accepted(CODES, p.cl) && |p.cl| == 19
  {
    hide Accepted;
  }

  lemma {:induction false} OrderApart(n: nat)
    requires n < 19
    ensures forall i: nat :: i < n ==> Order(i) != Order(n)
  {
    hide Order, Rank;
    forall i: nat | i < n ensures Order(i) != Order(n) {
      RankOfOrder(i);
      RankOfOrder(n);
    }
  }

  lemma {:induction false} CodesStep(st: State, b: seq<bool>)
    requires st.phase.LenLens? && |st.phase.got| == st.phase.ncode
    ensures Step(st, b) == StepLenLens(st, b) && b[0..] == b
    ensures StepLenLens(st, b) == Go(st.(phase := CodesPhase(st.phase.nlen, st.phase.ndist,
        CodeLengths(st.phase.got))), 0)
  {
    hide Refused, CodeLengths;
  }

  /** Where the complete code length code leads. */
  ghost function CodesPhase(nlen: nat, ndist: nat, cl: seq<nat>): (r: Phase)
  {
    if Refused(CODES, cl) then Bad else CodeLens(nlen, ndist, cl, [])
  }

  lemma {:induction false} SmallLengths(got: seq<nat>)
    requires CodesOk(got, 7)
    ensures LensOk(CodeLengths(got)) && forall s :: 0 <= s < 19 ==> CodeLengths(got)[s] <= 7
  {
    hide Rank;
  }

  /** The entry of a code length symbol; where there is no code at all, a bit stands for a length of zero. */
  ghost predicate ItemFound(f: Found, here: Entry)
  {
    match f
    case Sym(s, n) => here.val == s && here.bits == n && s < 19
    case NoCode => here.val == 0 && here.bits == 1
    case More => false
  }

  lemma {:induction false} ItemIs(cl: seq<nat>, b: seq<bool>, here: Entry)
    requires EntryIs(CODES, Lookup(cl, b), here) && here.bits == UsedBits(Lookup(cl, b))
    ensures ItemFound(Lookup(cl, b), here)
  {
    hide Lookup;
  }

  lemma {:induction false} CodesTableIs(t: seq<Entry>, root: nat, cl: seq<nat>)
    requires TableForCodes(t, root, cl)
    ensures TableCorrect(t, root, CODES, cl) && NoLinks(t, root)
  {
  }

  lemma {:induction false} NotLink(t: seq<Entry>, root: nat, hold: nat)
    requires NoLinks(t, root)
    ensures FirstIndex(root, hold) < |t| && !IsLink(t[FirstIndex(root, hold)])
  {
    hide Pow2;
    DivModIdentity(hold, Pow2(root));
  }

  /** Before a code length symbol fewer than eight bits are held, or no symbol is determined, or bits are missing. */
  lemma {:induction false} HeldItem(st: State, hold: nat, bits: nat)
    requires HoldOk(st, hold, bits) && st.phase.CodeLens? && |st.phase.got| < st.phase.nlen + st.phase.ndist
    ensures bits < 8 || Lookup(st.phase.cl, ToBits(hold, bits)) == More
         || (Lookup(st.phase.cl, ToBits(hold, bits)).Sym?
           && bits < Lookup(st.phase.cl, ToBits(hold, bits)).n + ItemExtra(Lookup(st.phase.cl, ToBits(hold, bits)).s))
  {
    hide ToBits, Lookup, Apply, ItemExtra;
  }

  lemma {:induction false} HeldEnough(cl: seq<nat>, b: seq<bool>, bits0: nat, here: Entry, bits: nat, st: State,
      hold0: nat)
    requires bits0 <= |b| && b[..bits0] == ToBits(hold0, bits0) && st.phase.CodeLens? && st.phase.cl == cl
        && Accepted(CODES, cl)
    requires ItemFound(Lookup(cl, b), here) && Frugal(cl, b, bits0, bits) && 8 <= bits0 <= bits <= |b|
    requires Lookup(cl, b[..bits0]) == More ==> bits < here.bits + 8
    requires Lookup(cl, b[..bits0]) == More
          || (Lookup(cl, b[..bits0]).Sym? && bits0 < Lookup(cl, b[..bits0]).n + ItemExtra(Lookup(cl, b[..bits0]).s))
    ensures bits < here.bits + 8 || bits < here.bits + ItemExtra(here.val)
  {
    hide Lookup, Accepted, ToBits;
    if Lookup(cl, b[..bits0]) != More {
      assert b == b[..bits0] + b[bits0..];
      LookupMore(CODES, cl, b[..bits0], b[bits0..]);
      if bits != bits0 {
        var k := bits - 8;
        assert b[..k] == b[..bits0] + b[bits0..k];
        LookupMore(CODES, cl, b[..bits0], b[bits0..k]);
      }
    }
  }

  lemma {:induction false} ItemStep(st: State, b: seq<bool>)
    requires st.phase.CodeLens? && |st.phase.got| < st.phase.nlen + st.phase.ndist
    ensures Step(st, b) == StepCodeLens(st, b)
    ensures Lookup(st.phase.cl, b) == More ==> StepCodeLens(st, b) == Wait
  {
    hide Lookup, Apply;
  }

  lemma {:induction false} PlainStep(st: State, b: seq<bool>, here: Entry)
    requires st.phase.CodeLens? && |st.phase.got| < st.phase.nlen + st.phase.ndist
        && ItemFound(Lookup(st.phase.cl, b), here) && here.val < 16
    requires here.bits <= |b|
    ensures StepCodeLens(st, b) ==
        Go(st.(phase := CodeLens(st.phase.nlen, st.phase.ndist, st.phase.cl, st.phase.got + [here.val])), here.bits)
    ensures here.bits > 0
  {
    hide Lookup;
    LookupFits(st.phase.cl, b);
  }

  /** Where a repeat leads. */
  function Repeated(p: Phase, total: nat, it: Item): (r: Phase)
    requires p.CodeLens?
  {
    match Apply(p.got, total, it)
    case None => Bad
    case Some(got) => CodeLens(p.nlen, p.ndist, p.cl, got)
  }

  lemma {:induction false} RepeatStep(st: State, b: seq<bool>, here: Entry)
    requires st.phase.CodeLens? && |st.phase.got| < st.phase.nlen + st.phase.ndist
        && ItemFound(Lookup(st.phase.cl, b), here) && here.val >= 16
    requires here.bits <= |b|
    ensures here.val <= 18 && here.bits > 0
    ensures |b| < here.bits + ItemExtra(here.val) ==> StepCodeLens(st, b) == Wait
    ensures |b| >= here.bits + ItemExtra(here.val) && here.val == 16 && st.phase.got == [] ==>
        StepCodeLens(st, b) == Go(st.(phase := Bad), here.bits)
    ensures |b| >= here.bits + ItemExtra(here.val) && !(here.val == 16 && st.phase.got == []) ==>
              StepCodeLens(st, b) == Go(st.(phase := Repeated(st.phase, st.phase.nlen + st.phase.ndist,
                Item(here.val, Field(b, here.bits, ItemExtra(here.val))))),
                                        here.bits + ItemExtra(here.val))
  {
    hide Lookup, Field;
    LookupFits(st.phase.cl, b);
  }

  lemma {:induction false} FillNone(v: nat)
    ensures Fill(v, 0) == []
  {
  }

  lemma {:induction false} FillMore(v: nat, n: nat)
    ensures Fill(v, n + 1) == Fill(v, n) + [v]
  {
  }

  lemma {:induction false} HeldDone(st: State, hold: nat, bits: nat)
    requires HoldOk(st, hold, bits) && st.phase.CodeLens? && |st.phase.got| == st.phase.nlen + st.phase.ndist
    ensures bits < 8
  {
    hide ToBits, Lookup, Apply, TreesPhase;
  }

  lemma {:induction false} DoneStep(st: State, b: seq<bool>)
    requires st.phase.CodeLens? && |st.phase.got| == st.phase.nlen + st.phase.ndist
    ensures Step(st, b) == Go(st.(phase := TreesPhase(st.phase.got, st.phase.nlen)), 0)
  {
    hide Lookup, Apply, TreesPhase;
  }

  lemma {:induction false} Halves(got: seq<nat>, lens: seq<nat>, nlen: nat, ndist: nat)
    requires 257 <= nlen <= 286 && 1 <= ndist <= 30 && |lens| == 320 && got == lens[..nlen + ndist] && CodesOk(got, 15)
    ensures |got| == nlen + ndist && lens[..nlen] == got[..nlen] && lens[nlen..nlen + ndist] == got[nlen..]
        && lens[256] == got[256]
    ensures LensOk(got[..nlen]) && LensOk(got[nlen..])
  {
  }

  lemma {:induction false} NoEnd(got: seq<nat>, nlen: nat)
    requires 257 <= nlen <= |got| && got[256] == 0
    ensures TreesPhase(got, nlen) == Bad
  {
    hide Refused;
  }

  lemma {:induction false} Refused1(got: seq<nat>, nlen: nat)
    requires 257 <= nlen <= |got|
    ensures Refused(LENS, got[..nlen]) || Refused(DISTS, got[nlen..]) ==> TreesPhase(got, nlen) == Bad
  {
    hide Refused;
  }

  lemma {:induction false} BothAccepted(got: seq<nat>, nlen: nat)
    requires 257 <= nlen <= |got| && got[256] != 0 && !Refused(LENS, got[..nlen]) && !Refused(DISTS, got[nlen..])
    ensures TreesPhase(got, nlen) == Len(got[..nlen], got[nlen..])
  {
    hide Refused;
  }

  lemma {:induction false} BothTables(lencode: seq<Entry>, lenbits: nat, distcode: seq<Entry>, distbits: nat,
      ll: seq<nat>, dl: seq<nat>)
    requires TableCorrect(lencode, lenbits, LENS, ll) && TableCorrect(distcode, distbits, DISTS, dl)
    ensures TablesFor(lencode, lenbits, distcode, distbits, ll, dl)
  {
    hide TableCorrect;
  }

  /** Extra bits, if there are any. */
  method TakeExtra(r: Reader, n: nat) returns (ok: bool, v: nat)
    requires r.Valid()
    modifies r`next, r`hold, r`bits
    ensures r.Valid() && old(r.next) <= r.next
    ensures if ok then |old(r.Rest())| >= n && v == Field(old(r.Rest()), 0, n) && r.Rest() == old(r.Rest())[n..]
            else r.next == |r.input| && r.Rest() == old(r.Rest()) && |r.Rest()| < n
    ensures ok && (old(r.bits) < 8 || old(r.bits) < n) ==> r.bits < 8
  {
    hide Pow2, ToBits, Field;
    if n != 0 {
      ok, v := TakeField(r, n);
    } else {
      ok, v := true, 0;
      FieldOfNone(r.Rest());
      assert r.Rest()[0..] == r.Rest();
    }
  }

  lemma {:induction false} HeldLen(st: State, hold: nat, bits: nat)
    requires HoldOk(st, hold, bits) && st.phase.Len?
    ensures bits < 8 || Lookup(st.phase.ll, ToBits(hold, bits)) == More
  {
    hide ToBits, Lookup;
  }

  lemma {:induction false} HeldDist(st: State, hold: nat, bits: nat)
    requires HoldOk(st, hold, bits) && st.phase.Dist?
    ensures bits < 8 || Lookup(st.phase.dl, ToBits(hold, bits)) == More
  {
    hide ToBits, Lookup;
  }

  lemma {:induction false} HeldExtra(st: State, hold: nat, bits: nat)
    requires HoldOk(st, hold, bits) && (st.phase.LenExt? || st.phase.DistExt?)
    ensures bits < 8 || bits < st.phase.extra
  {
    hide ToBits, Field;
  }

  lemma {:induction false} TablesAre(lencode: seq<Entry>, lenbits: nat, distcode: seq<Entry>, distbits: nat, p: Phase)
    requires TablesFor(lencode, lenbits, distcode, distbits, TreesOf(p).0, TreesOf(p).1)
    ensures p.Len? || p.Dist? ==>
        TableCorrect(lencode, lenbits, LENS, p.ll)
        && TableCorrect(distcode, distbits, DISTS, p.dl)
    ensures p.Len? || p.Dist? ==> TablesFor(lencode, lenbits, distcode, distbits, p.ll, p.dl)
  {
    hide TableCorrect;
  }

  lemma {:induction false} SameTrees(p: Phase, q: Phase)
    requires InTrees(p) && InTrees(q) && p.ll == q.ll && p.dl == q.dl
    ensures TreesOf(p) == TreesOf(q)
  {
  }

  lemma {:induction false} TreesAre(p: Phase)
    requires InTrees(p)
    ensures TreesOf(p) == (p.ll, p.dl)
  {
  }

  /** A byte of the window, d bytes before the end of the earlier output. */
  lemma {:induction false} InWindow(w: seq<Byte>, whave: nat, wnext: nat, prev: seq<Byte>, d: nat, out: seq<Byte>,
      put: nat)
    requires Holds(w, whave, wnext, prev) && 1 <= d <= whave && |out| == |prev| + put && prev <= out
    ensures d <= |prev| && wnext < |w| && whave <= |w| && 0 <= Back(wnext, |w|, d) < |w|
    ensures w[Back(wnext, |w|, d)] == out[|out| - (d + put)]
  {
  }

  lemma {:induction false} InOutput(prev: seq<Byte>, written: seq<Byte>, offset: nat, out: seq<Byte>)
    requires out == prev + written && 0 < offset <= |written|
    ensures offset <= |out| && written[|written| - offset] == out[|out| - offset]
  {
  }

  /** A copied byte lies within the window size. */
  lemma {:induction false} CopyTame(c0: Conf, st: State, b: seq<bool>)
    requires NeverWild(c0) && Reaches(c0, Conf(st, b)) && PhaseOk(st.phase) && st.phase.Copying?
        && st.phase.dist <= |st.out|
    ensures 0 < st.phase.dist && 0 < st.phase.len
        && Step(st, b) == Go(CopyState(st, st.out[|st.out| - st.phase.dist]), 0)
  {
    hide Reaches, NeverWild;
    if st.phase.dist > st.size {
      var s1 := st.(phase := Wild);
      assert b[0..] == b;
      TakeStep(c0, st, b, s1, 0, b);
      WildNotReached(c0, Conf(s1, b));
    }
  }

  lemma {:induction false} FarStep(c0: Conf, st: State, b: seq<bool>, prev: seq<Byte>, w: seq<Byte>, whave: nat,
      wnext: nat, put: nat)
    requires NeverWild(c0) && Reaches(c0, Conf(st, b)) && PhaseOk(st.phase) && st.phase.Copying?
        && st.phase.dist > put + whave
    requires |st.out| == |prev| + put && (prev == [] || (Holds(w, whave, wnext, prev) && |w| == st.size))
    ensures Step(st, b) == Go(st.(phase := Bad), 0) && b[0..] == b
  {
    hide Reaches, NeverWild, Back;
    assert b[0..] == b;
    if st.phase.dist <= |st.out| { CopyTame(c0, st, b); }
  }

  // ------------------------------------------------------------------ the fast path

  lemma {:induction false} DistStateIs(st: State, here: Entry)
    requires st.phase.Dist?
    ensures var q := DistState(st, here).phase;
            if here.op / 64 % 2 == 1 then q.Bad?
              else InTrees(q) && q.DistExt? && q.len == st.phase.len && q.dist == here.val && q.extra == here.op % 16
  {
  }

  /** What taking a symbol keeps; b1 is what is left of b. */
  ghost predicate Moved(c0: Conf, st: State, s1: State, b1: seq<bool>)
  {
    && Reaches(c0, Conf(s1, b1)) && PhaseOk(s1.phase) && s1.size == st.size && s1.last == st.last && s1.out == st.out
    && (InTrees(s1.phase) ==> TreesOf(s1.phase) == TreesOf(st.phase))
  }

  lemma {:induction false} LengthMoves(c0: Conf, st: State, b: seq<bool>, v: nat, b1: seq<bool>)
    requires Reaches(c0, Conf(st, b)) && PhaseOk(st.phase) && st.phase.LenExt? && st.phase.extra <= |b|
    requires v == Field(b, 0, st.phase.extra) && b1 == b[st.phase.extra..]
    ensures Moved(c0, st, LengthState(st, v), b1)
    ensures LengthState(st, v).phase.Dist? && LengthState(st, v).phase.len == st.phase.len + v
        && InTrees(LengthState(st, v).phase)
  {
    hide Reaches, Step, PhaseOk, Field, TreesOf;
    ExtraStep(st, b);
    TakeStep(c0, st, b, LengthState(st, v), st.phase.extra, b1);
    SameTrees(st.phase, LengthState(st, v).phase);
  }

  lemma {:induction false} DistanceMoves(c0: Conf, st: State, b: seq<bool>, v: nat, b1: seq<bool>)
    requires Reaches(c0, Conf(st, b)) && PhaseOk(st.phase) && st.phase.DistExt? && st.phase.extra <= |b|
    requires v == Field(b, 0, st.phase.extra) && b1 == b[st.phase.extra..]
    ensures Moved(c0, st, DistanceState(st, v), b1)
    ensures var q := DistanceState(st, v).phase;
            q == Copying(TreesOf(q).0, TreesOf(q).1, st.phase.len, st.phase.dist + v) && 1 <= q.len <= 258
              && 1 <= q.dist && InTrees(q)
  {
    hide Reaches, Step, PhaseOk, Field, TreesOf;
    ExtraStep(st, b);
    TakeStep(c0, st, b, DistanceState(st, v), st.phase.extra, b1);
    SameTrees(st.phase, DistanceState(st, v).phase);
    TreesAre(DistanceState(st, v).phase);
    PhaseBounds(DistanceState(st, v).phase);
  }

  lemma {:induction false} DistMoves(c0: Conf, st: State, b: seq<bool>, here: Entry, b1: seq<bool>)
    requires Reaches(c0, Conf(st, b)) && PhaseOk(st.phase) && st.phase.Dist?
        && EntryIs(DISTS, Lookup(st.phase.dl, b), here)
    requires UsedBits(Lookup(st.phase.dl, b)) <= |b| && b1 == b[UsedBits(Lookup(st.phase.dl, b))..]
    ensures Moved(c0, st, DistState(st, here), b1) && UsedBits(Lookup(st.phase.dl, b)) > 0
    ensures here.op / 16 % 2 == 1 <==> here.op / 64 % 2 == 0
  {
    hide Reaches, Step, PhaseOk, Lookup, UsedBits, EntryIs, TreesOf;
    InflateSteps.DistStep(st, b, here);
    TakeStep(c0, st, b, DistState(st, here), UsedBits(Lookup(st.phase.dl, b)), b1);
    if InTrees(DistState(st, here).phase) { SameTrees(st.phase, DistState(st, here).phase); }
  }

  lemma {:induction false} LenMoves(c0: Conf, st: State, b: seq<bool>, here: Entry, b1: seq<bool>)
    requires Reaches(c0, Conf(st, b)) && PhaseOk(st.phase) && st.phase.Len?
        && EntryIs(LENS, Lookup(st.phase.ll, b), here)
    requires UsedBits(Lookup(st.phase.ll, b)) <= |b| && b1 == b[UsedBits(Lookup(st.phase.ll, b))..]
    ensures here.op == 0 ==> here.val < 256
    ensures Moved(c0, st, LenState(st, here), b1) && UsedBits(Lookup(st.phase.ll, b)) > 0
    ensures here.op != 0 ==> (here.op / 16 % 2 == 1 <==> here.op / 32 % 2 == 0 && here.op / 64 % 2 == 0)
  {
    hide Reaches, Step, PhaseOk, Lookup, UsedBits, EntryIs, TreesOf;
    LenStep(st, b, here);
    TakeStep(c0, st, b, LenState(st, here), UsedBits(Lookup(st.phase.ll, b)), b1);
    if InTrees(LenState(st, here).phase) { SameTrees(st.phase, LenState(st, here).phase); }
  }

  /** What is left of the stream a. */
  ghost predicate Behind(b: seq<bool>, a: seq<bool>)
  {
    |b| <= |a| && b == a[|a| - |b|..]
  }

  lemma {:induction false} BehindDrop(b: seq<bool>, n: nat)
    requires n <= |b|
    ensures Behind(b[n..], b) && |b[n..]| == |b| - n
  {
  }

  lemma {:induction false} BehindTrans(c: seq<bool>, b: seq<bool>, a: seq<bool>)
    requires Behind(c, b) && Behind(b, a)
    ensures Behind(c, a)
  {
  }

  lemma {:induction false} BehindShorter(c: seq<bool>, b: seq<bool>, a: seq<bool>)
    requires Behind(c, b) && Behind(b, a)
    ensures Behind(c, a) && |c| <= |b| <= |a|
  {
  }

  lemma {:induction false} BehindEnds(b: seq<bool>, x: seq<bool>, tail: seq<bool>)
    requires Behind(b, x + tail)
    ensures Ends(b, tail)
  {
    EndsAfter(x, tail, |x + tail| - |b|);
  }

  /** Two more bytes where there are fewer than fifteen bits. */
  method FillTo15(r: Reader)
    requires r.Valid() && (r.bits < 15 ==> |r.input| - r.next >= 2)
    modifies r`next, r`hold, r`bits
    ensures r.Valid() && r.bits >= 15 && r.Rest() == old(r.Rest()) && old(r.next) <= r.next
  {
    if r.bits < 15 {
      r.PullByte();
      r.PullByte();
    }
  }

  method TakeLenExtra(r: Reader, op: nat) returns (v: nat)
    requires r.Valid() && op <= 5 && |r.Rest()| >= 33
    modifies r`next, r`hold, r`bits
    ensures r.Valid() && op <= |old(r.Rest())| && v == Field(old(r.Rest()), 0, op) && r.Rest() == old(r.Rest())[op..]
        && old(r.next) <= r.next
  {
    hide Pow2, ToBits, BytesBits, Field;
    v := 0;
    if op != 0 {
      if r.bits < op { r.PullByte(); }
      r.LowBitsAre(op);
      v := r.LowBits(op);
      r.DropBits(op);
    } else {
      FieldOfNone(r.Rest());
      assert r.Rest()[0..] == r.Rest();
    }
  }

  method TakeDistExtra(r: Reader, op: nat) returns (v: nat)
    requires r.Valid() && op <= 13 && |r.Rest()| >= 13
    modifies r`next, r`hold, r`bits
    ensures r.Valid() && op <= |old(r.Rest())| && v == Field(old(r.Rest()), 0, op) && r.Rest() == old(r.Rest())[op..]
        && old(r.next) <= r.next
  {
    hide Pow2, ToBits, BytesBits, Field;
    if r.bits < op {
      r.PullByte();
      if r.bits < op { r.PullByte(); }
    }
    r.LowBitsAre(op);
    v := r.LowBits(op);
    r.DropBits(op);
  }

  /** The first k bits are not enough for the code that is read. */
  lemma {:induction false} AllUsed(lens: seq<nat>, b: seq<bool>, k: nat)
    requires Accepted(LENS, lens) && k <= |b| && (k < 8 || Lookup(lens, b[..k]) == More) && Lookup(lens, b) != More
    ensures |b| - UsedBits(Lookup(lens, b)) + k < |b| + 8
  {
    hide Lookup, Accepted;
    if k >= 8 {
      assert b == b[..k] + b[k..];
      FoundLonger(LENS, lens, b[..k], b[k..]);
    }
    LookupFits(lens, b);
  }
}
