/** Decoding as a machine on bits: the states of inflate.c from TYPEDO to CHECK, each step taking just the
    bits it needs.  What a step does depends only on the state and the bits, never on how they arrive. */
module Decoder {
  import opened Wrappers
  import opened Bits
  import opened Canonical
  import opened InflateTable
  import opened StaticTables
  import opened FixedTrees
  import opened RunLength
  import opened BitWriter
  import opened Rfc1951

  datatype Phase =
    | Type
    | Stored
    | StoredLen
    | Copy(n: nat)
    | Table
    | LenLens(nlen: nat, ndist: nat, ncode: nat, got: seq<nat>)
    | CodeLens(nlen: nat, ndist: nat, cl: seq<nat>, got: seq<nat>)
    | Len(ll: seq<nat>, dl: seq<nat>)
    | LenExt(ll: seq<nat>, dl: seq<nat>, len: nat, extra: nat)
    | Dist(ll: seq<nat>, dl: seq<nat>, len: nat)
    | DistExt(ll: seq<nat>, dl: seq<nat>, len: nat, dist: nat, extra: nat)
    | Copying(ll: seq<nat>, dl: seq<nat>, len: nat, dist: nat)
    | Emitting(ll: seq<nat>, dl: seq<nat>, b: Byte)
    | Check
    | Bad
    | Wild

  /** last: the block is the last one; out: all output; ts: the tokens read, stored bytes as literals; size: the
      window size. Wild is reached when a distance exceeds the window although there is as much output. */
  datatype State = State(phase: Phase, last: bool, out: seq<Byte>, ts: seq<Token>, size: nat)

  /** Wait: more bits are needed. */
  datatype Outcome = Wait | Go(st: State, used: nat)

  function Field(b: seq<bool>, i: nat, n: nat): (r: nat)
    requires i + n <= |b|
  {
    FromBits(b[i..i + n])
  }

  /** The code length code: got holds the lengths sent, in their own order. */
  function CodeLengths(got: seq<nat>): (cl: seq<nat>)
    ensures |cl| == 19 && forall s: nat :: s < 19 ==> cl[s] == if Rank(s) < |got| then got[Rank(s)] else 0
  {
    seq(19, s requires 0 <= s < 19 => if Rank(s) < |got| then got[Rank(s)] else 0)
  }

  function To(st: State, phase: Phase, used: nat): (r: Outcome)
  {
    Go(st.(phase := phase), used)
  }

  function StepType(st: State, b: seq<bool>): (r: Outcome)
  {
    if st.last then To(st, Check, |b| % 8)
    else if |b| < 3 then Wait
    else
      var kind := Field(b, 1, 2);
      Go(st.(last := b[0],
         phase := if kind == 0 then Stored else if kind == 1 then Len(FixedLit(), FixedDist()) else if kind == 2
           then Table else Bad), 3)
  }

  /** On to the next byte boundary. */
  function StepStored(st: State, b: seq<bool>): (r: Outcome)
  {
    To(st, StoredLen, |b| % 8)
  }

  function StepStoredLen(st: State, b: seq<bool>): (r: Outcome)
  {
    if |b| < 32 then Wait
    else if Field(b, 0, 16) != 0xffff - Field(b, 16, 16) then To(st, Bad, 0)
    else To(st, Copy(Field(b, 0, 16)), 32)
  }

  function StepCopy(st: State, b: seq<bool>): (r: Outcome)
    requires st.phase.Copy?
  {
    if st.phase.n == 0 then To(st, Type, 0)
    else if |b| < 8 then Wait
    else
      FieldByte(b);
      Go(st.(phase := Copy(st.phase.n - 1), out := st.out + [Field(b, 0, 8)],
        ts := st.ts + [Literal(Field(b, 0, 8))]), 8)
  }

  lemma {:induction false} FieldByte(b: seq<bool>)
    requires |b| >= 8
    ensures Field(b, 0, 8) < 256
  {
    FromBitsBound(b[0..8]);
    Pow2Values();
  }

  function StepTable(st: State, b: seq<bool>): (r: Outcome)
  {
    if |b| < 14 then Wait
    else
      var nlen, ndist, ncode := Field(b, 0, 5) + 257, Field(b, 5, 5) + 1, Field(b, 10, 4) + 4;
      To(st, if nlen > 286 || ndist > 30 then Bad else LenLens(nlen, ndist, ncode, []), 14)
  }

  ghost function StepLenLens(st: State, b: seq<bool>): (r: Outcome)
    requires st.phase.LenLens?
  {
    var p := st.phase;
    if |p.got| < p.ncode then
      if |b| < 3 then Wait else To(st, LenLens(p.nlen, p.ndist, p.ncode, p.got + [Field(b, 0, 3)]), 3)
    else
      var cl := CodeLengths(p.got);
      To(st, if Refused(CODES, cl) then Bad else CodeLens(p.nlen, p.ndist, cl, []), 0)
  }

  ghost function StepCodeLens(st: State, b: seq<bool>): (r: Outcome)
    requires st.phase.CodeLens?
  {
    var p := st.phase;
    if |p.got| < p.nlen + p.ndist then
      match Lookup(p.cl, b)
      case More => Wait
      case NoCode => To(st, CodeLens(p.nlen, p.ndist, p.cl, p.got + [0]), 1)
      case Sym(s, n) =>
        if |b| < n + ItemExtra(s) then Wait
        else
          match Apply(p.got, p.nlen + p.ndist, Item(s, Field(b, n, ItemExtra(s))))
          case None => To(st, Bad, if s == REP_3_6 && p.got == [] then n else n + ItemExtra(s))
          case Some(got) => To(st, CodeLens(p.nlen, p.ndist, p.cl, got), n + ItemExtra(s))
    else To(st, TreesPhase(p.got, p.nlen), 0)
  }

  /** Where the complete set of code lengths leads. */
  ghost function TreesPhase(got: seq<nat>, nlen: nat): (r: Phase)
  {
    if nlen <= 256 || |got| < nlen || got[256] == 0 || Refused(LENS, got[..nlen]) || Refused(DISTS, got[nlen..])
      then Bad
    else Len(got[..nlen], got[nlen..])
  }

  ghost function StepLen(st: State, b: seq<bool>): (r: Outcome)
    requires st.phase.Len?
  {
    var ll, dl := st.phase.ll, st.phase.dl;
    match Lookup(ll, b)
    case More => Wait
    case NoCode => To(st, Bad, 1)
    case Sym(s, n) =>
      if s < 256 then Go(st.(phase := Emitting(ll, dl, s), ts := st.ts + [Literal(s)]), n)
      else if s == END_BLOCK then To(st, Type, n)
      else if s <= 285 then To(st, LenExt(ll, dl, LBase(s - 257), LBits(s - 257)), n)
      else To(st, Bad, n)
  }

  function StepLenExt(st: State, b: seq<bool>): (r: Outcome)
    requires st.phase.LenExt?
  {
    var p := st.phase;
    if |b| < p.extra then Wait else To(st, Dist(p.ll, p.dl, p.len + Field(b, 0, p.extra)), p.extra)
  }

  ghost function StepDist(st: State, b: seq<bool>): (r: Outcome)
    requires st.phase.Dist?
  {
    var p := st.phase;
    match Lookup(p.dl, b)
    case More => Wait
    case NoCode => To(st, Bad, 1)
    case Sym(s, n) => To(st, if s <= 29 then DistExt(p.ll, p.dl, p.len, DBase(s), DBits(s)) else Bad, n)
  }

  function StepDistExt(st: State, b: seq<bool>): (r: Outcome)
    requires st.phase.DistExt?
  {
    var p := st.phase;
    if |b| < p.extra then Wait
    else
      var dist := p.dist + Field(b, 0, p.extra);
      Go(st.(phase := Copying(p.ll, p.dl, p.len, dist), ts := st.ts + [Match(p.len, dist)]), p.extra)
  }

  /** One byte of a match. */
  function StepCopying(st: State): (r: Outcome)
    requires st.phase.Copying?
  {
    var p := st.phase;
    if p.dist > |st.out| then To(st, Bad, 0)
    else if p.dist > st.size || p.dist == 0 || p.len == 0 then To(st, Wild, 0)
    else
      Go(st.(phase := if p.len == 1 then Len(p.ll, p.dl) else Copying(p.ll, p.dl, p.len - 1, p.dist),
             out := st.out + [st.out[|st.out| - p.dist]]), 0)
  }

  ghost function Step(st: State, b: seq<bool>): (r: Outcome)
  {
    match st.phase
    case Type => StepType(st, b)
    case Stored => StepStored(st, b)
    case StoredLen => StepStoredLen(st, b)
    case Copy(_) => StepCopy(st, b)
    case Table => StepTable(st, b)
    case LenLens(_, _, _, _) => StepLenLens(st, b)
    case CodeLens(_, _, _, _) => StepCodeLens(st, b)
    case Len(_, _) => StepLen(st, b)
    case LenExt(_, _, _, _) => StepLenExt(st, b)
    case Dist(_, _, _) => StepDist(st, b)
    case DistExt(_, _, _, _, _) => StepDistExt(st, b)
    case Copying(_, _, _, _) => StepCopying(st)
    case Emitting(ll, dl, x) => Go(st.(phase := Len(ll, dl), out := st.out + [x]), 0)
    case Check => Wait
    case Bad => Wait
    case Wild => Wait
  }

  /** The step will put out a byte, or fail to. */
  predicate NeedsRoom(p: Phase)
  {
    p.Copying? || p.Emitting? || (p.Copy? && p.n > 0)
  }

  predicate Ended(p: Phase)
  {
    p.Check? || p.Bad? || p.Wild?
  }

  // ------------------------------------------------------------------ what every step keeps

  ghost predicate TreesOk(ll: seq<nat>, dl: seq<nat>)
  {
    Accepted(LENS, ll) && Accepted(DISTS, dl)
  }

  ghost predicate CodesOk(got: seq<nat>, max: nat)
  {
    forall i :: 0 <= i < |got| ==> got[i] <= max
  }

  /** What holds of every state the decoder can be in. */
  ghost predicate PhaseOk(p: Phase)
  {
    match p
    case LenLens(nlen, ndist, ncode, got) =>
      257 <= nlen <= 286 && 1 <= ndist <= 30 && 4 <= ncode <= 19 && |got| <= ncode && CodesOk(got, 7)
    case CodeLens(nlen, ndist, cl, got) =>
      257 <= nlen <= 286 && 1 <= ndist <= 30 && Accepted(CODES, cl) && |cl| == 19 && |got| <= nlen + ndist
        && CodesOk(got, 15)
    case Copy(n) => n <= 0xffff
    case Len(ll, dl) => TreesOk(ll, dl)
    case LenExt(ll, dl, len, extra) => TreesOk(ll, dl) && 3 <= len && extra <= 5 && len + Pow2(extra) <= 259
    case Dist(ll, dl, len) => TreesOk(ll, dl) && 3 <= len <= 258
    case DistExt(ll, dl, len, dist, extra) => TreesOk(ll, dl) && 3 <= len <= 258 && 1 <= dist && extra <= 13
      && dist + Pow2(extra) <= 32769
    case Copying(ll, dl, len, dist) => TreesOk(ll, dl) && 1 <= len <= 258 && 1 <= dist <= 32768
    case Emitting(ll, dl, _) => TreesOk(ll, dl)
    case _ => true
  }

  lemma {:induction false} FieldBound(b: seq<bool>, i: nat, n: nat)
    requires i + n <= |b|
    ensures Field(b, i, n) < Pow2(n)
  {
    hide Pow2;
    FromBitsBound(b[i..i + n]);
  }

  lemma {:induction false} FixedAccepted()
    ensures TreesOk(FixedLit(), FixedDist())
  {
    hide Left, Pow2;
    FixedLitComplete();
    FixedDistComplete();
  }

  lemma {:induction false} CodeLengthsOk(got: seq<nat>)
    requires CodesOk(got, 7) && !Refused(CODES, CodeLengths(got))
    ensures Accepted(CODES, CodeLengths(got))
  {
    hide Refused, Rank;
  }

  lemma {:induction false} TreesPhaseOk(got: seq<nat>, nlen: nat, ndist: nat)
    requires 257 <= nlen <= 286 && 1 <= ndist <= 30 && |got| == nlen + ndist && CodesOk(got, 15)
    ensures PhaseOk(TreesPhase(got, nlen))
  {
    hide Refused;
  }

  lemma {:induction false} ApplyOk(got: seq<nat>, total: nat, it: Item)
    requires CodesOk(got, 15) && |got| < total && Apply(got, total, it).Some?
    ensures |Apply(got, total, it).value| <= total && CodesOk(Apply(got, total, it).value, 15)
  {
  }

  lemma {:induction false} LengthEntryOk(c: nat)
    requires c <= 28
    ensures 3 <= LBase(c) && LBits(c) <= 5 && LBase(c) + Pow2(LBits(c)) <= 259
  {
    hide Pow2, LBase, LBits;
    LengthRange(c);
    LengthEnds();
    Pow2Values();
    if c < 27 { BaseAfter(c, 27); }
    if c == 28 { Pow2Values(); }
  }

  lemma {:induction false} DistEntryOk(c: nat)
    requires c <= 29
    ensures 1 <= DBase(c) && DBits(c) <= 13 && DBase(c) + Pow2(DBits(c)) <= 32769
  {
    hide Pow2, DBase, DBits;
    DistRange(c);
    DistEnds();
    if c < 29 { DistAfter(c, 29); }
  }

  /** The new state is well formed, the bits used are there, and a byte is put out only where room is needed. */
  ghost predicate Keeps(st: State, b: seq<bool>, o: Outcome)
  {
    o.Go? ==>
      && PhaseOk(o.st.phase) && o.used <= |b| && o.st.size == st.size
      && st.out <= o.st.out && |o.st.out| <= |st.out| + 1 && (!NeedsRoom(st.phase) ==> o.st.out == st.out)
  }

  lemma {:induction false} KeepsHead(st: State, b: seq<bool>)
    requires PhaseOk(st.phase) && (st.phase.Type? || st.phase.Stored? || st.phase.StoredLen? || st.phase.Copy?)
    ensures Keeps(st, b, Step(st, b))
  {
    hide Pow2, Accepted, Field, FixedLit, FixedDist;
    FixedAccepted();
    if st.phase.StoredLen? && |b| >= 32 {
      FieldBound(b, 0, 16);
      Pow2Values();
    }
  }

  lemma {:induction false} KeepsTable(st: State, b: seq<bool>)
    requires PhaseOk(st.phase) && (st.phase.Table? || st.phase.LenLens?)
    ensures Keeps(st, b, Step(st, b))
  {
    hide Pow2, Accepted, Refused, CodeLengths, Field;
    Pow2Values();
    if st.phase.Table? {
      if |b| >= 14 { FieldBound(b, 10, 4); }
    } else if |st.phase.got| < st.phase.ncode {
      if |b| >= 3 { FieldBound(b, 0, 3); }
    } else if !Refused(CODES, CodeLengths(st.phase.got)) {
      CodeLengthsOk(st.phase.got);
      CodeLengthsSize(st.phase.got);
    }
  }

  lemma {:induction false} CodeLengthsSize(got: seq<nat>)
    ensures |CodeLengths(got)| == 19
  {
  }

  lemma {:induction false} KeepsCodeLens(st: State, b: seq<bool>)
    requires PhaseOk(st.phase) && st.phase.CodeLens?
    ensures Keeps(st, b, Step(st, b))
  {
    hide Pow2, Accepted, Refused, Lookup, Apply, TreesPhase, ItemExtra;
    var p := st.phase;
    if |p.got| < p.nlen + p.ndist {
      if Lookup(p.cl, b).Sym? {
        var s, n := Lookup(p.cl, b).s, Lookup(p.cl, b).n;
        if n + ItemExtra(s) <= |b| {
          var it := Item(s, Field(b, n, ItemExtra(s)));
          if Apply(p.got, p.nlen + p.ndist, it).Some? { ApplyOk(p.got, p.nlen + p.ndist, it); }
        }
      }
    } else {
      TreesPhaseOk(p.got, p.nlen, p.ndist);
    }
  }

  lemma {:induction false} KeepsLen(st: State, b: seq<bool>)
    requires PhaseOk(st.phase) && (st.phase.Len? || st.phase.LenExt?)
    ensures Keeps(st, b, Step(st, b))
  {
    hide Pow2, Accepted, Lookup, LBase, LBits, Field;
    if st.phase.Len? {
      if Lookup(st.phase.ll, b).Sym?
        && 257 <= Lookup(st.phase.ll, b).s <= 285 { LengthEntryOk(Lookup(st.phase.ll, b).s - 257); }
    } else if st.phase.extra <= |b| {
      FieldBound(b, 0, st.phase.extra);
    }
  }

  lemma {:induction false} KeepsDist(st: State, b: seq<bool>)
    requires PhaseOk(st.phase) && (st.phase.Dist? || st.phase.DistExt?)
    ensures Keeps(st, b, Step(st, b))
  {
    hide Pow2, Accepted, Lookup, DBase, DBits, Field;
    if st.phase.Dist? {
      if Lookup(st.phase.dl, b).Sym? && Lookup(st.phase.dl, b).s <= 29 { DistEntryOk(Lookup(st.phase.dl, b).s); }
    } else if st.phase.extra <= |b| {
      FieldBound(b, 0, st.phase.extra);
    }
  }

  lemma {:induction false} KeepsRest(st: State, b: seq<bool>)
    requires PhaseOk(st.phase) && (NeedsRoom(st.phase) || Ended(st.phase)) && !st.phase.Copy?
    ensures Keeps(st, b, Step(st, b))
  {
    hide Pow2, Accepted;
  }

  /** Every step keeps the state well formed, uses bits that are there, and only adds output. */
  lemma {:induction false} StepOk(st: State, b: seq<bool>)
    requires PhaseOk(st.phase) && Step(st, b).Go?
    ensures PhaseOk(Step(st, b).st.phase) && Step(st, b).used <= |b| && Step(st, b).st.size == st.size
    ensures st.out <= Step(st, b).st.out && |Step(st, b).st.out| <= |st.out| + 1
    ensures !NeedsRoom(st.phase) ==> Step(st, b).st.out == st.out
  {
    hide PhaseOk, Step;
    match st.phase
    case Type => KeepsHead(st, b);
    case Stored => KeepsHead(st, b);
    case StoredLen => KeepsHead(st, b);
    case Copy(_) => KeepsHead(st, b);
    case Table => KeepsTable(st, b);
    case LenLens(_, _, _, _) => KeepsTable(st, b);
    case CodeLens(_, _, _, _) => KeepsCodeLens(st, b);
    case Len(_, _) => KeepsLen(st, b);
    case LenExt(_, _, _, _) => KeepsLen(st, b);
    case Dist(_, _, _) => KeepsDist(st, b);
    case DistExt(_, _, _, _, _) => KeepsDist(st, b);
    case _ => KeepsRest(st, b);
  }

  // ------------------------------------------------------------------ more input changes nothing

  lemma {:induction false} FieldMore(b: seq<bool>, c: seq<bool>, i: nat, n: nat)
    requires i + n <= |b|
    ensures Field(b + c, i, n) == Field(b, i, n)
  {
    assert (b + c)[i..i + n] == b[i..i + n];
  }

  lemma {:induction false} MoreHead(st: State, b: seq<bool>, c: seq<bool>)
    requires (st.phase.Type? || st.phase.Stored? || st.phase.StoredLen? || st.phase.Copy? || st.phase.Table?)
        && Step(st, b).Go? && |c| % 8 == 0
    ensures Step(st, b + c) == Step(st, b)
  {
    hide FixedLit, FixedDist, Field;
    match st.phase
    case Type => if !st.last { FieldMore(b, c, 1, 2); }
    case Stored =>
    case StoredLen => FieldMore(b, c, 0, 16); FieldMore(b, c, 16, 16);
    case Copy(n) => if n > 0 { FieldMore(b, c, 0, 8); }
    case Table => FieldMore(b, c, 0, 5); FieldMore(b, c, 5, 5); FieldMore(b, c, 10, 4);
  }

  lemma {:induction false} MoreTrees(st: State, b: seq<bool>, c: seq<bool>)
    requires (st.phase.LenLens? || st.phase.CodeLens?) && PhaseOk(st.phase) && Step(st, b).Go?
    ensures Step(st, b + c) == Step(st, b)
  {
    hide Pow2, Accepted, Refused, Lookup, Apply, CodeLengths, TreesPhase, Field, ItemExtra;
    if st.phase.LenLens? {
      if |st.phase.got| < st.phase.ncode { FieldMore(b, c, 0, 3); }
    } else if |st.phase.got| < st.phase.nlen + st.phase.ndist {
      LookupMore(CODES, st.phase.cl, b, c);
      if Lookup(st.phase.cl, b).Sym? { FieldMore(b, c, Lookup(st.phase.cl, b).n, ItemExtra(Lookup(st.phase.cl, b).s)); }
    }
  }

  lemma {:induction false} MoreCodes(st: State, b: seq<bool>, c: seq<bool>)
    requires (st.phase.Len? || st.phase.LenExt? || st.phase.Dist? || st.phase.DistExt?) && PhaseOk(st.phase)
        && Step(st, b).Go?
    ensures Step(st, b + c) == Step(st, b)
  {
    hide Pow2, Accepted, Lookup, LBase, LBits, DBase, DBits, Field;
    match st.phase
    case Len(ll, dl) => LookupMore(LENS, ll, b, c);
    case LenExt(ll, dl, len, extra) => FieldMore(b, c, 0, extra);
    case Dist(ll, dl, len) => LookupMore(DISTS, dl, b, c);
    case DistExt(ll, dl, len, dist, extra) => FieldMore(b, c, 0, extra);
  }

  lemma {:induction false} MoreRest(st: State, b: seq<bool>, c: seq<bool>)
    requires st.phase.Copying? || st.phase.Emitting? || Ended(st.phase)
    ensures Step(st, b + c) == Step(st, b)
  {
  }

  /** A step that can be taken stays the same when more whole bytes follow. */
  lemma {:induction false} StepMore(st: State, b: seq<bool>, c: seq<bool>)
    requires PhaseOk(st.phase) && Step(st, b).Go? && |c| % 8 == 0
    ensures Step(st, b + c) == Step(st, b)
  {
    hide Step, PhaseOk;
    match st.phase
    case Type => MoreHead(st, b, c);
    case Stored => MoreHead(st, b, c);
    case StoredLen => MoreHead(st, b, c);
    case Copy(_) => MoreHead(st, b, c);
    case Table => MoreHead(st, b, c);
    case LenLens(_, _, _, _) => MoreTrees(st, b, c);
    case CodeLens(_, _, _, _) => MoreTrees(st, b, c);
    case Len(_, _) => MoreCodes(st, b, c);
    case LenExt(_, _, _, _) => MoreCodes(st, b, c);
    case Dist(_, _, _) => MoreCodes(st, b, c);
    case DistExt(_, _, _, _, _) => MoreCodes(st, b, c);
    case _ => MoreRest(st, b, c);
  }

  // ------------------------------------------------------------------ runs

  datatype Conf = Conf(st: State, rest: seq<bool>)

  ghost predicate ConfOk(c: Conf)
  {
    PhaseOk(c.st.phase)
  }

  ghost predicate CanStep(c: Conf)
  {
    ConfOk(c) && Step(c.st, c.rest).Go?
  }

  /** The next configuration; the same one when no step can be taken. */
  ghost function Advance(c: Conf): (r: Conf)
  {
    if CanStep(c) then
      StepOk(c.st, c.rest);
      Conf(Step(c.st, c.rest).st, c.rest[Step(c.st, c.rest).used..])
    else c
  }

  /** n steps. */
  ghost function Steps(c: Conf, n: nat): (r: Conf)
    decreases n
  {
    if n == 0 then c else Steps(Advance(c), n - 1)
  }

  lemma {:induction false} StepsAdd(c: Conf, m: nat, n: nat)
    ensures Steps(c, m + n) == Steps(Steps(c, m), n)
    decreases m
  {
    hide Advance;
    if m > 0 { StepsAdd(Advance(c), m - 1, n); }
  }

  ghost predicate Reaches(c: Conf, d: Conf)
  {
    exists n: nat :: Steps(c, n) == d
  }

  lemma {:induction false} ReachesItself(c: Conf)
    ensures Reaches(c, c)
  {
    assert Steps(c, 0) == c;
  }

  lemma {:induction false} ReachesNext(c: Conf)
    ensures Reaches(c, Advance(c))
  {
    hide Advance;
    assert Steps(c, 1) == Steps(Advance(c), 0) == Advance(c);
  }

  lemma {:induction false} ReachesTrans(c: Conf, d: Conf, e: Conf)
    requires Reaches(c, d) && Reaches(d, e)
    ensures Reaches(c, e)
  {
    hide Steps;
    var m: nat :| Steps(c, m) == d;
    var n: nat :| Steps(d, n) == e;
    StepsAdd(c, m, n);
  }

  lemma {:induction false} ReachesStep(c: Conf, st: State, used: nat)
    requires ConfOk(c) && Step(c.st, c.rest) == Go(st, used)
    ensures used <= |c.rest| && Reaches(c, Conf(st, c.rest[used..])) && ConfOk(Conf(st, c.rest[used..]))
  {
    hide Step, PhaseOk, Steps;
    StepOk(c.st, c.rest);
    ReachesNext(c);
  }

  // ------------------------------------------------------------------ running until nothing can be done

  /** Orders the states that use no bits. */
  function StepsLeft(p: Phase): (r: nat)
  {
    match p
    case Check => 0 case Bad => 0 case Wild => 0
    case Type => 1 case StoredLen => 1 case Table => 1
    case Stored => 2
    case Copy(_) => 2 case Len(_, _) => 2
    case Emitting(_, _, _) => 3
    case Copying(_, _, len, _) => 3 + len
    case DistExt(_, _, _, _, _) => 300
    case Dist(_, _, _) => 301
    case LenExt(_, _, _, _) => 302
    case CodeLens(_, _, _, _) => 303
    case LenLens(_, _, _, _) => 304
  }

  lemma {:induction false} StepProgress(st: State, b: seq<bool>)
    requires PhaseOk(st.phase) && Step(st, b).Go?
    ensures Step(st, b).used > 0 || StepsLeft(Step(st, b).st.phase) < StepsLeft(st.phase)
  {
    hide Pow2, Accepted, Refused, Lookup, Apply, CodeLengths, LBase, LBits, DBase, DBits, FixedLit, FixedDist, Field;
  }

  /** The configuration in which the decoder comes to a stop. */
  ghost function Run(c: Conf): (r: Conf)
    decreases |c.rest|, StepsLeft(c.st.phase)
  {
    if CanStep(c) then
      StepOk(c.st, c.rest);
      StepProgress(c.st, c.rest);
      Run(Advance(c))
    else c
  }

  lemma {:induction false} RunSteps(c: Conf, n: nat)
    ensures Run(Steps(c, n)) == Run(c)
    decreases n
  {
    hide Advance, CanStep;
    if n > 0 {
      RunAdvance(c);
      RunSteps(Advance(c), n - 1);
    }
  }

  lemma {:induction false} RunAdvance(c: Conf)
    ensures Run(Advance(c)) == Run(c)
  {
    hide Step, PhaseOk;
  }

  /** Going on only adds output. */
  lemma {:induction false} RunKeeps(c: Conf)
    ensures c.st.out <= Run(c).st.out
    decreases |c.rest|, StepsLeft(c.st.phase)
  {
    hide Step, PhaseOk;
    if CanStep(c) {
      StepOk(c.st, c.rest);
      StepProgress(c.st, c.rest);
      RunKeeps(Advance(c));
    }
  }

  lemma {:induction false} RunReaches(c: Conf, d: Conf)
    requires Reaches(c, d)
    ensures Run(d) == Run(c)
  {
    hide Run, Steps;
    var n: nat :| Steps(c, n) == d;
    RunSteps(c, n);
  }

  function With(c: Conf, more: seq<bool>): (r: Conf)
  {
    Conf(c.st, c.rest + more)
  }

  lemma {:induction false} AdvanceMore(c: Conf, more: seq<bool>)
    requires CanStep(c) && |more| % 8 == 0
    ensures CanStep(With(c, more)) && Advance(With(c, more)) == With(Advance(c), more)
  {
    hide Step, PhaseOk;
    StepMore(c.st, c.rest, more);
    StepOk(c.st, c.rest);
    var k := Step(c.st, c.rest).used;
    assert (c.rest + more)[k..] == c.rest[k..] + more;
  }

  /** Resumability: running on all the input is running on a first part of it and then on what that left
      over together with the rest. */
  lemma {:induction false} RunSplit(c: Conf, more: seq<bool>)
    requires |more| % 8 == 0
    ensures Run(With(c, more)) == Run(With(Run(c), more))
    decreases |c.rest|, StepsLeft(c.st.phase)
  {
    hide Step, PhaseOk, With;
    if CanStep(c) {
      StepOk(c.st, c.rest);
      StepProgress(c.st, c.rest);
      AdvanceMore(c, more);
      RunAdvance(With(c, more));
      RunAdvance(c);
      RunSplit(Advance(c), more);
    } else {
      RunStuck(c);
    }
  }

  lemma {:induction false} RunStuck(c: Conf)
    requires !CanStep(c)
    ensures Run(c) == c
  {
  }

  /** Reaching a configuration does not depend on what follows in the input. */
  lemma {:induction false} ReachesMore(c: Conf, d: Conf, more: seq<bool>)
    requires Reaches(c, d) && |more| % 8 == 0
    ensures Reaches(With(c, more), With(d, more))
  {
    hide Steps, With;
    var n: nat :| Steps(c, n) == d;
    var k := StepsMore(c, n, more);
    assert Steps(With(c, more), k) == With(d, more);
  }

  lemma {:induction false} StepsMore(c: Conf, n: nat, more: seq<bool>) returns (k: nat)
    requires |more| % 8 == 0
    ensures Steps(With(c, more), k) == With(Steps(c, n), more)
    decreases n
  {
    hide Step, PhaseOk, With;
    if n == 0 {
      k := 0;
    } else if CanStep(c) {
      AdvanceMore(c, more);
      k := StepsMore(Advance(c), n - 1, more);
      k := k + 1;
    } else {
      StepsStuck(c, n);
      k := 0;
    }
  }

  lemma {:induction false} StepsStuck(c: Conf, n: nat)
    requires !CanStep(c)
    ensures Steps(c, n) == c
    decreases n
  {
    hide CanStep;
    if n > 0 { StepsStuck(Advance(c), n - 1); }
  }

  // ------------------------------------------------------------------ the output is what the tokens stand for

  /** The output once the token in work is finished. */
  function Pending(st: State): (r: Option<seq<Byte>>)
  {
    match st.phase
    case Copying(_, _, len, dist) => if 1 <= dist <= |st.out| then Some(CopyMatch(st.out, len, dist)) else None
    case Emitting(_, _, b) => Some(st.out + [b])
    case _ => Some(st.out)
  }

  /** The last token is a match of which no byte has been put out. */
  ghost predicate LastUndone(st: State)
  {
    st.ts != [] && st.ts[|st.ts| - 1].Match? && Expand([], st.ts[..|st.ts| - 1]) == Some(st.out)
  }

  /** The copy cannot go on. */
  predicate Stuck(st: State)
  {
    match st.phase
    case Copying(_, _, len, dist) => dist > |st.out| || dist > st.size || dist == 0 || len == 0
    case _ => false
  }

  /** The output is what the tokens read stand for, the last of them finished; a stream that is refused has put out
      that much, too, except for a last match that is refused itself. */
  ghost predicate TokensMatch(st: State)
  {
    if st.phase.Bad? || st.phase.Wild? then
      Expand([], st.ts) == Some(st.out) || LastUndone(st)
    else
      Expand([], st.ts) == Pending(st) && (Stuck(st) ==> LastUndone(st))
  }

  lemma {:induction false} ExpandAppend(out: seq<Byte>, ts: seq<Token>, t: Token)
    requires Expand(out, ts).Some?
    ensures Expand(out, ts + [t]) == ExpandOne(Expand(out, ts).value, t)
    decreases |ts|
  {
    if ts == [] {
      assert [t][1..] == [] && ts + [t] == [t];
    } else {
      assert (ts + [t])[0] == ts[0] && (ts + [t])[1..] == ts[1..] + [t];
      ExpandAppend(ExpandOne(out, ts[0]).value, ts[1..], t);
    }
  }

  /** A step that reads a token: the output is pending until the token is finished. */
  lemma {:induction false} TokenRead(st: State, o: State, t: Token)
    requires TokensMatch(st) && !Ended(st.phase) && Pending(st) == Some(st.out)
    requires o.ts == st.ts + [t] && Pending(o) == ExpandOne(st.out, t) && !Ended(o.phase)
    requires Stuck(o) ==> t.Match? && o.out == st.out
    ensures TokensMatch(o)
  {
    hide Expand, Pending, ExpandOne, Stuck;
    ExpandAppend([], st.ts, t);
    assert o.ts[..|o.ts| - 1] == st.ts;
  }

  lemma {:induction false} TokensReading(st: State, b: seq<bool>)
    requires (st.phase.Copy? || st.phase.Len? || st.phase.DistExt?) && PhaseOk(st.phase) && TokensMatch(st)
        && Step(st, b).Go?
    ensures TokensMatch(Step(st, b).st)
  {
    hide Pow2, Accepted, Lookup, LBase, LBits, Field, Expand, LastUndone;
    var o := Step(st, b).st;
    if o.ts != st.ts { TokenRead(st, o, o.ts[|st.ts|]); }
  }

  lemma {:induction false} TokensCopying(st: State)
    requires st.phase.Copying? && TokensMatch(st) && Step(st, []).Go?
    ensures TokensMatch(Step(st, []).st)
  {
    hide Expand;
  }

  lemma {:induction false} TokensKept(st: State, b: seq<bool>)
    requires !st.phase.Copy? && !st.phase.Len? && !st.phase.DistExt? && !st.phase.Copying? && PhaseOk(st.phase)
        && Step(st, b).Go?
    ensures var o := Step(st, b).st;
            && o.ts == st.ts && !o.phase.Wild? && !Stuck(o)
            && (if o.phase.Bad? then o.out == st.out && Pending(st) == Some(st.out) else Pending(o) == Pending(st))
            && !st.phase.Bad? && !st.phase.Wild?
  {
    hide Pow2, Accepted, Refused, Lookup, Apply, CodeLengths, LBase, LBits, DBase, DBits, FixedLit, FixedDist, Field;
  }

  /** Every step keeps output and tokens together. */
  lemma {:induction false} StepTokens(st: State, b: seq<bool>)
    requires PhaseOk(st.phase) && TokensMatch(st) && Step(st, b).Go?
    ensures TokensMatch(Step(st, b).st)
  {
    if st.phase.Copying? {
      TokensCopying(st);
    } else if st.phase.Copy? || st.phase.Len? || st.phase.DistExt? {
      TokensReading(st, b);
    } else {
      hide Step, PhaseOk, Expand, Pending, LastUndone, Stuck;
      TokensKept(st, b);
    }
  }

  /** The tokens a run has read account for all of its output, however it ends. */
  lemma {:induction false} RunTokens(c: Conf)
    requires TokensMatch(c.st)
    ensures TokensMatch(Run(c).st)
    decreases |c.rest|, StepsLeft(c.st.phase)
  {
    hide Step, PhaseOk, TokensMatch;
    if CanStep(c) {
      StepOk(c.st, c.rest);
      StepProgress(c.st, c.rest);
      StepTokens(c.st, c.rest);
      RunTokens(Advance(c));
    }
  }
}
