/** What the decoder does with a table entry: the cases inflate.c and inffast.c tell apart by the op field. */
module InflateSteps {
  import opened Bits
  import opened Canonical
  import opened InflateTable
  import opened StaticTables
  import opened BitWriter
  import opened Rfc1951
  import opened Decoder
  import opened CodeReader

  ghost predicate InTrees(p: Phase)
  {
    p.Len? || p.LenExt? || p.Dist? || p.DistExt? || p.Copying? || p.Emitting?
  }

  /** Where an entry of the literal and length table leads. */
  function LenState(st: State, here: Entry): (r: State)
    requires st.phase.Len? && (here.op == 0 ==> here.val < 256)
  {
    var p := st.phase;
    if here.op == 0 then st.(phase := Emitting(p.ll, p.dl, here.val), ts := st.ts + [Literal(here.val)])
    else if here.op / 32 % 2 == 1 then st.(phase := Type)
    else if here.op / 64 % 2 == 1 then st.(phase := Bad)
    else st.(phase := LenExt(p.ll, p.dl, here.val, here.op % 16))
  }

  lemma {:induction false} LenStep(st: State, b: seq<bool>, here: Entry)
    requires st.phase.Len? && EntryIs(LENS, Lookup(st.phase.ll, b), here)
    ensures here.op == 0 ==> here.val < 256
    ensures UsedBits(Lookup(st.phase.ll, b)) > 0
        && Step(st, b) == Go(LenState(st, here), UsedBits(Lookup(st.phase.ll, b)))
    ensures here.op != 0 ==> (here.op / 16 % 2 == 1 <==> here.op / 32 % 2 == 0 && here.op / 64 % 2 == 0)
  {
    hide Lookup, LBase, LBits;
    LookupFits(st.phase.ll, b);
    match Lookup(st.phase.ll, b)
    case Sym(s, n) =>
      if s > 256 { if s <= 285 { LenEntry(s - 257); } else { assert here.op == 72 || here.op == 78; } }
    case NoCode =>
    case More =>
  }

  lemma {:induction false} LenEntry(c: nat)
    requires c <= 28
    ensures LEXT[c] == 16 + LBits(c) && LBASE[c] == LBase(c)
    ensures LEXT[c] / 16 % 2 == 1 && LEXT[c] / 32 % 2 == 0 && LEXT[c] / 64 % 2 == 0 && LEXT[c] % 16 == LBits(c)
  {
    LengthExtraIs(c);
  }

  lemma {:induction false} LenWaits(st: State, b: seq<bool>)
    requires st.phase.Len? && Lookup(st.phase.ll, b) == More
    ensures Step(st, b) == Wait
  {
  }

  /** Where an entry of the distance table leads. */
  function DistState(st: State, here: Entry): (r: State)
    requires st.phase.Dist?
  {
    var p := st.phase;
    if here.op / 64 % 2 == 1 then st.(phase := Bad)
      else st.(phase := DistExt(p.ll, p.dl, p.len, here.val, here.op % 16))
  }

  lemma {:induction false} DistStep(st: State, b: seq<bool>, here: Entry)
    requires st.phase.Dist? && EntryIs(DISTS, Lookup(st.phase.dl, b), here)
    ensures Step(st, b) == Go(DistState(st, here), UsedBits(Lookup(st.phase.dl, b)))
        && UsedBits(Lookup(st.phase.dl, b)) > 0
    ensures here.op / 16 % 2 == 1 <==> here.op / 64 % 2 == 0
  {
    hide Lookup, DBase, DBits;
    LookupFits(st.phase.dl, b);
    if Lookup(st.phase.dl, b).Sym? && Lookup(st.phase.dl, b).s <= 29 { DistEntry(Lookup(st.phase.dl, b).s); }
  }

  lemma {:induction false} DistEntry(c: nat)
    requires c <= 29
    ensures DEXT[c] == 16 + DBits(c) && DBASE[c] == DBase(c)
    ensures DEXT[c] / 16 % 2 == 1 && DEXT[c] / 64 % 2 == 0 && DEXT[c] % 16 == DBits(c)
  {
    DistExtraIs(c);
  }

  lemma {:induction false} DistWaits(st: State, b: seq<bool>)
    requires st.phase.Dist? && Lookup(st.phase.dl, b) == More
    ensures Step(st, b) == Wait
  {
  }

  /** The extra bits of a length. */
  function LengthState(st: State, v: nat): (r: State)
    requires st.phase.LenExt?
  {
    var p := st.phase;
    st.(phase := Dist(p.ll, p.dl, p.len + v))
  }

  /** The extra bits of a distance. */
  function DistanceState(st: State, v: nat): (r: State)
    requires st.phase.DistExt?
  {
    var p := st.phase;
    st.(phase := Copying(p.ll, p.dl, p.len, p.dist + v), ts := st.ts + [Match(p.len, p.dist + v)])
  }

  lemma {:induction false} ExtraStep(st: State, b: seq<bool>)
    requires st.phase.LenExt? || st.phase.DistExt?
    ensures |b| < st.phase.extra ==> Step(st, b) == Wait
    ensures |b| >= st.phase.extra && st.phase.LenExt? ==>
        Step(st, b) == Go(LengthState(st, Field(b, 0, st.phase.extra)), st.phase.extra)
    ensures |b| >= st.phase.extra && st.phase.DistExt? ==>
        Step(st, b) == Go(DistanceState(st, Field(b, 0, st.phase.extra)), st.phase.extra)
  {
    hide Field;
  }

  /** One byte of a match. */
  function CopyState(st: State, x: Byte): (r: State)
    requires st.phase.Copying? && st.phase.len > 0
  {
    var p := st.phase;
    st.(phase := if p.len == 1 then Len(p.ll, p.dl) else Copying(p.ll, p.dl, p.len - 1, p.dist), out := st.out + [x])
  }

  lemma {:induction false} FieldOfNone(b: seq<bool>)
    ensures Field(b, 0, 0) == 0
  {
    assert b[0..0] == [];
  }

  lemma {:induction false} TreesAccepted(p: Phase)
    requires PhaseOk(p)
    ensures p.Len? ==> Accepted(LENS, p.ll)
    ensures p.Dist? ==> Accepted(DISTS, p.dl)
  {
  }

  lemma {:induction false} PhaseBounds(p: Phase)
    requires PhaseOk(p)
    ensures p.Copying? ==> 1 <= p.len <= 258 && 1 <= p.dist <= 32768
    ensures p.LenExt? ==> p.extra <= 5
    ensures p.DistExt? ==> p.extra <= 13
  {
  }

  function EmitState(st: State): (r: State)
    requires st.phase.Emitting?
  {
    st.(phase := Len(st.phase.ll, st.phase.dl), out := st.out + [st.phase.b])
  }

  lemma {:induction false} EmitStep(st: State, b: seq<bool>)
    requires st.phase.Emitting?
    ensures Step(st, b) == Go(EmitState(st), 0) && b[0..] == b
  {
  }

  /** One stored byte. */
  function StoredState(st: State, x: Byte): (r: State)
    requires st.phase.Copy? && st.phase.n > 0
  {
    st.(phase := Copy(st.phase.n - 1), out := st.out + [x], ts := st.ts + [Literal(x)])
  }

  lemma {:induction false} StoredStep(st: State, b: seq<bool>, x: Byte)
    requires st.phase.Copy? && st.phase.n > 0 && |b| >= 8 && x == Field(b, 0, 8)
    ensures Step(st, b) == Go(StoredState(st, x), 8)
  {
    hide Field;
  }

  lemma {:induction false} StoredWaits(st: State, b: seq<bool>)
    requires st.phase.Copy? && st.phase.n > 0
    ensures |b| < 8 ==> Step(st, b) == Wait
    ensures NeedsRoom(st.phase) && !Ended(st.phase)
  {
    hide Field;
  }

  lemma {:induction false} StoredEnd(st: State, b: seq<bool>)
    requires st.phase == Copy(0)
    ensures Step(st, b) == Go(st.(phase := Type), 0) && b[0..] == b
  {
    hide Field;
  }
}
