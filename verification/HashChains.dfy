/** The hash chains of deflate.c: head and prev hold window positions, prev indexed modulo the window size, so that
    links are overwritten and positions move when the window slides. */
module HashChains {
  import opened Bits
  import opened BitWriter
  import opened HashKey

  /** The chains over the input read so far: base is where the window starts in it, ins the positions inserted,
      all of them below top. */
  datatype Chains = Chains(h: Hashing, w: nat, head: seq<nat>, prev: seq<nat>, all: seq<Byte>, base: nat,
    ins: set<nat>, top: nat)

  function KeyAt(h: Hashing, all: seq<Byte>, p: nat): (k: nat)
    requires p + 2 < |all|
    ensures k < Pow2(h.bits)
  {
    Key(h, all[p], all[p + 1], all[p + 2])
  }

  /** Positions hold three bytes, and top is just behind the last one. */
  ghost predicate InsOk(c: Chains)
  {
    (forall p: nat :: p in c.ins ==> p + 2 < |c.all| && p < c.top) && (c.top > 0 ==> c.top - 1 in c.ins)
  }

  /** The positions from a on and before b. */
  function Range(a: int, b: int): (r: set<nat>)
    decreases b
  {
    if b <= a || b <= 0 then {} else Range(a, b - 1) + {(b - 1) as nat}
  }

  lemma {:induction false} RangeIs(a: int, b: int, q: nat)
    ensures q in Range(a, b) <==> a <= q < b
    decreases b
  {
    if b > a && b > 0 { RangeIs(a, b - 1, q); }
  }

  /** The positions from a on and before b have come to those in was. */
  ghost predicate Grown(was: set<nat>, ins: set<nat>, a: int, b: int)
  {
    ins == was + Range(a, b)
  }

  lemma {:induction false} GrownJoin(was: set<nat>, ins: set<nat>, now: set<nat>, a: int, b: int, c: int)
    requires a <= b <= c && Grown(was, ins, a, b) && Grown(ins, now, b, c)
    ensures Grown(was, now, a, c)
  {
    hide Range;
    forall q: nat ensures q in Range(a, b) + Range(b, c) <==> q in Range(a, c) {
      RangeIs(a, b, q);
      RangeIs(b, c, q);
      RangeIs(a, c, q);
    }
  }

  lemma {:induction false} GrownNext(was: set<nat>, ins: set<nat>, a: int, b: nat)
    requires a <= b && Grown(was, ins, a, b)
    ensures Grown(was, ins + {b}, a, b + 1)
  {
  }

  lemma {:induction false} GrownNone(ins: set<nat>, a: int, b: int)
    requires b <= a
    ensures Grown(ins, ins, a, b) && Grown(ins, ins + {}, a, b)
  {
  }

  /** Position p is inserted, and its string has key k. */
  ghost predicate Keyed(h: Hashing, all: seq<Byte>, ins: set<nat>, p: nat, k: nat)
  {
    p in ins && p + 2 < |all| && KeyAt(h, all, p) == k
  }

  /** No position with key k is inserted behind m and before p. */
  ghost predicate NoneBetween(h: Hashing, all: seq<Byte>, ins: set<nat>, k: nat, m: nat, p: nat)
  {
    forall q: nat :: q < p && Keyed(h, all, ins, q, k) ==> q <= m
  }

  /** The head of chain k is the last position with that key, or empty if there is none behind the first byte of the
      window. */
  ghost predicate HeadOk(c: Chains, k: nat)
    requires k < |c.head|
  {
    && (c.head[k] == 0 || Keyed(c.h, c.all, c.ins, c.base + c.head[k], k))
    && NoneBetween(c.h, c.all, c.ins, k, c.base + c.head[k], c.top)
  }

  function Slot(p: nat, w: nat): (i: nat)
    requires w > 0
    ensures i < w
  {
    DivModIdentity(p, w);
    p % w
  }

  /** The link at position p is the last position before it with the same key, or empty if there is none behind the
      first byte of the window. */
  ghost predicate LinkOk(c: Chains, p: nat)
    requires c.w > 0 && |c.prev| == c.w && p + 2 < |c.all|
  {
    var m, k := c.prev[Slot(p, c.w)], KeyAt(c.h, c.all, p);
    && (m == 0 || (c.base + m < p && Keyed(c.h, c.all, c.ins, c.base + m, k)))
    && NoneBetween(c.h, c.all, c.ins, k, c.base + m, p)
  }

  /** Links are right as long as their slot has not been used again. */
  ghost predicate ChainsOk(c: Chains)
  {
    && c.w > 0 && |c.prev| == c.w && |c.head| == Pow2(c.h.bits) && Slot(c.base, c.w) == 0 && InsOk(c)
    && (forall k: nat :: k < |c.head| ==> HeadOk(c, k))
    && (forall p: nat :: p in c.ins && p + c.w >= c.top ==> LinkOk(c, p))
  }

  lemma {:induction false} SlotsApart(p: nat, q: nat, w: nat)
    requires w > 0 && p < q < p + w
    ensures Slot(p, w) != Slot(q, w)
  {
    DivModIdentity(p, w);
    DivModIdentity(q, w);
    if Slot(p, w) == Slot(q, w) {
      var d := q / w - p / w;
      Distribute(q / w, p / w, w);
      if d >= 1 { MulAtLeast(d, w); }
      if d <= -1 { MulAtLeast(-d, w); Distribute(p / w, q / w, w); }
    }
  }

  /** A window position and the position it stands for have the same slot. */
  lemma {:induction false} SlotShift(base: nat, i: nat, w: nat)
    requires w > 0 && Slot(base, w) == 0
    ensures Slot(base + i, w) == Slot(i, w)
  {
    DivModIdentity(base, w);
    DivModIdentity(i, w);
    Distribute(base / w, i / w, w);
    DivMod(base / w + i / w, w, i % w);
  }

  /** No position has been inserted. */
  lemma {:induction false} NoChains(c: Chains)
    requires c.w > 0 && |c.prev| == c.w && |c.head| == Pow2(c.h.bits) && c.base == 0 && c.ins == {} && c.top == 0
    requires forall k :: 0 <= k < |c.head| ==> c.head[k] == 0
    ensures ChainsOk(c)
  {
    DivMod(0, c.w, 0);
  }

  function Inserted(c: Chains, i: nat, key: nat): (r: Chains)
    requires c.w > 0 && |c.prev| == c.w && key < |c.head|
  {
    c.(head := c.head[key := i], prev := c.prev[Slot(i, c.w) := c.head[key]], ins := c.ins + {c.base + i},
      top := c.base + i + 1)
  }

  /** One more position, with another key or not before p, comes not between. */
  lemma {:induction false} NoneWith(c: Chains, q: nat, k: nat, m: nat, m': nat, p: nat, p': nat)
    requires NoneBetween(c.h, c.all, c.ins, k, m, p) && m <= m' && InsOk(c) && (p' <= p || c.top <= p)
    requires q <= m' || p' <= q || !Keyed(c.h, c.all, {q}, q, k)
    ensures NoneBetween(c.h, c.all, c.ins + {q}, k, m', p')
  {
    hide KeyAt;
    forall x: nat | x < p' && Keyed(c.h, c.all, c.ins + {q}, x, k) ensures x <= m' {
      if x != q {
        assert Keyed(c.h, c.all, c.ins, x, k);
      } else {
        assert Keyed(c.h, c.all, {q}, q, k);
      }
    }
  }

  lemma {:induction false} InsertHead(c: Chains, i: nat, key: nat, k: nat)
    requires InsOk(c) && c.base + i >= c.top && c.base + i + 2 < |c.all| && key == KeyAt(c.h, c.all, c.base + i)
    requires c.w > 0 && |c.prev| == c.w && key < |c.head| && k < |c.head| && HeadOk(c, k)
    ensures HeadOk(Inserted(c, i, key), k)
  {
    hide KeyAt, Slot, NoneBetween;
    var d, q := Inserted(c, i, key), c.base + i;
    NoneWith(c, q, k, c.base + c.head[k], d.base + d.head[k], c.top, d.top);
  }

  lemma {:induction false} InsertLink(c: Chains, i: nat, key: nat, p: nat)
    requires InsOk(c) && c.base + i >= c.top && c.base + i + 2 < |c.all| && key == KeyAt(c.h, c.all, c.base + i)
    requires c.w > 0 && |c.prev| == c.w && key < |c.head| && Slot(c.base, c.w) == 0
    requires if p == c.base + i then HeadOk(c, key)
        else p in c.ins && p + c.w > c.base + i && p + 2 < |c.all| && LinkOk(c, p)
    ensures p + 2 < |c.all| && LinkOk(Inserted(c, i, key), p)
  {
    hide KeyAt, Slot, NoneBetween;
    var d, q := Inserted(c, i, key), c.base + i;
    SlotShift(c.base, i, c.w);
    if p == q {
      NoneWith(c, q, key, c.base + c.head[key], c.base + c.head[key], c.top, q);
    } else {
      SlotsApart(p, q, c.w);
      NoneWith(c, q, KeyAt(c.h, c.all, p), c.base + c.prev[Slot(p, c.w)], c.base + c.prev[Slot(p, c.w)], p, p);
    }
  }

  /** INSERT_STRING keeps the chains; the old head of the chain is the last earlier position with the same key. */
  lemma {:induction false} InsertOk(c: Chains, i: nat, key: nat)
    requires ChainsOk(c) && c.base + i >= c.top && c.base + i + 2 < |c.all| && key == KeyAt(c.h, c.all, c.base + i)
    ensures ChainsOk(Inserted(c, i, key)) && HeadOk(c, key)
  {
    hide KeyAt, Slot, HeadOk, LinkOk;
    var d := Inserted(c, i, key);
    assert HeadOk(c, key);
    forall k: nat | k < |d.head| ensures HeadOk(d, k) {
      assert HeadOk(c, k);
      InsertHead(c, i, key, k);
    }
    forall p: nat | p in d.ins && p + d.w >= d.top ensures LinkOk(d, p) { InsertLink(c, i, key, p); }
  }

  /** How sliding the window moves a stored position. */
  function Slid(w: nat, m: nat): (r: nat)
  {
    if m >= w then m - w else 0
  }

  predicate AllSlid(w: nat, s: seq<nat>, t: seq<nat>)
  {
    |s| == |t| && forall i :: 0 <= i < |s| ==> t[i] == Slid(w, s[i])
  }

  lemma {:induction false} SlideOk(c: Chains, d: Chains)
    requires ChainsOk(c) && AllSlid(c.w, c.head, d.head) && AllSlid(c.w, c.prev, d.prev)
    requires d == c.(head := d.head, prev := d.prev, base := c.base + c.w)
    ensures ChainsOk(d)
  {
    hide KeyAt, Slot;
    SlotShift(c.base, c.w, c.w);
    SlotSelf(c.w);
    forall k: nat | k < |d.head| ensures HeadOk(d, k) { assert HeadOk(c, k); }
    forall p: nat | p in d.ins && p + d.w >= d.top ensures LinkOk(d, p) { assert LinkOk(c, p); }
  }

  lemma {:induction false} SlotSelf(w: nat)
    requires w > 0
    ensures Slot(w, w) == 0
  {
    DivModOf(w, 1, w, 0);
  }

  lemma {:induction false} NoneGrown(c: Chains, more: seq<Byte>, k: nat, m: nat, p: nat)
    requires NoneBetween(c.h, c.all, c.ins, k, m, p) && InsOk(c)
    ensures NoneBetween(c.h, c.all + more, c.ins, k, m, p)
  {
    hide Key;
    forall x: nat | x < p && Keyed(c.h, c.all + more, c.ins, x, k) ensures x <= m {
      assert Keyed(c.h, c.all, c.ins, x, k);
    }
  }

  /** More input changes no key. */
  lemma {:induction false} GrowOk(c: Chains, more: seq<Byte>)
    requires ChainsOk(c)
    ensures ChainsOk(c.(all := c.all + more))
  {
    hide Slot, Key, NoneBetween;
    var d := c.(all := c.all + more);
    forall k: nat | k < |d.head| ensures HeadOk(d, k) {
      assert HeadOk(c, k);
      NoneGrown(c, more, k, c.base + c.head[k], c.top);
    }
    forall p: nat | p in d.ins && p + d.w >= d.top ensures LinkOk(d, p) {
      assert LinkOk(c, p);
      NoneGrown(c, more, KeyAt(c.h, c.all, p), c.base + c.prev[Slot(p, c.w)], p);
    }
  }

  /** Following a link from a position of the window that is near enough. */
  lemma {:induction false} FollowLink(c: Chains, i: nat)
    requires ChainsOk(c) && c.base + i in c.ins && c.base + i + c.w >= c.top
    ensures Slot(i, c.w) < |c.prev| && c.base + i + 2 < |c.all|
    ensures var m, k := c.prev[Slot(i, c.w)], KeyAt(c.h, c.all, c.base + i);
            (m == 0 || (m < i && Keyed(c.h, c.all, c.ins, c.base + m, k)))
              && NoneBetween(c.h, c.all, c.ins, k, c.base + m, c.base + i)
  {
    hide KeyAt, Slot;
    SlotShift(c.base, i, c.w);
    assert LinkOk(c, c.base + i);
  }
}
