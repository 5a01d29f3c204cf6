/** The sliding window of deflate.c with its hash chains: INSERT_STRING and fill_window. */
module History {
  import opened Bits
  import opened BitWriter
  import opened HashKey
  import opened HashChains

  const MIN_MATCH: nat := 3
  const MAX_MATCH: nat := 258
  const MIN_LOOKAHEAD: nat := MAX_MATCH + MIN_MATCH + 1
  const WIN_INIT: nat := MAX_MATCH
  /** Positions are unsigned numbers of 32 bits. */
  const WRAP: nat := 0x1_0000_0000

  /** How many of the strings before a position wait on when there are lookahead bytes from it on. */
  function Waiting(insert: nat, lookahead: nat): (r: nat)
    ensures r <= insert
  {
    if insert + lookahead < 3 then insert else if lookahead >= 2 then 0 else 2 - lookahead
  }

  /** The difference of two unsigned numbers. */
  function Minus(a: nat, b: nat): (r: nat)
  {
    (a - b) % WRAP
  }

  class Past {
    const h: Hashing
    const wSize: nat
    const window: array<Byte>
    const prev: array<nat>
    const head: array<nat>

    /** The input of this call that has not been read. */
    var input: seq<Byte>
    var strstart: nat
    var lookahead: nat
    /** Strings before strstart that wait for more bytes to be inserted. */
    var insert: nat
    var insH: nat
    var highWater: nat
    var matchStart: nat
    /** Negative when the block has begun before the window. */
    var blockStart: int

    /** All input read so far; the window starts at base in it and holds the filled bytes behind. */
    ghost var all: seq<Byte>
    ghost var base: nat
    ghost var filled: nat
    /** The positions inserted in the hash table, all below top. */
    ghost var ins: set<nat>
    ghost var top: nat

    function MaxDist(): (r: int)
    {
      wSize - MIN_LOOKAHEAD
    }

    ghost predicate Shape()
    {
      && HashingOk(h) && 512 <= wSize <= 32768 && window.Length == 2 * wSize && prev.Length == wSize
        && head.Length == Pow2(h.bits)
      && prev != head
    }

    ghost function Chained(): (r: Chains)
      reads this, prev, head
    {
      Chains(h, wSize, head[..], prev[..], all, base, ins, top)
    }

    /** The window holds the end of what was read. */
    ghost predicate Data()
      reads this`filled, this`all, this`base, window
    {
      filled <= window.Length && |all| == base + filled && window[..filled] == all[base..]
    }

    ghost predicate Core()
      reads this, window, prev, head
    {
      Shape() && Data() && ChainsOk(Chained()) && insert <= strstart && (base > 0 ==> strstart >= MaxDist())
    }

    /** The hash is up to date for inserting position i. */
    ghost predicate PrimedAt(i: nat)
      reads this`insH, window
    {
      i + 1 < window.Length && Primed(h, insH, window[i], window[i + 1])
    }

    /** Between two positions: no string from strstart on is inserted, nor those that wait for more input. */
    ghost predicate Between()
      reads this, window, prev, head
    {
      && Core() && filled == strstart + lookahead && top + insert <= base + strstart
      && (insert > 0 ==> lookahead + insert < MIN_MATCH)
    }

    ghost predicate Hashed()
      reads this, window
    {
      lookahead >= MIN_MATCH ==> PrimedAt(strstart)
    }

    /** Between two positions, and the string at strstart can be inserted next. */
    ghost predicate Valid()
      reads this, window, prev, head
    {
      Between() && Hashed()
    }

    constructor (h: Hashing, wBits: nat)
      requires HashingOk(h) && 9 <= wBits <= 15
      ensures Valid() && all == [] && input == [] && strstart == 0 && lookahead == 0 && base == 0 && blockStart == 0
          && matchStart == 0
      ensures fresh(window) && fresh(prev) && fresh(head) && this.h == h && wSize == Pow2(wBits)
      ensures ins == {} && insert == 0
    {
      hide ChainsOk;
      Pow2Values();
      this.h, wSize := h, Pow2(wBits);
      window, prev, head := new Byte[2 * Pow2(wBits)], new nat[Pow2(wBits)], new nat[Pow2(h.bits)](_ => 0);
      input, strstart, lookahead, insert, insH, highWater, matchStart, blockStart := [], 0, 0, 0, 0, 0, 0, 0;
      all, base, filled, ins, top := [], 0, 0, {}, 0;
      new;
      WindowSizes(wBits);
      NoChains(Chained());
    }

    /** INSERT_STRING: the old head of the hash chain of the string at str. */
    method InsertString(str: nat) returns (hashHead: nat)
      requires Core() && top <= base + str && str + 2 < filled && PrimedAt(str)
      modifies this`insH, this`ins, this`top, prev, head
      ensures Core() && ins == old(ins) + {base + str} && top == base + str + 1 && PrimedAt(str + 1)
      ensures base + str + 2 < |all|
      ensures hashHead != 0 ==> base + hashHead in old(ins) && hashHead < str && hashHead + 2 < filled
                                && KeyAt(h, all, base + hashHead) == KeyAt(h, all, base + str)
      ensures NoneBetween(h, all, ins, KeyAt(h, all, base + str), base + hashHead, base + str)
    {
      hide ChainsOk, Update, Primed, Pow2, NoneBetween, KeyAt, Slot;
      ghost var c := Chained();
      InWindow(str);
      KeyPrimed(h, insH, window[str], window[str + 1], window[str + 2]);
      insH := Update(h, insH, window[str + 2]);
      HeadIs(c, insH, str);
      KeyRolls(h, window[str], window[str + 1], window[str + 2]);
      hashHead := head[insH];
      prev[Slot(str, wSize)] := hashHead;
      head[insH] := str;
      ins, top := ins + {base + str}, base + str + 1;
      assert prev[..] == c.prev[Slot(str, wSize) := hashHead] && head[..] == c.head[insH := str];
      assert Chained() == Inserted(c, str, insH);
    }

    lemma {:induction false} InWindow(i: nat)
      requires Data() && i + 2 < filled
      ensures base + i + 2 < |all| && KeyAt(h, all, base + i) == Key(h, window[i], window[i + 1], window[i + 2])
    {
      hide Key;
      ByteIn(i);
      ByteIn(i + 1);
      ByteIn(i + 2);
    }

    lemma {:induction false} ByteIn(i: nat)
      requires Data() && i < filled
      ensures base + i < |all| && i < window.Length && window[i] == all[base + i]
    {
      assert window[..filled][i] == all[base..][i];
    }

    /** At a position whose string has been inserted, if it has three bytes. */
    ghost predicate Entered()
      reads this, window, prev, head
    {
      && Core() && filled == strstart + lookahead && top + insert <= base + strstart + 1
      && (insert > 0 ==> lookahead + insert < MIN_MATCH)
      && (if lookahead >= MIN_MATCH then top == base + strstart + 1 && PrimedAt(strstart + 1)
        else top + insert <= base + strstart)
    }

    /** A position before strstart whose string has the key of the string at strstart. */
    ghost predicate Candidate(m: nat)
      reads this`strstart, this`base, this`ins, this`all
    {
      m < strstart && base + m in ins && base + m + 2 < |all| && base + strstart + 2 < |all|
        && KeyAt(h, all, base + m) == KeyAt(h, all, base + strstart)
    }

    /** Inserts the string at strstart, if there is enough input. */
    method Enter() returns (hashHead: nat)
      requires Valid()
      modifies this`insH, this`ins, this`top, prev, head
      ensures Entered() && if lookahead >= MIN_MATCH then ins == old(ins) + {base + strstart} else ins == old(ins)
      ensures hashHead != 0 ==> lookahead >= MIN_MATCH && hashHead < strstart && Candidate(hashHead)
      ensures lookahead < MIN_MATCH || (base + strstart + 2 < |all|
          && NoneBetween(h, all, ins, KeyAt(h, all, base + strstart), base + hashHead, base + strstart))
    {
      hide ChainsOk, Primed, KeyAt, NoneBetween;
      hashHead := 0;
      if lookahead >= MIN_MATCH { hashHead := InsertString(strstart); }
    }

    /** Goes one byte on. */
    method Advance()
      requires Entered() && lookahead > 0
      modifies this`strstart, this`lookahead
      ensures Valid() && strstart == old(strstart) + 1 && lookahead == old(lookahead) - 1
    {
      hide ChainsOk, Primed;
      strstart := strstart + 1;
      lookahead := lookahead - 1;
    }

    /** Goes to the next string and inserts it. */
    method InsertOne()
      requires Core() && insert == 0 && top == base + strstart + 1 && strstart + 3 < filled && PrimedAt(strstart + 1)
      modifies this`strstart, this`insH, this`ins, this`top, prev, head
      ensures Core() && strstart == old(strstart) + 1 && top == base + strstart + 1 && PrimedAt(strstart + 1)
      ensures ins == old(ins) + {base + strstart}
    {
      hide ChainsOk, Primed, NoneBetween, KeyAt;
      strstart := strstart + 1;
      var hashHead := InsertString(strstart);
    }

    /** Inserts the strings of the rest of a match, the first of them being in already; the lookahead has been
        reduced before. */
    method InsertMatch(length: nat)
      requires Core() && insert == 0 && top == base + strstart + 1 && PrimedAt(strstart + 1)
      requires length >= 2 && lookahead >= MIN_MATCH && filled == strstart + length + lookahead
      modifies this`strstart, this`insH, this`ins, this`top, prev, head
      ensures Valid() && strstart == old(strstart) + length
      ensures Grown(old(ins), ins, base + old(strstart) + 1, base + strstart)
    {
      hide ChainsOk, Primed, Grown, Data, Shape;
      var matchLength := length - 1;
      GrownNone(ins, base + strstart + 1, base + strstart + 1);
      while true
        invariant Core() && 1 <= matchLength && top == base + strstart + 1 && PrimedAt(strstart + 1)
        invariant strstart + matchLength + 1 == old(strstart) + length
        invariant Grown(old(ins), ins, base + old(strstart) + 1, base + strstart + 1)
        decreases matchLength
      {
        GrownNext(old(ins), ins, base + old(strstart) + 1, base + strstart + 1);
        InsertOne();
        matchLength := matchLength - 1;
        if matchLength == 0 { break; }
      }
      strstart := strstart + 1;
    }

    /** Goes over a match without inserting, and starts the hash again behind it. */
    method SkipMatch(length: nat)
      requires Core() && insert == 0 && top <= base + strstart + 1 && length >= 1
      requires filled == strstart + length + lookahead && strstart + length + 1 < window.Length
      modifies this`strstart, this`insH
      ensures Valid() && strstart == old(strstart) + length
    {
      hide ChainsOk, Primed, Update;
      strstart := strstart + length;
      PrimedStart(h, window[strstart], window[strstart + 1]);
      insH := Update(h, window[strstart], window[strstart + 1]);
    }

    /** The strings up to strstart are inserted, but none behind maxInsert. */
    ghost predicate InsertedTo(maxInsert: nat)
      reads this, window
    {
      if strstart <= maxInsert then insert == 0 && top == base + strstart + 1 && PrimedAt(strstart + 1)
        else top + insert <= base + strstart
    }

    /** Goes to the next string and inserts it, unless it is behind maxInsert. */
    method InsertNext(maxInsert: nat)
      requires Core() && maxInsert + MIN_MATCH == filled && InsertedTo(maxInsert)
      modifies this`strstart, this`insH, this`ins, this`top, prev, head
      ensures Core() && InsertedTo(maxInsert) && strstart == old(strstart) + 1
      ensures if strstart <= maxInsert then ins == old(ins) + {base + strstart} else ins == old(ins)
    {
      hide ChainsOk, Primed, NoneBetween, KeyAt;
      strstart := strstart + 1;
      if strstart <= maxInsert { var hashHead := InsertString(strstart); }
    }

    /** Inserts the strings up to the end of a match that started one byte before, none beyond maxInsert. */
    method InsertRest(length: nat, maxInsert: nat)
      requires Core() && length >= 3 && filled == strstart + length - 1 + lookahead && maxInsert + MIN_MATCH == filled
      requires insert > 0 ==> lookahead + insert < MIN_MATCH
      requires InsertedTo(maxInsert)
      modifies this`strstart, this`insH, this`ins, this`top, prev, head
      ensures Valid() && strstart == old(strstart) + length - 1
      ensures Grown(old(ins), ins, base + old(strstart) + 1,
          base + if strstart <= maxInsert + 1 then strstart else maxInsert + 1)
    {
      hide ChainsOk, Primed, Grown, Data, Shape, PrimedAt;
      var prevLength := length - 2;
      GrownNone(ins, base + strstart + 1, base + if strstart <= maxInsert then strstart + 1 else maxInsert + 1);
      while true
        invariant Core() && 1 <= prevLength && strstart + prevLength + 2 == old(strstart) + length
        invariant InsertedTo(maxInsert)
        invariant Grown(old(ins), ins, base + old(strstart) + 1,
            base + if strstart <= maxInsert then strstart + 1 else maxInsert + 1)
        decreases prevLength
      {
        if strstart < maxInsert { GrownNext(old(ins), ins, base + old(strstart) + 1, base + strstart + 1); }
        InsertNext(maxInsert);
        prevLength := prevLength - 1;
        if prevLength == 0 { break; }
      }
      strstart := strstart + 1;
    }

    /** The match of the given length at strstart is taken: its strings are inserted if it is no longer than maxInsert
        and there is input behind it. */
    method TakeMatch(length: nat, maxInsert: nat)
      requires Entered() && MIN_MATCH <= length <= MAX_MATCH && length <= lookahead
          && strstart <= window.Length - MIN_LOOKAHEAD
      modifies this`strstart, this`lookahead, this`insH, this`ins, this`top, prev, head
      ensures Valid() && lookahead == old(lookahead) - length && strstart == old(strstart) + length
      ensures if length <= maxInsert && lookahead >= MIN_MATCH
          then Grown(old(ins), ins, base + old(strstart) + 1, base + strstart) else ins == old(ins)
    {
      hide ChainsOk, Primed, Grown;
      lookahead := lookahead - length;
      if length <= maxInsert && lookahead >= MIN_MATCH { InsertMatch(length); } else { SkipMatch(length); }
    }

    /** The match of the given length one byte before strstart is taken, and its strings are inserted. */
    method TakeHeld(length: nat)
      requires Entered() && length >= MIN_MATCH && length - 1 <= lookahead && strstart > 0
      modifies this`strstart, this`lookahead, this`insH, this`ins, this`top, prev, head
      ensures Valid() && lookahead == old(lookahead) - (length - 1) && strstart == old(strstart) + length - 1
      ensures Grown(old(ins), ins, base + old(strstart) + 1,
          if base + strstart <= |all| - 2 then base + strstart else |all| - 2)
    {
      hide ChainsOk, Primed, Grown;
      var maxInsert := strstart + lookahead - MIN_MATCH;
      lookahead := lookahead - (length - 1);
      InsertRest(length, maxInsert);
    }

    /** What the window holds around strstart. */
    lemma {:induction false} AtEntered()
      requires Entered() || Between()
      ensures Core() && Shape() && strstart + lookahead == filled <= window.Length
          && |all| == base + strstart + lookahead && (base > 0 ==> strstart >= 2)
      ensures lookahead > 0 ==> window[strstart] == all[base + strstart]
      ensures strstart > 0 ==> window[strstart - 1] == all[base + strstart - 1]
    {
      hide ChainsOk, Primed;
      if lookahead > 0 { ByteIn(strstart); }
      if strstart > 0 { ByteIn(strstart - 1); }
    }

    /** The upper half of the window becomes the lower half. */
    method MoveDown()
      requires Shape() && Data() && filled >= wSize
      modifies window
      ensures window[..filled - wSize] == all[base + wSize..]
      ensures forall i :: 0 <= i < wSize ==> window[i] == old(window[wSize + i])
    {
      ghost var was := window[..];
      forall i | 0 <= i < wSize { window[i] := window[wSize + i]; }
      assert window[..filled - wSize] == was[..filled][wSize..];
      assert all[base..][wSize..] == all[base + wSize..];
    }

    method SlideTables()
      requires Shape()
      modifies prev, head
      ensures AllSlid(wSize, old(head[..]), head[..]) && AllSlid(wSize, old(prev[..]), prev[..])
    {
      hide AllSlid;
      SlideHash(head, wSize);
      SlideHash(prev, wSize);
    }

    /** Moves the upper half of the window to the lower half. */
    method SlideBytes()
      requires Shape() && Data() && filled == strstart + lookahead && strstart >= wSize + MaxDist()
      modifies this`strstart, this`matchStart, this`blockStart, this`base, this`filled, window
      ensures Data() && base == old(base) + wSize && filled == strstart + lookahead && (old(Hashed()) ==> Hashed())
      ensures strstart == old(strstart) - wSize && blockStart == old(blockStart) - wSize
          && matchStart == Minus(old(matchStart), wSize)
    {
      hide Primed;
      MoveDown();
      matchStart := Minus(matchStart, wSize);
      strstart := strstart - wSize;
      blockStart := blockStart - wSize;
      base, filled := base + wSize, filled - wSize;
    }

    /** Slides the window and the hash chains with it. */
    method Slide()
      requires Between() && strstart >= wSize + MaxDist()
      modifies this`strstart, this`matchStart, this`blockStart, this`base, this`filled, window, prev, head
      ensures Between() && base == old(base) + wSize && (old(Hashed()) ==> Hashed())
      ensures strstart == old(strstart) - wSize && blockStart == old(blockStart) - wSize
          && matchStart == Minus(old(matchStart), wSize)
    {
      hide ChainsOk, Hashed, AllSlid, Slot, Data;
      ghost var c := Chained();
      SlideBytes();
      SlideTables();
      SlideOk(c, Chained());
    }

    /** Reads as much input as there is and has room. */
    method ReadBuf(more: nat)
      requires Core() && filled == strstart + lookahead && filled + more <= window.Length
      modifies this`input, this`lookahead, this`all, this`filled, window
      ensures Core() && all + input == old(all + input) && old(all) <= all && |input| == if |old(input)| > more
          then |old(input)| - more else 0
      ensures lookahead == old(lookahead) + |old(input)| - |input| && filled == strstart + lookahead
      ensures |old(input)| > 0 && more > 0 ==> |input| < |old(input)|
    {
      hide ChainsOk;
      var n := if |input| > more then more else |input|;
      ghost var c, was, end := Chained(), window[..], filled;
      var at := strstart + lookahead;
      forall i | 0 <= i < n { window[at + i] := input[i]; }
      assert window[..end + n] == was[..end] + input[..n];
      GrowOk(c, input[..n]);
      TakeFrom(all, input, n, base);
      all := all + input[..n];
      input := input[n..];
      lookahead, filled := lookahead + n, filled + n;
      assert Chained() == c.(all := all);
    }

    /** The hash is up to date for the first string that waits, or if there is none for the one at strstart. */
    ghost predicate WaitingPrimed()
      reads this, window
    {
      insert <= strstart && top + insert <= base + strstart && PrimedAt(strstart - insert)
    }

    /** Inserts the first string that waits. */
    method InsertWaiting()
      requires Core() && filled == strstart + lookahead && insert > 0 && lookahead + insert >= MIN_MATCH
          && WaitingPrimed()
      modifies this`insH, this`insert, this`ins, this`top, prev, head
      ensures Core() && insert == old(insert) - 1 && WaitingPrimed()
      ensures ins == old(ins) + {(base + strstart - old(insert)) as nat}
    {
      hide ChainsOk, Primed, NoneBetween, KeyAt;
      var str := strstart - insert;
      var old_head := InsertString(str);
      insert := insert - 1;
    }

    /** Starts the hash again and inserts the strings that waited, as far as there are three bytes. */
    method InitHash()
      requires Core() && filled == strstart + lookahead && top + insert <= base + strstart && insert < MIN_MATCH
          && lookahead + insert >= MIN_MATCH && lookahead > 0
      modifies this`insH, this`insert, this`ins, this`top, prev, head
      ensures Valid() && insert == Waiting(old(insert), lookahead)
      ensures Grown(old(ins), ins, base + strstart - old(insert), base + strstart - insert)
    {
      hide ChainsOk, Update, Primed, Pow2, Grown, Data, Shape, PrimedAt;
      StartHash();
      GrownNone(ins, base + strstart - insert, base + strstart - insert);
      while insert != 0
        invariant Core() && insert <= old(insert) && WaitingPrimed()
        invariant (insert > 0 ==> lookahead + insert >= MIN_MATCH) && lookahead + insert >= MIN_MATCH - 1
        invariant Grown(old(ins), ins, base + strstart - old(insert), base + strstart - insert)
        decreases insert
      {
        GrownNext(old(ins), ins, base + strstart - old(insert), base + strstart - insert);
        InsertWaiting();
        if lookahead + insert < MIN_MATCH { break; }
      }
    }

    /** The running key of the two bytes at the first string that waits. */
    method StartHash()
      requires Core() && filled == strstart + lookahead && top + insert <= base + strstart
          && lookahead + insert >= MIN_MATCH
      modifies this`insH
      ensures Core() && WaitingPrimed()
    {
      hide ChainsOk, Update, Primed, Pow2;
      var str := strstart - insert;
      insH := Update(h, window[str], window[str + 1]);
      PrimedStart(h, window[str], window[str + 1]);
    }

    /** Clears bytes behind the input that longest_match may look at. */
    method ClearBehind()
      requires Between()
      modifies this`highWater, window
      ensures Between() && (old(Hashed()) ==> Hashed())
    {
      hide ChainsOk, Primed;
      if highWater < window.Length {
        var curr := strstart + lookahead;
        if highWater < curr {
          var init := window.Length - curr;
          if init > WIN_INIT { init := WIN_INIT; }
          Zero(window, curr, init);
          highWater := curr + init;
        } else if highWater < curr + WIN_INIT {
          var init := curr + WIN_INIT - highWater;
          if init > window.Length - highWater { init := window.Length - highWater; }
          Zero(window, highWater, init);
          highWater := highWater + init;
        }
      }
      assert forall i :: 0 <= i < filled ==> window[i] == old(window[i]);
    }

    /** fill_window. */
    method FillWindow()
      requires Between() && lookahead < MIN_LOOKAHEAD
      modifies this, window, prev, head
      ensures Between() && (old(Hashed()) ==> Hashed())
      ensures all + input == old(all + input) && old(all) <= all && base + strstart == old(base + strstart)
      ensures lookahead >= old(lookahead) && strstart <= window.Length - MIN_LOOKAHEAD
          && (old(strstart) > 0 ==> strstart > 0)
      ensures lookahead >= MIN_LOOKAHEAD || input == []
      ensures base == old(base) || (base == old(base) + wSize && old(strstart) > wSize)
      ensures base + blockStart == old(base + blockStart)
      ensures matchStart == if base == old(base) then old(matchStart) else Minus(old(matchStart), wSize)
      ensures insert == Waiting(old(insert), lookahead)
          && Grown(old(ins), ins, base + strstart - old(insert), base + strstart - insert)
    {
      hide Between, Core, Hashed, Grown;
      Waits();
      assert all + input == old(all + input);
      while true
        invariant Between() && (old(Hashed()) ==> Hashed()) && lookahead < MIN_LOOKAHEAD
        invariant all + input == old(all + input) && old(all) <= all && base + strstart == old(base + strstart)
        invariant lookahead >= old(lookahead) && (old(strstart) > 0 ==> strstart > 0)
            && base + blockStart == old(base + blockStart)
        invariant base == old(base) || (base == old(base) + wSize && old(strstart) > wSize
            && strstart < wSize + MaxDist())
        invariant matchStart == if base == old(base) then old(matchStart) else Minus(old(matchStart), wSize)
        invariant insert == Waiting(old(insert), lookahead)
            && Grown(old(ins), ins, base + strstart - old(insert), base + strstart - insert)
        decreases |input|
      {
        Sizes();
        var more := window.Length - lookahead - strstart;
        if strstart >= wSize + MaxDist() {
          Slide();
          more := more + wSize;
        }
        if |input| == 0 { break; }
        ghost var waited, had: set<nat> := insert, ins;
        Refill(more);
        GrownJoin(old(ins), had, ins, base + strstart - old(insert), base + strstart - waited,
          base + strstart - insert);
        if lookahead >= MIN_LOOKAHEAD || |input| == 0 { break; }
      }
      Sizes();
      ClearBehind();
    }

    lemma {:induction false} Sizes()
      requires Between()
      ensures Shape() && strstart + lookahead <= window.Length
    {
      hide ChainsOk;
    }

    /** The strings that wait lack bytes. */
    lemma {:induction false} Waits()
      requires Between()
      ensures insert == Waiting(insert, lookahead) <= 2
          && Grown(ins, ins, base + strstart - insert, base + strstart - insert)
    {
      hide ChainsOk;
    }

    /** One read, and the hash behind it. */
    method Refill(more: nat)
      requires Between() && more > 0 && strstart + lookahead + more <= window.Length && |input| > 0
      modifies this`input, this`lookahead, this`all, this`filled, this`insH, this`insert, this`ins, this`top, window,
        prev, head
      ensures Between() && Hashed() && all + input == old(all + input) && old(all) <= all
      ensures |input| < |old(input)| && lookahead >= old(lookahead)
      ensures insert == Waiting(old(insert), lookahead)
          && Grown(old(ins), ins, base + strstart - old(insert), base + strstart - insert)
    {
      hide ChainsOk, Primed, Grown;
      GrownNone(ins, base + strstart - insert, base + strstart - insert);
      ReadBuf(more);
      if lookahead + insert >= MIN_MATCH { InitHash(); }
    }

    /** Goes n bytes on without looking at the hash chains. */
    method Move(n: nat)
      requires Between() && n <= lookahead
      modifies this`strstart, this`lookahead
      ensures Between() && strstart == old(strstart) + n && lookahead == old(lookahead) - n
    {
      hide ChainsOk;
      strstart := strstart + n;
      lookahead := lookahead - n;
    }

    /** More input behind what is left of the old. */
    method Feed(more: seq<Byte>)
      modifies this`input
      ensures input == old(input) + more
      ensures (old(Between()) ==> Between()) && (old(Valid()) ==> Valid())
    {
      hide ChainsOk, Primed;
      input := input + more;
    }

    /** A new block starts here. */
    method StartBlock()
      modifies this`blockStart
      ensures blockStart == strstart
      ensures (old(Between()) ==> Between()) && (old(Valid()) ==> Valid()) && (old(Entered()) ==> Entered())
    {
      hide ChainsOk, Primed;
      blockStart := strstart;
    }

    /** At the end of the input: the last n strings are too short to be inserted, and wait. */
    method Wait(n: nat)
      requires Between() && lookahead == 0 && n < MIN_MATCH && n <= strstart
      modifies this`insert
      ensures Valid() && insert == n
    {
      hide Key, LinkOk, HeadOk;
      assert InsOk(Chained());
      insert := n;
    }
  }

  lemma {:induction false} TakeFrom(all: seq<Byte>, input: seq<Byte>, n: nat, base: nat)
    requires n <= |input| && base <= |all|
    ensures all + input[..n] + input[n..] == all + input && all <= all + input[..n]
    ensures (all + input[..n])[base..] == all[base..] + input[..n]
  {
  }

  method Zero(a: array<Byte>, from: nat, n: nat)
    requires from + n <= a.Length
    modifies a
    ensures forall i :: 0 <= i < from ==> a[i] == old(a[i])
    ensures forall i :: from <= i < from + n ==> a[i] == 0
  {
    forall i | 0 <= i < n { a[from + i] := 0; }
  }

  method SlideHash(a: array<nat>, wSize: nat)
    modifies a
    ensures AllSlid(wSize, old(a[..]), a[..])
  {
    var n := a.Length;
    while n != 0
      invariant 0 <= n <= a.Length
      invariant forall i :: 0 <= i < n ==> a[i] == old(a[i])
      invariant forall i :: n <= i < a.Length ==> a[i] == Slid(wSize, old(a[i]))
    {
      n := n - 1;
      var m := a[n];
      a[n] := if m >= wSize then m - wSize else 0;
    }
  }

  lemma {:induction false} WindowSizes(wBits: nat)
    requires 9 <= wBits <= 15
    ensures 512 <= Pow2(wBits) <= 32768
  {
    Pow2Values();
    Pow2Mono(9, wBits);
    Pow2Mono(wBits, 15);
  }

  lemma {:induction false} KeyPrimed(h: Hashing, key: nat, a: Byte, b: Byte, c: Byte)
    requires Primed(h, key, a, b)
    ensures Update(h, key, c) == Key(h, a, b, c)
  {
    hide Update, Key;
  }

  lemma {:induction false} HeadIs(c: Chains, k: nat, i: nat)
    requires ChainsOk(c) && c.base + i >= c.top && c.base + i + 2 < |c.all| && k == KeyAt(c.h, c.all, c.base + i)
    ensures k < |c.head| && c.w > 0 && |c.prev| == c.w && ChainsOk(Inserted(c, i, k))
    ensures c.head[k] != 0 ==>
        c.base + c.head[k] in c.ins && c.head[k] < i && c.base + c.head[k] + 2 < |c.all|
        && KeyAt(c.h, c.all, c.base + c.head[k]) == k
    ensures NoneBetween(c.h, c.all, c.ins + {c.base + i}, k, c.base + c.head[k], c.base + i)
  {
    hide KeyAt, Slot, NoneBetween;
    InsertOk(c, i, k);
    NoneWith(c, c.base + i, k, c.base + c.head[k], c.base + c.head[k], c.top, c.base + i);
  }
}
