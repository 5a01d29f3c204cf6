/** updatewindow of inflate.c: the last output bytes, kept in a ring. */
module InflateWindow {
  import opened BitWriter

  function Min(a: nat, b: nat): (r: nat)
  {
    if a <= b then a else b
  }

  /** The d-th byte before wnext in a ring of n bytes. */
  function Back(wnext: nat, n: nat, d: nat): (i: int)
    ensures 1 <= d <= n && wnext < n ==> 0 <= i < n
  {
    if d <= wnext then wnext - d else wnext + n - d
  }

  /** The ring w, next write at wnext, holds the last whave bytes of prev. */
  ghost predicate Holds(w: seq<Byte>, whave: nat, wnext: nat, prev: seq<Byte>)
  {
    && whave == Min(|prev|, |w|) && wnext < |w| && (whave < |w| ==> wnext == whave)
    && forall d: nat :: 1 <= d <= whave ==> w[Back(wnext, |w|, d)] == prev[|prev| - d]
  }

  lemma {:induction false} HoldsNone(w: seq<Byte>)
    requires |w| > 0
    ensures Holds(w, 0, 0, [])
  {
  }

  /** At least a window full. */
  lemma {:induction false} HoldsFull(w: seq<Byte>, prev: seq<Byte>, data: seq<Byte>)
    requires 0 < |w| <= |data| && forall i: nat :: i < |w| ==> w[i] == data[|data| - |w| + i]
    ensures Holds(w, |w|, 0, prev + data)
  {
  }

  /** The new bytes fit behind the old ones. */
  lemma {:induction false} HoldsMore(w: seq<Byte>, whave: nat, wnext: nat, prev: seq<Byte>, data: seq<Byte>,
      w': seq<Byte>)
    requires Holds(w, whave, wnext, prev) && |w'| == |w| && wnext + |data| <= |w| && |data| < |w|
    requires forall i: nat :: i < |w| ==> w'[i] == if wnext <= i < wnext + |data| then data[i - wnext] else w[i]
    ensures Holds(w', if whave < |w| then whave + |data| else whave, if wnext + |data| == |w| then 0
        else wnext + |data|, prev + data)
  {
    var wnext', whave' := if wnext + |data| == |w| then 0 else wnext + |data|, if whave < |w| then whave + |data|
      else whave;
    forall d: nat | 1 <= d <= whave' ensures w'[Back(wnext', |w|, d)] == (prev + data)[|prev + data| - d] {
      if d > |data| { assert w[Back(wnext, |w|, d - |data|)] == prev[|prev| - (d - |data|)]; }
    }
  }

  /** The new bytes wrap around the end. */
  lemma {:induction false} HoldsWrapped(w: seq<Byte>, whave: nat, wnext: nat, prev: seq<Byte>, data: seq<Byte>,
      w': seq<Byte>, k: nat)
    requires Holds(w, whave, wnext, prev) && |w'| == |w| && k == wnext + |data| - |w| && 0 < k && |data| < |w|
    requires forall i: nat :: i < |w| ==>
        w'[i] == if i < k then data[|data| - k + i] else if wnext <= i then data[i - wnext] else w[i]
    ensures Holds(w', |w|, k, prev + data)
  {
    forall d: nat | 1 <= d <= |w| ensures w'[Back(k, |w|, d)] == (prev + data)[|prev + data| - d] {
      if d > |data| { assert w[Back(wnext, |w|, d - |data|)] == prev[|prev| - (d - |data|)]; }
    }
  }

  class Window {
    /** The memory of the window, 1 << wbits bytes. */
    const window: array<Byte>
    /** Zero as long as the window is not in use. */
    var wsize: nat
    var whave: nat
    var wnext: nat

    ghost predicate Valid(prev: seq<Byte>)
      reads this, window
    {
      && window.Length > 0
      && if wsize == 0 then whave == 0 && prev == []
        else wsize == window.Length && Holds(window[..], whave, wnext, prev)
    }

    constructor (size: nat)
      requires size > 0
      ensures Valid([]) && fresh(window) && window.Length == size
    {
      window := new Byte[size];
      wsize, whave, wnext := 0, 0, 0;
    }

    /** Adds the copy bytes of output that end at end. */
    method Update(out: array<Byte>, end: nat, copy: nat, ghost prev: seq<Byte>)
      requires Valid(prev) && copy <= end <= out.Length && out != window
      modifies this, window
      ensures Valid(prev + out[end - copy..end]) && wsize == window.Length
    {
      hide Holds;
      ghost var o: seq<Byte> := out[..];
      ghost var data: seq<Byte> := out[end - copy..end];
      assert data == o[end - copy..end];
      if wsize == 0 {
        wsize, wnext, whave := window.Length, 0, 0;
        HoldsNone(window[..]);
      }
      ghost var w: seq<Byte>, h, n := window[..], whave, wnext;
      HoldsRange(w, h, n, prev);
      if copy >= wsize {
        forall i | 0 <= i < wsize { window[i] := out[end - wsize + i]; }
        assert out[..] == o;
        wnext, whave := 0, wsize;
        HoldsFull(window[..], prev, data);
      } else {
        var dist := if wsize - wnext > copy then copy else wsize - wnext;
        forall i | 0 <= i < dist { window[wnext + i] := out[end - copy + i]; }
        assert out[..] == o;
        var left := copy - dist;
        if left != 0 {
          forall i | 0 <= i < left { window[i] := out[end - left + i]; }
          assert out[..] == o;
          wnext, whave := left, wsize;
          HoldsWrapped(w, h, n, prev, data, window[..], left);
        } else {
          wnext := wnext + dist;
          if wnext == wsize { wnext := 0; }
          if whave < wsize { whave := whave + dist; }
          HoldsMore(w, h, n, prev, data, window[..]);
        }
      }
      assert out[end - copy..end] == o[end - copy..end];
    }
  }

  lemma {:induction false} HoldsRange(w: seq<Byte>, whave: nat, wnext: nat, prev: seq<Byte>)
    requires Holds(w, whave, wnext, prev)
    ensures wnext < |w| && whave <= |w|
  {
  }
}
