/** message.cpp: a message with a growing buffer of tagged fields, and its form on the wire. */
module Messages {
  import opened Wrappers
  import opened BitWriter
  import opened ByteSwap

  const WORD: nat := 0x1_0000_0000

  // ------------------------------------------------------------------ the wire form

  /** A 32-bit number, least significant byte first. */
  function Le4(v: nat): (s: seq<Byte>)
    ensures |s| == 4
  {
    [ByteAt(v, 0), ByteAt(v, 1), ByteAt(v, 2), ByteAt(v, 3)]
  }

  function Number(s: seq<Byte>): (v: nat)
    requires |s| == 4
  {
    Compose(s[0], s[1], s[2], s[3])
  }

  lemma {:induction false} NumberBack(v: nat)
    requires v < WORD
    ensures Number(Le4(v)) == v
  {
    hide ByteAt, Compose;
    Composed(v);
  }

  lemma {:induction false} NumberBound(s: seq<Byte>)
    requires |s| == 4
    ensures Number(s) < WORD && Le4(Number(s)) == s
  {
    hide ByteAt, Compose;
    BytesOf(s[0], s[1], s[2], s[3]);
  }

  /** A field: its tag and its value. */
  datatype Field = Field(id: nat, data: seq<Byte>)

  ghost predicate FieldOk(f: Field)
  {
    f.id < WORD && |f.data| < WORD
  }

  function FieldBytes(f: Field): (s: seq<Byte>)
    ensures |s| == 8 + |f.data|
  {
    Le4(f.id) + Le4(|f.data|) + f.data
  }

  function FieldsBytes(fs: seq<Field>): (s: seq<Byte>)
  {
    if fs == [] then [] else FieldBytes(fs[0]) + FieldsBytes(fs[1..])
  }

  lemma {:induction false} FieldsAppend(fs: seq<Field>, f: Field)
    ensures FieldsBytes(fs + [f]) == FieldsBytes(fs) + FieldBytes(f)
  {
    hide FieldBytes;
    if fs == [] {
      assert [f][1..] == [] && FieldBytes(f) + [] == FieldBytes(f);
    } else {
      assert (fs + [f])[1..] == fs[1..] + [f];
      FieldsAppend(fs[1..], f);
    }
  }

  /** The first payload added under a tag. */
  function First(fs: seq<Field>, id: nat): (r: Option<seq<Byte>>)
  {
    if fs == [] then None
    else if fs[0].id == id then Some(fs[0].data)
    else First(fs[1..], id)
  }

  lemma {:induction false} FirstIs(fs: seq<Field>, id: nat)
    ensures First(fs, id).None? <==> forall i :: 0 <= i < |fs| ==> fs[i].id != id
    ensures First(fs, id).Some? ==>
      exists i :: 0 <= i < |fs| && fs[i] == Field(id, First(fs, id).value) && forall j :: 0 <= j < i ==> fs[j].id != id
  {
    if fs != [] && fs[0].id == id {
      assert fs[0] == Field(id, First(fs, id).value);
    } else if fs != [] {
      FirstIs(fs[1..], id);
      if First(fs[1..], id).Some? {
        var i :| 0 <= i < |fs[1..]| && fs[1..][i] == Field(id, First(fs[1..], id).value) && forall j ::
          0 <= j < i ==> fs[1..][j].id != id;
        assert fs[i + 1] == fs[1..][i];
        forall j | 0 <= j < i + 1 ensures fs[j].id != id {
          if j > 0 { assert fs[j] == fs[1..][j - 1]; }
        }
      } else {
        forall i | 0 <= i < |fs| ensures fs[i].id != id {
          if i > 0 { assert fs[i] == fs[1..][i - 1]; }
        }
      }
    }
  }

  /** A message as a value. */
  datatype Packet = Packet(version: Byte, kind: nat, code: nat, payload: seq<Byte>)

  ghost predicate PacketOk(p: Packet)
  {
    p.kind < WORD && p.code < WORD && |p.payload| < WORD
  }

  /** The packed header record. */
  function HeaderBytes(version: Byte, kind: nat, size: nat, code: nat): (s: seq<Byte>)
    ensures |s| == 13
  {
    [version] + Le4(kind) + Le4(size) + Le4(code)
  }

  function PacketBytes(p: Packet): (s: seq<Byte>)
    ensures |s| == 13 + |p.payload|
  {
    HeaderBytes(p.version, p.kind, |p.payload|, p.code) + p.payload
  }

  lemma {:induction false} HeaderParts(version: Byte, kind: nat, size: nat, code: nat)
    requires kind < WORD && size < WORD && code < WORD
    ensures var s := HeaderBytes(version, kind, size, code);
            s[0] == version && Number(s[1..5]) == kind && Number(s[5..9]) == size && Number(s[9..13]) == code
  {
    hide Le4, Number;
    var s := HeaderBytes(version, kind, size, code);
    assert s[1..5] == Le4(kind) && s[5..9] == Le4(size) && s[9..13] == Le4(code);
    NumberBack(kind);
    NumberBack(size);
    NumberBack(code);
  }

  lemma {:induction false} HeaderRead(s: seq<Byte>)
    requires |s| == 13
    ensures HeaderBytes(s[0], Number(s[1..5]), Number(s[5..9]), Number(s[9..13])) == s
    ensures Number(s[1..5]) < WORD && Number(s[5..9]) < WORD && Number(s[9..13]) < WORD
  {
    hide Le4, Number;
    NumberBound(s[1..5]);
    NumberBound(s[5..9]);
    NumberBound(s[9..13]);
    assert s == [s[0]] + s[1..5] + s[5..9] + s[9..13];
  }

  /** The header byte by byte: the version, and kind, size of the payload and result code with their lowest bytes
      first. */
  lemma {:induction false} HeaderIs(version: Byte, kind: nat, size: nat, code: nat)
    requires kind < 0x1_0000_0000 && size < 0x1_0000_0000 && code < 0x1_0000_0000
    ensures var s := HeaderBytes(version, kind, size, code);
            && s[0] == version && IsNumber(kind, s[1], s[2], s[3], s[4]) && IsNumber(size, s[5], s[6], s[7], s[8])
            && IsNumber(code, s[9], s[10], s[11], s[12])
  {
    hide ByteAt;
    Composed(kind);
    Composed(size);
    Composed(code);
  }

  /** The number of 32 bits with the given bytes, the lowest first. */
  predicate IsNumber(v: nat, b0: nat, b1: nat, b2: nat, b3: nat)
  {
    v == b0 + 0x100 * b1 + 0x1_0000 * b2 + 0x100_0000 * b3
  }

  /** A field byte by byte: the tag and the length with their lowest bytes first, and the value. */
  lemma {:induction false} FieldIs(f: Field)
    requires FieldOk(f)
    ensures var s := FieldBytes(f);
            IsNumber(f.id, s[0], s[1], s[2], s[3]) && IsNumber(|f.data|, s[4], s[5], s[6], s[7]) && s[8..] == f.data
  {
    hide ByteAt;
    Composed(f.id);
    Composed(|f.data|);
  }

  /** The wire form says itself where it ends. */
  lemma {:induction false} PacketsDelimited(p: Packet, q: Packet, s: seq<Byte>, t: seq<Byte>)
    requires PacketOk(p) && PacketOk(q) && PacketBytes(p) + s == PacketBytes(q) + t
    ensures p == q && s == t
  {
    hide HeaderBytes, Number;
    HeaderParts(p.version, p.kind, |p.payload|, p.code);
    HeaderParts(q.version, q.kind, |q.payload|, q.code);
    var a, b := PacketBytes(p) + s, PacketBytes(q) + t;
    var g, h := HeaderBytes(p.version, p.kind, |p.payload|, p.code),
      HeaderBytes(q.version, q.kind, |q.payload|, q.code);
    assert a[..13] == g && b[..13] == h;
    assert a[13..13 + |p.payload|] == p.payload && b[13..13 + |q.payload|] == q.payload;
    assert a[13 + |p.payload|..] == s && b[13 + |q.payload|..] == t;
  }

  // ------------------------------------------------------------------ the message

  class Message {
    var version: Byte
    var kind: nat
    var size: nat
    var code: nat
    var raw: array?<Byte>
    var capacity: nat

    ghost predicate Valid()
      reads this
    {
      && size <= capacity < WORD && kind < WORD && code < WORD
      && (if raw == null then capacity == 0 else raw.Length == capacity)
    }

    ghost function Payload(): (s: seq<Byte>)
      requires Valid()
      reads this, raw
      ensures |s| == size
    {
      if raw == null then [] else raw[..size]
    }

    ghost function Value(): (p: Packet)
      requires Valid()
      reads this, raw
    {
      Packet(version, kind, code, Payload())
    }

    /** A new message to send. */
    constructor (id: nat)
      requires id < WORD
      ensures Valid() && Value() == Packet(1, id, 0, []) && raw == null
    {
      version, kind, size, code := 1, id, 0, 0;
      raw, capacity := null, 0;
    }

    /** A message to be filled from the header that came before its payload. */
    constructor FromHeader(header: seq<Byte>)
      requires |header| == 13
      ensures Valid() && HeaderBytes(version, kind, size, code) == header && size == Number(header[5..9])
      ensures if size == 0 then raw == null else raw != null && fresh(raw) && raw.Length == size
    {
      version := header[0];
      kind, size, code := Number(header[1..5]), Number(header[5..9]), Number(header[9..13]);
      raw, capacity := null, 0;
      new;
      HeaderRead(header);
      if size != 0 {
        raw := new Byte[size];
        capacity := size;
      }
    }

    /** The message with a given value: header and payload as they came. */
    constructor FromPacket(p: Packet)
      requires PacketOk(p)
      ensures Valid() && Value() == p && (raw != null ==> fresh(raw))
    {
      version, kind, size, code := p.version, p.kind, |p.payload|, p.code;
      raw, capacity := null, 0;
      new;
      if size != 0 {
        raw := new Byte[size];
        capacity := size;
        Store(0, p.payload);
        assert raw[..0] == [] && [] + p.payload == p.payload;
      }
    }

    /** Copies bytes into the buffer. */
    method Store(at: nat, data: seq<Byte>)
      requires raw != null && at + |data| <= raw.Length
      modifies raw
      ensures raw[..at + |data|] == old(raw[..at]) + data
    {
      assert data[..0] == [];
      for i := 0 to |data|
        invariant raw[..at + i] == old(raw[..at]) + data[..i]
      {
        raw[at + i] := data[i];
        assert raw[..at + i + 1] == raw[..at + i] + [data[i]];
        assert data[..i + 1] == data[..i] + [data[i]];
      }
      assert data[..|data|] == data;
    }

    /** Makes room for more bytes behind the payload. */
    method Grow(more: nat)
      requires Valid() && more > 0 && size + more < WORD
      modifies this`raw, this`capacity
      ensures Valid() && Payload() == old(Payload()) && raw != null && size + more <= capacity
      ensures raw == old(raw) || fresh(raw)
    {
      if size + more > capacity {
        var room := if capacity * 4 % WORD > size + more then capacity * 4 % WORD else size + more;
        var bigger := new Byte[room];
        if raw != null {
          for i := 0 to size
            invariant Valid() && raw != null && bigger != raw && raw == old(raw) && raw[..] == old(raw[..])
            invariant bigger[..i] == raw[..i]
          {
            bigger[i] := raw[i];
          }
        }
        raw := bigger;
        capacity := room;
      }
    }

    /** add_field_to_message: the field goes behind the others and nothing before it is lost. */
    method AddField(f: Field)
      requires Valid() && FieldOk(f) && size + 8 + |f.data| < WORD
      modifies this, raw
      ensures Valid() && Value() == old(Value()).(payload := old(Payload()) + FieldBytes(f))
      ensures raw == old(raw) || fresh(raw)
    {
      hide Le4, FieldBytes;
      ghost var before := Payload();
      Grow(8 + |f.data|);
      Store(size, Le4(f.id));
      Store(size + 4, Le4(|f.data|));
      Store(size + 8, f.data);
      Written(before, f);
      size := size + 8 + |f.data|;
    }

    method ReadNumber(p: nat) returns (v: nat)
      requires Valid() && p + 4 <= size
      ensures v == Number(Payload()[p..p + 4])
    {
      v := Number(raw[p..p + 4]);
      assert raw[p..p + 4] == Payload()[p..p + 4];
    }

    /** get_field_from_message: where the first field with the tag lies, or that there is none. */
    method GetField(id: nat, ghost fs: seq<Field>) returns (found: bool, length: nat, at: nat)
      requires Valid() && Payload() == FieldsBytes(fs) && forall f :: f in fs ==> FieldOk(f)
      ensures found <==> First(fs, id).Some?
      ensures found ==> at + length <= size && Payload()[at..at + length] == First(fs, id).value
    {
      hide First, FieldBytes, FieldOk, Number;
      found, length, at := false, 0, 0;
      var left, p: nat := size, 0;
      ghost var rest := fs;
      assert Payload()[0..] == Payload();
      while left > 0 && !found
        invariant p + left == size || found
        invariant !found ==> Payload()[p..] == FieldsBytes(rest) && First(rest, id) == First(fs, id)
        invariant forall f :: f in rest ==> FieldOk(f)
        invariant found ==>
            First(fs, id).Some? && at + length <= size
            && Payload()[at..at + length] == First(fs, id).value
        decreases left, !found
      {
        assert rest != [];
        NextField(Payload(), p, rest);
        FirstNext(rest, id);
        var current := ReadNumber(p);
        var n := ReadNumber(p + 4);
        if id == current {
          found, length, at := true, n, p + 8;
        } else {
          left := left - (8 + n);
          p := p + 8 + n;
          rest := rest[1..];
        }
      }
      if !found { NoField(rest, id); }
    }
  }

  lemma {:induction false} Written(before: seq<Byte>, f: Field)
    ensures before + Le4(f.id) + Le4(|f.data|) + f.data == before + FieldBytes(f)
  {
    hide Le4;
    assert before + Le4(f.id) + Le4(|f.data|) + f.data == before + (Le4(f.id) + Le4(|f.data|) + f.data);
  }

  /** What the scan reads at the beginning of a field. */
  lemma {:induction false} NextField(s: seq<Byte>, p: nat, fs: seq<Field>)
    requires fs != [] && FieldOk(fs[0]) && p <= |s| && s[p..] == FieldsBytes(fs)
    ensures p + 8 + |fs[0].data| <= |s|
    ensures Number(s[p..p + 4]) == fs[0].id && Number(s[p + 4..p + 8]) == |fs[0].data|
    ensures s[p + 8..p + 8 + |fs[0].data|] == fs[0].data && s[p + 8 + |fs[0].data|..] == FieldsBytes(fs[1..])
  {
    hide Number, Le4;
    var f, t := fs[0], FieldsBytes(fs[1..]);
    NumberBack(f.id);
    NumberBack(|f.data|);
    var u := s[p..];
    assert u == FieldBytes(f) + t;
    assert s[p..p + 4] == u[..4] == Le4(f.id);
    assert s[p + 4..p + 8] == u[4..8] == Le4(|f.data|);
    assert s[p + 8..p + 8 + |f.data|] == u[8..8 + |f.data|] == f.data;
    assert s[p + 8 + |f.data|..] == u[8 + |f.data|..] == t;
  }

  lemma {:induction false} FirstNext(fs: seq<Field>, id: nat)
    requires fs != []
    ensures First(fs, id) == if fs[0].id == id then Some(fs[0].data) else First(fs[1..], id)
  {
  }

  lemma {:induction false} NoField(fs: seq<Field>, id: nat)
    requires FieldsBytes(fs) == []
    ensures First(fs, id).None?
  {
  }
}
