/** The input and output protocols as the objects the processor drives, cursor and all. */
module Streams {
  import opened Bytes
  import opened Protocol
  import opened Schema

  /** TBinaryInputProtocol over the server's EofTrackingReader: a cursor and the `hit_end` flag. */
  class InputProtocol {
    const bytes: Text
    var pos: nat
    var hitEnd: bool

    predicate Valid()
      reads this
    {
      pos <= |bytes|
    }

    constructor (bytes: Text)
      ensures Valid() && this.bytes == bytes && pos == 0 && !hitEnd
    {
      this.bytes, pos, hitEnd := bytes, 0, false;
    }

    /** `Read::read`: at most `want` bytes; none although some were wanted means the end was hit. */
    method Read(want: nat) returns (got: Text)
      requires Valid()
      modifies this
      ensures Valid() && pos == old(pos) + |got| && got == bytes[old(pos)..pos]
      ensures |got| <= want && (|got| < want ==> pos == |bytes|)
      ensures hitEnd == (old(hitEnd) || (got == [] && want > 0))
    {
      var n := if want <= |bytes| - pos then want else |bytes| - pos;
      got := bytes[pos..pos + n];
      pos := pos + n;
      if n == 0 && want > 0 {
        hitEnd := true;
      }
    }

    method ReadExact(n: nat) returns (r: Res<Text>)
      requires Valid()
      modifies this
      ensures Valid() && r == Take(bytes, old(pos), n) && pos == r.pos && hitEnd == (old(hitEnd) || r.HitsEnd())
    {
      var got: Text := [];
      while |got| < n
        invariant Valid() && pos == old(pos) + |got| && got == bytes[old(pos)..pos]
        invariant |got| <= n && hitEnd == old(hitEnd)
      {
        var chunk := Read(n - |got|);
        if chunk == [] {
          return Err(HitEnd, pos);
        }
        got := got + chunk;
      }
      return Ok(got, pos);
    }

    method ReadByte() returns (r: Res<byte>)
      requires Valid()
      modifies this
      ensures Valid() && r == Protocol.ReadByte(bytes, old(pos))
      ensures pos == r.pos && hitEnd == (old(hitEnd) || r.HitsEnd())
    {
      var b :- ReadExact(1);
      return Ok(b.0[0], pos);
    }

    method ReadInt(n: nat) returns (r: Res<int>)
      requires Valid()
      modifies this
      ensures Valid() && r == Protocol.ReadInt(bytes, old(pos), n)
      ensures pos == r.pos && hitEnd == (old(hitEnd) || r.HitsEnd())
    {
      var b :- ReadExact(n);
      return Ok(DecInt(b.0), pos);
    }

    method ReadType() returns (r: Res<byte>)
      requires Valid()
      modifies this
      ensures Valid() && r == Protocol.ReadType(bytes, old(pos))
      ensures pos == r.pos && hitEnd == (old(hitEnd) || r.HitsEnd())
    {
      var t :- ReadByte();
      if !KnownType(t.0) {
        return Err(BadType, pos);
      }
      return Ok(t.0, pos);
    }

    method ReadSize() returns (r: Res<nat>)
      requires Valid()
      modifies this
      ensures Valid() && r == Protocol.ReadSize(bytes, old(pos))
      ensures pos == r.pos && hitEnd == (old(hitEnd) || r.HitsEnd())
    {
      var n :- ReadInt(4);
      if n.0 < 0 {
        return Err(NegativeSize, pos);
      }
      return Ok(n.0, pos);
    }

    method ReadString() returns (r: Res<Text>)
      requires Valid()
      modifies this
      ensures Valid() && r == Protocol.ReadString(bytes, old(pos))
      ensures pos == r.pos && hitEnd == (old(hitEnd) || r.HitsEnd())
    {
      var n :- ReadSize();
      r := ReadExact(n.0);
    }

    method ReadFieldBegin() returns (r: Res<FieldHeader>)
      requires Valid()
      modifies this
      ensures Valid() && r == Protocol.ReadFieldBegin(bytes, old(pos))
      ensures pos == r.pos && hitEnd == (old(hitEnd) || r.HitsEnd())
    {
      var t :- ReadType();
      if t.0 == STOP {
        return Ok(FieldHeader(STOP, 0), pos);
      }
      var id :- ReadInt(2);
      return Ok(FieldHeader(t.0, id.0), pos);
    }

    method ReadMapBegin() returns (r: Res<MapHeader>)
      requires Valid()
      modifies this
      ensures Valid() && r == Protocol.ReadMapBegin(bytes, old(pos))
      ensures pos == r.pos && hitEnd == (old(hitEnd) || r.HitsEnd())
    {
      var kt :- ReadType();
      var vt :- ReadType();
      var n :- ReadSize();
      return Ok(MapHeader(kt.0, vt.0, n.0), pos);
    }

    method ReadListBegin() returns (r: Res<ListHeader>)
      requires Valid()
      modifies this
      ensures Valid() && r == Protocol.ReadListBegin(bytes, old(pos))
      ensures pos == r.pos && hitEnd == (old(hitEnd) || r.HitsEnd())
    {
      var t :- ReadType();
      var n :- ReadSize();
      return Ok(ListHeader(t.0, n.0), pos);
    }

    method ReadStrictRest(kind: byte) returns (r: Res<Message>)
      requires Valid()
      modifies this
      ensures Valid() && r == Protocol.ReadStrictRest(kind, bytes, old(pos))
      ensures pos == r.pos && hitEnd == (old(hitEnd) || r.HitsEnd())
    {
      var name :- ReadString();
      var n :- ReadInt(4);
      return Ok(Message(name.0, kind, n.0), pos);
    }

    method ReadOldRest(size: nat) returns (r: Res<Message>)
      requires Valid()
      modifies this
      ensures Valid() && r == Protocol.ReadOldRest(size, bytes, old(pos))
      ensures pos == r.pos && hitEnd == (old(hitEnd) || r.HitsEnd())
    {
      var name :- ReadExact(size);
      var b :- ReadByte();
      var kind :- ReadMessageKind(b.0, pos);
      var n :- ReadInt(4);
      return Ok(Message(name.0, kind.0, n.0), pos);
    }

    method ReadMessageBegin() returns (r: Res<Message>)
      requires Valid()
      modifies this
      ensures Valid() && r == Protocol.ReadMessageBegin(bytes, old(pos))
      ensures pos == r.pos && hitEnd == (old(hitEnd) || r.HitsEnd())
    {
      var head :- ReadExact(4);
      if head.0[0] < 0x80 {
        r := ReadOldRest(FromBigEndian(head.0));
        return;
      }
      if head.0[0] != 0x80 || head.0[1] != 1 {
        return Err(BadVersion, pos);
      }
      var kind :- ReadMessageKind(head.0[3], pos);
      r := ReadStrictRest(kind.0);
    }

    /** `skip`: fields until the stop byte, or as many elements as the header announced. */
    method Skip(t: byte, depth: nat) returns (r: Res<()>)
      requires Valid()
      modifies this
      ensures Valid() && r == Protocol.Skip(t, depth, bytes, old(pos))
      ensures pos == r.pos && hitEnd == (old(hitEnd) || r.HitsEnd())
      decreases depth, 0
    {
      hide Take, Protocol.ReadString, Protocol.ReadMapBegin, Protocol.ReadListBegin;
      hide SkipEntries, SkipItems, Protocol.SkipFields;
      if depth == 0 {
        return Err(TooDeep, pos);
      } else if FixedSize(t).Some? {
        var _ :- ReadExact(FixedSize(t).value);
        return Ok((), pos);
      } else if t == STRING {
        var _ :- ReadString();
        return Ok((), pos);
      } else if t == STRUCT {
        r := SkipFields(depth - 1);
      } else if t == MAP {
        var h :- ReadMapBegin();
        r := SkipElements([h.0.key, h.0.val], h.0.size, depth - 1);
      } else if t == LIST || t == SET {
        var h :- ReadListBegin();
        r := SkipElements([h.0.elem], h.0.size, depth - 1);
      } else {
        return Err(CannotSkip, pos);
      }
    }

    method SkipFields(depth: nat) returns (r: Res<()>)
      requires Valid()
      modifies this
      ensures Valid() && r == Protocol.SkipFields(depth, bytes, old(pos))
      ensures pos == r.pos && hitEnd == (old(hitEnd) || r.HitsEnd())
      decreases depth, 1
    {
      hide Protocol.ReadFieldBegin, Protocol.Skip;
      ghost var start := pos;
      while true
        invariant Valid() && hitEnd == old(hitEnd)
        invariant Protocol.SkipFields(depth, bytes, pos) == Protocol.SkipFields(depth, bytes, start)
        decreases |bytes| - pos
      {
        var h :- ReadFieldBegin();
        if h.0.kind == STOP {
          return Ok((), pos);
        }
        var _ :- Skip(h.0.kind, depth);
      }
    }

    /** Lists repeat one element type; maps a key type and a value type. */
    method SkipElements(ts: seq<byte>, n: nat, depth: nat) returns (r: Res<()>)
      requires Valid() && 1 <= |ts| <= 2
      modifies this
      ensures Valid() && pos == r.pos && hitEnd == (old(hitEnd) || r.HitsEnd())
      ensures r == if |ts| == 1 then SkipItems(ts[0], n, depth, bytes, old(pos))
                   else SkipEntries(ts[0], ts[1], n, depth, bytes, old(pos))
      decreases depth, 1
    {
      hide Protocol.Skip;
      ghost var start := pos;
      var left := n;
      while left > 0
        invariant Valid() && hitEnd == old(hitEnd)
        invariant |ts| == 1 ==> SkipItems(ts[0], left, depth, bytes, pos) == SkipItems(ts[0], n, depth, bytes, start)
        invariant |ts| == 2
            ==> SkipEntries(ts[0], ts[1], left, depth, bytes, pos) == SkipEntries(ts[0], ts[1], n, depth, bytes, start)
      {
        var _ :- Skip(ts[0], depth);
        if |ts| == 2 {
          var _ :- Skip(ts[1], depth);
        }
        left := left - 1;
      }
      return Ok((), pos);
    }

    // ----- the generated readers

    method ReadValue(ty: Ty) returns (r: Res<Value>)
      requires Valid()
      modifies this
      ensures Valid() && r == Dec(ty, bytes, old(pos)) && pos == r.pos && hitEnd == (old(hitEnd) || r.HitsEnd())
      decreases ty, 2
    {
      hide Protocol.ReadInt, Protocol.ReadString, DecMap, DecList, DecFields;
      match ty
      case I32 =>
        var n :- ReadInt(4);
        return Ok(Int(n.0), pos);
      case I64 =>
        var n :- ReadInt(8);
        return Ok(Int(n.0), pos);
      case String =>
        var t :- ReadString();
        return Ok(Str(t.0), pos);
      case MapOf(val) =>
        r := ReadMap(val);
      case ListOf(elem) =>
        r := ReadList(elem);
      case StructOf(fs) =>
        var slots :- ReadFields(fs);
        if !HasRequired(fs, slots.0) {
          return Err(MissingField, pos);
        }
        return Ok(Record(slots.0), pos);
    }

    method ReadMap(val: Ty) returns (r: Res<Value>)
      requires Valid()
      modifies this
      ensures Valid() && r == DecMap(val, bytes, old(pos)) && pos == r.pos && hitEnd == (old(hitEnd) || r.HitsEnd())
      decreases val, 3
    {
      hide Protocol.ReadMapBegin, Protocol.ReadString, Dec;
      var h :- ReadMapBegin();
      ghost var start := pos;
      var entries: map<Text, Value> := map[];
      var left := h.0.size;
      while left > 0
        invariant Valid() && hitEnd == old(hitEnd)
        invariant DecEntries(val, left, bytes, pos, entries) == DecEntries(val, h.0.size, bytes, start, map[])
      {
        var k :- ReadString();
        var v :- ReadValue(val);
        entries := entries[k.0 := v.0];
        left := left - 1;
      }
      return Ok(Dict(entries), pos);
    }

    method ReadList(elem: Ty) returns (r: Res<Value>)
      requires Valid()
      modifies this
      ensures Valid() && r == DecList(elem, bytes, old(pos)) && pos == r.pos && hitEnd == (old(hitEnd) || r.HitsEnd())
      decreases elem, 3
    {
      hide Protocol.ReadListBegin, Dec;
      var h :- ReadListBegin();
      ghost var start := pos;
      var items: seq<Value> := [];
      var left := h.0.size;
      while left > 0
        invariant Valid() && hitEnd == old(hitEnd)
        invariant DecItems(elem, left, bytes, pos, items) == DecItems(elem, h.0.size, bytes, start, [])
      {
        var v :- ReadValue(elem);
        items := items + [v.0];
        left := left - 1;
      }
      return Ok(Items(items), pos);
    }

    /** The loop of every generated reader: `slots` are its `f_1`, `f_2`, ... */
    method ReadFields(fs: seq<Field>) returns (r: Res<map<int, Value>>)
      requires Valid()
      modifies this
      ensures Valid() && r == DecFields(fs, bytes, old(pos), Initial(fs))
      ensures pos == r.pos && hitEnd == (old(hitEnd) || r.HitsEnd())
      decreases fs, 1
    {
      hide Protocol.ReadFieldBegin, DecField, Initial;
      var slots := Initial(fs);
      ghost var start := pos;
      while true
        invariant Valid() && hitEnd == old(hitEnd)
        invariant DecFields(fs, bytes, pos, slots) == DecFields(fs, bytes, start, Initial(fs))
        decreases |bytes| - pos
      {
        var h :- ReadFieldBegin();
        if h.0.kind == STOP {
          return Ok(slots, pos);
        }
        var next :- ReadField(fs, h.0, slots);
        slots := next.0;
      }
    }

    method ReadField(fs: seq<Field>, h: FieldHeader, slots: map<int, Value>) returns (r: Res<map<int, Value>>)
      requires Valid()
      modifies this
      ensures Valid() && r == DecField(fs, h, bytes, old(pos), slots)
      ensures pos == r.pos && hitEnd == (old(hitEnd) || r.HitsEnd())
      decreases fs, 0
    {
      hide Protocol.Skip;
      var f := Find(fs, h.id);
      if f < |fs| {
        r := ReadKnown(fs[f], slots);
      } else {
        var _ :- Skip(h.kind, SKIP_DEPTH);
        return Ok(slots, pos);
      }
    }

    method ReadKnown(f: Field, slots: map<int, Value>) returns (r: Res<map<int, Value>>)
      requires Valid()
      modifies this
      ensures Valid() && r == DecKnown(f, bytes, old(pos), slots)
      ensures pos == r.pos && hitEnd == (old(hitEnd) || r.HitsEnd())
      decreases f, 0
    {
      hide Dec;
      var v :- ReadValue(f.ty);
      return Ok(slots[f.id := v.0], pos);
    }
  }

  /** TBinaryOutputProtocol over a Vec: writing appends. */
  class OutputProtocol {
    var out: Text

    constructor ()
      ensures out == []
    {
      out := [];
    }

    method Write(part: Text)
      modifies this
      ensures out == old(out) + part
    {
      out := out + part;
    }

    method WriteString(t: Text)
      modifies this
      ensures out == old(out) + EncString(t)
    {
      Write(EncInt(|t|, 4));
      Write(t);
      assert old(out) + EncInt(|t|, 4) + t == old(out) + EncString(t);
    }

    /** The generated writers: absent fields are left out, maps go in key order. */
    method WriteValue(ty: Ty, v: Value)
      modifies this
      ensures out == old(out) + Enc(ty, v)
      decreases ty, 1
    {
      hide EncInt, EncString, EncMapBegin, EncListBegin, EncEntries, EncItems, EncFields, SortedKeys;
      match (ty, v)
      case (I32, Int(n)) => Write(EncInt(n, 4));
      case (I64, Int(n)) => Write(EncInt(n, 8));
      case (String, Str(t)) => WriteString(t);
      case (MapOf(val), Dict(m)) =>
        Write(EncMapBegin(Tag(val), |m|));
        WriteEntries(val, m);
        Regroup(old(out), EncMapBegin(Tag(val), |m|), EncEntries(val, m, SortedKeys(m.Keys)));
      case (ListOf(elem), Items(xs)) =>
        Write(EncListBegin(Tag(elem), |xs|));
        WriteItems(elem, xs);
        Regroup(old(out), EncListBegin(Tag(elem), |xs|), EncItems(elem, xs));
      case (StructOf(fs), Record(slots)) =>
        WriteFields(fs, slots);
        Write([STOP]);
        Regroup(old(out), EncFields(fs, slots), [STOP]);
      case _ =>
        assert out + [] == out;
    }

    method WriteEntries(val: Ty, m: map<Text, Value>)
      modifies this
      ensures out == old(out) + EncEntries(val, m, SortedKeys(m.Keys))
      decreases val, 2
    {
      hide Enc, EncString;
      var keys := m.Keys;
      while keys != {}
        invariant keys <= m.Keys
        invariant out + EncEntries(val, m, SortedKeys(keys)) == old(out) + EncEntries(val, m, SortedKeys(m.Keys))
      {
        LeastExists(keys);
        var k :| k in keys && IsLeast(k, keys);
        SortedKeysStep(keys, k);
        ghost var before := out;
        WriteString(k);
        WriteValue(val, m[k]);
        Regroup(before, EncString(k), Enc(val, m[k]));
        Regroup(before, EncEntry(val, k, m[k]), EncEntries(val, m, SortedKeys(keys - {k})));
        keys := keys - {k};
      }
    }

    method WriteItems(elem: Ty, xs: seq<Value>)
      modifies this
      ensures out == old(out) + EncItems(elem, xs)
      decreases elem, 2
    {
      hide Enc;
      for i := 0 to |xs|
        invariant out + EncItems(elem, xs[i..]) == old(out) + EncItems(elem, xs)
      {
        ghost var before := out;
        WriteValue(elem, xs[i]);
        assert xs[i..][1..] == xs[i + 1..];
        Regroup(before, Enc(elem, xs[i]), EncItems(elem, xs[i + 1..]));
      }
    }

    method WriteFields(fs: seq<Field>, slots: map<int, Value>)
      modifies this
      ensures out == old(out) + EncFields(fs, slots)
      decreases fs, 0
    {
      hide EncField;
      for i := 0 to |fs|
        invariant out + EncFields(fs[i..], slots) == old(out) + EncFields(fs, slots)
      {
        ghost var before := out;
        WriteField(fs[i], slots);
        assert fs[i..][1..] == fs[i + 1..];
        Regroup(before, EncField(fs[i], slots), EncFields(fs[i + 1..], slots));
      }
    }

    method WriteField(f: Field, slots: map<int, Value>)
      modifies this
      ensures out == old(out) + EncField(f, slots)
      decreases f, 0
    {
      hide Enc, EncFieldBegin;
      if f.id in slots {
        Write(EncFieldBegin(Tag(f.ty), f.id));
        WriteValue(f.ty, slots[f.id]);
        Regroup(old(out), EncFieldBegin(Tag(f.ty), f.id), Enc(f.ty, slots[f.id]));
      }
    }
  }

  lemma Regroup(a: Text, b: Text, c: Text)
    ensures (a + b) + c == a + (b + c)
  {
  }
}
