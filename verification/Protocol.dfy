/**
 The reading half of the Thrift binary protocol (Apache Thrift specification, "Thrift Binary
 protocol encoding"), as functions from a buffer and a position. A read that runs out of bytes
 fails with `HitEnd`, the outcome the server's EofTrackingReader records in its flag.
 */
module Protocol {
  import opened Bytes

  // Type tags, section "Struct encoding" and "List and Set".
  const STOP: byte := 0
  const BOOL: byte := 2
  const I8: byte := 3
  const DOUBLE: byte := 4
  const I16: byte := 6
  const I32_TAG: byte := 8
  const I64_TAG: byte := 10
  const STRING: byte := 11
  const STRUCT: byte := 12
  const MAP: byte := 13
  const SET: byte := 14
  const LIST: byte := 15

  // Message types, section "Message".
  const CALL: byte := 1
  const REPLY: byte := 2
  const EXCEPTION: byte := 3
  const ONEWAY: byte := 4

  const SKIP_DEPTH: nat := 64

  datatype Fault =
    | HitEnd
    | BadType
    | BadVersion
    | BadMessageType
    | NegativeSize
    | CannotSkip
    | TooDeep
    | MissingField

  /** A read: the value and the position after it, or a fault and where the cursor stopped. */
  datatype Res<+T> = Ok(value: T, pos: nat) | Err(fault: Fault, pos: nat) {
    predicate IsFailure() { Err? }

    function PropagateFailure<U>(): Res<U>
      requires Err?
    {
      Err(fault, pos)
    }

    function Extract(): (T, nat)
      requires Ok?
    {
      (value, pos)
    }

    predicate HitsEnd() { Err? && fault.HitEnd? }

    predicate Within(from: nat, to: nat) { from <= pos <= to }

    function Shift(off: nat): Res<T> {
      match this
      case Ok(v, p) => Ok(v, p + off)
      case Err(f, p) => Err(f, p + off)
    }
  }

  /** Moving a buffer into a larger one changes nothing about a read that stayed inside it. */
  predicate SameAt<T(==)>(inner: Res<T>, outer: Res<T>, off: nat) {
    inner.HitsEnd() || outer == inner.Shift(off)
  }

  predicate KnownType(t: byte) {
    t <= 4 || t == 6 || t == 8 || 10 <= t <= 17
  }

  // ----- primitives

  function Take(s: Text, i: nat, n: nat): (r: Res<Text>)
    requires i <= |s|
    ensures r.Within(i, |s|)
  {
    if i + n <= |s| then Ok(s[i..i + n], i + n) else Err(HitEnd, |s|)
  }

  function ReadByte(s: Text, i: nat): (r: Res<byte>)
    requires i <= |s|
    ensures r.Within(i, |s|)
    ensures r.Ok? ==> r.pos == i + 1
  {
    var (b, j) :- Take(s, i, 1);
    Ok(b[0], j)
  }

  function ReadInt(s: Text, i: nat, n: nat): (r: Res<int>)
    requires i <= |s|
    ensures r.Within(i, |s|)
    ensures r.Ok? ==> r.pos == i + n
  {
    var (b, j) :- Take(s, i, n);
    Ok(DecInt(b), j)
  }

  function ReadType(s: Text, i: nat): (r: Res<byte>)
    requires i <= |s|
    ensures r.Within(i, |s|)
    ensures r.Ok? ==> r.pos == i + 1
  {
    var (t, j) :- ReadByte(s, i);
    if KnownType(t) then Ok(t, j) else Err(BadType, j)
  }

  function ReadSize(s: Text, i: nat): (r: Res<nat>)
    requires i <= |s|
    ensures r.Within(i, |s|)
    ensures r.Ok? ==> r.pos == i + 4
  {
    var (n, j) :- ReadInt(s, i, 4);
    if n < 0 then Err(NegativeSize, j) else Ok(n, j)
  }

  function ReadString(s: Text, i: nat): (r: Res<Text>)
    requires i <= |s|
    ensures r.Within(i, |s|)
    ensures r.Ok? ==> r.pos >= i + 4
  {
    var (n, j) :- ReadSize(s, i);
    Take(s, j, n)
  }

  datatype FieldHeader = FieldHeader(kind: byte, id: int)
  datatype MapHeader = MapHeader(key: byte, val: byte, size: nat)
  datatype ListHeader = ListHeader(elem: byte, size: nat)

  function ReadFieldBegin(s: Text, i: nat): (r: Res<FieldHeader>)
    requires i <= |s|
    ensures r.Within(i, |s|)
    ensures r.Ok? ==> r.pos == if r.value.kind == STOP then i + 1 else i + 3
  {
    var (t, j) :- ReadType(s, i);
    if t == STOP then Ok(FieldHeader(STOP, 0), j) else
      var (id, k) :- ReadInt(s, j, 2);
      Ok(FieldHeader(t, id), k)
  }

  function ReadMapBegin(s: Text, i: nat): (r: Res<MapHeader>)
    requires i <= |s|
    ensures r.Within(i, |s|)
  {
    var (kt, j) :- ReadType(s, i);
    var (vt, k) :- ReadType(s, j);
    var (n, l) :- ReadSize(s, k);
    Ok(MapHeader(kt, vt, n), l)
  }

  function ReadListBegin(s: Text, i: nat): (r: Res<ListHeader>)
    requires i <= |s|
    ensures r.Within(i, |s|)
  {
    var (t, j) :- ReadType(s, i);
    var (n, k) :- ReadSize(s, j);
    Ok(ListHeader(t, n), k)
  }

  // ----- message header: strict (versioned) and old (name first) encodings

  datatype Message = Message(name: Text, kind: byte, sequence: int)

  function ReadMessageKind(b: byte, pos: nat): (r: Res<byte>)
    ensures r.pos == pos && !r.HitsEnd()
  {
    if CALL <= b <= ONEWAY then Ok(b, pos) else Err(BadMessageType, pos)
  }

  /** After a version word: name, then sequence number. */
  function ReadStrictRest(kind: byte, s: Text, i: nat): (r: Res<Message>)
    requires i <= |s|
    ensures r.Within(i, |s|)
  {
    var (name, j) :- ReadString(s, i);
    var (n, k) :- ReadInt(s, j, 4);
    Ok(Message(name, kind, n), k)
  }

  /** After the length of the name: name, message type, sequence number. */
  function ReadOldRest(size: nat, s: Text, i: nat): (r: Res<Message>)
    requires i <= |s|
    ensures r.Within(i, |s|)
  {
    var (name, j) :- Take(s, i, size);
    var (b, k) :- ReadByte(s, j);
    var (kind, _) :- ReadMessageKind(b, k);
    var (n, l) :- ReadInt(s, k, 4);
    Ok(Message(name, kind, n), l)
  }

  function ReadMessageBegin(s: Text, i: nat): (r: Res<Message>)
    requires i <= |s|
    ensures r.Within(i, |s|)
    ensures r.Ok? ==> r.pos > i
  {
    var (head, j) :- Take(s, i, 4);
    if head[0] < 0x80 then
      ReadOldRest(FromBigEndian(head), s, j)
    else if head[0] != 0x80 || head[1] != 1 then
      Err(BadVersion, j)
    else
      var (kind, _) :- ReadMessageKind(head[3], j);
      ReadStrictRest(kind, s, j)
  }

  // ----- skipping a value of a given wire type

  function FixedSize(t: byte): Option<nat> {
    if t == BOOL || t == I8 then Some(1)
    else if t == I16 then Some(2)
    else if t == I32_TAG then Some(4)
    else if t == I64_TAG || t == DOUBLE then Some(8)
    else None
  }

  function Skip(t: byte, depth: nat, s: Text, i: nat): (r: Res<()>)
    requires i <= |s|
    ensures r.Within(i, |s|)
    decreases depth, 0, 0
  {
    if depth == 0 then Err(TooDeep, i)
    else if FixedSize(t).Some? then
      var (_, j) :- Take(s, i, FixedSize(t).value);
      Ok((), j)
    else if t == STRING then
      var (_, j) :- ReadString(s, i);
      Ok((), j)
    else if t == STRUCT then
      SkipFields(depth - 1, s, i)
    else if t == MAP then
      var (h, j) :- ReadMapBegin(s, i);
      SkipEntries(h.key, h.val, h.size, depth - 1, s, j)
    else if t == LIST || t == SET then
      var (h, j) :- ReadListBegin(s, i);
      SkipItems(h.elem, h.size, depth - 1, s, j)
    else
      Err(CannotSkip, i)
  }

  function SkipFields(depth: nat, s: Text, i: nat): (r: Res<()>)
    requires i <= |s|
    ensures r.Within(i, |s|)
    decreases depth, 1, |s| - i
  {
    var (h, j) :- ReadFieldBegin(s, i);
    if h.kind == STOP then Ok((), j) else
      var (_, k) :- Skip(h.kind, depth, s, j);
      SkipFields(depth, s, k)
  }

  function SkipItems(t: byte, n: nat, depth: nat, s: Text, i: nat): (r: Res<()>)
    requires i <= |s|
    ensures r.Within(i, |s|)
    decreases depth, 1, n
  {
    if n == 0 then Ok((), i) else
      var (_, j) :- Skip(t, depth, s, i);
      SkipItems(t, n - 1, depth, s, j)
  }

  function SkipEntry(kt: byte, vt: byte, depth: nat, s: Text, i: nat): (r: Res<()>)
    requires i <= |s|
    ensures r.Within(i, |s|)
    decreases depth, 1, 0
  {
    var (_, j) :- Skip(kt, depth, s, i);
    Skip(vt, depth, s, j)
  }

  function SkipEntries(kt: byte, vt: byte, n: nat, depth: nat, s: Text, i: nat): (r: Res<()>)
    requires i <= |s|
    ensures r.Within(i, |s|)
    decreases depth, 2, n
  {
    if n == 0 then Ok((), i) else
      var (_, j) :- SkipEntry(kt, vt, depth, s, i);
      SkipEntries(kt, vt, n - 1, depth, s, j)
  }

  // ----- locality: what a read saw is all it depends on

  lemma TakeLocal(s: Text, whole: Text, off: nat, i: nat, n: nat)
    requires At(whole, off, s) && i <= |s|
    ensures SameAt(Take(s, i, n), Take(whole, off + i, n), off)
  {
    if i + n <= |s| {
      AtSlice(whole, off, s, i, n);
    }
  }

  lemma SizeLocal(s: Text, whole: Text, off: nat, i: nat)
    requires At(whole, off, s) && i <= |s|
    ensures SameAt(ReadSize(s, i), ReadSize(whole, off + i), off)
  {
    hide At, DecInt;
    TakeLocal(s, whole, off, i, 4);
  }

  lemma StringLocal(s: Text, whole: Text, off: nat, i: nat)
    requires At(whole, off, s) && i <= |s|
    ensures SameAt(ReadString(s, i), ReadString(whole, off + i), off)
  {
    hide At, ReadSize, Take;
    SizeLocal(s, whole, off, i);
    var r := ReadSize(s, i);
    if r.Ok? { TakeLocal(s, whole, off, r.pos, r.value); }
  }

  lemma TypeLocal(s: Text, whole: Text, off: nat, i: nat)
    requires At(whole, off, s) && i <= |s|
    ensures SameAt(ReadType(s, i), ReadType(whole, off + i), off)
  {
    TakeLocal(s, whole, off, i, 1);
  }

  lemma FieldBeginLocal(s: Text, whole: Text, off: nat, i: nat)
    requires At(whole, off, s) && i <= |s|
    ensures SameAt(ReadFieldBegin(s, i), ReadFieldBegin(whole, off + i), off)
  {
    hide At, ReadType;
    TypeLocal(s, whole, off, i);
    var r := ReadType(s, i);
    if r.Ok? { TakeLocal(s, whole, off, r.pos, 2); }
  }

  lemma MapBeginLocal(s: Text, whole: Text, off: nat, i: nat)
    requires At(whole, off, s) && i <= |s|
    ensures SameAt(ReadMapBegin(s, i), ReadMapBegin(whole, off + i), off)
  {
    hide At, ReadType, ReadSize;
    TypeLocal(s, whole, off, i);
    var r := ReadType(s, i);
    if r.Ok? {
      TypeLocal(s, whole, off, r.pos);
      var q := ReadType(s, r.pos);
      if q.Ok? { SizeLocal(s, whole, off, q.pos); }
    }
  }

  lemma ListBeginLocal(s: Text, whole: Text, off: nat, i: nat)
    requires At(whole, off, s) && i <= |s|
    ensures SameAt(ReadListBegin(s, i), ReadListBegin(whole, off + i), off)
  {
    hide At, ReadType, ReadSize;
    TypeLocal(s, whole, off, i);
    var r := ReadType(s, i);
    if r.Ok? { SizeLocal(s, whole, off, r.pos); }
  }

  lemma StrictRestLocal(kind: byte, s: Text, whole: Text, off: nat, i: nat)
    requires At(whole, off, s) && i <= |s|
    ensures SameAt(ReadStrictRest(kind, s, i), ReadStrictRest(kind, whole, off + i), off)
  {
    hide At, ReadString, DecInt;
    StringLocal(s, whole, off, i);
    var n := ReadString(s, i);
    if n.Ok? { TakeLocal(s, whole, off, n.pos, 4); }
  }

  lemma OldRestLocal(size: nat, s: Text, whole: Text, off: nat, i: nat)
    requires At(whole, off, s) && i <= |s|
    ensures SameAt(ReadOldRest(size, s, i), ReadOldRest(size, whole, off + i), off)
  {
    hide At, DecInt;
    TakeLocal(s, whole, off, i, size);
    var n := Take(s, i, size);
    if n.Ok? {
      TakeLocal(s, whole, off, n.pos, 1);
      if n.pos < |s| { TakeLocal(s, whole, off, n.pos + 1, 4); }
    }
  }

  lemma MessageBeginLocal(s: Text, whole: Text, off: nat, i: nat)
    requires At(whole, off, s) && i <= |s|
    ensures SameAt(ReadMessageBegin(s, i), ReadMessageBegin(whole, off + i), off)
  {
    hide At, ReadStrictRest, ReadOldRest, FromBigEndian;
    TakeLocal(s, whole, off, i, 4);
    var h := Take(s, i, 4);
    if h.Ok? {
      StrictRestLocal(h.value[3], s, whole, off, h.pos);
      OldRestLocal(FromBigEndian(h.value), s, whole, off, h.pos);
    }
  }

  lemma {:induction false} SkipLocal(t: byte, depth: nat, s: Text, whole: Text, off: nat, i: nat)
    requires At(whole, off, s) && i <= |s|
    ensures SameAt(Skip(t, depth, s, i), Skip(t, depth, whole, off + i), off)
    decreases depth, 0, 0
  {
    hide At, Take, ReadString, ReadMapBegin, ReadListBegin, SkipFields, SkipEntries, SkipItems;
    if depth == 0 {
    } else if FixedSize(t).Some? {
      TakeLocal(s, whole, off, i, FixedSize(t).value);
    } else if t == STRING {
      StringLocal(s, whole, off, i);
    } else if t == STRUCT {
      SkipFieldsLocal(depth - 1, s, whole, off, i);
    } else if t == MAP {
      MapBeginLocal(s, whole, off, i);
      var h := ReadMapBegin(s, i);
      if h.Ok? { SkipEntriesLocal(h.value.key, h.value.val, h.value.size, depth - 1, s, whole, off, h.pos); }
    } else if t == LIST || t == SET {
      ListBeginLocal(s, whole, off, i);
      var h := ReadListBegin(s, i);
      if h.Ok? { SkipItemsLocal(h.value.elem, h.value.size, depth - 1, s, whole, off, h.pos); }
    }
  }

  lemma {:induction false} SkipFieldsLocal(depth: nat, s: Text, whole: Text, off: nat, i: nat)
    requires At(whole, off, s) && i <= |s|
    ensures SameAt(SkipFields(depth, s, i), SkipFields(depth, whole, off + i), off)
    decreases depth, 1, |s| - i
  {
    hide At, Skip, ReadFieldBegin;
    var h := ReadFieldBegin(s, i);
    assert SameAt(h, ReadFieldBegin(whole, off + i), off) by { FieldBeginLocal(s, whole, off, i); }
    if h.Ok? && h.value.kind != STOP {
      SkipLocal(h.value.kind, depth, s, whole, off, h.pos);
      var r := Skip(h.value.kind, depth, s, h.pos);
      if r.Ok? { SkipFieldsLocal(depth, s, whole, off, r.pos); }
    }
  }

  lemma {:induction false} SkipItemsLocal(t: byte, n: nat, depth: nat, s: Text, whole: Text, off: nat, i: nat)
    requires At(whole, off, s) && i <= |s|
    ensures SameAt(SkipItems(t, n, depth, s, i), SkipItems(t, n, depth, whole, off + i), off)
    decreases depth, 1, n
  {
    if n > 0 {
      SkipLocal(t, depth, s, whole, off, i);
      var r := Skip(t, depth, s, i);
      if r.Ok? { SkipItemsLocal(t, n - 1, depth, s, whole, off, r.pos); }
    }
  }

  lemma {:induction false} SkipEntryLocal(kt: byte, vt: byte, depth: nat, s: Text, whole: Text, off: nat, i: nat)
    requires At(whole, off, s) && i <= |s|
    ensures SameAt(SkipEntry(kt, vt, depth, s, i), SkipEntry(kt, vt, depth, whole, off + i), off)
    decreases depth, 1, 0
  {
    hide At, Skip;
    SkipLocal(kt, depth, s, whole, off, i);
    var r := Skip(kt, depth, s, i);
    if r.Ok? { SkipLocal(vt, depth, s, whole, off, r.pos); }
  }

  lemma {:induction false} SkipEntriesLocal(kt: byte, vt: byte, n: nat, depth: nat, s: Text, whole: Text,
      off: nat, i: nat)
    requires At(whole, off, s) && i <= |s|
    ensures SameAt(SkipEntries(kt, vt, n, depth, s, i), SkipEntries(kt, vt, n, depth, whole, off + i), off)
    decreases depth, 2, n
  {
    hide At, SkipEntry;
    if n > 0 {
      SkipEntryLocal(kt, vt, depth, s, whole, off, i);
      var r := SkipEntry(kt, vt, depth, s, i);
      if r.Ok? { SkipEntriesLocal(kt, vt, n - 1, depth, s, whole, off, r.pos); }
    }
  }
}
