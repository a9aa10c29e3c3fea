/** Locality, round trip and the meaning of the field loop, for every schema at once. */
module SchemaProofs {
  import opened Bytes
  import opened Protocol
  import opened Schema

  // ----- locality of decoding

  lemma {:induction false} DecLocal(ty: Ty, s: Text, whole: Text, off: nat, i: nat)
    requires At(whole, off, s) && i <= |s|
    ensures SameAt(Dec(ty, s, i), Dec(ty, whole, off + i), off)
    decreases ty, 2, 0
  {
    hide At, DecInt, Take, ReadString, DecMap, DecList, DecFields;
    match ty
    case I32 => TakeLocal(s, whole, off, i, 4);
    case I64 => TakeLocal(s, whole, off, i, 8);
    case String => StringLocal(s, whole, off, i);
    case MapOf(val) => DecMapLocal(val, s, whole, off, i);
    case ListOf(elem) => DecListLocal(elem, s, whole, off, i);
    case StructOf(fs) =>
      DecFieldsLocal(fs, s, whole, off, i, Initial(fs));
  }

  lemma {:induction false} DecMapLocal(val: Ty, s: Text, whole: Text, off: nat, i: nat)
    requires At(whole, off, s) && i <= |s|
    ensures SameAt(DecMap(val, s, i), DecMap(val, whole, off + i), off)
    decreases val, 5, 0
  {
    hide At, ReadMapBegin, DecEntries;
    MapBeginLocal(s, whole, off, i);
    var h := ReadMapBegin(s, i);
    if h.Ok? { DecEntriesLocal(val, h.value.size, s, whole, off, h.pos, map[]); }
  }

  lemma {:induction false} DecListLocal(elem: Ty, s: Text, whole: Text, off: nat, i: nat)
    requires At(whole, off, s) && i <= |s|
    ensures SameAt(DecList(elem, s, i), DecList(elem, whole, off + i), off)
    decreases elem, 5, 0
  {
    hide At, ReadListBegin, DecItems;
    ListBeginLocal(s, whole, off, i);
    var h := ReadListBegin(s, i);
    if h.Ok? { DecItemsLocal(elem, h.value.size, s, whole, off, h.pos, []); }
  }

  lemma {:induction false} DecEntryLocal(val: Ty, s: Text, whole: Text, off: nat, i: nat)
    requires At(whole, off, s) && i <= |s|
    ensures SameAt(DecEntry(val, s, i), DecEntry(val, whole, off + i), off)
    decreases val, 3, 0
  {
    hide At, ReadString, Dec;
    StringLocal(s, whole, off, i);
    var k := ReadString(s, i);
    if k.Ok? { DecLocal(val, s, whole, off, k.pos); }
  }

  lemma {:induction false} DecEntriesLocal(val: Ty, n: nat, s: Text, whole: Text, off: nat, i: nat,
      acc: map<Text, Value>)
    requires At(whole, off, s) && i <= |s|
    ensures SameAt(DecEntries(val, n, s, i, acc), DecEntries(val, n, whole, off + i, acc), off)
    decreases val, 4, n
  {
    hide At, DecEntry;
    if n > 0 {
      DecEntryLocal(val, s, whole, off, i);
      var e := DecEntry(val, s, i);
      if e.Ok? { DecEntriesLocal(val, n - 1, s, whole, off, e.pos, acc[e.value.0 := e.value.1]); }
    }
  }

  lemma {:induction false} DecItemsLocal(elem: Ty, n: nat, s: Text, whole: Text, off: nat, i: nat, acc: seq<Value>)
    requires At(whole, off, s) && i <= |s|
    ensures SameAt(DecItems(elem, n, s, i, acc), DecItems(elem, n, whole, off + i, acc), off)
    decreases elem, 3, n
  {
    hide At, Dec;
    if n > 0 {
      DecLocal(elem, s, whole, off, i);
      var v := Dec(elem, s, i);
      if v.Ok? { DecItemsLocal(elem, n - 1, s, whole, off, v.pos, acc + [v.value]); }
    }
  }

  lemma FieldsStep(fs: seq<Field>, s: Text, i: nat, slots: map<int, Value>, h: FieldHeader, j: nat,
      r: Res<map<int, Value>>)
    requires i <= |s| && j <= |s| && ReadFieldBegin(s, i) == Ok(h, j) && h.kind != STOP
    requires DecField(fs, h, s, j, slots) == r
    ensures DecFields(fs, s, i, slots) == if r.Ok? then DecFields(fs, s, r.pos, r.value) else r
  {
    hide ReadFieldBegin, DecField;
  }

  lemma {:induction false} DecFieldsLocal(fs: seq<Field>, s: Text, whole: Text, off: nat, i: nat,
      slots: map<int, Value>)
    requires At(whole, off, s) && i <= |s|
    ensures SameAt(DecFields(fs, s, i, slots), DecFields(fs, whole, off + i, slots), off)
    decreases fs, 1, |s| - i
  {
    hide At, ReadFieldBegin, DecField;
    var h := ReadFieldBegin(s, i);
    FieldBeginLocal(s, whole, off, i);
    if h.Ok? && h.value.kind != STOP {
      hide DecFields;
      DecFieldLocal(fs, h.value, s, whole, off, h.pos, slots);
      var r := DecField(fs, h.value, s, h.pos, slots);
      FieldsStep(fs, s, i, slots, h.value, h.pos, r);
      FieldsStep(fs, whole, off + i, slots, h.value, off + h.pos, DecField(fs, h.value, whole, off + h.pos, slots));
      if r.Ok? { DecFieldsLocal(fs, s, whole, off, r.pos, r.value); }
    }
  }

  lemma {:induction false} DecFieldLocal(fs: seq<Field>, h: FieldHeader, s: Text, whole: Text, off: nat, i: nat,
      slots: map<int, Value>)
    requires At(whole, off, s) && i <= |s|
    ensures SameAt(DecField(fs, h, s, i, slots), DecField(fs, h, whole, off + i, slots), off)
    decreases fs, 0, 0
  {
    hide At, DecKnown, Skip, Find;
    var f := Find(fs, h.id);
    if f < |fs| {
      DecKnownLocal(fs[f], s, whole, off, i, slots);
    } else {
      SkipLocal(h.kind, SKIP_DEPTH, s, whole, off, i);
    }
  }

  lemma {:induction false} DecKnownLocal(f: Field, s: Text, whole: Text, off: nat, i: nat, slots: map<int, Value>)
    requires At(whole, off, s) && i <= |s|
    ensures SameAt(DecKnown(f, s, i, slots), DecKnown(f, whole, off + i, slots), off)
    decreases f, 0, 0
  {
    hide At, Dec;
    DecLocal(f.ty, s, whole, off, i);
  }

  // ----- reading back what was written

  lemma IntAt(v: int, n: nat, s: Text, i: nat)
    requires (n == 2 || n == 4 || n == 8) && InRange(v, n) && At(s, i, EncInt(v, n))
    ensures ReadInt(s, i, n) == Ok(v, i + n)
  {
    AtSlice(s, i, EncInt(v, n), 0, n);
    assert EncInt(v, n)[0..n] == EncInt(v, n);
    IntRoundTrip(v, n);
  }

  lemma SizeAt(v: nat, s: Text, i: nat)
    requires v < MAX_SIZE && At(s, i, EncInt(v, 4))
    ensures ReadSize(s, i) == Ok(v, i + 4)
  {
    Widths();
    IntAt(v, 4, s, i);
  }

  lemma StringAt(t: Text, s: Text, i: nat)
    requires |t| < MAX_SIZE && At(s, i, EncString(t))
    ensures ReadString(s, i) == Ok(t, i + |EncString(t)|)
  {
    hide DecInt, EncInt, ReadSize;
    AtSplit(s, i, EncInt(|t|, 4), t);
    SizeAt(|t|, s, i);
    AtSlice(s, i + 4, t, 0, |t|);
    assert t[0..|t|] == t;
  }

  lemma FieldBeginAt(kind: byte, id: int, s: Text, i: nat)
    requires KnownType(kind) && kind != STOP && InRange(id, 2) && At(s, i, EncFieldBegin(kind, id))
    ensures ReadFieldBegin(s, i) == Ok(FieldHeader(kind, id), i + 3)
  {
    hide DecInt, EncInt, ReadInt;
    var header := EncFieldBegin(kind, id);
    AtSplit(s, i, [kind], EncInt(id, 2));
    assert s[i] == header[0];
    IntAt(id, 2, s, i + 1);
  }

  lemma MapBeginAt(vt: byte, n: nat, s: Text, i: nat)
    requires KnownType(vt) && n < MAX_SIZE && At(s, i, EncMapBegin(vt, n))
    ensures ReadMapBegin(s, i) == Ok(MapHeader(STRING, vt, n), i + |EncMapBegin(vt, n)|)
  {
    hide ReadSize, EncInt;
    var header := EncMapBegin(vt, n);
    AtSplit(s, i, [STRING, vt], EncInt(n, 4));
    assert s[i] == header[0] && s[i + 1] == header[1];
    SizeAt(n, s, i + 2);
  }

  lemma ListBeginAt(t: byte, n: nat, s: Text, i: nat)
    requires KnownType(t) && n < MAX_SIZE && At(s, i, EncListBegin(t, n))
    ensures ReadListBegin(s, i) == Ok(ListHeader(t, n), i + |EncListBegin(t, n)|)
  {
    hide ReadSize, EncInt;
    var header := EncListBegin(t, n);
    AtSplit(s, i, [t], EncInt(n, 4));
    assert s[i] == header[0];
    SizeAt(n, s, i + 1);
  }

  /** Read after write is `Filled`, wherever in a buffer the value was written. */
  lemma {:induction false} DecEnc(ty: Ty, v: Value, s: Text, i: nat)
    requires WellFormed(ty) && Fits(ty, v) && At(s, i, Enc(ty, v))
    ensures Dec(ty, s, i) == Ok(Filled(ty, v), i + |Enc(ty, v)|)
    decreases ty, 1
  {
    match (ty, v)
    case (I32, Int(n)) => IntAt(n, 4, s, i);
    case (I64, Int(n)) => IntAt(n, 8, s, i);
    case (String, Str(t)) => StringAt(t, s, i);
    case (MapOf(val), Dict(m)) => DecEncMap(val, m, SortedKeys(m.Keys), s, i);
    case (ListOf(elem), Items(xs)) =>
      DecEncList(elem, xs, s, i);
      assert [] + FilledItems(elem, xs) == FilledItems(elem, xs);
    case (StructOf(fs), Record(slots)) =>
      assert fs[0..] == fs;
      DecEncFields(fs, 0, slots, s, i, Initial(fs));
      FilledKeepsRequired(fs, slots, Initial(fs));
  }

  lemma {:induction false} DecEncMap(val: Ty, m: map<Text, Value>, keys: seq<Text>, s: Text, i: nat)
    requires WellFormed(val) && |keys| < MAX_SIZE
    requires forall k | k in keys :: k in m && |k| < MAX_SIZE && Fits(val, m[k])
    requires At(s, i, EncMapBegin(Tag(val), |keys|) + EncEntries(val, m, keys))
    ensures DecMap(val, s, i) == Ok(Dict(FilledEntries(val, m, keys, map[])),
                                    i + |EncMapBegin(Tag(val), |keys|)| + |EncEntries(val, m, keys)|)
    decreases val, 5, 0
  {
    hide EncEntries, DecEntries, At, WellFormed, Fits, FilledEntries, ReadMapBegin, EncMapBegin;
    var header := EncMapBegin(Tag(val), |keys|);
    AtSplit(s, i, header, EncEntries(val, m, keys));
    MapBeginAt(Tag(val), |keys|, s, i);
    DecEncEntries(val, m, keys, s, i + |header|, map[]);
  }

  lemma {:induction false} DecEncList(elem: Ty, xs: seq<Value>, s: Text, i: nat)
    requires WellFormed(elem) && |xs| < MAX_SIZE
    requires forall k | 0 <= k < |xs| :: Fits(elem, xs[k])
    requires At(s, i, EncListBegin(Tag(elem), |xs|) + EncItems(elem, xs))
    ensures DecList(elem, s, i) == Ok(Items([] + FilledItems(elem, xs)),
                                      i + |EncListBegin(Tag(elem), |xs|)| + |EncItems(elem, xs)|)
    decreases elem, 5, 0
  {
    hide EncItems, DecItems, At, WellFormed, Fits, FilledItems, ReadListBegin, EncListBegin;
    var header := EncListBegin(Tag(elem), |xs|);
    AtSplit(s, i, header, EncItems(elem, xs));
    ListBeginAt(Tag(elem), |xs|, s, i);
    DecEncItems(elem, xs, s, i + |header|, []);
  }

  lemma {:induction false} DecEncEntry(val: Ty, k: Text, v: Value, s: Text, i: nat)
    requires WellFormed(val) && |k| < MAX_SIZE && Fits(val, v) && At(s, i, EncEntry(val, k, v))
    ensures DecEntry(val, s, i) == Ok((k, Filled(val, v)), i + |EncEntry(val, k, v)|)
    decreases val, 2, 0
  {
    hide At, Dec, Enc, EncString, ReadString, Filled, Fits, WellFormed;
    AtSplit(s, i, EncString(k), Enc(val, v));
    StringAt(k, s, i);
    DecEnc(val, v, s, i + |EncString(k)|);
  }

  lemma {:induction false} DecEncEntries(val: Ty, m: map<Text, Value>, keys: seq<Text>, s: Text, i: nat,
      acc: map<Text, Value>)
    requires WellFormed(val)
    requires forall k | k in keys :: k in m && |k| < MAX_SIZE && Fits(val, m[k])
    requires At(s, i, EncEntries(val, m, keys))
    ensures DecEntries(val, |keys|, s, i, acc)
         == Ok(Dict(FilledEntries(val, m, keys, acc)), i + |EncEntries(val, m, keys)|)
    decreases val, 3, |keys|
  {
    hide DecEntry, EncEntry, Filled, Fits, WellFormed, At;
    if keys != [] {
      var k, here := keys[0], EncEntry(val, keys[0], m[keys[0]]);
      AtSplit(s, i, here, EncEntries(val, m, keys[1..]));
      DecEncEntry(val, k, m[k], s, i);
      DecEncEntries(val, m, keys[1..], s, i + |here|, acc[k := Filled(val, m[k])]);
    }
  }

  lemma {:induction false} DecEncItems(elem: Ty, xs: seq<Value>, s: Text, i: nat, acc: seq<Value>)
    requires WellFormed(elem)
    requires forall k | 0 <= k < |xs| :: Fits(elem, xs[k])
    requires At(s, i, EncItems(elem, xs))
    ensures DecItems(elem, |xs|, s, i, acc) == Ok(Items(acc + FilledItems(elem, xs)), i + |EncItems(elem, xs)|)
    decreases elem, 2, |xs|
  {
    hide Dec, Enc, Filled, Fits, WellFormed, At;
    if xs == [] {
      assert acc + [] == acc;
    } else {
      var here, v := Enc(elem, xs[0]), Filled(elem, xs[0]);
      AtSplit(s, i, here, EncItems(elem, xs[1..]));
      DecEnc(elem, xs[0], s, i);
      DecEncItems(elem, xs[1..], s, i + |here|, acc + [v]);
      assert acc + [v] + FilledItems(elem, xs[1..]) == acc + ([v] + FilledItems(elem, xs[1..]));
    }
  }

  lemma FindAt(fs: seq<Field>, n: nat)
    requires n < |fs| && WellFormed(StructOf(fs))
    ensures Find(fs, fs[n].id) == n && InRange(fs[n].id, 2) && WellFormed(fs[n].ty)
  {
    var k := Find(fs, fs[n].id);
  }

  lemma {:induction false} DecEncKnown(f: Field, v: Value, s: Text, i: nat, acc: map<int, Value>)
    requires WellFormed(f.ty) && Fits(f.ty, v) && At(s, i, Enc(f.ty, v))
    ensures DecKnown(f, s, i, acc) == Ok(acc[f.id := Filled(f.ty, v)], i + |Enc(f.ty, v)|)
    decreases f, 0
  {
    hide At, Dec, Enc, Filled, Fits, WellFormed;
    DecEnc(f.ty, v, s, i);
  }

  lemma FieldWritten(f: Field, slots: map<int, Value>, rest: Text, s: Text, i: nat)
    requires f.id in slots && InRange(f.id, 2) && At(s, i, EncField(f, slots) + rest)
    ensures ReadFieldBegin(s, i) == Ok(FieldHeader(Tag(f.ty), f.id), i + 3)
    ensures |EncField(f, slots)| == 3 + |Enc(f.ty, slots[f.id])|
    ensures At(s, i + 3, Enc(f.ty, slots[f.id])) && At(s, i + |EncField(f, slots)|, rest)
  {
    hide At, Enc, ReadFieldBegin, InRange;
    var header, body := EncFieldBegin(Tag(f.ty), f.id), Enc(f.ty, slots[f.id]);
    AtSplit(s, i, EncField(f, slots), rest);
    AtSplit(s, i, header, body);
    FieldBeginAt(Tag(f.ty), f.id, s, i);
  }

  lemma {:induction false} DecEncField(fs: seq<Field>, n: nat, slots: map<int, Value>, rest: Text, s: Text,
      i: nat, acc: map<int, Value>)
    requires n < |fs| && Find(fs, fs[n].id) == n && InRange(fs[n].id, 2) && WellFormed(fs[n].ty)
    requires fs[n].id in slots && Fits(fs[n].ty, slots[fs[n].id])
    requires At(s, i, EncField(fs[n], slots) + rest)
    ensures At(s, i + |EncField(fs[n], slots)|, rest)
    ensures DecFields(fs, s, i, acc) == DecFields(fs, s, i + |EncField(fs[n], slots)|, FilledField(fs[n], slots, acc))
    decreases fs, 0, 0
  {
    hide At, Enc, EncField, Fits, WellFormed, Filled, DecKnown, Find, ReadFieldBegin, DecFields, InRange;
    var f, v := fs[n], slots[fs[n].id];
    var h := FieldHeader(Tag(f.ty), f.id);
    FieldWritten(f, slots, rest, s, i);
    assert DecField(fs, h, s, i + 3, acc) == DecKnown(f, s, i + 3, acc);
    hide DecField;
    DecEncKnown(f, v, s, i + 3, acc);
    FieldsStep(fs, s, i, acc, h, i + 3, DecKnown(f, s, i + 3, acc));
  }

  lemma StopAt(fs: seq<Field>, s: Text, i: nat, acc: map<int, Value>)
    requires At(s, i, [STOP])
    ensures DecFields(fs, s, i, acc) == Ok(acc, i + 1)
  {
    assert s[i] == [STOP][0];
  }

  lemma {:induction false} DecEncFields(fs: seq<Field>, n: nat, slots: map<int, Value>, s: Text, i: nat,
      acc: map<int, Value>)
    requires WellFormed(StructOf(fs)) && n <= |fs|
    requires forall k | n <= k < |fs| :: fs[k].id in slots ==> Fits(fs[k].ty, slots[fs[k].id])
    requires At(s, i, EncFields(fs[n..], slots) + [STOP])
    ensures DecFields(fs, s, i, acc) == Ok(FilledFields(fs[n..], slots, acc), i + |EncFields(fs[n..], slots)| + 1)
    decreases fs, 1, |fs| - n
  {
    hide At, WellFormed, Fits, DecFields;
    if n == |fs| {
      assert EncFields(fs[n..], slots) + [STOP] == [STOP];
      StopAt(fs, s, i, acc);
    } else {
      var f, here, rest := fs[n], EncField(fs[n], slots), EncFields(fs[n + 1..], slots) + [STOP];
      assert fs[n..][1..] == fs[n + 1..];
      assert EncFields(fs[n..], slots) + [STOP] == here + rest;
      if f.id in slots {
        FindAt(fs, n);
        DecEncField(fs, n, slots, rest, s, i, acc);
      } else {
        assert here + rest == rest;
      }
      DecEncFields(fs, n + 1, slots, s, i + |here|, FilledField(f, slots, acc));
    }
  }

  lemma {:induction false} FilledKeeps(fs: seq<Field>, slots: map<int, Value>, acc: map<int, Value>, id: int)
    requires id in acc || exists k :: 0 <= k < |fs| && fs[k].id == id && id in slots
    ensures id in FilledFields(fs, slots, acc)
  {
    if fs != [] {
      var acc' := FilledField(fs[0], slots, acc);
      if id !in acc' {
        var k :| 0 <= k < |fs| && fs[k].id == id && id in slots;
        assert fs[1..][k - 1].id == id;
      }
      FilledKeeps(fs[1..], slots, acc', id);
    }
  }

  lemma FilledKeepsRequired(fs: seq<Field>, slots: map<int, Value>, acc: map<int, Value>)
    requires HasRequired(fs, slots)
    ensures HasRequired(fs, FilledFields(fs, slots, acc))
  {
    forall k | 0 <= k < |fs| && fs[k].required ensures fs[k].id in FilledFields(fs, slots, acc) {
      FilledKeeps(fs, slots, acc, fs[k].id);
    }
  }
}
