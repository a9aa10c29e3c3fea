/**
 What the field loop and the initial values mean: a struct is read the same in any field order
 and with any unknown fields in between, the last field of an id wins, and reading fills absent
 fields and nothing else.
 */
module FieldProofs {
  import opened Bytes
  import opened Protocol
  import opened Schema
  import opened SchemaProofs

  // ----- order of fields on the wire

  datatype RawField = RawField(kind: byte, id: int, body: Text)

  predicate Known(fs: seq<Field>, id: int) {
    Find(fs, id) < |fs|
  }

  /** A field any conforming writer may emit: its body is one value, readable in full. */
  predicate Readable(fs: seq<Field>, r: RawField) {
    && KnownType(r.kind) && r.kind != STOP && InRange(r.id, 2)
    && var k := Find(fs, r.id);
       if k < |fs| then Dec(fs[k].ty, r.body, 0).Ok? && Dec(fs[k].ty, r.body, 0).pos == |r.body|
       else Skip(r.kind, SKIP_DEPTH, r.body, 0) == Ok((), |r.body|)
  }

  function FieldText(r: RawField): Text {
    EncFieldBegin(r.kind, r.id) + r.body
  }

  function FieldsText(rs: seq<RawField>): Text {
    if rs == [] then [] else FieldText(rs[0]) + FieldsText(rs[1..])
  }

  function ValueOf(fs: seq<Field>, r: RawField): Value
    requires Readable(fs, r) && Known(fs, r.id)
  {
    Dec(fs[Find(fs, r.id)].ty, r.body, 0).value
  }

  /** The assignments the loop makes, in order. */
  function Assign(fs: seq<Field>, rs: seq<RawField>, acc: map<int, Value>): map<int, Value>
    requires forall k | 0 <= k < |rs| :: Readable(fs, rs[k])
  {
    if rs == [] then acc
    else Assign(fs, rs[1..], if Known(fs, rs[0].id) then acc[rs[0].id := ValueOf(fs, rs[0])] else acc)
  }

  lemma ReadableAnywhere(fs: seq<Field>, r: RawField, s: Text, i: nat, acc: map<int, Value>)
    requires Readable(fs, r) && At(s, i, r.body)
    ensures DecField(fs, FieldHeader(r.kind, r.id), s, i, acc)
         == Ok(if Known(fs, r.id) then acc[r.id := ValueOf(fs, r)] else acc, i + |r.body|)
  {
    hide At, Dec, Skip, Find;
    var k := Find(fs, r.id);
    if k < |fs| {
      DecLocal(fs[k].ty, r.body, s, i, 0);
    } else {
      SkipLocal(r.kind, SKIP_DEPTH, r.body, s, i, 0);
    }
  }

  lemma {:induction false} FieldLoop(fs: seq<Field>, rs: seq<RawField>, s: Text, i: nat, acc: map<int, Value>)
    requires forall k | 0 <= k < |rs| :: Readable(fs, rs[k])
    requires At(s, i, FieldsText(rs) + [STOP])
    ensures DecFields(fs, s, i, acc) == Ok(Assign(fs, rs, acc), i + |FieldsText(rs)| + 1)
  {
    hide At, DecFields, DecField, ReadFieldBegin, EncFieldBegin, Known, ValueOf;
    if rs == [] {
      assert FieldsText(rs) + [STOP] == [STOP];
      StopAt(fs, s, i, acc);
    } else {
      var r, rest := rs[0], FieldsText(rs[1..]) + [STOP];
      assert FieldsText(rs) + [STOP] == FieldText(r) + rest;
      AtSplit(s, i, FieldText(r), rest);
      AtSplit(s, i, EncFieldBegin(r.kind, r.id), r.body);
      FieldBeginAt(r.kind, r.id, s, i);
      var acc' := if Known(fs, r.id) then acc[r.id := ValueOf(fs, r)] else acc;
      ReadableAnywhere(fs, r, s, i + 3, acc);
      FieldsStep(fs, s, i, acc, FieldHeader(r.kind, r.id), i + 3, Ok(acc', i + 3 + |r.body|));
      FieldLoop(fs, rs[1..], s, i + |FieldText(r)|, acc');
    }
  }

  /** The last field carrying `id`. */
  function Last(rs: seq<RawField>, id: int): (r: Option<RawField>)
    ensures r.Some? ==> r.value in rs && r.value.id == id
    ensures r.None? ==> forall k | 0 <= k < |rs| :: rs[k].id != id
  {
    if rs == [] then None
    else
      var later := Last(rs[1..], id);
      if later.Some? then later else if rs[0].id == id then Some(rs[0]) else None
  }

  lemma {:induction false} AssignLast(fs: seq<Field>, rs: seq<RawField>, acc: map<int, Value>, id: int)
    requires forall k | 0 <= k < |rs| :: Readable(fs, rs[k])
    ensures var out := Assign(fs, rs, acc);
            if Known(fs, id) && Last(rs, id).Some? then id in out && out[id] == ValueOf(fs, Last(rs, id).value)
            else (id in out <==> id in acc) && (id in acc ==> out[id] == acc[id])
  {
    hide Readable, Known, ValueOf;
    if rs != [] {
      var acc' := if Known(fs, rs[0].id) then acc[rs[0].id := ValueOf(fs, rs[0])] else acc;
      AssignLast(fs, rs[1..], acc', id);
    }
  }

  /** Two field lists are read alike when they agree on the last field of every known id. */
  lemma LastFieldWins(fs: seq<Field>, rs: seq<RawField>, qs: seq<RawField>, acc: map<int, Value>)
    requires forall k | 0 <= k < |rs| :: Readable(fs, rs[k])
    requires forall k | 0 <= k < |qs| :: Readable(fs, qs[k])
    requires forall id | Known(fs, id) :: Last(rs, id) == Last(qs, id)
    ensures Assign(fs, rs, acc) == Assign(fs, qs, acc)
  {
    hide Readable, ValueOf, Assign, Last;
    var a, b := Assign(fs, rs, acc), Assign(fs, qs, acc);
    forall id ensures (id in a <==> id in b) && (id in a ==> a[id] == b[id]) {
      AssignLast(fs, rs, acc, id);
      AssignLast(fs, qs, acc, id);
    }
  }

  predicate DistinctIds(rs: seq<RawField>) {
    forall j, k | 0 <= j < k < |rs| :: rs[j].id != rs[k].id
  }

  lemma LastOfDistinct(rs: seq<RawField>, qs: seq<RawField>, id: int)
    requires DistinctIds(rs) && multiset(rs) == multiset(qs)
    ensures Last(rs, id) == Last(qs, id)
  {
    var a, b := Last(rs, id), Last(qs, id);
    if b.Some? {
      assert b.value in multiset(rs);
      var k :| 0 <= k < |rs| && rs[k] == b.value;
    }
    if a.Some? {
      assert a.value in multiset(qs);
      var k :| 0 <= k < |qs| && qs[k] == a.value;
    }
  }

  function StructText(rs: seq<RawField>): Text {
    FieldsText(rs) + [STOP]
  }

  predicate AllReadable(fs: seq<Field>, rs: seq<RawField>) {
    forall k | 0 <= k < |rs| :: Readable(fs, rs[k])
  }

  /** Both reads succeed with the same value, or fail with the same fault. */
  predicate SameReading<T(==)>(a: Res<T>, b: Res<T>) {
    if a.Ok? then b.Ok? && a.value == b.value else b.Err? && a.fault == b.fault
  }

  lemma StructRead(fs: seq<Field>, rs: seq<RawField>)
    requires AllReadable(fs, rs)
    ensures var slots, end := Assign(fs, rs, Initial(fs)), |StructText(rs)|;
            Dec(StructOf(fs), StructText(rs), 0)
            == if HasRequired(fs, slots) then Ok(Record(slots), end) else Err(MissingField, end)
  {
    hide Readable, FieldsText, DecFields, Assign, HasRequired, Initial;
    FieldLoop(fs, rs, StructText(rs), 0, Initial(fs));
  }

  /** A struct's reading is a function of the last field of each known id. */
  lemma ReadingByLast(fs: seq<Field>, rs: seq<RawField>, qs: seq<RawField>)
    requires AllReadable(fs, rs) && AllReadable(fs, qs)
    requires forall id | Known(fs, id) :: Last(rs, id) == Last(qs, id)
    ensures SameReading(Dec(StructOf(fs), StructText(rs), 0), Dec(StructOf(fs), StructText(qs), 0))
  {
    hide Readable, StructText, Dec, Assign, HasRequired, Initial, Last;
    StructRead(fs, rs);
    StructRead(fs, qs);
    LastFieldWins(fs, rs, qs, Initial(fs));
  }

  /** A struct is read the same whatever order its fields arrive in. */
  lemma FieldOrderIrrelevant(fs: seq<Field>, rs: seq<RawField>, qs: seq<RawField>)
    requires AllReadable(fs, rs) && DistinctIds(rs) && multiset(rs) == multiset(qs)
    ensures SameReading(Dec(StructOf(fs), StructText(rs), 0), Dec(StructOf(fs), StructText(qs), 0))
  {
    hide Readable, Dec, StructText, Last, Known;
    forall k | 0 <= k < |qs| ensures Readable(fs, qs[k]) {
      assert qs[k] in multiset(qs);
      var j :| 0 <= j < |rs| && rs[j] == qs[k];
    }
    forall id ensures Last(rs, id) == Last(qs, id) { LastOfDistinct(rs, qs, id); }
    ReadingByLast(fs, rs, qs);
  }

  lemma LastConcat(rs: seq<RawField>, qs: seq<RawField>, id: int)
    ensures Last(rs + qs, id) == if Last(qs, id).Some? then Last(qs, id) else Last(rs, id)
  {
    if rs == [] {
      assert rs + qs == qs;
    } else {
      assert (rs + qs)[1..] == rs[1..] + qs;
      LastConcat(rs[1..], qs, id);
    }
  }

  /** Fields a reader does not know, anywhere among the others, leave what it reads unchanged. */
  lemma UnknownFieldsIgnored(fs: seq<Field>, before: seq<RawField>, extra: seq<RawField>, after: seq<RawField>)
    requires AllReadable(fs, before) && AllReadable(fs, extra) && AllReadable(fs, after)
    requires forall r | r in extra :: !Known(fs, r.id)
    ensures SameReading(Dec(StructOf(fs), StructText(before + extra + after), 0),
                        Dec(StructOf(fs), StructText(before + after), 0))
  {
    hide Readable, Dec, StructText, Last, Known;
    forall id | Known(fs, id) ensures Last(before + extra + after, id) == Last(before + after, id) {
      LastConcat(before + extra, after, id);
      LastConcat(before, extra, id);
      LastConcat(before, after, id);
    }
    ReadingByLast(fs, before + extra + after, before + after);
  }

  // ----- initial values

  lemma {:induction false} InitialAt(fs: seq<Field>, acc: map<int, Value>, k: nat)
    requires k < |fs| && WellFormed(StructOf(fs))
    ensures var id, out := fs[k].id, InitialFrom(fs, acc);
            if fs[k].initial.Some? then id in out && out[id] == fs[k].initial.value
            else (id in out <==> id in acc) && (id in acc ==> out[id] == acc[id])
  {
    var acc' := if fs[0].initial.Some? then acc[fs[0].id := fs[0].initial.value] else acc;
    if k > 0 {
      InitialAt(fs[1..], acc', k - 1);
    } else {
      InitialElsewhere(fs[1..], acc', fs[0].id);
    }
  }

  lemma {:induction false} InitialElsewhere(fs: seq<Field>, acc: map<int, Value>, id: int)
    requires forall k | 0 <= k < |fs| :: fs[k].id != id
    ensures var out := InitialFrom(fs, acc); (id in out <==> id in acc) && (id in acc ==> out[id] == acc[id])
  {
    if fs != [] {
      InitialElsewhere(fs[1..], if fs[0].initial.Some? then acc[fs[0].id := fs[0].initial.value] else acc, id);
    }
  }

  lemma {:induction false} FilledElsewhere(fs: seq<Field>, slots: map<int, Value>, acc: map<int, Value>, id: int)
    requires forall k | 0 <= k < |fs| :: fs[k].id != id
    ensures var out := FilledFields(fs, slots, acc); (id in out <==> id in acc) && (id in acc ==> out[id] == acc[id])
  {
    hide Filled;
    if fs != [] { FilledElsewhere(fs[1..], slots, FilledField(fs[0], slots, acc), id); }
  }

  lemma {:induction false} FilledFieldsAt(fs: seq<Field>, slots: map<int, Value>, acc: map<int, Value>, k: nat)
    requires k < |fs| && WellFormed(StructOf(fs))
    ensures var id, out := fs[k].id, FilledFields(fs, slots, acc);
            if id in slots then id in out && out[id] == Filled(fs[k].ty, slots[id])
            else (id in out <==> id in acc) && (id in acc ==> out[id] == acc[id])
  {
    hide Filled;
    if k > 0 {
      FilledFieldsAt(fs[1..], slots, FilledField(fs[0], slots, acc), k - 1);
    } else {
      FilledElsewhere(fs[1..], slots, FilledField(fs[0], slots, acc), fs[0].id);
    }
  }

  /** What reading gives each field: the written value, else the initial one, else nothing. */
  lemma FilledStruct(fs: seq<Field>, slots: map<int, Value>, k: nat)
    requires WellFormed(StructOf(fs)) && k < |fs|
    ensures Filled(StructOf(fs), Record(slots)).Record?
    ensures var id, out := fs[k].id, Filled(StructOf(fs), Record(slots)).slots;
            if id in slots then id in out && out[id] == Filled(fs[k].ty, slots[id])
            else if fs[k].initial.Some? then id in out && out[id] == fs[k].initial.value
            else id !in out
  {
    InitialAt(fs, map[], k);
    FilledFieldsAt(fs, slots, Initial(fs), k);
  }

  lemma FilledOnlyKnown(fs: seq<Field>, slots: map<int, Value>, id: int)
    requires id in FilledFields(fs, slots, Initial(fs))
    ensures Known(fs, id)
  {
    if !Known(fs, id) {
      InitialElsewhere(fs, map[], id);
      FilledElsewhere(fs, slots, Initial(fs), id);
    }
  }

  lemma {:induction false} FilledEntriesAt(val: Ty, m: map<Text, Value>, keys: seq<Text>, acc: map<Text, Value>,
      k: Text)
    requires forall j | j in keys :: j in m
    ensures var out := FilledEntries(val, m, keys, acc);
            if k in keys then k in out && out[k] == Filled(val, m[k])
            else (k in out <==> k in acc) && (k in acc ==> out[k] == acc[k])
  {
    hide Filled;
    if keys != [] {
      FilledEntriesAt(val, m, keys[1..], acc[keys[0] := Filled(val, m[keys[0]])], k);
    }
  }

  /** No field with an initial value is absent, at any level. */
  ghost predicate Complete(ty: Ty, v: Value)
    decreases ty
  {
    match (ty, v)
    case (MapOf(val), Dict(m)) => forall k | k in m.Keys :: Complete(val, m[k])
    case (ListOf(elem), Items(xs)) => forall k | 0 <= k < |xs| :: Complete(elem, xs[k])
    case (StructOf(fs), Record(slots)) =>
      && (forall id | id in slots.Keys :: Known(fs, id))
      && (forall k | 0 <= k < |fs| :: fs[k].initial.Some? ==> fs[k].id in slots)
      && (forall k | 0 <= k < |fs| :: fs[k].id in slots ==> Complete(fs[k].ty, slots[fs[k].id]))
    case _ => true
  }

  ghost predicate InitialsComplete(ty: Ty)
    decreases ty
  {
    match ty
    case MapOf(val) => InitialsComplete(val)
    case ListOf(elem) => InitialsComplete(elem)
    case StructOf(fs) =>
      && (forall k | 0 <= k < |fs| :: fs[k].initial.Some? ==> Complete(fs[k].ty, fs[k].initial.value))
      && (forall k | 0 <= k < |fs| :: InitialsComplete(fs[k].ty))
    case _ => true
  }

  /** Read after write is the identity on a complete value. */
  lemma {:induction false} FilledIdentity(ty: Ty, v: Value)
    requires WellFormed(ty) && Complete(ty, v)
    ensures Filled(ty, v) == v
    decreases ty, 1
  {
    match (ty, v)
    case (MapOf(val), Dict(m)) =>
      var keys := SortedKeys(m.Keys);
      forall k
        ensures var out := FilledEntries(val, m, keys, map[]);
            (k in out <==> k in m) && (k in m ==> out[k] == m[k])
      {
        FilledEntriesAt(val, m, keys, map[], k);
        if k in m.Keys { FilledIdentity(val, m[k]); }
      }
      assert FilledEntries(val, m, keys, map[]) == m;
    case (ListOf(elem), Items(xs)) => FilledItemsIdentity(elem, xs);
    case (StructOf(fs), Record(slots)) => FilledStructIdentity(fs, slots);
    case _ =>
  }

  lemma {:induction false} FilledItemsIdentity(elem: Ty, xs: seq<Value>)
    requires WellFormed(elem) && forall k | 0 <= k < |xs| :: Complete(elem, xs[k])
    ensures FilledItems(elem, xs) == xs
    decreases elem, 2, |xs|
  {
    hide WellFormed, Complete, Filled;
    if xs != [] {
      FilledIdentity(elem, xs[0]);
      FilledItemsIdentity(elem, xs[1..]);
    }
  }

  lemma {:induction false} FilledFieldIdentity(f: Field, slots: map<int, Value>)
    requires WellFormed(f.ty) && f.id in slots && Complete(f.ty, slots[f.id])
    ensures Filled(f.ty, slots[f.id]) == slots[f.id]
    decreases f, 0
  {
    FilledIdentity(f.ty, slots[f.id]);
  }

  lemma {:induction false} FilledStructIdentity(fs: seq<Field>, slots: map<int, Value>)
    requires WellFormed(StructOf(fs)) && Complete(StructOf(fs), Record(slots))
    ensures FilledFields(fs, slots, Initial(fs)) == slots
    decreases fs, 1
  {
    var out := FilledFields(fs, slots, Initial(fs));
    forall id ensures (id in out <==> id in slots) && (id in slots ==> out[id] == slots[id]) {
      if id in out { FilledOnlyKnown(fs, slots, id); }
      if Known(fs, id) {
        var k := Find(fs, id);
        FilledStruct(fs, slots, k);
        if id in slots { FilledFieldIdentity(fs[k], slots); }
      } else {
        assert id !in slots.Keys;
      }
    }
  }

  lemma {:induction false} FilledIsComplete(ty: Ty, v: Value)
    requires WellFormed(ty) && InitialsComplete(ty)
    ensures Complete(ty, Filled(ty, v))
    decreases ty, 1
  {
    match (ty, v)
    case (MapOf(val), Dict(m)) =>
      var keys := SortedKeys(m.Keys);
      forall k | k in FilledEntries(val, m, keys, map[]) ensures Complete(val, FilledEntries(val, m, keys, map[])[k]) {
        FilledEntriesAt(val, m, keys, map[], k);
        FilledIsComplete(val, m[k]);
      }
    case (ListOf(elem), Items(xs)) => FilledItemsComplete(elem, xs);
    case (StructOf(fs), Record(slots)) =>
      forall k | 0 <= k < |fs| && fs[k].id in Filled(ty, v).slots
        ensures Complete(fs[k].ty, Filled(ty, v).slots[fs[k].id])
      {
        FilledStruct(fs, slots, k);
        if fs[k].id in slots { FilledFieldComplete(fs[k], slots[fs[k].id]); }
      }
      forall k | 0 <= k < |fs| && fs[k].initial.Some?
        ensures fs[k].id in Filled(ty, v).slots
      {
        FilledStruct(fs, slots, k);
      }
      forall id | id in Filled(ty, v).slots.Keys ensures Known(fs, id) { FilledOnlyKnown(fs, slots, id); }
    case _ =>
  }

  lemma {:induction false} FilledFieldComplete(f: Field, v: Value)
    requires WellFormed(f.ty) && InitialsComplete(f.ty)
    ensures Complete(f.ty, Filled(f.ty, v))
    decreases f, 0
  {
    FilledIsComplete(f.ty, v);
  }

  lemma {:induction false} FilledItemsComplete(elem: Ty, xs: seq<Value>)
    requires WellFormed(elem) && InitialsComplete(elem)
    ensures forall k | 0 <= k < |xs| :: Complete(elem, FilledItems(elem, xs)[k])
    decreases elem, 2, |xs|
  {
    hide WellFormed, Complete, Filled, InitialsComplete;
    if xs != [] {
      FilledIsComplete(elem, xs[0]);
      FilledItemsComplete(elem, xs[1..]);
    }
  }

  /** Reading and writing again changes nothing more. */
  lemma FilledIdempotent(ty: Ty, v: Value)
    requires WellFormed(ty) && InitialsComplete(ty)
    ensures Filled(ty, Filled(ty, v)) == Filled(ty, v)
  {
    FilledIsComplete(ty, v);
    FilledIdentity(ty, Filled(ty, v));
  }

  // ----- what is filled still fits

  ghost predicate InitialsFit(ty: Ty)
    decreases ty
  {
    match ty
    case MapOf(val) => InitialsFit(val)
    case ListOf(elem) => InitialsFit(elem)
    case StructOf(fs) =>
      && (forall k | 0 <= k < |fs| :: fs[k].initial.Some? ==> Fits(fs[k].ty, fs[k].initial.value))
      && (forall k | 0 <= k < |fs| :: InitialsFit(fs[k].ty))
    case _ => true
  }

  lemma {:induction false} FilledFits(ty: Ty, v: Value)
    requires WellFormed(ty) && InitialsFit(ty) && Fits(ty, v)
    ensures Fits(ty, Filled(ty, v))
    decreases ty, 1
  {
    match (ty, v)
    case (MapOf(val), Dict(m)) => FilledMapFits(val, m);
    case (ListOf(elem), Items(xs)) => FilledItemsFit(elem, xs);
    case (StructOf(fs), Record(slots)) => FilledStructFits(fs, slots);
    case _ =>
  }

  lemma {:induction false} FilledMapFits(val: Ty, m: map<Text, Value>)
    requires WellFormed(val) && InitialsFit(val) && Fits(MapOf(val), Dict(m))
    ensures Fits(MapOf(val), Filled(MapOf(val), Dict(m)))
    decreases val, 3
  {
    var keys := SortedKeys(m.Keys);
    var out := FilledEntries(val, m, keys, map[]);
    forall k ensures (k in out <==> k in m) && (k in m ==> out[k] == Filled(val, m[k])) {
      FilledEntriesAt(val, m, keys, map[], k);
    }
    assert out.Keys == m.Keys;
    assert |out| == |out.Keys| && |m| == |m.Keys|;
    forall k | k in out.Keys ensures |k| < MAX_SIZE && Fits(val, out[k]) {
      assert k in m.Keys;
      FilledFits(val, m[k]);
    }
    hide Fits, FilledEntries;
    assert Filled(MapOf(val), Dict(m)) == Dict(out);
    DictFits(val, out);
  }

  lemma DictFits(val: Ty, m: map<Text, Value>)
    requires |m| < MAX_SIZE && forall k | k in m.Keys :: |k| < MAX_SIZE && Fits(val, m[k])
    ensures Fits(MapOf(val), Dict(m))
  {
  }

  lemma {:induction false} FilledItemsFit(elem: Ty, xs: seq<Value>)
    requires WellFormed(elem) && InitialsFit(elem) && forall k | 0 <= k < |xs| :: Fits(elem, xs[k])
    ensures forall k | 0 <= k < |xs| :: Fits(elem, FilledItems(elem, xs)[k])
    decreases elem, 2, |xs|
  {
    hide WellFormed, Fits, Filled, InitialsFit;
    if xs != [] {
      FilledFits(elem, xs[0]);
      FilledItemsFit(elem, xs[1..]);
    }
  }

  lemma {:induction false} FilledFieldFits(f: Field, v: Value)
    requires WellFormed(f.ty) && InitialsFit(f.ty) && Fits(f.ty, v)
    ensures Fits(f.ty, Filled(f.ty, v))
    decreases f, 0
  {
    FilledFits(f.ty, v);
  }

  lemma {:induction false} FilledStructFits(fs: seq<Field>, slots: map<int, Value>)
    requires WellFormed(StructOf(fs)) && InitialsFit(StructOf(fs)) && Fits(StructOf(fs), Record(slots))
    ensures Fits(StructOf(fs), Filled(StructOf(fs), Record(slots)))
    decreases fs, 1
  {
    var out := Filled(StructOf(fs), Record(slots)).slots;
    forall k | 0 <= k < |fs|
      ensures (fs[k].required ==> fs[k].id in out) && (fs[k].id in out ==> Fits(fs[k].ty, out[fs[k].id]))
    {
      FilledStruct(fs, slots, k);
      if fs[k].id in slots { FilledFieldFits(fs[k], slots[fs[k].id]); }
    }
  }
}
