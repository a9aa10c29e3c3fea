/**
 The generated readers and writers. Every `read_from_in_protocol`/`write_to_out_protocol` pair
 is the compiler's one template filled in with a list of fields, so the template is what is
 modelled: `Dec` and `Enc` take the type, and a struct's fields carry id, type, initial value
 and whether the reader insists on them.
 */
module Schema {
  import opened Bytes
  import opened Protocol

  datatype Value =
    | Int(n: int)
    | Str(text: Text)
    | Dict(entries: map<Text, Value>)
    | Items(items: seq<Value>)
    | Record(slots: map<int, Value>)

  datatype Ty =
    | I32
    | I64
    | String
    | MapOf(val: Ty)
    | ListOf(elem: Ty)
    | StructOf(fields: seq<Field>)

  datatype Field = Field(id: int, ty: Ty, initial: Option<Value>, required: bool)

  function Tag(ty: Ty): byte {
    match ty
    case I32 => I32_TAG
    case I64 => I64_TAG
    case String => STRING
    case MapOf(_) => MAP
    case ListOf(_) => LIST
    case StructOf(_) => STRUCT
  }

  /** Index of the field with the given id, or |fs|. */
  function Find(fs: seq<Field>, id: int): (k: nat)
    ensures k <= |fs|
    ensures k < |fs| ==> fs[k].id == id
    ensures forall j | 0 <= j < k :: fs[j].id != id
  {
    if fs == [] || fs[0].id == id then 0 else 1 + Find(fs[1..], id)
  }

  function InitialFrom(fs: seq<Field>, acc: map<int, Value>): map<int, Value> {
    if fs == [] then acc else
      InitialFrom(fs[1..], if fs[0].initial.Some? then acc[fs[0].id := fs[0].initial.value] else acc)
  }

  /** The `f_1..f_4` of a reader before its loop. */
  function Initial(fs: seq<Field>): map<int, Value> {
    InitialFrom(fs, map[])
  }

  predicate HasRequired(fs: seq<Field>, slots: map<int, Value>) {
    forall k | 0 <= k < |fs| :: fs[k].required ==> fs[k].id in slots
  }

  // ----- reading

  function Dec(ty: Ty, s: Text, i: nat): (r: Res<Value>)
    requires i <= |s|
    ensures r.Within(i, |s|)
    decreases ty, 2, |s| - i
  {
    match ty
    case I32 =>
      var (n, j) :- ReadInt(s, i, 4);
      Ok(Int(n), j)
    case I64 =>
      var (n, j) :- ReadInt(s, i, 8);
      Ok(Int(n), j)
    case String =>
      var (t, j) :- ReadString(s, i);
      Ok(Str(t), j)
    case MapOf(val) => DecMap(val, s, i)
    case ListOf(elem) => DecList(elem, s, i)
    case StructOf(fs) =>
      var (slots, j) :- DecFields(fs, s, i, Initial(fs));
      if HasRequired(fs, slots) then Ok(Record(slots), j) else Err(MissingField, j)
  }

  function DecMap(val: Ty, s: Text, i: nat): (r: Res<Value>)
    requires i <= |s|
    ensures r.Within(i, |s|)
    decreases val, 5, 0
  {
    var (h, j) :- ReadMapBegin(s, i);
    DecEntries(val, h.size, s, j, map[])
  }

  function DecEntry(val: Ty, s: Text, i: nat): (r: Res<(Text, Value)>)
    requires i <= |s|
    ensures r.Within(i, |s|)
    decreases val, 3, 0
  {
    var (k, j) :- ReadString(s, i);
    var (v, l) :- Dec(val, s, j);
    Ok((k, v), l)
  }

  function DecEntries(val: Ty, n: nat, s: Text, i: nat, acc: map<Text, Value>): (r: Res<Value>)
    requires i <= |s|
    ensures r.Within(i, |s|)
    decreases val, 4, n
  {
    if n == 0 then Ok(Dict(acc), i) else
      var (e, j) :- DecEntry(val, s, i);
      DecEntries(val, n - 1, s, j, acc[e.0 := e.1])
  }

  function DecList(elem: Ty, s: Text, i: nat): (r: Res<Value>)
    requires i <= |s|
    ensures r.Within(i, |s|)
    decreases elem, 5, 0
  {
    var (h, j) :- ReadListBegin(s, i);
    DecItems(elem, h.size, s, j, [])
  }

  function DecItems(elem: Ty, n: nat, s: Text, i: nat, acc: seq<Value>): (r: Res<Value>)
    requires i <= |s|
    ensures r.Within(i, |s|)
    decreases elem, 3, n
  {
    if n == 0 then Ok(Items(acc), i) else
      var (v, j) :- Dec(elem, s, i);
      DecItems(elem, n - 1, s, j, acc + [v])
  }

  /** The field loop: a known id is read as its field's type, any other is skipped by wire type. */
  function DecFields(fs: seq<Field>, s: Text, i: nat, slots: map<int, Value>): (r: Res<map<int, Value>>)
    requires i <= |s|
    ensures r.Within(i, |s|)
    decreases fs, 1, |s| - i
  {
    var (h, j) :- ReadFieldBegin(s, i);
    if h.kind == STOP then Ok(slots, j) else
      var (slots', k) :- DecField(fs, h, s, j, slots);
      DecFields(fs, s, k, slots')
  }

  function DecField(fs: seq<Field>, h: FieldHeader, s: Text, i: nat, slots: map<int, Value>): (r: Res<map<int, Value>>)
    requires i <= |s|
    ensures r.Within(i, |s|)
    decreases fs, 0, 0
  {
    var f := Find(fs, h.id);
    if f < |fs| then
      DecKnown(fs[f], s, i, slots)
    else
      var (_, j) :- Skip(h.kind, SKIP_DEPTH, s, i);
      Ok(slots, j)
  }

  function DecKnown(f: Field, s: Text, i: nat, slots: map<int, Value>): (r: Res<map<int, Value>>)
    requires i <= |s|
    ensures r.Within(i, |s|)
    decreases f, 0, 0
  {
    var (v, j) :- Dec(f.ty, s, i);
    Ok(slots[f.id := v], j)
  }

  // ----- writing

  function EncString(t: Text): Text {
    EncInt(|t|, 4) + t
  }

  function EncFieldBegin(kind: byte, id: int): (r: Text)
    ensures |r| == 3
  {
    [kind] + EncInt(id, 2)
  }

  /** Every map in the interface is keyed by strings. */
  function EncMapBegin(val: byte, n: nat): (r: Text)
    ensures |r| == 6
  {
    [STRING, val] + EncInt(n, 4)
  }

  function EncListBegin(elem: byte, n: nat): (r: Text)
    ensures |r| == 5
  {
    [elem] + EncInt(n, 4)
  }

  ghost function Enc(ty: Ty, v: Value): Text
    decreases ty, 1, v
  {
    match (ty, v)
    case (I32, Int(n)) => EncInt(n, 4)
    case (I64, Int(n)) => EncInt(n, 8)
    case (String, Str(t)) => EncString(t)
    case (MapOf(val), Dict(m)) => EncMapBegin(Tag(val), |m|) + EncEntries(val, m, SortedKeys(m.Keys))
    case (ListOf(elem), Items(xs)) => EncListBegin(Tag(elem), |xs|) + EncItems(elem, xs)
    case (StructOf(fs), Record(slots)) => EncFields(fs, slots) + [STOP]
    case _ => []
  }

  ghost function EncEntry(val: Ty, k: Text, v: Value): Text
    decreases val, 2, 0
  {
    EncString(k) + Enc(val, v)
  }

  ghost function EncEntries(val: Ty, m: map<Text, Value>, keys: seq<Text>): Text
    requires forall k | k in keys :: k in m
    decreases val, 3, |keys|
  {
    if keys == [] then [] else EncEntry(val, keys[0], m[keys[0]]) + EncEntries(val, m, keys[1..])
  }

  ghost function EncItems(elem: Ty, xs: seq<Value>): Text
    decreases elem, 2, |xs|
  {
    if xs == [] then [] else Enc(elem, xs[0]) + EncItems(elem, xs[1..])
  }

  ghost function EncFields(fs: seq<Field>, slots: map<int, Value>): Text
    decreases fs, 0, slots
  {
    if fs == [] then [] else EncField(fs[0], slots) + EncFields(fs[1..], slots)
  }

  ghost function EncField(f: Field, slots: map<int, Value>): Text
    decreases f, 0, slots
  {
    if f.id in slots then EncFieldBegin(Tag(f.ty), f.id) + Enc(f.ty, slots[f.id]) else []
  }

  // ----- what a reader makes of a written value

  /** Field ids are distinct and fit in an i16, at every level. */
  ghost predicate WellFormed(ty: Ty)
    decreases ty
  {
    match ty
    case MapOf(val) => WellFormed(val)
    case ListOf(elem) => WellFormed(elem)
    case StructOf(fs) =>
      && (forall k | 0 <= k < |fs| :: InRange(fs[k].id, 2) && WellFormed(fs[k].ty))
      && (forall j, k | 0 <= j < k < |fs| :: fs[j].id != fs[k].id)
    case _ => true
  }

  const MAX_SIZE: nat := 0x8000_0000

  /** The Rust value has type `ty`, and no string or container reaches 2^31. */
  ghost predicate Fits(ty: Ty, v: Value)
    decreases ty
  {
    match (ty, v)
    case (I32, Int(n)) => InRange(n, 4)
    case (I64, Int(n)) => InRange(n, 8)
    case (String, Str(t)) => |t| < MAX_SIZE
    case (MapOf(val), Dict(m)) => |m| < MAX_SIZE && forall k | k in m.Keys :: |k| < MAX_SIZE && Fits(val, m[k])
    case (ListOf(elem), Items(xs)) => |xs| < MAX_SIZE && forall k | 0 <= k < |xs| :: Fits(elem, xs[k])
    case (StructOf(fs), Record(slots)) =>
      && HasRequired(fs, slots)
      && (forall k | 0 <= k < |fs| :: fs[k].id in slots ==> Fits(fs[k].ty, slots[fs[k].id]))
    case _ => false
  }

  /** `v` with every absent field set to the initial value its reader gives it. */
  ghost function Filled(ty: Ty, v: Value): Value
    decreases ty, 1
  {
    match (ty, v)
    case (MapOf(val), Dict(m)) => Dict(FilledEntries(val, m, SortedKeys(m.Keys), map[]))
    case (ListOf(elem), Items(xs)) => Items(FilledItems(elem, xs))
    case (StructOf(fs), Record(slots)) => Record(FilledFields(fs, slots, Initial(fs)))
    case _ => v
  }

  ghost function FilledEntries(val: Ty, m: map<Text, Value>, keys: seq<Text>, acc: map<Text, Value>): map<Text, Value>
    requires forall k | k in keys :: k in m
    decreases val, 2, |keys|
  {
    if keys == [] then acc else
      FilledEntries(val, m, keys[1..], acc[keys[0] := Filled(val, m[keys[0]])])
  }

  ghost function FilledItems(elem: Ty, xs: seq<Value>): (r: seq<Value>)
    ensures |r| == |xs|
    decreases elem, 2, |xs|
  {
    if xs == [] then [] else [Filled(elem, xs[0])] + FilledItems(elem, xs[1..])
  }

  ghost function FilledFields(fs: seq<Field>, slots: map<int, Value>, acc: map<int, Value>): map<int, Value>
    decreases fs, 0
  {
    if fs == [] then acc else FilledFields(fs[1..], slots, FilledField(fs[0], slots, acc))
  }

  ghost function FilledField(f: Field, slots: map<int, Value>, acc: map<int, Value>): map<int, Value>
    decreases f, 0
  {
    if f.id in slots then acc[f.id := Filled(f.ty, slots[f.id])] else acc
  }
}
