/**
 Thrift values as the specification writes them (Apache Thrift specification, "Thrift Binary protocol
 encoding", sections "Base types", "Struct", "List and Set" and "Map"), whatever schema they belong to.
 Skipping passes over exactly such a value, and everything the generated writers emit is one.
 */
module ThriftValues {
  import opened Bytes
  import opened Protocol
  import opened Schema
  import opened SchemaProofs
  import opened FieldProofs
  import opened Wire

  datatype Datum =
    | TBool(flag: byte)
    | TByte(octet: byte)
    | TDouble(bits: Text)
    | TI16(n: int)
    | TI32(n: int)
    | TI64(n: int)
    | TBinary(text: Text)
    | TStruct(members: seq<Member>)
    | TMap(key: byte, val: byte, entries: seq<Entry>)
    | TSet(elem: byte, items: seq<Datum>)
    | TList(elem: byte, items: seq<Datum>)

  datatype Member = Member(id: int, datum: Datum)

  datatype Entry = Entry(key: Datum, val: Datum)

  /** The type byte a value is announced with. */
  function Code(d: Datum): byte {
    match d
    case TBool(_) => 2
    case TByte(_) => 3
    case TDouble(_) => 4
    case TI16(_) => 6
    case TI32(_) => 8
    case TI64(_) => 10
    case TBinary(_) => 11
    case TStruct(_) => 12
    case TMap(_, _, _) => 13
    case TSet(_, _) => 14
    case TList(_, _) => 15
  }

  function Text4(n: nat): Text {
    EncInt(n, 4)
  }

  function Written(d: Datum): Text
    decreases d
  {
    match d
    case TBool(flag) => [flag]
    case TByte(octet) => [octet]
    case TDouble(bits) => bits
    case TI16(n) => EncInt(n, 2)
    case TI32(n) => EncInt(n, 4)
    case TI64(n) => EncInt(n, 8)
    case TBinary(text) => Text4(|text|) + text
    case TStruct(members) => MembersWritten(members) + [0]
    case TMap(key, val, entries) => [key, val] + Text4(|entries|) + EntriesWritten(entries)
    case TSet(elem, items) => [elem] + Text4(|items|) + ItemsWritten(items)
    case TList(elem, items) => [elem] + Text4(|items|) + ItemsWritten(items)
  }

  function MemberWritten(m: Member): Text
    decreases m
  {
    [Code(m.datum)] + EncInt(m.id, 2) + Written(m.datum)
  }

  function MembersWritten(members: seq<Member>): Text
    decreases members
  {
    if members == [] then [] else MemberWritten(members[0]) + MembersWritten(members[1..])
  }

  function EntryWritten(e: Entry): Text
    decreases e
  {
    Written(e.key) + Written(e.val)
  }

  function EntriesWritten(entries: seq<Entry>): Text
    decreases entries
  {
    if entries == [] then [] else EntryWritten(entries[0]) + EntriesWritten(entries[1..])
  }

  function ItemsWritten(items: seq<Datum>): Text
    decreases items
  {
    if items == [] then [] else Written(items[0]) + ItemsWritten(items[1..])
  }

  /** Elements have the types their container announces, and no size reaches 2^31. */
  predicate Sound(d: Datum)
    decreases d
  {
    match d
    case TDouble(bits) => |bits| == 8
    case TBinary(text) => |text| < MAX_SIZE
    case TStruct(members) => forall k | 0 <= k < |members| :: Sound(members[k].datum)
    case TMap(key, val, entries) =>
      && |entries| < MAX_SIZE && KnownType(key) && KnownType(val)
      && forall k | 0 <= k < |entries| ::
           && Code(entries[k].key) == key && Code(entries[k].val) == val
           && Sound(entries[k].key) && Sound(entries[k].val)
    case TSet(elem, items) =>
      |items| < MAX_SIZE && KnownType(elem) && forall k | 0 <= k < |items| :: Code(items[k]) == elem && Sound(items[k])
    case TList(elem, items) =>
      |items| < MAX_SIZE && KnownType(elem) && forall k | 0 <= k < |items| :: Code(items[k]) == elem && Sound(items[k])
    case _ => true
  }

  function Max(a: nat, b: nat): nat {
    if a < b then b else a
  }

  /** How deep a value nests, a bare one counting as one. */
  function Height(d: Datum): nat
    decreases d
  {
    match d
    case TStruct(members) => 1 + MembersHeight(members)
    case TMap(_, _, entries) => 1 + EntriesHeight(entries)
    case TSet(_, items) => 1 + ItemsHeight(items)
    case TList(_, items) => 1 + ItemsHeight(items)
    case _ => 1
  }

  function MemberHeight(m: Member): nat
    decreases m
  {
    Height(m.datum)
  }

  function MembersHeight(members: seq<Member>): nat
    decreases members
  {
    if members == [] then 0 else Max(MemberHeight(members[0]), MembersHeight(members[1..]))
  }

  function EntryHeight(e: Entry): nat
    decreases e
  {
    Max(Height(e.key), Height(e.val))
  }

  function EntriesHeight(entries: seq<Entry>): nat
    decreases entries
  {
    if entries == [] then 0 else Max(EntryHeight(entries[0]), EntriesHeight(entries[1..]))
  }

  function ItemsHeight(items: seq<Datum>): nat
    decreases items
  {
    if items == [] then 0 else Max(Height(items[0]), ItemsHeight(items[1..]))
  }

  // ----- skipping

  /** The outcome of passing over something of this height and length. */
  predicate Passed(r: Res<()>, height: nat, depth: nat, end: nat) {
    if height <= depth then r == Ok((), end) else r.Err? && r.fault == TooDeep
  }

  /** Passing over any value consumes exactly it, unless it nests deeper than allowed, and fails exactly then. */
  lemma {:induction false} SkipWhole(d: Datum, depth: nat, s: Text, i: nat)
    requires Sound(d) && At(s, i, Written(d))
    ensures Passed(Skip(Code(d), depth, s, i), Height(d), depth, i + |Written(d)|)
    decreases d
  {
    hide At, MembersWritten, EntriesWritten, ItemsWritten, EncInt, DecInt, SkipFields, SkipEntries, SkipItems;
    hide ReadMapBegin, ReadListBegin, Take, ReadString;
    if depth > 0 {
      match d
      case TBinary(text) => StringAt(text, s, i);
      case TStruct(members) => SkipMembers(members, depth - 1, s, i);
      case TMap(key, val, entries) =>
        MapHeaderAt(key, val, |entries|, EntriesWritten(entries), s, i);
        SkipPairs(key, val, entries, depth - 1, s, i + 6);
      case TSet(elem, items) =>
        ListHeaderAt(elem, |items|, ItemsWritten(items), s, i);
        SkipElements(elem, items, depth - 1, s, i + 5);
      case TList(elem, items) =>
        ListHeaderAt(elem, |items|, ItemsWritten(items), s, i);
        SkipElements(elem, items, depth - 1, s, i + 5);
      case _ => SkipScalar(d, depth, s, i);
    }
  }

  lemma SkipScalar(d: Datum, depth: nat, s: Text, i: nat)
    requires FixedSize(Code(d)).Some? && Sound(d) && At(s, i, Written(d)) && depth > 0
    ensures Skip(Code(d), depth, s, i) == Ok((), i + |Written(d)|)
  {
    hide At, EncInt, Take;
    TakeAt(Written(d), s, i);
  }

  lemma TakeAt(part: Text, s: Text, i: nat)
    requires At(s, i, part)
    ensures Take(s, i, |part|).Ok? && Take(s, i, |part|).pos == i + |part|
  {
  }

  lemma MapHeaderAt(key: byte, val: byte, n: nat, rest: Text, s: Text, i: nat)
    requires KnownType(key) && KnownType(val) && n < MAX_SIZE && At(s, i, [key, val] + Text4(n) + rest)
    ensures ReadMapBegin(s, i) == Ok(MapHeader(key, val, n), i + 6) && At(s, i + 6, rest)
  {
    hide ReadSize, EncInt;
    var header := [key, val] + Text4(n);
    AtSplit(s, i, header, rest);
    AtSplit(s, i, [key, val], Text4(n));
    assert s[i] == header[0] && s[i + 1] == header[1];
    SizeAt(n, s, i + 2);
  }

  lemma ListHeaderAt(elem: byte, n: nat, rest: Text, s: Text, i: nat)
    requires KnownType(elem) && n < MAX_SIZE && At(s, i, [elem] + Text4(n) + rest)
    ensures ReadListBegin(s, i) == Ok(ListHeader(elem, n), i + 5) && At(s, i + 5, rest)
  {
    hide ReadSize, EncInt;
    var header := [elem] + Text4(n);
    AtSplit(s, i, header, rest);
    AtSplit(s, i, [elem], Text4(n));
    assert s[i] == header[0];
    SizeAt(n, s, i + 1);
  }

  lemma {:induction false} SkipMember(m: Member, depth: nat, rest: Text, s: Text, i: nat)
    requires Sound(m.datum) && At(s, i, MemberWritten(m) + rest)
    ensures ReadFieldBegin(s, i).Ok? && ReadFieldBegin(s, i).pos == i + 3
    ensures ReadFieldBegin(s, i).value.kind == Code(m.datum) != STOP
    ensures At(s, i + |MemberWritten(m)|, rest)
    ensures Passed(Skip(Code(m.datum), depth, s, i + 3), MemberHeight(m), depth, i + |MemberWritten(m)|)
    decreases m
  {
    hide At, Skip, Sound, Height, Written, EncInt, ReadFieldBegin;
    var header := [Code(m.datum)] + EncInt(m.id, 2);
    AtSplit(s, i, MemberWritten(m), rest);
    AtSplit(s, i, header, Written(m.datum));
    MemberHeaderRead(Code(m.datum), m.id, s, i);
    SkipWhole(m.datum, depth, s, i + 3);
  }

  lemma {:induction false} SkipMembers(members: seq<Member>, depth: nat, s: Text, i: nat)
    requires (forall k | 0 <= k < |members| :: Sound(members[k].datum)) && At(s, i, MembersWritten(members) + [0])
    ensures Passed(SkipFields(depth, s, i), MembersHeight(members), depth, i + |MembersWritten(members) + [0]|)
    decreases members
  {
    hide At, Skip, Sound, MemberHeight, MemberWritten, ReadFieldBegin;
    if members == [] {
      assert MembersWritten(members) + [0] == [0];
      StopRead(s, i);
    } else {
      var m, rest := members[0], MembersWritten(members[1..]) + [0];
      assert MembersWritten(members) + [0] == MemberWritten(m) + rest;
      SkipMember(m, depth, rest, s, i);
      SkipMembers(members[1..], depth, s, i + |MemberWritten(m)|);
    }
  }

  lemma StopRead(s: Text, i: nat)
    requires At(s, i, [0])
    ensures ReadFieldBegin(s, i) == Ok(FieldHeader(STOP, 0), i + 1)
  {
    assert s[i] == [0][0];
  }

  lemma MemberHeaderRead(kind: byte, id: int, s: Text, i: nat)
    requires KnownType(kind) && kind != STOP && At(s, i, [kind] + EncInt(id, 2))
    ensures ReadFieldBegin(s, i).Ok? && ReadFieldBegin(s, i).pos == i + 3 && ReadFieldBegin(s, i).value.kind == kind
  {
    hide EncInt, DecInt;
    assert s[i] == ([kind] + EncInt(id, 2))[0];
  }

  lemma {:induction false} SkipPair(e: Entry, depth: nat, s: Text, i: nat)
    requires Sound(e.key) && Sound(e.val) && At(s, i, EntryWritten(e))
    ensures Passed(SkipEntry(Code(e.key), Code(e.val), depth, s, i), EntryHeight(e), depth, i + |EntryWritten(e)|)
    decreases e
  {
    hide At, Skip, Sound, Height, Written;
    AtSplit(s, i, Written(e.key), Written(e.val));
    SkipWhole(e.key, depth, s, i);
    SkipWhole(e.val, depth, s, i + |Written(e.key)|);
  }

  lemma {:induction false} SkipPairs(key: byte, val: byte, entries: seq<Entry>, depth: nat, s: Text, i: nat)
    requires forall k | 0 <= k < |entries| ::
               && Code(entries[k].key) == key && Code(entries[k].val) == val
               && Sound(entries[k].key) && Sound(entries[k].val)
    requires At(s, i, EntriesWritten(entries))
    ensures Passed(SkipEntries(key, val, |entries|, depth, s, i), EntriesHeight(entries), depth,
                   i + |EntriesWritten(entries)|)
    decreases entries
  {
    hide At, SkipEntry, Sound, EntryHeight, EntryWritten, Code;
    if entries == [] {
      AtFits(s, i, []);
    } else {
      AtSplit(s, i, EntryWritten(entries[0]), EntriesWritten(entries[1..]));
      SkipPair(entries[0], depth, s, i);
      SkipPairs(key, val, entries[1..], depth, s, i + |EntryWritten(entries[0])|);
    }
  }

  lemma {:induction false} SkipElements(elem: byte, items: seq<Datum>, depth: nat, s: Text, i: nat)
    requires forall k | 0 <= k < |items| :: Code(items[k]) == elem && Sound(items[k])
    requires At(s, i, ItemsWritten(items))
    ensures Passed(SkipItems(elem, |items|, depth, s, i), ItemsHeight(items), depth, i + |ItemsWritten(items)|)
    decreases items
  {
    hide At, Skip, Sound, Height, Written, EncInt;
    if items == [] {
      AtFits(s, i, []);
    } else {
      AtSplit(s, i, Written(items[0]), ItemsWritten(items[1..]));
      SkipWhole(items[0], depth, s, i);
      SkipElements(elem, items[1..], depth, s, i + |Written(items[0])|);
    }
  }

  lemma AtFits(s: Text, i: nat, part: Text)
    requires At(s, i, part)
    ensures i + |part| <= |s|
  {
  }

  /** A field of any type under any other id is one that a reader passes over, unless it nests too deep. */
  lemma AnyValueReadable(fs: seq<Field>, id: int, d: Datum)
    requires InRange(id, 2) && !Known(fs, id) && Sound(d)
    ensures Readable(fs, RawField(Code(d), id, Written(d))) <==> Height(d) <= 64
  {
    hide Skip, Sound, Height, Find;
    AtStart(Written(d), []);
    assert Written(d) + [] == Written(d);
    hide Written;
    SkipWhole(d, SKIP_DEPTH, Written(d), 0);
  }

  /** Besides these values' types only a stop byte, void and the two string types nobody sends are known. */
  lemma KnownTypes(t: byte)
    ensures KnownType(t) <==> t in {0, 1, 16, 17} || exists d :: Code(d) == t
  {
    assert Code(TBool(0)) == 2 && Code(TByte(0)) == 3 && Code(TDouble([])) == 4 && Code(TI16(0)) == 6;
    assert Code(TI32(0)) == 8 && Code(TI64(0)) == 10 && Code(TBinary([])) == 11 && Code(TStruct([])) == 12;
    assert Code(TMap(0, 0, [])) == 13 && Code(TSet(0, [])) == 14 && Code(TList(0, [])) == 15;
  }

  /** A field of any other type cannot be passed over, and neither can one of those that have no values. */
  lemma NoOtherTypePassed(t: byte, s: Text, i: nat)
    requires i < |s| && s[i] == t && t != 0
    ensures !KnownType(t) ==> ReadFieldBegin(s, i) == Err(BadType, i + 1)
    ensures t in {1, 16, 17} ==> Skip(t, SKIP_DEPTH, s, i) == Err(CannotSkip, i)
  {
  }

  // ----- what the generated writers emit

  /** The value a writer puts on the wire, map entries in key order and absent fields left out. */
  ghost function AsDatum(ty: Ty, v: Value): Datum
    decreases ty, 1
  {
    match (ty, v)
    case (I32, Int(n)) => TI32(n)
    case (I64, Int(n)) => TI64(n)
    case (String, Str(text)) => TBinary(text)
    case (MapOf(val), Dict(m)) => TMap(STRING, Tag(val), EntriesOf(val, m, SortedKeys(m.Keys)))
    case (ListOf(elem), Items(xs)) => TList(Tag(elem), ItemsOf(elem, xs))
    case (StructOf(fs), Record(slots)) => TStruct(MembersOf(fs, slots))
    case _ => TStruct([])
  }

  ghost function EntryOf(val: Ty, k: Text, v: Value): Entry
    decreases val, 2, 0
  {
    Entry(TBinary(k), AsDatum(val, v))
  }

  ghost function EntriesOf(val: Ty, m: map<Text, Value>, keys: seq<Text>): (r: seq<Entry>)
    requires forall k | k in keys :: k in m
    ensures |r| == |keys|
    decreases val, 3, |keys|
  {
    if keys == [] then [] else [EntryOf(val, keys[0], m[keys[0]])] + EntriesOf(val, m, keys[1..])
  }

  ghost function ItemsOf(elem: Ty, xs: seq<Value>): (r: seq<Datum>)
    ensures |r| == |xs|
    decreases elem, 2, |xs|
  {
    if xs == [] then [] else [AsDatum(elem, xs[0])] + ItemsOf(elem, xs[1..])
  }

  ghost function MembersOf(fs: seq<Field>, slots: map<int, Value>): seq<Member>
    decreases fs, 0
  {
    if fs == [] then [] else MemberOf(fs[0], slots) + MembersOf(fs[1..], slots)
  }

  ghost function MemberOf(f: Field, slots: map<int, Value>): seq<Member>
    decreases f, 0
  {
    if f.id in slots then [Member(f.id, AsDatum(f.ty, slots[f.id]))] else []
  }

  /** A writer emits exactly such a value, announced under the type it has. */
  lemma {:induction false} WritersEmitValues(ty: Ty, v: Value)
    requires Fits(ty, v)
    ensures var d := AsDatum(ty, v); Enc(ty, v) == Written(d) && Code(d) == Tag(ty) && Sound(d)
    decreases ty, 1
  {
    hide EncEntries, EncItems, EncFields, EntriesWritten, ItemsWritten, MembersWritten, EntriesOf, ItemsOf;
    hide MembersOf, EncInt, SortedKeys;
    match (ty, v)
    case (MapOf(val), Dict(m)) => MapEmitted(val, m, SortedKeys(m.Keys));
    case (ListOf(elem), Items(xs)) => ListEmitted(elem, xs);
    case (StructOf(fs), Record(slots)) => MembersEmitted(fs, slots);
    case _ =>
  }

  lemma {:induction false} MapEmitted(val: Ty, m: map<Text, Value>, keys: seq<Text>)
    requires |keys| < MAX_SIZE && forall k | k in keys :: k in m && |k| < MAX_SIZE && Fits(val, m[k])
    ensures var d := TMap(STRING, Tag(val), EntriesOf(val, m, keys));
            EncMapBegin(Tag(val), |keys|) + EncEntries(val, m, keys) == Written(d) && Sound(d)
    decreases val, 4, 0
  {
    hide EncEntries, EntriesWritten, EntriesOf, EncInt, Fits;
    KnownTag(val);
    EntriesEmitted(val, m, keys);
  }

  lemma {:induction false} ListEmitted(elem: Ty, xs: seq<Value>)
    requires |xs| < MAX_SIZE && forall k | 0 <= k < |xs| :: Fits(elem, xs[k])
    ensures var d := TList(Tag(elem), ItemsOf(elem, xs));
            EncListBegin(Tag(elem), |xs|) + EncItems(elem, xs) == Written(d) && Sound(d)
    decreases elem, 3, 0
  {
    hide EncItems, ItemsWritten, ItemsOf, EncInt, Fits;
    KnownTag(elem);
    ItemsEmitted(elem, xs);
  }

  lemma KnownTag(ty: Ty)
    ensures KnownType(Tag(ty))
  {
  }

  lemma {:induction false} EntriesEmitted(val: Ty, m: map<Text, Value>, keys: seq<Text>)
    requires forall k | k in keys :: k in m && |k| < MAX_SIZE && Fits(val, m[k])
    ensures var es := EntriesOf(val, m, keys);
            && EncEntries(val, m, keys) == EntriesWritten(es)
            && forall k | 0 <= k < |es| ::
                 && Code(es[k].key) == STRING && Code(es[k].val) == Tag(val)
                 && Sound(es[k].key) && Sound(es[k].val)
    decreases val, 3, |keys|
  {
    hide Fits, EncEntry, EntryWritten, Tag, Sound, Code;
    if keys != [] {
      var e := EntryOf(val, keys[0], m[keys[0]]);
      EntryEmitted(val, keys[0], m[keys[0]]);
      hide EntryOf;
      EntriesEmitted(val, m, keys[1..]);
      assert EntriesOf(val, m, keys)[0] == e && EntriesOf(val, m, keys)[1..] == EntriesOf(val, m, keys[1..]);
    }
  }

  lemma {:induction false} EntryEmitted(val: Ty, k: Text, v: Value)
    requires |k| < MAX_SIZE && Fits(val, v)
    ensures var e := EntryOf(val, k, v);
            && EncEntry(val, k, v) == EntryWritten(e)
            && Code(e.key) == STRING && Code(e.val) == Tag(val) && Sound(e.key) && Sound(e.val)
    decreases val, 2, 0
  {
    hide Fits, Enc, AsDatum, EncInt, Tag;
    WritersEmitValues(val, v);
  }

  lemma {:induction false} ItemsEmitted(elem: Ty, xs: seq<Value>)
    requires forall k | 0 <= k < |xs| :: Fits(elem, xs[k])
    ensures var items := ItemsOf(elem, xs);
            && EncItems(elem, xs) == ItemsWritten(items)
            && forall k | 0 <= k < |items| :: Code(items[k]) == Tag(elem) && Sound(items[k])
    decreases elem, 2, |xs|
  {
    hide Fits, Enc, AsDatum, Written, Code, Sound, Tag;
    if xs != [] {
      WritersEmitValues(elem, xs[0]);
      ItemsEmitted(elem, xs[1..]);
      assert ItemsOf(elem, xs)[1..] == ItemsOf(elem, xs[1..]);
    }
  }

  lemma {:induction false} MembersEmitted(fs: seq<Field>, slots: map<int, Value>)
    requires forall k | 0 <= k < |fs| :: fs[k].id in slots ==> Fits(fs[k].ty, slots[fs[k].id])
    ensures var members := MembersOf(fs, slots);
            && EncFields(fs, slots) == MembersWritten(members)
            && forall k | 0 <= k < |members| :: Sound(members[k].datum)
    decreases fs, 0
  {
    hide Fits, EncField, MemberOf, Sound, MemberWritten;
    if fs != [] {
      var here, rest := MemberOf(fs[0], slots), MembersOf(fs[1..], slots);
      MemberEmitted(fs[0], slots);
      MembersEmitted(fs[1..], slots);
      if here != [] {
        assert (here + rest)[1..] == rest;
      } else {
        assert here + rest == rest;
      }
    }
  }

  lemma {:induction false} MemberEmitted(f: Field, slots: map<int, Value>)
    requires f.id in slots ==> Fits(f.ty, slots[f.id])
    ensures var here := MemberOf(f, slots);
            && (f.id in slots <==> |here| == 1) && |here| <= 1
            && EncField(f, slots) == (if here == [] then [] else MemberWritten(here[0]))
            && forall m | m in here :: Sound(m.datum)
    decreases f, 0
  {
    hide Fits, Enc, AsDatum, Written, Code, Sound, Tag;
    if f.id in slots {
      WritersEmitValues(f.ty, slots[f.id]);
    }
  }

  /** How deep the values of a schema can nest. */
  function Levels(ty: Ty): nat
    decreases ty
  {
    match ty
    case MapOf(val) => 1 + Max(1, Levels(val))
    case ListOf(elem) => 1 + Levels(elem)
    case StructOf(fs) => 1 + FieldsLevels(fs)
    case _ => 1
  }

  function FieldsLevels(fs: seq<Field>): nat
    decreases fs
  {
    if fs == [] then 0 else Max(FieldLevels(fs[0]), FieldsLevels(fs[1..]))
  }

  function FieldLevels(f: Field): nat
    decreases f
  {
    Levels(f.ty)
  }

  lemma {:induction false} HeightBounded(ty: Ty, v: Value)
    ensures Height(AsDatum(ty, v)) <= Levels(ty)
    decreases ty, 1
  {
    match (ty, v)
    case (MapOf(val), Dict(m)) => EntriesBounded(val, m, SortedKeys(m.Keys));
    case (ListOf(elem), Items(xs)) => ItemsBounded(elem, xs);
    case (StructOf(fs), Record(slots)) => MembersBounded(fs, slots);
    case _ =>
  }

  lemma {:induction false} EntriesBounded(val: Ty, m: map<Text, Value>, keys: seq<Text>)
    requires forall k | k in keys :: k in m
    ensures EntriesHeight(EntriesOf(val, m, keys)) <= Max(1, Levels(val))
    decreases val, 3, |keys|
  {
    hide AsDatum, Levels;
    if keys != [] {
      HeightBounded(val, m[keys[0]]);
      EntriesBounded(val, m, keys[1..]);
      var es := EntriesOf(val, m, keys);
      assert es[0] == EntryOf(val, keys[0], m[keys[0]]) && es[1..] == EntriesOf(val, m, keys[1..]);
      assert EntryHeight(es[0]) == Max(1, Height(AsDatum(val, m[keys[0]])));
    }
  }

  lemma {:induction false} ItemsBounded(elem: Ty, xs: seq<Value>)
    ensures ItemsHeight(ItemsOf(elem, xs)) <= Levels(elem)
    decreases elem, 2, |xs|
  {
    hide AsDatum, Levels, Height;
    if xs != [] {
      HeightBounded(elem, xs[0]);
      ItemsBounded(elem, xs[1..]);
      assert ItemsOf(elem, xs)[1..] == ItemsOf(elem, xs[1..]);
    }
  }

  lemma {:induction false} MembersBounded(fs: seq<Field>, slots: map<int, Value>)
    ensures MembersHeight(MembersOf(fs, slots)) <= FieldsLevels(fs)
    decreases fs, 0
  {
    hide AsDatum, Height;
    if fs != [] {
      var here, rest := MemberOf(fs[0], slots), MembersOf(fs[1..], slots);
      MembersBounded(fs[1..], slots);
      if fs[0].id in slots {
        MemberBounded(fs[0], slots);
        assert (here + rest)[1..] == rest;
      } else {
        assert here + rest == rest;
      }
    }
  }

  lemma {:induction false} MemberBounded(f: Field, slots: map<int, Value>)
    requires f.id in slots
    ensures Height(AsDatum(f.ty, slots[f.id])) <= FieldLevels(f)
    decreases f, 0
  {
    hide AsDatum, Height;
    HeightBounded(f.ty, slots[f.id]);
  }

  /**
   A peer that does not know the field a value was written under passes over exactly that value,
   whatever follows, if and only if it nests no deeper than skipping allows.
   */
  lemma WrittenPassedOver(ty: Ty, v: Value, rest: Text)
    requires Fits(ty, v)
    ensures Passed(Skip(Tag(ty), SKIP_DEPTH, Enc(ty, v) + rest, 0), Height(AsDatum(ty, v)), SKIP_DEPTH, |Enc(ty, v)|)
    ensures Levels(ty) <= SKIP_DEPTH ==> Skip(Tag(ty), SKIP_DEPTH, Enc(ty, v) + rest, 0) == Ok((), |Enc(ty, v)|)
  {
    hide Fits, Enc, AsDatum, Sound, Height, Skip, Tag, Levels;
    WritersEmitValues(ty, v);
    HeightBounded(ty, v);
    AtStart(Enc(ty, v), rest);
    hide Written, Code;
    SkipWhole(AsDatum(ty, v), SKIP_DEPTH, Enc(ty, v) + rest, 0);
  }
}
