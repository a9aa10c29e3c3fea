/**
 The bytes each struct and message is written as, field by field, with the type bytes and field ids that
 its `write_to_out_protocol` names. The template of `Schema` filled in with the struct's fields writes
 exactly these.
 */
module TypedWriters {
  import opened Bytes
  import opened Protocol
  import opened Schema
  import opened Wire
  import opened WireProofs
  import opened Processor
  import opened ThriftValues

  function StringText(t: Text): Text {
    EncInt(|t|, 4) + t
  }

  function OptString(header: Text, t: Option<Text>): Text {
    if t.Some? then header + StringText(t.value) else []
  }

  function OptInt(header: Text, n: Option<int>, width: nat): Text {
    if n.Some? then header + EncInt(n.value, width) else []
  }

  /** ExtensionStatus */
  function StatusText(s: Status): Text {
    OptInt([8, 0, 1], s.code, 4) + OptString([11, 0, 2], s.message) + OptInt([10, 0, 3], s.uuid, 8) + [0]
  }

  function PairsText(r: Row, keys: seq<Text>): Text
    requires forall k | k in keys :: k in r
  {
    if keys == [] then [] else StringText(keys[0]) + StringText(r[keys[0]]) + PairsText(r, keys[1..])
  }

  /** One row, or one request: a map of strings, in key order. */
  ghost function RowText(r: Row): Text {
    [11, 11] + EncInt(|r|, 4) + PairsText(r, SortedKeys(r.Keys))
  }

  ghost function RowsEach(rows: seq<Row>): Text {
    if rows == [] then [] else RowText(rows[0]) + RowsEach(rows[1..])
  }

  ghost function RowsText(rows: seq<Row>): Text {
    [13] + EncInt(|rows|, 4) + RowsEach(rows)
  }

  /** ExtensionResponse */
  ghost function ResponseText(r: Response): Text {
    (if r.status.Some? then [12, 0, 1] + StatusText(r.status.value) else [])
    + (if r.rows.Some? then [15, 0, 2] + RowsText(r.rows.value) else []) + [0]
  }

  /** ExtensionCallArgs */
  ghost function CallArgsText(a: CallArgs): Text {
    [11, 0, 1] + StringText(a.registry) + ([11, 0, 2] + StringText(a.item)) + ([13, 0, 3] + RowText(a.request)) + [0]
  }

  /** InternalExtensionInfo */
  function InfoText(i: ExtensionInfo): Text {
    OptString([11, 0, 1], i.name) + OptString([11, 0, 2], i.version)
    + OptString([11, 0, 3], i.sdk) + OptString([11, 0, 4], i.minSdk) + [0]
  }

  ghost function RoutesEach(routes: map<Text, seq<Row>>, keys: seq<Text>): Text
    requires forall k | k in keys :: k in routes
  {
    if keys == [] then [] else StringText(keys[0]) + RowsText(routes[keys[0]]) + RoutesEach(routes, keys[1..])
  }

  ghost function RoutesText(routes: map<Text, seq<Row>>): Text {
    [11, 15] + EncInt(|routes|, 4) + RoutesEach(routes, SortedKeys(routes.Keys))
  }

  ghost function RegistryEach(r: Registry, keys: seq<Text>): Text
    requires forall k | k in keys :: k in r
  {
    if keys == [] then [] else StringText(keys[0]) + RoutesText(r[keys[0]]) + RegistryEach(r, keys[1..])
  }

  ghost function RegistryText(r: Registry): Text {
    [11, 13] + EncInt(|r|, 4) + RegistryEach(r, SortedKeys(r.Keys))
  }

  /** ExtensionManagerRegisterExtensionArgs */
  ghost function RegisterArgsText(a: RegisterArgs): Text {
    [12, 0, 1] + InfoText(a.info) + ([13, 0, 2] + RegistryText(a.registry)) + [0]
  }

  /** TApplicationException */
  function AppErrorText(kind: int, message: Text): Text {
    [11, 0, 1] + StringText(message) + ([8, 0, 2] + EncInt(kind, 4)) + [0]
  }

  // ----- the template writes the same

  lemma Short(id: int)
    requires 0 <= id < 256
    ensures EncInt(id, 2) == [0, id]
  {
    Widths();
    hide Width;
    assert BigEndian(0, 1) == [0] by { assert BigEndian(0, 0) == []; }
    assert BigEndian(id, 2) == BigEndian(0, 1) + [id];
  }

  /** What a struct's writer makes of one field. */
  ghost function Part(f: Field, slots: map<int, Value>): Text
    requires 0 <= f.id < 256
  {
    if f.id in slots then [Tag(f.ty), 0, f.id] + Enc(f.ty, slots[f.id]) else []
  }

  lemma PartIs(f: Field, slots: map<int, Value>)
    requires 0 <= f.id < 256
    ensures EncField(f, slots) == Part(f, slots)
  {
    Short(f.id);
    hide EncInt, Enc, Tag;
  }

  ghost function Parts(fs: seq<Field>, slots: map<int, Value>): Text
    requires forall k | 0 <= k < |fs| :: 0 <= fs[k].id < 256
  {
    if fs == [] then [] else Part(fs[0], slots) + Parts(fs[1..], slots)
  }

  lemma {:induction false} PartsWritten(fs: seq<Field>, slots: map<int, Value>)
    requires forall k | 0 <= k < |fs| :: 0 <= fs[k].id < 256
    ensures EncFields(fs, slots) == Parts(fs, slots)
    decreases |fs|
  {
    hide EncField, Part;
    if fs != [] {
      PartIs(fs[0], slots);
      PartsWritten(fs[1..], slots);
    }
  }

  /** The fields of a struct with up to four, one after the other. */
  lemma {:induction false} PartsAre(fs: seq<Field>, slots: map<int, Value>)
    requires forall k | 0 <= k < |fs| :: 0 <= fs[k].id < 256
    ensures |fs| == 1 ==> Parts(fs, slots) == Part(fs[0], slots)
    ensures |fs| == 2 ==> Parts(fs, slots) == Part(fs[0], slots) + Part(fs[1], slots)
    ensures |fs| == 3 ==> Parts(fs, slots) == Part(fs[0], slots) + Part(fs[1], slots) + Part(fs[2], slots)
    ensures |fs| == 4 ==>
              Parts(fs, slots) == Part(fs[0], slots) + Part(fs[1], slots) + Part(fs[2], slots) + Part(fs[3], slots)
    decreases |fs|
  {
    hide Part;
    if fs != [] {
      PartsAre(fs[1..], slots);
      assert fs[1..] == [] ==> Parts(fs[1..], slots) == [];
    }
  }

  /** A struct is written as its fields and a stop byte. */
  lemma StructWritten(fs: seq<Field>, slots: map<int, Value>)
    requires 1 <= |fs| <= 4 && forall k | 0 <= k < |fs| :: 0 <= fs[k].id < 256
    ensures |fs| == 1 ==> Enc(StructOf(fs), Record(slots)) == Part(fs[0], slots) + [0]
    ensures |fs| == 2 ==> Enc(StructOf(fs), Record(slots)) == Part(fs[0], slots) + Part(fs[1], slots) + [0]
    ensures |fs| == 3 ==>
              Enc(StructOf(fs), Record(slots)) == Part(fs[0], slots) + Part(fs[1], slots) + Part(fs[2], slots) + [0]
    ensures |fs| == 4 ==>
              Enc(StructOf(fs), Record(slots))
              == Part(fs[0], slots) + Part(fs[1], slots) + Part(fs[2], slots) + Part(fs[3], slots) + [0]
  {
    PartsWritten(fs, slots);
    hide EncFields, Part, Parts;
    PartsAre(fs, slots);
  }

  lemma IntPart(n: Option<int>, f: Field, slots: map<int, Value>)
    requires (f.ty == I32 || f.ty == I64) && 0 <= f.id < 256 && (f.id in slots <==> n.Some?)
    requires n.Some? ==> slots[f.id] == Int(n.value)
    ensures Part(f, slots)
         == if f.ty == I32 then OptInt([8, 0, f.id], n, 4) else OptInt([10, 0, f.id], n, 8)
  {
    hide EncInt;
  }

  lemma StringPart(t: Option<Text>, f: Field, slots: map<int, Value>)
    requires f.ty == String && 0 <= f.id < 256 && (f.id in slots <==> t.Some?)
    requires t.Some? ==> slots[f.id] == Str(t.value)
    ensures Part(f, slots) == OptString([11, 0, f.id], t)
  {
    hide EncInt;
  }

  lemma StatusWritten(s: Status)
    ensures Enc(STATUS, StatusValue(s)) == StatusText(s)
  {
    var fs, slots := STATUS.fields, StatusValue(s).slots;
    IntPart(s.code, fs[0], slots);
    StringPart(s.message, fs[1], slots);
    IntPart(s.uuid, fs[2], slots);
    hide Part, Enc, OptInt, OptString;
    StructWritten(fs, slots);
  }

  lemma {:induction false} PairsWritten(r: Row, keys: seq<Text>)
    requires forall k | k in keys :: k in r
    ensures EncEntries(String, RowValue(r).entries, keys) == PairsText(r, keys)
    decreases |keys|
  {
    hide EncInt;
    if keys != [] {
      PairsWritten(r, keys[1..]);
      assert Enc(String, Str(r[keys[0]])) == StringText(r[keys[0]]);
    }
  }

  lemma MapWritten(val: Ty, tag: byte, m: map<Text, Value>, each: Text)
    requires Tag(val) == tag && EncEntries(val, m, SortedKeys(m.Keys)) == each
    ensures Enc(MapOf(val), Dict(m)) == [11, tag] + EncInt(|m|, 4) + each
  {
    hide EncInt, EncEntries, SortedKeys;
  }

  lemma RowWritten(r: Row)
    ensures Enc(MapOf(String), RowValue(r)) == RowText(r)
  {
    var m := RowValue(r).entries;
    assert m.Keys == r.Keys;
    assert |m| == |m.Keys| && |r| == |r.Keys|;
    hide EncInt, EncEntries, PairsText;
    PairsWritten(r, SortedKeys(r.Keys));
  }

  lemma {:induction false} RowsEachWritten(rows: seq<Row>)
    ensures EncItems(MapOf(String), RowsValue(rows).items) == RowsEach(rows)
    decreases |rows|
  {
    hide RowText, Enc, RowValue;
    if rows != [] {
      var items := RowsValue(rows).items;
      RowWritten(rows[0]);
      RowsEachWritten(rows[1..]);
      assert items[0] == RowValue(rows[0]) && items[1..] == RowsValue(rows[1..]).items;
    }
  }

  lemma RowsWritten(rows: seq<Row>)
    ensures Enc(ROWS, RowsValue(rows)) == RowsText(rows)
  {
    hide EncInt, EncItems, RowsEach;
    RowsEachWritten(rows);
  }

  lemma ResponseWritten(r: Response)
    ensures Enc(RESPONSE, ResponseValue(r)) == ResponseText(r)
  {
    var fs, slots := RESPONSE.fields, ResponseValue(r).slots;
    if r.status.Some? { StatusWritten(r.status.value); }
    if r.rows.Some? { RowsWritten(r.rows.value); }
    TagsOf();
    hide STATUS, ROWS, Enc, StatusValue, RowsValue, StatusText, RowsText, Tag;
    assert Part(fs[0], slots) == if r.status.Some? then [12, 0, 1] + StatusText(r.status.value) else [];
    assert Part(fs[1], slots) == if r.rows.Some? then [15, 0, 2] + RowsText(r.rows.value) else [];
    hide Part;
    StructWritten(fs, slots);
  }

  lemma TagsOf()
    ensures Tag(STATUS) == 12 && Tag(RESPONSE) == 12 && Tag(INFO) == 12
    ensures Tag(ROWS) == 15 && Tag(MapOf(String)) == 13 && Tag(MapOf(ROWS)) == 13 && Tag(REGISTRY) == 13
  {
  }

  lemma CallArgsWritten(a: CallArgs)
    ensures Enc(CALL_ARGS, CallArgsValue(a)) == CallArgsText(a)
  {
    var fs, slots := CALL_ARGS.fields, CallArgsValue(a).slots;
    StringPart(Some(a.registry), fs[0], slots);
    StringPart(Some(a.item), fs[1], slots);
    RowWritten(a.request);
    assert Part(fs[2], slots) == [13, 0, 3] + RowText(a.request);
    hide Part, Enc, RowText, RowValue, StringText;
    StructWritten(fs, slots);
  }

  lemma InfoWritten(i: ExtensionInfo)
    ensures Enc(INFO, InfoValue(i)) == InfoText(i)
  {
    var fs, slots := INFO.fields, InfoValue(i).slots;
    StringPart(i.name, fs[0], slots);
    StringPart(i.version, fs[1], slots);
    StringPart(i.sdk, fs[2], slots);
    StringPart(i.minSdk, fs[3], slots);
    hide Part, Enc, OptString;
    StructWritten(fs, slots);
  }

  lemma {:induction false} RoutesEachWritten(routes: map<Text, seq<Row>>, keys: seq<Text>)
    requires forall k | k in keys :: k in routes
    ensures EncEntries(ROWS, RoutesValue(routes).entries, keys) == RoutesEach(routes, keys)
    decreases |keys|
  {
    hide EncInt, Enc, RowsText, RowsValue, ROWS;
    if keys != [] {
      RowsWritten(routes[keys[0]]);
      RoutesEachWritten(routes, keys[1..]);
    }
  }

  lemma RoutesWritten(routes: map<Text, seq<Row>>)
    ensures Enc(MapOf(ROWS), RoutesValue(routes)) == RoutesText(routes)
  {
    var m := RoutesValue(routes).entries;
    assert m.Keys == routes.Keys;
    assert |m| == |m.Keys| && |routes| == |routes.Keys|;
    assert Tag(ROWS) == 15;
    RoutesEachWritten(routes, SortedKeys(routes.Keys));
    MapWritten(ROWS, 15, m, RoutesEach(routes, SortedKeys(routes.Keys)));
    hide EncInt, Enc, RoutesEach, ROWS;
  }

  lemma {:induction false} RegistryEachWritten(r: Registry, keys: seq<Text>)
    requires forall k | k in keys :: k in r
    ensures EncEntries(MapOf(ROWS), RegistryValue(r).entries, keys) == RegistryEach(r, keys)
    decreases |keys|
  {
    hide EncInt, Enc, RoutesText, RoutesValue, ROWS;
    if keys != [] {
      RoutesWritten(r[keys[0]]);
      RegistryEachWritten(r, keys[1..]);
    }
  }

  lemma RegistryWritten(r: Registry)
    ensures Enc(REGISTRY, RegistryValue(r)) == RegistryText(r)
  {
    var m := RegistryValue(r).entries;
    assert m.Keys == r.Keys;
    assert |m| == |m.Keys| && |r| == |r.Keys|;
    RegistryEachWritten(r, SortedKeys(r.Keys));
    MapWritten(MapOf(ROWS), 13, m, RegistryEach(r, SortedKeys(r.Keys)));
    hide EncInt, Enc, RegistryEach, ROWS;
  }

  lemma RegisterArgsWritten(a: RegisterArgs)
    ensures Enc(REGISTER_ARGS, RegisterArgsValue(a)) == RegisterArgsText(a)
  {
    var fs, slots := REGISTER_ARGS.fields, RegisterArgsValue(a).slots;
    TagsOf();
    InfoWritten(a.info);
    RegistryWritten(a.registry);
    hide INFO, REGISTRY, Enc, InfoValue, RegistryValue, InfoText, RegistryText, Tag;
    assert Part(fs[0], slots) == [12, 0, 1] + InfoText(a.info);
    assert Part(fs[1], slots) == [13, 0, 2] + RegistryText(a.registry);
    hide Part;
    StructWritten(fs, slots);
  }

  lemma AppErrorWritten(kind: int, message: Text)
    ensures Enc(APP_ERROR, AppErrorValue(kind, message)) == AppErrorText(kind, message)
  {
    var fs, slots := APP_ERROR.fields, AppErrorValue(kind, message).slots;
    StringPart(Some(message), fs[0], slots);
    IntPart(Some(kind), fs[1], slots);
    hide Part, Enc, StringText, EncInt;
    StructWritten(fs, slots);
  }

  lemma PingResultWritten(s: Status)
    ensures Enc(PING_RESULT, Record(map[0 := StatusValue(s)])) == [12, 0, 0] + StatusText(s) + [0]
  {
    var fs, slots := PING_RESULT.fields, map[0 := StatusValue(s)];
    TagsOf();
    StatusWritten(s);
    hide STATUS, Enc, StatusText, StatusValue, Tag;
    StructWritten(fs, slots);
  }

  lemma CallResultWritten(r: Response)
    ensures Enc(CALL_RESULT, Record(map[0 := ResponseValue(r)])) == [12, 0, 0] + ResponseText(r) + [0]
  {
    var fs, slots := CALL_RESULT.fields, map[0 := ResponseValue(r)];
    TagsOf();
    ResponseWritten(r);
    hide RESPONSE, Enc, ResponseText, ResponseValue, Tag;
    StructWritten(fs, slots);
  }

  lemma EmptyWritten()
    ensures Enc(EMPTY, Record(map[])) == [0]
  {
    assert EncFields([], map[]) == [];
    assert Enc(EMPTY, Record(map[])) == EncFields([], map[]) + [STOP];
  }

  // ----- whole messages

  /** Version 1, the message type, the name and the sequence number. */
  function HeaderText(kind: byte, name: Text, sequence: int): Text {
    [0x80, 0x01, 0x00, kind] + StringText(name) + EncInt(sequence, 4)
  }

  /** What the generated client sends: `ping`, `call` or `shutdown` as a call, and its arguments. */
  ghost function RequestText(q: Request): Text {
    match q
    case PingRequest(n) => HeaderText(1, [0x70, 0x69, 0x6E, 0x67], n) + [0]
    case CallRequest(n, args) => HeaderText(1, [0x63, 0x61, 0x6C, 0x6C], n) + CallArgsText(args)
    case ShutdownRequest(n) => HeaderText(1, [0x73, 0x68, 0x75, 0x74, 0x64, 0x6F, 0x77, 0x6E], n) + [0]
  }

  /** A reply of type 2 with the result, or an exception of type 3, kind 0 unless the handler chose one. */
  ghost function ReplyTo<T>(name: Text, n: int, r: Reply<T>, result: T -> Text): Text {
    match r
    case Return(v) => HeaderText(2, name, n) + result(v)
    case AppError(kind, message) => HeaderText(3, name, n) + AppErrorText(kind, message)
    case OtherError(message) => HeaderText(3, name, n) + AppErrorText(0, message)
  }

  lemma HeaderWritten(m: Message)
    ensures EncMessageBegin(m) == HeaderText(m.kind, m.name, m.sequence)
  {
    hide EncInt;
  }

  lemma RequestWritten(q: Request)
    ensures q.Encode() == RequestText(q)
  {
    hide EncMessageBegin, HeaderText, Enc, CallArgsText, CallArgsValue;
    HeaderWritten(Message(q.Name(), CALL, q.sequence));
    match q
    case CallRequest(_, args) => CallArgsWritten(args);
    case _ => EmptyWritten();
  }

  lemma ExceptionWritten(name: Text, n: int, kind: int, message: Text)
    ensures ExceptionText(name, n, kind, message) == HeaderText(3, name, n) + AppErrorText(kind, message)
  {
    hide EncMessageBegin, HeaderText, Enc, AppErrorText, AppErrorValue;
    HeaderWritten(Message(name, EXCEPTION, n));
    AppErrorWritten(kind, message);
  }

  /** Every request is answered by its own method of the handler, in these very bytes. */
  lemma AnswerWritten<S>(hd: Handler<S>, h: S, q: Request)
    ensures Answer(hd, h, q) == match q
                                case PingRequest(n) =>
                                  var (h', r) := hd.ping(h);
                                  (h', ReplyTo([0x70, 0x69, 0x6E, 0x67], n, r, (s: Status) =>
                                    [12, 0, 0] + StatusText(s) + [0]))
                                case CallRequest(n, args) =>
                                  var (h', r) := hd.call(h, args);
                                  (h', ReplyTo([0x63, 0x61, 0x6C, 0x6C], n, r, (v: Response) =>
                                    [12, 0, 0] + ResponseText(v) + [0]))
                                case ShutdownRequest(n) =>
                                  var (h', r) := hd.shutdown(h);
                                  (h', ReplyTo([0x73, 0x68, 0x75, 0x74, 0x64, 0x6F, 0x77, 0x6E], n, r, (u: ()) => [0]))
  {
    hide EncMessageBegin, HeaderText, Enc, ExceptionText, AppErrorText, ResponseText, StatusText, StatusValue;
    hide ResponseValue;
    match q {
      case PingRequest(n) =>
        match hd.ping(h).1 {
          case Return(s) =>
            HeaderWritten(Message(PING, REPLY, n));
            PingResultWritten(s);
          case AppError(kind, message) => ExceptionWritten(PING, n, kind, message);
          case OtherError(message) => ExceptionWritten(PING, n, UNKNOWN_ERROR, message);
        }
      case CallRequest(n, args) =>
        match hd.call(h, args).1 {
          case Return(v) =>
            HeaderWritten(Message(CALL_NAME, REPLY, n));
            CallResultWritten(v);
          case AppError(kind, message) => ExceptionWritten(CALL_NAME, n, kind, message);
          case OtherError(message) => ExceptionWritten(CALL_NAME, n, UNKNOWN_ERROR, message);
        }
      case ShutdownRequest(n) =>
        match hd.shutdown(h).1 {
          case Return(_) =>
            HeaderWritten(Message(SHUTDOWN, REPLY, n));
            EmptyWritten();
          case AppError(kind, message) => ExceptionWritten(SHUTDOWN, n, kind, message);
          case OtherError(message) => ExceptionWritten(SHUTDOWN, n, UNKNOWN_ERROR, message);
        }
    }
  }

  // ----- to a peer that does not know the field

  /** Everything this side writes is passed over whole by a reader that does not know the field it stands in. */
  lemma PassedOverUnknown(ty: Ty, v: Value, rest: Text)
    requires WireSchema(ty) && Fits(ty, v)
    ensures Skip(Tag(ty), SKIP_DEPTH, Enc(ty, v) + rest, 0) == Ok((), |Enc(ty, v)|)
  {
    WireLevels(ty);
    hide WireSchema, Fits, Skip, Enc, Tag, Levels;
    WrittenPassedOver(ty, v, rest);
  }

  lemma {:induction false} FieldsWithin(fs: seq<Field>, most: nat)
    requires forall k | 0 <= k < |fs| :: Levels(fs[k].ty) <= most
    ensures FieldsLevels(fs) <= most
    decreases |fs|
  {
    hide Levels;
    if fs != [] {
      FieldsWithin(fs[1..], most);
    }
  }

  lemma StructWithin(fs: seq<Field>, most: nat)
    requires forall k | 0 <= k < |fs| :: Levels(fs[k].ty) <= most
    ensures Levels(StructOf(fs)) <= 1 + most
  {
    FieldsWithin(fs, most);
  }

  lemma FlatLevels()
    ensures Levels(STATUS) <= 2 && Levels(INFO) <= 2 && Levels(APP_ERROR) <= 2
    ensures Levels(String) == 1 && Levels(MapOf(String)) == 2 && Levels(ROWS) == 3
    ensures Levels(MapOf(ROWS)) == 4 && Levels(REGISTRY) == 5
  {
    StructWithin(STATUS.fields, 1);
    StructWithin(INFO.fields, 1);
    StructWithin(APP_ERROR.fields, 1);
  }

  lemma WireLevels(ty: Ty)
    requires WireSchema(ty)
    ensures Levels(ty) <= SKIP_DEPTH
  {
    FlatLevels();
    hide Levels, STATUS, INFO, APP_ERROR, ROWS, REGISTRY;
    StructWithin(RESPONSE.fields, 5);
    StructWithin(CALL_ARGS.fields, 5);
    StructWithin(REGISTER_ARGS.fields, 5);
    StructWithin(PING_RESULT.fields, 5);
    hide RESPONSE;
    StructWithin(CALL_RESULT.fields, 6);
  }
}
