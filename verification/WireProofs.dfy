/** Round trips of the concrete structs and of message headers. */
module WireProofs {
  import opened Bytes
  import opened Protocol
  import opened Schema
  import opened SchemaProofs
  import opened FieldProofs
  import opened Wire

  // ----- the schemas are well formed

  lemma StatusSchema()
    ensures WellFormed(STATUS)
  {
    Widths();
  }

  lemma ResponseSchema()
    ensures WellFormed(RESPONSE)
  {
    Widths();
    StatusSchema();
    assert WellFormed(ROWS);
    hide STATUS, ROWS;
  }

  lemma ArgsSchema(name: Text)
    ensures WellFormed(ArgsTy(name))
  {
    Widths();
    assert WellFormed(MapOf(String));
    assert WellFormed(CALL_ARGS);
  }

  lemma ResultSchema(name: Text)
    ensures WellFormed(ResultTy(name))
  {
    Widths();
    StatusSchema();
    ResponseSchema();
    hide STATUS, RESPONSE;
    assert WellFormed(PING_RESULT);
    assert WellFormed(CALL_RESULT);
  }

  lemma AppErrorSchema()
    ensures WellFormed(APP_ERROR)
  {
    Widths();
  }

  lemma RegisterSchema()
    ensures WellFormed(INFO) && WellFormed(REGISTRY) && WellFormed(REGISTER_ARGS)
  {
    Widths();
    assert WellFormed(INFO);
    assert WellFormed(ROWS);
    assert WellFormed(MapOf(ROWS));
    assert WellFormed(REGISTRY);
    hide INFO, REGISTRY;
  }

  lemma StrictRestAt(m: Message, s: Text, i: nat)
    requires |m.name| < MAX_SIZE && InRange(m.sequence, 4)
    requires At(s, i, EncString(m.name) + EncInt(m.sequence, 4))
    ensures ReadStrictRest(m.kind, s, i) == Ok(m, i + |EncString(m.name)| + 4)
  {
    hide EncString, ReadString, At, ReadInt, EncInt, InRange;
    AtSplit(s, i, EncString(m.name), EncInt(m.sequence, 4));
    StringAt(m.name, s, i);
    SchemaProofs.IntAt(m.sequence, 4, s, i + |EncString(m.name)|);
  }

  lemma VersionAt(kind: byte, s: Text, i: nat)
    requires CALL <= kind <= ONEWAY && At(s, i, [0x80, 1, 0, kind])
    ensures ReadMessageBegin(s, i) == ReadStrictRest(kind, s, i + 4)
  {
    var version: Text := [0x80, 1, 0, kind];
    AtSlice(s, i, version, 0, 4);
    assert version[0..4] == version;
    hide ReadStrictRest, ReadOldRest;
  }

  lemma MessageBeginAt(m: Message, s: Text, i: nat)
    requires CALL <= m.kind <= ONEWAY && |m.name| < MAX_SIZE && InRange(m.sequence, 4)
    requires At(s, i, EncMessageBegin(m))
    ensures ReadMessageBegin(s, i) == Ok(m, i + |EncMessageBegin(m)|)
  {
    hide EncString, At, ReadMessageBegin, ReadStrictRest, InRange;
    AtSplit(s, i, [0x80, 1, 0, m.kind], EncString(m.name) + EncInt(m.sequence, 4));
    VersionAt(m.kind, s, i);
    StrictRestAt(m, s, i + 4);
  }

  // ----- each struct, as its reader returns it

  function OrElse<T>(x: Option<T>, d: T): Option<T> {
    if x.Some? then x else Some(d)
  }

  function FilledStatus(s: Status): Status {
    Status(OrElse(s.code, 0), OrElse(s.message, []), OrElse(s.uuid, 0))
  }

  lemma StatusFilled(s: Status)
    ensures StatusFrom(Filled(STATUS, StatusValue(s))) == FilledStatus(s)
  {
    StatusSchema();
    hide Filled, WellFormed;
    var fs, slots := STATUS.fields, StatusValue(s).slots;
    forall k | 0 <= k < 3 && fs[k].id in slots { FilledScalar(fs[k].ty, slots[fs[k].id]); }
    FilledStruct(fs, slots, 0);
    FilledStruct(fs, slots, 1);
    FilledStruct(fs, slots, 2);
  }

  lemma FilledScalar(ty: Ty, v: Value)
    requires ty.I32? || ty.I64? || ty.String?
    ensures Filled(ty, v) == v
  {
  }

  lemma RowsComplete(rows: seq<Row>)
    ensures Complete(ROWS, RowsValue(rows)) && RowsFrom(RowsValue(rows)) == rows
  {
    forall i | 0 <= i < |rows|
      ensures Complete(MapOf(String), RowValue(rows[i])) && RowFrom(RowValue(rows[i])) == rows[i]
    {
    }
  }

  lemma RowsFilled(rows: seq<Row>)
    ensures Filled(ROWS, RowsValue(rows)) == RowsValue(rows) && RowsFrom(RowsValue(rows)) == rows
  {
    RowsComplete(rows);
    assert WellFormed(MapOf(String));
    assert WellFormed(ROWS);
    FilledIdentity(ROWS, RowsValue(rows));
  }

  function FilledResponse(r: Response): Response {
    Response(if r.status.Some? then Some(FilledStatus(r.status.value)) else None, OrElse(r.rows, []))
  }

  lemma ResponseFilled(r: Response)
    ensures ResponseFrom(Filled(RESPONSE, ResponseValue(r))) == FilledResponse(r)
  {
    ResponseSchema();
    if r.status.Some? { StatusFilled(r.status.value); }
    if r.rows.Some? { RowsFilled(r.rows.value); }
    hide Filled, WellFormed, STATUS, StatusFrom, StatusValue, FilledStatus, RowsValue, RowsFrom;
    var fs, slots := RESPONSE.fields, ResponseValue(r).slots;
    FilledStruct(fs, slots, 0);
    FilledStruct(fs, slots, 1);
    assert RowsFrom(Items([])) == [] by {
      assert RowsFrom(RowsValue([])) == [] by { RowsFilled([]); EmptyRows(); }
      EmptyRows();
    }
  }

  lemma EmptyRows()
    ensures RowsFrom(Items([])) == []
  {
  }

  lemma RowFilled(r: Row)
    ensures Filled(MapOf(String), RowValue(r)) == RowValue(r) && RowFrom(RowValue(r)) == r
  {
    assert Complete(MapOf(String), RowValue(r));
    FilledIdentity(MapOf(String), RowValue(r));
  }

  lemma CallArgsFilled(a: CallArgs)
    ensures CallArgsFrom(Filled(CALL_ARGS, CallArgsValue(a))) == a
  {
    ArgsSchema(CALL_NAME);
    RowFilled(a.request);
    FilledScalar(String, Str(a.registry));
    FilledScalar(String, Str(a.item));
    hide WellFormed, Filled, RowValue, RowFrom;
    var fs, slots := CALL_ARGS.fields, CallArgsValue(a).slots;
    FilledStruct(fs, slots, 0);
    FilledStruct(fs, slots, 1);
    FilledStruct(fs, slots, 2);
  }

  function FilledInfo(i: ExtensionInfo): ExtensionInfo {
    ExtensionInfo(OrElse(i.name, []), OrElse(i.version, []), OrElse(i.sdk, []), OrElse(i.minSdk, []))
  }

  lemma TextFilled(fs: seq<Field>, slots: map<int, Value>, k: nat, t: Option<Text>)
    requires WellFormed(StructOf(fs)) && k < |fs| && fs[k].ty == String && fs[k].initial == Some(Str([]))
    requires (fs[k].id in slots <==> t.Some?) && (t.Some? ==> slots[fs[k].id] == Str(t.value))
    ensures TextAt(Filled(StructOf(fs), Record(slots)), fs[k].id) == OrElse(t, [])
  {
    FilledStruct(fs, slots, k);
    hide Filled, WellFormed;
    if t.Some? { FilledScalar(String, slots[fs[k].id]); }
  }

  lemma InfoFilled(i: ExtensionInfo)
    ensures InfoFrom(Filled(INFO, InfoValue(i))) == FilledInfo(i)
  {
    RegisterSchema();
    hide Filled, WellFormed, TextAt;
    var fs, slots := INFO.fields, InfoValue(i).slots;
    TextFilled(fs, slots, 0, i.name);
    TextFilled(fs, slots, 1, i.version);
    TextFilled(fs, slots, 2, i.sdk);
    TextFilled(fs, slots, 3, i.minSdk);
  }

  lemma RoutesComplete(routes: map<Text, seq<Row>>)
    ensures Complete(MapOf(ROWS), RoutesValue(routes)) && RoutesFrom(RoutesValue(routes)) == routes
  {
    forall k | k in routes ensures Complete(ROWS, RowsValue(routes[k])) && RowsFrom(RowsValue(routes[k])) == routes[k] {
      RowsComplete(routes[k]);
    }
    hide ROWS, RowsValue, RowsFrom;
  }

  lemma RegistryComplete(r: Registry)
    ensures Complete(REGISTRY, RegistryValue(r))
  {
    forall k | k in r ensures Complete(MapOf(ROWS), RoutesValue(r[k])) { RoutesComplete(r[k]); }
    hide ROWS, RoutesValue;
  }

  lemma RegistryFilled(r: Registry)
    ensures Filled(REGISTRY, RegistryValue(r)) == RegistryValue(r) && RegistryFrom(RegistryValue(r)) == r
  {
    forall k | k in r ensures RoutesFrom(RoutesValue(r[k])) == r[k] { RoutesComplete(r[k]); }
    RegisterSchema();
    RegistryComplete(r);
    hide REGISTRY, RoutesValue, RoutesFrom, WellFormed, Complete, Filled;
    FilledIdentity(REGISTRY, RegistryValue(r));
  }

  lemma RegisterArgsFilled(a: RegisterArgs)
    ensures RegisterArgsFrom(Filled(REGISTER_ARGS, RegisterArgsValue(a))) ==
        RegisterArgs(FilledInfo(a.info), a.registry)
  {
    RegisterSchema();
    InfoFilled(a.info);
    RegistryFilled(a.registry);
    hide Filled, WellFormed, INFO, REGISTRY, InfoFrom, InfoValue, FilledInfo, RegistryValue, RegistryFrom;
    var fs, slots := REGISTER_ARGS.fields, RegisterArgsValue(a).slots;
    FilledStruct(fs, slots, 0);
    FilledStruct(fs, slots, 1);
  }

  // ----- read after write, followed by anything

  lemma ReadBack(ty: Ty, v: Value, rest: Text)
    requires WellFormed(ty) && Fits(ty, v)
    ensures Dec(ty, Enc(ty, v) + rest, 0) == Ok(Filled(ty, v), |Enc(ty, v)|)
  {
    hide WellFormed, Fits, Enc, Dec, Filled;
    DecEnc(ty, v, Enc(ty, v) + rest, 0);
  }

  /** The response arrives with its status and rows, absent parts filled as the reader fills them. */
  lemma ResponseRoundTrip(r: Response, rest: Text)
    requires Fits(RESPONSE, ResponseValue(r))
    ensures var text := Enc(RESPONSE, ResponseValue(r)); var read := Dec(RESPONSE, text + rest, 0);
            read.Ok? && read.pos == |text| && ResponseFrom(read.value) == FilledResponse(r)
  {
    hide Fits, WellFormed, Enc, Dec, Filled, RESPONSE, ResponseFrom, ResponseValue;
    ResponseSchema();
    ReadBack(RESPONSE, ResponseValue(r), rest);
    ResponseFilled(r);
  }

  /** The registration arrives: the whole nested registry, and the info with absent texts empty. */
  lemma RegisterRoundTrip(a: RegisterArgs, rest: Text)
    requires Fits(REGISTER_ARGS, RegisterArgsValue(a))
    ensures var text := Enc(REGISTER_ARGS, RegisterArgsValue(a)); var read := Dec(REGISTER_ARGS, text + rest, 0);
            read.Ok? && read.pos == |text|
                && RegisterArgsFrom(read.value) == RegisterArgs(FilledInfo(a.info), a.registry)
  {
    hide Fits, WellFormed, Enc, Dec, Filled, REGISTER_ARGS, RegisterArgsFrom, RegisterArgsValue;
    RegisterSchema();
    ReadBack(REGISTER_ARGS, RegisterArgsValue(a), rest);
    RegisterArgsFilled(a);
  }

  // ----- a second round trip

  /** The schemas of what this side reads and writes. */
  ghost predicate WireSchema(ty: Ty) {
    || ty == STATUS || ty == RESPONSE || ty == CALL_ARGS || ty == INFO || ty == REGISTRY || ty == REGISTER_ARGS
    || ty == PING_RESULT || ty == CALL_RESULT || ty == APP_ERROR
  }

  /** What a reader starts from is complete, and fits. */
  ghost predicate GoodInitials(ty: Ty) {
    InitialsComplete(ty) && InitialsFit(ty)
  }

  lemma StatusInitials()
    ensures GoodInitials(STATUS)
  {
    Widths();
  }

  lemma RowsInitials()
    ensures GoodInitials(ROWS) && Complete(ROWS, Items([])) && Fits(ROWS, Items([]))
  {
    assert GoodInitials(MapOf(String));
  }

  lemma ResponseInitials()
    ensures GoodInitials(RESPONSE)
  {
    StatusInitials();
    RowsInitials();
    hide STATUS, ROWS;
  }

  lemma ResultInitials()
    ensures GoodInitials(PING_RESULT) && GoodInitials(CALL_RESULT)
  {
    StatusInitials();
    ResponseInitials();
    hide STATUS, RESPONSE;
  }

  lemma RegistryInitials()
    ensures GoodInitials(REGISTRY)
  {
    RowsInitials();
    assert GoodInitials(MapOf(ROWS)) by { hide ROWS; }
    hide ROWS;
  }

  lemma RegisterInitials()
    ensures GoodInitials(INFO) && GoodInitials(REGISTER_ARGS)
  {
    RegistryInitials();
    assert GoodInitials(INFO);
    hide INFO, REGISTRY;
  }

  lemma ArgsInitials()
    ensures GoodInitials(CALL_ARGS) && GoodInitials(APP_ERROR)
  {
    assert GoodInitials(MapOf(String));
  }

  lemma WireWellFormed(ty: Ty)
    requires WireSchema(ty)
    ensures WellFormed(ty) && GoodInitials(ty)
  {
    hide WellFormed, GoodInitials;
    StatusSchema();
    ResponseSchema();
    ArgsSchema(CALL_NAME);
    ResultSchema(PING);
    ResultSchema(CALL_NAME);
    AppErrorSchema();
    RegisterSchema();
    StatusInitials();
    ResponseInitials();
    ResultInitials();
    RegistryInitials();
    RegisterInitials();
    ArgsInitials();
  }

  /** Writing what was read and reading it again changes nothing, for every struct on the wire. */
  lemma SecondRoundTrip(ty: Ty, v: Value, rest: Text)
    requires WireSchema(ty) && Fits(ty, v)
    ensures var read := Dec(ty, Enc(ty, v), 0);
            && read.Ok?
            && Dec(ty, Enc(ty, read.value) + rest, 0) == Ok(read.value, |Enc(ty, read.value)|)
  {
    hide WireSchema, WellFormed, InitialsComplete, InitialsFit, Fits, Enc, Dec, Filled;
    WireWellFormed(ty);
    ReadBack(ty, v, []);
    assert Enc(ty, v) + [] == Enc(ty, v);
    FilledIdempotent(ty, v);
    FilledFits(ty, v);
    ReadBack(ty, Filled(ty, v), rest);
  }
}
