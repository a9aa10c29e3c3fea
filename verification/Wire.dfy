/** The structs of osquery.thrift, their schemas, and messages on the wire. */
module Wire {
  import opened Bytes
  import opened Protocol
  import opened Schema

  type Row = map<Text, Text>
  type Registry = map<Text, map<Text, seq<Row>>>

  datatype Status = Status(code: Option<int>, message: Option<Text>, uuid: Option<int>)
  datatype Response = Response(status: Option<Status>, rows: Option<seq<Row>>)
  datatype CallArgs = CallArgs(registry: Text, item: Text, request: Row)
  datatype ExtensionInfo =
    ExtensionInfo(name: Option<Text>, version: Option<Text>, sdk: Option<Text>, minSdk: Option<Text>)
  datatype RegisterArgs = RegisterArgs(info: ExtensionInfo, registry: Registry)

  // ----- schemas

  const ROWS: Ty := ListOf(MapOf(String))
  const EMPTY: Ty := StructOf([])

  const STATUS: Ty := StructOf([
    Field(1, I32, Some(Int(0)), false),
    Field(2, String, Some(Str([])), false),
    Field(3, I64, Some(Int(0)), false)])

  const RESPONSE: Ty := StructOf([
    Field(1, STATUS, None, false),
    Field(2, ROWS, Some(Items([])), false)])

  const CALL_ARGS: Ty := StructOf([
    Field(1, String, None, true),
    Field(2, String, None, true),
    Field(3, MapOf(String), None, true)])

  const PING_RESULT: Ty := StructOf([Field(0, STATUS, None, false)])
  const CALL_RESULT: Ty := StructOf([Field(0, RESPONSE, None, false)])

  const INFO: Ty := StructOf([
    Field(1, String, Some(Str([])), false),
    Field(2, String, Some(Str([])), false),
    Field(3, String, Some(Str([])), false),
    Field(4, String, Some(Str([])), false)])

  const REGISTRY: Ty := MapOf(MapOf(ROWS))

  const REGISTER_ARGS: Ty := StructOf([
    Field(1, INFO, None, true),
    Field(2, REGISTRY, None, true)])

  /** TApplicationException, Thrift specification, section "Response struct". */
  const APP_ERROR: Ty := StructOf([
    Field(1, String, None, false),
    Field(2, I32, None, false)])

  // ----- typed values to and from the untyped ones

  function Slot(id: int, v: Option<Value>): map<int, Value> {
    if v.Some? then map[id := v.value] else map[]
  }

  function IntValue(n: Option<int>): Option<Value> {
    if n.Some? then Some(Int(n.value)) else None
  }

  function TextValue(t: Option<Text>): Option<Value> {
    if t.Some? then Some(Str(t.value)) else None
  }

  function SlotOf(v: Value, id: int): Option<Value> {
    if v.Record? && id in v.slots then Some(v.slots[id]) else None
  }

  function IntAt(v: Value, id: int): Option<int> {
    var x := SlotOf(v, id);
    if x.Some? && x.value.Int? then Some(x.value.n) else None
  }

  function TextAt(v: Value, id: int): Option<Text> {
    var x := SlotOf(v, id);
    if x.Some? && x.value.Str? then Some(x.value.text) else None
  }

  function RowValue(r: Row): Value {
    Dict(map k | k in r :: Str(r[k]))
  }

  function RowFrom(v: Value): Row {
    if v.Dict? then map k | k in v.entries && v.entries[k].Str? :: v.entries[k].text else map[]
  }

  function RowsValue(rows: seq<Row>): Value {
    Items(seq(|rows|, i requires 0 <= i < |rows| => RowValue(rows[i])))
  }

  function RowsFrom(v: Value): seq<Row> {
    if v.Items? then seq(|v.items|, i requires 0 <= i < |v.items| => RowFrom(v.items[i])) else []
  }

  function StatusValue(s: Status): Value {
    Record(Slot(1, IntValue(s.code)) + Slot(2, TextValue(s.message)) + Slot(3, IntValue(s.uuid)))
  }

  function StatusFrom(v: Value): Status {
    Status(IntAt(v, 1), TextAt(v, 2), IntAt(v, 3))
  }

  function ResponseValue(r: Response): Value {
    Record(Slot(1, if r.status.Some? then Some(StatusValue(r.status.value)) else None)
           + Slot(2, if r.rows.Some? then Some(RowsValue(r.rows.value)) else None))
  }

  function ResponseFrom(v: Value): Response {
    var status, rows := SlotOf(v, 1), SlotOf(v, 2);
    Response(if status.Some? then Some(StatusFrom(status.value)) else None,
             if rows.Some? then Some(RowsFrom(rows.value)) else None)
  }

  function CallArgsValue(a: CallArgs): Value {
    Record(map[1 := Str(a.registry), 2 := Str(a.item), 3 := RowValue(a.request)])
  }

  function CallArgsFrom(v: Value): CallArgs {
    var registry, item, request := TextAt(v, 1), TextAt(v, 2), SlotOf(v, 3);
    CallArgs(if registry.Some? then registry.value else [],
             if item.Some? then item.value else [],
             if request.Some? then RowFrom(request.value) else map[])
  }

  function InfoValue(i: ExtensionInfo): Value {
    Record(Slot(1, TextValue(i.name)) + Slot(2, TextValue(i.version)) + Slot(3, TextValue(i.sdk))
        + Slot(4, TextValue(i.minSdk)))
  }

  function InfoFrom(v: Value): ExtensionInfo {
    ExtensionInfo(TextAt(v, 1), TextAt(v, 2), TextAt(v, 3), TextAt(v, 4))
  }

  function RoutesValue(routes: map<Text, seq<Row>>): Value {
    Dict(map k | k in routes :: RowsValue(routes[k]))
  }

  function RoutesFrom(v: Value): map<Text, seq<Row>> {
    if v.Dict? then map k | k in v.entries :: RowsFrom(v.entries[k]) else map[]
  }

  function RegistryValue(r: Registry): Value {
    Dict(map k | k in r :: RoutesValue(r[k]))
  }

  function RegistryFrom(v: Value): Registry {
    if v.Dict? then map k | k in v.entries :: RoutesFrom(v.entries[k]) else map[]
  }

  function RegisterArgsValue(a: RegisterArgs): Value {
    Record(map[1 := InfoValue(a.info), 2 := RegistryValue(a.registry)])
  }

  function RegisterArgsFrom(v: Value): RegisterArgs {
    var info, registry := SlotOf(v, 1), SlotOf(v, 2);
    RegisterArgs(InfoFrom(if info.Some? then info.value else Record(map[])),
                 if registry.Some? then RegistryFrom(registry.value) else map[])
  }

  function AppErrorValue(kind: int, message: Text): Value {
    Record(map[1 := Str(message), 2 := Int(kind)])
  }

  // ----- messages

  const PING: Text := [112, 105, 110, 103]
  const CALL_NAME: Text := [99, 97, 108, 108]
  const SHUTDOWN: Text := [115, 104, 117, 116, 100, 111, 119, 110]

  const UNKNOWN_ERROR: int := 0
  const UNKNOWN_METHOD: int := 1

  predicate KnownMethod(name: Text) {
    name == PING || name == CALL_NAME || name == SHUTDOWN
  }

  function ArgsTy(name: Text): Ty {
    if name == CALL_NAME then CALL_ARGS else EMPTY
  }

  function ResultTy(name: Text): Ty {
    if name == PING then PING_RESULT else if name == CALL_NAME then CALL_RESULT else EMPTY
  }

  /** The strict header `write_message_begin` produces. */
  function EncMessageBegin(m: Message): Text {
    [0x80, 1, 0, m.kind] + (EncString(m.name) + EncInt(m.sequence, 4))
  }

  /** A request as osquery's client and this crate's client write it. */
  datatype Request =
    | PingRequest(sequence: int)
    | CallRequest(sequence: int, args: CallArgs)
    | ShutdownRequest(sequence: int)
  {
    function Name(): Text {
      match this
      case PingRequest(_) => PING
      case CallRequest(_, _) => CALL_NAME
      case ShutdownRequest(_) => SHUTDOWN
    }

    function ArgsValue(): Value {
      if CallRequest? then CallArgsValue(args) else Record(map[])
    }

    /** Sequence number, strings and containers are within the format's limits. */
    ghost predicate Fits() {
      InRange(sequence, 4) && Schema.Fits(ArgsTy(Name()), ArgsValue())
    }

    ghost function Encode(): Text {
      EncMessageBegin(Message(Name(), CALL, sequence)) + Enc(ArgsTy(Name()), ArgsValue())
    }
  }
}
