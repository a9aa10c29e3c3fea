/**
 What may be absent from the structs on the wire and what may not, and what a reader makes of it. Values
 are limited only by the sizes the format can express.
 */
module AbsentParts {
  import opened Bytes
  import opened Protocol
  import opened Schema
  import SchemaProofs
  import FieldProofs
  import opened Wire
  import opened WireProofs
  import opened TypedWriters
  import opened Processor
  import opened Messages
  import opened Replies
  import opened Client

  // ----- sizes

  predicate TextSized(t: Text) {
    |t| < 0x8000_0000
  }

  predicate StatusSized(s: Status) {
    && (s.code.Some? ==> InRange(s.code.value, 4))
    && (s.message.Some? ==> TextSized(s.message.value))
    && (s.uuid.Some? ==> InRange(s.uuid.value, 8))
  }

  predicate RowSized(r: Row) {
    |r| < 0x8000_0000 && forall k | k in r :: TextSized(k) && TextSized(r[k])
  }

  predicate RowsSized(rows: seq<Row>) {
    |rows| < 0x8000_0000 && forall i | 0 <= i < |rows| :: RowSized(rows[i])
  }

  predicate ResponseSized(r: Response) {
    (r.status.Some? ==> StatusSized(r.status.value)) && (r.rows.Some? ==> RowsSized(r.rows.value))
  }

  predicate CallSized(a: CallArgs) {
    TextSized(a.registry) && TextSized(a.item) && RowSized(a.request)
  }

  predicate InfoSized(i: ExtensionInfo) {
    && (i.name.Some? ==> TextSized(i.name.value)) && (i.version.Some? ==> TextSized(i.version.value))
    && (i.sdk.Some? ==> TextSized(i.sdk.value)) && (i.minSdk.Some? ==> TextSized(i.minSdk.value))
  }

  predicate RoutesSized(routes: map<Text, seq<Row>>) {
    |routes| < 0x8000_0000 && forall k | k in routes :: TextSized(k) && RowsSized(routes[k])
  }

  predicate RegistrySized(r: Registry) {
    |r| < 0x8000_0000 && forall k | k in r :: TextSized(k) && RoutesSized(r[k])
  }

  lemma StatusFits(s: Status)
    requires StatusSized(s)
    ensures Fits(STATUS, StatusValue(s))
  {
  }

  lemma RowFits(r: Row)
    requires RowSized(r)
    ensures Fits(MapOf(String), RowValue(r))
  {
    var m := RowValue(r).entries;
    assert m.Keys == r.Keys;
    assert |m| == |m.Keys| && |r| == |r.Keys|;
  }

  lemma RowsFit(rows: seq<Row>)
    requires RowsSized(rows)
    ensures Fits(ROWS, RowsValue(rows))
  {
    forall i | 0 <= i < |rows| ensures Fits(MapOf(String), RowsValue(rows).items[i]) {
      RowFits(rows[i]);
    }
    hide RowSized, RowValue;
  }

  lemma ResponseFits(r: Response)
    requires ResponseSized(r)
    ensures Fits(RESPONSE, ResponseValue(r))
  {
    if r.status.Some? { StatusFits(r.status.value); }
    if r.rows.Some? { RowsFit(r.rows.value); }
    hide STATUS, ROWS, StatusValue, RowsValue, StatusSized, RowsSized;
  }

  lemma CallArgsFit(a: CallArgs)
    requires CallSized(a)
    ensures Fits(CALL_ARGS, CallArgsValue(a))
  {
    RowFits(a.request);
    hide RowValue, RowSized;
  }

  lemma InfoFits(i: ExtensionInfo)
    requires InfoSized(i)
    ensures Fits(INFO, InfoValue(i))
  {
  }

  lemma RoutesFit(routes: map<Text, seq<Row>>)
    requires RoutesSized(routes)
    ensures Fits(MapOf(ROWS), RoutesValue(routes))
  {
    var m := RoutesValue(routes).entries;
    assert m.Keys == routes.Keys;
    assert |m| == |m.Keys| && |routes| == |routes.Keys|;
    forall k | k in m ensures Fits(ROWS, m[k]) {
      RowsFit(routes[k]);
    }
    hide ROWS, RowsValue, RowsSized;
  }

  lemma RegistryFits(r: Registry)
    requires RegistrySized(r)
    ensures Fits(REGISTRY, RegistryValue(r))
  {
    var m := RegistryValue(r).entries;
    assert m.Keys == r.Keys;
    assert |m| == |m.Keys| && |r| == |r.Keys|;
    forall k | k in m ensures Fits(MapOf(ROWS), m[k]) {
      RoutesFit(r[k]);
    }
    hide ROWS, RoutesValue, RoutesSized;
  }

  // ----- every value of a size the format has arrives

  /** A response arrives whole, whatever parts of it or of its status are absent: those as the reader's defaults. */
  lemma ResponseArrives(r: Response, rest: Text)
    requires ResponseSized(r)
    ensures var read := Dec(RESPONSE, ResponseText(r) + rest, 0);
            && read.Ok? && read.pos == |ResponseText(r)|
            && ResponseFrom(read.value) == FilledResponse(r)
  {
    ResponseFits(r);
    ResponseWritten(r);
    hide ResponseSized, Fits, Enc, Dec, ResponseText, RESPONSE, ResponseFrom, ResponseValue;
    ResponseRoundTrip(r, rest);
  }

  /** A registration arrives whole: the registry, and the info with absent texts empty. */
  lemma RegistrationArrives(a: RegisterArgs, rest: Text)
    requires InfoSized(a.info) && RegistrySized(a.registry)
    ensures var read := Dec(REGISTER_ARGS, RegisterArgsText(a) + rest, 0);
            && read.Ok? && read.pos == |RegisterArgsText(a)|
            && RegisterArgsFrom(read.value) == RegisterArgs(FilledInfo(a.info), a.registry)
  {
    InfoFits(a.info);
    RegistryFits(a.registry);
    RegisterArgsWritten(a);
    RegisterFits(a);
    hide InfoSized, RegistrySized, Fits, Enc, Dec, RegisterArgsText, REGISTER_ARGS, RegisterArgsFrom, RegisterArgsValue;
    RegisterRoundTrip(a, rest);
  }

  lemma RegisterFits(a: RegisterArgs)
    requires Fits(INFO, InfoValue(a.info)) && Fits(REGISTRY, RegistryValue(a.registry))
    ensures Fits(REGISTER_ARGS, RegisterArgsValue(a))
  {
    hide INFO, REGISTRY, InfoValue, RegistryValue;
  }

  /** Every request of such sizes is one: nothing else is asked of it. */
  lemma RequestFits(q: Request)
    requires InRange(q.sequence, 4) && (q.CallRequest? ==> CallSized(q.args))
    ensures q.Fits()
  {
    if q.CallRequest? { CallArgsFit(q.args); }
    hide CallArgsValue, CallSized, CALL_ARGS;
  }

  // ----- results and errors with parts missing

  /** A reply without a result is reported as such, not taken for one. */
  lemma MissingResult(sequence: int, s: Text, i: nat)
    requires InRange(sequence, 4)
    ensures At(s, i, EncMessageBegin(Message(CALL_NAME, REPLY, sequence)) + [0]) ==>
              ReadCallReply(sequence, s, i).0 == NoResult
    ensures At(s, i, EncMessageBegin(Message(PING, REPLY, sequence)) + [0]) ==>
              ReadPingReply(sequence, s, i).0 == NoResult
  {
    EmptyResults();
    ResultSchema(CALL_NAME);
    ResultSchema(PING);
    assert |CALL_NAME| == 4 && |PING| == 4;
    hide At, EncMessageBegin, Enc, Dec, Fits, WellFormed, CALL_RESULT, PING_RESULT, ReadReply, Filled, InRange;
    hide ResultOfCall, ResultOfPing, CALL_NAME, PING;
    if At(s, i, EncMessageBegin(Message(CALL_NAME, REPLY, sequence)) + [0]) {
      ResultReadBack(CALL_NAME, CALL_RESULT, ResultOfCall, sequence, Record(map[]), s, i);
    }
    if At(s, i, EncMessageBegin(Message(PING, REPLY, sequence)) + [0]) {
      ResultReadBack(PING, PING_RESULT, ResultOfPing, sequence, Record(map[]), s, i);
    }
  }

  lemma {:induction false} NothingWritten(fs: seq<Field>)
    ensures EncFields(fs, map[]) == []
    decreases |fs|
  {
    if fs != [] {
      NothingWritten(fs[1..]);
    }
  }

  lemma EmptyStruct(fs: seq<Field>)
    ensures Enc(StructOf(fs), Record(map[])) == [0]
  {
    NothingWritten(fs);
    hide EncFields;
  }

  lemma EmptyResults()
    ensures Enc(CALL_RESULT, Record(map[])) == [0] && Enc(PING_RESULT, Record(map[])) == [0]
    ensures Fits(CALL_RESULT, Record(map[])) && Fits(PING_RESULT, Record(map[]))
    ensures ResultOfCall(Filled(CALL_RESULT, Record(map[]))) == NoResult
    ensures ResultOfPing(Filled(PING_RESULT, Record(map[]))) == NoResult
  {
    EmptyStruct(CALL_RESULT.fields);
    EmptyStruct(PING_RESULT.fields);
    ResultSchema(CALL_NAME);
    ResultSchema(PING);
    hide Enc, WellFormed, STATUS, RESPONSE, Filled;
    FieldProofs.FilledStruct(CALL_RESULT.fields, map[], 0);
    FieldProofs.FilledStruct(PING_RESULT.fields, map[], 0);
  }

  /** An exception that says neither kind nor text is an unknown error all the same. */
  lemma BareException<T>(name: Text, ty: Ty, result: Value -> Received<T>, sequence: int, s: Text, i: nat)
    requires |name| < 0x8000_0000 && InRange(sequence, 4)
    requires At(s, i, EncMessageBegin(Message(name, EXCEPTION, sequence)) + [0])
    ensures ReadReply(name, ty, result, sequence, s, i).0 == Remote(0, [])
  {
    var m := Message(name, EXCEPTION, sequence);
    hide At, Enc, Dec, EncMessageBegin, ReadMessageBegin, Fits, WellFormed, InRange, Filled, APP_ERROR, RemoteError;
    EmptyError<T>();
    AppErrorSchema();
    AtSplit(s, i, EncMessageBegin(m), [0]);
    MessageBeginAt(m, s, i);
    SchemaProofs.DecEnc(APP_ERROR, Record(map[]), s, i + |EncMessageBegin(m)|);
  }

  lemma EmptyError<T>()
    ensures Enc(APP_ERROR, Record(map[])) == [0] && Fits(APP_ERROR, Record(map[]))
    ensures RemoteError<T>(Filled(APP_ERROR, Record(map[]))) == Remote(0, [])
  {
    EmptyStruct(APP_ERROR.fields);
    AppErrorSchema();
    hide Enc, WellFormed, Filled;
    FieldProofs.FilledStruct(APP_ERROR.fields, map[], 0);
    FieldProofs.FilledStruct(APP_ERROR.fields, map[], 1);
  }

  /** A response without a status is refused, rows or no rows, before and after the wire. */
  lemma NoStatusRefused(rows: Option<seq<Row>>)
    ensures ResponseRows(Response(None, rows)) == OtherFailure(MISSING_STATUS)
    ensures ResponseRows(ResponseFrom(Filled(RESPONSE, ResponseValue(Response(None, rows)))))
         == OtherFailure(MISSING_STATUS)
  {
    ResponseFilled(Response(None, rows));
    hide Filled, ResponseValue, ResponseFrom;
  }

  /** The arguments of a call are all three required, those of a registration both, and no others are. */
  lemma WhatIsRequired(slots: map<int, Value>)
    ensures HasRequired(FieldsOf(CALL_NAME), slots) <==> {1, 2, 3} <= slots.Keys
    ensures HasRequired(REGISTER_ARGS.fields, slots) <==> {1, 2} <= slots.Keys
    ensures HasRequired(FieldsOf(PING), slots) && HasRequired(FieldsOf(SHUTDOWN), slots)
    ensures forall ty | ty in {STATUS, RESPONSE, INFO, PING_RESULT, CALL_RESULT, APP_ERROR} ::
              HasRequired(ty.fields, slots)
  {
    var fs := FieldsOf(CALL_NAME);
    assert fs == CALL_ARGS.fields;
    assert fs[0].required && fs[1].required && fs[2].required;
    var gs := REGISTER_ARGS.fields;
    assert gs[0].required && gs[1].required;
  }

  /** What osquery receives for rows: a status with code 0 and "OK", and the rows. */
  lemma RowsWrittenAsOk(rows: seq<Row>)
    ensures ResponseText(ToWire(Rows(rows)))
         == [12, 0, 1, 8, 0, 1, 0, 0, 0, 0, 11, 0, 2, 0, 0, 0, 2, 79, 75, 0, 15, 0, 2] + RowsText(rows) + [0]
  {
    hide RowsText, EncInt;
    OkWritten();
    assert ToWire(Rows(rows)) == Response(Some(Status(Some(0), Some(OK_TEXT), None)), Some(rows));
    hide StatusText;
  }

  lemma OkWritten()
    ensures StatusText(Status(Some(0), Some(OK_TEXT), None))
         == [8, 0, 1, 0, 0, 0, 0, 11, 0, 2, 0, 0, 0, 2, 79, 75, 0]
  {
    CodeWritten();
    MessageWritten();
    hide OptInt, OptString;
    assert OptInt([10, 0, 3], None, 8) == [] by { NoInt(); }
  }

  lemma CodeWritten()
    ensures OptInt([8, 0, 1], Some(0), 4) == [8, 0, 1, 0, 0, 0, 0]
  {
    SmallInt(0);
    hide EncInt;
  }

  lemma MessageWritten()
    ensures OptString([11, 0, 2], Some(OK_TEXT)) == [11, 0, 2, 0, 0, 0, 2, 79, 75]
  {
    SmallInt(2);
    hide EncInt;
  }

  lemma NoInt()
    ensures OptInt([10, 0, 3], None, 8) == []
  {
  }

  lemma ZeroBytes()
    ensures BigEndian(0, 3) == [0, 0, 0]
  {
    assert BigEndian(0, 1) == BigEndian(0, 0) + [0];
    assert BigEndian(0, 2) == BigEndian(0, 1) + [0];
  }

  lemma SmallInt(n: int)
    requires 0 <= n < 256
    ensures EncInt(n, 4) == [0, 0, 0, n]
  {
    Widths();
    ZeroBytes();
    assert n % 0x1_0000_0000 == n && n / 256 == 0 && n % 256 == n;
    hide Width;
    assert BigEndian(n, 4) == BigEndian(0, 3) + [n];
    hide BigEndian;
  }
}
