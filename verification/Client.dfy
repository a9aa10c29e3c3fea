/**
 The calling side: sequence numbers, reply headers, and folding a reply into rows or an error.
 Together with the processor this follows a plugin's outcome all the way to the caller.
 */
module Client {
  import opened Bytes
  import opened Protocol
  import opened Schema
  import opened SchemaProofs
  import opened FieldProofs
  import opened Wire
  import opened WireProofs
  import opened Processor
  import opened Replies
  import opened Streams

  /** A plugin's Result: rows, a status it chose, or any other error with its printed text. */
  datatype Outcome =
    | Rows(rows: seq<Row>)
    | StatusError(code: int, message: Text)
    | OtherFailure(text: Text)

  type CallResult = Received<Outcome>

  const OK_TEXT: Text := [79, 75]

  /** `plugin_response_to_wire` */
  function ToWire(o: Outcome): Response {
    match o
    case Rows(rows) => Response(Some(Status(Some(0), Some(OK_TEXT), None)), Some(rows))
    case StatusError(code, message) => Response(Some(Status(Some(code), Some(message), None)), None)
    case OtherFailure(text) => Response(Some(Status(Some(1), Some(text), None)), None)
  }

  datatype Folded = Accepted(uuid: Option<int>) | Rejected(error: Outcome)

  const MISSING_STATUS: Text := []

  /** `status_ok`; the text of its own error is left empty. */
  function StatusOk(status: Option<Status>): Folded {
    if status.None? then Rejected(OtherFailure(MISSING_STATUS)) else
      var code := if status.value.code.Some? then status.value.code.value else -1;
      if code == 0 then Accepted(status.value.uuid)
      else Rejected(StatusError(code, if status.value.message.Some? then status.value.message.value else []))
  }

  /** `response_rows` */
  function ResponseRows(r: Response): Outcome {
    match StatusOk(r.status)
    case Rejected(e) => e
    case Accepted(_) => Rows(if r.rows.Some? then r.rows.value else [])
  }

  // ----- reading a reply

  function ResultOfCall(v: Value): CallResult {
    var x := SlotOf(v, 0);
    if x.None? then NoResult else Answered(ResponseRows(ResponseFrom(x.value)))
  }

  /** The receiving half of `call`, and where it leaves the input. */
  function ReadCallReply(sequence: int, s: Text, i: nat): (CallResult, nat)
    requires i <= |s|
  {
    ReadReply(CALL_NAME, CALL_RESULT, ResultOfCall, sequence, s, i)
  }

  function ResultOfPing(v: Value): Received<Status> {
    var x := SlotOf(v, 0);
    if x.None? then NoResult else Answered(StatusFrom(x.value))
  }

  /** The receiving half of `ping`. */
  function ReadPingReply(sequence: int, s: Text, i: nat): (Received<Status>, nat)
    requires i <= |s|
  {
    ReadReply(PING, PING_RESULT, ResultOfPing, sequence, s, i)
  }

  function ResultOfShutdown(v: Value): Received<()> {
    Answered(())
  }

  /** The receiving half of `shutdown`. */
  function ReadShutdownReply(sequence: int, s: Text, i: nat): (Received<()>, nat)
    requires i <= |s|
  {
    ReadReply(SHUTDOWN, EMPTY, ResultOfShutdown, sequence, s, i)
  }

  const LAST_SEQUENCE: int := 0x7FFF_FFFF

  /** ExtensionSyncClient: each call numbers its request one above the last. */
  class SyncClient {
    var sequence: int

    constructor ()
      ensures sequence == 0
    {
      sequence := 0;
    }

    /** The sending half of every method. */
    method Send(name: Text, ty: Ty, args: Value, output: OutputProtocol)
      requires sequence < LAST_SEQUENCE
      modifies this, output
      ensures sequence == old(sequence) + 1
      ensures output.out == old(output.out) + (EncMessageBegin(Message(name, CALL, sequence)) + Enc(ty, args))
    {
      sequence := sequence + 1;
      var m := Message(name, CALL, sequence);
      output.Write(EncMessageBegin(m));
      output.WriteValue(ty, args);
      hide EncMessageBegin, Enc;
      Regroup(old(output.out), EncMessageBegin(m), Enc(ty, args));
    }

    method SendPing(output: OutputProtocol)
      requires sequence < LAST_SEQUENCE
      modifies this, output
      ensures sequence == old(sequence) + 1 && output.out == old(output.out) + PingRequest(sequence).Encode()
    {
      Send(PING, EMPTY, Record(map[]), output);
    }

    method SendCall(args: CallArgs, output: OutputProtocol)
      requires sequence < LAST_SEQUENCE
      modifies this, output
      ensures sequence == old(sequence) + 1
      ensures output.out == old(output.out) + CallRequest(sequence, args).Encode()
    {
      Send(CALL_NAME, CALL_ARGS, CallArgsValue(args), output);
    }

    method SendShutdown(output: OutputProtocol)
      requires sequence < LAST_SEQUENCE
      modifies this, output
      ensures sequence == old(sequence) + 1 && output.out == old(output.out) + ShutdownRequest(sequence).Encode()
    {
      Send(SHUTDOWN, EMPTY, Record(map[]), output);
    }

    /** The receiving half of every method. */
    method Receive<T>(name: Text, ty: Ty, result: Value -> Received<T>, input: InputProtocol)
      returns (r: Received<T>)
      requires input.Valid()
      modifies input
      ensures input.Valid() && sequence == old(sequence)
      ensures (r, input.pos) == ReadReply(name, ty, result, sequence, input.bytes, old(input.pos))
    {
      hide Protocol.ReadMessageBegin, Dec;
      var header := input.ReadMessageBegin();
      if header.Err? {
        return Unreadable(header.fault);
      }
      var m := header.value;
      if m.sequence != sequence {
        return WrongSequence;
      } else if m.name != name {
        return WrongMethod;
      } else if m.kind == EXCEPTION {
        var e := input.ReadValue(APP_ERROR);
        return if e.Err? then Unreadable(e.fault) else RemoteError(e.value);
      } else if m.kind != REPLY {
        return WrongMessageType;
      }
      var v := input.ReadValue(ty);
      return if v.Err? then Unreadable(v.fault) else result(v.value);
    }

    method ReceivePing(input: InputProtocol) returns (r: Received<Status>)
      requires input.Valid()
      modifies input
      ensures input.Valid() && sequence == old(sequence)
      ensures (r, input.pos) == ReadPingReply(sequence, input.bytes, old(input.pos))
    {
      r := Receive(PING, PING_RESULT, ResultOfPing, input);
    }

    method ReceiveCall(input: InputProtocol) returns (r: CallResult)
      requires input.Valid()
      modifies input
      ensures input.Valid() && sequence == old(sequence)
      ensures (r, input.pos) == ReadCallReply(sequence, input.bytes, old(input.pos))
    {
      r := Receive(CALL_NAME, CALL_RESULT, ResultOfCall, input);
    }

    method ReceiveShutdown(input: InputProtocol) returns (r: Received<()>)
      requires input.Valid()
      modifies input
      ensures input.Valid() && sequence == old(sequence)
      ensures (r, input.pos) == ReadShutdownReply(sequence, input.bytes, old(input.pos))
    {
      r := Receive(SHUTDOWN, EMPTY, ResultOfShutdown, input);
    }
  }

  // ----- folding a status that came over the wire

  /** A missing code is refused as -1 when folded directly, and accepted once it has been read off the wire. */
  lemma MissingCode(s: Status)
    ensures StatusOk(Some(s)).Accepted? <==> s.code == Some(0)
    ensures StatusOk(Some(StatusFrom(Filled(STATUS, StatusValue(s))))).Accepted?
        <==> s.code == Some(0) || s.code == None
    ensures s.code == None ==>
              StatusOk(Some(s)) == Rejected(StatusError(-1, if s.message.Some? then s.message.value else []))
  {
    StatusFilled(s);
  }

  /** The fold gives the same before and after the wire exactly when nothing it looks at was missing. */
  lemma WireFoldFaithful(s: Status)
    ensures StatusOk(Some(s)) == StatusOk(Some(StatusFrom(Filled(STATUS, StatusValue(s)))))
            <==> s.code.Some? && (s.code == Some(0) ==> s.uuid.Some?)
  {
    StatusFilled(s);
  }

  /** It accepts or refuses alike exactly when the status carries a code. */
  lemma WireFoldAlike(s: Status)
    ensures StatusOk(Some(s)).Accepted? == StatusOk(Some(StatusFrom(Filled(STATUS, StatusValue(s))))).Accepted?
        <==> s.code.Some?
  {
    StatusFilled(s);
  }

  /** A registration reply never lacks a uuid once read: one that carried none, but is accepted, yields uuid 0. */
  lemma RegistrationUuid(s: Status)
    ensures var read := StatusOk(Some(StatusFrom(Filled(STATUS, StatusValue(s)))));
            if s.code == Some(0) || s.code == None then read == Accepted(if s.uuid.Some? then s.uuid else Some(0))
            else read.Rejected?
  {
    StatusFilled(s);
  }

  // ----- from the plugin to the caller

  /** What the caller sees of a plugin's outcome. */
  function Delivered(o: Outcome): Outcome {
    match o
    case Rows(_) => o
    case StatusError(code, _) => if code == 0 then Rows([]) else o
    case OtherFailure(text) => StatusError(1, text)
  }

  /** Folding the decoded reply gives the delivered outcome. */
  lemma WireOutcome(o: Outcome)
    ensures ResponseRows(ResponseFrom(Filled(RESPONSE, ResponseValue(ToWire(o))))) == Delivered(o)
  {
    ResponseFilled(ToWire(o));
    hide Filled, ResponseFrom, ResponseValue;
  }

  /** The outcome arrives as it left exactly when it is rows or a status with a non-zero code. */
  lemma DeliveredFaithful(o: Outcome)
    ensures ResponseRows(ResponseFrom(Filled(RESPONSE, ResponseValue(ToWire(o))))) == o
            <==> o.Rows? || (o.StatusError? && o.code != 0)
  {
    hide Filled, ResponseFrom, ResponseValue, ResponseRows, ToWire;
    WireOutcome(o);
  }

  function CallResultValue(o: Outcome): Value {
    Record(map[0 := ResponseValue(ToWire(o))])
  }

  lemma ResultFilled(o: Outcome)
    ensures ResultOfCall(Filled(CALL_RESULT, CallResultValue(o))) == Answered(Delivered(o))
  {
    ResultSchema(CALL_NAME);
    WireOutcome(o);
    hide Filled, WellFormed, RESPONSE, ResponseValue, ResponseRows, ResponseFrom, Delivered;
    FilledStruct(CALL_RESULT.fields, CallResultValue(o).slots, 0);
  }

  lemma ResultTypes()
    ensures ResultTy(PING) == PING_RESULT && ResultTy(CALL_NAME) == CALL_RESULT && ResultTy(SHUTDOWN) == EMPTY
    ensures |PING| < MAX_SIZE && |CALL_NAME| < MAX_SIZE && |SHUTDOWN| < MAX_SIZE
  {
  }

  ghost predicate OutcomeFits(o: Outcome) {
    Fits(CALL_RESULT, CallResultValue(o))
  }

  lemma CallBack(r: Reply<Outcome>)
    ensures Back(CALL_RESULT, ResultOfCall, r.Map(CallResultValue)) == Seen(r, Delivered)
  {
    if r.Return? { ResultFilled(r.value); }
    hide CallResultValue, Delivered, ResultOfCall, Filled, CALL_RESULT;
  }

  /** Every reply to a call, rows or errors, reaches the caller as what it was, and no byte further is read. */
  lemma CallReadBack(sequence: int, r: Reply<Outcome>, s: Text, i: nat)
    requires ReplyFits(CALL_RESULT, sequence, r.Map(CallResultValue))
    requires At(s, i, ReplyText(CALL_NAME, sequence, r.Map(CallResultValue)))
    ensures ReadCallReply(sequence, s, i)
         == (Seen(r, Delivered), i + |ReplyText(CALL_NAME, sequence, r.Map(CallResultValue))|)
  {
    hide At, ReplyText, ReplyFits, ReadReply, CallResultValue, Delivered, ResultOfCall, CALL_RESULT, Seen, Back;
    hide ResultTy, PING, CALL_NAME, SHUTDOWN;
    ResultTypes();
    CallBack(r);
    Replies.ReplyReadBack(CALL_NAME, CALL_RESULT, ResultOfCall, sequence, r.Map(CallResultValue), s, i);
  }

  // ----- ping and shutdown

  function PingResultValue(s: Status): Value {
    Record(map[0 := StatusValue(s)])
  }

  lemma PingFilled(s: Status)
    ensures ResultOfPing(Filled(PING_RESULT, PingResultValue(s))) == Answered(FilledStatus(s))
  {
    ResultSchema(PING);
    StatusFilled(s);
    hide Filled, WellFormed, STATUS, StatusValue, StatusFrom, FilledStatus;
    FilledStruct(PING_RESULT.fields, PingResultValue(s).slots, 0);
  }

  lemma PingBack(r: Reply<Status>)
    ensures Back(PING_RESULT, ResultOfPing, r.Map(PingResultValue)) == Seen(r, FilledStatus)
  {
    if r.Return? { PingFilled(r.value); }
    hide PingResultValue, FilledStatus, ResultOfPing, Filled, PING_RESULT;
  }

  /** Every reply to a ping reaches the caller: the status, absent parts filled, or the error it was. */
  lemma PingReadBack(sequence: int, r: Reply<Status>, s: Text, i: nat)
    requires ReplyFits(PING_RESULT, sequence, r.Map(PingResultValue))
    requires At(s, i, ReplyText(PING, sequence, r.Map(PingResultValue)))
    ensures ReadPingReply(sequence, s, i)
         == (Seen(r, FilledStatus), i + |ReplyText(PING, sequence, r.Map(PingResultValue))|)
  {
    hide At, ReplyText, ReplyFits, ReadReply, PingResultValue, FilledStatus, ResultOfPing, PING_RESULT, Seen, Back;
    hide ResultTy, PING, CALL_NAME, SHUTDOWN;
    ResultTypes();
    PingBack(r);
    Replies.ReplyReadBack(PING, PING_RESULT, ResultOfPing, sequence, r.Map(PingResultValue), s, i);
  }

  function NoValue(u: ()): Value {
    Record(map[])
  }

  function Unit(u: ()): () {
    ()
  }

  /** So does every reply to a shutdown request. */
  lemma ShutdownReadBack(sequence: int, r: Reply<()>, s: Text, i: nat)
    requires ReplyFits(EMPTY, sequence, r.Map(NoValue))
    requires At(s, i, ReplyText(SHUTDOWN, sequence, r.Map(NoValue)))
    ensures ReadShutdownReply(sequence, s, i)
         == (Seen(r, Unit), i + |ReplyText(SHUTDOWN, sequence, r.Map(NoValue))|)
  {
    hide At, ReplyText, ReplyFits, ReadReply, NoValue, Filled, EMPTY;
    ResultTypes();
    hide ResultTy, PING, CALL_NAME, SHUTDOWN;
    Replies.ReplyReadBack(SHUTDOWN, EMPTY, ResultOfShutdown, sequence, r.Map(NoValue), s, i);
  }
}
