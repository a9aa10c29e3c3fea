/**
 The receiving half of a client call, which the generated client repeats for every method: the checks
 on the header, then the result or the remote error. Every reply of the processor is read back as what
 it was by the call it answers, and refused by any other.
 */
module Replies {
  import opened Bytes
  import opened Protocol
  import opened Schema
  import opened SchemaProofs
  import opened FieldProofs
  import opened Wire
  import opened WireProofs
  import opened Processor

  /** What a client call returns: the method's result, or a failure of the call itself. */
  datatype Received<+T> =
    | Answered(value: T)
    | Remote(kind: int, message: Text)
    | WrongSequence
    | WrongMethod
    | WrongMessageType
    | NoResult
    | Unreadable(fault: Fault)

  function RemoteError<T>(v: Value): Received<T> {
    var message, kind := TextAt(v, 1), Wire.IntAt(v, 2);
    Remote(if kind.Some? then kind.value else UNKNOWN_ERROR, if message.Some? then message.value else [])
  }

  /** The result of a method, and where its reply leaves the input; `result` is the method's `ok_or`. */
  function ReadReply<T>(name: Text, ty: Ty, result: Value -> Received<T>, sequence: int, s: Text, i: nat)
    : (r: (Received<T>, nat))
    requires i <= |s|
  {
    match ReadMessageBegin(s, i)
    case Err(f, j) => (Unreadable(f), j)
    case Ok(m, j) => ReadBody(name, ty, result, sequence, m, s, j)
  }

  function ReadBody<T>(name: Text, ty: Ty, result: Value -> Received<T>, sequence: int, m: Message, s: Text, j: nat)
    : (r: (Received<T>, nat))
    requires j <= |s|
  {
    if m.sequence != sequence then (WrongSequence, j)
    else if m.name != name then (WrongMethod, j)
    else if m.kind == EXCEPTION then
      match Dec(APP_ERROR, s, j)
      case Err(f, k) => (Unreadable(f), k)
      case Ok(v, k) => (RemoteError(v), k)
    else if m.kind != REPLY then (WrongMessageType, j)
    else
      match Dec(ty, s, j)
      case Err(f, k) => (Unreadable(f), k)
      case Ok(v, k) => (result(v), k)
  }

  // ----- what the checks let through

  ghost predicate HeaderFits(m: Message) {
    CALL <= m.kind <= ONEWAY && |m.name| < MAX_SIZE && InRange(m.sequence, 4)
  }

  /** A reply under another number is refused first, then one to another method, then one that is no reply. */
  lemma HeaderChecked<T>(name: Text, ty: Ty, result: Value -> Received<T>, sequence: int,
                         m: Message, rest: Text, s: Text, i: nat)
    requires HeaderFits(m) && At(s, i, EncMessageBegin(m) + rest)
    requires forall v :: result(v).Answered? || result(v).NoResult?
    ensures var (r, end) := ReadReply(name, ty, result, sequence, s, i);
            && (m.sequence != sequence <==> r.WrongSequence?)
            && (m.sequence == sequence && m.name != name <==> r.WrongMethod?)
            && (m.sequence == sequence && m.name == name && (m.kind == CALL || m.kind == ONEWAY) <==>
                  r.WrongMessageType?)
            && (r.WrongSequence? || r.WrongMethod? || r.WrongMessageType? ==> end == i + |EncMessageBegin(m)|)
            && (r.Answered? || r.NoResult? ==> m == Message(name, REPLY, sequence))
            && (r.Remote? ==> m == Message(name, EXCEPTION, sequence))
  {
    AtSplit(s, i, EncMessageBegin(m), rest);
    hide At, EncMessageBegin, ReadMessageBegin, Dec, APP_ERROR;
    MessageBeginAt(m, s, i);
  }

  // ----- reading back

  /** A result on the wire, whatever follows it, is read back filled, and no further. */
  lemma ResultReadBack<T>(name: Text, ty: Ty, result: Value -> Received<T>, sequence: int,
                          v: Value, s: Text, i: nat)
    requires |name| < MAX_SIZE && InRange(sequence, 4) && WellFormed(ty) && Fits(ty, v)
    requires At(s, i, EncMessageBegin(Message(name, REPLY, sequence)) + Enc(ty, v))
    ensures ReadReply(name, ty, result, sequence, s, i)
         == (result(Filled(ty, v)), i + |EncMessageBegin(Message(name, REPLY, sequence)) + Enc(ty, v)|)
  {
    var m := Message(name, REPLY, sequence);
    hide At, Enc, Dec, EncMessageBegin, ReadMessageBegin, Fits, WellFormed, InRange, Filled;
    AtSplit(s, i, EncMessageBegin(m), Enc(ty, v));
    MessageBeginAt(m, s, i);
    DecEnc(ty, v, s, i + |EncMessageBegin(m)|);
  }

  predicate AppErrorFits(sequence: int, kind: int, message: Text) {
    InRange(sequence, 4) && InRange(kind, 4) && |message| < MAX_SIZE
  }

  lemma AppErrorFilled<T>(kind: int, message: Text)
    ensures RemoteError<T>(Filled(APP_ERROR, AppErrorValue(kind, message))) == Remote(kind, message)
  {
    AppErrorSchema();
    FilledScalar(String, Str(message));
    FilledScalar(I32, Int(kind));
    hide Filled, WellFormed;
    var fs, slots := APP_ERROR.fields, AppErrorValue(kind, message).slots;
    FilledStruct(fs, slots, 0);
    FilledStruct(fs, slots, 1);
  }

  lemma AppErrorValueFits(kind: int, message: Text)
    requires InRange(kind, 4) && |message| < MAX_SIZE
    ensures Fits(APP_ERROR, AppErrorValue(kind, message))
  {
  }

  /** An exception on the wire, whatever follows it, is read back with its kind and message, and no further. */
  lemma ExceptionReadBack<T>(name: Text, ty: Ty, result: Value -> Received<T>, sequence: int,
                             kind: int, message: Text, s: Text, i: nat)
    requires |name| < MAX_SIZE && AppErrorFits(sequence, kind, message)
    requires At(s, i, ExceptionText(name, sequence, kind, message))
    ensures ReadReply(name, ty, result, sequence, s, i)
         == (Remote(kind, message), i + |ExceptionText(name, sequence, kind, message)|)
  {
    var m := Message(name, EXCEPTION, sequence);
    var v := AppErrorValue(kind, message);
    var head, body := EncMessageBegin(m), Enc(APP_ERROR, v);
    hide At, Enc, Dec, EncMessageBegin, ReadMessageBegin, Fits;
    hide WellFormed, InRange, APP_ERROR, AppErrorValue, Filled, RemoteError;
    AppErrorSchema();
    AppErrorValueFits(kind, message);
    AppErrorFilled<T>(kind, message);
    AtSplit(s, i, head, body);
    MessageBeginAt(m, s, i);
    DecEnc(APP_ERROR, v, s, i + |head|);
  }

  /** What the caller sees of a call, by what the handler returned and what its value becomes on the way. */
  function Seen<T, U>(r: Reply<T>, back: T -> U): Received<U> {
    match r
    case Return(v) => Answered(back(v))
    case AppError(kind, message) => Remote(kind, message)
    case OtherError(message) => Remote(UNKNOWN_ERROR, message)
  }

  ghost function Back<T>(ty: Ty, result: Value -> Received<T>, r: Reply<Value>): Received<T> {
    match r
    case Return(v) => result(Filled(ty, v))
    case AppError(kind, message) => Remote(kind, message)
    case OtherError(message) => Remote(UNKNOWN_ERROR, message)
  }

  ghost predicate ReplyFits(ty: Ty, sequence: int, r: Reply<Value>) {
    match r
    case Return(v) => InRange(sequence, 4) && Fits(ty, v)
    case AppError(kind, message) => AppErrorFits(sequence, kind, message)
    case OtherError(message) => AppErrorFits(sequence, UNKNOWN_ERROR, message)
  }

  /** Every reply of the processor is read back by the method it answers: its result, or the error it was. */
  lemma ReplyReadBack<T>(name: Text, ty: Ty, result: Value -> Received<T>, sequence: int,
                         r: Reply<Value>, s: Text, i: nat)
    requires |name| < MAX_SIZE && ty == ResultTy(name) && ReplyFits(ty, sequence, r)
    requires At(s, i, ReplyText(name, sequence, r))
    ensures ReadReply(name, ty, result, sequence, s, i) == (Back(ty, result, r), i + |ReplyText(name, sequence, r)|)
  {
    hide At, ReadReply, ExceptionText, Fits, AppErrorFits, EncMessageBegin, Enc, Filled, WellFormed;
    ResultSchema(name);
    hide ResultTy;
    match r
    case Return(v) => ResultReadBack(name, ty, result, sequence, v, s, i);
    case AppError(kind, message) => ExceptionReadBack(name, ty, result, sequence, kind, message, s, i);
    case OtherError(message) => ExceptionReadBack(name, ty, result, sequence, UNKNOWN_ERROR, message, s, i);
  }

  /** The header every reply begins with. */
  function HeaderOf<T>(name: Text, sequence: int, r: Reply<T>): Message {
    Message(name, if r.Return? then REPLY else EXCEPTION, sequence)
  }

  lemma ReplyBegins(name: Text, sequence: int, r: Reply<Value>) returns (rest: Text)
    ensures ReplyText(name, sequence, r) == EncMessageBegin(HeaderOf(name, sequence, r)) + rest
  {
    hide EncMessageBegin, Enc;
    match r
    case Return(v) => rest := Enc(ResultTy(name), v);
    case AppError(kind, message) => rest := Enc(APP_ERROR, AppErrorValue(kind, message));
    case OtherError(message) => rest := Enc(APP_ERROR, AppErrorValue(UNKNOWN_ERROR, message));
  }
}
