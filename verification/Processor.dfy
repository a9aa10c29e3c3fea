/**
 ExtensionSyncProcessor: one buffered request in, one reply out. `Process` says what a single
 attempt on a buffer does; an attempt that hits the end of the buffer is `Incomplete` whatever
 reply it would have produced, since the server discards it.
 */
module Processor {
  import opened Bytes
  import opened Protocol
  import opened Schema
  import opened SchemaProofs
  import opened Wire
  import opened WireProofs

  /** A handler's thrift::Result: a value, an ApplicationError, or any other error's text. */
  datatype Reply<+T> =
    | Return(value: T)
    | AppError(kind: int, message: Text)
    | OtherError(message: Text)
  {
    function Map<U>(f: T -> U): Reply<U> {
      match this
      case Return(v) => Return(f(v))
      case AppError(k, m) => AppError(k, m)
      case OtherError(m) => OtherError(m)
    }
  }

  /** An ExtensionSyncHandler over a state it may change, and the texts errors print as. */
  datatype Handler<!S> = Handler(
    ping: S -> (S, Reply<Status>),
    call: (S, CallArgs) -> (S, Reply<Response>),
    shutdown: S -> (S, Reply<()>),
    faultText: Fault -> Text,
    unknownMethodText: Text -> Text)

  /** Run the method a known name stands for on its decoded arguments. */
  function Dispatch<S>(hd: Handler<S>, h: S, name: Text, args: Value): (S, Reply<Value>) {
    if name == PING then
      var (h', r) := hd.ping(h);
      (h', r.Map(s => Record(map[0 := StatusValue(s)])))
    else if name == CALL_NAME then
      var (h', r) := hd.call(h, CallArgsFrom(args));
      (h', r.Map(s => Record(map[0 := ResponseValue(s)])))
    else
      var (h', r) := hd.shutdown(h);
      (h', r.Map(_ => Record(map[])))
  }

  ghost function ExceptionText(name: Text, sequence: int, kind: int, message: Text): Text {
    EncMessageBegin(Message(name, EXCEPTION, sequence)) + Enc(APP_ERROR, AppErrorValue(kind, message))
  }

  ghost function ReplyText(name: Text, sequence: int, r: Reply<Value>): Text {
    match r
    case Return(v) => EncMessageBegin(Message(name, REPLY, sequence)) + Enc(ResultTy(name), v)
    case AppError(kind, message) => ExceptionText(name, sequence, kind, message)
    case OtherError(message) => ExceptionText(name, sequence, UNKNOWN_ERROR, message)
  }

  datatype Attempt<+S> =
    | Incomplete
    | Fatal
    | Done(state: S, reply: Text, consumed: nat)

  ghost function Process<S>(hd: Handler<S>, h: S, s: Text): Attempt<S> {
    match ReadMessageBegin(s, 0)
    case Err(f, _) => if f.HitEnd? then Incomplete else Fatal
    case Ok(m, i) =>
      if KnownMethod(m.name) then ProcessArgs(hd, h, m, s, i)
      else Done(h, ExceptionText(m.name, m.sequence, UNKNOWN_METHOD, hd.unknownMethodText(m.name)), i)
  }

  ghost function ProcessArgs<S>(hd: Handler<S>, h: S, m: Message, s: Text, i: nat): Attempt<S>
    requires i <= |s|
  {
    match Dec(ArgsTy(m.name), s, i)
    case Err(f, j) =>
      if f.HitEnd? then Incomplete
      else Done(h, ExceptionText(m.name, m.sequence, UNKNOWN_ERROR, hd.faultText(f)), j)
    case Ok(args, j) =>
      var (h', r) := Dispatch(hd, h, m.name, args);
      Done(h', ReplyText(m.name, m.sequence, r), j)
  }

  lemma ProcessBounds<S>(hd: Handler<S>, h: S, s: Text)
    ensures var a := Process(hd, h, s); a.Done? ==> 0 < a.consumed <= |s|
  {
    hide ReadMessageBegin, Dec, Dispatch, ReplyText, ExceptionText;
  }

  /** More bytes never change an attempt that did not run out of them. */
  lemma ProcessStable<S>(hd: Handler<S>, h: S, s: Text, more: Text)
    requires !Process(hd, h, s).Incomplete?
    ensures Process(hd, h, s + more) == Process(hd, h, s)
  {
    hide At, ReadMessageBegin, Dec, Dispatch, ReplyText, ExceptionText, ArgsTy, KnownMethod;
    AtStart(s, more);
    MessageBeginLocal(s, s + more, 0, 0);
    var m := ReadMessageBegin(s, 0);
    if m.Ok? { DecLocal(ArgsTy(m.value.name), s, s + more, 0, m.pos); }
  }

  // ----- a request written by a client

  /** What a request's handler returns, and the reply that goes on the wire. */
  ghost function Answer<S>(hd: Handler<S>, h: S, q: Request): (S, Text) {
    var (h', r) := match q
      case PingRequest(_) =>
        var (h', r) := hd.ping(h);
        (h', r.Map(s => Record(map[0 := StatusValue(s)])))
      case CallRequest(_, args) =>
        var (h', r) := hd.call(h, args);
        (h', r.Map(s => Record(map[0 := ResponseValue(s)])))
      case ShutdownRequest(_) =>
        var (h', r) := hd.shutdown(h);
        (h', r.Map(_ => Record(map[])));
    (h', ReplyText(q.Name(), q.sequence, r))
  }

  lemma HeaderRead(q: Request, rest: Text)
    requires q.Fits()
    ensures var head := EncMessageBegin(Message(q.Name(), CALL, q.sequence));
            |head| <= |q.Encode()|
                && ReadMessageBegin(q.Encode() + rest, 0) == Ok(Message(q.Name(), CALL, q.sequence), |head|)
            && At(q.Encode() + rest, |head|, Enc(ArgsTy(q.Name()), q.ArgsValue()))
  {
    var m := Message(q.Name(), CALL, q.sequence);
    var head, body := EncMessageBegin(m), Enc(ArgsTy(q.Name()), q.ArgsValue());
    AtStart(q.Encode(), rest);
    hide At, Enc, EncMessageBegin, ReadMessageBegin, ArgsTy;
    AtSplit(q.Encode() + rest, 0, head, body);
    MessageBeginAt(m, q.Encode() + rest, 0);
  }

  lemma ArgsRead(q: Request, rest: Text)
    requires q.Fits()
    ensures var i := |EncMessageBegin(Message(q.Name(), CALL, q.sequence))|;
            i <= |q.Encode()| &&
            Dec(ArgsTy(q.Name()), q.Encode() + rest, i) == Ok(Filled(ArgsTy(q.Name()), q.ArgsValue()), |q.Encode()|)
  {
    HeaderRead(q, rest);
    ArgsSchema(q.Name());
    hide Enc, Dec, At, Fits, WellFormed, ReadMessageBegin, EncMessageBegin, ArgsTy, Filled;
    DecEnc(ArgsTy(q.Name()), q.ArgsValue(), q.Encode() + rest, |EncMessageBegin(Message(q.Name(), CALL, q.sequence))|);
  }

  lemma DispatchAnswer<S>(hd: Handler<S>, h: S, q: Request)
    ensures var (h', r) := Dispatch(hd, h, q.Name(), Filled(ArgsTy(q.Name()), q.ArgsValue()));
            Answer(hd, h, q) == (h', ReplyText(q.Name(), q.sequence, r))
  {
    if q.CallRequest? { CallArgsFilled(q.args); }
    hide Filled, ReplyText, CALL_ARGS, CallArgsValue, CallArgsFrom;
  }

  /** One attempt on a whole request, whatever follows it, answers it and consumes exactly it. */
  lemma ProcessRequest<S>(hd: Handler<S>, h: S, q: Request, rest: Text)
    requires q.Fits()
    ensures var (h', reply) := Answer(hd, h, q);
            Process(hd, h, q.Encode() + rest) == Done(h', reply, |q.Encode()|)
  {
    assert KnownMethod(q.Name());
    hide Request.Encode, Request.Fits, Request.Name, Request.ArgsValue, Dec;
    hide ReadMessageBegin, EncMessageBegin, ReplyText, ExceptionText;
    hide Answer, Dispatch, KnownMethod, Filled, ArgsTy, At;
    HeaderRead(q, rest);
    ArgsRead(q, rest);
    DispatchAnswer(hd, h, q);
  }

  lemma CutShort<S>(hd: Handler<S>, h: S, part: Text, rest: Text)
    ensures var a := Process(hd, h, part + rest); a.Done? && a.consumed > |part| ==> Process(hd, h, part).Incomplete?
  {
    hide Process;
    if !Process(hd, h, part).Incomplete? {
      ProcessStable(hd, h, part, rest);
      ProcessBounds(hd, h, part);
    }
  }

  /** A proper prefix of a request, even an empty one, is incomplete: no handler runs on it. */
  lemma PrefixIncomplete<S>(hd: Handler<S>, h: S, q: Request, n: nat)
    requires q.Fits() && n < |q.Encode()|
    ensures Process(hd, h, q.Encode()[..n]).Incomplete?
  {
    hide Process, Answer, Request.Encode, Request.Fits;
    var whole := q.Encode();
    ProcessRequest(hd, h, q, []);
    assert whole[..n] + whole[n..] == whole + [];
    CutShort(hd, h, whole[..n], whole[n..]);
  }

  /**
   A message for a method the processor does not know is answered from its header alone: whatever
   arguments follow stay in the buffer, so such a message is consumed whole exactly when it has none.
   */
  lemma UnknownMethodUnread<S>(hd: Handler<S>, h: S, name: Text, sequence: int, args: Text)
    requires !KnownMethod(name) && |name| < MAX_SIZE && InRange(sequence, 4)
    ensures var head := EncMessageBegin(Message(name, CALL, sequence));
            var a := Process(hd, h, head + args);
            && a == Done(h, ExceptionText(name, sequence, UNKNOWN_METHOD, hd.unknownMethodText(name)), |head|)
            && (a.consumed == |head + args| <==> args == [])
  {
    var m := Message(name, CALL, sequence);
    AtStart(EncMessageBegin(m), args);
    hide At, EncMessageBegin, ReadMessageBegin, ExceptionText, KnownMethod;
    MessageBeginAt(m, EncMessageBegin(m) + args, 0);
  }
}
