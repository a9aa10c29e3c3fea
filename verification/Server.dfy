/** The processor and serve_connection in their own shape: objects, buffers and nested loops. */
module Server {
  import opened Bytes
  import opened Protocol
  import opened Schema
  import opened Wire
  import opened Processor
  import opened Serving
  import opened Streams

  ghost function Max(a: nat, b: nat): nat {
    if a < b then b else a
  }

  class SyncProcessor<S> {
    const handler: Handler<S>
    var state: S
    ghost var largest: nat              // the most bytes any attempt was given

    constructor (handler: Handler<S>, state: S)
      ensures this.handler == handler && this.state == state && largest == 0
    {
      this.handler, this.state := handler, state;
      largest := 0;
    }

    /**
     `TProcessor::process`. A parse fault is turned into an error reply rather than propagated, so
     the only failure is an unreadable header; the flag on `input` tells an aborted attempt apart.
     */
    method Process(input: InputProtocol, output: OutputProtocol) returns (ok: bool)
      requires input.Valid() && input.pos == 0 && !input.hitEnd && output.out == []
      modifies this, input, output
      ensures input.Valid() && largest == Max(old(largest), |input.bytes|)
      ensures match Processor.Process(handler, old(state), input.bytes)
              case Incomplete => input.hitEnd && state == old(state)
              case Fatal => !input.hitEnd && !ok && state == old(state)
              case Done(h, reply, n) => !input.hitEnd && ok && state == h && output.out == reply && input.pos == n
    {
      hide Protocol.ReadMessageBegin, Dec, Enc, EncMessageBegin, Dispatch, ArgsTy, ResultTy;
      largest := Max(largest, |input.bytes|);
      var header := input.ReadMessageBegin();
      if header.Err? {
        return false;
      }
      var m := header.value;
      if KnownMethod(m.name) {
        var args := input.ReadValue(ArgsTy(m.name));
        if args.Err? {
          WriteException(m, UNKNOWN_ERROR, handler.faultText(args.fault), output);
          return true;
        }
        var (next, r) := Dispatch(handler, state, m.name, args.value);
        state := next;
        match r
        case Return(v) =>
          output.Write(EncMessageBegin(Message(m.name, REPLY, m.sequence)));
          output.WriteValue(ResultTy(m.name), v);
          Regroup([], EncMessageBegin(Message(m.name, REPLY, m.sequence)), Enc(ResultTy(m.name), v));
        case AppError(kind, message) => WriteException(m, kind, message, output);
        case OtherError(message) => WriteException(m, UNKNOWN_ERROR, message, output);
      } else {
        WriteException(m, UNKNOWN_METHOD, handler.unknownMethodText(m.name), output);
      }
      return true;
    }

    method WriteException(m: Message, kind: int, message: Text, output: OutputProtocol)
      requires output.out == []
      modifies output
      ensures output.out == ExceptionText(m.name, m.sequence, kind, message)
    {
      hide Enc, EncMessageBegin;
      output.Write(EncMessageBegin(Message(m.name, EXCEPTION, m.sequence)));
      output.WriteValue(APP_ERROR, AppErrorValue(kind, message));
    }
  }

  /**
   `serve_connection` over the reads `feed` delivers, stopping early when the connection closes.
   No attempt is ever made on more than the limit, and what is buffered when the reads end, or the
   connection does, is at most the limit and one chunk.
   */
  method ServeConnection<S>(processor: SyncProcessor<S>, feed: seq<Read>)
    returns (written: Text, requests: Text, end: End)
    modifies processor
    ensures processor.largest <= Max(old(processor.largest), MAX_REQUEST_BYTES)
    ensures Connection(processor.state, written, requests, end) ==
        Serve(processor.handler, old(processor.state), [], [], feed)
    ensures |requests| <= MAX_REQUEST_BYTES + READ_CHUNK_BYTES && (end != TooLarge ==> |requests| <= MAX_REQUEST_BYTES)
  {
    hide Processor.Process;
    requests, written := [], [];
    for i := 0 to |feed|
      invariant |requests| <= MAX_REQUEST_BYTES
      invariant processor.largest <= Max(old(processor.largest), MAX_REQUEST_BYTES)
      invariant Serve(processor.handler, processor.state, requests, written, feed[i..])
             == Serve(processor.handler, old(processor.state), [], [], feed)
    {
      assert feed[i..][0] == feed[i] && feed[i..][1..] == feed[i + 1..];
      match feed[i]
      case Failed => return written, requests, ReadFailed;
      case Closed => return written, requests, if requests == [] then Disconnected else MidRequest;
      case Data(received) =>
        if received == [] {
          return written, requests, if requests == [] then Disconnected else MidRequest;
        }
        if |received| > READ_CHUNK_BYTES {
          return written, requests, BadRead;
        }
        requests := requests + received;
        if |requests| > MAX_REQUEST_BYTES {
          return written, requests, TooLarge;
        }
        var fatal := false;
        written, requests, fatal := ServeBuffered(processor, requests, written);
        if fatal {
          return written, requests, ProcessorError;
        }
    }
    end := Waiting;
    assert feed[|feed|..] == [];
  }

  /** The inner loop: answer what is buffered, draining exactly what each request consumed. */
  method ServeBuffered<S>(processor: SyncProcessor<S>, buffered: Text, said: Text)
    returns (written: Text, requests: Text, fatal: bool)
    modifies processor
    ensures processor.largest <= Max(old(processor.largest), |buffered|)
    ensures var d := Drain(processor.handler, old(processor.state), buffered);
            written == said + d.written && requests == d.rest && fatal == d.fatal && processor.state == d.state
    ensures |requests| <= |buffered|
  {
    hide Processor.Process;
    requests, written, fatal := buffered, said, false;
    while requests != []
      invariant |requests| <= |buffered|
      invariant processor.largest <= Max(old(processor.largest), |buffered|)
      invariant var d, e := Drain(processor.handler, old(processor.state), buffered),
          Drain(processor.handler, processor.state, requests);
                d == e.(written := d.written) && said + d.written == written + e.written
      decreases |requests|
    {
      var input := new InputProtocol(requests);
      var output := new OutputProtocol();
      ProcessBounds(processor.handler, processor.state, requests);
      var ok := processor.Process(input, output);
      if input.hitEnd {
        return;
      }
      if !ok {
        return written, requests, true;
      }
      requests := requests[input.pos..];
      written := written + output.out;
      Regroup(written[..|written| - |output.out|], output.out,
          Drain(processor.handler, processor.state, requests).written);
    }
  }
}
