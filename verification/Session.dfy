/** A client's whole run of requests, of any methods, through the chunked server and back. */
module Session {
  import opened Bytes
  import opened Protocol
  import opened Schema
  import opened Wire
  import opened WireProofs
  import opened Processor
  import opened Messages
  import opened Serving
  import opened RequestStreams
  import opened Replies
  import opened Client

  /** A handler whose `call` is a plugin: `plugin_response_to_wire` applied to its outcome. */
  function PluginHandler<S>(plugin: (S, CallArgs) -> (S, Outcome), base: Handler<S>): Handler<S> {
    base.(call := (h: S, a: CallArgs) => var (h', o) := plugin(h, a); (h', Return(ToWire(o))))
  }

  /** A method of the client, with its arguments. */
  datatype Ask = AskPing | AskCall(args: CallArgs) | AskShutdown

  /** What the method returns. */
  datatype Heard = Pinged(status: Received<Status>) | Called(result: CallResult) | ShutDown(done: Received<()>)

  function Numbered(ask: Ask, n: int): Request {
    match ask
    case AskPing => PingRequest(n)
    case AskCall(args) => CallRequest(n, args)
    case AskShutdown => ShutdownRequest(n)
  }

  /** The requests a client at sequence number `n` sends. */
  ghost function Requests(n: int, asks: seq<Ask>): seq<Sent>
    decreases asks
  {
    if asks == [] then [] else [Written(Numbered(asks[0], n + 1))] + Requests(n + 1, asks[1..])
  }

  /** The receiving half of the method. */
  function Receive(ask: Ask, n: int, s: Text, i: nat): (Heard, nat)
    requires i <= |s|
  {
    match ask
    case AskPing => var (r, j) := ReadPingReply(n, s, i); (Pinged(r), j)
    case AskCall(_) => var (r, j) := ReadCallReply(n, s, i); (Called(r), j)
    case AskShutdown => var (r, j) := ReadShutdownReply(n, s, i); (ShutDown(r), j)
  }

  /** The client reading one reply after another. */
  function ReceiveAll(asks: seq<Ask>, n: int, s: Text, i: nat): seq<Heard>
    requires i <= |s|
    decreases asks
  {
    if asks == [] then [] else
      var (r, j) := Receive(asks[0], n + 1, s, i);
      if j <= |s| then [r] + ReceiveAll(asks[1..], n + 1, s, j) else [r]
  }

  /** What the handler and the plugin have to say to it, and the state that leaves them in. */
  function Due<S>(plugin: (S, CallArgs) -> (S, Outcome), base: Handler<S>, h: S, ask: Ask): (S, Heard) {
    match ask
    case AskPing => var (h', r) := base.ping(h); (h', Pinged(Seen(r, FilledStatus)))
    case AskCall(args) => var (h', o) := plugin(h, args); (h', Called(Answered(Delivered(o))))
    case AskShutdown => var (h', r) := base.shutdown(h); (h', ShutDown(Seen(r, Unit)))
  }

  /** To all of them in order, each on the state the last one left. */
  function DueAll<S>(plugin: (S, CallArgs) -> (S, Outcome), base: Handler<S>, h: S, asks: seq<Ask>): seq<Heard> {
    if asks == [] then [] else
      var (h', heard) := Due(plugin, base, h, asks[0]);
      [heard] + DueAll(plugin, base, h', asks[1..])
  }

  /** The reply stays within the format's limits. */
  ghost predicate DueFits<S>(plugin: (S, CallArgs) -> (S, Outcome), base: Handler<S>, h: S, ask: Ask, n: int) {
    match ask
    case AskPing => ReplyFits(PING_RESULT, n, base.ping(h).1.Map(PingResultValue))
    case AskCall(args) => OutcomeFits(plugin(h, args).1)
    case AskShutdown => ReplyFits(EMPTY, n, base.shutdown(h).1.Map(NoValue))
  }

  ghost predicate AllDueFit<S>(plugin: (S, CallArgs) -> (S, Outcome), base: Handler<S>, h: S, n: int, asks: seq<Ask>)
    decreases |asks|
  {
    asks == [] ||
    (DueFits(plugin, base, h, asks[0], n + 1)
     && AllDueFit(plugin, base, Due(plugin, base, h, asks[0]).0, n + 1, asks[1..]))
  }

  /** One request: its answer on the wire is read back as what was due. */
  lemma DueRead<S>(plugin: (S, CallArgs) -> (S, Outcome), base: Handler<S>, h: S, ask: Ask, n: int, s: Text, i: nat)
    requires 0 <= n <= LAST_SEQUENCE && DueFits(plugin, base, h, ask, n)
    requires At(s, i, Answer(PluginHandler(plugin, base), h, Numbered(ask, n)).1)
    ensures var (h', reply) := Answer(PluginHandler(plugin, base), h, Numbered(ask, n));
            && h' == Due(plugin, base, h, ask).0
            && Receive(ask, n, s, i) == (Due(plugin, base, h, ask).1, i + |reply|)
  {
    Widths();
    hide At, ReplyText, Fits, AppErrorFits, ReadPingReply, ReadCallReply, ReadShutdownReply;
    hide FilledStatus, Delivered, ToWire, StatusValue, ResponseValue;
    match ask
    case AskPing => PingReadBack(n, base.ping(h).1, s, i);
    case AskCall(args) => CallReadBack(n, Return(plugin(h, args).1), s, i);
    case AskShutdown => ShutdownReadBack(n, base.shutdown(h).1, s, i);
  }

  lemma {:induction false} AllDueRead<S>(plugin: (S, CallArgs) -> (S, Outcome), base: Handler<S>, h: S, n: int,
                                         asks: seq<Ask>, s: Text, i: nat)
    requires 0 <= n && n + |asks| <= LAST_SEQUENCE && i <= |s|
    requires AllDueFit(plugin, base, h, n, asks)
    requires At(s, i, AnswerAll(PluginHandler(plugin, base), h, Requests(n, asks)).1)
    ensures ReceiveAll(asks, n, s, i) == DueAll(plugin, base, h, asks)
    decreases |asks|
  {
    hide Request.Encode, Sent.Fits, Answer, PluginHandler, At, Receive, Due, DueFits, Numbered;
    if asks != [] {
      var hd := PluginHandler(plugin, base);
      var (h', reply) := Answer(hd, h, Numbered(asks[0], n + 1));
      assert Requests(n, asks)[1..] == Requests(n + 1, asks[1..]);
      var rest := AnswerAll(hd, h', Requests(n + 1, asks[1..])).1;
      AtSplit(s, i, reply, rest);
      DueRead(plugin, base, h, asks[0], n + 1, s, i);
      AtFits(s, i, reply);
      AllDueRead(plugin, base, h', n + 1, asks[1..], s, i + |reply|);
    }
  }

  lemma AtFits(s: Text, i: nat, part: Text)
    requires At(s, i, part)
    ensures i + |part| <= |s|
  {
  }

  /**
   A client's requests, whatever methods they call and however the transport cuts them up, are each
   answered with what the handler or the plugin had to say to that request, under the sequence number
   the client expects.
   */
  lemma SessionDelivered<S>(plugin: (S, CallArgs) -> (S, Outcome), base: Handler<S>, h: S, n: int,
                            asks: seq<Ask>, feed: seq<Read>)
    requires 0 <= n && n + |asks| <= 0x7FFF_FFFF
    requires AllFit(Requests(n, asks)) && !Refusable(Requests(n, asks), [])
    requires AllDueFit(plugin, base, h, n, asks)
    requires Chunks(feed) && Concat(feed) == Texts(Requests(n, asks))
    ensures var c := Serve(PluginHandler(plugin, base), h, [], [], feed);
            && c.end == Waiting && c.buffer == []
            && ReceiveAll(asks, n, c.written, 0) == DueAll(plugin, base, h, asks)
  {
    hide Serve, AnswerAll, Texts, AllFit, Refusable, AllDueFit, PluginHandler, ReceiveAll, DueAll, At, Chunks, Concat;
    var hd := PluginHandler(plugin, base);
    WholeRequestsServed(hd, h, Requests(n, asks), feed);
    var written := AnswerAll(hd, h, Requests(n, asks)).1;
    AtStart(written, []);
    assert written + [] == written;
    AllDueRead(plugin, base, h, n, asks, written, 0);
  }

  predicate NotItsNumber(heard: Heard) {
    match heard
    case Pinged(r) => r.WrongSequence?
    case Called(r) => r.WrongSequence?
    case ShutDown(r) => r.WrongSequence?
  }

  predicate NotItsMethod(heard: Heard) {
    match heard
    case Pinged(r) => r.WrongMethod?
    case Called(r) => r.WrongMethod?
    case ShutDown(r) => r.WrongMethod?
  }

  /** A reply is taken as an answer only by the very request it answers, and otherwise refused at its header. */
  lemma OnlyItsOwnReply<S>(hd: Handler<S>, h: S, q: Request, ask: Ask, n: int, s: Text, i: nat)
    requires InRange(q.sequence, 4) && At(s, i, Answer(hd, h, q).1)
    ensures var heard := Receive(ask, n, s, i).0;
            && (q.sequence != n <==> NotItsNumber(heard))
            && (q.sequence == n && q.Name() != Numbered(ask, n).Name() <==> NotItsMethod(heard))
  {
    Widths();
    var r := AnswerReply(hd, h, q);
    AnswerIs(hd, h, q);
    hide At, Answer, ReplyText, EncMessageBegin, AnswerReply, ReadReply;
    var rest := ReplyBegins(q.Name(), q.sequence, r);
    var m := HeaderOf(q.Name(), q.sequence, r);
    match ask
    case AskPing => HeaderChecked(PING, PING_RESULT, ResultOfPing, n, m, rest, s, i);
    case AskCall(_) => HeaderChecked(CALL_NAME, CALL_RESULT, ResultOfCall, n, m, rest, s, i);
    case AskShutdown => HeaderChecked(SHUTDOWN, EMPTY, ResultOfShutdown, n, m, rest, s, i);
  }

  /** What the handler says to a request, as the value its reply carries. */
  function AnswerReply<S>(hd: Handler<S>, h: S, q: Request): Reply<Value> {
    match q
    case PingRequest(_) => hd.ping(h).1.Map(PingResultValue)
    case CallRequest(_, args) => hd.call(h, args).1.Map((v: Response) => Record(map[0 := ResponseValue(v)]))
    case ShutdownRequest(_) => hd.shutdown(h).1.Map(NoValue)
  }

  lemma AnswerIs<S>(hd: Handler<S>, h: S, q: Request)
    ensures Answer(hd, h, q).1 == ReplyText(q.Name(), q.sequence, AnswerReply(hd, h, q))
  {
    hide ReplyText, StatusValue, ResponseValue;
  }
}
