/**
 Streams of requests, however their clients write them, through the server: what is answered, and
 exactly when the size limits can stand in the way of it.
 */
module RequestStreams {
  import opened Bytes
  import Protocol
  import Schema
  import opened Wire
  import opened Messages
  import opened Processor
  import opened Serving

  ghost function Texts(qs: seq<Sent>): Text {
    if qs == [] then [] else qs[0].text + Texts(qs[1..])
  }

  /** The requests answered one by one, in order. */
  ghost function AnswerAll<S>(hd: Handler<S>, h: S, qs: seq<Sent>): (S, Text) {
    if qs == [] then (h, []) else
      var (h', reply) := Answer(hd, h, qs[0].request);
      var (h'', replies) := AnswerAll(hd, h', qs[1..]);
      (h'', reply + replies)
  }

  ghost predicate AllFit(qs: seq<Sent>) {
    forall k | 0 <= k < |qs| :: qs[k].Fits()
  }

  /** The first `n` bytes of a further request, not all of it. */
  ghost predicate PartOf(part: Text, q: Sent) {
    q.Fits() && |part| < |q.text| && part == q.text[..|part|]
  }

  lemma DrainPart<S>(hd: Handler<S>, h: S, part: Text, q: Sent)
    requires PartOf(part, q)
    ensures Stuck(hd, h, part)
  {
    hide Sent.Fits, Process;
    SentPrefixIncomplete(hd, h, q, |part|);
  }

  lemma DrainOne<S>(hd: Handler<S>, h: S, q: Sent, rest: Text)
    requires q.Fits()
    ensures var (h', reply) := Answer(hd, h, q.request); var d := Drain(hd, h', rest);
            Drain(hd, h, q.text + rest) == d.(written := reply + d.written)
  {
    hide Sent.Fits, Process, Answer;
    SentProcessed(hd, h, q, rest);
    ProcessBounds(hd, h, q.text + rest);
    assert (q.text + rest)[|q.text|..] == rest;
  }

  /** One pass over whole requests and a part of another answers the whole ones and keeps the part. */
  lemma {:induction false} DrainRequests<S>(hd: Handler<S>, h: S, qs: seq<Sent>, part: Text, q: Sent)
    requires AllFit(qs) && PartOf(part, q)
    ensures var (h', replies) := AnswerAll(hd, h, qs);
            Drain(hd, h, Texts(qs) + part) == Served(h', replies, part, false)
  {
    hide Sent.Fits, Drain, Answer;
    if qs == [] {
      assert Texts(qs) + part == part;
      DrainPart(hd, h, part, q);
    } else {
      var (h', reply) := Answer(hd, h, qs[0].request);
      assert Texts(qs) + part == qs[0].text + (Texts(qs[1..]) + part);
      DrainOne(hd, h, qs[0], Texts(qs[1..]) + part);
      DrainRequests(hd, h', qs[1..], part, q);
    }
  }

  /** One pass over whole requests and anything at all after them. */
  lemma {:induction false} DrainThrough<S>(hd: Handler<S>, h: S, qs: seq<Sent>, more: Text)
    requires AllFit(qs)
    ensures var (h', replies) := AnswerAll(hd, h, qs); var d := Drain(hd, h', more);
            Drain(hd, h, Texts(qs) + more) == d.(written := replies + d.written)
  {
    hide Sent.Fits, Drain, Answer;
    if qs == [] {
      assert Texts(qs) + more == more;
      assert [] + Drain(hd, h, more).written == Drain(hd, h, more).written;
    } else {
      var (h', reply) := Answer(hd, h, qs[0].request);
      var (h'', replies) := AnswerAll(hd, h', qs[1..]);
      assert Texts(qs) + more == qs[0].text + (Texts(qs[1..]) + more);
      DrainOne(hd, h, qs[0], Texts(qs[1..]) + more);
      DrainThrough(hd, h', qs[1..], more);
      assert reply + (replies + Drain(hd, h'', more).written) == (reply + replies) + Drain(hd, h'', more).written;
    }
  }

  lemma {:induction false} TextsSplit(qs: seq<Sent>, k: nat)
    requires k <= |qs|
    ensures Texts(qs) == Texts(qs[..k]) + Texts(qs[k..])
  {
    if k > 0 {
      TextsSplit(qs[1..], k - 1);
      assert qs[..k][1..] == qs[1..][..k - 1] && qs[1..][k - 1..] == qs[k..];
    } else {
      assert qs[..0] == [] && qs[0..] == qs;
    }
  }

  /** Where `n` bytes of a stream end: after whole requests, inside the next one or inside the last part. */
  ghost predicate EndsIn(qs: seq<Sent>, part: Text, q: Sent, n: nat, k: nat, r: Text) {
    && n <= |Texts(qs) + part| && k <= |qs|
    && (Texts(qs) + part)[..n] == Texts(qs[..k]) + r
    && (if k < |qs| then PartOf(r, qs[k]) else PartOf(r, q) && r <= part)
  }

  lemma {:induction false} FindEnd(qs: seq<Sent>, part: Text, q: Sent, n: nat) returns (k: nat, r: Text)
    requires AllFit(qs) && PartOf(part, q) && n <= |Texts(qs) + part|
    ensures EndsIn(qs, part, q, n, k, r)
  {
    hide Sent.Fits;
    var stream := Texts(qs) + part;
    if qs == [] {
      k, r := 0, part[..n];
      assert stream == part && Texts(qs[..0]) + r == r;
    } else {
      var text, tail := qs[0].text, Texts(qs[1..]) + part;
      assert stream == text + tail;
      if n < |text| {
        k, r := 0, text[..n];
        assert stream[..n] == r && Texts(qs[..0]) + r == r;
      } else {
        k, r := FindEnd(qs[1..], part, q, n - |text|);
        k := k + 1;
        assert qs[..k][0] == qs[0] && qs[..k][1..] == qs[1..][..k - 1];
        assert stream[..n] == text + tail[..n - |text|];
        assert text + (Texts(qs[1..][..k - 1]) + r) == Texts(qs[..k]) + r;
      }
    }
  }

  /** A pass over the first `n` bytes has answered the requests before their end. */
  lemma DrainToEnd<S>(hd: Handler<S>, h: S, qs: seq<Sent>, part: Text, q: Sent, n: nat, k: nat, r: Text)
    requires AllFit(qs) && EndsIn(qs, part, q, n, k, r)
    ensures var (h', replies) := AnswerAll(hd, h, qs[..k]);
            Drain(hd, h, (Texts(qs) + part)[..n]) == Served(h', replies, r, false)
  {
    hide Sent.Fits, Drain, AnswerAll;
    DrainRequests(hd, h, qs[..k], r, if k < |qs| then qs[k] else q);
  }

  // ----- when size stands in the way

  /** The longest request the size check can never refuse. */
  const SAFE_REQUEST_BYTES: nat := MAX_REQUEST_BYTES - READ_CHUNK_BYTES + 1

  ghost predicate AllSafe(qs: seq<Sent>) {
    forall k | 0 <= k < |qs| :: |qs[k].text| <= SAFE_REQUEST_BYTES
  }

  /** This request needs nearly all the room, and enough follows it to fill the rest. */
  ghost predicate Crowded(qs: seq<Sent>, part: Text, k: nat)
    requires k < |qs|
  {
    |qs[k].text| > SAFE_REQUEST_BYTES && |Texts(qs[k..])| + |part| > MAX_REQUEST_BYTES
  }

  ghost predicate Refusable(qs: seq<Sent>, part: Text) {
    |part| > MAX_REQUEST_BYTES || exists k | 0 <= k < |qs| :: Crowded(qs, part, k)
  }

  /** Requests of at most 32 MiB less 8191 bytes are never refused. */
  lemma SafeNotRefusable(qs: seq<Sent>, part: Text)
    requires (forall k | 0 <= k < |qs| :: |qs[k].text| <= 33_546_241) && |part| <= 33_554_432
    ensures !Refusable(qs, part)
  {
  }

  lemma CrowdedMeansRefusable<S>(hd: Handler<S>, h: S, qs: seq<Sent>, part: Text, q: Sent, n: nat)
    requires AllFit(qs) && PartOf(part, q) && n < |Texts(qs) + part| && CrowdedAt(hd, h, Texts(qs) + part, n)
    ensures Refusable(qs, part)
  {
    hide Sent.Fits, Drain, AnswerAll, Texts;
    var k, r := FindEnd(qs, part, q, n);
    DrainToEnd(hd, h, qs, part, q, n, k, r);
    TextsSplit(qs, k);
    if k < |qs| {
      assert Crowded(qs, part, k);
    } else {
      assert qs[k..] == [];
      assert Texts([]) == [] by { NoTexts(); }
    }
  }

  lemma NoTexts()
    ensures Texts([]) == []
  {
  }

  /** Whole requests and the first `SAFE_REQUEST_BYTES` of what comes next leave too little room. */
  lemma RoomRunsOut<S>(hd: Handler<S>, h: S, qs: seq<Sent>, next: Sent, tail: Text)
    requires AllFit(qs) && next.Fits() && |tail| > MAX_REQUEST_BYTES && |next.text| > SAFE_REQUEST_BYTES
    requires tail[..SAFE_REQUEST_BYTES] == next.text[..SAFE_REQUEST_BYTES]
    ensures CrowdedAt(hd, h, Texts(qs) + tail, |Texts(qs)| + SAFE_REQUEST_BYTES)
  {
    hide Sent.Fits, Drain, AnswerAll, Texts;
    var r := tail[..SAFE_REQUEST_BYTES];
    assert (Texts(qs) + tail)[..|Texts(qs)| + SAFE_REQUEST_BYTES] == Texts(qs) + r;
    DrainRequests(hd, h, qs, r, next);
  }

  lemma RefusableMeansCrowded<S>(hd: Handler<S>, h: S, qs: seq<Sent>, part: Text, q: Sent) returns (n: nat)
    requires AllFit(qs) && PartOf(part, q) && Refusable(qs, part)
    ensures n < |Texts(qs) + part| && CrowdedAt(hd, h, Texts(qs) + part, n)
  {
    hide Sent.Fits, CrowdedAt, Texts;
    if |part| > MAX_REQUEST_BYTES {
      n := |Texts(qs)| + SAFE_REQUEST_BYTES;
      RoomRunsOut(hd, h, qs, q, part);
    } else {
      var k :| 0 <= k < |qs| && Crowded(qs, part, k);
      TextsSplit(qs, k);
      var tail := Texts(qs[k..]) + part;
      n := |Texts(qs[..k])| + SAFE_REQUEST_BYTES;
      StartsWith(qs[k..]);
      assert tail[..SAFE_REQUEST_BYTES] == qs[k].text[..SAFE_REQUEST_BYTES];
      RoomRunsOut(hd, h, qs[..k], qs[k], tail);
      assert Texts(qs[..k]) + tail == Texts(qs) + part;
    }
  }

  lemma StartsWith(qs: seq<Sent>)
    requires qs != []
    ensures qs[0].text <= Texts(qs)
  {
  }

  /**
   Some way of cutting a stream of requests and a part of one more is stopped for size exactly when
   the part is over the limit, or a request needs nearly all the room and more than the limit follows
   from its start: even a request within the limit, if other bytes share its last read.
   */
  lemma RefusedIff<S>(hd: Handler<S>, h: S, qs: seq<Sent>, part: Text, q: Sent)
    requires AllFit(qs) && PartOf(part, q)
    ensures (exists feed :: StopsForSize(hd, h, Texts(qs) + part, feed)) <==> Refusable(qs, part)
  {
    hide StopsForSize, CrowdedAt, Refusable, Texts, AllFit, PartOf;
    SizeStopsIff(hd, h, Texts(qs) + part);
    if n :| 0 <= n < |Texts(qs) + part| && CrowdedAt(hd, h, Texts(qs) + part, n) {
      CrowdedMeansRefusable(hd, h, qs, part, q, n);
    }
    if Refusable(qs, part) {
      var n := RefusableMeansCrowded(hd, h, qs, part, q);
    }
  }

  /** No request, and no part of one, is over the limit. */
  ghost predicate NoneTooLong(qs: seq<Sent>, part: Text) {
    |part| <= MAX_REQUEST_BYTES && forall k | 0 <= k < |qs| :: |qs[k].text| <= MAX_REQUEST_BYTES
  }

  // ----- a stream that only some ways of cutting have refused

  lemma NoEntries()
    ensures |Schema.Enc(Schema.MapOf(Schema.String), RowValue(map[]))| == 6
  {
    assert RowValue(map[]) == Schema.Dict(map[]);
    assert SortedKeys({}) == [];
    assert |Schema.EncEntries(Schema.String, map[], [])| == 0;
    hide SortedKeys;
  }

  lemma CallSize(item: Text)
    ensures |CallRequest(1, CallArgs([], item, map[])).Encode()| == 40 + |item|
  {
    var slots := CallArgsValue(CallArgs([], item, map[])).slots;
    var fs := CALL_ARGS.fields;
    NoEntries();
    assert |EncMessageBegin(Protocol.Message(CALL_NAME, Protocol.CALL, 1))| == 16;
    assert |Schema.EncField(fs[0], slots)| == 7;
    assert |Schema.EncField(fs[1], slots)| == 7 + |item|;
    assert |Schema.EncField(fs[2], slots)| == 9;
    FieldsSize(fs, slots);
    hide EncMessageBegin, Schema.EncField, Schema.EncFields;
  }

  lemma FieldsSize(fs: seq<Schema.Field>, slots: map<int, Schema.Value>)
    requires |fs| == 3
    ensures |Schema.EncFields(fs, slots)|
            == |Schema.EncField(fs[0], slots)| + |Schema.EncField(fs[1], slots)| + |Schema.EncField(fs[2], slots)|
  {
    hide Schema.EncField;
    var two, one := fs[1..], fs[1..][1..];
    assert two[0] == fs[1] && one[0] == fs[2] && one[1..] == [];
    assert Schema.EncFields(one, slots) == Schema.EncField(one[0], slots) + [];
    assert Schema.EncFields(two, slots) == Schema.EncField(two[0], slots) + Schema.EncFields(one, slots);
    assert Schema.EncFields(fs, slots) == Schema.EncField(fs[0], slots) + Schema.EncFields(two, slots);
  }

  lemma CallFits(item: Text)
    requires |item| < Schema.MAX_SIZE
    ensures CallRequest(1, CallArgs([], item, map[])).Fits()
  {
    Widths();
    assert RowValue(map[]) == Schema.Dict(map[]);
    hide Width;
  }

  /** A request of exactly so many bytes. */
  lemma RequestOf(n: nat) returns (q: Sent)
    requires 40 <= n < 0x8000_0000
    ensures q.Fits() && |q.text| == n
  {
    var item: Text := seq(n - 40, (i: int) => 0);
    var call := CallRequest(1, CallArgs([], item, map[]));
    CallSize(item);
    CallFits(item);
    hide Request.Encode, Request.Fits, Sent.Fits;
    WrittenFits(call);
    q := Written(call);
  }

  /**
   Two requests of any one size from a byte above the safe one up to the limit, and a way of cutting them
   into reads that is stopped for size: the safe size is the largest there is.
   */
  lemma RefusalArises<S>(hd: Handler<S>, h: S, n: nat)
    requires 33_546_241 < n <= 33_554_432
    ensures exists qs: seq<Sent>, feed: seq<Read> ::
              && AllFit(qs) && NoneTooLong(qs, []) && (forall q | q in qs :: |q.text| == n)
              && StopsForSize(hd, h, Texts(qs) + [], feed)
  {
    hide Sent.Fits, StopsForSize;
    var q := RequestOf(n);
    var qs := [q, q];
    StartsWith(qs);
    TwoTexts(q);
    EmptyPart();
    assert qs[0..] == qs;
    assert Crowded(qs, [], 0);
    RefusedIff(hd, h, qs, [], Written(PingRequest(0)));
    var feed :| StopsForSize(hd, h, Texts(qs) + [], feed);
    assert AllFit(qs) && NoneTooLong(qs, []) && forall q | q in qs :: |q.text| == n;
  }

  lemma TwoTexts(q: Sent)
    ensures Texts([q, q]) == q.text + q.text
  {
    assert [q, q][1..] == [q] && [q][1..] == [];
    assert Texts([q]) == q.text + [];
  }

  /**
   However a stream of requests is cut into reads, each request is answered once, in order, on the
   state the one before it left, and only the unfinished last request stays buffered.
   */
  lemma RequestsServed<S>(hd: Handler<S>, h: S, qs: seq<Sent>, part: Text, q: Sent, feed: seq<Read>)
    requires AllFit(qs) && PartOf(part, q) && !Refusable(qs, part)
    requires Chunks(feed) && Concat(feed) == Texts(qs) + part
    ensures var (h', replies) := AnswerAll(hd, h, qs);
            Serve(hd, h, [], [], feed) == Connection(h', replies, part, Waiting)
  {
    RefusedIff(hd, h, qs, part, q);
    DrainRequests(hd, h, qs, part, q);
    assert Stuck(hd, h, []);
    assert StopsForSize(hd, h, Texts(qs) + part, feed) <==> Serve(hd, h, [], [], feed).end == TooLarge;
    hide Drain, Serve, Texts, AllFit, PartOf, Refusable, Overflows, Stuck, AnswerAll, StopsForSize;
    ServeIsDrain(hd, h, [], [], feed);
    assert [] + (Texts(qs) + part) == Texts(qs) + part;
    assert [] + AnswerAll(hd, h, qs).1 == AnswerAll(hd, h, qs).1;
  }

  lemma EmptyPart()
    ensures PartOf([], Written(PingRequest(0)))
  {
    Widths();
    assert |EncMessageBegin(Protocol.Message(PING, Protocol.CALL, 0))| >= 4;
    assert PingRequest(0).Fits();
    WrittenFits(PingRequest(0));
    hide EncMessageBegin, Schema.Enc, Sent.Fits;
  }

  /** The same when the stream ends with its last request. */
  lemma WholeRequestsServed<S>(hd: Handler<S>, h: S, qs: seq<Sent>, feed: seq<Read>)
    requires AllFit(qs) && !Refusable(qs, []) && Chunks(feed) && Concat(feed) == Texts(qs)
    ensures var (h', replies) := AnswerAll(hd, h, qs);
            Serve(hd, h, [], [], feed) == Connection(h', replies, [], Waiting)
  {
    hide Serve, AnswerAll, Texts, AllFit, Refusable, PartOf, Chunks, Concat;
    EmptyPart();
    assert Texts(qs) + [] == Texts(qs);
    RequestsServed(hd, h, qs, [], Written(PingRequest(0)), feed);
  }

  // ----- some way of cutting

  lemma SinglesNeverOverflow<S>(hd: Handler<S>, h: S, qs: seq<Sent>, part: Text, q: Sent)
    requires AllFit(qs) && PartOf(part, q) && NoneTooLong(qs, part)
    ensures !Overflows(hd, h, [], Singles(Texts(qs) + part))
  {
    hide Sent.Fits, Drain, AnswerAll, Texts, Singles;
    var stream := Texts(qs) + part;
    var feed := Singles(stream);
    forall n | 0 <= n < |feed| ensures !OverflowsAt(hd, h, [], feed, n) {
      ConcatTake(feed, n);
      SinglesTake(stream, n);
      var k, r := FindEnd(qs, part, q, n);
      DrainToEnd(hd, h, qs, part, q, n, k, r);
      assert [] + stream[..n] == stream[..n];
      if k == |qs| {
        assert qs[..k] == qs;
      }
    }
  }

  lemma {:induction false} SinglesTake(text: Text, n: nat)
    requires n <= |text|
    ensures Concat(Singles(text)[..n]) == text[..n]
  {
    if n > 0 {
      SinglesTake(text[1..], n - 1);
      assert Singles(text)[..n][1..] == Singles(text[1..])[..n - 1];
    }
  }

  // ----- what is too long

  /** The read that takes the stream past its first `x` bytes. */
  lemma {:induction false} ReadPast(feed: seq<Read>, x: nat) returns (j: nat)
    requires Chunks(feed) && x < |Concat(feed)|
    ensures j < |feed| && |Concat(feed[..j])| <= x < |Concat(feed[..j + 1])|
    decreases |feed|
  {
    assert feed != [];
    var last := |feed| - 1;
    assert feed[..last + 1] == feed;
    if |Concat(feed[..last])| <= x {
      j := last;
    } else {
      j := ReadPast(feed[..last], x);
      assert feed[..last][..j] == feed[..j] && feed[..last][..j + 1] == feed[..j + 1];
    }
  }

  /** The read that goes over the limit within a request, or a part of one, that is too long. */
  lemma LongOverflows<S>(hd: Handler<S>, h: S, qs: seq<Sent>, q: Sent, long: Text, more: Text, feed: seq<Read>)
    returns (j: nat)
    requires AllFit(qs) && q.Fits() && long <= q.text && |long| > MAX_REQUEST_BYTES
    requires Chunks(feed) && Concat(feed) == Texts(qs) + long + more
    ensures j < |feed| && OverflowsAt(hd, h, [], feed, j) && |Concat(feed[..j])| <= |Texts(qs)| + MAX_REQUEST_BYTES
  {
    hide Sent.Fits, Drain, AnswerAll, Texts;
    j := ReadPast(feed, |Texts(qs)| + MAX_REQUEST_BYTES);
    ConcatNext(feed, j);
    ConcatTake(feed, j);
    var r := long[..|Concat(feed[..j])| - |Texts(qs)|];
    assert Concat(feed[..j]) == Texts(qs) + r;
    assert r == q.text[..|r|];
    DrainRequests(hd, h, qs, r, q);
    assert [] + Concat(feed[..j]) == Concat(feed[..j]);
  }

  /**
   No request over the limit reaches the handler, whatever comes before and after it: the loop stops
   for size, having answered only requests that came before it.
   */
  lemma OverlongNeverRuns<S>(hd: Handler<S>, h: S, qs: seq<Sent>, q: Sent, more: Text, feed: seq<Read>) returns (k: nat)
    requires AllFit(qs) && q.Fits() && |q.text| > MAX_REQUEST_BYTES
    requires Chunks(feed) && Concat(feed) == Texts(qs) + q.text + more
    ensures k <= |qs|
    ensures var c := Serve(hd, h, [], [], feed); c.end == TooLarge && (c.state, c.written) == AnswerAll(hd, h, qs[..k])
  {
    hide Sent.Fits, Drain, Serve, AnswerAll, Texts, Overflows, OverflowsAt;
    var j := LongOverflows(hd, h, qs, q, q.text, more, feed);
    AnyOverflow(hd, h, [], feed, j);
    assert Stuck(hd, h, []) by { NothingStuck(hd, h); }
    hide Stuck;
    var i := ServeTooLarge(hd, h, [], [], feed);
    ShorterRead(feed, i, j);
    var part, n := q.text[..MAX_REQUEST_BYTES], |Concat(feed[..i])|;
    ConcatTake(feed, i);
    assert Concat(feed[..i]) == (Texts(qs) + part)[..n];
    var r;
    k, r := FindEnd(qs, part, q, n);
    DrainToEnd(hd, h, qs, part, q, n, k, r);
    assert [] + Concat(feed[..i]) == Concat(feed[..i]);
    assert [] + AnswerAll(hd, h, qs[..k]).1 == AnswerAll(hd, h, qs[..k]).1;
  }

  lemma ShorterRead(feed: seq<Read>, i: nat, j: nat)
    requires Chunks(feed) && i <= j <= |feed|
    ensures |Concat(feed[..i])| <= |Concat(feed[..j])|
  {
    ConcatTake(feed[..j], i);
    assert feed[..j][..i] == feed[..i];
  }

  lemma LongIsStopped<S>(hd: Handler<S>, h: S, qs: seq<Sent>, part: Text, q: Sent, feed: seq<Read>)
    requires AllFit(qs) && PartOf(part, q) && !NoneTooLong(qs, part)
    requires Chunks(feed) && Concat(feed) == Texts(qs) + part
    ensures Serve(hd, h, [], [], feed).end == TooLarge
  {
    hide Sent.Fits, Drain, Serve, AnswerAll, Texts, Overflows, OverflowsAt;
    var j: nat;
    if |part| > MAX_REQUEST_BYTES {
      assert Texts(qs) + part + [] == Texts(qs) + part;
      j := LongOverflows(hd, h, qs, q, part, [], feed);
    } else {
      var k :| 0 <= k < |qs| && |qs[k].text| > MAX_REQUEST_BYTES;
      TextsSplit(qs, k);
      StartsWith(qs[k..]);
      var text := qs[k].text;
      var more := Texts(qs[k..])[|text|..] + part;
      assert Texts(qs[..k]) + text + more == Texts(qs) + part;
      j := LongOverflows(hd, h, qs[..k], qs[k], text, more, feed);
    }
    AnyOverflow(hd, h, [], feed, j);
    NothingStuck(hd, h);
    hide Stuck;
    ServeIsDrain(hd, h, [], [], feed);
  }

  ghost predicate ServedWhole<S>(hd: Handler<S>, h: S, qs: seq<Sent>, part: Text, feed: seq<Read>) {
    && Chunks(feed) && Concat(feed) == Texts(qs) + part
    && var (h', replies) := AnswerAll(hd, h, qs);
       Serve(hd, h, [], [], feed) == Connection(h', replies, part, Waiting)
  }

  /** Some way of cutting the stream has it served in full exactly when nothing in it is over the limit. */
  lemma ServableIff<S>(hd: Handler<S>, h: S, qs: seq<Sent>, part: Text, q: Sent)
    requires AllFit(qs) && PartOf(part, q)
    ensures (exists feed :: ServedWhole(hd, h, qs, part, feed)) <==> NoneTooLong(qs, part)
  {
    hide Drain, Serve, Texts, AllFit, PartOf, NoneTooLong, Overflows, Stuck, AnswerAll, Singles;
    if NoneTooLong(qs, part) {
      var feed := Singles(Texts(qs) + part);
      SinglesNeverOverflow(hd, h, qs, part, q);
      DrainRequests(hd, h, qs, part, q);
      NothingStuck(hd, h);
      ServeIsDrain(hd, h, [], [], feed);
      assert [] + (Texts(qs) + part) == Texts(qs) + part;
      assert [] + AnswerAll(hd, h, qs).1 == AnswerAll(hd, h, qs).1;
      assert ServedWhole(hd, h, qs, part, feed);
    }
    if feed :| ServedWhole(hd, h, qs, part, feed) {
      if !NoneTooLong(qs, part) {
        LongIsStopped(hd, h, qs, part, q, feed);
      }
    }
  }

  // ----- each request runs its handler exactly once

  /** The same handler, also writing down the arguments of every call it runs. */
  function Recording<S>(hd: Handler<S>): Handler<(S, seq<CallArgs>)> {
    Handler(
      (h: (S, seq<CallArgs>)) => var (s, r) := hd.ping(h.0); ((s, h.1), r),
      (h: (S, seq<CallArgs>), a: CallArgs) => var (s, r) := hd.call(h.0, a); ((s, h.1 + [a]), r),
      (h: (S, seq<CallArgs>)) => var (s, r) := hd.shutdown(h.0); ((s, h.1), r),
      hd.faultText,
      hd.unknownMethodText)
  }

  function CallsOf(qs: seq<Sent>): seq<CallArgs> {
    if qs == [] then [] else (if qs[0].request.CallRequest? then [qs[0].request.args] else []) + CallsOf(qs[1..])
  }

  lemma RecordedAnswer<S>(hd: Handler<S>, h: S, log: seq<CallArgs>, q: Request)
    ensures Answer(Recording(hd), (h, log), q)
         == ((Answer(hd, h, q).0, if q.CallRequest? then log + [q.args] else log), Answer(hd, h, q).1)
  {
    hide ReplyText;
  }

  lemma {:induction false} RecordedCalls<S>(hd: Handler<S>, h: S, log: seq<CallArgs>, qs: seq<Sent>)
    ensures AnswerAll(Recording(hd), (h, log), qs).0 == (AnswerAll(hd, h, qs).0, log + CallsOf(qs))
    decreases |qs|
  {
    hide Answer, Recording;
    if qs == [] {
      assert log + [] == log;
    } else {
      RecordedAnswer(hd, h, log, qs[0].request);
      var log' := if qs[0].request.CallRequest? then log + [qs[0].request.args] else log;
      RecordedCalls(hd, Answer(hd, h, qs[0].request).0, log', qs[1..]);
      assert log' + CallsOf(qs[1..]) == log + CallsOf(qs);
    }
  }

  /** Over any chunking, the calls run are the calls received: none lost, repeated or reordered. */
  lemma CallsRunOnce<S>(hd: Handler<S>, h: S, qs: seq<Sent>, part: Text, q: Sent, feed: seq<Read>)
    requires AllFit(qs) && PartOf(part, q) && !Refusable(qs, part)
    requires Chunks(feed) && Concat(feed) == Texts(qs) + part
    ensures Serve(Recording(hd), (h, []), [], [], feed).state == (AnswerAll(hd, h, qs).0, CallsOf(qs))
  {
    hide Serve, AnswerAll, Recording, Sent.Fits, AllFit, PartOf, Refusable, Texts, Chunks, Concat;
    RequestsServed(Recording(hd), (h, []), qs, part, q, feed);
    RecordedCalls(hd, h, [], qs);
    assert [] + CallsOf(qs) == CallsOf(qs);
  }
}
