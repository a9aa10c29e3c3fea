/**
 serve_connection as a function of the reads it makes, and why chunking cannot matter: whatever
 the bytes are, the loop writes what one pass over the whole stream would write and leaves the
 handler where that pass would leave it, unless a read finds too little room and it stops for size.
 */
module Serving {
  import opened Bytes
  import Protocol
  import Schema
  import opened Wire
  import opened Processor

  const MAX_REQUEST_BYTES: nat := 32 * 1024 * 1024
  const READ_CHUNK_BYTES: nat := 8 * 1024

  datatype Served<+S> = Served(state: S, written: Text, rest: Text, fatal: bool)

  /** One pass over a buffer: answer request after request until one is incomplete or fatal. */
  ghost function Drain<S>(hd: Handler<S>, h: S, buf: Text): Served<S>
    decreases |buf|
  {
    if buf == [] then Served(h, [], [], false)
    else
      match Process(hd, h, buf)
      case Incomplete => Served(h, [], buf, false)
      case Fatal => Served(h, [], buf, true)
      case Done(h', reply, n) =>
        ProcessBounds(hd, h, buf);
        var later := Drain(hd, h', buf[n..]);
        later.(written := reply + later.written)
  }

  /** What one `read` of the stream delivers. `Data([])` is end of file, as is `Closed`. */
  datatype Read = Data(bytes: Text) | Closed | Failed

  datatype End =
    | Waiting          // every read so far is served, the next has not returned
    | Disconnected
    | MidRequest
    | ReadFailed
    | BadRead
    | TooLarge
    | ProcessorError

  datatype Connection<+S> = Connection(state: S, written: Text, buffer: Text, end: End)

  ghost function Serve<S>(hd: Handler<S>, h: S, buf: Text, written: Text, feed: seq<Read>): Connection<S>
    decreases |feed|
  {
    if feed == [] then Connection(h, written, buf, Waiting)
    else if feed[0].Failed? then Connection(h, written, buf, ReadFailed)
    else if feed[0].Closed? || feed[0].bytes == [] then
      Connection(h, written, buf, if buf == [] then Disconnected else MidRequest)
    else if |feed[0].bytes| > READ_CHUNK_BYTES then Connection(h, written, buf, BadRead)
    else if |buf + feed[0].bytes| > MAX_REQUEST_BYTES then Connection(h, written, buf + feed[0].bytes, TooLarge)
    else
      var d := Drain(hd, h, buf + feed[0].bytes);
      if d.fatal then Connection(d.state, written + d.written, d.rest, ProcessorError)
      else Serve(hd, d.state, d.rest, written + d.written, feed[1..])
  }

  // ----- one pass in two halves

  lemma {:induction false} DrainAppend<S>(hd: Handler<S>, h: S, a: Text, b: Text)
    ensures var d := Drain(hd, h, a);
            Drain(hd, h, a + b)
            == if d.fatal then d.(rest := d.rest + b)
               else var e := Drain(hd, d.state, d.rest + b); e.(written := d.written + e.written)
    decreases |a|
  {
    hide Process;
    var d := Drain(hd, h, a);
    if a == [] {
      assert a + b == b;
      assert [] + Drain(hd, h, b).written == Drain(hd, h, b).written;
    } else {
      match Process(hd, h, a)
      case Incomplete =>
        assert [] + Drain(hd, h, a + b).written == Drain(hd, h, a + b).written;
      case Fatal => ProcessStable(hd, h, a, b);
      case Done(h', reply, n) =>
        ProcessBounds(hd, h, a);
        ProcessStable(hd, h, a, b);
        assert (a + b)[n..] == a[n..] + b;
        DrainAppend(hd, h', a[n..], b);
        var later := Drain(hd, h', a[n..]);
        if !later.fatal {
          var e := Drain(hd, later.state, later.rest + b);
          assert reply + (later.written + e.written) == reply + later.written + e.written;
        }
    }
  }

  /** What a pass left over waits for more bytes. */
  ghost predicate Stuck<S>(hd: Handler<S>, h: S, buf: Text) {
    Drain(hd, h, buf) == Served(h, [], buf, false)
  }

  lemma {:induction false} RestStuck<S>(hd: Handler<S>, h: S, buf: Text)
    requires !Drain(hd, h, buf).fatal
    ensures Stuck(hd, Drain(hd, h, buf).state, Drain(hd, h, buf).rest)
    decreases |buf|
  {
    hide Process;
    if buf != [] && Process(hd, h, buf).Done? {
      ProcessBounds(hd, h, buf);
      RestStuck(hd, Process(hd, h, buf).state, buf[Process(hd, h, buf).consumed..]);
    }
  }

  // ----- any stream, any chunks

  /** The reader kept its contract and the peer has not closed. */
  predicate Chunks(feed: seq<Read>) {
    forall k | 0 <= k < |feed| :: feed[k].Data? && 1 <= |feed[k].bytes| <= READ_CHUNK_BYTES
  }

  function Concat(feed: seq<Read>): Text
    requires forall k | 0 <= k < |feed| :: feed[k].Data?
  {
    if feed == [] then [] else feed[0].bytes + Concat(feed[1..])
  }

  lemma {:induction false} ConcatTake(feed: seq<Read>, k: nat)
    requires forall j | 0 <= j < |feed| :: feed[j].Data?
    requires k <= |feed|
    ensures |Concat(feed[..k])| <= |Concat(feed)|
    ensures Concat(feed[..k]) == Concat(feed)[..|Concat(feed[..k])|]
  {
    if k > 0 {
      ConcatTake(feed[1..], k - 1);
      assert feed[..k][1..] == feed[1..][..k - 1];
    }
  }

  /** Every stream can be cut into reads. */
  lemma {:induction false} ChunkingExists(text: Text)
    ensures exists feed :: Chunks(feed) && Concat(feed) == text
  {
    if text == [] {
      assert Chunks([]) && Concat([]) == text;
    } else {
      ChunkingExists(text[1..]);
      var rest :| Chunks(rest) && Concat(rest) == text[1..];
      var feed := [Data(text[..1])] + rest;
      assert feed[1..] == rest && Concat(feed) == text[..1] + text[1..] == text;
      assert Chunks(feed);
    }
  }

  /** Some read finds too little room left beside the request still being received. */
  ghost predicate Overflows<S>(hd: Handler<S>, h: S, buf: Text, feed: seq<Read>)
    requires Chunks(feed)
  {
    exists k | 0 <= k < |feed| :: OverflowsAt(hd, h, buf, feed, k)
  }

  ghost predicate OverflowsAt<S>(hd: Handler<S>, h: S, buf: Text, feed: seq<Read>, k: nat)
    requires Chunks(feed) && k < |feed|
  {
    var d := Drain(hd, h, buf + Concat(feed[..k]));
    !d.fatal && |d.rest| + |feed[k].bytes| > MAX_REQUEST_BYTES
  }

  /** The room check at a later read, seen from after the first one. */
  lemma OverflowShift<S>(hd: Handler<S>, h: S, buf: Text, feed: seq<Read>, k: nat)
    requires Chunks(feed) && 0 < k < |feed|
    ensures var d := Drain(hd, h, buf + feed[0].bytes);
            OverflowsAt(hd, h, buf, feed, k) <==> !d.fatal && OverflowsAt(hd, d.state, d.rest, feed[1..], k - 1)
  {
    hide Drain;
    var first, tail := feed[0].bytes, Concat(feed[1..][..k - 1]);
    assert feed[..k][1..] == feed[1..][..k - 1];
    assert buf + Concat(feed[..k]) == (buf + first) + tail;
    DrainAppend(hd, h, buf + first, tail);
  }

  /** The loop on a cut-up stream agrees with one pass `d` over all of it. */
  ghost predicate Agrees<S>(c: Connection<S>, written: Text, d: Served<S>, overflows: bool) {
    && (c.end == TooLarge <==> overflows)
    && (!overflows ==>
        && c.end == (if d.fatal then ProcessorError else Waiting)
        && c.state == d.state && c.written == written + d.written
        && (!d.fatal ==> c.buffer == d.rest))
  }

  /**
   For every byte stream and every way of cutting it into reads, the loop does exactly what one
   pass over the stream does, unless a read overflows the buffer; and it stops for size
   precisely then.
   */
  lemma {:induction false} ServeIsDrain<S>(hd: Handler<S>, h: S, buf: Text, written: Text, feed: seq<Read>)
    requires Chunks(feed) && Stuck(hd, h, buf)
    ensures Agrees(Serve(hd, h, buf, written, feed), written, Drain(hd, h, buf + Concat(feed)),
                   Overflows(hd, h, buf, feed))
    decreases |feed|, 1
  {
    hide Drain, Serve, Overflows, OverflowsAt, Stuck, Concat;
    if feed == [] {
      NothingRead(hd, h, buf, written);
    } else {
      var first := feed[0].bytes;
      var d := Drain(hd, h, buf + first);
      ServeStep(hd, h, buf, written, feed);
      DrainStep(hd, h, buf, feed);
      if |buf + first| > MAX_REQUEST_BYTES {
        FirstOverflows(hd, h, buf, feed);
      } else if d.fatal {
        FatalNoOverflow(hd, h, buf, feed);
      } else {
        OverflowTail(hd, h, buf, feed);
        ServeRest(hd, h, buf, written, feed);
      }
    }
  }

  lemma NothingRead<S>(hd: Handler<S>, h: S, buf: Text, written: Text)
    requires Stuck(hd, h, buf)
    ensures Agrees(Serve(hd, h, buf, written, []), written, Drain(hd, h, buf + Concat([])), Overflows(hd, h, buf, []))
  {
    hide Drain;
    assert buf + Concat([]) == buf;
    assert written + [] == written;
  }

  lemma {:induction false} ServeRest<S>(hd: Handler<S>, h: S, buf: Text, written: Text, feed: seq<Read>)
    requires Chunks(feed) && feed != [] && !Drain(hd, h, buf + feed[0].bytes).fatal
    ensures var d := Drain(hd, h, buf + feed[0].bytes);
            var e := Drain(hd, d.state, d.rest + Concat(feed[1..]));
            Agrees(Serve(hd, d.state, d.rest, written + d.written, feed[1..]), written,
                   e.(written := d.written + e.written), Overflows(hd, d.state, d.rest, feed[1..]))
    decreases |feed|, 0
  {
    hide Drain, Serve, Overflows, Stuck, Concat;
    RestStuck(hd, h, buf + feed[0].bytes);
    var d := Drain(hd, h, buf + feed[0].bytes);
    ServeIsDrain(hd, d.state, d.rest, written + d.written, feed[1..]);
    var e := Drain(hd, d.state, d.rest + Concat(feed[1..]));
    assert written + d.written + e.written == written + (d.written + e.written);
  }

  lemma ServeStep<S>(hd: Handler<S>, h: S, buf: Text, written: Text, feed: seq<Read>)
    requires Chunks(feed) && feed != []
    ensures var d := Drain(hd, h, buf + feed[0].bytes);
            Serve(hd, h, buf, written, feed)
            == if |buf + feed[0].bytes| > MAX_REQUEST_BYTES then Connection(h, written, buf + feed[0].bytes, TooLarge)
               else if d.fatal then Connection(d.state, written + d.written, d.rest, ProcessorError)
               else Serve(hd, d.state, d.rest, written + d.written, feed[1..])
  {
    hide Drain;
  }

  lemma DrainStep<S>(hd: Handler<S>, h: S, buf: Text, feed: seq<Read>)
    requires Chunks(feed) && feed != []
    ensures var d := Drain(hd, h, buf + feed[0].bytes);
            Drain(hd, h, buf + Concat(feed))
            == if d.fatal then d.(rest := d.rest + Concat(feed[1..]))
               else var e := Drain(hd, d.state, d.rest + Concat(feed[1..])); e.(written := d.written + e.written)
  {
    hide Drain;
    assert buf + Concat(feed) == (buf + feed[0].bytes) + Concat(feed[1..]);
    DrainAppend(hd, h, buf + feed[0].bytes, Concat(feed[1..]));
  }

  lemma FirstOverflows<S>(hd: Handler<S>, h: S, buf: Text, feed: seq<Read>)
    requires Chunks(feed) && Stuck(hd, h, buf) && feed != []
    requires |buf + feed[0].bytes| > MAX_REQUEST_BYTES
    ensures Overflows(hd, h, buf, feed)
  {
    hide Drain, OverflowsAt, Stuck;
    OverflowNow(hd, h, buf, feed);
  }

  lemma FatalNoOverflow<S>(hd: Handler<S>, h: S, buf: Text, feed: seq<Read>)
    requires Chunks(feed) && Stuck(hd, h, buf) && feed != []
    requires |buf + feed[0].bytes| <= MAX_REQUEST_BYTES && Drain(hd, h, buf + feed[0].bytes).fatal
    ensures !Overflows(hd, h, buf, feed)
  {
    OverflowNow(hd, h, buf, feed);
    hide Drain, OverflowsAt;
    forall k | 0 < k < |feed| ensures !OverflowsAt(hd, h, buf, feed, k) { OverflowShift(hd, h, buf, feed, k); }
  }

  lemma OverflowNow<S>(hd: Handler<S>, h: S, buf: Text, feed: seq<Read>)
    requires Chunks(feed) && Stuck(hd, h, buf) && feed != []
    ensures OverflowsAt(hd, h, buf, feed, 0) <==> |buf + feed[0].bytes| > MAX_REQUEST_BYTES
  {
    assert buf + Concat(feed[..0]) == buf;
  }

  lemma OverflowTail<S>(hd: Handler<S>, h: S, buf: Text, feed: seq<Read>)
    requires Chunks(feed) && Stuck(hd, h, buf) && feed != []
    requires |buf + feed[0].bytes| <= MAX_REQUEST_BYTES
    ensures var d := Drain(hd, h, buf + feed[0].bytes);
            !d.fatal ==> (Overflows(hd, h, buf, feed) <==> Overflows(hd, d.state, d.rest, feed[1..]))
  {
    hide Drain, OverflowsAt;
    OverflowNow(hd, h, buf, feed);
    var d := Drain(hd, h, buf + feed[0].bytes);
    if d.fatal {
      return;
    }
    if Overflows(hd, h, buf, feed) {
      var k :| 0 <= k < |feed| && OverflowsAt(hd, h, buf, feed, k);
      OverflowShift(hd, h, buf, feed, k);
      assert OverflowsAt(hd, d.state, d.rest, feed[1..], k - 1);
    }
    if Overflows(hd, d.state, d.rest, feed[1..]) {
      var k :| 0 <= k < |feed[1..]| && OverflowsAt(hd, d.state, d.rest, feed[1..], k);
      OverflowShift(hd, h, buf, feed, k + 1);
      assert OverflowsAt(hd, h, buf, feed, k + 1);
    }
  }

  // ----- the read at which the loop stops for size

  /** The loop stops for size at the first read that overflows, with everything before that read served. */
  lemma {:induction false} ServeTooLarge<S>(hd: Handler<S>, h: S, buf: Text, written: Text, feed: seq<Read>)
    returns (k: nat)
    requires Chunks(feed) && Stuck(hd, h, buf) && Overflows(hd, h, buf, feed)
    ensures k < |feed| && OverflowsAt(hd, h, buf, feed, k) && forall i | 0 <= i < k :: !OverflowsAt(hd, h, buf, feed, i)
    ensures var d := Drain(hd, h, buf + Concat(feed[..k]));
            Serve(hd, h, buf, written, feed) ==
                Connection(d.state, written + d.written, d.rest + feed[k].bytes, TooLarge)
    decreases |feed|
  {
    hide Drain, Serve, Overflows, OverflowsAt, Stuck, Concat;
    assert feed != [] by { if feed == [] { NothingOverflows(hd, h, buf); } }
    var first := feed[0].bytes;
    var d := Drain(hd, h, buf + first);
    ServeStep(hd, h, buf, written, feed);
    OverflowNow(hd, h, buf, feed);
    if |buf + first| > MAX_REQUEST_BYTES {
      k := 0;
      StopsAtOnce(hd, h, buf, written, feed);
    } else {
      if d.fatal { FatalNoOverflow(hd, h, buf, feed); }
      OverflowTail(hd, h, buf, feed);
      RestStuck(hd, h, buf + first);
      var j := ServeTooLarge(hd, d.state, d.rest, written + d.written, feed[1..]);
      k := j + 1;
      StopsLater(hd, h, buf, written, feed, j);
      forall i | 0 <= i < k ensures !OverflowsAt(hd, h, buf, feed, i) {
        if i > 0 { OverflowShift(hd, h, buf, feed, i); }
      }
      OverflowShift(hd, h, buf, feed, k);
    }
  }

  lemma NothingOverflows<S>(hd: Handler<S>, h: S, buf: Text)
    ensures !Overflows(hd, h, buf, [])
  {
  }

  lemma StopsAtOnce<S>(hd: Handler<S>, h: S, buf: Text, written: Text, feed: seq<Read>)
    requires Chunks(feed) && Stuck(hd, h, buf) && feed != []
    ensures var d := Drain(hd, h, buf + Concat(feed[..0]));
            d.state == h && written + d.written == written && d.rest + feed[0].bytes == buf + feed[0].bytes
  {
    hide Drain;
    assert buf + Concat(feed[..0]) == buf;
  }

  lemma StopsLater<S>(hd: Handler<S>, h: S, buf: Text, written: Text, feed: seq<Read>, j: nat)
    requires Chunks(feed) && j < |feed| && !Drain(hd, h, buf + feed[0].bytes).fatal
    ensures var d := Drain(hd, h, buf + feed[0].bytes);
            var e := Drain(hd, d.state, d.rest + Concat(feed[1..][..j]));
            Drain(hd, h, buf + Concat(feed[..j + 1])) == e.(written := d.written + e.written)
            && (written + d.written) + e.written == written + (d.written + e.written)
  {
    hide Drain;
    var first, tail := feed[0].bytes, Concat(feed[1..][..j]);
    assert feed[..j + 1][1..] == feed[1..][..j];
    assert buf + Concat(feed[..j + 1]) == (buf + first) + tail;
    DrainAppend(hd, h, buf + first, tail);
  }

  /** Reads that neither overflow nor fail leave the loop where one pass over them would. */
  lemma {:induction false} ServeSplit<S>(hd: Handler<S>, h: S, buf: Text, written: Text, feed: seq<Read>, m: nat)
    requires Chunks(feed) && Stuck(hd, h, buf) && m <= |feed|
    requires forall i | 0 <= i < m :: !OverflowsAt(hd, h, buf, feed, i)
    requires !Drain(hd, h, buf + Concat(feed[..m])).fatal
    ensures var d := Drain(hd, h, buf + Concat(feed[..m]));
            Serve(hd, h, buf, written, feed) == Serve(hd, d.state, d.rest, written + d.written, feed[m..])
    decreases m
  {
    hide Drain, Serve, OverflowsAt, Stuck, Concat;
    if m == 0 {
      SplitNothing(hd, h, buf, written, feed);
    } else {
      var first := feed[0].bytes;
      var d := Drain(hd, h, buf + first);
      ServeStep(hd, h, buf, written, feed);
      OverflowNow(hd, h, buf, feed);
      FatalStays(hd, h, buf, feed, m);
      RestStuck(hd, h, buf + first);
      StopsLater(hd, h, buf, written, feed, m - 1);
      forall i | 0 <= i < m - 1 ensures !OverflowsAt(hd, d.state, d.rest, feed[1..], i) {
        OverflowShift(hd, h, buf, feed, i + 1);
      }
      ServeSplit(hd, d.state, d.rest, written + d.written, feed[1..], m - 1);
      assert feed[1..][m - 1..] == feed[m..];
    }
  }

  lemma SplitNothing<S>(hd: Handler<S>, h: S, buf: Text, written: Text, feed: seq<Read>)
    requires Stuck(hd, h, buf)
    ensures var d := Drain(hd, h, buf + Concat(feed[..0]));
            d.state == h && d.rest == buf && written + d.written == written && feed[0..] == feed
  {
    hide Drain;
    assert buf + Concat(feed[..0]) == buf;
  }

  lemma FatalStays<S>(hd: Handler<S>, h: S, buf: Text, feed: seq<Read>, m: nat)
    requires Chunks(feed) && 0 < m <= |feed| && !Drain(hd, h, buf + Concat(feed[..m])).fatal
    ensures !Drain(hd, h, buf + feed[0].bytes).fatal
  {
    hide Drain;
    var tail := Concat(feed[..m][1..]);
    assert buf + Concat(feed[..m]) == (buf + feed[0].bytes) + tail;
    DrainAppend(hd, h, buf + feed[0].bytes, tail);
  }

  /** What a chunking stopped for size has written, by how far it got. */
  lemma StoppedHasWritten<S>(hd: Handler<S>, h: S, feed: seq<Read>) returns (n: nat)
    requires Chunks(feed) && Serve(hd, h, [], [], feed).end == TooLarge
    ensures n <= |Concat(feed)| && Serve(hd, h, [], [], feed).written == Drain(hd, h, Concat(feed)[..n]).written
  {
    NothingStuck(hd, h);
    hide Drain, Serve, Stuck, Overflows;
    ServeIsDrain(hd, h, [], [], feed);
    var k := ServeTooLarge(hd, h, [], [], feed);
    ConcatTake(feed, k);
    n := |Concat(feed[..k])|;
    assert [] + Concat(feed[..k]) == Concat(feed[..k]);
    assert [] + Drain(hd, h, Concat(feed[..k])).written == Drain(hd, h, Concat(feed[..k])).written;
  }

  lemma NothingStuck<S>(hd: Handler<S>, h: S)
    ensures Stuck(hd, h, [])
  {
  }

  /** A chunking not stopped for size has written what one pass writes. */
  lemma UnstoppedHasWritten<S>(hd: Handler<S>, h: S, feed: seq<Read>)
    requires Chunks(feed) && Serve(hd, h, [], [], feed).end != TooLarge
    ensures var c, d := Serve(hd, h, [], [], feed), Drain(hd, h, Concat(feed));
            c.end == (if d.fatal then ProcessorError else Waiting) && c.state == d.state && c.written == d.written
            && (c.end == Waiting ==> c.buffer == d.rest)
  {
    NothingStuck(hd, h);
    hide Drain, Serve, Stuck, Overflows;
    ServeIsDrain(hd, h, [], [], feed);
    assert [] + Concat(feed) == Concat(feed);
    assert [] + Drain(hd, h, Concat(feed)).written == Drain(hd, h, Concat(feed)).written;
  }

  /** One text starts with the other. */
  predicate Nested(a: Text, b: Text) {
    a <= b || b <= a
  }

  /**
   Two ways of cutting one stream are indistinguishable to the peer and to the handler, unless one of
   them is stopped for size: then it has written a part of what the other has, or, if that was stopped
   as well, one of them a part of what the other has.
   */
  lemma ChunkingIrrelevant<S>(hd: Handler<S>, h: S, one: seq<Read>, two: seq<Read>)
    requires Chunks(one) && Chunks(two) && Concat(one) == Concat(two)
    ensures var a, b := Serve(hd, h, [], [], one), Serve(hd, h, [], [], two);
            && Nested(a.written, b.written)
            && (a.end != TooLarge && b.end != TooLarge ==>
                  && a.end == b.end && a.state == b.state && a.written == b.written
                  && (a.end == Waiting ==> a.buffer == b.buffer))
            && (a.end == TooLarge && b.end != TooLarge ==> a.written <= b.written)
  {
    hide Drain, Serve, Concat;
    var stream, n, m := Concat(one), |Concat(one)|, |Concat(two)|;
    assert stream[..n] == stream;
    if Serve(hd, h, [], [], one).end == TooLarge {
      n := StoppedHasWritten(hd, h, one);
    } else {
      UnstoppedHasWritten(hd, h, one);
    }
    if Serve(hd, h, [], [], two).end == TooLarge {
      m := StoppedHasWritten(hd, h, two);
    } else {
      UnstoppedHasWritten(hd, h, two);
    }
    if n <= m {
      assert stream[..m][..n] == stream[..n];
      DrainedMore(hd, h, stream[..m], n);
    } else {
      assert stream[..n][..m] == stream[..m];
      DrainedMore(hd, h, stream[..n], m);
    }
    DrainedMore(hd, h, stream, n);
  }

  /** A longer pass writes more. */
  lemma DrainedMore<S>(hd: Handler<S>, h: S, stream: Text, n: nat)
    requires n <= |stream|
    ensures Drain(hd, h, stream[..n]).written <= Drain(hd, h, stream).written
  {
    hide Drain;
    assert stream[..n] + stream[n..] == stream;
    DrainAppend(hd, h, stream[..n], stream[n..]);
  }

  // ----- when size can stop a stream at all

  /** After `n` bytes, what is buffered and one more read exceed the limit. */
  ghost predicate CrowdedAt<S>(hd: Handler<S>, h: S, stream: Text, n: nat)
    requires n < |stream|
  {
    var d := Drain(hd, h, stream[..n]);
    var next := if |stream| - n <= READ_CHUNK_BYTES then |stream| - n else READ_CHUNK_BYTES;
    !d.fatal && |d.rest| + next > MAX_REQUEST_BYTES
  }

  ghost predicate StopsForSize<S>(hd: Handler<S>, h: S, stream: Text, feed: seq<Read>) {
    Chunks(feed) && Concat(feed) == stream && Serve(hd, h, [], [], feed).end == TooLarge
  }

  lemma {:induction false} ConcatAppend(a: seq<Read>, b: seq<Read>)
    requires Chunks(a) && Chunks(b)
    ensures Chunks(a + b) && Concat(a + b) == Concat(a) + Concat(b)
    decreases |a|
  {
    if a == [] {
      assert a + b == b;
    } else {
      assert (a + b)[1..] == a[1..] + b;
      ConcatAppend(a[1..], b);
      assert a[0].bytes + (Concat(a[1..]) + Concat(b)) == Concat(a) + Concat(b);
    }
  }

  /** The stream a byte at a time. */
  function Singles(text: Text): (feed: seq<Read>)
    ensures |feed| == |text| && Chunks(feed) && Concat(feed) == text
    ensures forall i | 0 <= i < |feed| :: |feed[i].bytes| == 1
  {
    if text == [] then [] else
      assert [Data(text[..1])] + Singles(text[1..]) != [] && text[..1] + text[1..] == text;
      assert ([Data(text[..1])] + Singles(text[1..]))[1..] == Singles(text[1..]);
      [Data(text[..1])] + Singles(text[1..])
  }

  /**
   For any byte stream whatever: some way of cutting it into reads is stopped for size exactly when at
   some point the bytes still buffered leave no room for a full read, or for all that is left.
   */
  lemma SizeStopsIff<S>(hd: Handler<S>, h: S, stream: Text)
    ensures (exists feed :: StopsForSize(hd, h, stream, feed))
        <==> exists n | 0 <= n < |stream| :: CrowdedAt(hd, h, stream, n)
  {
    hide Drain, Serve, Singles, StopsForSize, CrowdedAt, Chunks, Concat;
    if feed :| StopsForSize(hd, h, stream, feed) {
      var n := StoppedIsCrowded(hd, h, stream, feed);
    }
    if n :| 0 <= n < |stream| && CrowdedAt(hd, h, stream, n) {
      var feed := CrowdedIsStopped(hd, h, stream, n);
    }
  }

  lemma StoppedIsCrowded<S>(hd: Handler<S>, h: S, stream: Text, feed: seq<Read>) returns (n: nat)
    requires StopsForSize(hd, h, stream, feed)
    ensures n < |stream| && CrowdedAt(hd, h, stream, n)
  {
    assert Stuck(hd, h, []);
    hide Drain, Serve, Stuck, Overflows;
    ServeIsDrain(hd, h, [], [], feed);
    var k := ServeTooLarge(hd, h, [], [], feed);
    ConcatTake(feed, k);
    ConcatTake(feed, k + 1);
    ConcatNext(feed, k);
    n := |Concat(feed[..k])|;
    assert [] + Concat(feed[..k]) == Concat(feed[..k]);
  }

  lemma ConcatNext(feed: seq<Read>, k: nat)
    requires Chunks(feed) && k < |feed|
    ensures Concat(feed[..k + 1]) == Concat(feed[..k]) + feed[k].bytes
  {
    assert feed[..k + 1] == feed[..k] + [feed[k]];
    ConcatAppend(feed[..k], [feed[k]]);
    assert Concat([feed[k]]) == feed[k].bytes by { assert [feed[k]][1..] == []; }
  }

  /** A way of cutting the stream in which one read takes exactly the bytes from `n` to `m`. */
  lemma CutAt(stream: Text, n: nat, m: nat) returns (feed: seq<Read>)
    requires n < m <= |stream| && m - n <= READ_CHUNK_BYTES
    ensures Chunks(feed) && Concat(feed) == stream && n < |feed|
    ensures Concat(feed[..n]) == stream[..n] && feed[n].bytes == stream[n..m]
  {
    var read := [Data(stream[n..m])];
    hide Singles;
    assert Concat(read) == stream[n..m] by { assert read[1..] == []; }
    ConcatAppend(Singles(stream[..n]), read);
    ConcatAppend(Singles(stream[..n]) + read, Singles(stream[m..]));
    feed := Singles(stream[..n]) + read + Singles(stream[m..]);
    assert stream[..n] + stream[n..m] + stream[m..] == stream;
    assert feed[..n] == Singles(stream[..n]) && feed[n] == read[0];
  }

  lemma CrowdedIsStopped<S>(hd: Handler<S>, h: S, stream: Text, n: nat) returns (feed: seq<Read>)
    requires n < |stream| && CrowdedAt(hd, h, stream, n)
    ensures StopsForSize(hd, h, stream, feed)
  {
    var next := if |stream| - n <= READ_CHUNK_BYTES then |stream| - n else READ_CHUNK_BYTES;
    assert Stuck(hd, h, []);
    hide Drain, Serve, Chunks, Concat, Overflows, Stuck;
    feed := CutAt(stream, n, n + next);
    assert [] + stream[..n] == stream[..n];
    AnyOverflow(hd, h, [], feed, n);
    ServeIsDrain(hd, h, [], [], feed);
  }

  lemma AnyOverflow<S>(hd: Handler<S>, h: S, buf: Text, feed: seq<Read>, k: nat)
    requires Chunks(feed) && k < |feed| && OverflowsAt(hd, h, buf, feed, k)
    ensures Overflows(hd, h, buf, feed)
  {
  }
}
