/**
 What the size limits promise a single request: one that is small enough is answered whatever comes
 after it, and one that is too long never runs.
 */
module SafeRequests {
  import opened Bytes
  import opened Wire
  import opened Messages
  import opened Processor
  import opened Serving
  import opened RequestStreams

  /** No read is refused while it can still be needed by a request that is small enough. */
  lemma NoOverflow<S>(hd: Handler<S>, h: S, qs: seq<Sent>, more: Text, feed: seq<Read>, k: nat)
    requires AllFit(qs) && AllSafe(qs) && Chunks(feed) && Concat(feed) == Texts(qs) + more
    requires k < |feed|
    ensures |Concat(feed[..k])| < |Texts(qs)| ==>
              !OverflowsAt(hd, h, [], feed, k) && !Drain(hd, h, Concat(feed[..k])).fatal
  {
    hide Sent.Fits, Drain, AnswerAll, Texts;
    if |Concat(feed[..k])| >= |Texts(qs)| {
      return;
    }
    var n := |Concat(feed[..k])|;
    ConcatTake(feed, k);
    EmptyPart();
    var i, r := FindEnd(qs, [], Written(PingRequest(0)), n);
    DrainToEnd(hd, h, qs, [], Written(PingRequest(0)), n, i, r);
    assert (Texts(qs) + [])[..n] == Concat(feed[..k]);
    assert [] + Concat(feed[..k]) == Concat(feed[..k]);
    WholeSlice(qs, i);
  }

  lemma WholeSlice<T>(xs: seq<T>, i: nat)
    requires i <= |xs|
    ensures i == |xs| ==> xs[..i] == xs
  {
  }

  /** The read in which the last of the requests ends, taken apart. */
  lemma LastRead<S>(hd: Handler<S>, h: S, qs: seq<Sent>, more: Text, feed: seq<Read>) returns (j: nat, extra: Text)
    requires AllFit(qs) && AllSafe(qs) && Texts(qs) != [] && Chunks(feed) && Concat(feed) == Texts(qs) + more
    ensures j < |feed| && |Concat(feed[..j])| < |Texts(qs)| && |extra| < |feed[j].bytes|
    ensures Concat(feed[..j]) + feed[j].bytes == Texts(qs) + extra
    ensures extra + Concat(feed[j + 1..]) == more
  {
    hide Texts;
    j := ReadPast(feed, |Texts(qs)| - 1);
    ConcatNext(feed, j);
    ConcatTake(feed, j + 1);
    extra := Concat(feed[..j + 1])[|Texts(qs)|..];
    assert feed[..j + 1] + feed[j + 1..] == feed;
    ConcatAppend(feed[..j + 1], feed[j + 1..]);
    assert Concat(feed[..j + 1]) == Texts(qs) + extra;
  }

  /** The buffer at that read, and what one pass over it does. */
  lemma LastPass<S>(hd: Handler<S>, h: S, qs: seq<Sent>, feed: seq<Read>, j: nat, extra: Text)
    requires AllFit(qs) && Chunks(feed) && j < |feed| && !Drain(hd, h, Concat(feed[..j])).fatal
    requires Concat(feed[..j]) + feed[j].bytes == Texts(qs) + extra
    ensures var d := Drain(hd, h, Concat(feed[..j]));
            var e := Drain(hd, d.state, d.rest + feed[j].bytes);
            var (h', replies) := AnswerAll(hd, h, qs);
            Drain(hd, h', extra).(written := replies + Drain(hd, h', extra).written) ==
                e.(written := d.written + e.written)
  {
    hide Drain, Texts, AnswerAll;
    DrainAppend(hd, h, Concat(feed[..j]), feed[j].bytes);
    DrainThrough(hd, h, qs, extra);
  }

  /** What the loop does from that read on. */
  ghost function Onward<S>(d: Served<S>, hd: Handler<S>, rest: seq<Read>): Connection<S> {
    if d.fatal then Connection(d.state, d.written, d.rest, ProcessorError)
    else Serve(hd, d.state, d.rest, d.written, rest)
  }

  lemma FromLastRead<S>(hd: Handler<S>, h: S, qs: seq<Sent>, more: Text, feed: seq<Read>, j: nat, extra: Text)
    requires AllFit(qs) && AllSafe(qs) && Chunks(feed) && Concat(feed) == Texts(qs) + more
    requires j < |feed| && |Concat(feed[..j])| < |Texts(qs)| && !Drain(hd, h, Concat(feed[..j])).fatal
    requires Concat(feed[..j]) + feed[j].bytes == Texts(qs) + extra
    ensures var (h', replies) := AnswerAll(hd, h, qs); var d := Drain(hd, h', extra);
            Serve(hd, h, [], [], feed) == Onward(d.(written := replies + d.written), hd, feed[j + 1..])
  {
    hide Drain, Serve, Texts, AnswerAll, AllSafe, AllFit, OverflowsAt;
    forall i | 0 <= i <= j ensures !OverflowsAt(hd, h, [], feed, i) {
      ShorterRead(feed, i, j);
      NoOverflow(hd, h, qs, more, feed, i);
    }
    var d := Drain(hd, h, Concat(feed[..j]));
    assert [] + Concat(feed[..j]) == Concat(feed[..j]) && [] + d.written == d.written;
    NothingStuck(hd, h);
    hide Stuck;
    ServeSplit(hd, h, [], [], feed, j);
    assert feed[j..][0] == feed[j] && feed[j..][1..] == feed[j + 1..];
    ServeStep(hd, d.state, d.rest, d.written, feed[j..]);
    RoomAt(hd, h, feed, j);
    LastPass(hd, h, qs, feed, j, extra);
  }

  lemma RoomAt<S>(hd: Handler<S>, h: S, feed: seq<Read>, j: nat)
    requires Chunks(feed) && j < |feed| && !OverflowsAt(hd, h, [], feed, j) && !Drain(hd, h, Concat(feed[..j])).fatal
    ensures |Drain(hd, h, Concat(feed[..j])).rest + feed[j].bytes| <= MAX_REQUEST_BYTES
  {
    hide Drain;
    assert [] + Concat(feed[..j]) == Concat(feed[..j]);
  }

  /** The same connection, begun afresh with what is left of that read. */
  lemma Afresh<S>(hd: Handler<S>, h: S, replies: Text, extra: Text, rest: seq<Read>) returns (begun: seq<Read>)
    requires Chunks(rest) && |extra| <= READ_CHUNK_BYTES
    ensures Chunks(begun) && Concat(begun) == extra + Concat(rest)
    ensures var d := Drain(hd, h, extra);
            Serve(hd, h, [], replies, begun) == Onward(d.(written := replies + d.written), hd, rest)
  {
    if extra == [] {
      begun := rest;
      assert replies + [] == replies && extra + Concat(rest) == Concat(rest);
      hide Serve, Process;
    } else {
      begun := [Data(extra)] + rest;
      assert begun[1..] == rest;
      hide Drain, Serve;
      ServeStep(hd, h, [], replies, begun);
      assert [] + extra == extra;
    }
  }

  /**
   Requests that are small enough are answered in order, however they are cut into reads and whatever
   bytes follow them: from there on the connection behaves as one that begins with those bytes.
   */
  lemma SafePrefixServed<S>(hd: Handler<S>, h: S, qs: seq<Sent>, more: Text, feed: seq<Read>) returns (rest: seq<Read>)
    requires AllFit(qs) && AllSafe(qs) && Chunks(feed) && Concat(feed) == Texts(qs) + more
    ensures Chunks(rest) && Concat(rest) == more
    ensures var (h', replies) := AnswerAll(hd, h, qs);
            Serve(hd, h, [], [], feed) == Serve(hd, h', [], replies, rest)
  {
    if Texts(qs) == [] {
      hide Drain, Serve, AnswerAll, AllSafe;
      rest := feed;
      assert Texts(qs) + more == more;
      NoBytesNoRequests(hd, h, qs);
    } else {
      hide Drain, Serve, Texts, AnswerAll, AllSafe, AllFit, OverflowsAt, Onward;
      var j, extra := LastRead(hd, h, qs, more, feed);
      NoOverflow(hd, h, qs, more, feed, j);
      FromLastRead(hd, h, qs, more, feed, j, extra);
      rest := Afresh(hd, AnswerAll(hd, h, qs).0, AnswerAll(hd, h, qs).1, extra, feed[j + 1..]);
    }
  }

  lemma {:induction false} ServeExtends<S>(hd: Handler<S>, h: S, buf: Text, written: Text, feed: seq<Read>)
    ensures written <= Serve(hd, h, buf, written, feed).written
    decreases |feed|
  {
    hide Drain;
    if feed != [] && feed[0].Data? {
      var d := Drain(hd, h, buf + feed[0].bytes);
      ServeExtends(hd, d.state, d.rest, written + d.written, feed[1..]);
    }
  }

  /** So their replies are written once their bytes have been read, whatever came in with them. */
  lemma SafeRequestsAnswered<S>(hd: Handler<S>, h: S, qs: seq<Sent>, more: Text, feed: seq<Read>)
    requires AllFit(qs) && AllSafe(qs) && Chunks(feed) && Concat(feed) == Texts(qs) + more
    ensures AnswerAll(hd, h, qs).1 <= Serve(hd, h, [], [], feed).written
  {
    hide Serve, Texts, AnswerAll, AllSafe, AllFit;
    var rest := SafePrefixServed(hd, h, qs, more, feed);
    ServeExtends(hd, AnswerAll(hd, h, qs).0, [], AnswerAll(hd, h, qs).1, rest);
  }

  lemma NoBytesNoRequests<S>(hd: Handler<S>, h: S, qs: seq<Sent>)
    requires AllFit(qs) && Texts(qs) == []
    ensures AnswerAll(hd, h, qs) == (h, [])
  {
    hide Answer, Sent.Fits;
    if qs != [] {
      SomeBytes(hd, h, qs[0]);
    }
  }

  lemma SomeBytes<S>(hd: Handler<S>, h: S, q: Sent)
    requires q.Fits()
    ensures q.text != []
  {
    hide Sent.Fits, Process, Answer;
    SentProcessed(hd, h, q, []);
    ProcessBounds(hd, h, q.text + []);
  }

  /** A request over the limit, after requests that are small enough: those are answered, it never runs. */
  lemma OverlongAfterSafe<S>(hd: Handler<S>, h: S, qs: seq<Sent>, q: Sent, more: Text, feed: seq<Read>)
    requires AllFit(qs) && AllSafe(qs) && q.Fits() && |q.text| > MAX_REQUEST_BYTES
    requires Chunks(feed) && Concat(feed) == Texts(qs) + q.text + more
    ensures var c := Serve(hd, h, [], [], feed); c.end == TooLarge && (c.state, c.written) == AnswerAll(hd, h, qs)
  {
    hide Sent.Fits, Drain, Serve, Texts, AllSafe, AllFit, AnswerAll, Overflows, OverflowsAt;
    assert Texts(qs) + q.text + more == Texts(qs) + (q.text + more);
    var rest := SafePrefixServed(hd, h, qs, q.text + more, feed);
    var (h', replies) := AnswerAll(hd, h, qs);
    NoTexts();
    NoneFit();
    assert Texts([]) + q.text + more == q.text + more;
    var j := LongOverflows(hd, h', [], q, q.text, more, rest);
    AnyOverflow(hd, h', [], rest, j);
    NothingStuck(hd, h');
    hide Stuck;
    var i := ServeTooLarge(hd, h', [], replies, rest);
    ShorterRead(rest, i, j);
    ConcatTake(rest, i);
    var part := Concat(rest[..i]);
    assert part == q.text[..|part|];
    DrainPart(hd, h', part, q);
    assert [] + part == part;
    StuckPart(hd, h', part, replies);
  }

  lemma NoneFit()
    ensures AllFit([])
  {
  }

  lemma StuckPart<S>(hd: Handler<S>, h: S, part: Text, replies: Text)
    requires Stuck(hd, h, part)
    ensures Drain(hd, h, part).state == h && replies + Drain(hd, h, part).written == replies
  {
    hide Drain;
  }
}
