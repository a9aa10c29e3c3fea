/**
 A call to a method the processor does not know is answered from its header, and its arguments stay in
 the buffer. What becomes of whatever follows them.
 */
module UnknownMethods {
  import opened Bytes
  import opened Protocol
  import opened Schema
  import opened FieldProofs
  import opened Wire
  import opened Processor
  import opened Replies
  import opened Messages
  import opened Serving
  import opened RequestStreams
  import opened SafeRequests

  function Head(name: Text, sequence: int): Text {
    EncMessageBegin(Message(name, CALL, sequence))
  }

  ghost function Refusal<S>(hd: Handler<S>, name: Text, sequence: int): Text {
    ExceptionText(name, sequence, UNKNOWN_METHOD, hd.unknownMethodText(name))
  }

  predicate Unknown(name: Text, sequence: int) {
    !KnownMethod(name) && |name| < MAX_SIZE && InRange(sequence, 4)
  }

  lemma HeadSize(name: Text, sequence: int)
    ensures |Head(name, sequence)| == 12 + |name|
  {
  }

  lemma HeadAnswered<S>(hd: Handler<S>, h: S, name: Text, sequence: int, more: Text)
    requires Unknown(name, sequence)
    ensures var d := Drain(hd, h, more);
            Drain(hd, h, Head(name, sequence) + more) == d.(written := Refusal(hd, name, sequence) + d.written)
  {
    HeadSize(name, sequence);
    UnknownMethodUnread(hd, h, name, sequence, more);
    assert (Head(name, sequence) + more)[|Head(name, sequence)|..] == more;
    hide Process, EncMessageBegin, ExceptionText;
  }

  lemma HeadStuck<S>(hd: Handler<S>, h: S, name: Text, sequence: int, n: nat)
    requires Unknown(name, sequence) && n < |Head(name, sequence)|
    ensures Stuck(hd, h, Head(name, sequence)[..n])
  {
    var head := Head(name, sequence);
    UnknownMethodUnread(hd, h, name, sequence, []);
    assert head + [] == head && head[..n] + head[n..] == head;
    hide Process, EncMessageBegin, ExceptionText, Head;
    CutShort(hd, h, head[..n], head[n..]);
  }

  /** The caller of that method reads the refusal as a remote error of kind 1, with the processor's text. */
  lemma RefusalReadBack<S, T>(hd: Handler<S>, name: Text, sequence: int, ty: Ty, result: Value -> Received<T>,
                              s: Text, i: nat)
    requires Unknown(name, sequence) && |hd.unknownMethodText(name)| < MAX_SIZE
    requires At(s, i, Refusal(hd, name, sequence))
    ensures ReadReply(name, ty, result, sequence, s, i)
         == (Remote(1, hd.unknownMethodText(name)), i + |Refusal(hd, name, sequence)|)
  {
    assert InRange(1, 4) by { Widths(); }
    hide At, ExceptionText, ReadReply, InRange;
    ExceptionReadBack(name, ty, result, sequence, UNKNOWN_METHOD, hd.unknownMethodText(name), s, i);
  }

  // ----- exactly when what follows is intact

  /** Every finished attempt writes something. */
  lemma DoneWrites<S>(hd: Handler<S>, h: S, s: Text)
    ensures Process(hd, h, s).Done? ==> Process(hd, h, s).reply != []
  {
    hide ReadMessageBegin, Dec, Dispatch, Enc;
  }

  /** A pass that writes nothing and leaves nothing had nothing to read. */
  lemma QuietMeansEmpty<S>(hd: Handler<S>, h: S, s: Text)
    requires Drain(hd, h, s).written == [] && Drain(hd, h, s).rest == []
    ensures s == []
  {
    hide Process;
    if s != [] {
      DoneWrites(hd, h, s);
    }
  }

  ghost predicate FollowUpIntact<S>(hd: Handler<S>, h: S, name: Text, sequence: int, args: Text, more: Text) {
    var d := Drain(hd, h, more);
    Drain(hd, h, Head(name, sequence) + args + more) == d.(written := Refusal(hd, name, sequence) + d.written)
  }

  /**
   * Whatever is pipelined behind a call to an unknown method is served as if sent alone exactly when the call
   * has no arguments.
   */
  lemma FollowUpIntactIff<S>(hd: Handler<S>, h: S, name: Text, sequence: int, args: Text)
    requires Unknown(name, sequence)
    ensures (forall more :: FollowUpIntact(hd, h, name, sequence, args, more)) <==> args == []
  {
    var head, refusal := Head(name, sequence), Refusal(hd, name, sequence);
    hide Drain, Head, Refusal;
    if args == [] {
      forall more ensures FollowUpIntact(hd, h, name, sequence, args, more) {
        HeadAnswered(hd, h, name, sequence, more);
        assert head + args + more == head + more;
      }
    } else {
      HeadAnswered(hd, h, name, sequence, args);
      assert head + args + [] == head + args;
      NothingStuck(hd, h);
      if FollowUpIntact(hd, h, name, sequence, args, []) {
        var d := Drain(hd, h, args);
        assert d.(written := refusal + d.written) == Served(h, refusal + [], [], false);
        assert |refusal + d.written| == |refusal + []|;
        QuietMeansEmpty(hd, h, args);
      }
    }
  }

  // ----- what arguments left in the buffer are taken for

  /** A buffer that does not start like a versioned header is read for the name its first four bytes announce. */
  lemma NameAwaited<S>(hd: Handler<S>, h: S, s: Text)
    requires s != [] && s[0] < 0x80
    requires |s| < 4 || |s| < 4 + FromBigEndian(s[..4])
    ensures Stuck(hd, h, s)
  {
    if |s| >= 4 {
      assert s[0..4] == s[..4];
    }
    assert ReadMessageBegin(s, 0).HitsEnd();
    hide ReadMessageBegin, ProcessArgs, ExceptionText;
  }

  /** The bytes of a struct with a field begin with the field's type. */
  predicate StartsWithField(s: Text) {
    s != [] && 2 <= s[0] < 0x80
  }

  lemma ArgumentsStartWithField(fs: seq<Field>, rs: seq<RawField>)
    requires rs != [] && AllReadable(fs, rs) && rs[0].kind >= BOOL
    ensures StartsWithField(StructText(rs))
  {
    hide Dec, Skip, Find;
    assert Readable(fs, rs[0]);
    assert StructText(rs)[0] == FieldText(rs[0])[0] == rs[0].kind;
  }

  lemma FieldNeverFits<S>(hd: Handler<S>, h: S, s: Text)
    requires StartsWithField(s) && |s| <= MAX_REQUEST_BYTES
    ensures Stuck(hd, h, s)
  {
    if |s| >= 4 {
      TopByte(s[..4]);
      hide FromBigEndian;
    }
    NameAwaited(hd, h, s);
  }

  ghost predicate Deaf<S>(c: Connection<S>, h: S, written: Text) {
    c.state == h && c.written == written && (c.end == Waiting || c.end == TooLarge)
  }

  /** From a buffer that starts with a field on, nothing is answered any more, whatever is sent. */
  lemma {:induction false} FieldSilences<S>(hd: Handler<S>, h: S, buf: Text, written: Text, feed: seq<Read>)
    requires Chunks(feed)
    requires buf == [] || StartsWithField(buf)
    requires buf + Concat(feed) == [] || StartsWithField(buf + Concat(feed))
    ensures Deaf(Serve(hd, h, buf, written, feed), h, written)
    decreases |feed|
  {
    if feed != [] {
      var next := buf + feed[0].bytes;
      assert next + Concat(feed[1..]) == buf + Concat(feed);
      assert next[0] == (buf + Concat(feed))[0];
      hide Drain;
      ServeStep(hd, h, buf, written, feed);
      if |next| <= MAX_REQUEST_BYTES {
        FieldNeverFits(hd, h, next);
        assert written + [] == written;
        FieldSilences(hd, h, next, written, feed[1..]);
      }
    }
  }

  /** One text cut in two ways. */
  lemma Align(a: Text, b: Text, c: Text, d: Text)
    requires a + b == c + d && |a| <= |c|
    ensures a == c[..|a|] && c == a + c[|a|..] && b == c[|a|..] + d
  {
    assert a == (a + b)[..|a|] && c[..|a|] == (c + d)[..|a|];
    assert b == (a + b)[|a|..] && c[|a|..] + d == (c + d)[|a|..];
  }

  /** What the header's reply and the arguments make of a connection. */
  lemma {:induction false} ThenSilence<S>(hd: Handler<S>, h: S, name: Text, sequence: int, after: Text,
                                          buf: Text, written: Text, feed: seq<Read>)
    requires Unknown(name, sequence) && |Head(name, sequence)| <= SAFE_REQUEST_BYTES && StartsWithField(after)
    requires Chunks(feed) && |buf| < |Head(name, sequence)|
    requires buf + Concat(feed) == Head(name, sequence) + after
    ensures Deaf(Serve(hd, h, buf, written, feed), h, written + Refusal(hd, name, sequence))
    decreases |feed|
  {
    hide Head, Refusal, Drain, Serve;
    var head := Head(name, sequence);
    assert feed != [];
    var next := buf + feed[0].bytes;
    assert next + Concat(feed[1..]) == head + after;
    ServeStep(hd, h, buf, written, feed);
    if |next| < |head| {
      Align(next, Concat(feed[1..]), head, after);
      HeadStuck(hd, h, name, sequence, |next|);
      assert written + [] == written;
      ThenSilence(hd, h, name, sequence, after, next, written, feed[1..]);
    } else {
      var tail := next[|head|..];
      Align(head, after, next, Concat(feed[1..]));
      HeadAnswered(hd, h, name, sequence, tail);
      TailStuck(hd, h, tail, after);
      assert written + (Refusal(hd, name, sequence) + []) == written + Refusal(hd, name, sequence);
      FieldSilences(hd, h, tail, written + Refusal(hd, name, sequence), feed[1..]);
    }
  }

  lemma TailStuck<S>(hd: Handler<S>, h: S, tail: Text, after: Text)
    requires StartsWithField(after) && tail <= after && |tail| <= MAX_REQUEST_BYTES
    ensures Stuck(hd, h, tail) && (tail == [] || StartsWithField(tail))
  {
    if tail == [] {
      NothingStuck(hd, h);
    } else {
      assert tail[0] == after[0];
      FieldNeverFits(hd, h, tail);
    }
  }

  /**
   After a call to an unknown method with at least one argument nothing on the connection is ever
   answered again, whatever is sent and however it is cut: what came before it and the refusal of the
   call itself are all that is written, and the handler is not run any more.
   */
  lemma NothingAfterArguments<S>(hd: Handler<S>, h: S, qs: seq<Sent>, name: Text, sequence: int,
                                 args: Text, more: Text, feed: seq<Read>)
    requires AllFit(qs) && AllSafe(qs) && Unknown(name, sequence) && |Head(name, sequence)| <= SAFE_REQUEST_BYTES
    requires StartsWithField(args)
    requires Chunks(feed) && Concat(feed) == Texts(qs) + Head(name, sequence) + args + more
    ensures var (h', replies) := AnswerAll(hd, h, qs);
            Deaf(Serve(hd, h, [], [], feed), h', replies + Refusal(hd, name, sequence))
  {
    hide Sent.Fits, Serve, AnswerAll, Texts, AllFit, AllSafe, Deaf, Refusal;
    HeadSize(name, sequence);
    hide Head;
    var head := Head(name, sequence);
    assert Texts(qs) + head + args + more == Texts(qs) + (head + (args + more));
    var rest := SafePrefixServed(hd, h, qs, head + (args + more), feed);
    assert [] + Concat(rest) == head + (args + more);
    var (h', replies) := AnswerAll(hd, h, qs);
    ThenSilence(hd, h', name, sequence, args + more, [], replies, rest);
  }

  // ----- after a call with no arguments but the empty struct

  /**
   * The bytes of the next request under 0x80_0100 bytes, read behind a stop byte, fall short of the name they
   * announce.
   */
  lemma StopHidesRequest<S>(hd: Handler<S>, h: S, s: Text)
    requires s != [] && s[0] == STOP && |s| < 0x80_0104
    requires |s| >= 4 ==> s[1] == 0x80 && s[2] == 1 && s[3] == 0
    ensures Stuck(hd, h, s)
  {
    if |s| >= 4 {
      TopByte(s[..4]);
      hide FromBigEndian;
    }
    NameAwaited(hd, h, s);
  }

  /** The start of a versioned header, or as much of it as there is. */
  predicate Versioned(s: Text) {
    && (|s| >= 1 ==> s[0] == 0x80) && (|s| >= 2 ==> s[1] == 1) && (|s| >= 3 ==> s[2] == 0)
  }

  ghost predicate HeldBack<S>(d: Served<S>, h: S, written: Text, rest: Text) {
    d == Served(h, written, rest, false)
  }

  /** One pass over any part of such a stream. */
  lemma StopPass<S>(hd: Handler<S>, h: S, name: Text, sequence: int, more: Text, n: nat)
    requires Unknown(name, sequence) && Versioned(more) && |more| < 0x80_0103
    requires n <= |Head(name, sequence) + ([STOP] + more)|
    ensures var head := Head(name, sequence);
            var s := (head + ([STOP] + more))[..n];
            if n < |head| then HeldBack(Drain(hd, h, s), h, [], s)
            else HeldBack(Drain(hd, h, s), h, Refusal(hd, name, sequence), s[|head|..])
  {
    hide Head, Refusal, Drain;
    var head, tail := Head(name, sequence), [STOP] + more;
    if n < |head| {
      assert (head + tail)[..n] == head[..n];
      HeadStuck(hd, h, name, sequence, n);
    } else {
      var part := tail[..n - |head|];
      assert (head + tail)[..n] == head + part;
      HeadAnswered(hd, h, name, sequence, part);
      if part == [] {
        NothingStuck(hd, h);
      } else {
        StopHidesRequest(hd, h, part);
      }
      assert Refusal(hd, name, sequence) + [] == Refusal(hd, name, sequence);
    }
  }

  /**
   After a call to an unknown method with empty arguments, what a versioned header begins is not answered
   either until more than eight megabytes of it have come in: it waits in the buffer behind the stop byte.
   */
  lemma WaitsBehindStop<S>(hd: Handler<S>, h: S, name: Text, sequence: int, more: Text, feed: seq<Read>)
    requires Unknown(name, sequence) && |Head(name, sequence)| <= SAFE_REQUEST_BYTES
    requires Versioned(more) && |more| < 0x80_0103
    requires Chunks(feed) && Concat(feed) == Head(name, sequence) + ([STOP] + more)
    ensures Serve(hd, h, [], [], feed) == Connection(h, Refusal(hd, name, sequence), [STOP] + more, Waiting)
  {
    hide Head, Refusal, Drain, Serve, Overflows, CrowdedAt, StopsForSize, Chunks, Concat;
    var head := Head(name, sequence);
    var stream := head + ([STOP] + more);
    forall n | 0 <= n < |stream| ensures !CrowdedAt(hd, h, stream, n) {
      StopPass(hd, h, name, sequence, more, n);
      RoomBehindStop(hd, h, name, sequence, more, n);
    }
    SizeStopsIff(hd, h, stream);
    StopPass(hd, h, name, sequence, more, |stream|);
    assert stream[..|stream|] == stream && stream[|head|..] == [STOP] + more;
    NothingStuck(hd, h);
    NotStopped(hd, h, stream, feed);
    hide Stuck;
    ServeIsDrain(hd, h, [], [], feed);
    assert [] + stream == stream && [] + Refusal(hd, name, sequence) == Refusal(hd, name, sequence);
  }

  lemma NotStopped<S>(hd: Handler<S>, h: S, stream: Text, feed: seq<Read>)
    requires !StopsForSize(hd, h, stream, feed) && Chunks(feed) && Concat(feed) == stream
    ensures Serve(hd, h, [], [], feed).end != TooLarge
  {
    hide Serve;
  }

  lemma RoomBehindStop<S>(hd: Handler<S>, h: S, name: Text, sequence: int, more: Text, n: nat)
    requires |Head(name, sequence)| <= SAFE_REQUEST_BYTES && |more| < 0x80_0103
    requires n < |Head(name, sequence) + ([STOP] + more)|
    requires var head := Head(name, sequence);
             var s := (head + ([STOP] + more))[..n];
             if n < |head| then HeldBack(Drain(hd, h, s), h, [], s)
             else HeldBack(Drain(hd, h, s), h, Refusal(hd, name, sequence), s[|head|..])
    ensures !CrowdedAt(hd, h, Head(name, sequence) + ([STOP] + more), n)
  {
    hide Head, Refusal, Drain;
  }
}
