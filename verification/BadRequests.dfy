/**
 Messages that are no requests: one whose arguments are readable but lack a required field is answered
 with an error and gone, one whose header cannot be a header ends the connection.
 */
module BadRequests {
  import opened Bytes
  import opened Protocol
  import opened Schema
  import SchemaProofs
  import opened FieldProofs
  import opened Wire
  import opened Processor
  import opened Messages
  import opened Serving
  import opened RequestStreams
  import opened SafeRequests
  import opened Replies
  import opened Client

  // ----- arguments that lack a field

  /** A header of either form, read to its end. */
  ghost predicate Heads(head: Text, name: Text, kind: byte, sequence: int) {
    ReadMessageBegin(head, 0) == Ok(Message(name, kind, sequence), |head|)
  }

  ghost function MissingFieldText<S>(hd: Handler<S>, name: Text, sequence: int): Text {
    ExceptionText(name, sequence, UNKNOWN_ERROR, hd.faultText(MissingField))
  }

  /**
   Any readable fields for arguments, whatever follows them: the handler runs on what they assign if the
   required ones are among them, and if not the caller is told so and no handler runs. Either way exactly
   the message is consumed.
   */
  lemma ArgumentsDecide<S>(hd: Handler<S>, h: S, head: Text, name: Text, kind: byte, sequence: int,
                           rs: seq<RawField>, rest: Text)
    requires KnownMethod(name) && Heads(head, name, kind, sequence) && AllReadable(FieldsOf(name), rs)
    ensures var text := head + StructText(rs);
            var slots := Assign(FieldsOf(name), rs, Initial(FieldsOf(name)));
            var (h', r) := Dispatch(hd, h, name, Record(slots));
            Process(hd, h, text + rest)
            == if HasRequired(FieldsOf(name), slots) then Done(h', ReplyText(name, sequence, r), |text|)
               else Done(h, MissingFieldText(hd, name, sequence), |text|)
  {
    var fs := FieldsOf(name);
    NothingInitial(name);
    hide Dec, ReadMessageBegin, StructText, Assign, FieldsOf, ArgsTy, AllReadable, Initial, HasRequired;
    hide Dispatch, ReplyText, ExceptionText, KnownMethod;
    StructRead(fs, rs);
    JoinAny(head, StructText(rs), StructOf(fs));
    ProcessStable(hd, h, head + StructText(rs), rest);
  }

  /** A header and arguments, each read to its end, one after the other. */
  lemma JoinAny(head: Text, tail: Text, ty: Ty)
    requires ReadMessageBegin(head, 0).Ok? && ReadMessageBegin(head, 0).pos == |head|
    requires !Dec(ty, tail, 0).HitsEnd()
    ensures ReadMessageBegin(head + tail, 0) == ReadMessageBegin(head, 0)
    ensures Dec(ty, head + tail, |head|) == Dec(ty, tail, 0).Shift(|head|)
  {
    AtStart(head, tail);
    AtEnd(head, tail);
    hide At, Dec, ReadMessageBegin;
    MessageBeginLocal(head, head + tail, 0, 0);
    SchemaProofs.DecLocal(ty, tail, head + tail, |head|, 0);
  }

  /** What is pipelined after such a message is served as if it had been sent alone, and its caller is told. */
  lemma MissingFieldAnswered<S>(hd: Handler<S>, h: S, head: Text, name: Text, kind: byte, sequence: int,
                                rs: seq<RawField>, more: Text)
    requires KnownMethod(name) && Heads(head, name, kind, sequence) && AllReadable(FieldsOf(name), rs)
    requires !HasRequired(FieldsOf(name), Assign(FieldsOf(name), rs, Initial(FieldsOf(name))))
    ensures var d := Drain(hd, h, more);
            Drain(hd, h, head + StructText(rs) + more)
            == d.(written := MissingFieldText(hd, name, sequence) + d.written)
  {
    ArgumentsDecide(hd, h, head, name, kind, sequence, rs, more);
    hide Dec, ReadMessageBegin, StructText, Assign, FieldsOf, AllReadable, Initial, HasRequired, Process;
    hide ExceptionText, Dispatch, ReplyText, KnownMethod;
    var text := head + StructText(rs);
    ProcessBounds(hd, h, text + more);
    assert (text + more)[|text|..] == more;
  }

  /** The caller reads it as a remote error of unknown kind with the text of the fault. */
  lemma MissingFieldReadBack<S>(hd: Handler<S>, sequence: int, s: Text, i: nat)
    requires AppErrorFits(sequence, UNKNOWN_ERROR, hd.faultText(MissingField))
    requires At(s, i, MissingFieldText(hd, CALL_NAME, sequence))
    ensures ReadCallReply(sequence, s, i).0 == Remote(0, hd.faultText(MissingField))
  {
    hide At, ExceptionText, ReadReply;
    ExceptionReadBack(CALL_NAME, CALL_RESULT, ResultOfCall, sequence, UNKNOWN_ERROR, hd.faultText(MissingField), s, i);
  }

  // ----- bytes that begin no header

  /** Neither a length of a name nor version 1 with a message type of the four there are. */
  predicate NoHeader(s: Text) {
    |s| >= 4 && s[0] >= 0x80 && !(s[0] == 0x80 && s[1] == 0x01 && 1 <= s[3] <= 4)
  }

  lemma NoHeaderFatal<S>(hd: Handler<S>, h: S, s: Text)
    requires NoHeader(s)
    ensures Drain(hd, h, s) == Served(h, [], s, true)
  {
    assert s[0..4][0] == s[0] && s[0..4][1] == s[1] && s[0..4][3] == s[3];
    assert Process(hd, h, s) == Fatal by { hide ProcessArgs, ReadStrictRest, ReadOldRest, ExceptionText; }
    hide Process;
  }

  lemma FewBytesWait<S>(hd: Handler<S>, h: S, s: Text)
    requires |s| < 4
    ensures Stuck(hd, h, s)
  {
    assert ReadMessageBegin(s, 0).HitsEnd();
    hide ProcessArgs, ExceptionText, ReadMessageBegin;
  }

  lemma {:induction false} NoHeaderEnds<S>(hd: Handler<S>, h: S, buf: Text, written: Text, feed: seq<Read>)
    requires Chunks(feed) && |buf| < 4 && NoHeader(buf + Concat(feed))
    ensures var c := Serve(hd, h, buf, written, feed); c.end == ProcessorError && c.state == h && c.written == written
    decreases |feed|
  {
    hide Drain, Serve;
    var next := buf + feed[0].bytes;
    assert next + Concat(feed[1..]) == buf + Concat(feed);
    ServeStep(hd, h, buf, written, feed);
    assert written + [] == written;
    if |next| < 4 {
      FewBytesWait(hd, h, next);
      NoHeaderEnds(hd, h, next, written, feed[1..]);
    } else {
      assert next[..4] == (buf + Concat(feed))[..4];
      assert forall k | 0 <= k < 4 :: next[k] == (buf + Concat(feed))[k];
      NoHeaderFatal(hd, h, next);
    }
  }

  /**
   Bytes that begin no header, after any requests that are small enough, end the connection as a
   protocol error in any chunks: the requests are answered, nothing else is and no handler runs.
   */
  lemma NoHeaderAfterRequests<S>(hd: Handler<S>, h: S, qs: seq<Sent>, junk: Text, feed: seq<Read>)
    requires AllFit(qs) && AllSafe(qs) && NoHeader(junk)
    requires Chunks(feed) && Concat(feed) == Texts(qs) + junk
    ensures var c := Serve(hd, h, [], [], feed);
            c.end == ProcessorError && (c.state, c.written) == AnswerAll(hd, h, qs)
  {
    hide Sent.Fits, Serve, Texts, AllSafe, AllFit, AnswerAll;
    var rest := SafePrefixServed(hd, h, qs, junk, feed);
    var (h', replies) := AnswerAll(hd, h, qs);
    assert [] + Concat(rest) == junk;
    NoHeaderEnds(hd, h', [], replies, rest);
  }
}
