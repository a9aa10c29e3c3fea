/** The end of a connection: what each way for the reads to stop makes of what was served before. */
module Disconnects {
  import opened Bytes
  import opened Wire
  import opened Messages
  import opened Processor
  import opened Serving
  import opened RequestStreams

  /** Serving goes on from where the earlier reads left it, and not at all once they have ended it. */
  lemma {:induction false} ServeOn<S>(hd: Handler<S>, h: S, buf: Text, written: Text,
                                      feed: seq<Read>, more: seq<Read>)
    ensures var c := Serve(hd, h, buf, written, feed);
            Serve(hd, h, buf, written, feed + more)
            == if c.end == Waiting then Serve(hd, c.state, c.buffer, c.written, more) else c
    decreases |feed|
  {
    hide Drain;
    if feed == [] {
      assert feed + more == more;
    } else {
      assert (feed + more)[0] == feed[0] && (feed + more)[1..] == feed[1..] + more;
      if feed[0].Data? {
        var d := Drain(hd, h, buf + feed[0].bytes);
        ServeOn(hd, d.state, d.rest, written + d.written, feed[1..], more);
      }
    }
  }

  /**
   The peer closing, by either sign of it, ends the connection cleanly exactly when nothing is
   buffered; a failed read and one of more than the chunk end it as such. What was served stays
   served, and nothing after the end is looked at.
   */
  lemma EndOfReads<S>(hd: Handler<S>, h: S, buf: Text, written: Text, feed: seq<Read>, more: seq<Read>)
    requires Serve(hd, h, buf, written, feed).end == Waiting
    ensures var c := Serve(hd, h, buf, written, feed);
            && Serve(hd, h, buf, written, feed + ([Failed] + more)) == c.(end := ReadFailed)
            && (forall eof | eof == Closed || eof == Data([]) ::
                  Serve(hd, h, buf, written, feed + ([eof] + more))
                  == c.(end := if c.buffer == [] then Disconnected else MidRequest))
            && (forall bytes: Text | |bytes| > READ_CHUNK_BYTES ::
                  Serve(hd, h, buf, written, feed + ([Data(bytes)] + more)) == c.(end := BadRead))
  {
    ServeOn(hd, h, buf, written, feed, [Failed] + more);
    forall eof | eof == Closed || eof == Data([])
      ensures var c := Serve(hd, h, buf, written, feed);
              Serve(hd, h, buf, written, feed + ([eof] + more))
              == c.(end := if c.buffer == [] then Disconnected else MidRequest)
    {
      ServeOn(hd, h, buf, written, feed, [eof] + more);
    }
    forall bytes: Text | |bytes| > READ_CHUNK_BYTES
      ensures var c := Serve(hd, h, buf, written, feed);
              Serve(hd, h, buf, written, feed + ([Data(bytes)] + more)) == c.(end := BadRead)
    {
      ServeOn(hd, h, buf, written, feed, [Data(bytes)] + more);
    }
  }

  /** Any reads at all are chunks up to one that is not, if there is one. */
  function Lead(feed: seq<Read>): (n: nat)
    ensures n <= |feed| && Chunks(feed[..n])
    ensures n < |feed| ==> !Chunks([feed[n]])
  {
    if feed == [] || !Chunks([feed[0]]) then 0 else
      var n := Lead(feed[1..]);
      assert feed[..n + 1] == [feed[0]] + feed[1..][..n];
      n + 1
  }

  lemma {:induction false} LeadOnly(feed: seq<Read>, m: nat)
    requires m < |feed| && Chunks(feed[..m]) && !Chunks([feed[m]])
    ensures m == Lead(feed)
    decreases |feed|
  {
    if m > 0 {
      assert feed[..m][0] == feed[0];
      assert feed[1..][..m - 1] == feed[..m][1..];
      LeadOnly(feed[1..], m - 1);
    }
  }

  /** The reads before this one leave nothing unanswered, and it is the end of the stream. */
  ghost predicate CleanAt<S>(hd: Handler<S>, h: S, feed: seq<Read>, n: nat)
    requires n < |feed|
  {
    && Chunks(feed[..n]) && (feed[n] == Closed || feed[n] == Data([]))
    && Serve(hd, h, [], [], feed[..n]).end == Waiting && Serve(hd, h, [], [], feed[..n]).buffer == []
  }

  /** Over all reads whatsoever, the end is clean exactly when the peer closes with nothing unanswered. */
  lemma CleanIff<S>(hd: Handler<S>, h: S, feed: seq<Read>)
    ensures Serve(hd, h, [], [], feed).end == Disconnected <==> exists n | 0 <= n < |feed| :: CleanAt(hd, h, feed, n)
  {
    hide Serve, CleanAt;
    var n := Lead(feed);
    if n == |feed| {
      assert feed[..n] == feed;
      ChunksEndOpen(hd, h, [], [], feed);
    } else {
      CleanAtLead(hd, h, feed);
    }
    forall m | 0 <= m < |feed| && CleanAt(hd, h, feed, m) ensures m == n {
      CleanIsLead(hd, h, feed, m);
    }
  }

  lemma CleanIsLead<S>(hd: Handler<S>, h: S, feed: seq<Read>, m: nat)
    requires m < |feed| && CleanAt(hd, h, feed, m)
    ensures m == Lead(feed)
  {
    hide Serve;
    assert [feed[m]][0] == feed[m];
    LeadOnly(feed, m);
  }

  lemma CleanAtLead<S>(hd: Handler<S>, h: S, feed: seq<Read>)
    requires Lead(feed) < |feed|
    ensures Serve(hd, h, [], [], feed).end == Disconnected <==> CleanAt(hd, h, feed, Lead(feed))
  {
    hide Serve;
    var n := Lead(feed);
    var front, more := feed[..n], feed[n + 1..];
    assert feed == front + ([feed[n]] + more);
    ChunksEndOpen(hd, h, [], [], front);
    ServeOn(hd, h, [], [], front, [feed[n]] + more);
    if Serve(hd, h, [], [], front).end == Waiting {
      EndOfReads(hd, h, [], [], front, more);
    }
  }

  lemma {:induction false} ChunksEndOpen<S>(hd: Handler<S>, h: S, buf: Text, written: Text, feed: seq<Read>)
    requires Chunks(feed)
    ensures var end := Serve(hd, h, buf, written, feed).end;
            end == Waiting || end == TooLarge || end == ProcessorError
    decreases |feed|
  {
    hide Drain;
    if feed != [] {
      var d := Drain(hd, h, buf + feed[0].bytes);
      ChunksEndOpen(hd, d.state, d.rest, written + d.written, feed[1..]);
    }
  }

  /**
   A peer that sends requests and a part of another and closes: each whole request was answered, and
   the end is clean exactly when there was no part. Nothing it could send after closing matters.
   */
  lemma RequestsThenClose<S>(hd: Handler<S>, h: S, qs: seq<Sent>, part: Text, q: Sent,
                             feed: seq<Read>, eof: Read, more: seq<Read>)
    requires AllFit(qs) && PartOf(part, q) && !Refusable(qs, part)
    requires Chunks(feed) && Concat(feed) == Texts(qs) + part && (eof == Closed || eof == Data([]))
    ensures var (h', replies) := AnswerAll(hd, h, qs);
            Serve(hd, h, [], [], feed + ([eof] + more))
            == Connection(h', replies, part, if part == [] then Disconnected else MidRequest)
  {
    hide Serve, AnswerAll, Texts, AllFit, PartOf, Refusable, Chunks, Concat;
    RequestsServed(hd, h, qs, part, q, feed);
    EndOfReads(hd, h, [], [], feed, more);
  }
}
