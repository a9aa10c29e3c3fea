/**
 What happens to every signal: each one sent is in the channel once, under its own value, or was refused
 for a reason, and a ping that fails always reaches the channel if anybody is still to receive from it.
 */
module LifecycleSignals {
  import opened Bytes
  import opened Lifecycle
  import opened LifecycleProofs
  import opened LifecycleTheorems

  /** The signal at this place is the one its sender sent. */
  predicate Genuine(ch: Channel, i: nat)
    requires i < |ch.origins| == |ch.enqueued|
  {
    match ch.origins[i]
    case BySender(id) => id in ch.senders && ch.senders[id] == Sent(ch.enqueued[i])
    case ByWatcher => ch.enqueued[i].Fault?
  }

  predicate Present(ch: Channel, who: Origin) {
    who in ch.origins
  }

  predicate OriginInv(ch: Channel) {
    && |ch.origins| == |ch.enqueued|
    && (forall i | 0 <= i < |ch.origins| :: Genuine(ch, i))
    && (forall i, j | 0 <= i < j < |ch.origins| :: ch.origins[i] != ch.origins[j])
    && (forall id | id in ch.senders && ch.senders[id].Sent? :: Present(ch, BySender(id)))
  }

  /** Nobody is turned away or kept waiting while `run` would have nothing to receive. */
  predicate TurnedAwayInv(ch: Channel) {
    forall id | id in ch.senders && !ch.senders[id].Sent? :: !ch.listening || ch.enqueued != []
  }

  predicate WatchOver(at: WatcherPc) {
    at.Finishing? || at.Done?
  }

  /** A watcher that has gone was told to stop, found the client gone, or has sent its report. */
  predicate ReportInv(s: State) {
    && (WatchOver(s.watch.at) ==>
          s.watch.stop || s.client.cleared || !s.channel.listening || Present(s.channel, ByWatcher))
    && (Present(s.channel, ByWatcher) ==> WatchOver(s.watch.at))
  }

  predicate SendInv(s: State) {
    && (s.channel.queue.Some? ==> s.channel.enqueued != [])
    && (s.pc.StoppingPings? || s.watch.stop ==> s.channel.received.Some?)
    && OriginInv(s.channel) && TurnedAwayInv(s.channel) && ReportInv(s)
  }

  // ------------------------------------------------------------------ every step keeps it

  lemma EnqueueKeepsOrigins(ch: Channel, m: Signal, who: Origin, senders: map<nat, Sender>)
    requires OriginInv(ch) && !Present(ch, who)
    requires forall id | id in ch.senders :: id in senders && (BySender(id) != who ==> senders[id] == ch.senders[id])
    requires forall id | id in senders && senders[id].Sent? && BySender(id) != who ::
               id in ch.senders && ch.senders[id].Sent?
    requires match who case BySender(id) => id in senders && senders[id] == Sent(m) case ByWatcher => m.Fault?
    ensures OriginInv(Enqueue(ch, m, who).(senders := senders))
  {
    var ch' := Enqueue(ch, m, who).(senders := senders);
    forall i | 0 <= i < |ch'.origins| ensures Genuine(ch', i) {
      if i < |ch.origins| {
        assert Genuine(ch, i) && ch.origins[i] != who;
      }
    }
    forall id | id in senders && senders[id].Sent? ensures Present(ch', BySender(id)) {
      if BySender(id) == who {
        assert ch'.origins[|ch.origins|] == who;
      } else {
        assert Present(ch, BySender(id));
      }
    }
  }

  lemma OfferKeepsOrigins(ch: Channel, id: nat, m: Signal, otherwise: Sender)
    requires OriginInv(ch) && !otherwise.Sent? && (id in ch.senders ==> ch.senders[id].Blocked?)
    ensures OriginInv(Offer(ch, id, m, otherwise))
  {
    forall i | 0 <= i < |ch.origins| ensures ch.origins[i] != BySender(id) {
      assert Genuine(ch, i);
    }
    if ch.listening && ch.queue.None? {
      EnqueueKeepsOrigins(ch, m, BySender(id), ch.senders[id := Sent(m)]);
    } else {
      var ch' := Offer(ch, id, m, otherwise);
      forall i | 0 <= i < |ch'.origins| ensures Genuine(ch', i) {
        assert Genuine(ch, i);
      }
      forall other | other in ch'.senders && ch'.senders[other].Sent? ensures Present(ch', BySender(other)) {
        assert Present(ch, BySender(other));
      }
    }
  }

  lemma SenderStepKeepsSends(s: State, l: Label)
    requires SendInv(s) && SenderStep(s, l).Some?
    ensures SendInv(SenderStep(s, l).value)
  {
    var ch, ch' := s.channel, SenderStep(s, l).value.channel;
    hide OriginInv;
    match l
    case Send(id, m) => OfferKeepsOrigins(ch, id, m, Blocked(m));
    case TrySend(id, m) => OfferKeepsOrigins(ch, id, m, Refused);
    case Resume(id) => OfferKeepsOrigins(ch, id, ch.senders[id].signal, Refused);
    case _ =>
  }

  lemma WatcherStepKeepsSends(s: State, l: Label)
    requires SendInv(s) && WatcherStep(s, l).Some?
    ensures SendInv(WatcherStep(s, l).value)
  {
    if l.WatcherNext? && s.watch.at.Reporting? && s.channel.listening {
      EnqueueKeepsOrigins(s.channel, Fault(0), ByWatcher, s.channel.senders);
    }
  }

  /** A step that sends nothing: the channel's history stays, and the watcher at most begins. */
  predicate SendsNothing(s: State, s': State) {
    && s'.channel.senders == s.channel.senders && s'.channel.origins == s.channel.origins
    && s'.channel.enqueued == s.channel.enqueued
    && (s'.channel.listening ==> s.channel.listening)
    && (s'.channel.queue.Some? ==> s.channel.queue.Some?)
    && (s.channel.received.Some? ==> s'.channel.received.Some?)
    && (s'.pc.StoppingPings? ==> s.pc.StoppingPings? || s'.channel.received == s.channel.queue)
    && (s'.pc.StoppingPings? && !s.pc.StoppingPings? ==> s.channel.queue.Some?)
    && (s'.watch.stop ==> s.watch.stop || s.pc.StoppingPings?) && (s.watch.stop ==> s'.watch.stop)
    && (s.client.cleared ==> s'.client.cleared)
    && (s'.watch.at == s.watch.at || (s.pc.Registered? && s'.watch.at.Sleeping?))
  }

  lemma NextSendsNothing(c: Config, s: State)
    requires CallerNext(c, s).Some?
    ensures SendsNothing(s, CallerNext(c, s).value)
  {
  }

  lemma OtherSendsNothing(c: Config, s: State, l: Label)
    requires Step(c, s, l).Some? && !OfWatcher(l) && !OfSender(l) && !l.Next?
    ensures SendsNothing(s, Step(c, s, l).value)
  {
    hide CallerNext;
  }

  lemma QuietKeepsSends(s: State, s': State)
    requires SendInv(s) && SendsNothing(s, s') && (s.pc.Registered? ==> s.watch.at.NotStarted?)
    ensures SendInv(s')
  {
    var ch, ch' := s.channel, s'.channel;
    assert OriginInv(ch') by {
      forall i | 0 <= i < |ch'.origins| ensures Genuine(ch', i) {
        assert Genuine(ch, i);
      }
      forall id | id in ch'.senders && ch'.senders[id].Sent? ensures Present(ch', BySender(id)) {
        assert Present(ch, BySender(id));
      }
    }
    hide OriginInv;
  }

  /** The calling thread, the plugins and time send nothing. */
  lemma OthersKeepSends(c: Config, s: State, l: Label)
    requires SendInv(s) && Step(c, s, l).Some? && !OfWatcher(l) && !OfSender(l)
    requires s.pc.Registered? ==> s.watch.at.NotStarted?
    ensures SendInv(Step(c, s, l).value)
  {
    if l.Next? {
      NextSendsNothing(c, s);
    } else {
      OtherSendsNothing(c, s, l);
    }
    hide SendInv, SendsNothing, CallerNext, ApiStep, ReplyStep, WorldStep;
    QuietKeepsSends(s, Step(c, s, l).value);
  }

  lemma StepKeepsSends(c: Config, s: State, l: Label)
    requires Inv(c, s) && SendInv(s) && Step(c, s, l).Some?
    ensures SendInv(Step(c, s, l).value)
  {
    assert s.pc.Registered? ==> s.watch.at.NotStarted?;
    hide RegistrationInv, SignalInv, Guards, SendInv, WatcherStep, SenderStep, WorldStep, ReplyStep, ApiStep;
    hide CallerNext;
    if OfWatcher(l) {
      WatcherStepKeepsSends(s, l);
    } else if OfSender(l) {
      SenderStepKeepsSends(s, l);
    } else {
      OthersKeepSends(c, s, l);
    }
  }

  lemma {:induction false} ExecKeepsSends(c: Config, s: State, run: seq<Label>)
    requires Inv(c, s) && SendInv(s) && Exec(c, s, run).Some?
    ensures SendInv(Exec(c, s, run).value)
    decreases |run|
  {
    hide Inv, SendInv, Step;
    if run != [] {
      StepKeepsInv(c, s, run[0]);
      StepKeepsSends(c, s, run[0]);
      ExecKeepsSends(c, Step(c, s, run[0]).value, run[1..]);
    }
  }

  lemma ReachedSends(c: Config, run: seq<Label>)
    requires Exec(c, Init(), run).Some?
    ensures SendInv(Exec(c, Init(), run).value)
  {
    assert SendInv(Init());
    hide SendInv, Inv, Init, Exec;
    InitInv(c);
    ExecKeepsSends(c, Init(), run);
  }

  // ------------------------------------------------------------------ what becomes of a signal

  predicate ArrivedAt(ch: Channel, id: nat, i: int) {
    0 <= i < |ch.origins| && ch.origins[i] == BySender(id)
  }

  /** A sender that has sent finds its own signal in the channel's history, once; the others find none. */
  lemma SignalsArriveOnce(c: Config, run: seq<Label>, id: nat)
    requires Exec(c, Init(), run).Some?
    requires id in Exec(c, Init(), run).value.channel.senders
    ensures var ch := Exec(c, Init(), run).value.channel;
            && |ch.origins| == |ch.enqueued|
            && (ch.senders[id].Sent? <==> exists i :: ArrivedAt(ch, id, i))
            && (forall i | ArrivedAt(ch, id, i) :: ch.senders[id] == Sent(ch.enqueued[i]))
            && (forall i, j | ArrivedAt(ch, id, i) && ArrivedAt(ch, id, j) :: i == j)
  {
    ReachedSends(c, run);
    var ch := Exec(c, Init(), run).value.channel;
    hide Exec, TurnedAwayInv, ReportInv;
    assert OriginInv(ch);
    if ch.senders[id].Sent? {
      assert Present(ch, BySender(id));
      var i :| 0 <= i < |ch.origins| && ch.origins[i] == BySender(id);
      assert ArrivedAt(ch, id, i);
    }
    forall i | ArrivedAt(ch, id, i) ensures ch.senders[id] == Sent(ch.enqueued[i]) {
      assert Genuine(ch, i);
    }
  }

  /** What a sender with this signal can have come to; `waits` if it blocks while the channel is full. */
  predicate Fate(ch: Channel, id: nat, m: Signal, waits: bool) {
    && id in ch.senders
    && (|| ch.senders[id] == Sent(m)
        || (ch.senders[id] == Blocked(m) && waits)
        || (ch.senders[id] == Refused && (waits ==> !ch.listening)))
  }

  lemma StepKeepsFate(c: Config, s: State, l: Label, id: nat, m: Signal, waits: bool)
    requires Fate(s.channel, id, m, waits) && Step(c, s, l).Some?
    ensures Fate(Step(c, s, l).value.channel, id, m, waits)
  {
  }

  lemma {:induction false} ExecKeepsFate(c: Config, s: State, run: seq<Label>, id: nat, m: Signal, waits: bool)
    requires Fate(s.channel, id, m, waits) && Exec(c, s, run).Some?
    ensures Fate(Exec(c, s, run).value.channel, id, m, waits)
    decreases |run|
  {
    hide Step, Fate;
    if run != [] {
      StepKeepsFate(c, s, run[0], id, m, waits);
      ExecKeepsFate(c, Step(c, s, run[0]).value, run[1..], id, m, waits);
    }
  }

  /**
   From the moment it is sent a signal is never changed: it has arrived as it was, or its sender still
   waits with it, or it was refused, a blocking send only by a channel nobody listens to any more, and
   one that does not block having never waited.
   */
  lemma {:induction false} SentAsGiven(c: Config, s: State, run: seq<Label>, k: nat, id: nat, m: Signal)
    requires Exec(c, s, run).Some? && k < |run| && (run[k] == Send(id, m) || run[k] == TrySend(id, m))
    ensures Fate(Exec(c, s, run).value.channel, id, m, run[k].Send?)
    decreases |run|
  {
    hide Fate;
    var s' := Step(c, s, run[0]).value;
    if k == 0 {
      assert Fate(s'.channel, id, m, run[0].Send?) by { OfferedFate(s, run[0], id, m); }
      ExecKeepsFate(c, s', run[1..], id, m, run[0].Send?);
    } else {
      SentAsGiven(c, s', run[1..], k - 1, id, m);
    }
  }

  lemma OfferedFate(s: State, l: Label, id: nat, m: Signal)
    requires (l == Send(id, m) || l == TrySend(id, m)) && SenderStep(s, l).Some?
    ensures Fate(SenderStep(s, l).value.channel, id, m, l.Send?)
  {
  }

  // ------------------------------------------------------------------ pings that fail

  /** The failure is still to be reported, has been, or nobody listens. */
  predicate Owed(s: State) {
    s.watch.at.Reporting? || !s.channel.listening || Present(s.channel, ByWatcher)
  }

  lemma StepKeepsOwed(c: Config, s: State, l: Label)
    requires Owed(s) && Step(c, s, l).Some? && (s.watch.at.Reporting? ==> !s.pc.Registered?)
    ensures Owed(Step(c, s, l).value)
  {
    if l.WatcherNext? && s.watch.at.Reporting? && s.channel.listening {
      var t := Step(c, s, l).value;
      assert t.channel.origins[|s.channel.origins|] == ByWatcher;
    }
  }

  lemma {:induction false} ExecKeepsOwed(c: Config, s: State, run: seq<Label>)
    requires Inv(c, s) && Owed(s) && Exec(c, s, run).Some?
    ensures Owed(Exec(c, s, run).value)
    decreases |run|
  {
    if run != [] {
      assert s.watch.at.Reporting? ==> !s.pc.Registered?;
      hide RegistrationInv, SignalInv, Guards, Step, Owed;
      StepKeepsInv(c, s, run[0]);
      StepKeepsOwed(c, s, run[0]);
      ExecKeepsOwed(c, Step(c, s, run[0]).value, run[1..]);
    }
  }

  lemma {:induction false} FailureOwed(c: Config, s: State, run: seq<Label>, k: nat)
    requires Inv(c, s) && Exec(c, s, run).Some? && k < |run| && run[k] == PingReply(false)
    ensures Owed(Exec(c, s, run).value)
    decreases |run|
  {
    var s' := Step(c, s, run[0]).value;
    assert k == 0 ==> Owed(s');
    hide Inv, Step, Owed;
    StepKeepsInv(c, s, run[0]);
    if k == 0 {
      ExecKeepsOwed(c, s', run[1..]);
    } else {
      FailureOwed(c, s', run[1..], k - 1);
    }
  }

  predicate Reported(s: State) {
    s.watch.at.Reporting? || Present(s.channel, ByWatcher)
  }

  lemma {:induction false} FailureFound(c: Config, s: State, run: seq<Label>) returns (k: nat)
    requires SendInv(s) && Inv(c, s) && Exec(c, s, run).Some? && !Reported(s) && Reported(Exec(c, s, run).value)
    ensures k < |run| && run[k] == PingReply(false)
    decreases |run|
  {
    assert run != [];
    var s' := Step(c, s, run[0]).value;
    if Reported(s') {
      k := 0;
      ReportBegins(c, s, run[0]);
    } else {
      hide SendInv, Inv, Step, Reported;
      StepKeepsInv(c, s, run[0]);
      StepKeepsSends(c, s, run[0]);
      k := FailureFound(c, s', run[1..]);
      k := k + 1;
    }
  }

  lemma ReportBegins(c: Config, s: State, l: Label)
    requires Step(c, s, l).Some? && !Reported(s) && Reported(Step(c, s, l).value)
    ensures l == PingReply(false)
  {
  }

  /** A ping that failed, and nothing else, is reported, unless nobody is left to receive: one report at most. */
  lemma FailedPingReported(c: Config, run: seq<Label>, k: nat)
    requires Exec(c, Init(), run).Some? && k < |run|
    ensures var s := Exec(c, Init(), run).value;
            && (run[k] == PingReply(false) ==> Owed(s))
            && (Reported(s) ==> exists j :: 0 <= j < |run| && run[j] == PingReply(false))
  {
    InitInv(c);
    assert SendInv(Init()) && !Reported(Init());
    hide SendInv, Inv, Init, Exec, Owed, Reported;
    if run[k] == PingReply(false) {
      FailureOwed(c, Init(), run, k);
    }
    if Reported(Exec(c, Init(), run).value) {
      var j := FailureFound(c, Init(), run);
    }
  }

  // ------------------------------------------------------------------ nobody leaves `run` waiting

  /**
   While `run` waits to receive, a watcher that has gone, or any sender at all, has left it something:
   it goes on, with the first signal that was sent.
   */
  lemma NobodyLeavesRunWaiting(c: Config, run: seq<Label>)
    requires Exec(c, Init(), run).Some?
    ensures var s := Exec(c, Init(), run).value;
            s.pc.Receiving? && (WatchOver(s.watch.at) || s.channel.senders != map[]) ==>
              && s.channel.enqueued != []
              && Step(c, s, Next).Some?
              && Step(c, s, Next).value.channel.received == Some(s.channel.enqueued[0])
  {
    var s := Exec(c, Init(), run).value;
    ReachedSends(c, run);
    ReachedClose(c, run);
    Reached(c, run);
    ReceiveDoesNotBlock(c, run);
    hide Exec, Step, Init;
    if s.pc.Receiving? && s.channel.senders != map[] {
      var id :| id in s.channel.senders;
      if s.channel.senders[id].Sent? {
        assert Present(s.channel, BySender(id));
      }
    }
  }
}
