/**
 The client out of the calling thread's reach: a ping that hangs, or one that failed and cannot report
 it. When osquery can still be told of the shutdown, and when it is certain to be.
 */
module LifecycleHeld {
  import opened Bytes
  import opened Lifecycle
  import opened LifecycleProofs
  import opened LifecycleTheorems
  import opened LifecycleLiveness

  /** `run` has its signal, and has yet to give up the uuid it will deregister. */
  predicate AboutToTell(s: State) {
    s.pc.StoppingPings? || (s.pc == Taking(InRun) && s.ledger.uuid.Some?)
  }

  // ------------------------------------------------------------------ a wedged ping

  /** A ping is in flight and the calling thread does not hold the client. */
  predicate Wedged(s: State) {
    && s.watch.at.Pinging? && s.client.lock.Watcher?
    && !CallerHolds(s.pc) && !RunBegins(s.pc) && s.ledger.runCalled
    && s.ledger.deregistered == []
    && !s.client.closed
    && s.clock.inRpc == 0
  }

  lemma WedgedNext(c: Config, s: State)
    requires Wedged(s) && CallerNext(c, s).Some?
    ensures Wedged(CallerNext(c, s).value)
  {
  }

  lemma WedgedStep(c: Config, s: State, l: Label)
    requires Wedged(s) && !l.PingReply? && Step(c, s, l).Some?
    ensures Wedged(Step(c, s, l).value)
  {
    hide CallerNext;
    if l.Next? {
      WedgedNext(c, s);
    }
  }

  lemma {:induction false} WedgedExec(c: Config, s: State, run: seq<Label>)
    requires Wedged(s) && (forall i :: 0 <= i < |run| ==> !run[i].PingReply?) && Exec(c, s, run).Some?
    ensures Wedged(Exec(c, s, run).value)
    decreases |run|
  {
    hide Wedged, Step;
    if run != [] {
      WedgedStep(c, s, run[0]);
      WedgedExec(c, Step(c, s, run[0]).value, run[1..]);
    }
  }

  /**
   A ping that never returns holds the client for ever, whether it began before `run` received its
   signal, before the ping-stop message, or while teardown was polling for the client. Teardown then
   issues no RPC at all, so only plugins can add to the bounded wait; osquery is not told and the client
   not closed.
   */
  lemma WedgedPing(c: Config, run: seq<Label>, more: seq<Label>)
    requires Exec(c, Init(), run).Some?
    requires var s := Exec(c, Init(), run).value; (AboutToTell(s) || BeforeDeregistration(s.pc)) && s.watch.at.Pinging?
    requires (forall i :: 0 <= i < |more| ==> !more[i].PingReply?) && Exec(c, Exec(c, Init(), run).value, more).Some?
    ensures var t := Exec(c, Exec(c, Init(), run).value, more).value;
            && t.ledger.deregistered == [] && !t.client.closed
            && (InTeardown(t.pc) ==> t.clock.now - t.clock.since - t.clock.inPlugins <= TeardownWait(c))
  {
    var s := Exec(c, Init(), run).value;
    Reached(c, run);
    ReachedClose(c, run);
    WedgedAtStart(c, s);
    WedgedExec(c, s, more);
    ExecKeepsInv(c, s, more);
    hide RegistrationInv, SignalInv, ClientInv, PingInv, Step, Exec, Ahead;
    AheadPositive(c, Exec(c, s, more).value);
  }

  lemma WedgedAtStart(c: Config, s: State)
    requires Inv(c, s) && CloseInv(s) && (AboutToTell(s) || BeforeDeregistration(s.pc)) && s.watch.at.Pinging?
    ensures Wedged(s)
  {
  }

  lemma AheadPositive(c: Config, s: State)
    requires TimeInv(c, s.pc, s.clock)
    ensures 0 <= Ahead(c, s.pc, s.clock.now)
  {
  }

  // ------------------------------------------------------------------ a failed ping's report

  /** The watcher is stuck sending its report, with the client locked, because the channel is full. */
  predicate StuckReport(s: State) {
    && s.watch.at.Reporting? && s.client.lock.Watcher?
    && s.channel.listening && s.channel.queue.Some?
    && Stopping(s.pc) && !CallerHolds(s.pc)
    && (s.pc.StoppingPings? || s.pc.Taking? || s.ledger.uuid.None?)
  }

  /** That, or `run` has returned since. */
  predicate Unreported(s: State) {
    && s.ledger.runCalled && s.ledger.deregistered == [] && !s.client.closed
    && (StuckReport(s)
        || (s.ledger.uuid.None? && (s.pc.Idle? || s.pc.Dropped? || s.pc.Leaving? || s.pc.Taking?) && !Stopping(s.pc)))
  }

  lemma UnreportedNext(c: Config, s: State)
    requires Unreported(s) && CallerNext(c, s).Some?
    ensures Unreported(CallerNext(c, s).value)
  {
  }

  lemma UnreportedStep(c: Config, s: State, l: Label)
    requires Unreported(s) && Step(c, s, l).Some?
    ensures Unreported(Step(c, s, l).value)
  {
    hide CallerNext;
    if l.Next? {
      UnreportedNext(c, s);
    }
  }

  lemma {:induction false} UnreportedExec(c: Config, s: State, run: seq<Label>)
    requires Unreported(s) && Exec(c, s, run).Some?
    ensures Unreported(Exec(c, s, run).value)
    decreases |run|
  {
    hide Unreported, Step;
    if run != [] {
      UnreportedStep(c, s, run[0]);
      UnreportedExec(c, Step(c, s, run[0]).value, run[1..]);
    }
  }

  /**
   A ping that failed, rather than hung, has the same effect when another signal fills the channel
   first: its report is sent with the client locked and waits until `run` returns, so osquery is
   never told, in any continuation.
   */
  lemma StuckReportSkipsDeregistration(c: Config, run: seq<Label>, more: seq<Label>)
    requires Exec(c, Init(), run).Some?
    requires var s := Exec(c, Init(), run).value; AboutToTell(s) && s.watch.at.Reporting? && s.channel.queue.Some?
    requires Exec(c, Exec(c, Init(), run).value, more).Some?
    ensures var t := Exec(c, Exec(c, Init(), run).value, more).value;
            t.ledger.deregistered == [] && !t.client.closed
  {
    var s := Exec(c, Init(), run).value;
    Reached(c, run);
    ReachedClose(c, run);
    StuckAtStart(c, s);
    hide StuckReport, Step;
    UnreportedExec(c, s, more);
  }

  lemma StuckAtStart(c: Config, s: State)
    requires Inv(c, s) && CloseInv(s) && AboutToTell(s) && s.watch.at.Reporting? && s.channel.queue.Some?
    ensures Unreported(s)
  {
  }

  lemma {:induction false} Extend(c: Config, s: State, run: seq<Label>, l: Label)
    requires Exec(c, s, run).Some? && Step(c, Exec(c, s, run).value, l).Some?
    ensures Exec(c, s, run + [l]) == Step(c, Exec(c, s, run).value, l)
    decreases |run|
  {
    hide Step;
    if run == [] {
      assert run + [l] == [l] && [l][1..] == [];
    } else {
      assert (run + [l])[1..] == run[1..] + [l] && (run + [l])[0] == run[0];
      Extend(c, Step(c, s, run[0]).value, run[1..], l);
    }
  }

  lemma Starts(c: Config) returns (run: seq<Label>)
    ensures Exec(c, Init(), run).Some?
    ensures Exec(c, Init(), run).value == Init().(pc := Registering, client := Client(Caller, false, false),
                                                  ledger := Init().ledger.(runCalled := true))
  {
    assert Exec(c, Init(), []) == Some(Init());
    hide Exec;
    run := [];
    Extend(c, Init(), run, CallRun);
    run := run + [CallRun];
    Extend(c, Init(), run, Next);
    run := run + [Next];
  }

  lemma Registers(c: Config) returns (run: seq<Label>)
    ensures Exec(c, Init(), run).Some?
    ensures var s := Exec(c, Init(), run).value;
            && s.pc.Receiving? && s.watch.at.Sleeping? && !s.watch.stop && !s.client.cleared && s.client.lock.Free?
            && s.channel == Channel(None, true, [], [], None, map[])
  {
    hide Exec;
    run := Starts(c);
    Extend(c, Init(), run, RegisterReply(Some(7)));
    run := run + [RegisterReply(Some(7))];
    Extend(c, Init(), run, ListenerMade(true));
    run := run + [ListenerMade(true)];
  }

  lemma Pings(c: Config) returns (run: seq<Label>)
    ensures Exec(c, Init(), run).Some?
    ensures var s := Exec(c, Init(), run).value;
            s.pc.Receiving? && s.watch.at.Pinging? && s.channel == Channel(None, true, [], [], None, map[])
  {
    hide Exec;
    run := Registers(c);
    Extend(c, Init(), run, PingDue);
    run := run + [PingDue];
    Extend(c, Init(), run, WatcherNext);
    run := run + [WatcherNext];
    Extend(c, Init(), run, WatcherNext);
    run := run + [WatcherNext];
  }

  /** A run up to the moment `run` has received, with a ping in flight. */
  lemma ReceivesWhilePinging(c: Config) returns (run: seq<Label>)
    ensures Exec(c, Init(), run).Some?
    ensures var s := Exec(c, Init(), run).value;
            s.pc.StoppingPings? && s.watch.at.Pinging? && s.channel.listening
            && s.channel.queue.None? && s.channel.senders.Keys == {0}
  {
    hide Exec;
    run := Pings(c);
    Extend(c, Init(), run, Send(0, Stop));
    run := run + [Send(0, Stop)];
    Extend(c, Init(), run, Next);
    run := run + [Next];
  }

  /** Both situations do arise: the ping hangs, or it fails just after a second signal was sent. */
  lemma BothArise(c: Config)
    ensures exists run :: Exec(c, Init(), run).Some?
                          && Exec(c, Init(), run).value.pc.StoppingPings?
                          && Exec(c, Init(), run).value.watch.at.Pinging?
    ensures exists run :: Exec(c, Init(), run).Some?
                          && Exec(c, Init(), run).value.pc.StoppingPings?
                          && Exec(c, Init(), run).value.watch.at.Reporting?
                          && Exec(c, Init(), run).value.channel.queue.Some?
  {
    var run := ReceivesWhilePinging(c);
    var s := Exec(c, Init(), run).value;
    assert 1 !in s.channel.senders.Keys;
    Extend(c, Init(), run, Send(1, Stop));
    Extend(c, Init(), run + [Send(1, Stop)], PingReply(false));
  }

  // ------------------------------------------------------------------ when osquery can be told, and when it will be

  ghost predicate Tells(c: Config, s: State, more: seq<Label>) {
    Exec(c, s, more).Some? && Exec(c, s, more).value.ledger.deregistered != []
  }

  /** Unless its report is stuck, the watcher can give the client back, or has not got it. */
  lemma LetsGo(c: Config, s: State) returns (more: seq<Label>)
    requires Inv(c, s) && CloseInv(s) && AboutToTell(s) && !(s.watch.at.Reporting? && s.channel.queue.Some?)
    ensures Exec(c, s, more).Some?
    ensures var t := Exec(c, s, more).value;
        t.client.lock.Free? && !t.client.cleared && t.pc == s.pc && t.ledger == s.ledger
  {
    HasUuidToTell(c, s);
    hide RegistrationInv, TimeInv;
    ExecNothing(c, s);
    more := [];
    hide Exec;
    if s.watch.at.Holding? {
      Extend(c, s, more, WatcherNext);
      more := more + [WatcherNext];
    }
    if s.watch.at.Holding? || s.watch.at.Pinging? {
      Extend(c, s, more, PingReply(true));
      more := more + [PingReply(true)];
    } else if s.watch.at.Reporting? {
      Extend(c, s, more, WatcherNext);
      more := more + [WatcherNext];
    }
  }

  lemma TellsFrom(c: Config, s: State, run: seq<Label>) returns (more: seq<Label>)
    requires Exec(c, s, run).Some?
    requires var t := Exec(c, s, run).value;
        t.client.lock.Free? && !t.client.cleared && AboutToTell(t) && t.ledger.uuid.Some?
    ensures Tells(c, s, more)
  {
    hide Exec;
    more := run;
    if Exec(c, s, run).value.pc.StoppingPings? {
      Extend(c, s, more, Next);
      more := more + [Next];
    }
    Extend(c, s, more, Next);
    more := more + [Next];
    Extend(c, s, more, Next);
    more := more + [Next];
    Extend(c, s, more, Next);
    more := more + [Next];
  }

  lemma HasUuidToTell(c: Config, s: State)
    requires Inv(c, s) && AboutToTell(s)
    ensures s.ledger.uuid.Some?
  {
  }

  /**
   When `run` has received its signal, osquery can still be told in some continuation exactly when the
   watcher is not stuck sending the report of a failed ping into a channel that another signal fills.
   */
  lemma TellingPossibleIff(c: Config, run: seq<Label>)
    requires Exec(c, Init(), run).Some? && AboutToTell(Exec(c, Init(), run).value)
    ensures var s := Exec(c, Init(), run).value;
            (exists more :: Tells(c, s, more)) <==> !(s.watch.at.Reporting? && s.channel.queue.Some?)
  {
    var s := Exec(c, Init(), run).value;
    Reached(c, run);
    ReachedClose(c, run);
    HasUuidToTell(c, s);
    hide Inv, CloseInv, Exec, Init;
    if s.watch.at.Reporting? && s.channel.queue.Some? {
      forall more | Exec(c, s, more).Some? ensures !Tells(c, s, more) {
        StuckReportSkipsDeregistration(c, run, more);
      }
    } else {
      var more := LetsGo(c, s);
      var all := TellsFrom(c, s, more);
    }
  }

  /** The watcher has the client, or is on its way to it. */
  predicate MayTakeClient(s: State) {
    WatcherHolds(s.watch.at) || s.watch.at.Locking? || (s.watch.at.Sleeping? && !s.watch.stop)
  }

  /** Osquery has been told, or will be as soon as the calling thread gets there. */
  predicate SureToTell(s: State) {
    s.ledger.deregistered != [] ||
    (&& !MayTakeClient(s) && !s.client.cleared && !s.client.lock.Watcher?
     && (s.client.lock.Caller? <==> CallerHolds(s.pc))
     && ((AboutToTell(s) && s.ledger.uuid.Some?) || BeforeDeregistration(s.pc)))
  }

  lemma SureNext(c: Config, s: State)
    requires SureToTell(s) && CallerNext(c, s).Some?
    ensures SureToTell(CallerNext(c, s).value)
  {
  }

  lemma SureStep(c: Config, s: State, l: Label)
    requires SureToTell(s) && Step(c, s, l).Some?
    ensures SureToTell(Step(c, s, l).value)
  {
    hide CallerNext;
    if l.Next? {
      SureNext(c, s);
    }
  }

  lemma {:induction false} SureExec(c: Config, s: State, more: seq<Label>)
    requires SureToTell(s) && Exec(c, s, more).Some?
    ensures SureToTell(Exec(c, s, more).value)
    decreases |more|
  {
    hide SureToTell, Step;
    if more != [] {
      SureStep(c, s, more[0]);
      SureExec(c, Step(c, s, more[0]).value, more[1..]);
    }
  }

  /** The watcher keeps the client, and nobody has told osquery. */
  predicate KeptFromTelling(s: State) {
    s.client.lock.Watcher? && !CallerHolds(s.pc) && s.ledger.deregistered == []
  }

  lemma KeptNext(c: Config, s: State)
    requires KeptFromTelling(s) && CallerNext(c, s).Some?
    ensures KeptFromTelling(CallerNext(c, s).value)
  {
  }

  lemma KeptStep(c: Config, s: State, l: Label)
    requires KeptFromTelling(s) && CallerSide(l) && Step(c, s, l).Some?
    ensures KeptFromTelling(Step(c, s, l).value)
  {
    hide CallerNext;
    if l.Next? {
      KeptNext(c, s);
    }
  }

  lemma {:induction false} KeptExec(c: Config, s: State, more: seq<Label>)
    requires KeptFromTelling(s) && AllCallerSide(more) && Exec(c, s, more).Some?
    ensures KeptFromTelling(Exec(c, s, more).value)
    decreases |more|
  {
    hide KeptFromTelling, Step, CallerSide;
    if more != [] {
      KeptStep(c, s, more[0]);
      KeptExec(c, Step(c, s, more[0]).value, more[1..]);
    }
  }

  lemma {:induction false} ExecConcat(c: Config, s: State, a: seq<Label>, b: seq<Label>)
    requires Exec(c, s, a).Some?
    ensures Exec(c, s, a + b) == Exec(c, Exec(c, s, a).value, b)
    decreases |a|
  {
    hide Step;
    if a == [] {
      assert a + b == b;
    } else {
      assert (a + b)[0] == a[0] && (a + b)[1..] == a[1..] + b;
      ExecConcat(c, Step(c, s, a[0]).value, a[1..], b);
    }
  }

  /** The watcher gets to the client first. */
  lemma GetsClient(c: Config, s: State) returns (more: seq<Label>)
    requires Inv(c, s) && AboutToTell(s) && MayTakeClient(s)
    ensures Exec(c, s, more).Some?
    ensures var t := Exec(c, s, more).value; KeptFromTelling(t) && t.pc == s.pc
  {
    hide RegistrationInv, SignalInv, TimeInv;
    assert s.ledger.deregistered == [] by { NotYetTold(c, s); }
    ExecNothing(c, s);
    more := [];
    hide Exec;
    if s.watch.at.Sleeping? {
      Extend(c, s, more, PingDue);
      more := more + [PingDue];
    }
    if s.watch.at.Sleeping? || s.watch.at.Locking? {
      Extend(c, s, more, WatcherNext);
      more := more + [WatcherNext];
    }
  }

  lemma NotYetTold(c: Config, s: State)
    requires Inv(c, s) && AboutToTell(s)
    ensures s.ledger.deregistered == []
  {
  }

  /** A continuation in which `run` returns and osquery is not told. */
  lemma NeverTold(c: Config, s: State) returns (more: seq<Label>)
    requires Inv(c, s) && AboutToTell(s) && MayTakeClient(s)
    ensures Exec(c, s, more).Some? && !ToldByThen(Exec(c, s, more).value)
  {
    hide Inv, Exec, MayTakeClient, KeptFromTelling, AboutToTell, RunReturned, ToldByThen;
    var first := GetsClient(c, s);
    var t := Exec(c, s, first).value;
    ExecKeepsInv(c, s, first);
    InRunThen(s, t);
    var rest := FindReturn(c, t);
    KeptExec(c, t, rest);
    ExecKeepsInv(c, t, rest);
    ExecConcat(c, s, first, rest);
    more := first + rest;
    Untold(c, Exec(c, t, rest).value);
  }

  lemma InRunThen(s: State, t: State)
    requires AboutToTell(s) && t.pc == s.pc
    ensures Stopping(t.pc)
  {
  }

  lemma Untold(c: Config, s: State)
    requires Inv(c, s) && RunReturned(s) && KeptFromTelling(s)
    ensures !ToldByThen(s)
  {
  }

  /** Teardown has still to come to deregistration, or has done it. */
  predicate ToldByThen(s: State) {
    s.ledger.uuid.Some? || BeforeDeregistration(s.pc) || s.ledger.deregistered != []
  }

  /**
   Osquery is told in every continuation that gets past the point of telling it exactly when the
   watcher neither has the client nor is on its way to it; once the ping-stop message is out, that is
   when it is asleep, or on its way out.
   */
  lemma TellingCertainIff(c: Config, run: seq<Label>)
    requires Exec(c, Init(), run).Some? && AboutToTell(Exec(c, Init(), run).value)
    ensures var s := Exec(c, Init(), run).value;
            (forall more :: Exec(c, s, more).Some? ==> ToldByThen(Exec(c, s, more).value)) <==> !MayTakeClient(s)
  {
    var s := Exec(c, Init(), run).value;
    Reached(c, run);
    ReachedClose(c, run);
    HasUuidToTell(c, s);
    if MayTakeClient(s) {
      hide Inv, CloseInv, Exec, Init;
      var more := NeverTold(c, s);
    } else {
      SureAtStart(c, s);
      hide Inv, CloseInv, Exec, Init;
      forall more | Exec(c, s, more).Some? ensures ToldByThen(Exec(c, s, more).value) {
        SureExec(c, s, more);
      }
    }
  }

  lemma SureAtStart(c: Config, s: State)
    requires Inv(c, s) && CloseInv(s) && AboutToTell(s) && s.ledger.uuid.Some? && !MayTakeClient(s)
    ensures SureToTell(s)
  {
  }
}
