/**
 The ping watcher, the listener and the plugins along a run, and time counted on the run itself: what
 `run` has told them when it returns, and how long it was at it.
 */
module LifecycleWatch {
  import opened Bytes
  import opened Lifecycle
  import opened LifecycleProofs
  import opened LifecycleTheorems

  predicate RunFinished(s: State) {
    s.ledger.result.Some? && s.ledger.result.value.Finished?
  }

  predicate ToldInv(s: State) {
    && ((Stopping(s.pc) && !s.pc.StoppingPings?) || RunFinished(s) ==> s.watch.stop)
    && (HasUuid(s.pc) && !s.pc.Registered? ==> s.ledger.listener.Serving?)
    && (Stopping(s.pc) || RunFinished(s) ==> !s.ledger.listener.NotMade?)
    && (s.ledger.runCalled && !Running(s.pc) ==> s.ledger.result.Some?)
    && (s.ledger.result == Some(StartFailed) ==> s.ledger.listener.NotMade?)
    && (RunBegins(s.pc) || !s.ledger.runCalled ==> s.ledger.listener.NotMade?)
    && (s.pc.InPlugin? ==> s.pc.plugin !in s.busy)
    && (s.pc.AwaitingWatcher? ==> s.clock.tried + CLIENT_LOCK_DEADLINE == s.pc.until)
    && s.clock.since + s.clock.inRpc + s.clock.inPlugins <= s.clock.now
  }

  lemma EarlyKeepsTold(c: Config, s: State)
    requires ToldInv(s)
    requires Stopping(s.pc) || RunFinished(s) ==> s.channel.received.Some?
    ensures RunNext(s).Some? ==> ToldInv(RunNext(s).value)
    ensures PollNext(s).Some? ==> ToldInv(PollNext(s).value)
  {
  }

  lemma LateKeepsTold(c: Config, s: State)
    requires ToldInv(s)
    ensures NotifyNext(c, s).Some? ==> ToldInv(NotifyNext(c, s).value)
    ensures DeregisterNext(c, s).Some? ==> ToldInv(DeregisterNext(c, s).value)
  {
  }

  lemma LeaveKeepsTold(c: Config, s: State)
    requires ToldInv(s)
    ensures LeaveNext(s).Some? ==> ToldInv(LeaveNext(s).value)
  {
  }

  lemma NextKeepsTold(c: Config, s: State)
    requires ToldInv(s) && CallerNext(c, s).Some?
    requires Stopping(s.pc) || RunFinished(s) ==> s.channel.received.Some?
    ensures ToldInv(CallerNext(c, s).value)
  {
    hide ToldInv, RunNext, PollNext, NotifyNext, DeregisterNext, LeaveNext;
    EarlyKeepsTold(c, s);
    LateKeepsTold(c, s);
    LeaveKeepsTold(c, s);
  }

  lemma OtherKeepsTold(c: Config, s: State, l: Label)
    requires ToldInv(s) && Step(c, s, l).Some? && !l.Next?
    requires Running(s.pc) ==> s.ledger.runCalled && s.ledger.result.None?
    ensures ToldInv(Step(c, s, l).value)
  {
    hide CallerNext;
  }

  lemma StepKeepsTold(c: Config, s: State, l: Label)
    requires Inv(c, s) && ToldInv(s) && Step(c, s, l).Some?
    ensures ToldInv(Step(c, s, l).value)
  {
    assert Stopping(s.pc) || RunFinished(s) ==> s.channel.received.Some?;
    assert Running(s.pc) ==> s.ledger.runCalled && s.ledger.result.None?;
    hide ToldInv, Inv, CallerNext, ApiStep, ReplyStep, WatcherStep, SenderStep, WorldStep;
    if l.Next? {
      NextKeepsTold(c, s);
    } else {
      OtherKeepsTold(c, s, l);
    }
  }

  lemma {:induction false} ExecKeepsTold(c: Config, s: State, run: seq<Label>)
    requires Inv(c, s) && ToldInv(s) && Exec(c, s, run).Some?
    ensures ToldInv(Exec(c, s, run).value)
    decreases |run|
  {
    hide Inv, ToldInv, Step;
    if run != [] {
      StepKeepsInv(c, s, run[0]);
      StepKeepsTold(c, s, run[0]);
      ExecKeepsTold(c, Step(c, s, run[0]).value, run[1..]);
    }
  }

  lemma ReachedTold(c: Config, run: seq<Label>)
    requires Exec(c, Init(), run).Some?
    ensures ToldInv(Exec(c, Init(), run).value)
  {
    assert ToldInv(Init());
    hide ToldInv, Inv, Init, Exec;
    InitInv(c);
    ExecKeepsTold(c, Init(), run);
  }

  // ------------------------------------------------------------------ what `run` has done when it returns

  /**
   While it waits for a signal the listener serves; from the ping-stop message on the watcher has been
   told; when it has returned a signal the listener has been stopped too. It never returns without a
   result, which is that it failed to start exactly if there never was a listener.
   */
  lemma RunTellsEverybody(c: Config, run: seq<Label>)
    requires Exec(c, Init(), run).Some?
    ensures var s := Exec(c, Init(), run).value;
            && (s.pc.Receiving? || s.pc.StoppingPings? ==> s.ledger.listener.Serving?)
            && ((Stopping(s.pc) && !s.pc.StoppingPings?) || RunFinished(s) ==> s.watch.stop)
            && (RunFinished(s) && s.pc.Idle? ==> s.ledger.listener.Stopped?)
            && (s.ledger.runCalled && !Running(s.pc) ==> s.ledger.result.Some?)
            && (s.ledger.result.Some? ==> (s.ledger.result.value.StartFailed? <==> s.ledger.listener.NotMade?))
  {
    ReachedTold(c, run);
    Reached(c, run);
    ListenerStopped(c, run);
    NothingLeftToNotify(c, run);
    hide Exec, Guards;
  }

  /** `run` returns its signal without the watcher only if that has not finished within a second. */
  lemma WatcherAwaited(c: Config, run: seq<Label>, l: Label)
    requires Exec(c, Init(), run).Some? && Step(c, Exec(c, Init(), run).value, l).Some?
    ensures var s := Exec(c, Init(), run).value;
            var t := Step(c, s, l).value;
            && (s.pc.AwaitingWatcher? && !t.pc.AwaitingWatcher? ==>
                  RunFinished(t) && (s.watch.at.Done? || s.clock.tried + 1000 <= s.clock.now))
            && (RunFinished(t) && !RunFinished(s) ==> s.pc.AwaitingWatcher?)
  {
    ReachedTold(c, run);
    hide Exec;
  }

  /** No shutdown hook runs in a plugin that a request is in, and no request enters one in its hook. */
  lemma PluginsExclusive(c: Config, run: seq<Label>)
    requires Exec(c, Init(), run).Some?
    ensures var s := Exec(c, Init(), run).value; s.pc.InPlugin? ==> s.pc.plugin !in s.busy
  {
    ReachedTold(c, run);
  }

  // ------------------------------------------------------------------ the watcher

  /**
   The watcher is never stuck: it can take a step, or has an answer outstanding, or it waits for the
   client that the calling thread has, or for room in a channel somebody still listens to.
   */
  lemma WatcherGoesOn(c: Config, run: seq<Label>)
    requires Exec(c, Init(), run).Some?
    ensures var s := Exec(c, Init(), run).value;
            match s.watch.at
            case NotStarted => true
            case Done => true
            case Sleeping => Step(c, s, if s.watch.stop then WatcherNext else PingDue).Some?
            case Locking => Step(c, s, WatcherNext).Some? || s.client.lock.Caller?
            case Pinging => Step(c, s, PingReply(true)).Some? && Step(c, s, PingReply(false)).Some?
            case Reporting => Step(c, s, WatcherNext).Some? || (s.channel.listening && s.channel.queue.Some?)
            case _ => Step(c, s, WatcherNext).Some?
  {
    Reached(c, run);
    hide Exec, RegistrationInv, SignalInv, PingInv, TimeInv, CallerNext;
  }

  /** Told to stop, the watcher ends within three of its own steps unless it has the client or goes for it. */
  lemma StoppedWatcherEnds(c: Config, run: seq<Label>)
    requires Exec(c, Init(), run).Some?
    requires var s := Exec(c, Init(), run).value; s.watch.stop && (s.watch.at.Sleeping? || s.watch.at.Finishing?)
    ensures var s := Exec(c, Init(), run).value;
            var t := Exec(c, s, if s.watch.at.Sleeping? then [WatcherNext, WatcherNext] else [WatcherNext]);
            t.Some? && t.value.watch.at.Done? && t.value.client == s.client && t.value.channel == s.channel
  {
    var s := Exec(c, Init(), run).value;
    var run2 := [WatcherNext, WatcherNext];
    assert run2[1..] == [WatcherNext] && [WatcherNext][1..] == [];
    if s.watch.at.Sleeping? {
      var s1 := Step(c, s, WatcherNext).value;
      assert Exec(c, s1, [WatcherNext]) == Step(c, s1, WatcherNext);
      assert Exec(c, s, run2) == Exec(c, s1, run2[1..]);
    } else {
      assert Exec(c, s, [WatcherNext]) == Step(c, s, WatcherNext);
    }
  }

  /** A ping begins although the watcher has been told to stop. */
  predicate LateStep(s: State, t: State) {
    s.watch.stop && t.watch.at.Pinging? && !s.watch.at.Pinging?
  }

  function LatePings(c: Config, s: State, run: seq<Label>): nat
    decreases |run|
  {
    if run == [] || Step(c, s, run[0]).None? then 0 else
      var t := Step(c, s, run[0]).value;
      (if LateStep(s, t) then 1 else 0) + LatePings(c, t, run[1..])
  }

  lemma LateCounted(c: Config, s: State, l: Label)
    requires Step(c, s, l).Some?
    ensures var t := Step(c, s, l).value; t.watch.late == s.watch.late + if LateStep(s, t) then 1 else 0
  {
  }

  lemma {:induction false} LateIsCounted(c: Config, s: State, run: seq<Label>)
    requires Exec(c, s, run).Some?
    ensures LatePings(c, s, run) == Exec(c, s, run).value.watch.late - s.watch.late
    decreases |run|
  {
    hide Step, LateStep;
    if run != [] {
      LateCounted(c, s, run[0]);
      LateIsCounted(c, Step(c, s, run[0]).value, run[1..]);
    }
  }

  /** Over a whole run at most one ping begins after the ping-stop message. */
  lemma OneLatePing(c: Config, run: seq<Label>)
    requires Exec(c, Init(), run).Some?
    ensures LatePings(c, Init(), run) <= 1
  {
    Reached(c, run);
    hide Exec, Step;
    LateIsCounted(c, Init(), run);
  }

  // ------------------------------------------------------------------ time on the run

  /** Time that passes in teardown itself, not in its RPC or in the plugins. */
  predicate OwnTick(s: State, l: Label) {
    l.Tick? && InTeardown(s.pc) && !s.pc.InDeregister? && !s.pc.LockingPlugin? && !s.pc.InPlugin?
  }

  function OwnWait(c: Config, s: State, more: seq<Label>): nat
    decreases |more|
  {
    if more == [] || Step(c, s, more[0]).None? then 0 else
      (if OwnTick(s, more[0]) then 1 else 0) + OwnWait(c, Step(c, s, more[0]).value, more[1..])
  }

  /** One and the same teardown, from beginning to end. */
  predicate OneTeardown(c: Config, s: State, more: seq<Label>)
    decreases |more|
  {
    InTeardown(s.pc) &&
    (more == [] || Step(c, s, more[0]).None? || OneTeardown(c, Step(c, s, more[0]).value, more[1..]))
  }

  lemma TickCounted(c: Config, s: State, l: Label)
    requires Step(c, s, l).Some? && InTeardown(s.pc) && InTeardown(Step(c, s, l).value.pc)
    ensures Waited(Step(c, s, l).value.clock) == Waited(s.clock) + if OwnTick(s, l) then 1 else 0
  {
  }

  lemma {:induction false} WaitIsCounted(c: Config, s: State, more: seq<Label>)
    requires Exec(c, s, more).Some? && OneTeardown(c, s, more)
    ensures OwnWait(c, s, more) == Waited(Exec(c, s, more).value.clock) - Waited(s.clock)
    ensures InTeardown(Exec(c, s, more).value.pc)
    decreases |more|
  {
    hide Step, OwnTick, InTeardown, Waited;
    if more != [] {
      TickCounted(c, s, more[0]);
      WaitIsCounted(c, Step(c, s, more[0]).value, more[1..]);
    }
  }

  /**
   However a teardown is interleaved with everything else, the milliseconds that pass in it, outside the
   RPC it issues and the plugins it waits for, are at most two deadlines of a second and a nap of ten
   for a borrowed client, three and two for an owned one, and the lateness of as many sleeps.
   */
  lemma WaitBounded(c: Config, run: seq<Label>, more: seq<Label>)
    requires Exec(c, Init(), run).Some? && Exec(c, Exec(c, Init(), run).value, more).Some?
    requires OneTeardown(c, Exec(c, Init(), run).value, more)
    ensures OwnWait(c, Exec(c, Init(), run).value, more)
         <= if c.owned then 3 * 1000 + 2 * 10 + 3 * c.slack else 2 * 1000 + 10 + 2 * c.slack
  {
    var s := Exec(c, Init(), run).value;
    Reached(c, run);
    ReachedTold(c, run);
    hide RegistrationInv, SignalInv, ClientInv, PingInv, Exec, Step, Init;
    ExecKeepsInv(c, s, more);
    WaitIsCounted(c, s, more);
  }

  // ------------------------------------------------------------------ shutdown and drop

  /** Torn down, or on the way there. */
  predicate GoingDown(s: State) {
    s.ledger.registered.Some? && (s.ledger.uuid.None? || s.pc.Taking?)
  }

  lemma StepKeepsDown(c: Config, s: State, l: Label)
    requires GoingDown(s) && Step(c, s, l).Some? && (s.pc.Registering? ==> s.ledger.registered.None?)
    ensures GoingDown(Step(c, s, l).value)
  {
  }

  lemma {:induction false} ExecKeepsDown(c: Config, s: State, run: seq<Label>)
    requires Inv(c, s) && GoingDown(s) && Exec(c, s, run).Some?
    ensures GoingDown(Exec(c, s, run).value)
    decreases |run|
  {
    if run != [] {
      assert s.pc.Registering? ==> s.ledger.registered.None?;
      hide RegistrationInv, SignalInv, Guards, Step, GoingDown;
      StepKeepsInv(c, s, run[0]);
      StepKeepsDown(c, s, run[0]);
      ExecKeepsDown(c, Step(c, s, run[0]).value, run[1..]);
    }
  }

  /**
   Shutting down or dropping a registered server does tear it down: once the call is over, and for ever
   after, it has no uuid, every hook has been called and the listener has been stopped.
   */
  lemma ShutdownTearsDown(c: Config, run: seq<Label>, l: Label, more: seq<Label>)
    requires Exec(c, Init(), run).Some? && (l == CallShutdown || l == CallDrop)
    requires Step(c, Exec(c, Init(), run).value, l).Some?
    requires Exec(c, Step(c, Exec(c, Init(), run).value, l).value, more).Some?
    ensures var s := Exec(c, Init(), run).value;
            var t := Exec(c, Step(c, s, l).value, more).value;
            s.ledger.registered.Some? && !InShutdownMethod(t.pc) ==>
              && t.ledger.uuid.None?
              && t.ledger.notified == multiset(c.plugins)
              && !t.ledger.listener.Serving?
  {
    var s := Exec(c, Init(), run).value;
    Reached(c, run);
    var s1 := Step(c, s, l).value;
    assert s.ledger.registered.Some? ==> GoingDown(s1);
    hide Exec, RegistrationInv, SignalInv, Guards, Step;
    StepKeepsInv(c, s, l);
    if s.ledger.registered.Some? {
      ExecKeepsDown(c, s1, more);
      ExecKeepsInv(c, s1, more);
      if !InShutdownMethod(Exec(c, s1, more).value.pc) {
        DownMeansDone(c, Exec(c, s1, more).value);
      }
    }
  }

  lemma DownMeansDone(c: Config, s: State)
    requires Inv(c, s) && GoingDown(s) && !InShutdownMethod(s.pc)
    ensures s.ledger.uuid.None? && s.ledger.notified == multiset(c.plugins) && !s.ledger.listener.Serving?
  {
    assert Left(c, s.pc, s.ledger) == {};
    assert c.plugins - {} == c.plugins;
    hide SignalInv, Guards;
  }
}
