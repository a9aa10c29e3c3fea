/**
 The promises of the lifecycle, over every interleaving of every run: what happens at most once,
 what is never lost, and how long teardown can take.
 */
module LifecycleTheorems {
  import opened Bytes
  import opened Lifecycle
  import opened LifecycleProofs

  // ------------------------------------------------------------------ once each

  lemma {:induction false} RegisteredByReply(c: Config, s: State, run: seq<Label>)
    requires Exec(c, s, run).Some?
    ensures var registered := Exec(c, s, run).value.ledger.registered;
            registered.Some? && registered != s.ledger.registered ==> RegisterReply(registered) in run
    decreases |run|
  {
    if run != [] {
      var s' := Step(c, s, run[0]).value;
      RegistersOnReply(c, s, run[0]);
      hide Step;
      RegisteredByReply(c, s', run[1..]);
      assert run == [run[0]] + run[1..];
    }
  }

  lemma RegistersOnReply(c: Config, s: State, l: Label)
    requires Step(c, s, l).Some?
    ensures Step(c, s, l).value.ledger.registered == if l.RegisterReply? && l.uuid.Some? then l.uuid
                                                     else s.ledger.registered
  {
  }

  /** Deregistration is attempted at most once, and only with the uuid that registration returned. */
  lemma DeregisteredOnce(c: Config, run: seq<Label>)
    requires Exec(c, Init(), run).Some?
    ensures var uuids := Exec(c, Init(), run).value.ledger.deregistered;
            uuids == [] || (|uuids| == 1 && RegisterReply(Some(uuids[0])) in run)
  {
    Reached(c, run);
    RegisteredByReply(c, Init(), run);
    hide Exec;
  }

  /** No shutdown hook is called twice, or without a registration; a finished teardown has called all of them. */
  lemma PluginsNotifiedOnce(c: Config, run: seq<Label>)
    requires Exec(c, Init(), run).Some?
    ensures var s := Exec(c, Init(), run).value;
            && s.ledger.notified <= multiset(c.plugins)
            && (s.ledger.registered.None? ==> s.ledger.notified == multiset{})
            && (s.ledger.registered.Some? && s.ledger.uuid.None? && !InShutdownMethod(s.pc)
                ==> s.ledger.notified == multiset(c.plugins))
  {
    Reached(c, run);
    var s := Exec(c, Init(), run).value;
    assert c.plugins - c.plugins == {} && c.plugins - {} == c.plugins;
  }

  /** A registered server that has been dropped, or whose `run` has returned a signal, has called every hook. */
  lemma NothingLeftToNotify(c: Config, run: seq<Label>)
    requires Exec(c, Init(), run).Some?
    ensures var s := Exec(c, Init(), run).value;
            var finished := s.ledger.result.Some? && s.ledger.result.value.Finished?;
            s.ledger.registered.Some? && (s.pc.Dropped? || (s.pc.Idle? && finished))
            ==> s.ledger.uuid.None? && s.ledger.notified == multiset(c.plugins)
  {
    Reached(c, run);
    PluginsNotifiedOnce(c, run);
  }

  // ------------------------------------------------------------------ the client

  /** A finished teardown has told the listener to stop. */
  lemma ListenerStopped(c: Config, run: seq<Label>)
    requires Exec(c, Init(), run).Some?
    ensures var s := Exec(c, Init(), run).value;
            s.ledger.uuid.None? && !InShutdownMethod(s.pc) ==> !s.ledger.listener.Serving?
  {
    Reached(c, run);
  }

  // ------------------------------------------------------------------ what may be skipped, and when

  /** The client is given up only by a teardown that has taken the uuid and is done with deregistration. */
  predicate CloseInv(s: State) {
    && (s.client.cleared || s.client.closed || ClosePhase(s.pc) ==>
          s.ledger.registered.Some? && s.ledger.uuid.None? && !BeforeStop(s.pc))
    && (s.client.cleared || s.pc.Clearing? ==> s.client.closed)
  }

  predicate Milestones(s: State) {
    && (s.pc.Choosing? ==> s.ledger.registered.Some? && s.ledger.uuid.None?)
    && (s.pc.Registering? ==> s.ledger.registered.None?)
  }

  lemma HasMilestones(c: Config, s: State)
    requires RegistrationInv(c, s.pc, s.ledger)
    ensures Milestones(s)
  {
  }

  lemma NextKeepsClose(c: Config, s: State)
    requires Milestones(s) && CloseInv(s) && CallerNext(c, s).Some?
    ensures CloseInv(CallerNext(c, s).value)
  {
  }

  lemma StepKeepsClose(c: Config, s: State, l: Label)
    requires Milestones(s) && CloseInv(s) && Step(c, s, l).Some?
    ensures CloseInv(Step(c, s, l).value)
  {
    hide CallerNext;
    if l.Next? {
      NextKeepsClose(c, s);
    }
  }

  lemma {:induction false} ExecKeepsClose(c: Config, s: State, run: seq<Label>)
    requires Inv(c, s) && CloseInv(s) && Exec(c, s, run).Some?
    ensures CloseInv(Exec(c, s, run).value)
    decreases |run|
  {
    hide RegistrationInv, SignalInv, Guards, CloseInv, Milestones, Step;
    if run != [] {
      StepKeepsInv(c, s, run[0]);
      HasMilestones(c, s);
      StepKeepsClose(c, s, run[0]);
      ExecKeepsClose(c, Step(c, s, run[0]).value, run[1..]);
    }
  }

  lemma InitClose()
    ensures CloseInv(Init())
  {
  }

  lemma ReachedClose(c: Config, run: seq<Label>)
    requires Exec(c, Init(), run).Some?
    ensures CloseInv(Exec(c, Init(), run).value)
  {
    hide *;
    InitInv(c);
    InitClose();
    ExecKeepsClose(c, Init(), run);
  }

  /** An RPC on the client begins: registration, deregistration or a ping. */
  predicate RpcBegins(s: State, t: State) {
    || (t.pc.Registering? && !s.pc.Registering?)
    || (t.pc.InDeregister? && !s.pc.InDeregister?)
    || (t.watch.at.Pinging? && !s.watch.at.Pinging?)
  }

  /**
   An RPC begins only on a client that is neither closed nor cleared, by whoever has locked it, and while
   no other is in flight. A borrowed client is never closed or cleared.
   */
  lemma ClosedClientUnused(c: Config, run: seq<Label>, l: Label)
    requires Exec(c, Init(), run).Some? && Step(c, Exec(c, Init(), run).value, l).Some?
    ensures var s := Exec(c, Init(), run).value;
            var t := Step(c, s, l).value;
            && (RpcBegins(s, t) ==>
                  && !s.client.closed && !s.client.cleared && !t.client.closed && !t.client.cleared
                  && t.client.lock == if t.watch.at.Pinging? then Watcher else Caller)
            && !((s.pc.Registering? || s.pc.InDeregister?) && s.watch.at.Pinging?)
            && (!c.owned ==> !s.client.closed && !s.client.cleared)
  {
    Reached(c, run);
    ReachedClose(c, run);
    RpcStep(c, Exec(c, Init(), run).value, l);
  }

  lemma RpcStep(c: Config, s: State, l: Label)
    requires Inv(c, s) && CloseInv(s) && Step(c, s, l).Some?
    ensures var t := Step(c, s, l).value;
            RpcBegins(s, t) ==>
              && !s.client.closed && !s.client.cleared && !t.client.closed && !t.client.cleared
              && t.client.lock == if t.watch.at.Pinging? then Watcher else Caller
  {
    hide SignalInv, PingInv, TimeInv;
  }

  /**
   Teardown leaves osquery untold only when the ping watcher still holds the client a full second or
   more after the attempt to lock it began.
   */
  lemma DeregistrationSkippedOnlyIfHeld(c: Config, run: seq<Label>, l: Label)
    requires Exec(c, Init(), run).Some? && Step(c, Exec(c, Init(), run).value, l).Some?
    requires BeforeDeregistration(Exec(c, Init(), run).value.pc)
    ensures var s := Exec(c, Init(), run).value;
            var t := Step(c, s, l).value;
            t.ledger.deregistered == [] && !BeforeDeregistration(t.pc)
            ==> WatcherHolds(s.watch.at) && s.clock.tried + 1000 <= s.clock.now
  {
    var s := Exec(c, Init(), run).value;
    Reached(c, run);
    ReachedClose(c, run);
    SkipStep(c, s, l);
  }

  lemma SkipStep(c: Config, s: State, l: Label)
    requires Inv(c, s) && CloseInv(s) && BeforeDeregistration(s.pc) && Step(c, s, l).Some?
    ensures var t := Step(c, s, l).value;
            t.ledger.deregistered == [] && !BeforeDeregistration(t.pc)
            ==> WatcherHolds(s.watch.at) && s.clock.tried + 1000 <= s.clock.now
  {
    hide SignalInv, PingInv;
  }

  /** Past the point where it takes the uuid, and before it leaves. */
  predicate TearingDown(pc: Pc) {
    InShutdownMethod(pc) && !pc.Taking? && !pc.Leaving?
  }

  /**
   Teardown leaves an owned client open only in the same circumstances, of its own attempt; it never
   touches a borrowed one.
   */
  lemma CloseSkippedOnlyIfHeld(c: Config, run: seq<Label>, l: Label)
    requires Exec(c, Init(), run).Some? && Step(c, Exec(c, Init(), run).value, l).Some?
    requires TearingDown(Exec(c, Init(), run).value.pc)
    ensures var s := Exec(c, Init(), run).value;
            var t := Step(c, s, l).value;
            !TearingDown(t.pc) ==>
              && t.pc.Leaving?
              && (c.owned ==>
                    || (t.client.cleared && t.client.closed)
                    || (WatcherHolds(s.watch.at) && s.clock.tried + 1000 <= s.clock.now))
  {
    var s := Exec(c, Init(), run).value;
    Reached(c, run);
    ReachedClose(c, run);
    LeaveOpenStep(c, s, l);
  }

  lemma LeaveOpenStep(c: Config, s: State, l: Label)
    requires Guards(c, s) && CloseInv(s) && TearingDown(s.pc) && Step(c, s, l).Some?
    ensures var t := Step(c, s, l).value;
            !TearingDown(t.pc) ==>
              && t.pc.Leaving?
              && (c.owned ==>
                    || (t.client.cleared && t.client.closed)
                    || (WatcherHolds(s.watch.at) && s.clock.tried + 1000 <= s.clock.now))
  {
    hide PingInv;
  }

  // ------------------------------------------------------------------ signals

  lemma StepAppends(c: Config, s: State, l: Label)
    requires Step(c, s, l).Some?
    ensures s.channel.enqueued <= Step(c, s, l).value.channel.enqueued
  {
  }

  lemma {:induction false} ExecAppends(c: Config, s: State, run: seq<Label>)
    requires Exec(c, s, run).Some?
    ensures s.channel.enqueued <= Exec(c, s, run).value.channel.enqueued
    decreases |run|
  {
    hide Step;
    if run != [] {
      StepAppends(c, s, run[0]);
      ExecAppends(c, Step(c, s, run[0]).value, run[1..]);
    }
  }

  /** Whatever else is sent, and whenever `run` starts: it returns the first signal that entered the channel. */
  lemma FirstSignalDecides(c: Config, run: seq<Label>, more: seq<Label>)
    requires Exec(c, Init(), run).Some?
    requires Exec(c, Exec(c, Init(), run).value, more).Some?
    ensures var s := Exec(c, Init(), run).value;
            var t := Exec(c, s, more).value;
            s.channel.enqueued != [] && t.ledger.result.Some? && t.ledger.result.value.Finished?
            ==> t.ledger.result == Some(Finished(s.channel.enqueued[0]))
  {
    var s := Exec(c, Init(), run).value;
    hide Exec, Init, RegistrationInv, Guards;
    Reached(c, run);
    ExecKeepsInv(c, s, more);
    ExecAppends(c, s, more);
  }

  /** A signal sent before `run` receives, or before it even starts, keeps it from blocking. */
  lemma ReceiveDoesNotBlock(c: Config, run: seq<Label>)
    requires Exec(c, Init(), run).Some?
    ensures var s := Exec(c, Init(), run).value;
            s.pc.Receiving? && s.channel.enqueued != []
            ==> Step(c, s, Next).Some? && Step(c, s, Next).value.channel.received == Some(s.channel.enqueued[0])
  {
    Reached(c, run);
  }

  /** Once `run` has returned, every sender still blocked can go on, and is refused; so can the watcher. */
  lemma SendersReleased(c: Config, run: seq<Label>, id: nat)
    requires Exec(c, Init(), run).Some?
    ensures var s := Exec(c, Init(), run).value;
            s.ledger.result.Some? || s.pc.Dropped? ==>
              && (id in s.channel.senders && s.channel.senders[id].Blocked? ==>
                    Step(c, s, Resume(id)).Some? && Step(c, s, Resume(id)).value.channel.senders[id] == Refused)
              && (s.watch.at.Reporting?
                  ==> Step(c, s, WatcherNext).Some? && Step(c, s, WatcherNext).value.client.lock.Free?)
  {
    Reached(c, run);
  }

  // ------------------------------------------------------------------ progress

  predicate WaitsOnOthers(s: State) {
    s.pc.InDeregister? || s.pc.InPlugin? || (s.pc.LockingPlugin? && s.pc.plugin in s.busy)
  }

  /** Teardown is never stuck: unless its RPC or a plugin is at work, it takes a step or its wait runs down. */
  lemma NeverStuck(c: Config, run: seq<Label>)
    requires Exec(c, Init(), run).Some?
    ensures var s := Exec(c, Init(), run).value;
            InTeardown(s.pc) && !WaitsOnOthers(s) ==>
              || Step(c, s, Next).Some?
              || (exists p :: Step(c, s, Pick(p)).Some?)
              || Step(c, s, Tick).Some?
  {
    Reached(c, run);
    hide RegistrationInv, Guards, WaitsOnOthers, Step;
    TakesStep(c, Exec(c, Init(), run).value);
  }

  lemma TakesStep(c: Config, s: State)
    requires SignalInv(s.pc, s.ledger, s.channel)
    ensures InTeardown(s.pc) && !WaitsOnOthers(s) ==>
              || Step(c, s, Next).Some?
              || (exists p :: Step(c, s, Pick(p)).Some?)
              || Step(c, s, Tick).Some?
  {
    if s.pc.Choosing? && s.pc.todo != {} {
      var p :| p in s.pc.todo;
      assert Step(c, s, Pick(p)).Some?;
    } else if InTeardown(s.pc) {
      assert s.pc.AwaitingWatcher? ==> s.channel.received.Some?;
      hide SignalInv;
      assert !WaitsOnOthers(s) ==> Step(c, s, Next).Some? || Step(c, s, Tick).Some?;
    }
  }
}
