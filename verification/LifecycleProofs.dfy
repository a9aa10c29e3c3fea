/**
 What every run of the extension's lifecycle keeps: one deregistration, one shutdown hook per
 plugin, no RPC on a closed client, no lost signal, and a bound on the time teardown waits.
 */
module LifecycleProofs {
  import opened Bytes
  import opened Lifecycle

  // ------------------------------------------------------------------ registration and plugins

  predicate BeforeDeregistration(pc: Pc) {
    || (pc.Polling? && pc.goal.Deregister?)
    || (pc.Napping? && pc.goal.Deregister?)
    || pc.Deregistering?
  }

  function Target(pc: Pc): int
    requires BeforeDeregistration(pc)
  {
    match pc
    case Deregistering(_, uuid) => uuid
    case Polling(_, goal, _) => goal.uuid
    case Napping(_, goal, _, _) => goal.uuid
    case _ => 0
  }

  predicate BeforeStop(pc: Pc) {
    BeforeDeregistration(pc) || pc.InDeregister? || pc.StoppingListener?
  }

  /** The plugins still to be notified by a teardown that has taken the uuid. */
  function Remaining(c: Config, pc: Pc): set<nat> {
    match pc
    case InDeregister(_) => c.plugins
    case StoppingListener(_) => c.plugins
    case Choosing(_, todo) => todo
    case LockingPlugin(_, todo, plugin) => todo + {plugin}
    case InPlugin(_, todo, _) => todo
    case _ => if BeforeDeregistration(pc) then c.plugins else {}
  }

  /** The plugins whose shutdown hook is still to be called, if it is ever called. */
  function Left(c: Config, pc: Pc, ledger: Ledger): set<nat> {
    if ledger.registered.None? || ledger.uuid.Some? then c.plugins else Remaining(c, pc)
  }

  predicate HasUuid(pc: Pc) {
    pc.Registered? || pc.Receiving? || pc.StoppingPings?
  }

  /** Where the thread can be while the server is not registered. */
  predicate Unregistered(pc: Pc) {
    pc.Idle? || pc.Taking? || pc.Leaving? || pc.Dropped?
  }

  ghost predicate RegistrationInv(c: Config, pc: Pc, ledger: Ledger) {
    && (!ledger.runCalled ==> ledger.registered.None? && Unregistered(pc))
    && (ledger.registered.None?
        ==> ledger.uuid.None? && ledger.deregistered == [] && (Unregistered(pc) || pc.Starting? || pc.Registering?))
    && (pc.Starting? || pc.Registering? ==> ledger.registered.None? && ledger.result.None?)
    && (ledger.result.Some? ==> ledger.runCalled)
    && (ledger.result == Some(StartFailed) || ledger.result.None? || (ledger.registered.Some? && ledger.uuid.None?))
    && (HasUuid(pc) ==> ledger.uuid.Some?)
    && (Stopping(pc) ==> ledger.registered.Some?)
    && (ledger.uuid.Some?
        ==> ledger.registered == ledger.uuid && ledger.deregistered == [] && (HasUuid(pc) || pc.Idle? || pc.Taking?))
    && (BeforeDeregistration(pc) ==> ledger.registered == Some(Target(pc)) && ledger.deregistered == [])
    && (ledger.deregistered == [] || (ledger.registered.Some? && ledger.deregistered == [ledger.registered.value]))
    && (ledger.listener.Serving? ==> ledger.registered.Some? && (ledger.uuid.Some? || BeforeStop(pc)))
    && Left(c, pc, ledger) <= c.plugins
    && (pc.LockingPlugin? ==> pc.plugin !in pc.todo)
    && ledger.notified == multiset(c.plugins - Left(c, pc, ledger))
  }

  // ------------------------------------------------------------------ the client

  predicate CallerHolds(pc: Pc) {
    pc.Registering? || pc.Deregistering? || pc.InDeregister? || pc.Closing? || pc.Clearing?
  }

  predicate WatcherHolds(w: WatcherPc) {
    w.Holding? || w.Pinging? || w.Reporting?
  }

  predicate ClosePhase(pc: Pc) {
    (pc.Polling? && pc.goal.Close?) || (pc.Napping? && pc.goal.Close?) || pc.Closing? || pc.Clearing?
  }

  predicate ClientInv(c: Config, pc: Pc, at: WatcherPc, client: Client) {
    && (client.lock.Caller? <==> CallerHolds(pc))
    && (client.lock.Watcher? <==> WatcherHolds(at))
    && (client.closed ==> client.cleared || pc.Clearing?)
    && (client.closed || client.cleared || ClosePhase(pc) ==> c.owned)
  }

  // ------------------------------------------------------------------ signals and pings

  predicate InShutdownMethod(pc: Pc) {
    || pc.Taking? || pc.Polling? || pc.Napping? || pc.Deregistering? || pc.InDeregister? || pc.StoppingListener?
    || pc.Choosing? || pc.LockingPlugin? || pc.InPlugin? || pc.Closing? || pc.Clearing? || pc.Leaving?
  }

  predicate InTeardown(pc: Pc) {
    InShutdownMethod(pc) || pc.StoppingPings? || pc.AwaitingWatcher?
  }

  /** Inside `run`, after it has received. */
  predicate Stopping(pc: Pc) {
    pc.StoppingPings? || pc.AwaitingWatcher? || (InShutdownMethod(pc) && pc.who.InRun?)
  }

  predicate RunBegins(pc: Pc) {
    pc.Starting? || pc.Registering? || pc.Registered?
  }

  /** `run` has been called and has not returned. */
  predicate Running(pc: Pc) {
    RunBegins(pc) || pc.Receiving? || Stopping(pc)
  }

  predicate SignalInv(pc: Pc, ledger: Ledger, ch: Channel) {
    && (Running(pc) ==> ch.listening && ledger.runCalled && ledger.result.None?)
    && (!ledger.runCalled ==> ledger.result.None?)
    && (ledger.result.Some? || pc.Dropped? ==> !ch.listening)
    && (!ch.listening ==> ch.queue.None? && (ledger.result.Some? || pc.Dropped?))
    && (ch.received.None? ==> |ch.enqueued| <= 1)
    && (ch.received.None? && ch.listening ==> ch.queue == if ch.enqueued == [] then None else Some(ch.enqueued[0]))
    && (ch.received.Some? ==> ch.enqueued != [] && ch.received == Some(ch.enqueued[0]))
    && (ch.received.Some? <==> Stopping(pc) || (ledger.result.Some? && ledger.result.value.Finished?))
    && (ledger.result.Some? && ledger.result.value.Finished? ==> ch.received == Some(ledger.result.value.signal))
  }

  predicate PingInv(pc: Pc, ledger: Ledger, watch: Watch) {
    && (!ledger.runCalled ==> !RunBegins(pc))
    && (!ledger.runCalled || RunBegins(pc) ==> watch.at.NotStarted?)
    && (watch.stop ==> watch.late + (if watch.at.Locking? || watch.at.Holding? then 1 else 0) <= 1)
    && (!watch.stop ==> watch.late == 0)
  }

  // ------------------------------------------------------------------ time

  /** The longest one bounded attempt to lock the client can wait. */
  function LockWait(c: Config): nat {
    CLIENT_LOCK_DEADLINE + POLL + c.slack
  }

  function CloseWait(c: Config): nat {
    if c.owned then LockWait(c) else 0
  }

  function WatcherWait(c: Config, who: Who): nat {
    if who.InRun? then CLIENT_LOCK_DEADLINE + c.slack else 0
  }

  /** The longest teardown waits, outside the deregister RPC and the plugins. */
  function TeardownWait(c: Config): nat {
    LockWait(c) + CloseWait(c) + WatcherWait(c, InRun)
  }

  /** The longest the calling thread may still wait from here. */
  function Ahead(c: Config, pc: Pc, now: nat): int {
    if pc.StoppingPings? then TeardownWait(c)
    else if pc.AwaitingWatcher? then pc.until + c.slack - now
    else if pc.Taking? then LockWait(c) + CloseWait(c) + WatcherWait(c, pc.who)
    else if pc.Polling? || pc.Napping? then
      pc.giveUp + POLL + c.slack - now + (if pc.goal.Close? then 0 else CloseWait(c)) + WatcherWait(c, pc.who)
    else if pc.Closing? || pc.Clearing? || pc.Leaving? then WatcherWait(c, pc.who)
    else if InShutdownMethod(pc) then CloseWait(c) + WatcherWait(c, pc.who)
    else 0
  }

  /** Time since teardown began, without the RPC it issues and the plugins it waits for. */
  function Waited(clock: Clock): int {
    clock.now - clock.since - clock.inRpc - clock.inPlugins
  }

  predicate TimeInv(c: Config, pc: Pc, clock: Clock) {
    && (pc.Polling? ==> clock.now <= pc.giveUp + POLL + c.slack)
    && (pc.Napping? ==> pc.wake < pc.giveUp + POLL && clock.now <= pc.wake + c.slack && pc.wake <= clock.now + POLL)
    && (pc.AwaitingWatcher? ==> clock.now <= pc.until + c.slack)
    && (pc.StoppingPings? || pc.Taking? || BeforeDeregistration(pc) ==> clock.inRpc == 0)
    && clock.since <= clock.now
    && (pc.Polling? || pc.Napping? ==> clock.since <= clock.tried && clock.tried + CLIENT_LOCK_DEADLINE == pc.giveUp)
    && (InTeardown(pc) ==> Waited(clock) + Ahead(c, pc, clock.now) <= TeardownWait(c))
  }

  // ------------------------------------------------------------------ every step keeps all of it

  predicate Guards(c: Config, s: State) {
    ClientInv(c, s.pc, s.watch.at, s.client) && PingInv(s.pc, s.ledger, s.watch) && TimeInv(c, s.pc, s.clock)
  }

  ghost predicate Inv(c: Config, s: State) {
    RegistrationInv(c, s.pc, s.ledger) && SignalInv(s.pc, s.ledger, s.channel) && Guards(c, s)
  }

  lemma NotifiedGrows(plugins: set<nat>, todo: set<nat>, p: nat)
    requires todo <= plugins && p in plugins && p !in todo
    ensures multiset(plugins - (todo + {p})) + multiset{p} == multiset(plugins - todo)
  {
    assert plugins - todo == (plugins - (todo + {p})) + {p};
  }

  lemma RunNextKeepsRegistration(c: Config, s: State)
    requires RegistrationInv(c, s.pc, s.ledger) && RunNext(s).Some?
    ensures var t := RunNext(s).value; RegistrationInv(c, t.pc, t.ledger)
  {
  }

  lemma RunNextKeepsSignals(c: Config, s: State)
    requires SignalInv(s.pc, s.ledger, s.channel) && RunNext(s).Some?
    ensures var t := RunNext(s).value; SignalInv(t.pc, t.ledger, t.channel)
  {
  }

  lemma RunNextKeepsGuards(c: Config, s: State)
    requires Guards(c, s) && RunNext(s).Some?
    ensures var t := RunNext(s).value; Guards(c, t)
  {
  }

  lemma PollNextKeepsLeft(c: Config, s: State)
    requires PollNext(s).Some?
    ensures var t := PollNext(s).value;
        Left(c, t.pc, t.ledger) == Left(c, s.pc, s.ledger) && t.ledger.notified == s.ledger.notified
  {
  }

  lemma PollNextKeepsRegistration(c: Config, s: State)
    requires RegistrationInv(c, s.pc, s.ledger) && PollNext(s).Some?
    ensures var t := PollNext(s).value; RegistrationInv(c, t.pc, t.ledger)
  {
    PollNextKeepsLeft(c, s);
    hide Left;
  }

  lemma PollNextKeepsSignals(c: Config, s: State)
    requires SignalInv(s.pc, s.ledger, s.channel) && PollNext(s).Some?
    ensures var t := PollNext(s).value; SignalInv(t.pc, t.ledger, t.channel)
  {
  }

  lemma PollNextKeepsTime(c: Config, s: State)
    requires TimeInv(c, s.pc, s.clock) && PollNext(s).Some?
    ensures var t := PollNext(s).value; TimeInv(c, t.pc, t.clock)
  {
  }

  lemma PollNextKeepsGuards(c: Config, s: State)
    requires Guards(c, s) && PollNext(s).Some?
    ensures var t := PollNext(s).value; Guards(c, t)
  {
    hide TimeInv;
    PollNextKeepsTime(c, s);
  }

  lemma DeregisterNextKeepsRegistration(c: Config, s: State)
    requires RegistrationInv(c, s.pc, s.ledger) && DeregisterNext(c, s).Some?
    ensures var t := DeregisterNext(c, s).value; RegistrationInv(c, t.pc, t.ledger)
  {
  }

  lemma DeregisterNextKeepsSignals(c: Config, s: State)
    requires SignalInv(s.pc, s.ledger, s.channel) && DeregisterNext(c, s).Some?
    ensures var t := DeregisterNext(c, s).value; SignalInv(t.pc, t.ledger, t.channel)
  {
  }

  lemma DeregisterNextKeepsTime(c: Config, s: State)
    requires TimeInv(c, s.pc, s.clock) && DeregisterNext(c, s).Some?
    ensures var t := DeregisterNext(c, s).value; TimeInv(c, t.pc, t.clock)
  {
  }

  lemma DeregisterNextKeepsGuards(c: Config, s: State)
    requires Guards(c, s) && DeregisterNext(c, s).Some?
    ensures var t := DeregisterNext(c, s).value; Guards(c, t)
  {
    hide TimeInv;
    DeregisterNextKeepsTime(c, s);
  }

  lemma NotifyNextKeepsRegistration(c: Config, s: State)
    requires RegistrationInv(c, s.pc, s.ledger) && NotifyNext(c, s).Some?
    ensures var t := NotifyNext(c, s).value; RegistrationInv(c, t.pc, t.ledger)
  {
    if s.pc.LockingPlugin? {
      NotifiedGrows(c.plugins, s.pc.todo, s.pc.plugin);
    }
  }

  lemma NotifyNextKeepsSignals(c: Config, s: State)
    requires SignalInv(s.pc, s.ledger, s.channel) && NotifyNext(c, s).Some?
    ensures var t := NotifyNext(c, s).value; SignalInv(t.pc, t.ledger, t.channel)
  {
  }

  lemma NotifyNextKeepsGuards(c: Config, s: State)
    requires Guards(c, s) && NotifyNext(c, s).Some?
    ensures var t := NotifyNext(c, s).value; Guards(c, t)
  {
  }

  lemma LeaveNextKeepsLeft(c: Config, s: State)
    requires LeaveNext(s).Some?
    ensures var t := LeaveNext(s).value;
        Left(c, t.pc, t.ledger) == Left(c, s.pc, s.ledger) && t.ledger.notified == s.ledger.notified
  {
  }

  lemma LeaveNextKeepsRegistration(c: Config, s: State)
    requires RegistrationInv(c, s.pc, s.ledger) && LeaveNext(s).Some?
    ensures var t := LeaveNext(s).value; RegistrationInv(c, t.pc, t.ledger)
  {
    LeaveNextKeepsLeft(c, s);
    hide Left;
  }

  lemma LeaveNextKeepsSignals(c: Config, s: State)
    requires SignalInv(s.pc, s.ledger, s.channel) && LeaveNext(s).Some?
    ensures var t := LeaveNext(s).value; SignalInv(t.pc, t.ledger, t.channel)
  {
  }

  lemma LeaveNextKeepsTime(c: Config, s: State)
    requires TimeInv(c, s.pc, s.clock) && LeaveNext(s).Some?
    ensures var t := LeaveNext(s).value; TimeInv(c, t.pc, t.clock)
  {
  }

  lemma LeaveNextKeepsGuards(c: Config, s: State)
    requires Guards(c, s) && LeaveNext(s).Some?
    ensures var t := LeaveNext(s).value; Guards(c, t)
  {
    hide TimeInv;
    LeaveNextKeepsTime(c, s);
  }

  lemma ApiStepKeepsLeft(c: Config, s: State, l: Label)
    requires RegistrationInv(c, s.pc, s.ledger) && ApiStep(s, l).Some?
    ensures var t := ApiStep(s, l).value;
        Left(c, t.pc, t.ledger) == Left(c, s.pc, s.ledger) && t.ledger.notified == s.ledger.notified
  {
  }

  lemma ApiStepKeepsRegistration(c: Config, s: State, l: Label)
    requires RegistrationInv(c, s.pc, s.ledger) && ApiStep(s, l).Some?
    ensures var t := ApiStep(s, l).value; RegistrationInv(c, t.pc, t.ledger)
  {
    ApiStepKeepsLeft(c, s, l);
    hide Left;
  }

  lemma ApiStepKeepsSignals(c: Config, s: State, l: Label)
    requires SignalInv(s.pc, s.ledger, s.channel) && ApiStep(s, l).Some?
    ensures var t := ApiStep(s, l).value; SignalInv(t.pc, t.ledger, t.channel)
  {
  }

  lemma ApiStepKeepsTime(c: Config, s: State, l: Label)
    requires TimeInv(c, s.pc, s.clock) && ApiStep(s, l).Some?
    ensures var t := ApiStep(s, l).value; TimeInv(c, t.pc, t.clock)
  {
  }

  lemma ApiStepKeepsGuards(c: Config, s: State, l: Label)
    requires Guards(c, s) && ApiStep(s, l).Some?
    ensures var t := ApiStep(s, l).value; Guards(c, t)
  {
    hide TimeInv;
    ApiStepKeepsTime(c, s, l);
  }

  lemma ReplyStepKeepsRemaining(c: Config, s: State, l: Label)
    requires ReplyStep(s, l).Some?
    ensures var t := ReplyStep(s, l).value; t.ledger == s.ledger && Remaining(c, t.pc) == Remaining(c, s.pc)
  {
    if l.Pick? {
      assert s.pc.todo == (s.pc.todo - {l.plugin}) + {l.plugin};
    }
  }

  lemma ReplyStepKeepsRegistration(c: Config, s: State, l: Label)
    requires RegistrationInv(c, s.pc, s.ledger) && ReplyStep(s, l).Some?
    ensures var t := ReplyStep(s, l).value; RegistrationInv(c, t.pc, t.ledger)
  {
    hide Remaining;
    ReplyStepKeepsRemaining(c, s, l);
  }

  lemma ReplyStepKeepsSignals(c: Config, s: State, l: Label)
    requires SignalInv(s.pc, s.ledger, s.channel) && ReplyStep(s, l).Some?
    ensures var t := ReplyStep(s, l).value; SignalInv(t.pc, t.ledger, t.channel)
  {
  }

  lemma ReplyStepKeepsGuards(c: Config, s: State, l: Label)
    requires Guards(c, s) && ReplyStep(s, l).Some?
    ensures var t := ReplyStep(s, l).value; Guards(c, t)
  {
  }

  lemma WatcherStepKeepsSignals(c: Config, s: State, l: Label)
    requires SignalInv(s.pc, s.ledger, s.channel) && WatcherStep(s, l).Some?
    ensures var t := WatcherStep(s, l).value;
        t.pc == s.pc && t.ledger == s.ledger && SignalInv(t.pc, t.ledger, t.channel)
  {
  }

  lemma WatcherStepKeepsGuards(c: Config, s: State, l: Label)
    requires Guards(c, s) && WatcherStep(s, l).Some?
    ensures var t := WatcherStep(s, l).value; Guards(c, t)
  {
    hide TimeInv;
  }

  lemma SenderStepKeepsSignals(c: Config, s: State, l: Label)
    requires SignalInv(s.pc, s.ledger, s.channel) && SenderStep(s, l).Some?
    ensures var t := SenderStep(s, l).value;
        t.pc == s.pc && t.ledger == s.ledger && SignalInv(t.pc, t.ledger, t.channel)
  {
  }

  lemma SenderStepKeepsGuards(c: Config, s: State, l: Label)
    requires Guards(c, s) && SenderStep(s, l).Some?
    ensures var t := SenderStep(s, l).value; Guards(c, t)
  {
    hide TimeInv;
  }

  lemma WorldStepKeepsSignals(c: Config, s: State, l: Label)
    requires SignalInv(s.pc, s.ledger, s.channel) && WorldStep(c, s, l).Some?
    ensures var t := WorldStep(c, s, l).value;
        t.pc == s.pc && t.ledger == s.ledger && SignalInv(t.pc, t.ledger, t.channel)
  {
  }

  lemma WorldStepKeepsGuards(c: Config, s: State, l: Label)
    requires Guards(c, s) && WorldStep(c, s, l).Some?
    ensures var t := WorldStep(c, s, l).value; Guards(c, t)
  {
  }

  lemma NextKeepsInv(c: Config, s: State)
    requires Inv(c, s) && CallerNext(c, s).Some?
    ensures Inv(c, CallerNext(c, s).value)
  {
    hide RegistrationInv, SignalInv, Guards, RunNext, PollNext, DeregisterNext, NotifyNext, LeaveNext;
    if s.pc.Starting? || s.pc.Receiving? || s.pc.StoppingPings? {
      RunNextKeepsRegistration(c, s);
      RunNextKeepsSignals(c, s);
      RunNextKeepsGuards(c, s);
    } else if s.pc.Polling? || s.pc.Napping? {
      PollNextKeepsRegistration(c, s);
      PollNextKeepsSignals(c, s);
      PollNextKeepsGuards(c, s);
    } else if s.pc.Choosing? || s.pc.LockingPlugin? {
      NotifyNextKeepsRegistration(c, s);
      NotifyNextKeepsSignals(c, s);
      NotifyNextKeepsGuards(c, s);
    } else if s.pc.Taking? || s.pc.Deregistering? || s.pc.StoppingListener? {
      DeregisterNextKeepsRegistration(c, s);
      DeregisterNextKeepsSignals(c, s);
      DeregisterNextKeepsGuards(c, s);
    } else {
      LeaveNextKeepsRegistration(c, s);
      LeaveNextKeepsSignals(c, s);
      LeaveNextKeepsGuards(c, s);
    }
  }

  lemma StepKeepsInv(c: Config, s: State, l: Label)
    requires Inv(c, s) && Step(c, s, l).Some?
    ensures Inv(c, Step(c, s, l).value)
  {
    hide RegistrationInv, SignalInv, Guards, CallerNext, ApiStep, ReplyStep, WatcherStep, SenderStep, WorldStep;
    if OfWatcher(l) {
      WatcherStepKeepsSignals(c, s, l);
      WatcherStepKeepsGuards(c, s, l);
    } else if OfSender(l) {
      SenderStepKeepsSignals(c, s, l);
      SenderStepKeepsGuards(c, s, l);
    } else if OfWorld(l) {
      WorldStepKeepsSignals(c, s, l);
      WorldStepKeepsGuards(c, s, l);
    } else if OfReply(l) {
      ReplyStepKeepsRegistration(c, s, l);
      ReplyStepKeepsSignals(c, s, l);
      ReplyStepKeepsGuards(c, s, l);
    } else if l.Next? {
      NextKeepsInv(c, s);
    } else {
      ApiStepKeepsRegistration(c, s, l);
      ApiStepKeepsSignals(c, s, l);
      ApiStepKeepsGuards(c, s, l);
    }
  }

  lemma {:induction false} ExecKeepsInv(c: Config, s: State, run: seq<Label>)
    requires Inv(c, s) && Exec(c, s, run).Some?
    ensures Inv(c, Exec(c, s, run).value)
    decreases |run|
  {
    hide Inv, Step;
    if run != [] {
      StepKeepsInv(c, s, run[0]);
      ExecKeepsInv(c, Step(c, s, run[0]).value, run[1..]);
    }
  }

  lemma InitInv(c: Config)
    ensures Inv(c, Init())
  {
    assert c.plugins - c.plugins == {};
  }

  lemma Reached(c: Config, run: seq<Label>)
    requires Exec(c, Init(), run).Some?
    ensures Inv(c, Exec(c, Init(), run).value)
  {
    hide *;
    InitInv(c);
    ExecKeepsInv(c, Init(), run);
  }
}
