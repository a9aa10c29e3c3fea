/**
 The life of an extension server: the thread that calls `run`, `shutdown` and `drop`, the ping
 watcher, everything that sends on the capacity-1 signal channel, and the calls that hold plugin
 locks. Each may take the next step at any moment; a run is any sequence of enabled steps.

 Time is counted in milliseconds. The calling thread does at once whatever it can do, so time
 passes only while it waits; a sleep or a timed wait may end up to `slack` late.
 */
module Lifecycle {
  import opened Bytes

  const CLIENT_LOCK_DEADLINE := 1000
  const POLL := 10

  datatype Config = Config(owned: bool, plugins: set<nat>, slack: nat)

  /** What travels on the signal channel: a plain stop, or the error that caused it. */
  datatype Signal = Stop | Fault(code: int)

  /** What has become of a sender's signal. */
  datatype Sender = Blocked(signal: Signal) | Sent(signal: Signal) | Refused

  datatype Origin = BySender(id: nat) | ByWatcher

  datatype Owner = Free | Caller | Watcher

  datatype Who = InRun | InShutdown | InDrop

  datatype Goal = Deregister(uuid: int) | Close

  /** Where the calling thread is. */
  datatype Pc =
    | Idle
    | Starting
    | Registering                                       // holds the client, RPC in flight
    | Registered
    | Receiving
    | StoppingPings
    | Taking(who: Who)
    | Polling(who: Who, goal: Goal, giveUp: nat)
    | Napping(who: Who, goal: Goal, giveUp: nat, wake: nat)
    | Deregistering(who: Who, uuid: int)                // holds the client
    | InDeregister(who: Who)                            // holds the client, RPC in flight
    | StoppingListener(who: Who)
    | Choosing(who: Who, todo: set<nat>)
    | LockingPlugin(who: Who, todo: set<nat>, plugin: nat)
    | InPlugin(who: Who, todo: set<nat>, plugin: nat)
    | Closing(who: Who)                                 // holds the client
    | Clearing(who: Who)                                // holds the client, connection closed
    | Leaving(who: Who)
    | AwaitingWatcher(until: nat)
    | Dropped

  datatype WatcherPc =
    | NotStarted
    | Sleeping
    | Locking
    | Holding                                           // holds the client
    | Pinging                                           // holds the client, RPC in flight
    | Reporting                                         // holds the client
    | Finishing
    | Done

  /** The server's stop handle: not there yet, there, or used up. */
  datatype Listener = NotMade | Serving | Stopped

  datatype RunResult = StartFailed | Finished(signal: Signal)

  /** The server's record of itself, and of what it has told osquery and the plugins. */
  datatype Ledger = Ledger(
    runCalled: bool,
    result: Option<RunResult>,
    uuid: Option<int>,
    registered: Option<int>,
    deregistered: seq<int>,
    listener: Listener,
    notified: multiset<nat>)                            // plugins whose shutdown hook was called

  datatype Watch = Watch(
    at: WatcherPc,
    stop: bool,                                         // the ping-stop message was sent
    late: nat)                                          // pings begun after it

  datatype Client = Client(
    lock: Owner,
    cleared: bool,
    closed: bool)

  datatype Channel = Channel(
    queue: Option<Signal>,
    listening: bool,                                    // the receiving end still exists
    enqueued: seq<Signal>,
    origins: seq<Origin>,                               // who sent each of them
    received: Option<Signal>,
    senders: map<nat, Sender>)

  datatype Clock = Clock(
    now: nat,
    since: nat,                                         // when teardown began
    tried: nat,                                         // when the last bounded wait began
    inRpc: nat,                                         // time it spent inside the deregister RPC
    inPlugins: nat)                                     // time it spent waiting for or in plugins

  datatype State = State(
    pc: Pc,
    ledger: Ledger,
    watch: Watch,
    client: Client,
    channel: Channel,
    busy: set<nat>,                                     // plugins locked by a request
    clock: Clock)

  datatype Label =
    | CallRun
    | CallShutdown
    | CallDrop
    | RegisterReply(uuid: Option<int>)
    | ListenerMade(ok: bool)
    | Next
    | Pick(plugin: nat)
    | DeregisterReply
    | PluginReturns
    | PingDue
    | WatcherNext
    | PingReply(ok: bool)
    | Send(id: nat, signal: Signal)
    | TrySend(id: nat, signal: Signal)
    | Resume(id: nat)
    | CallBegins(plugin: nat)
    | CallEnds(plugin: nat)
    | Tick

  function Init(): State {
    State(Idle, Ledger(false, None, None, None, [], NotMade, multiset{}), Watch(NotStarted, false, 0),
          Client(Free, false, false), Channel(None, true, [], [], None, map[]), {}, Clock(0, 0, 0, 0, 0))
  }

  // ------------------------------------------------------------------ the client and the channel

  function Locked(client: Client, owner: Owner): Client {
    client.(lock := owner)
  }

  function Enqueue(ch: Channel, m: Signal, who: Origin): Channel {
    ch.(queue := Some(m), enqueued := ch.enqueued + [m], origins := ch.origins + [who])
  }

  function Hangup(ch: Channel): Channel {
    ch.(listening := false, queue := None)
  }

  /** One attempt to send; `otherwise` is the sender's state when the channel is full. */
  function Offer(ch: Channel, id: nat, m: Signal, otherwise: Sender): Channel {
    if !ch.listening then ch.(senders := ch.senders[id := Refused])
    else if ch.queue.None? then Enqueue(ch, m, BySender(id)).(senders := ch.senders[id := Sent(m)])
    else ch.(senders := ch.senders[id := otherwise])
  }

  // ------------------------------------------------------------------ the calling thread

  function BeginTeardown(s: State, pc: Pc): State {
    s.(pc := pc, clock := Clock(s.clock.now, s.clock.now, s.clock.now, 0, 0))
  }

  /** `run` returns; its receiver goes out of scope with whatever is still queued. */
  function EndRun(s: State, result: RunResult): State {
    s.(pc := Idle, ledger := s.ledger.(result := Some(result)), channel := Hangup(s.channel))
  }

  /** `run` up to the ping-stop message. */
  function RunNext(s: State): Option<State> {
    match s.pc
    case Starting =>
      if s.client.lock != Free then None
      else if s.client.cleared then Some(EndRun(s, StartFailed))
      else Some(s.(client := Locked(s.client, Caller), pc := Registering))
    case Receiving =>
      if s.channel.queue.None? then None
      else Some(BeginTeardown(s, StoppingPings).(channel := s.channel.(queue := None, received := s.channel.queue)))
    case StoppingPings => Some(s.(watch := s.watch.(stop := true), pc := Taking(InRun)))
    case _ => None
  }

  function Got(s: State): State
    requires s.pc.Polling?
  {
    s.(client := Locked(s.client, Caller),
       pc := if s.pc.goal.Close? then Closing(s.pc.who) else Deregistering(s.pc.who, s.pc.goal.uuid))
  }

  function GaveUp(s: State): State
    requires s.pc.Polling?
  {
    s.(pc := if s.pc.goal.Close? then Leaving(s.pc.who) else StoppingListener(s.pc.who))
  }

  /** The bounded attempt to lock the client. */
  function PollNext(s: State): Option<State> {
    match s.pc
    case Polling(who, goal, giveUp) =>
      if s.client.lock.Free? then Some(Got(s))
      else if s.clock.now >= giveUp then Some(GaveUp(s))
      else Some(s.(pc := Napping(who, goal, giveUp, s.clock.now + POLL)))
    case Napping(who, goal, giveUp, wake) =>
      if s.clock.now < wake then None else Some(s.(pc := Polling(who, goal, giveUp)))
    case _ => None
  }

  /** `shutdown` up to the loop over the plugins. */
  function DeregisterNext(c: Config, s: State): Option<State> {
    match s.pc
    case Taking(who) =>
      if s.ledger.uuid.None? then Some(s.(pc := Leaving(who)))
      else Some(s.(ledger := s.ledger.(uuid := None), clock := s.clock.(tried := s.clock.now),
                   pc := Polling(who, Deregister(s.ledger.uuid.value), s.clock.now + CLIENT_LOCK_DEADLINE)))
    case Deregistering(who, uuid) =>
      if s.client.cleared then Some(s.(client := Locked(s.client, Free), pc := StoppingListener(who)))
      else Some(s.(pc := InDeregister(who),
                   ledger := s.ledger.(deregistered := s.ledger.deregistered + [uuid])))
    case StoppingListener(who) =>
      Some(s.(pc := Choosing(who, c.plugins),
              ledger := s.ledger.(listener := if s.ledger.listener.Serving? then Stopped else s.ledger.listener)))
    case _ => None
  }

  /** The loop over the plugins, in any order, and what follows it. */
  function NotifyNext(c: Config, s: State): Option<State> {
    match s.pc
    case Choosing(who, todo) =>
      if todo != {} then None
      else if c.owned then
        Some(s.(pc := Polling(who, Close, s.clock.now + CLIENT_LOCK_DEADLINE), clock := s.clock.(tried := s.clock.now)))
      else Some(s.(pc := Leaving(who)))
    case LockingPlugin(who, todo, plugin) =>
      if plugin in s.busy then None
      else Some(s.(pc := InPlugin(who, todo, plugin),
                   ledger := s.ledger.(notified := s.ledger.notified + multiset{plugin})))
    case _ => None
  }

  /** Closing an owned client, and leaving `shutdown`. */
  function LeaveNext(s: State): Option<State> {
    match s.pc
    case Closing(who) => Some(s.(pc := Clearing(who),
        client := s.client.(closed := s.client.closed || !s.client.cleared)))
    case Clearing(who) => Some(s.(pc := Leaving(who), client := Locked(s.client, Free).(cleared := true)))
    case Leaving(who) =>
      (match who
       case InRun => Some(s.(pc := AwaitingWatcher(s.clock.now + CLIENT_LOCK_DEADLINE),
                             clock := s.clock.(tried := s.clock.now)))
       case InShutdown => Some(s.(pc := Idle))
       case InDrop => Some(s.(pc := Dropped, channel := Hangup(s.channel))))
    case AwaitingWatcher(until) =>
      if (s.watch.at.Done? || s.clock.now >= until) && s.channel.received.Some?
      then Some(EndRun(s, Finished(s.channel.received.value))) else None
    case _ => None
  }

  /** What the calling thread does next of its own accord, if it is not blocked. */
  function CallerNext(c: Config, s: State): Option<State> {
    if s.pc.Starting? || s.pc.Receiving? || s.pc.StoppingPings? then RunNext(s)
    else if s.pc.Polling? || s.pc.Napping? then PollNext(s)
    else if s.pc.Choosing? || s.pc.LockingPlugin? then NotifyNext(c, s)
    else if s.pc.Taking? || s.pc.Deregistering? || s.pc.StoppingListener? then DeregisterNext(c, s)
    else LeaveNext(s)
  }

  function ApiStep(s: State, l: Label): Option<State> {
    match l
    case CallRun =>
      if !s.pc.Idle? then None
      else if s.ledger.runCalled then Some(s)
      else Some(s.(pc := Starting, ledger := s.ledger.(runCalled := true)))
    case CallShutdown => if s.pc.Idle? then Some(BeginTeardown(s, Taking(InShutdown))) else None
    case CallDrop => if s.pc.Idle? then Some(BeginTeardown(s, Taking(InDrop))) else None
    case RegisterReply(uuid) =>
      if !s.pc.Registering? then None
      else if uuid.None? then Some(EndRun(s.(client := Locked(s.client, Free)), StartFailed))
      else Some(s.(client := Locked(s.client, Free), pc := Registered,
                   ledger := s.ledger.(uuid := uuid, registered := uuid)))
    case ListenerMade(ok) =>
      if !s.pc.Registered? then None
      else if ok then Some(s.(pc := Receiving, watch := s.watch.(at := Sleeping),
          ledger := s.ledger.(listener := Serving)))
      else Some(EndRun(s, StartFailed))
    case _ => None
  }

  function ReplyStep(s: State, l: Label): Option<State> {
    match l
    case Pick(p) =>
      if s.pc.Choosing? && p in s.pc.todo then Some(s.(pc := LockingPlugin(s.pc.who, s.pc.todo - {p}, p))) else None
    case DeregisterReply =>
      if s.pc.InDeregister? then Some(s.(client := Locked(s.client, Free), pc := StoppingListener(s.pc.who))) else None
    case PluginReturns =>
      if s.pc.InPlugin? then Some(s.(pc := Choosing(s.pc.who, s.pc.todo))) else None
    case _ => None
  }

  // ------------------------------------------------------------------ the ping watcher

  function WatchNext(s: State): Option<State> {
    match s.watch.at
    case Sleeping => if s.watch.stop then Some(s.(watch := s.watch.(at := Finishing))) else None
    case Locking =>
      if s.client.lock.Free?
          then Some(s.(client := Locked(s.client, Watcher), watch := s.watch.(at := Holding))) else None
    case Holding =>
      if s.client.cleared then Some(s.(client := Locked(s.client, Free), watch := s.watch.(at := Finishing)))
      else Some(s.(watch := s.watch.(at := Pinging, late := s.watch.late + (if s.watch.stop then 1 else 0))))
    case Reporting =>
      // The failure is sent while the client is still locked.
      if !s.channel.listening then Some(s.(client := Locked(s.client, Free), watch := s.watch.(at := Finishing)))
      else if s.channel.queue.Some? then None
      else Some(s.(client := Locked(s.client, Free), watch := s.watch.(at := Finishing),
                   channel := Enqueue(s.channel, Fault(0), ByWatcher)))
    case Finishing => Some(s.(watch := s.watch.(at := Done)))
    case _ => None
  }

  function WatcherStep(s: State, l: Label): Option<State> {
    match l
    case PingDue =>
      if s.watch.at.Sleeping? && !s.watch.stop then Some(s.(watch := s.watch.(at := Locking))) else None
    case PingReply(ok) =>
      if !s.watch.at.Pinging? then None
      else if ok then Some(s.(client := Locked(s.client, Free), watch := s.watch.(at := Sleeping)))
      else Some(s.(watch := s.watch.(at := Reporting)))
    case WatcherNext => WatchNext(s)
    case _ => None
  }

  // ------------------------------------------------------------------ senders, requests, time

  function SenderStep(s: State, l: Label): Option<State> {
    match l
    case Send(id, m) =>
      if id in s.channel.senders then None else Some(s.(channel := Offer(s.channel, id, m, Blocked(m))))
    case TrySend(id, m) =>
      if id in s.channel.senders then None else Some(s.(channel := Offer(s.channel, id, m, Refused)))
    case Resume(id) =>
      if id in s.channel.senders && s.channel.senders[id].Blocked? && (!s.channel.listening || s.channel.queue.None?)
      then Some(s.(channel := Offer(s.channel, id, s.channel.senders[id].signal, Refused))) else None
    case _ => None
  }

  /** Time may pass only while the calling thread has nothing to do. */
  predicate MayWait(c: Config, s: State) {
    match s.pc
    case Idle => true
    case Registering => true
    case Registered => true
    case Dropped => true
    case Receiving => s.channel.queue.None?
    case Starting => s.client.lock != Free
    case Napping(_, _, _, wake) => s.clock.now < wake + c.slack
    case InDeregister(_) => true
    case LockingPlugin(_, _, plugin) => plugin in s.busy
    case InPlugin(_, _, _) => true
    case AwaitingWatcher(until) => !s.watch.at.Done? && s.clock.now < until + c.slack
    case _ => false
  }

  function Elapse(s: State): Clock {
    s.clock.(now := s.clock.now + 1,
             inRpc := s.clock.inRpc + (if s.pc.InDeregister? then 1 else 0),
             inPlugins := s.clock.inPlugins + (if s.pc.LockingPlugin? || s.pc.InPlugin? then 1 else 0))
  }

  function WorldStep(c: Config, s: State, l: Label): Option<State> {
    match l
    case CallBegins(p) =>
      if p in s.busy || (s.pc.InPlugin? && s.pc.plugin == p) then None else Some(s.(busy := s.busy + {p}))
    case CallEnds(p) => if p in s.busy then Some(s.(busy := s.busy - {p})) else None
    case Tick => if MayWait(c, s) then Some(s.(clock := Elapse(s))) else None
    case _ => None
  }

  predicate OfWatcher(l: Label) { l.PingDue? || l.WatcherNext? || l.PingReply? }
  predicate OfSender(l: Label) { l.Send? || l.TrySend? || l.Resume? }
  predicate OfWorld(l: Label) { l.CallBegins? || l.CallEnds? || l.Tick? }
  predicate OfReply(l: Label) { l.Pick? || l.DeregisterReply? || l.PluginReturns? }

  function Step(c: Config, s: State, l: Label): Option<State> {
    if OfWatcher(l) then WatcherStep(s, l)
    else if OfSender(l) then SenderStep(s, l)
    else if OfWorld(l) then WorldStep(c, s, l)
    else if OfReply(l) then ReplyStep(s, l)
    else if l.Next? then CallerNext(c, s)
    else ApiStep(s, l)
  }

  function Exec(c: Config, s: State, run: seq<Label>): Option<State>
    decreases |run|
  {
    if run == [] then Some(s) else
      match Step(c, s, run[0])
      case None => None
      case Some(s') => Exec(c, s', run[1..])
  }
}
