/**
 The registry, plugin and client locks, and the threads that take them: any number of requests,
 registry descriptions, shutdowns and pings at once. Plugin code and RPCs return; locks may block.
 */
module Dispatch {
  import opened Bytes

  /** What a thread does with a plugin while it holds its lock. */
  datatype Op<Q> = Call(request: Q) | Describe | Hook

  datatype Config<!S, !Q, !R> = Config(
    plugins: set<nat>,
    initial: nat -> S,
    apply: (nat, S, Op<Q>) -> (S, R))

  datatype Task<Q> =
    | Request(item: nat, request: Q)      // `handle_call`
    | Register                            // `gen_registry`, then the registration RPC
    | Shutdown                            // deregister, then every plugin's hook, then close
    | Ping

  datatype Pc<R> =
    | WantRegistry
    | InRegistry(todo: set<nat>)          // holds the registry
    | WantPlugin(plugin: nat, todo: set<nat>)
    | InPlugin(plugin: nat, todo: set<nat>, at: nat)
    | WantClient
    | TryClient(onward: bool)               // the bounded attempt; `onward` if the plugins come next
    | InClient(onward: bool)
    | Done(reply: Option<R>, at: nat)

  datatype Thread<Q, R> = Thread(task: Task<Q>, pc: Pc<R>)

  datatype Entry<Q> = Entry(thread: nat, op: Op<Q>)

  datatype State<S, Q, R> = State(
    threads: map<nat, Thread<Q, R>>,
    registry: Option<nat>,                // the thread that holds each lock
    locked: map<nat, nat>,
    client: Option<nat>,
    store: map<nat, S>,
    log: map<nat, seq<Entry<Q>>>,         // per plugin, in the order its lock was taken
    rpcs: seq<nat>,                       // the threads that used the client, in order
    tries: seq<nat>)                      // those that made a bounded attempt to lock it, in order

  datatype Label<Q> = Spawn(thread: nat, task: Task<Q>) | Go(thread: nat) | Pick(thread: nat, plugin: nat)

  function Init<S, Q, R>(c: Config<S, Q, R>): State<S, Q, R> {
    State(map[], None, map[], None, map p | p in c.plugins :: c.initial(p), map p | p in c.plugins :: [], [], [])
  }

  function First<Q, R>(task: Task<Q>): Pc<R> {
    match task
    case Request(_, _) => WantRegistry
    case Register => WantRegistry
    case Shutdown => TryClient(true)
    case Ping => WantClient
  }

  function OpOf<Q>(task: Task<Q>): Op<Q> {
    match task
    case Request(_, q) => Call(q)
    case Register => Describe
    case _ => Hook
  }

  /** Whether a thread of this kind keeps the registry locked while it is in a plugin. */
  predicate Sweeps(task: Task) { task.Register? || task.Shutdown? }

  function Put<S, Q, R>(s: State<S, Q, R>, t: nat, pc: Pc<R>): State<S, Q, R>
    requires t in s.threads
  {
    s.(threads := s.threads[t := s.threads[t].(pc := pc)])
  }

  /** With the registry locked: look the plugin up and let go, or go on to the next plugin. */
  function Looked<S, Q, R>(c: Config<S, Q, R>, s: State<S, Q, R>, t: nat): Option<State<S, Q, R>>
    requires t in s.threads && s.threads[t].pc.InRegistry?
  {
    match s.threads[t].task
    case Request(item, _) =>
      Some(Put(s, t, if item in c.plugins then WantPlugin(item, {}) else Done(None, 0)).(registry := None))
    case task =>
      if s.threads[t].pc.todo != {} then None
      else Some(Put(s, t, if task.Shutdown? then TryClient(false) else WantClient).(registry := None))
  }

  function Entered<S, Q, R>(s: State<S, Q, R>, t: nat, p: nat): State<S, Q, R>
    requires t in s.threads && s.threads[t].pc.WantPlugin? && p in s.log
  {
    Put(s, t, InPlugin(p, s.threads[t].pc.todo, |s.log[p]|))
      .(locked := s.locked[p := t], log := s.log[p := s.log[p] + [Entry(t, OpOf(s.threads[t].task))]])
  }

  /** The plugin's code returns and its lock is released. */
  function Returned<S, Q, R>(c: Config<S, Q, R>, s: State<S, Q, R>, t: nat): State<S, Q, R>
    requires t in s.threads && s.threads[t].pc.InPlugin? && s.threads[t].pc.plugin in s.store
  {
    var pc := s.threads[t].pc;
    var (state, reply) := c.apply(pc.plugin, s.store[pc.plugin], OpOf(s.threads[t].task));
    var next := if Sweeps(s.threads[t].task) then InRegistry(pc.todo) else Done(Some(reply), pc.at);
    Put(s, t, next).(store := s.store[pc.plugin := state], locked := s.locked - {pc.plugin})
  }

  /** The client's lock is taken, and an RPC issued. */
  function Connected<S, Q, R>(s: State<S, Q, R>, t: nat, onward: bool): State<S, Q, R>
    requires t in s.threads
  {
    Put(s, t, InClient(onward)).(client := Some(t), rpcs := s.rpcs + [t])
  }

  function Tried<S, Q, R>(s: State<S, Q, R>, t: nat): State<S, Q, R> {
    s.(tries := s.tries + [t])
  }

  function Advance<S, Q, R>(c: Config<S, Q, R>, s: State<S, Q, R>, t: nat): Option<State<S, Q, R>>
    requires t in s.threads
  {
    match s.threads[t].pc
    case WantRegistry => if s.registry.Some? then None else Some(Put(s, t, InRegistry(c.plugins)).(registry := Some(t)))
    case InRegistry(_) => Looked(c, s, t)
    case WantPlugin(p, _) => if p in s.locked || p !in s.log then None else Some(Entered(s, t, p))
    case InPlugin(p, _, _) => if p !in s.store then None else Some(Returned(c, s, t))
    case WantClient => if s.client.Some? then None else Some(Connected(s, t, false))
    case TryClient(onward) =>
      if s.client.Some? then Some(Tried(Put(s, t, if onward then WantRegistry else Done(None, 0)), t))
      else Some(Tried(Connected(s, t, onward), t))
    case InClient(onward) => Some(Put(s, t, if onward then WantRegistry else Done(None, 0)).(client := None))
    case Done(_, _) => None
  }

  function Step<S, Q, R>(c: Config<S, Q, R>, s: State<S, Q, R>, l: Label<Q>): Option<State<S, Q, R>> {
    match l
    case Spawn(t, task) =>
      if t in s.threads then None else Some(s.(threads := s.threads[t := Thread(task, First(task))]))
    case Go(t) => if t in s.threads then Advance(c, s, t) else None
    case Pick(t, p) =>
      if t in s.threads && s.threads[t].pc.InRegistry? && Sweeps(s.threads[t].task) && p in s.threads[t].pc.todo
      then Some(Put(s, t, WantPlugin(p, s.threads[t].pc.todo - {p}))) else None
  }

  function Exec<S, Q, R>(c: Config<S, Q, R>, s: State<S, Q, R>, run: seq<Label<Q>>): Option<State<S, Q, R>>
    decreases |run|
  {
    if run == [] then Some(s) else
      match Step(c, s, run[0])
      case None => None
      case Some(s') => Exec(c, s', run[1..])
  }
}
