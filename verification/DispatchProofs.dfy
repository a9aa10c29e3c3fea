/**
 No reachable state of the locks is a deadlock, and each plugin ends up as if its calls had been
 made one after another, in the order its lock was taken.
 */
module DispatchProofs {
  import opened Bytes
  import opened Dispatch

  // ------------------------------------------------------------------ who holds what

  predicate HoldsRegistry(th: Thread) {
    th.pc.InRegistry? || (Sweeps(th.task) && (th.pc.WantPlugin? || th.pc.InPlugin?))
  }

  predicate HoldsPlugin(th: Thread, p: nat) {
    th.pc.InPlugin? && th.pc.plugin == p
  }

  predicate PcInv<S, Q, R>(c: Config<S, Q, R>, th: Thread<Q, R>) {
    && (th.pc.InRegistry? ==> th.pc.todo <= c.plugins)
    && (th.pc.WantPlugin? || th.pc.InPlugin?
        ==> th.pc.plugin in c.plugins && th.pc.plugin !in th.pc.todo && th.pc.todo <= c.plugins)
    && (th.task.Request? ==> !th.pc.WantClient? && !th.pc.TryClient? && !th.pc.InClient?)
    && (th.task.Request? && (th.pc.WantPlugin? || th.pc.InPlugin?) ==> th.pc.plugin == th.task.item && th.pc.todo == {})
    && (th.task.Request? && th.pc.InRegistry? ==> th.pc.todo == c.plugins)
    && (th.task.Ping? ==> th.pc.WantClient? || th.pc.InClient? || th.pc.Done?)
    && (th.pc.TryClient? || (th.pc.InClient? && th.pc.onward) ==> th.task.Shutdown?)
  }

  ghost predicate RegistryInv<S, Q, R>(s: State<S, Q, R>) {
    && (s.registry.Some? ==> s.registry.value in s.threads && HoldsRegistry(s.threads[s.registry.value]))
    && (forall t :: t in s.threads && HoldsRegistry(s.threads[t]) ==> s.registry == Some(t))
  }

  ghost predicate PluginInv<S, Q, R>(s: State<S, Q, R>) {
    && (forall p :: p in s.locked ==> s.locked[p] in s.threads && HoldsPlugin(s.threads[s.locked[p]], p))
    && (forall t :: t in s.threads && s.threads[t].pc.InPlugin? ==>
          s.threads[t].pc.plugin in s.locked && s.locked[s.threads[t].pc.plugin] == t)
  }

  ghost predicate ClientInv<S, Q, R>(s: State<S, Q, R>) {
    && (s.client.Some? ==> s.client.value in s.threads && s.threads[s.client.value].pc.InClient?)
    && (forall t :: t in s.threads && s.threads[t].pc.InClient? ==> s.client == Some(t))
  }

  ghost predicate ThreadsInv<S, Q, R>(c: Config<S, Q, R>, s: State<S, Q, R>) {
    && s.log.Keys == c.plugins && s.store.Keys == c.plugins
    && (forall t :: t in s.threads ==> PcInv(c, s.threads[t]))
  }

  ghost predicate LocksInv<S, Q, R>(c: Config<S, Q, R>, s: State<S, Q, R>) {
    ThreadsInv(c, s) && RegistryInv(s) && PluginInv(s) && ClientInv(s)
  }

  /** What one thread's step does to a lock that one thread holds at a time. */
  predicate LockMove(before: Option<nat>, after: Option<nat>, t: nat, holds: bool) {
    if holds then after == Some(t) && (before.None? || before == Some(t))
    else after == if before == Some(t) then None else before
  }

  /** The steps of one thread, seen from the locks. */
  ghost predicate Moves<S, Q, R>(c: Config<S, Q, R>, s: State<S, Q, R>, s': State<S, Q, R>, t: nat) {
    && t in s.threads && t in s'.threads
    && s'.threads == s.threads[t := s'.threads[t]]
    && s'.threads[t].task == s.threads[t].task
    && PcInv(c, s'.threads[t])
    && s'.log.Keys == s.log.Keys && s'.store.Keys == s.store.Keys
    && LockMove(s.registry, s'.registry, t, HoldsRegistry(s'.threads[t]))
    && LockMove(s.client, s'.client, t, s'.threads[t].pc.InClient?)
    && PluginMove(s, s', t)
  }

  ghost predicate PluginMove<S, Q, R>(s: State<S, Q, R>, s': State<S, Q, R>, t: nat)
    requires t in s.threads && t in s'.threads
  {
    if s'.threads[t].pc.InPlugin? then
      && !s.threads[t].pc.InPlugin?
      && s'.threads[t].pc.plugin !in s.locked && s'.locked == s.locked[s'.threads[t].pc.plugin := t]
    else if s.threads[t].pc.InPlugin? then s'.locked == s.locked - {s.threads[t].pc.plugin}
    else s'.locked == s.locked
  }

  lemma AdvanceMoves<S, Q, R>(c: Config<S, Q, R>, s: State<S, Q, R>, t: nat)
    requires LocksInv(c, s) && t in s.threads && Advance(c, s, t).Some?
    ensures Moves(c, s, Advance(c, s, t).value, t)
  {
    assert PcInv(c, s.threads[t]);
    assert HoldsRegistry(s.threads[t]) ==> s.registry == Some(t);
    assert s.registry == Some(t) ==> HoldsRegistry(s.threads[t]);
    assert s.threads[t].pc.InClient? <==> s.client == Some(t);
    assert s.threads[t].pc.InPlugin? ==> s.threads[t].pc.plugin in c.plugins;
    hide RegistryInv, PluginInv, ClientInv, ThreadsInv;
    if s.threads[t].pc.WantRegistry? || s.threads[t].pc.InRegistry? {
      AdvanceInRegistry(c, s, t);
    } else if s.threads[t].pc.WantPlugin? || s.threads[t].pc.InPlugin? {
      AdvanceInPlugins(c, s, t);
    } else {
      assert s.threads[t].pc.WantClient? || s.threads[t].pc.TryClient? || s.threads[t].pc.InClient?;
      AdvanceInClient(c, s, t);
    }
  }

  lemma AdvanceInRegistry<S, Q, R>(c: Config<S, Q, R>, s: State<S, Q, R>, t: nat)
    requires t in s.threads && Advance(c, s, t).Some? && PcInv(c, s.threads[t])
    requires s.threads[t].pc.WantRegistry? || s.threads[t].pc.InRegistry?
    requires HoldsRegistry(s.threads[t]) <==> s.registry == Some(t)
    requires s.threads[t].pc.InClient? <==> s.client == Some(t)
    ensures Moves(c, s, Advance(c, s, t).value, t)
  {
  }

  lemma AdvanceInPlugins<S, Q, R>(c: Config<S, Q, R>, s: State<S, Q, R>, t: nat)
    requires t in s.threads && Advance(c, s, t).Some? && PcInv(c, s.threads[t])
    requires s.threads[t].pc.WantPlugin? || s.threads[t].pc.InPlugin?
    requires HoldsRegistry(s.threads[t]) <==> s.registry == Some(t)
    requires s.threads[t].pc.InClient? <==> s.client == Some(t)
    ensures Moves(c, s, Advance(c, s, t).value, t)
  {
  }

  lemma AdvanceInClient<S, Q, R>(c: Config<S, Q, R>, s: State<S, Q, R>, t: nat)
    requires t in s.threads && Advance(c, s, t).Some? && PcInv(c, s.threads[t])
    requires s.threads[t].pc.WantClient? || s.threads[t].pc.TryClient? || s.threads[t].pc.InClient?
    requires HoldsRegistry(s.threads[t]) <==> s.registry == Some(t)
    requires s.threads[t].pc.InClient? <==> s.client == Some(t)
    ensures Moves(c, s, Advance(c, s, t).value, t)
  {
  }

  lemma MoveKeepsLocks<S, Q, R>(c: Config<S, Q, R>, s: State<S, Q, R>, s': State<S, Q, R>, t: nat)
    requires LocksInv(c, s) && Moves(c, s, s', t)
    ensures LocksInv(c, s')
  {
    hide PcInv, HoldsRegistry;
  }

  lemma StepKeepsLocks<S, Q, R>(c: Config<S, Q, R>, s: State<S, Q, R>, l: Label<Q>)
    requires LocksInv(c, s) && Step(c, s, l).Some?
    ensures LocksInv(c, Step(c, s, l).value)
  {
    hide Advance;
    if l.Go? {
      hide LocksInv, Moves;
      AdvanceMoves(c, s, l.thread);
      MoveKeepsLocks(c, s, Step(c, s, l).value, l.thread);
    }
  }

  // ------------------------------------------------------------------ no deadlock

  /** The thread can take a step of its own. */
  ghost predicate CanGo<S, Q, R>(c: Config<S, Q, R>, s: State<S, Q, R>, t: nat) {
    Step(c, s, Go(t)).Some? || (exists p :: Step(c, s, Pick(t, p)).Some?)
  }

  /** Thread `t` is blocked on a lock that thread `u` holds. */
  predicate WaitsFor<S, Q, R>(s: State<S, Q, R>, t: nat, u: nat)
    requires t in s.threads
  {
    match s.threads[t].pc
    case WantRegistry => s.registry == Some(u)
    case WantPlugin(p, _) => p in s.locked && s.locked[p] == u
    case WantClient => s.client == Some(u)
    case _ => false
  }

  lemma Unblocked<S, Q, R>(c: Config<S, Q, R>, s: State<S, Q, R>, t: nat)
    requires LocksInv(c, s) && t in s.threads && !s.threads[t].pc.Done?
    ensures CanGo(c, s, t) || exists u :: u in s.threads && WaitsFor(s, t, u)
  {
    var pc := s.threads[t].pc;
    assert PcInv(c, s.threads[t]);
    if pc.InRegistry? && Sweeps(s.threads[t].task) && pc.todo != {} {
      var p :| p in pc.todo;
      assert Step(c, s, Pick(t, p)).Some?;
    } else if pc.WantRegistry? && s.registry.Some? {
      assert WaitsFor(s, t, s.registry.value);
    } else if pc.WantPlugin? && pc.plugin in s.locked {
      assert WaitsFor(s, t, s.locked[pc.plugin]);
    } else if pc.WantClient? && s.client.Some? {
      assert WaitsFor(s, t, s.client.value);
    } else {
      assert Step(c, s, Go(t)).Some?;
    }
  }

  lemma PluginHolderGoes<S, Q, R>(c: Config<S, Q, R>, s: State<S, Q, R>, t: nat, u: nat)
    requires LocksInv(c, s) && t in s.threads && u in s.threads && WaitsFor(s, t, u)
    requires !s.threads[t].pc.WantRegistry?
    ensures CanGo(c, s, u)
  {
    assert PcInv(c, s.threads[u]);
    assert Step(c, s, Go(u)).Some?;
  }

  lemma RegistryHolderWaits<S, Q, R>(c: Config<S, Q, R>, s: State<S, Q, R>, t: nat, u: nat)
    requires LocksInv(c, s) && t in s.threads && u in s.threads && WaitsFor(s, t, u)
    ensures !s.threads[u].pc.WantRegistry? && !s.threads[u].pc.Done?
  {
    assert s.threads[t].pc.WantRegistry? ==> HoldsRegistry(s.threads[u]);
  }

  /**
   In every reachable state each unfinished thread can go on, or waits for one that can, or waits for
   one that waits for one that can: no circle of waiting threads, however many there are.
   */
  lemma NoDeadlock<S, Q, R>(c: Config<S, Q, R>, run: seq<Label<Q>>, t: nat)
    requires Exec(c, Init(c), run).Some?
    requires var s := Exec(c, Init(c), run).value; t in s.threads && !s.threads[t].pc.Done?
    ensures var s := Exec(c, Init(c), run).value;
            || CanGo(c, s, t)
            || (exists u :: u in s.threads && WaitsFor(s, t, u) && CanGo(c, s, u))
            || (exists u, v ::
                  u in s.threads && v in s.threads && WaitsFor(s, t, u) && WaitsFor(s, u, v) && CanGo(c, s, v))
  {
    var s := Exec(c, Init(c), run).value;
    Reached(c, run);
    Unblocked(c, s, t);
    hide LocksInv, CanGo, WaitsFor, Exec;
    if !CanGo(c, s, t) {
      var u :| u in s.threads && WaitsFor(s, t, u);
      RegistryHolderWaits(c, s, t, u);
      Unblocked(c, s, u);
      if !CanGo(c, s, u) {
        var v :| v in s.threads && WaitsFor(s, u, v);
        PluginHolderGoes(c, s, u, v);
      }
    }
  }

  lemma {:induction false} ExecKeepsLocks<S, Q, R>(c: Config<S, Q, R>, s: State<S, Q, R>, run: seq<Label<Q>>)
    requires LocksInv(c, s) && Exec(c, s, run).Some?
    ensures LocksInv(c, Exec(c, s, run).value)
    decreases |run|
  {
    hide LocksInv, Step;
    if run != [] {
      StepKeepsLocks(c, s, run[0]);
      ExecKeepsLocks(c, Step(c, s, run[0]).value, run[1..]);
    }
  }

  lemma Reached<S, Q, R>(c: Config<S, Q, R>, run: seq<Label<Q>>)
    requires Exec(c, Init(c), run).Some?
    ensures LocksInv(c, Exec(c, Init(c), run).value)
  {
    assert LocksInv(c, Init(c));
    ExecKeepsLocks(c, Init(c), run);
  }
}
