/**
 What each kind of thread does with the locks it takes: describe, call or hook in the plugins, and one or
 two uses of the client before or after them.
 */
module DispatchUses {
  import opened Bytes
  import opened Dispatch
  import opened DispatchProofs
  import opened DispatchOrder

  // ------------------------------------------------------------------ in the plugins

  /** A registration describes, a shutdown hooks, a request makes the call it carries. */
  predicate Fitting<Q(==)>(task: Task<Q>, op: Op<Q>) {
    && (op.Describe? <==> task.Register?)
    && (op.Hook? <==> task.Shutdown?)
    && (op.Call? <==> task.Request?)
    && (op.Call? ==> op.request == task.request)
  }

  predicate OpsInv<S, Q(==), R>(s: State<S, Q, R>) {
    forall p, i {:trigger s.log[p][i]} | p in s.log && 0 <= i < |s.log[p]| ::
      s.log[p][i].thread in s.threads && Fitting(s.threads[s.log[p][i].thread].task, s.log[p][i].op)
  }

  lemma EntersKeepsOps<S, Q, R>(c: Config<S, Q, R>, s: State<S, Q, R>, s': State<S, Q, R>, t: nat, p: nat)
    requires OpsInv(s) && Enters(c, s, s', t, p)
    ensures OpsInv(s')
  {
    var th := s.threads[t];
    assert Fitting(th.task, OpOf(th.task));
    hide MayEnter, Fitting;
    forall q, i | q in s'.log && 0 <= i < |s'.log[q]|
      ensures s'.log[q][i].thread in s'.threads && Fitting(s'.threads[s'.log[q][i].thread].task, s'.log[q][i].op)
    {
      if i < |s.log[q]| {
        assert s'.log[q][i] == s.log[q][i];
      }
    }
  }

  lemma QuietKeepsOps<S, Q, R>(s: State<S, Q, R>, s': State<S, Q, R>, t: nat)
    requires OpsInv(s) && s'.log == s.log && t in s'.threads && s'.threads == s.threads[t := s'.threads[t]]
    requires t in s.threads ==> s'.threads[t].task == s.threads[t].task
    ensures OpsInv(s')
  {
    hide Fitting;
    forall q, i | q in s'.log && 0 <= i < |s'.log[q]|
      ensures s'.log[q][i].thread in s'.threads && Fitting(s'.threads[s'.log[q][i].thread].task, s'.log[q][i].op)
    {
      assert s'.log[q][i] == s.log[q][i];
    }
  }

  lemma StepKeepsOps<S, Q, R>(c: Config<S, Q, R>, s: State<S, Q, R>, l: Label<Q>)
    requires LocksInv(c, s) && OpsInv(s) && Step(c, s, l).Some?
    ensures OpsInv(Step(c, s, l).value)
  {
    var t := l.thread;
    var s' := Step(c, s, l).value;
    assert s.log.Keys == c.plugins && (t in s.threads ==> PcInv(c, s.threads[t]));
    hide Step, LocksInv, PcInv, OpsInv;
    if t in s.threads && s.threads[t].pc.WantPlugin? {
      StepEnters(c, s, l);
      hide Enters;
      EntersKeepsOps(c, s, s', t, s.threads[t].pc.plugin);
    } else {
      if t in s.threads && s.threads[t].pc.InPlugin? {
        StepLeaves(c, s, l);
      } else {
        StepPasses(c, s, l);
      }
      hide MayEnter, Visits;
      QuietKeepsOps(s, s', t);
    }
  }

  // ------------------------------------------------------------------ of the client

  function Uses(rpcs: seq<nat>, t: nat): nat {
    multiset(rpcs)[t]
  }

  /** How often a thread of this kind has used the client by now. */
  predicate UsesFit(th: Thread, uses: nat) {
    match th.task
    case Request(_, _) => uses == 0
    case Ping => uses == if th.pc.WantClient? then 0 else 1
    case Register => uses == if th.pc.InClient? || th.pc.Done? then 1 else 0
    case Shutdown =>
      match th.pc
      case TryClient(onward) => uses <= if onward then 0 else 1
      case InClient(onward) => 1 <= uses <= if onward then 1 else 2
      case Done(_, _) => uses <= 2
      case _ => uses <= 1
  }

  /** How often it has made a bounded attempt at it. */
  predicate TriesFit(th: Thread, tries: nat) {
    if !th.task.Shutdown? then tries == 0 else
      match th.pc
      case TryClient(onward) => tries == if onward then 0 else 1
      case InClient(onward) => tries == if onward then 1 else 2
      case Done(_, _) => tries == 2
      case WantClient => false
      case _ => tries == 1
  }

  predicate CountsFit<S, Q, R>(s: State<S, Q, R>, t: nat)
    requires t in s.threads
  {
    UsesFit(s.threads[t], Uses(s.rpcs, t)) && TriesFit(s.threads[t], Uses(s.tries, t))
  }

  predicate UsesInv<S, Q, R>(s: State<S, Q, R>) {
    && (forall t | t in s.threads :: CountsFit(s, t))
    && (forall t | t in s.rpcs :: t in s.threads) && (forall t | t in s.tries :: t in s.threads)
  }

  lemma UsedOnceMore(rpcs: seq<nat>, t: nat)
    ensures forall u :: Uses(rpcs + [t], u) == Uses(rpcs, u) + if u == t then 1 else 0
  {
  }

  /** One thread moves, and the client is tried and used by it or not at all. */
  ghost predicate MovesWithin<S, Q, R>(s: State<S, Q, R>, s': State<S, Q, R>, t: nat) {
    && t in s'.threads && s'.threads == s.threads[t := s'.threads[t]]
    && (s'.rpcs == s.rpcs || s'.rpcs == s.rpcs + [t])
    && (s'.tries == s.tries || s'.tries == s.tries + [t])
    && CountsFit(s', t)
  }

  predicate AtClient<R>(pc: Pc<R>) {
    pc.WantClient? || pc.TryClient? || pc.InClient?
  }

  lemma ClientGoUses<S, Q, R>(c: Config<S, Q, R>, s: State<S, Q, R>, t: nat)
    requires t in s.threads && Advance(c, s, t).Some? && PcInv(c, s.threads[t]) && CountsFit(s, t)
    requires AtClient(s.threads[t].pc)
    ensures MovesWithin(s, Advance(c, s, t).value, t)
  {
    UsedOnceMore(s.rpcs, t);
    UsedOnceMore(s.tries, t);
    hide Uses;
  }

  lemma OtherGoUses<S, Q, R>(c: Config<S, Q, R>, s: State<S, Q, R>, t: nat)
    requires t in s.threads && Advance(c, s, t).Some? && PcInv(c, s.threads[t]) && CountsFit(s, t)
    requires !AtClient(s.threads[t].pc)
    ensures MovesWithin(s, Advance(c, s, t).value, t)
  {
    hide Uses;
  }

  lemma StepUses<S, Q, R>(c: Config<S, Q, R>, s: State<S, Q, R>, l: Label<Q>)
    requires Step(c, s, l).Some? && (l.thread in s.threads ==> PcInv(c, s.threads[l.thread]))
    requires l.thread in s.threads ==> CountsFit(s, l.thread)
    requires l.thread !in s.threads ==> Uses(s.rpcs, l.thread) == 0 && Uses(s.tries, l.thread) == 0
    ensures MovesWithin(s, Step(c, s, l).value, l.thread)
  {
    hide Uses, Advance, PcInv;
    match l
    case Go(t) =>
      hide MovesWithin, CountsFit;
      if AtClient(s.threads[t].pc) {
        ClientGoUses(c, s, t);
      } else {
        OtherGoUses(c, s, t);
      }
    case _ =>
  }

  lemma MovesKeepUses<S, Q, R>(s: State<S, Q, R>, s': State<S, Q, R>, t: nat)
    requires UsesInv(s) && MovesWithin(s, s', t)
    ensures UsesInv(s')
  {
    UsedOnceMore(s.rpcs, t);
    UsedOnceMore(s.tries, t);
    hide Uses, UsesFit, TriesFit;
    forall u | u in s'.threads ensures CountsFit(s', u) {
      if u != t {
        assert s'.threads[u] == s.threads[u] && CountsFit(s, u);
        assert Uses(s'.rpcs, u) == Uses(s.rpcs, u) && Uses(s'.tries, u) == Uses(s.tries, u);
      }
    }
  }

  lemma StepKeepsUses<S, Q, R>(c: Config<S, Q, R>, s: State<S, Q, R>, l: Label<Q>)
    requires LocksInv(c, s) && UsesInv(s) && Step(c, s, l).Some?
    ensures UsesInv(Step(c, s, l).value)
  {
    assert l.thread in s.threads ==> PcInv(c, s.threads[l.thread]) && CountsFit(s, l.thread);
    assert l.thread !in s.threads ==> Uses(s.rpcs, l.thread) == 0 && Uses(s.tries, l.thread) == 0;
    hide LocksInv, PcInv, Uses, CountsFit, UsesInv, MovesWithin, Step;
    StepUses(c, s, l);
    MovesKeepUses(s, Step(c, s, l).value, l.thread);
  }

  // ------------------------------------------------------------------ over whole runs

  lemma {:induction false} ExecKeepsUses<S, Q, R>(c: Config<S, Q, R>, s: State<S, Q, R>, run: seq<Label<Q>>)
    requires LocksInv(c, s) && OpsInv(s) && UsesInv(s) && Exec(c, s, run).Some?
    ensures OpsInv(Exec(c, s, run).value) && UsesInv(Exec(c, s, run).value)
    decreases |run|
  {
    hide LocksInv, OpsInv, UsesInv, Step;
    if run != [] {
      StepKeepsLocks(c, s, run[0]);
      StepKeepsOps(c, s, run[0]);
      StepKeepsUses(c, s, run[0]);
      ExecKeepsUses(c, Step(c, s, run[0]).value, run[1..]);
    }
  }

  lemma ReachedUses<S, Q, R>(c: Config<S, Q, R>, run: seq<Label<Q>>)
    requires Exec(c, Init(c), run).Some?
    ensures OpsInv(Exec(c, Init(c), run).value) && UsesInv(Exec(c, Init(c), run).value)
  {
    assert LocksInv(c, Init(c)) && OpsInv(Init(c)) && UsesInv(Init(c));
    hide LocksInv, OpsInv, UsesInv;
    ExecKeepsUses(c, Init(c), run);
  }

  /** Whatever was done in a plugin was done by a thread of the kind that does it, with its own request. */
  lemma OperationsFitTheirThreads<S, Q, R>(c: Config<S, Q, R>, run: seq<Label<Q>>, p: nat, i: nat)
    requires Exec(c, Init(c), run).Some?
    requires p in Exec(c, Init(c), run).value.log && i < |Exec(c, Init(c), run).value.log[p]|
    ensures var s := Exec(c, Init(c), run).value;
            var e := s.log[p][i];
            && e.thread in s.threads
            && match s.threads[e.thread].task
               case Request(item, q) => item == p && e.op == Call(q)
               case Register => e.op == Describe
               case Shutdown => e.op == Hook
               case Ping => false
  {
    ReachedUses(c, run);
    ReachedOrder(c, run);
    hide LocksInv, StoreInv, ThreadInv, UsesInv, Exec;
  }

  /**
   A finished registration has described every plugin, exactly once and before it used the client, once;
   a finished shutdown has hooked every plugin, exactly once. Neither does anything else to any of them.
   */
  lemma SweepsVisitEveryPlugin<S, Q, R>(c: Config<S, Q, R>, run: seq<Label<Q>>, t: nat, p: nat)
    requires Exec(c, Init(c), run).Some?
    requires var s := Exec(c, Init(c), run).value; t in s.threads && Sweeps(s.threads[t].task) && p in c.plugins
    ensures var s := Exec(c, Init(c), run).value;
            var op := if s.threads[t].task.Register? then Describe else Hook;
            && p in s.log
            && (s.threads[t].pc.Done? || (s.threads[t].task.Register? && t in s.rpcs) ==>
                  exists i :: 0 <= i < |s.log[p]| && s.log[p][i] == Entry(t, op))
            && (forall i | 0 <= i < |s.log[p]| :: s.log[p][i].thread == t ==> s.log[p][i].op == op)
            && (forall i, j | 0 <= i < j < |s.log[p]| :: !(s.log[p][i].thread == s.log[p][j].thread == t))
  {
    ReachedUses(c, run);
    ReachedOrder(c, run);
    var s := Exec(c, Init(c), run).value;
    assert p in s.log;
    assert CountsFit(s, t);
    hide LocksInv, StoreInv, ThreadInv, Exec;
    if s.threads[t].pc.Done? || (s.threads[t].task.Register? && t in s.rpcs) {
      assert !MayEnter(s.threads[t], p);
      assert Appears(s.log[p], t);
      var i :| 0 <= i < |s.log[p]| && s.log[p][i].thread == t;
      assert Fitting(s.threads[t].task, s.log[p][i].op);
    }
  }

  /** A plugin has been hooked exactly if a shutdown stands in its order. */
  lemma HookedIffShutDown<S, Q, R>(c: Config<S, Q, R>, run: seq<Label<Q>>, p: nat)
    requires Exec(c, Init(c), run).Some? && p in Exec(c, Init(c), run).value.log
    ensures var s := Exec(c, Init(c), run).value;
            && (forall i | 0 <= i < |s.log[p]| :: s.log[p][i].thread in s.threads)
            && ((exists i | 0 <= i < |s.log[p]| :: s.log[p][i].op.Hook?) <==>
                exists i | 0 <= i < |s.log[p]| :: s.threads[s.log[p][i].thread].task.Shutdown?)
  {
    ReachedUses(c, run);
  }

  /**
   A finished registration or ping has used the client once. A finished shutdown has gone for it twice
   and used it at most twice. No request has.
   */
  lemma ClientUses<S, Q, R>(c: Config<S, Q, R>, run: seq<Label<Q>>, t: nat)
    requires Exec(c, Init(c), run).Some? && t in Exec(c, Init(c), run).value.threads
    ensures var s := Exec(c, Init(c), run).value;
            var th, uses, tries := s.threads[t], Uses(s.rpcs, t), Uses(s.tries, t);
            && (th.pc.Done? && (th.task.Register? || th.task.Ping?) ==> uses == 1)
            && (th.pc.Done? && th.task.Shutdown? ==> tries == 2)
            && uses <= (if th.task.Shutdown? then tries else 1)
            && (th.task.Request? ==> uses == 0)
  {
    ReachedUses(c, run);
    var s := Exec(c, Init(c), run).value;
    assert CountsFit(s, t);
    Reached(c, run);
    assert PcInv(c, s.threads[t]);
    hide LocksInv, OpsInv, Exec, Uses;
  }

  /** A shutdown is in no plugin before it first went for the client, and has left all before the second time. */
  lemma HooksBetweenAttempts<S, Q, R>(c: Config<S, Q, R>, run: seq<Label<Q>>, t: nat, p: nat)
    requires Exec(c, Init(c), run).Some?
    requires var s := Exec(c, Init(c), run).value; t in s.threads && s.threads[t].task.Shutdown? && p in c.plugins
    ensures var s := Exec(c, Init(c), run).value;
            && p in s.log
            && (Uses(s.tries, t) == 0 ==> !Appears(s.log[p], t))
            && (Uses(s.tries, t) == 2 ==> Appears(s.log[p], t))
  {
    ReachedUses(c, run);
    ReachedOrder(c, run);
    hide LocksInv, StoreInv, ThreadInv, OpsInv, Exec;
    BetweenAttempts(c, Exec(c, Init(c), run).value, t, p);
  }

  lemma BetweenAttempts<S, Q, R>(c: Config<S, Q, R>, s: State<S, Q, R>, t: nat, p: nat)
    requires VisitInv(c, s) && UsesInv(s) && t in s.threads && s.threads[t].task.Shutdown? && p in c.plugins
    ensures p in s.log
    ensures Uses(s.tries, t) == 0 ==> !Appears(s.log[p], t)
    ensures Uses(s.tries, t) == 2 ==> Appears(s.log[p], t)
  {
    assert CountsFit(s, t) && p in s.log;
    hide Uses, UsesInv, UsesFit;
    if Uses(s.tries, t) == 0 {
      assert MayEnter(s.threads[t], p);
    }
  }

  /** A shutdown goes without the client only when another thread has it at that moment. */
  lemma GoneWithoutOnlyIfHeld<S, Q, R>(c: Config<S, Q, R>, run: seq<Label<Q>>, t: nat)
    requires Exec(c, Init(c), run).Some?
    requires var s := Exec(c, Init(c), run).value;
             t in s.threads && s.threads[t].pc.TryClient? && Step(c, s, Go(t)).Some?
    ensures var s := Exec(c, Init(c), run).value;
            var s' := Step(c, s, Go(t)).value;
            s'.rpcs == s.rpcs + [t] || exists u :: u != t && u in s.threads && s.threads[u].pc.InClient?
  {
    Reached(c, run);
    var s := Exec(c, Init(c), run).value;
    if s.client.Some? {
      assert s.client.value in s.threads && s.threads[s.client.value].pc.InClient?;
    }
  }
}
