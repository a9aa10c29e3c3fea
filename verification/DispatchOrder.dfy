/**
 What concurrency does to the plugins: nothing that a single thread, serving the same operations in
 the order the locks were taken, would not do.
 */
module DispatchOrder {
  import opened Bytes
  import opened Dispatch
  import opened DispatchProofs

  /** The plugin's state after serving these operations one after another. */
  function Fold<S, Q, R>(c: Config<S, Q, R>, p: nat, entries: seq<Entry<Q>>): S
    decreases |entries|
  {
    if entries == [] then c.initial(p)
    else c.apply(p, Fold(c, p, entries[..|entries| - 1]), entries[|entries| - 1].op).0
  }

  /** Its reply to the operation at this position. */
  function ReplyAt<S, Q, R>(c: Config<S, Q, R>, p: nat, entries: seq<Entry<Q>>, at: nat): R
    requires at < |entries|
  {
    c.apply(p, Fold(c, p, entries[..at]), entries[at].op).1
  }

  predicate Visits(task: Task, p: nat) {
    match task
    case Request(item, _) => p == item
    case Register => true
    case Shutdown => true
    case Ping => false
  }

  /** The thread has yet to take this plugin's lock. */
  predicate MayEnter(th: Thread, p: nat) {
    Visits(th.task, p) &&
    match th.pc
    case WantRegistry => true
    case InRegistry(todo) => p in todo
    case WantPlugin(q, todo) => p == q || p in todo
    case InPlugin(_, todo, _) => p in todo
    case TryClient(onward) => onward
    case InClient(onward) => onward
    case WantClient => false
    case Done(_, _) => false
  }

  /** The operations that are over: all but the one whose thread still holds the lock. */
  function Settled<S, Q, R>(s: State<S, Q, R>, p: nat): seq<Entry<Q>>
    requires p in s.log
  {
    if p in s.locked && s.log[p] != [] then s.log[p][..|s.log[p]| - 1] else s.log[p]
  }

  ghost predicate StoreInv<S, Q, R>(c: Config<S, Q, R>, s: State<S, Q, R>) {
    && s.log.Keys == c.plugins && s.store.Keys == c.plugins && s.locked.Keys <= c.plugins
    && (forall p :: p in c.plugins ==> s.store[p] == Fold(c, p, Settled(s, p)))
    && (forall p :: p in s.locked ==> s.log[p] != [])
  }

  ghost predicate ThreadInv<S, Q, R>(c: Config<S, Q, R>, s: State<S, Q, R>, t: nat)
    requires t in s.threads
  {
    var th := s.threads[t];
    && (th.pc.InPlugin? ==>
          && th.pc.plugin in s.log && |s.log[th.pc.plugin]| == th.pc.at + 1
          && s.log[th.pc.plugin][th.pc.at] == Entry(t, OpOf(th.task)))
    && (th.task.Request? && th.pc.Done? ==>
          if th.task.item in c.plugins then
            && th.task.item in s.log && th.pc.at < |s.log[th.task.item]|
            && s.log[th.task.item][th.pc.at] == Entry(t, Call(th.task.request))
            && th.pc.reply == Some(ReplyAt(c, th.task.item, s.log[th.task.item], th.pc.at))
          else th.pc.reply == None)
  }

  ghost predicate VisitInv<S, Q, R>(c: Config<S, Q, R>, s: State<S, Q, R>) {
    && s.log.Keys == c.plugins
    && (forall p, i, j :: p in s.log && 0 <= i < j < |s.log[p]| ==> s.log[p][i].thread != s.log[p][j].thread)
    && (forall p, i :: p in s.log && 0 <= i < |s.log[p]| ==>
          && s.log[p][i].thread in s.threads
          && Visits(s.threads[s.log[p][i].thread].task, p)
          && !MayEnter(s.threads[s.log[p][i].thread], p))
    && (forall p, t ::
          p in s.log && t in s.threads && Visits(s.threads[t].task, p) && !MayEnter(s.threads[t], p) ==>
            Appears(s.log[p], t))
  }

  ghost predicate Appears<Q>(entries: seq<Entry<Q>>, t: nat) {
    exists i :: 0 <= i < |entries| && entries[i].thread == t
  }

  ghost predicate OrderInv<S, Q, R>(c: Config<S, Q, R>, s: State<S, Q, R>) {
    StoreInv(c, s) && VisitInv(c, s) && forall t :: t in s.threads ==> ThreadInv(c, s, t)
  }

  // ------------------------------------------------------------------ the steps, seen from the log

  /** Thread `t` takes a plugin's lock. */
  ghost predicate Enters<S, Q, R>(c: Config<S, Q, R>, s: State<S, Q, R>, s': State<S, Q, R>, t: nat, p: nat) {
    && p in c.plugins && p !in s.locked && p in s.log && t in s.threads && s.threads[t].pc.WantPlugin?
    && s'.threads == s.threads[t := Thread(s.threads[t].task, InPlugin(p, s.threads[t].pc.todo, |s.log[p]|))]
    && s'.log == s.log[p := s.log[p] + [Entry(t, OpOf(s.threads[t].task))]]
    && s'.store == s.store && s'.locked == s.locked[p := t]
    && (forall q :: q in c.plugins ==> (MayEnter(s.threads[t], q) <==> MayEnter(s'.threads[t], q) || q == p))
    && !MayEnter(s'.threads[t], p)
    && Visits(s.threads[t].task, p)
  }

  /** Thread `t` leaves a plugin. */
  ghost predicate Leaves<S, Q, R>(c: Config<S, Q, R>, s: State<S, Q, R>, s': State<S, Q, R>, t: nat, p: nat) {
    && t in s.threads && s.threads[t].pc.InPlugin? && p == s.threads[t].pc.plugin && p in s.store && t in s'.threads
    && s'.threads == s.threads[t := s'.threads[t]] && s'.threads[t].task == s.threads[t].task
    && s'.log == s.log && s'.locked == s.locked - {p}
    && s'.store == s.store[p := c.apply(p, s.store[p], OpOf(s.threads[t].task)).0]
    && (if s.threads[t].task.Request?
        then s.threads[t].task.item == p
            && s'.threads[t].pc == Done(Some(c.apply(p, s.store[p], OpOf(s.threads[t].task)).1), s.threads[t].pc.at)
        else !s'.threads[t].pc.InPlugin?)
    && (forall q :: q in c.plugins ==> (MayEnter(s.threads[t], q) <==> MayEnter(s'.threads[t], q)))
  }

  /** Thread `t` does something that concerns no plugin. */
  ghost predicate Passes<S, Q, R>(c: Config<S, Q, R>, s: State<S, Q, R>, s': State<S, Q, R>, t: nat) {
    && t in s'.threads
    && s'.threads == s.threads[t := s'.threads[t]] && (t in s.threads ==> s'.threads[t].task == s.threads[t].task)
    && s'.log == s.log && s'.locked == s.locked && s'.store == s.store
    && !s'.threads[t].pc.InPlugin?
    && (s'.threads[t].task.Request? && s'.threads[t].pc.Done?
        ==> s'.threads[t].task.item !in c.plugins && s'.threads[t].pc.reply == None)
    && (t in s.threads ==> forall q :: q in c.plugins ==> (MayEnter(s.threads[t], q) <==> MayEnter(s'.threads[t], q)))
    && (t !in s.threads ==> forall q :: q in c.plugins && Visits(s'.threads[t].task, q) ==> MayEnter(s'.threads[t], q))
  }

  /** Every step is one of the three, according to where its thread is. */
  lemma StepEnters<S, Q, R>(c: Config<S, Q, R>, s: State<S, Q, R>, l: Label<Q>)
    requires Step(c, s, l).Some? && l.thread in s.threads && s.threads[l.thread].pc.WantPlugin?
    requires s.log.Keys == c.plugins && PcInv(c, s.threads[l.thread])
    ensures Enters(c, s, Step(c, s, l).value, l.thread, s.threads[l.thread].pc.plugin)
  {
  }

  lemma StepLeaves<S, Q, R>(c: Config<S, Q, R>, s: State<S, Q, R>, l: Label<Q>)
    requires Step(c, s, l).Some? && l.thread in s.threads && s.threads[l.thread].pc.InPlugin?
    requires PcInv(c, s.threads[l.thread])
    ensures Leaves(c, s, Step(c, s, l).value, l.thread, s.threads[l.thread].pc.plugin)
  {
  }

  lemma SpawnPasses<S, Q, R>(c: Config<S, Q, R>, s: State<S, Q, R>, l: Label<Q>)
    requires Step(c, s, l).Some? && l.Spawn?
    ensures Passes(c, s, Step(c, s, l).value, l.thread)
  {
  }

  lemma PickPasses<S, Q, R>(c: Config<S, Q, R>, s: State<S, Q, R>, l: Label<Q>)
    requires Step(c, s, l).Some? && l.Pick?
    ensures Passes(c, s, Step(c, s, l).value, l.thread)
  {
  }

  lemma LookupPasses<S, Q, R>(c: Config<S, Q, R>, s: State<S, Q, R>, t: nat)
    requires t in s.threads && Advance(c, s, t).Some? && PcInv(c, s.threads[t])
    requires s.threads[t].pc.WantRegistry? || s.threads[t].pc.InRegistry?
    ensures Passes(c, s, Advance(c, s, t).value, t)
  {
  }

  lemma ClientPasses<S, Q, R>(c: Config<S, Q, R>, s: State<S, Q, R>, t: nat)
    requires t in s.threads && Advance(c, s, t).Some? && PcInv(c, s.threads[t])
    requires s.threads[t].pc.WantClient? || s.threads[t].pc.TryClient? || s.threads[t].pc.InClient?
    ensures Passes(c, s, Advance(c, s, t).value, t)
  {
  }

  lemma GoPasses<S, Q, R>(c: Config<S, Q, R>, s: State<S, Q, R>, t: nat)
    requires t in s.threads && Advance(c, s, t).Some?
    requires PcInv(c, s.threads[t]) && !s.threads[t].pc.WantPlugin? && !s.threads[t].pc.InPlugin?
    ensures Passes(c, s, Advance(c, s, t).value, t)
  {
    hide Passes, PcInv;
    if s.threads[t].pc.WantRegistry? || s.threads[t].pc.InRegistry? {
      LookupPasses(c, s, t);
    } else {
      ClientPasses(c, s, t);
    }
  }

  lemma StepPasses<S, Q, R>(c: Config<S, Q, R>, s: State<S, Q, R>, l: Label<Q>)
    requires Step(c, s, l).Some?
    requires l.thread in s.threads ==>
               PcInv(c, s.threads[l.thread]) && !s.threads[l.thread].pc.WantPlugin? && !s.threads[l.thread].pc.InPlugin?
    ensures Passes(c, s, Step(c, s, l).value, l.thread)
  {
    hide Passes, PcInv, Advance;
    match l {
      case Spawn(_, _) => SpawnPasses(c, s, l);
      case Pick(_, _) => PickPasses(c, s, l);
      case Go(t) => GoPasses(c, s, t);
    }
  }

  // ------------------------------------------------------------------ every step keeps the order

  lemma FoldAppend<S, Q, R>(c: Config<S, Q, R>, p: nat, entries: seq<Entry<Q>>, e: Entry<Q>)
    ensures Fold(c, p, entries + [e]) == c.apply(p, Fold(c, p, entries), e.op).0
  {
    assert (entries + [e])[..|entries|] == entries;
  }

  lemma EntersKeepsStore<S, Q, R>(c: Config<S, Q, R>, s: State<S, Q, R>, s': State<S, Q, R>, t: nat, p: nat)
    requires StoreInv(c, s) && Enters(c, s, s', t, p)
    ensures StoreInv(c, s')
  {
    hide MayEnter, Visits, Fold;
    assert Settled(s', p) == s.log[p] == Settled(s, p);
    forall q | q in c.plugins && q != p
      ensures Settled(s', q) == Settled(s, q)
    {
    }
  }

  lemma LeavesSettles<S, Q, R>(c: Config<S, Q, R>, s: State<S, Q, R>, s': State<S, Q, R>, t: nat, p: nat)
    requires Leaves(c, s, s', t, p) && ThreadInv(c, s, t) && p in s.locked && s.log.Keys == c.plugins
    ensures Settled(s', p) == Settled(s, p) + [Entry(t, OpOf(s.threads[t].task))]
    ensures forall q :: q in c.plugins && q != p ==> Settled(s', q) == Settled(s, q)
  {
    hide MayEnter, Visits, Fold;
    var log := s.log[p];
    assert log == log[..|log| - 1] + [log[|log| - 1]];
  }

  lemma LeavesKeepsStore<S, Q, R>(c: Config<S, Q, R>, s: State<S, Q, R>, s': State<S, Q, R>, t: nat, p: nat)
    requires StoreInv(c, s) && Leaves(c, s, s', t, p) && ThreadInv(c, s, t) && p in s.locked
    ensures StoreInv(c, s')
  {
    LeavesSettles(c, s, s', t, p);
    FoldAppend(c, p, Settled(s, p), Entry(t, OpOf(s.threads[t].task)));
    hide MayEnter, Visits, Fold, Settled, ThreadInv;
  }

  lemma PassesKeepsStore<S, Q, R>(c: Config<S, Q, R>, s: State<S, Q, R>, s': State<S, Q, R>, t: nat)
    requires StoreInv(c, s) && Passes(c, s, s', t)
    ensures StoreInv(c, s')
  {
    hide MayEnter, Visits, Fold;
    forall p | p in c.plugins
      ensures Settled(s', p) == Settled(s, p)
    {
    }
  }

  /** A thread that stays where it is keeps its place in a log that only grows. */
  lemma Unmoved<S, Q, R>(c: Config<S, Q, R>, s: State<S, Q, R>, s': State<S, Q, R>, t: nat)
    requires t in s.threads && t in s'.threads && s.threads[t] == s'.threads[t] && ThreadInv(c, s, t)
    requires forall p :: p in s.log ==> p in s'.log && s.log[p] <= s'.log[p]
    requires s.threads[t].pc.InPlugin? && s.threads[t].pc.plugin in s.log
        ==> s'.log[s.threads[t].pc.plugin] == s.log[s.threads[t].pc.plugin]
    ensures ThreadInv(c, s', t)
  {
    var th := s.threads[t];
    if th.task.Request? && th.pc.Done? && th.task.item in c.plugins {
      assert s'.log[th.task.item][..th.pc.at] == s.log[th.task.item][..th.pc.at];
    }
  }

  lemma EntersKeepsThreads<S, Q, R>(c: Config<S, Q, R>, s: State<S, Q, R>, s': State<S, Q, R>, t: nat, p: nat)
    requires PluginInv(s) && Enters(c, s, s', t, p) && forall u :: u in s.threads ==> ThreadInv(c, s, u)
    ensures forall u :: u in s'.threads ==> ThreadInv(c, s', u)
  {
    hide MayEnter, Visits, Fold;
    forall u | u in s'.threads
      ensures ThreadInv(c, s', u)
    {
      if u != t {
        assert s.threads[u].pc.InPlugin? ==> s.threads[u].pc.plugin in s.locked;
        hide ThreadInv;
        Unmoved(c, s, s', u);
      }
    }
  }

  lemma LeavesKeepsThreads<S, Q, R>(c: Config<S, Q, R>, s: State<S, Q, R>, s': State<S, Q, R>, t: nat, p: nat)
    requires StoreInv(c, s) && p in s.locked && Leaves(c, s, s', t, p)
    requires forall u :: u in s.threads ==> ThreadInv(c, s, u)
    ensures forall u :: u in s'.threads ==> ThreadInv(c, s', u)
  {
    hide MayEnter, Visits, Fold;
    forall u | u in s'.threads
      ensures ThreadInv(c, s', u)
    {
      if u != t {
        hide ThreadInv;
        Unmoved(c, s, s', u);
      } else {
        assert Settled(s, p) == s.log[p][..s.threads[t].pc.at];
      }
    }
  }

  lemma PassesKeepsThreads<S, Q, R>(c: Config<S, Q, R>, s: State<S, Q, R>, s': State<S, Q, R>, t: nat)
    requires Passes(c, s, s', t) && forall u :: u in s.threads ==> ThreadInv(c, s, u)
    ensures forall u :: u in s'.threads ==> ThreadInv(c, s', u)
  {
    hide MayEnter, Visits, Fold;
    forall u | u in s'.threads
      ensures ThreadInv(c, s', u)
    {
      if u != t {
        hide ThreadInv;
        Unmoved(c, s, s', u);
      }
    }
  }

  lemma EntersKeepsVisits<S, Q, R>(c: Config<S, Q, R>, s: State<S, Q, R>, s': State<S, Q, R>, t: nat, p: nat)
    requires VisitInv(c, s) && Enters(c, s, s', t, p)
    ensures VisitInv(c, s')
  {
    hide MayEnter, Visits;
    forall q, u | q in s'.log && u in s'.threads && Visits(s'.threads[u].task, q) && !MayEnter(s'.threads[u], q)
      ensures Appears(s'.log[q], u)
    {
      if u == t && q == p {
        assert s'.log[p][|s.log[p]|].thread == t;
      } else {
        assert Appears(s.log[q], u);
        var i :| 0 <= i < |s.log[q]| && s.log[q][i].thread == u;
        assert s'.log[q][i].thread == u;
      }
    }
  }

  lemma QuietKeepsVisits<S, Q, R>(c: Config<S, Q, R>, s: State<S, Q, R>, s': State<S, Q, R>, t: nat)
    requires VisitInv(c, s) && s'.log == s.log && t in s'.threads && s'.threads == s.threads[t := s'.threads[t]]
    requires t in s.threads ==> s'.threads[t].task == s.threads[t].task
    requires t in s.threads ==>
        forall q :: q in c.plugins ==> (MayEnter(s.threads[t], q) <==> MayEnter(s'.threads[t], q))
    requires t !in s.threads ==>
        forall q :: q in c.plugins && Visits(s'.threads[t].task, q) ==> MayEnter(s'.threads[t], q)
    ensures VisitInv(c, s')
  {
    hide MayEnter, Visits, Appears;
  }

  lemma StepKeepsOrder<S, Q, R>(c: Config<S, Q, R>, s: State<S, Q, R>, l: Label<Q>)
    requires LocksInv(c, s) && OrderInv(c, s) && Step(c, s, l).Some?
    ensures OrderInv(c, Step(c, s, l).value)
  {
    var t := l.thread;
    var s' := Step(c, s, l).value;
    hide Step, StoreInv, VisitInv, ThreadInv, PcInv;
    if t in s.threads && s.threads[t].pc.WantPlugin? {
      var p := s.threads[t].pc.plugin;
      StepEnters(c, s, l);
      hide Enters;
      EntersKeepsStore(c, s, s', t, p);
      EntersKeepsThreads(c, s, s', t, p);
      EntersKeepsVisits(c, s, s', t, p);
    } else if t in s.threads && s.threads[t].pc.InPlugin? {
      var p := s.threads[t].pc.plugin;
      StepLeaves(c, s, l);
      LeavesKeepsStore(c, s, s', t, p);
      LeavesKeepsThreads(c, s, s', t, p);
      QuietKeepsVisits(c, s, s', t);
    } else {
      StepPasses(c, s, l);
      PassesKeepsStore(c, s, s', t);
      PassesKeepsThreads(c, s, s', t);
      QuietKeepsVisits(c, s, s', t);
    }
  }

  lemma {:induction false} ExecKeepsOrder<S, Q, R>(c: Config<S, Q, R>, s: State<S, Q, R>, run: seq<Label<Q>>)
    requires LocksInv(c, s) && OrderInv(c, s) && Exec(c, s, run).Some?
    ensures LocksInv(c, Exec(c, s, run).value) && OrderInv(c, Exec(c, s, run).value)
    decreases |run|
  {
    hide LocksInv, OrderInv, Step;
    if run != [] {
      StepKeepsLocks(c, s, run[0]);
      StepKeepsOrder(c, s, run[0]);
      ExecKeepsOrder(c, Step(c, s, run[0]).value, run[1..]);
    }
  }

  lemma ReachedOrder<S, Q, R>(c: Config<S, Q, R>, run: seq<Label<Q>>)
    requires Exec(c, Init(c), run).Some?
    ensures LocksInv(c, Exec(c, Init(c), run).value) && OrderInv(c, Exec(c, Init(c), run).value)
  {
    assert LocksInv(c, Init(c)) && OrderInv(c, Init(c));
    hide LocksInv, OrderInv;
    ExecKeepsOrder(c, Init(c), run);
  }

  // ------------------------------------------------------------------ the promises

  /** A plugin nobody is in has the state that serving its operations one by one, in lock order, leaves. */
  lemma PluginsFoldTheirCalls<S, Q, R>(c: Config<S, Q, R>, run: seq<Label<Q>>, p: nat)
    requires Exec(c, Init(c), run).Some?
    ensures var s := Exec(c, Init(c), run).value;
            p in c.plugins && p !in s.locked ==> p in s.store && p in s.log && s.store[p] == Fold(c, p, s.log[p])
  {
    ReachedOrder(c, run);
  }

  /**
   A finished request appears in its plugin's order exactly once, as itself, and got the reply a single
   thread would have given at that place; a request for an item that is not registered got none.
   */
  lemma RequestsServedInOrder<S, Q, R>(c: Config<S, Q, R>, run: seq<Label<Q>>, t: nat)
    requires Exec(c, Init(c), run).Some?
    requires var s := Exec(c, Init(c), run).value; t in s.threads && s.threads[t].task.Request? && s.threads[t].pc.Done?
    ensures var s := Exec(c, Init(c), run).value;
            var item := s.threads[t].task.item;
            var pc := s.threads[t].pc;
            if item !in c.plugins then pc.reply == None else
              && item in s.log && pc.at < |s.log[item]|
              && s.log[item][pc.at] == Entry(t, Call(s.threads[t].task.request))
              && pc.reply == Some(ReplyAt(c, item, s.log[item], pc.at))
              && (forall i :: 0 <= i < |s.log[item]| && s.log[item][i].thread == t ==> i == pc.at)
  {
    ReachedOrder(c, run);
    var s := Exec(c, Init(c), run).value;
    assert ThreadInv(c, s, t);
    hide LocksInv, StoreInv, Fold;
  }
}
