/**
 Teardown comes to an end: a measure that every step of it, and every moment it waits, brings down,
 and a way for `run` to return from wherever it is, even if no ping is ever answered.
 */
module LifecycleLiveness {
  import opened Bytes
  import opened Lifecycle
  import opened LifecycleProofs
  import opened LifecycleTheorems

  // ------------------------------------------------------------------ a measure of what is left to do

  function LeaveWork(c: Config, who: Who): nat {
    if who.InRun? then CLIENT_LOCK_DEADLINE + c.slack + 2 else 1
  }

  function CloseWork(c: Config, who: Who): nat {
    LeaveWork(c, who) + (if c.owned then 2 * LockWait(c) + 4 else 0)
  }

  function NotifyWork(c: Config, who: Who): nat {
    CloseWork(c, who) + 3 * |c.plugins| + 2
  }

  function GoalWork(c: Config, who: Who, goal: Goal): nat {
    (if goal.Close? then LeaveWork(c, who) else NotifyWork(c, who)) + 2
  }

  function Work(c: Config, pc: Pc, now: nat): int {
    match pc
    case StoppingPings => NotifyWork(c, InRun) + 2 * LockWait(c) + 6
    case Taking(who) => NotifyWork(c, who) + 2 * LockWait(c) + 5
    case Polling(who, goal, giveUp) => GoalWork(c, who, goal) + 2 * (giveUp + POLL + c.slack + 1 - now)
    case Napping(who, goal, giveUp, wake) =>
      GoalWork(c, who, goal) + 2 * (giveUp + 2 * POLL + c.slack + 1 - wake) - 1 - (now + POLL - wake)
    case Deregistering(who, _) => NotifyWork(c, who) + 2
    case InDeregister(who) => NotifyWork(c, who) + 1
    case StoppingListener(who) => NotifyWork(c, who)
    case Choosing(who, todo) => CloseWork(c, who) + 3 * |todo| + 1
    case LockingPlugin(who, todo, _) => CloseWork(c, who) + 3 * |todo| + 3
    case InPlugin(who, todo, _) => CloseWork(c, who) + 3 * |todo| + 2
    case Closing(who) => LeaveWork(c, who) + 2
    case Clearing(who) => LeaveWork(c, who) + 1
    case Leaving(who) => LeaveWork(c, who)
    case AwaitingWatcher(until) => until + c.slack - now + 1
    case _ => 0
  }

  /** Time that passes while the RPC or a plugin is at work is not teardown's own. */
  predicate Excused(pc: Pc) {
    pc.InDeregister? || pc.LockingPlugin? || pc.InPlugin?
  }

  /** A step of teardown, or a moment it waits on its own account. */
  predicate Counts(s: State, l: Label) {
    InTeardown(s.pc) && (l.Next? || OfReply(l) || (l.Tick? && !Excused(s.pc)))
  }

  predicate NewCall(l: Label) {
    l.CallRun? || l.CallShutdown? || l.CallDrop?
  }

  predicate Ending(pc: Pc) {
    InTeardown(pc) || pc.Idle? || pc.Dropped?
  }

  function Count(s: State, l: Label): nat {
    if Counts(s, l) then 1 else 0
  }

  lemma PollWork(c: Config, s: State)
    requires TimeInv(c, s.pc, s.clock) && PollNext(s).Some?
    ensures var t := PollNext(s).value; Ending(t.pc) && Work(c, t.pc, t.clock.now) + 1 <= Work(c, s.pc, s.clock.now)
  {
  }

  lemma DeregisterWork(c: Config, s: State)
    requires DeregisterNext(c, s).Some?
    ensures var t := DeregisterNext(c, s).value;
        Ending(t.pc) && Work(c, t.pc, t.clock.now) + 1 <= Work(c, s.pc, s.clock.now)
  {
  }

  lemma NotifyNextWork(c: Config, s: State)
    requires NotifyNext(c, s).Some?
    ensures var t := NotifyNext(c, s).value;
        Ending(t.pc) && Work(c, t.pc, t.clock.now) + 1 <= Work(c, s.pc, s.clock.now)
  {
  }

  lemma LeaveNextWork(c: Config, s: State)
    requires TimeInv(c, s.pc, s.clock) && LeaveNext(s).Some?
    ensures var t := LeaveNext(s).value; Ending(t.pc) && Work(c, t.pc, t.clock.now) + 1 <= Work(c, s.pc, s.clock.now)
  {
  }

  lemma ReplyWork(c: Config, s: State, l: Label)
    requires ReplyStep(s, l).Some?
    ensures var t := ReplyStep(s, l).value; Ending(t.pc) && Work(c, t.pc, t.clock.now) + 1 <= Work(c, s.pc, s.clock.now)
  {
    if l.Pick? {
      assert |s.pc.todo - {l.plugin}| == |s.pc.todo| - 1;
    }
  }

  lemma WorldWork(c: Config, s: State, l: Label)
    requires Ending(s.pc) && WorldStep(c, s, l).Some?
    ensures var t := WorldStep(c, s, l).value;
        t.pc == s.pc && Work(c, t.pc, t.clock.now) + Count(s, l) <= Work(c, s.pc, s.clock.now)
  {
  }

  lemma SenderOrWatcherWork(s: State, l: Label)
    ensures SenderStep(s, l).Some? ==> SenderStep(s, l).value.pc == s.pc && SenderStep(s, l).value.clock == s.clock
    ensures WatcherStep(s, l).Some? ==> WatcherStep(s, l).value.pc == s.pc && WatcherStep(s, l).value.clock == s.clock
  {
  }

  lemma StepWork(c: Config, s: State, l: Label)
    requires TimeInv(c, s.pc, s.clock) && Ending(s.pc) && !NewCall(l) && Step(c, s, l).Some?
    ensures var t := Step(c, s, l).value;
        Ending(t.pc) && Work(c, t.pc, t.clock.now) + Count(s, l) <= Work(c, s.pc, s.clock.now)
  {
    hide TimeInv, Work, PollNext, DeregisterNext, NotifyNext, LeaveNext, ReplyStep, WatcherStep, SenderStep, WorldStep;
    if OfWatcher(l) || OfSender(l) {
      SenderOrWatcherWork(s, l);
    } else if OfWorld(l) {
      WorldWork(c, s, l);
    } else if OfReply(l) {
      ReplyWork(c, s, l);
    } else if l.Next? {
      if s.pc.Polling? || s.pc.Napping? {
        PollWork(c, s);
      } else if s.pc.Choosing? || s.pc.LockingPlugin? {
        NotifyNextWork(c, s);
      } else if s.pc.Taking? || s.pc.Deregistering? || s.pc.StoppingListener? {
        DeregisterWork(c, s);
      } else if !s.pc.StoppingPings? {
        LeaveNextWork(c, s);
      } else {
        StopPingsWork(c, s);
      }
    }
  }

  lemma StopPingsWork(c: Config, s: State)
    requires s.pc.StoppingPings?
    ensures var t := RunNext(s).value;
        t.pc == Taking(InRun) && Work(c, t.pc, t.clock.now) + 1 <= Work(c, s.pc, s.clock.now)
  {
  }

  /** How many steps and moments of its own teardown takes in a run. */
  function Effort(c: Config, s: State, run: seq<Label>): nat
    requires Exec(c, s, run).Some?
    decreases |run|
  {
    if run == [] then 0 else Count(s, run[0]) + Effort(c, Step(c, s, run[0]).value, run[1..])
  }

  predicate NoNewCalls(run: seq<Label>) {
    forall i :: 0 <= i < |run| ==> !NewCall(run[i])
  }

  lemma {:induction false} EffortBounded(c: Config, s: State, run: seq<Label>)
    requires Inv(c, s) && Ending(s.pc) && NoNewCalls(run) && Exec(c, s, run).Some?
    ensures var t := Exec(c, s, run).value;
        Ending(t.pc) && Effort(c, s, run) + Work(c, t.pc, t.clock.now) <= Work(c, s.pc, s.clock.now)
    decreases |run|
  {
    hide RegistrationInv, SignalInv, ClientInv, PingInv, TimeInv, Work, Step, Ending, Count;
    if run != [] {
      StepKeepsInv(c, s, run[0]);
      StepWork(c, s, run[0]);
      EffortBounded(c, Step(c, s, run[0]).value, run[1..]);
    }
  }

  lemma WorkBounded(c: Config, s: State)
    requires Guards(c, s)
    ensures 0 <= Work(c, s.pc, s.clock.now)
    ensures InTeardown(s.pc) ==> 0 < Work(c, s.pc, s.clock.now)
  {
    hide ClientInv, PingInv;
  }

  /** The most steps and moments of its own that teardown takes. */
  function WorkLimit(c: Config): nat {
    3 * |c.plugins| + (if c.owned then 5 * CLIENT_LOCK_DEADLINE + 4 * POLL + 5 * c.slack + 14
                       else 3 * CLIENT_LOCK_DEADLINE + 2 * POLL + 3 * c.slack + 10)
  }

  /**
   Whatever else happens, from the moment `run` receives a signal it takes a bounded number of steps
   and moments of its own, and is out of teardown by the time it has taken that many.
   */
  lemma TeardownEnds(c: Config, run: seq<Label>, more: seq<Label>)
    requires Exec(c, Init(), run).Some? && Exec(c, Init(), run).value.pc.StoppingPings?
    requires NoNewCalls(more) && Exec(c, Exec(c, Init(), run).value, more).Some?
    ensures var effort := Effort(c, Exec(c, Init(), run).value, more);
            && effort <= WorkLimit(c)
            && (InTeardown(Exec(c, Exec(c, Init(), run).value, more).value.pc) ==> effort < WorkLimit(c))
  {
    var s := Exec(c, Init(), run).value;
    Reached(c, run);
    EffortBounded(c, s, more);
    ExecKeepsInv(c, s, more);
    WorkBounded(c, Exec(c, s, more).value);
    hide RegistrationInv, SignalInv, ClientInv, PingInv, TimeInv, Step, Exec, Effort;
  }

  // ------------------------------------------------------------------ a way to return

  /** What the calling thread does, and what it waits for: time, its own RPC, plugins. No ping, no watcher. */
  predicate CallerSide(l: Label) {
    l.Next? || OfReply(l) || l.Tick? || l.CallEnds?
  }

  predicate AllCallerSide(run: seq<Label>) {
    forall i :: 0 <= i < |run| ==> CallerSide(run[i])
  }

  /** A plugin that is busy comes free. */
  lemma PluginComesFree(c: Config, s: State)
    requires s.pc.LockingPlugin? && s.pc.plugin in s.busy
    ensures var l := CallEnds(s.pc.plugin);
            && Step(c, s, l).Some?
            && Step(c, s, l).value == s.(busy := s.busy - {s.pc.plugin}) && |Step(c, s, l).value.busy| < |s.busy|
  {
    assert |s.busy - {s.pc.plugin}| == |s.busy| - 1;
  }

  /** Inside `run`'s teardown the thread itself goes on, its wait runs down, or what it waits for answers. */
  lemma GoesOn(c: Config, s: State) returns (l: Label)
    requires Inv(c, s) && Stopping(s.pc) && !(s.pc.LockingPlugin? && s.pc.plugin in s.busy)
    ensures CallerSide(l) && !NewCall(l) && Counts(s, l) && Step(c, s, l).Some?
  {
    hide RegistrationInv, Guards;
    match s.pc {
      case InDeregister(_) => l := DeregisterReply;
      case InPlugin(_, _, _) => l := PluginReturns;
      case Choosing(_, todo) =>
        if todo == {} {
          l := Next;
        } else {
          var p :| p in todo;
          l := Pick(p);
        }
      case Napping(_, _, _, wake) => l := if s.clock.now < wake then Tick else Next;
      case AwaitingWatcher(until) => l := if s.watch.at.Done? || s.clock.now >= until then Next else Tick;
      case _ => l := Next;
    }
  }

  predicate RunReturned(s: State) {
    s.pc.Idle? && s.ledger.result.Some? && s.ledger.result.value.Finished?
  }

  lemma NextStaysInRun(c: Config, s: State)
    requires Stopping(s.pc) && CallerNext(c, s).Some?
    ensures var t := CallerNext(c, s).value; Stopping(t.pc) || RunReturned(t)
  {
  }

  lemma StaysInRun(c: Config, s: State, l: Label)
    requires Stopping(s.pc) && CallerSide(l) && Step(c, s, l).Some?
    ensures var t := Step(c, s, l).value; Stopping(t.pc) || RunReturned(t)
  {
    hide CallerNext;
    if l.Next? {
      NextStaysInRun(c, s);
    }
  }

  lemma ExecCons(c: Config, s: State, l: Label, rest: seq<Label>)
    requires Step(c, s, l).Some?
    ensures Exec(c, s, [l] + rest) == Exec(c, Step(c, s, l).value, rest)
  {
    assert ([l] + rest)[1..] == rest;
    hide Step;
  }

  lemma {:induction false} FindReturn(c: Config, s: State) returns (more: seq<Label>)
    requires Inv(c, s) && Stopping(s.pc)
    ensures AllCallerSide(more) && Exec(c, s, more).Some? && RunReturned(Exec(c, s, more).value)
    decreases Work(c, s.pc, s.clock.now), |s.busy|
  {
    hide RegistrationInv, SignalInv, ClientInv, PingInv, TimeInv, Work, Step, Exec, Stopping, RunReturned;
    WorkPositive(c, s);
    var l: Label;
    if s.pc.LockingPlugin? && s.pc.plugin in s.busy {
      l := CallEnds(s.pc.plugin);
      PluginComesFree(c, s);
    } else {
      l := GoesOn(c, s);
      EndingInRun(s);
      StepWork(c, s, l);
    }
    StepKeepsInv(c, s, l);
    StaysInRun(c, s, l);
    var t := Step(c, s, l).value;
    var rest := [];
    if Stopping(t.pc) {
      rest := FindReturn(c, t);
    } else {
      assert Exec(c, t, []) == Some(t) by { ExecNothing(c, t); }
    }
    ExecCons(c, s, l, rest);
    more := [l] + rest;
  }

  lemma ExecNothing(c: Config, s: State)
    ensures Exec(c, s, []) == Some(s)
  {
  }

  lemma EndingInRun(s: State)
    requires Stopping(s.pc)
    ensures Ending(s.pc)
  {
  }

  lemma WorkPositive(c: Config, s: State)
    requires Inv(c, s) && Stopping(s.pc)
    ensures 0 < Work(c, s.pc, s.clock.now)
  {
    hide RegistrationInv, SignalInv, ClientInv, PingInv, Work;
    WorkBounded(c, s);
  }

  /**
   From anywhere in its teardown `run` can return, with the first signal sent, without a ping being
   answered or the watcher taking a step: only its own RPC and the plugins have to let it.
   */
  lemma RunCanReturn(c: Config, run: seq<Label>)
    requires Exec(c, Init(), run).Some? && Stopping(Exec(c, Init(), run).value.pc)
    ensures var s := Exec(c, Init(), run).value;
            && s.channel.enqueued != []
            && exists more :: AllCallerSide(more) && Exec(c, s, more).Some? && Exec(c, s, more).value.pc.Idle?
                              && Exec(c, s, more).value.ledger.result == Some(Finished(s.channel.enqueued[0]))
  {
    var s := Exec(c, Init(), run).value;
    Reached(c, run);
    hide RegistrationInv, Guards, Exec, Init;
    var more := FindReturn(c, s);
    FirstSignalDecides(c, run, more);
    assert AllCallerSide(more);
  }
}
