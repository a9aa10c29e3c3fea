/**
 The accept loop and the tasks it spawns, as labelled steps any of which may come next. The
 semaphore's permits are conserved: every permit is free, with the acceptor, or with one task.
 */
module AcceptLoop {
  import opened Bytes

  datatype Acceptor =
    | AwaitingPermit
    | AwaitingConnection   // holds a permit
    | Returned             // `listen` has returned; the runtime may be torn down

  /** A connection task; it holds its permit in every one of these states. */
  datatype Task =
    | Spawned
    | InService            // between the counter's increment and decrement
    | Closing

  datatype State = State(
    free: nat,
    acceptor: Acceptor,
    stopRequested: bool,
    tasks: map<nat, Task>,
    active: int,
    cut: nat)              // tasks torn down with the runtime while in service

  datatype Label =
    | RequestStop
    | AcquirePermit
    | Accept(id: nat)
    | AcceptFails
    | SeeStop
    | Begin(id: nat)
    | Finish(id: nat)
    | Release(id: nat)
    | TearDown(id: nat)

  function Init(limit: nat): State {
    State(limit, AwaitingPermit, false, map[], 0, 0)
  }

  function Step(s: State, l: Label): Option<State> {
    match l
    case RequestStop => Some(s.(stopRequested := true))
    case AcquirePermit =>
      if s.acceptor.AwaitingPermit? && s.free > 0
          then Some(s.(free := s.free - 1, acceptor := AwaitingConnection)) else None
    case Accept(id) =>
      if s.acceptor.AwaitingConnection? && id !in s.tasks then
        Some(s.(tasks := s.tasks[id := Spawned], acceptor := AwaitingPermit))
      else None
    case AcceptFails =>
      if s.acceptor.AwaitingConnection? then Some(s.(free := s.free + 1, acceptor := Returned)) else None
    case SeeStop =>
      if !s.stopRequested || s.acceptor.Returned? then None
      else Some(s.(free := s.free + Held(s), acceptor := Returned))
    case Begin(id) =>
      if id in s.tasks && s.tasks[id].Spawned?
          then Some(s.(tasks := s.tasks[id := InService], active := s.active + 1)) else None
    case Finish(id) =>
      if id in s.tasks && s.tasks[id].InService?
          then Some(s.(tasks := s.tasks[id := Closing], active := s.active - 1)) else None
    case Release(id) =>
      if id in s.tasks && s.tasks[id].Closing? then Some(s.(tasks := s.tasks - {id}, free := s.free + 1)) else None
    case TearDown(id) =>
      if id in s.tasks && s.acceptor.Returned? then
        Some(s.(tasks := s.tasks - {id}, free := s.free + 1, cut := s.cut + if s.tasks[id].InService? then 1 else 0))
      else None
  }

  function Exec(s: State, run: seq<Label>): Option<State>
    decreases |run|
  {
    if run == [] then Some(s) else
      match Step(s, run[0])
      case None => None
      case Some(s') => Exec(s', run[1..])
  }

  /** Permits with the acceptor. */
  function Held(s: State): nat {
    if s.acceptor.AwaitingConnection? then 1 else 0
  }

  function Serving(s: State): set<nat> {
    set id | id in s.tasks && s.tasks[id].InService?
  }

  ghost predicate Inv(limit: nat, s: State) {
    && s.free + Held(s) + |s.tasks| == limit
    && s.active == |Serving(s)| + s.cut
    && (s.cut > 0 ==> s.acceptor.Returned?)
  }

  lemma ServingUpdate(s: State, s': State, id: nat)
    requires s'.tasks == s.tasks[id := Spawned] || s'.tasks == s.tasks[id := InService]
          || s'.tasks == s.tasks[id := Closing] || s'.tasks == s.tasks - {id}
    ensures Serving(s') == if id in s'.tasks && s'.tasks[id].InService? then Serving(s) + {id} else Serving(s) - {id}
  {
  }

  lemma Removed(m: map<nat, Task>, id: nat)
    requires id in m
    ensures |m - {id}| == |m| - 1
  {
    assert (m - {id}).Keys == m.Keys - {id};
    assert |m.Keys - {id}| == |m.Keys| - 1;
    assert |(m - {id}).Keys| == |m - {id}| && |m.Keys| == |m|;
  }

  lemma UpdateKeepsInv(limit: nat, s: State, l: Label)
    requires Inv(limit, s) && Step(s, l).Some? && (l.Accept? || l.Begin? || l.Finish?)
    ensures Inv(limit, Step(s, l).value)
  {
    ServingUpdate(s, Step(s, l).value, l.id);
    assert l.Accept? ==> l.id !in Serving(s);
  }

  lemma RemovalKeepsInv(limit: nat, s: State, l: Label)
    requires Inv(limit, s) && Step(s, l).Some? && (l.Release? || l.TearDown?)
    ensures Inv(limit, Step(s, l).value)
  {
    ServingUpdate(s, Step(s, l).value, l.id);
    Removed(s.tasks, l.id);
  }

  lemma StepKeepsInv(limit: nat, s: State, l: Label)
    requires Inv(limit, s) && Step(s, l).Some?
    ensures Inv(limit, Step(s, l).value)
  {
    if l.Accept? || l.Begin? || l.Finish? {
      UpdateKeepsInv(limit, s, l);
    } else if l.Release? || l.TearDown? {
      RemovalKeepsInv(limit, s, l);
    } else {
      assert Serving(Step(s, l).value) == Serving(s);
    }
  }

  lemma {:induction false} ExecKeepsInv(limit: nat, s: State, run: seq<Label>)
    requires Inv(limit, s) && Exec(s, run).Some?
    ensures Inv(limit, Exec(s, run).value)
    decreases |run|
  {
    if run != [] {
      StepKeepsInv(limit, s, run[0]);
      ExecKeepsInv(limit, Step(s, run[0]).value, run[1..]);
    }
  }

  lemma ServingBounded(s: State)
    ensures Serving(s) <= s.tasks.Keys && |Serving(s)| <= |s.tasks|
  {
    SubsetSize(Serving(s), s.tasks.Keys);
  }

  lemma {:induction false} SubsetSize(a: set<nat>, b: set<nat>)
    requires a <= b
    ensures |a| <= |b|
    decreases |a|
  {
    if a != {} {
      var x :| x in a;
      SubsetSize(a - {x}, b - {x});
    }
  }

  /** In every run permits are conserved, so no more than the limit are ever served at once. */
  lemma PermitsConserved(limit: nat, run: seq<Label>)
    requires Exec(Init(limit), run).Some?
    ensures var s := Exec(Init(limit), run).value;
            && s.free + Held(s) + |s.tasks| == limit
            && |Serving(s)| <= |s.tasks| <= limit
  {
    assert Serving(Init(limit)) == {};
    ExecKeepsInv(limit, Init(limit), run);
    ServingBounded(Exec(Init(limit), run).value);
  }

  /** Until `listen` returns, the counter is the number of connections in service. */
  lemma CounterExact(limit: nat, run: seq<Label>)
    requires Exec(Init(limit), run).Some?
    ensures var s := Exec(Init(limit), run).value;
            !s.acceptor.Returned? ==> s.active == |Serving(s)| && 0 <= s.active <= limit
  {
    assert Serving(Init(limit)) == {};
    ExecKeepsInv(limit, Init(limit), run);
    PermitsConserved(limit, run);
  }

  /** When a task that reads the counter finds at most one, it is itself the only one in service. */
  lemma AloneWhenCounterLow(limit: nat, run: seq<Label>, me: nat, other: nat)
    requires Exec(Init(limit), run).Some?
    ensures var s := Exec(Init(limit), run).value;
            !s.acceptor.Returned? && me in Serving(s) && other in Serving(s) && s.active <= 1 ==> me == other
  {
    var s := Exec(Init(limit), run).value;
    CounterExact(limit, run);
    if me in Serving(s) && other in Serving(s) && me != other {
      SubsetSize({me, other}, Serving(s));
    }
  }

  /** A full server takes the next connection as soon as one it serves has closed. */
  lemma ClosingFreesCapacity(limit: nat, run: seq<Label>, id: nat, next: nat)
    requires Exec(Init(limit), run).Some?
    requires var s := Exec(Init(limit), run).value;
             s.acceptor.AwaitingPermit? && id in s.tasks && s.tasks[id].InService? && next !in s.tasks
    ensures var s := Exec(Init(limit), run).value;
            var t := Exec(s, [Finish(id), Release(id), AcquirePermit, Accept(next)]);
            t.Some? && next in t.value.tasks && id !in t.value.tasks && |t.value.tasks| == |s.tasks|
  {
    var s := Exec(Init(limit), run).value;
    var s1 := Step(s, Finish(id)).value;
    var s2 := Step(s1, Release(id)).value;
    var s3 := Step(s2, AcquirePermit).value;
    var s4 := Step(s3, Accept(next)).value;
    Chain(s, s1, s2, s3, s4, id, next);
    Removed(s1.tasks, id);
    assert s4.tasks.Keys == s2.tasks.Keys + {next};
    assert |s4.tasks.Keys| == |s2.tasks.Keys| + 1 && |s4.tasks| == |s4.tasks.Keys| && |s2.tasks| == |s2.tasks.Keys|;
    assert s1.tasks.Keys == s.tasks.Keys;
    assert |s1.tasks| == |s1.tasks.Keys| && |s.tasks| == |s.tasks.Keys|;
  }

  lemma Chain(s: State, s1: State, s2: State, s3: State, s4: State, id: nat, next: nat)
    requires Step(s, Finish(id)) == Some(s1) && Step(s1, Release(id)) == Some(s2)
    requires Step(s2, AcquirePermit) == Some(s3) && Step(s3, Accept(next)) == Some(s4)
    ensures Exec(s, [Finish(id), Release(id), AcquirePermit, Accept(next)]) == Some(s4)
  {
    var run := [Finish(id), Release(id), AcquirePermit, Accept(next)];
    assert run[1..] == [Release(id), AcquirePermit, Accept(next)];
    assert run[1..][1..] == [AcquirePermit, Accept(next)];
    assert run[1..][1..][1..] == [Accept(next)];
    assert run[1..][1..][1..][1..] == [];
    hide Step;
    assert Exec(s4, []) == Some(s4);
    assert Exec(s3, [Accept(next)]) == Some(s4);
    assert Exec(s2, [AcquirePermit, Accept(next)]) == Some(s4);
    assert Exec(s1, [Release(id), AcquirePermit, Accept(next)]) == Some(s4);
  }

  /** Once `listen` has returned and every task is gone, every permit is back. */
  lemma AllPermitsReturn(limit: nat, run: seq<Label>)
    requires Exec(Init(limit), run).Some?
    ensures var s := Exec(Init(limit), run).value;
            s.acceptor.Returned? && s.tasks == map[] ==> s.free == limit
  {
    PermitsConserved(limit, run);
  }

  /** A server that still accepts and is not full takes the next connection at once. */
  lemma AcceptsUnlessFull(limit: nat, run: seq<Label>, next: nat)
    requires Exec(Init(limit), run).Some?
    requires var s := Exec(Init(limit), run).value; !s.acceptor.Returned? && |s.tasks| < limit && next !in s.tasks
    ensures var s := Exec(Init(limit), run).value;
            var t := Exec(s, if s.acceptor.AwaitingPermit? then [AcquirePermit, Accept(next)] else [Accept(next)]);
            t.Some? && t.value.tasks == s.tasks[next := Spawned]
  {
    var s := Exec(Init(limit), run).value;
    PermitsConserved(limit, run);
    assert [AcquirePermit, Accept(next)][1..] == [Accept(next)] && [Accept(next)][1..] == [];
    if s.acceptor.AwaitingPermit? {
      assert s.free > 0;
      var s1 := Step(s, AcquirePermit).value;
      assert Exec(s1, [Accept(next)]) == Step(s1, Accept(next));
    } else {
      assert Exec(s, [Accept(next)]) == Step(s, Accept(next));
    }
  }

  /** Every task goes on by itself: it begins, serves, closes and gives its permit back, or ends with the runtime. */
  lemma TasksGoOn(s: State, id: nat)
    requires id in s.tasks
    ensures var t := Exec(s, match s.tasks[id]
                             case Spawned => [Begin(id), Finish(id), Release(id)]
                             case InService => [Finish(id), Release(id)]
                             case Closing => [Release(id)]);
            && t.Some? && t.value.tasks == s.tasks - {id} && t.value.free == s.free + 1
            && t.value.active == s.active - (if s.tasks[id].InService? then 1 else 0)
    ensures s.acceptor.Returned? ==>
              Step(s, TearDown(id)).Some? && Step(s, TearDown(id)).value.tasks == s.tasks - {id}
  {
    var whole := [Begin(id), Finish(id), Release(id)];
    assert whole[1..] == [Finish(id), Release(id)] && whole[1..][1..] == [Release(id)] && whole[1..][1..][1..] == [];
    if s.tasks[id].Spawned? {
      var s1 := Step(s, Begin(id)).value;
      assert Exec(s, whole) == Exec(s1, whole[1..]);
      FromService(s1, id);
    } else if s.tasks[id].InService? {
      FromService(s, id);
    } else {
      FromClosing(s, id);
    }
  }

  lemma FromService(s: State, id: nat)
    requires id in s.tasks && s.tasks[id].InService?
    ensures var t := Exec(s, [Finish(id), Release(id)]);
            t.Some? && t.value.tasks == s.tasks - {id} && t.value.free == s.free + 1 && t.value.active == s.active - 1
  {
    var s1 := Step(s, Finish(id)).value;
    assert [Finish(id), Release(id)][1..] == [Release(id)];
    assert Exec(s, [Finish(id), Release(id)]) == Exec(s1, [Release(id)]);
    FromClosing(s1, id);
    assert s1.tasks - {id} == s.tasks - {id};
  }

  lemma FromClosing(s: State, id: nat)
    requires id in s.tasks && s.tasks[id].Closing?
    ensures Exec(s, [Release(id)]) == Some(s.(tasks := s.tasks - {id}, free := s.free + 1))
  {
    assert [Release(id)][1..] == [];
    assert Exec(s, [Release(id)]) == Step(s, Release(id));
  }

  // ----- the end of listening

  predicate Ends(l: Label) {
    l.AcceptFails? || l.SeeStop?
  }

  /** Once a stop has been asked for, listening can end, whatever the acceptor is waiting for. */
  lemma StopEndsListening(limit: nat, run: seq<Label>)
    requires Exec(Init(limit), run).Some?
    ensures var s := Exec(Init(limit), run).value;
            && (s.stopRequested <==> RequestStop in run)
            && (s.stopRequested && !s.acceptor.Returned? ==>
                  Step(s, SeeStop).Some? && Step(s, SeeStop).value.acceptor.Returned?)
  {
    StopSeen(Init(limit), run);
  }

  lemma {:induction false} StopSeen(s: State, run: seq<Label>)
    requires Exec(s, run).Some?
    ensures Exec(s, run).value.stopRequested <==> s.stopRequested || RequestStop in run
    decreases |run|
  {
    if run != [] {
      StopSeen(Step(s, run[0]).value, run[1..]);
      assert run == [run[0]] + run[1..];
    }
  }

  /** Listening ends exactly when an accept fails or an asked-for stop is seen, and never without either. */
  lemma ListeningEndsIff(limit: nat, run: seq<Label>)
    requires Exec(Init(limit), run).Some?
    ensures var s := Exec(Init(limit), run).value;
            && (s.acceptor.Returned? <==> exists l :: l in run && Ends(l))
            && (SeeStop in run ==> RequestStop in run)
  {
    EndSeen(Init(limit), run);
    if SeeStop in run {
      StopFirst(Init(limit), run);
    }
  }

  lemma {:induction false} EndSeen(s: State, run: seq<Label>)
    requires Exec(s, run).Some?
    ensures Exec(s, run).value.acceptor.Returned? <==> s.acceptor.Returned? || exists l :: l in run && Ends(l)
    decreases |run|
  {
    if run != [] {
      var s' := Step(s, run[0]).value;
      EndSeen(s', run[1..]);
      assert run == [run[0]] + run[1..];
      assert s'.acceptor.Returned? <==> s.acceptor.Returned? || Ends(run[0]);
      if l :| l in run && Ends(l) {
        assert l == run[0] || l in run[1..];
      }
      if l :| l in run[1..] && Ends(l) {
        assert l in run;
      }
      if Ends(run[0]) {
        assert run[0] in run;
      }
    }
  }

  lemma {:induction false} StopFirst(s: State, run: seq<Label>)
    requires Exec(s, run).Some? && SeeStop in run
    ensures s.stopRequested || RequestStop in run
    decreases |run|
  {
    assert run == [run[0]] + run[1..];
    if run[0] != SeeStop {
      StopFirst(Step(s, run[0]).value, run[1..]);
    }
  }

  /** After that no connection is accepted any more: only what was being served can still be. */
  lemma {:induction false} NothingAcceptedAfter(s: State, more: seq<Label>)
    requires s.acceptor.Returned? && Exec(s, more).Some?
    ensures var t := Exec(s, more).value; t.acceptor.Returned? && t.tasks.Keys <= s.tasks.Keys
    decreases |more|
  {
    if more != [] {
      NothingAcceptedAfter(Step(s, more[0]).value, more[1..]);
    }
  }
}
