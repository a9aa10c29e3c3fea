/**
 The polling loop behind the bounded attempt to lock the client. The other threads are a function
 from a moment to whether the lock is free then; `late` says how much each nap overshoots.
 */
module ClientLock {
  import opened Lifecycle

  /** The loop looks in vain before the deadline, and naps. */
  ghost predicate Nap(free: nat -> bool, late: nat -> nat, giveUp: nat, polls: seq<nat>, i: nat)
    requires i + 1 < |polls|
  {
    !free(polls[i]) && polls[i] < giveUp && polls[i + 1] == polls[i] + 10 + late(polls[i])
  }

  /** The moments at which the loop looked. */
  ghost predicate Polls(free: nat -> bool, late: nat -> nat, start: nat, giveUp: nat, polls: seq<nat>) {
    && |polls| > 0 && polls[0] == start
    && (forall i :: 0 <= i < |polls| - 1 ==> Nap(free, late, giveUp, polls, i))
  }

  lemma PollAgain(free: nat -> bool, late: nat -> nat, start: nat, giveUp: nat, polls: seq<nat>)
    requires Polls(free, late, start, giveUp, polls)
    requires var now := polls[|polls| - 1]; !free(now) && now < giveUp
    ensures var now := polls[|polls| - 1]; Polls(free, late, start, giveUp, polls + [now + POLL + late(now)])
  {
    var now := polls[|polls| - 1];
    var more := polls + [now + POLL + late(now)];
    forall i | 0 <= i < |more| - 1 ensures Nap(free, late, giveUp, more, i) {
      if i < |polls| - 1 {
        assert Nap(free, late, giveUp, polls, i);
      }
    }
  }

  /**
   Locks the client at the first poll that finds it free, gives up at the first one past the deadline,
   and either way is done within the deadline and one nap.
   */
  method TryLock(free: nat -> bool, late: nat -> nat, slack: nat, start: nat, deadline: nat)
    returns (locked: bool, polls: seq<nat>)
    requires forall t :: late(t) <= slack
    ensures Polls(free, late, start, start + deadline, polls)
    ensures locked <==> free(polls[|polls| - 1])
    ensures !locked ==> start + deadline <= polls[|polls| - 1]
    ensures polls[|polls| - 1] <= start + deadline + 10 + slack
  {
    hide Polls;
    var giveUp := start + deadline;
    var now := start;
    polls := [now];
    Begin(free, late, start, giveUp);
    while !free(now) && now < giveUp
      invariant |polls| > 0 && Polls(free, late, start, giveUp, polls)
      invariant now == polls[|polls| - 1] && now <= giveUp + POLL + slack
      decreases giveUp + POLL + slack - now
    {
      PollAgain(free, late, start, giveUp, polls);
      now := now + POLL + late(now);
      polls := polls + [now];
    }
    locked := free(now);
  }

  lemma Begin(free: nat -> bool, late: nat -> nat, start: nat, giveUp: nat)
    ensures Polls(free, late, start, giveUp, [start])
  {
  }
}
