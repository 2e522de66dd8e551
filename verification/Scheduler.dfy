/** The scheduler's own code, proved to do what the state machine says. */
module Scheduler {
  import opened SchedState
  import opened SchedRuns
  import opened SchedOrder

  class Scheduler {
    const idle: Tid
    var current: Tid
    var threads: Threads
    var list: seq<Tid>
    var blocked: seq<Tid>
    var doomed: seq<Tid>
    var ticks: nat
    var slice: nat
    var expedite: bool
    var held: nat

    ghost function Abs(): State
      reads this
    {
      State(idle, current, threads, list, blocked, doomed, ticks, slice, expedite, held)
    }

    constructor (idle: Tid)
      ensures Initial(Abs()) && Valid(Abs()) && this.idle == idle && ticks == 0
    {
      this.idle, current := idle, idle;
      threads := map[idle := Thread(Stopped, Priority(Normal, 0, 0), 0, 0, false)];
      list, blocked, doomed := [], [], [];
      ticks, slice, expedite, held := 0, 0, false, 0;
    }

    /** The first ready thread of the list that no ready thread beats, or the
        idle thread if none is ready. */
    method GetNextThread() returns (next: Tid)
      requires Wf(Abs())
      ensures next == Next(threads, list, idle, ticks * NS_PER_TICK)
      ensures next in threads
      ensures (forall t | t in list :: !Ready(threads, t)) ==> next == idle
      ensures forall j | 0 <= j < |list| && Ready(threads, list[j]) ::
                && next in list && Ready(threads, next)
                && Score(threads, list[j], ticks * NS_PER_TICK) <= Score(threads, next, ticks * NS_PER_TICK)
                && (Score(threads, list[j], ticks * NS_PER_TICK) == Score(threads, next, ticks * NS_PER_TICK) ==>
                      next in list[..j + 1])
      ensures FirstInOrder(threads, list, next, ticks * NS_PER_TICK)
    {
      hide Score, FirstInOrder;
      var now := ticks * NS_PER_TICK;
      var found, max := false, 0;
      next := idle;
      for i := 0 to |list|
        invariant var b := Best(threads, list, now, i);
                  && (found <==> b < i) && (found ==> next == list[b] && max == Score(threads, next, now))
                  && (!found ==> next == idle)
      {
        var t := list[i];
        if Ready(threads, t) && (!found || Score(threads, t, now) > max) {
          found, next, max := true, t, Score(threads, t, now);
        }
      }
      BestIsFirst(threads, list, now, |list|);
      NobodyBefore(threads, list, idle, now);
      if found {
        var b := Best(threads, list, now, |list|);
        forall j | b <= j < |list| && Ready(threads, list[j]) ensures next in list[..j + 1] {
          assert list[..j + 1][b] == next;
        }
      }
    }

    /** A switch: the processor goes to the ready thread of greatest priority,
        which starts to wait anew, and nobody else is touched. */
    method FindAndSwitch()
      requires Wf(Abs())
      modifies `threads, `current
      ensures Abs() == Switch(old(Abs()))
      ensures threads.Keys == old(threads).Keys && current in threads
      ensures Chosen(old(Abs()), current) && InOrder(old(Abs()), current)
      ensures threads[current].mode == Running && threads[current].priority.boost == 0
      ensures threads[current].priority.last == ticks * NS_PER_TICK
      ensures OthersSame(old(Abs()), Abs())
    {
      hide Next, InOrder, FirstInOrder;
      SwitchEffect(Abs());
      SwitchInOrder(Abs());
      if threads[current].mode == Running {
        threads := threads[current := threads[current].(mode := Stopped)];
      }
      var t := GetNextThread();
      var th := threads[t];
      threads := threads[t := th.(mode := Running, priority := Reset(th.priority, ticks * NS_PER_TICK))];
      current := t;
    }

    /** Wakes the sleepers whose time has come, taking each off the list of
        blocked threads as it is found. */
    method WakeUpThreads() returns (woke: bool)
      requires Wf(Abs()) && NoDup(blocked)
      modifies `threads, `blocked
      ensures Abs() == WakeAll(old(Abs()), Due(ticks * NS_PER_TICK))
      ensures woke <==> AnyHit(Due(ticks * NS_PER_TICK), old(threads), old(blocked))
    {
      hide NoDup, StayBlocked, WakeThreads, Progress, AnyHit;
      ghost var all, was, rule := blocked, threads, Due(ticks * NS_PER_TICK);
      var now := ticks * NS_PER_TICK;
      woke := false;
      var i: nat := 0;
      ghost var n: nat := 0;
      Started(rule, was, all);
      while i < |blocked|
        invariant n <= |all| && Progress(rule, was, all, n, threads, blocked, i)
        invariant woke <==> AnyHit(rule, was, all[..n])
        decreases |all| - n
      {
        Facing(rule, was, all, n, threads, blocked, i);
        var t := blocked[i];
        var th := threads[t];
        if th.mode == BlockedOnSleep && now >= th.wakeUp {
          WakeOne(rule, was, all, n, threads, blocked, i);
          threads := threads[t := th.(wakeUp := 0, mode := Stopped)];
          woke := true;
          blocked := blocked[..i] + blocked[i + 1..];
        } else {
          SkipOne(rule, was, all, n, threads, blocked, i);
          i := i + 1;
        }
        AnyHitStep(rule, was, all, n);
        n := n + 1;
      }
      Finished(rule, was, all, n, threads, blocked, i);
    }

    /** One tick of the clock: true if it is time to preempt somebody. */
    method Tick() returns (preempt: bool)
      requires Valid(Abs())
      modifies `ticks, `slice, `threads, `blocked, `expedite
      ensures Abs() == Ticked(old(Abs())) && (preempt <==> Preempts(old(Abs())))
    {
      hide NoDup, StayBlocked, WakeThreads, AnyHit, ThreadOk;
      ticks := ticks + 1;
      slice := slice + 1;
      var woke := WakeUpThreads();
      preempt := woke || expedite || slice * NS_PER_TICK >= TIMESLICE_DURATION_NS;
      expedite := false;
      if held > 0 {
        preempt := false;
      }
      if preempt {
        slice := 0;
      }
    }

    /** The interrupt handler of the clock. */
    method TickHandler()
      requires Valid(Abs())
      modifies this
      ensures Abs() == Apply(old(Abs()), SchedState.Tick)
      ensures Valid(Abs())
    {
      hide NoDup, Ticked, Preempts, ThreadOk, Switch;
      ghost var s := Abs();
      TickedValid(s);
      ApplyValid(s, SchedState.Tick);
      var preempt := Tick();
      if preempt {
        FindAndSwitch();
      }
    }

    /** The caller is put at the end of the list of blocked threads, in which it
        was not, waits on the condition and has lost the processor; only the
        thread that gets it changes besides. */
    method Block(cv: nat)
      requires Valid(Abs()) && Enabled(Abs(), BlockOn(cv))
      modifies this
      ensures Valid(Abs())
      ensures Abs() == Switch(Apply(old(Abs()), BlockOn(cv)))
      ensures old(current) !in old(blocked) && blocked == old(blocked) + [old(current)]
      ensures current != old(current) && GaveWay(old(Abs()), Abs())
      ensures threads[old(current)].mode == BlockedOnCondition && threads[old(current)].blockedOn == cv
    {
      hide NoDup, ThreadOk, Switch;
      ApplyValid(Abs(), BlockOn(cv));
      NotListed(Abs());
      BlockEffect(Abs(), BlockOn(cv));
      blocked := blocked + [current];
      threads := threads[current := threads[current].(blockedOn := cv, mode := BlockedOnCondition)];
      SwitchValid(Abs());
      FindAndSwitch();
    }

    /** Likewise, until a time of the clock. */
    method NanoSleep(ns: nat)
      requires Valid(Abs()) && Enabled(Abs(), Nanosleep(ns))
      modifies this
      ensures Valid(Abs())
      ensures Abs() == Switch(Apply(old(Abs()), Nanosleep(ns)))
      ensures old(current) !in old(blocked) && blocked == old(blocked) + [old(current)]
      ensures current != old(current) && GaveWay(old(Abs()), Abs())
      ensures threads[old(current)].mode == BlockedOnSleep
      ensures threads[old(current)].wakeUp == old(ticks) * NS_PER_TICK + ns
    {
      hide NoDup, ThreadOk, Switch;
      ApplyValid(Abs(), Nanosleep(ns));
      NotListed(Abs());
      BlockEffect(Abs(), Nanosleep(ns));
      threads := threads[current := threads[current].(mode := BlockedOnSleep, wakeUp := ticks * NS_PER_TICK + ns)];
      blocked := blocked + [current];
      SwitchValid(Abs());
      FindAndSwitch();
    }

    /** Wakes the threads that wait on a condition: all of them, or the first. */
    method Notify(cv: nat, all: bool)
      requires Valid(Abs())
      modifies `threads, `blocked
      ensures Abs() == Apply(old(Abs()), if all then NotifyAll(cv) else NotifyOne(cv))
      ensures Valid(Abs())
    {
      hide NoDup, StayBlocked, WakeThreads, FirstHit, ThreadOk, Apply, WakeAll, WakeFirst;
      ghost var s := Abs();
      ApplyValid(s, if all then NotifyAll(cv) else NotifyOne(cv));
      WakeWaiters(cv, all);
      if all {
        NotifiedAll(s, cv);
      } else {
        NotifiedOne(s, cv);
      }
    }

    /** The walk over the array of blocked threads. */
    method WakeWaiters(cv: nat, all: bool)
      requires NoDup(blocked) && forall t | t in blocked :: t in threads
      modifies `threads, `blocked
      ensures all ==> threads == WakeThreads(Waiting(cv), old(threads), old(blocked))
      ensures all ==> blocked == StayBlocked(Waiting(cv), old(threads), old(blocked))
      ensures !all ==> WokeFirst(Waiting(cv), old(threads), old(blocked), threads, blocked)
    {
      hide NoDup, StayBlocked, WakeThreads, Progress, FirstHit, AnyHit, Hit, Matches, Woken;
      ghost var queue, was, rule := blocked, threads, Waiting(cv);
      var i: nat := 0;
      ghost var n: nat := 0;
      Started(rule, was, queue);
      while i < |blocked|
        invariant n <= |queue| && Progress(rule, was, queue, n, threads, blocked, i)
        invariant !all ==> !AnyHit(rule, was, queue[..n])
        decreases |queue| - n
      {
        Facing(rule, was, queue, n, threads, blocked, i);
        AnyHitStep(rule, was, queue, n);
        WaitingMeans(was, queue[n], cv);
        var t := blocked[i];
        var th := threads[t];
        if th.mode == BlockedOnCondition && th.blockedOn == cv {
          WakeOne(rule, was, queue, n, threads, blocked, i);
          if !all {
            FirstOne(rule, was, queue, n, threads, blocked, i);
          }
          threads := threads[t := th.(blockedOn := 0, mode := Stopped, priority := Boosted(th.priority, 1))];
          blocked := blocked[..i] + blocked[i + 1..];
          if !all {
            return;
          }
        } else {
          SkipOne(rule, was, queue, n, threads, blocked, i);
          i := i + 1;
        }
        n := n + 1;
      }
      Finished(rule, was, queue, n, threads, blocked, i);
      if !all {
        NoHit(rule, was, queue);
      }
    }

    method Add(t: Tid, kind: Kind)
      requires Valid(Abs()) && t !in threads
      modifies `threads, `list
      ensures Abs() == Apply(old(Abs()), AddThread(t, kind)) && Valid(Abs())
    {
      ApplyValid(Abs(), AddThread(t, kind));
      threads := threads[t := Thread(Stopped, Priority(kind, 0, 0), 0, 0, false)];
      list := list + [t];
    }

    /** What the destroyer of threads does with the thread at the head of its
        queue; the list of blocked threads is not looked at. */
    method DestroyNext() returns (t: Tid)
      requires Valid(Abs()) && doomed != []
      modifies `threads, `list, `doomed
      ensures Abs() == Apply(old(Abs()), Destroy) && Valid(Abs()) && t == old(doomed)[0]
      ensures t in threads && threads[t].destroyed && t !in list && doomed == old(doomed)[1..]
      ensures forall u | u in old(threads) && u != t ::
                u in threads && threads[u] == old(threads)[u] && (u in list <==> u in old(list))
    {
      ApplyValid(Abs(), Destroy);
      t := doomed[0];
      doomed := doomed[1..];
      list := Without(list, t);
      threads := threads[t := threads[t].(destroyed := true)];
    }

    /** exit and terminate: the thread is marked and queued, and if it is the
        current one, gives way. */
    method Terminate(t: Tid)
      requires Valid(Abs()) && t in threads
      modifies this
      ensures Valid(Abs())
      ensures var u := Apply(old(Abs()), SchedState.Terminate(t));
              Abs() == if t == old(current) then Switch(u) else u
      ensures t in threads && t in doomed
      ensures t != idle ==> threads[t].mode == AboutToExit && current != t
      ensures t != old(current) ==> current == old(current)
      ensures forall u | u in old(threads) && u != t && u != current :: u in threads && threads[u] == old(threads)[u]
    {
      hide NoDup, ThreadOk, Switch;
      ApplyValid(Abs(), SchedState.Terminate(t));
      KillEffect(Abs(), t);
      threads := threads[t := threads[t].(mode := AboutToExit)];
      doomed := doomed + [t];
      SwitchValid(Abs());
      if t == current {
        FindAndSwitch();
      }
    }
  }

  /** The thread to run next: one that no other beats, or the idle thread if
      there is none. */
  ghost predicate Chosen(s: State, r: Tid) {
    && ((forall t | t in s.list :: !Contends(s, t)) ==> r == s.idle)
    && (forall t | t in s.list && Contends(s, t) ::
          r in s.list && Contends(s, r) && Score(s.threads, t, Now(s)) <= Score(s.threads, r, Now(s)))
  }

  /** Nothing but the threads that lose and get the processor has changed, and
      the one that loses it only from running to stopped. */
  ghost predicate OthersSame(s: State, u: State) {
    && u.threads.Keys == s.threads.Keys
    && (forall t | t in s.threads && t != s.current && t != u.current :: u.threads[t] == s.threads[t])
    && (s.current in s.threads && s.current != u.current ==>
          u.threads[s.current] ==
          if s.threads[s.current].mode == Running then s.threads[s.current].(mode := Stopped) else s.threads[s.current])
  }

  /** The caller has given the processor to another thread, and the rest have
      not been touched. */
  ghost predicate GaveWay(s: State, u: State) {
    && u.threads.Keys == s.threads.Keys && u.current in u.threads && u.threads[u.current].mode == Running
    && (forall t | t in s.threads && t != s.current && t != u.current :: u.threads[t] == s.threads[t])
    && u.list == s.list && u.doomed == s.doomed && u.ticks == s.ticks
  }

  lemma SwitchEffect(s: State)
    requires Wf(s)
    ensures var u := Switch(s);
            && Chosen(s, u.current) && OthersSame(s, u) && u.current in u.threads
            && u.threads[u.current].mode == Running && u.threads[u.current].priority.boost == 0
            && u.threads[u.current].priority.last == Now(s)
            && u.list == s.list && u.blocked == s.blocked && u.doomed == s.doomed && u.ticks == s.ticks
  {
    hide Next, Score;
    ChosenIs(s);
  }

  lemma ChosenIs(s: State)
    requires Wf(s)
    ensures Chosen(s, Next(Paused(s).threads, s.list, s.idle, Now(s)))
  {
    var p := Paused(s);
    assert forall t :: Score(p.threads, t, Now(s)) == Score(s.threads, t, Now(s));
    assert forall t :: Ready(p.threads, t) <==> Contends(s, t);
    hide Score, Paused, Contends, Ready;
    BestIsFirst(p.threads, s.list, Now(s), |s.list|);
    var i := Best(p.threads, s.list, Now(s), |s.list|);
    forall t | t in s.list && Contends(s, t)
      ensures i < |s.list| && Contends(s, s.list[i]) && Score(s.threads, t, Now(s)) <= Score(s.threads, s.list[i], Now(s))
    {
      var j :| 0 <= j < |s.list| && s.list[j] == t;
      assert Ready(p.threads, s.list[j]);
    }
  }

  lemma NotListed(s: State)
    requires Valid(s) && s.threads[s.current].mode == Running
    ensures s.current !in s.blocked
  {
    hide NoDup, ThreadOk;
  }

  /** The thread that blocks is not ready, so another one is chosen. */
  lemma BlockEffect(s: State, op: Op)
    requires Valid(s) && Enabled(s, op) && (op.BlockOn? || op.Nanosleep?)
    ensures var m := Apply(s, op);
            && Valid(m)
            && var u := Switch(m);
            && u.current != s.current && GaveWay(s, u) && u.blocked == s.blocked + [s.current]
            && u.threads[s.current] == m.threads[s.current]
  {
    hide NoDup, ThreadOk, Switch, Score;
    ApplyValid(s, op);
    SwitchEffect(Apply(s, op));
  }

  lemma KillEffect(s: State, t: Tid)
    requires Valid(s) && t in s.threads
    ensures var m := Apply(s, SchedState.Terminate(t));
            && Valid(m)
            && var u := if t == s.current then Switch(m) else m;
            && t in u.threads && t in u.doomed
            && (t != s.idle ==> u.threads[t].mode == AboutToExit && u.current != t)
            && (forall r | r in s.threads && r != t && r != u.current :: r in u.threads && u.threads[r] == s.threads[r])
  {
    hide NoDup, ThreadOk, Switch, Score;
    ApplyValid(s, SchedState.Terminate(t));
    SwitchEffect(Apply(s, SchedState.Terminate(t)));
  }

  lemma AnyHitStep(rule: Rule, threads: Threads, all: seq<Tid>, n: nat)
    requires n < |all|
    ensures AnyHit(rule, threads, all[..n + 1]) <==> AnyHit(rule, threads, all[..n]) || Hit(rule, threads, all[n])
  {
    hide Hit;
    Prefix(all, n);
    assert all[n] in all[..n + 1];
  }

  /** The first n of the list have been dealt with: those kept are in front. */
  ghost predicate Progress(rule: Rule, was: Threads, all: seq<Tid>, n: nat, threads: Threads, blocked: seq<Tid>, i: nat) {
    && n <= |all| && NoDup(all) && (forall t | t in all :: t in was)
    && blocked == StayBlocked(rule, was, all[..n]) + all[n..]
    && i == |StayBlocked(rule, was, all[..n])|
    && threads == WakeThreads(rule, was, all[..n])
  }

  lemma Started(rule: Rule, was: Threads, all: seq<Tid>)
    requires NoDup(all) && forall t | t in all :: t in was
    ensures Progress(rule, was, all, 0, was, all, 0) && !AnyHit(rule, was, all[..0])
  {
    assert all[..0] == [];
    assert WakeThreads(rule, was, []) == was;
  }

  lemma Prefix(all: seq<Tid>, n: nat)
    requires n < |all|
    ensures all[..n + 1] == all[..n] + [all[n]] && all[..n + 1][..n] == all[..n]
  {
  }

  lemma Facing(rule: Rule, was: Threads, all: seq<Tid>, n: nat, threads: Threads, blocked: seq<Tid>, i: nat)
    requires Progress(rule, was, all, n, threads, blocked, i) && i < |blocked|
    ensures n < |all| && blocked[i] == all[n] && all[n] in threads && threads[all[n]] == was[all[n]]
    ensures all[n] in was
  {
    hide StayBlocked;
    assert all[n] !in all[..n];
  }

  lemma WakeOne(rule: Rule, was: Threads, all: seq<Tid>, n: nat, threads: Threads, blocked: seq<Tid>, i: nat)
    requires Progress(rule, was, all, n, threads, blocked, i) && n < |all| && i < |blocked| && Hit(rule, was, all[n])
    requires all[n] in was
    ensures Progress(rule, was, all, n + 1, threads[all[n] := Woken(rule, was[all[n]])], blocked[..i] + blocked[i + 1..], i)
  {
    hide Woken;
    Prefix(all, n);
    var t := all[n];
    assert WakeThreads(rule, was, all[..n + 1]) == threads[t := Woken(rule, was[t])];
  }

  lemma SkipOne(rule: Rule, was: Threads, all: seq<Tid>, n: nat, threads: Threads, blocked: seq<Tid>, i: nat)
    requires Progress(rule, was, all, n, threads, blocked, i) && n < |all| && i < |blocked| && !Hit(rule, was, all[n])
    ensures Progress(rule, was, all, n + 1, threads, blocked, i + 1)
  {
    hide Woken;
    Prefix(all, n);
    assert WakeThreads(rule, was, all[..n + 1]) == threads;
  }

  lemma Finished(rule: Rule, was: Threads, all: seq<Tid>, n: nat, threads: Threads, blocked: seq<Tid>, i: nat)
    requires Progress(rule, was, all, n, threads, blocked, i) && i >= |blocked|
    ensures n == |all| && all[..n] == all
    ensures blocked == StayBlocked(rule, was, all) && threads == WakeThreads(rule, was, all)
  {
    hide StayBlocked;
    assert all[..|all|] == all;
  }

  /** When the first match is reached, nothing before it has been touched. */
  lemma FirstOne(rule: Rule, was: Threads, all: seq<Tid>, n: nat, threads: Threads, blocked: seq<Tid>, i: nat)
    requires Progress(rule, was, all, n, threads, blocked, i) && n < |all|
    requires !AnyHit(rule, was, all[..n]) && Hit(rule, was, all[n])
    ensures threads == was && blocked == all && i == n && FirstHit(rule, was, all) == n
    ensures WakeThreads(rule, was, [all[n]]) == was[all[n] := Woken(rule, was[all[n]])]
  {
    hide StayBlocked, FirstHit, WakeThreads, NoDup;
    forall j | 0 <= j < n ensures !Hit(rule, was, all[j]) {
      assert all[..n][j] == all[j];
    }
    NoneLeave(rule, was, all[..n]);
    NoneWoken(rule, was, all[..n]);
    OneWoken(rule, was, all[n]);
  }

  lemma WaitingMeans(threads: Threads, t: Tid, cv: nat)
    requires t in threads
    ensures var th := threads[t];
            && (Hit(Waiting(cv), threads, t) <==> th.mode == BlockedOnCondition && th.blockedOn == cv)
            && Woken(Waiting(cv), th) == th.(blockedOn := 0, mode := Stopped, priority := Boosted(th.priority, 1))
  {
  }

  /** The first match has been woken and taken out, if there was one. */
  ghost predicate WokeFirst(rule: Rule, was: Threads, all: seq<Tid>, threads: Threads, blocked: seq<Tid>) {
    var i := FirstHit(rule, was, all);
    if i == |all| then threads == was && blocked == all
    else threads == WakeThreads(rule, was, [all[i]]) && blocked == all[..i] + all[i + 1..]
  }

  lemma NotifiedOne(s: State, cv: nat)
    requires Wf(s)
    ensures Apply(s, NotifyOne(cv)) == WakeFirst(s, Waiting(cv))
    ensures var i := FirstHit(Waiting(cv), s.threads, s.blocked); var u := Apply(s, NotifyOne(cv));
            && (i == |s.blocked| ==> u == s)
            && (i < |s.blocked| ==> u == s.(threads := WakeThreads(Waiting(cv), s.threads, [s.blocked[i]]),
                                            blocked := s.blocked[..i] + s.blocked[i + 1..]))
  {
    hide FirstHit;
  }

  lemma NotifiedAll(s: State, cv: nat)
    requires Wf(s)
    ensures Apply(s, NotifyAll(cv)) == s.(threads := WakeThreads(Waiting(cv), s.threads, s.blocked),
                                          blocked := StayBlocked(Waiting(cv), s.threads, s.blocked))
  {
  }

  lemma OneWoken(rule: Rule, was: Threads, t: Tid)
    requires Hit(rule, was, t)
    ensures WakeThreads(rule, was, [t]) == was[t := Woken(rule, was[t])]
  {
    hide Woken, Matches;
  }

  lemma {:induction false} NoneLeave(rule: Rule, was: Threads, list: seq<Tid>)
    requires !AnyHit(rule, was, list)
    ensures StayBlocked(rule, was, list) == list
    decreases |list|
  {
    hide Hit;
    if list != [] {
      var n := |list| - 1;
      assert list == list[..n] + [list[n]];
      NoneLeave(rule, was, list[..n]);
    }
  }

  lemma NoneWoken(rule: Rule, was: Threads, list: seq<Tid>)
    requires !AnyHit(rule, was, list)
    ensures WakeThreads(rule, was, list) == was
  {
    hide Woken, Matches;
    forall t | t in was && t in list ensures !Matches(rule, was[t]) {
      assert !Hit(rule, was, t);
    }
  }

  lemma NoHit(rule: Rule, was: Threads, all: seq<Tid>)
    requires !AnyHit(rule, was, all)
    ensures FirstHit(rule, was, all) == |all| && StayBlocked(rule, was, all) == all && WakeThreads(rule, was, all) == was
  {
    hide FirstHit, StayBlocked, WakeThreads, Hit;
    forall j | 0 <= j < |all| ensures !Hit(rule, was, all[j]) {
      assert all[j] in all;
    }
    NoneLeave(rule, was, all);
    NoneWoken(rule, was, all);
  }
}
