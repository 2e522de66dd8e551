/** What holds in every state the scheduler can reach. */
module SchedRuns {
  import opened SchedState

  predicate IsBlocked(mode: Mode) {
    mode == BlockedOnCondition || mode == BlockedOnSleep
  }

  ghost predicate NoDup(list: seq<Tid>) {
    forall i, j | 0 <= i < j < |list| :: list[i] != list[j]
  }

  /** One thread of a state is as it should be. */
  ghost predicate ThreadOk(s: State, t: Tid, th: Thread) {
    && (th.mode == Running ==> t == s.current)
    && (IsBlocked(th.mode) ==> t in s.blocked)
    && (th.mode == AboutToExit ==> t in s.doomed || th.destroyed)
    && th.priority.last <= Now(s)
  }

  ghost predicate Valid(s: State) {
    && Wf(s)
    && s.idle !in s.list && s.idle !in s.blocked
    && NoDup(s.blocked)
    && (forall t | t in s.blocked :: IsBlocked(s.threads[t].mode) || s.threads[t].mode == AboutToExit)
    && (forall t | t in s.threads :: ThreadOk(s, t, s.threads[t]))
  }

  // ---- The choice ----

  /** What the search finds is ready, is beaten by none, and is the first such. */
  lemma {:induction false} BestIsFirst(threads: Threads, list: seq<Tid>, now: nat, n: nat)
    requires n <= |list|
    ensures var i := Best(threads, list, now, n);
            && (i < n ==> Ready(threads, list[i]))
            && (i == n ==> forall j | 0 <= j < n :: !Ready(threads, list[j]))
            && (forall j | 0 <= j < n && Ready(threads, list[j]) ::
                  && Score(threads, list[j], now) <= Score(threads, list[i], now)
                  && (j < i ==> Score(threads, list[j], now) < Score(threads, list[i], now)))
  {
    hide Score;
    if n > 0 {
      BestIsFirst(threads, list, now, n - 1);
    }
  }

  lemma NextWins(threads: Threads, list: seq<Tid>, idle: Tid, now: nat, t: Tid)
    requires t in list && Ready(threads, t) && idle !in list
    ensures var r := Next(threads, list, idle, now);
            r in list && Ready(threads, r) && Score(threads, t, now) <= Score(threads, r, now)
  {
    hide Score;
    BestIsFirst(threads, list, now, |list|);
    var j :| 0 <= j < |list| && list[j] == t;
  }

  lemma NextIsReady(threads: Threads, list: seq<Tid>, idle: Tid, now: nat)
    ensures var r := Next(threads, list, idle, now); r == idle || (r in list && Ready(threads, r))
  {
    hide Score;
    BestIsFirst(threads, list, now, |list|);
  }

  // ---- Every operation keeps the state valid ----

  lemma PausedValid(s: State)
    requires Valid(s)
    ensures Valid(Paused(s)) && (forall t | t in Paused(s).threads :: Paused(s).threads[t].mode != Running)
  {
  }

  lemma SwitchValid(s: State)
    requires Valid(s)
    ensures Valid(Switch(s)) && Switch(s).threads[Switch(s).current].mode == Running
  {
    hide Next, Paused;
    var p := Paused(s);
    PausedValid(s);
    NextIsReady(p.threads, p.list, p.idle, Now(p));
  }

  lemma StayNoDup(rule: Rule, threads: Threads, blocked: seq<Tid>)
    requires NoDup(blocked)
    ensures NoDup(StayBlocked(rule, threads, blocked))
  {
    hide Matches;
    if blocked != [] {
      var n := |blocked| - 1;
      StayNoDup(rule, threads, blocked[..n]);
      assert blocked[n] !in blocked[..n];
    }
  }

  lemma WakeAllValid(s: State, rule: Rule)
    requires Valid(s)
    ensures Valid(WakeAll(s, rule))
  {
    hide StayBlocked, NoDup;
    StayNoDup(rule, s.threads, s.blocked);
  }

  lemma WakeFirstValid(s: State, rule: Rule)
    requires Valid(s)
    ensures Valid(WakeFirst(s, rule))
  {
    hide FirstHit, NoDup, ThreadOk;
    var i := FirstHit(rule, s.threads, s.blocked);
    if i < |s.blocked| {
      Removed(s.blocked, i);
      var u := WakeFirst(s, rule);
      forall t | t in u.threads ensures ThreadOk(u, t, u.threads[t]) {
        WakeFirstOk(s, rule, t);
      }
    }
  }

  lemma WakeFirstOk(s: State, rule: Rule, t: Tid)
    requires Valid(s) && t in s.threads && FirstHit(rule, s.threads, s.blocked) < |s.blocked|
    ensures ThreadOk(WakeFirst(s, rule), t, WakeFirst(s, rule).threads[t])
  {
    hide FirstHit;
    Removed(s.blocked, FirstHit(rule, s.threads, s.blocked));
  }

  lemma Removed(list: seq<Tid>, i: nat)
    requires NoDup(list) && i < |list|
    ensures var r := list[..i] + list[i + 1..]; NoDup(r) && forall t :: t in r <==> t in list && t != list[i]
  {
    var r := list[..i] + list[i + 1..];
    forall t | t in list && t != list[i] ensures t in r {
      var j :| 0 <= j < |list| && list[j] == t;
      assert r[if j < i then j else j - 1] == t;
    }
  }

  lemma TickedValid(s: State)
    requires Valid(s)
    ensures Valid(Ticked(s))
  {
    hide StayBlocked, WakeThreads, NoDup, Preempts;
    var c := Counted(s);
    assert Now(c) == Now(s) + NS_PER_TICK;
    assert Valid(c);
    WakeAllValid(c, Due(Now(c)));
  }

  lemma BlockValid(s: State, u: State, th: Thread)
    requires Valid(s) && s.threads[s.current].mode == Running && s.current != s.idle
    requires IsBlocked(th.mode) && th.priority == s.threads[s.current].priority
    requires u == s.(threads := s.threads[s.current := th], blocked := s.blocked + [s.current])
    ensures Valid(u)
  {
  }

  lemma ReapValid(s: State)
    requires Valid(s) && s.doomed != []
    ensures Valid(Reap(s))
  {
  }

  lemma KillValid(s: State, t: Tid)
    requires Valid(s) && t in s.threads
    ensures Valid(Kill(s, t))
  {
    hide NoDup;
  }

  lemma AddValid(s: State, t: Tid, kind: Kind)
    requires Valid(s) && t !in s.threads
    ensures Valid(Add(s, t, kind))
  {
    hide NoDup;
  }

  lemma EncourageValid(s: State, t: Tid, amount: nat)
    requires Valid(s) && t in s.threads
    ensures Valid(Encourage(s, t, amount))
  {
    hide NoDup;
  }

  lemma ApplyValid(s: State, op: Op)
    requires Valid(s) && Enabled(s, op)
    ensures Valid(Apply(s, op))
  {
    hide NoDup, Switch, Ticked, Preempts, WakeAll, WakeFirst, Reap, Kill, Add, Encourage;
    match op {
      case Tick => TickedValid(s); SwitchValid(Ticked(s));
      case Yield => SwitchValid(s);
      case BlockOn(cv) => BlockValid(s, Block(s, cv), Block(s, cv).threads[s.current]);
      case Nanosleep(ns) => BlockValid(s, Sleep(s, ns), Sleep(s, ns).threads[s.current]);
      case NotifyOne(cv) => WakeFirstValid(s, Waiting(cv));
      case NotifyAll(cv) => WakeAllValid(s, Waiting(cv));
      case Destroy => ReapValid(s);
      case Terminate(t) => KillValid(s, t);
      case AddThread(t, kind) => AddValid(s, t, kind);
      case Boost(t, amount) => EncourageValid(s, t, amount);
      case _ =>
    }
  }

  // ---- Runs ----

  ghost predicate CanRun(s: State, ops: seq<Op>)
    requires Valid(s)
    decreases |ops|, 0
  {
    ops == [] ||
    var n := |ops| - 1;
    CanRun(s, ops[..n]) && Enabled(After(s, ops[..n]), ops[n])
  }

  /** The state after a run of operations. */
  ghost function After(s: State, ops: seq<Op>): (r: State)
    requires Valid(s) && CanRun(s, ops)
    ensures Valid(r)
    decreases |ops|, 1
  {
    if ops == [] then s
    else
      var n := |ops| - 1;
      var u := After(s, ops[..n]);
      ApplyValid(u, ops[n]);
      Apply(u, ops[n])
  }

  /** The scheduler as it comes up: the idle thread, and nothing else. */
  predicate Initial(s: State) {
    && s.threads == map[s.idle := Thread(Stopped, Priority(Normal, 0, 0), 0, 0, false)]
    && s.current == s.idle && s.list == [] && s.blocked == [] && s.doomed == []
  }

  /** In every state that can be reached only the current thread says it is
      running, and just after a switch it does. */
  lemma OnlyCurrentRuns(s: State, ops: seq<Op>, t: Tid)
    requires Initial(s) && CanRun(s, ops)
    ensures var u := After(s, ops); t in u.threads && u.threads[t].mode == Running ==> t == u.current
    ensures CanRun(s, ops + [Yield]) && var v := After(s, ops + [Yield]); v.threads[v.current].mode == Running
  {
    hide Switch, NoDup, Apply;
    InitialValid(s);
    var u := After(s, ops);
    SwitchOp(u);
    assert (ops + [Yield])[..|ops|] == ops;
    SwitchValid(u);
    RunningIsCurrent(u, t);
  }

  lemma RunningIsCurrent(u: State, t: Tid)
    requires Valid(u)
    ensures t in u.threads && u.threads[t].mode == Running ==> t == u.current
  {
  }

  // ---- What one step may do to one thread ----

  /** A step from s to u has treated thread t as the rules allow. */
  ghost predicate Moves(s: State, u: State, t: Tid) {
    t in s.threads && t in u.threads && u.idle == s.idle && Now(s) <= Now(u) &&
    var a, b := s.threads[t], u.threads[t];
    && (a.mode == AboutToExit && t != s.idle ==> b.mode == AboutToExit && (u.current == t ==> s.current == t))
    && (a.mode == BlockedOnSleep ==>
          (b.mode == BlockedOnSleep && b.wakeUp == a.wakeUp) || b.mode == AboutToExit || Now(u) >= a.wakeUp)
    && b.priority.kind == a.priority.kind && b.priority.last >= a.priority.last
    && (b.mode == Stopped ==> b.priority.last == a.priority.last && b.priority.boost >= a.priority.boost)
  }

  lemma SwitchMoves(s: State, t: Tid)
    requires Valid(s) && t in s.threads
    ensures Moves(s, Switch(s), t)
  {
    hide Next, NoDup;
    var p := Paused(s);
    NextIsReady(p.threads, p.list, p.idle, Now(p));
  }

  lemma WakeAllMoves(s: State, rule: Rule, t: Tid)
    requires Valid(s) && t in s.threads && (rule.Due? ==> rule.now == Now(s))
    ensures Moves(s, WakeAll(s, rule), t)
  {
    hide StayBlocked, NoDup;
  }

  lemma WakeFirstMoves(s: State, rule: Rule, t: Tid)
    requires Valid(s) && t in s.threads && rule.Waiting?
    ensures Moves(s, WakeFirst(s, rule), t)
  {
    hide FirstHit, NoDup;
  }

  lemma TickedMoves(s: State, t: Tid)
    requires Valid(s) && t in s.threads
    ensures Moves(s, Ticked(s), t)
  {
    hide StayBlocked, NoDup, Preempts, WakeThreads;
    var c := Counted(s);
    assert Now(c) == Now(s) + NS_PER_TICK;
    assert Valid(c);
    WakeAllMoves(c, Due(Now(c)), t);
  }

  lemma ReapMoves(s: State, t: Tid)
    requires Valid(s) && t in s.threads && s.doomed != []
    ensures Moves(s, Reap(s), t)
  {
    hide NoDup, ThreadOk, Without;
  }

  lemma ApplyMoves(s: State, op: Op, t: Tid)
    requires Valid(s) && Enabled(s, op) && t in s.threads
    ensures Moves(s, Apply(s, op), t)
  {
    hide NoDup, Switch, Ticked, Preempts, WakeAll, WakeFirst, Reap, Without;
    match op {
      case Tick =>
        TickedValid(s);
        TickedMoves(s, t);
        SwitchMoves(Ticked(s), t);
        TickMoves(s, t);
      case Yield => SwitchMoves(s, t);
      case NotifyOne(cv) => WakeFirstMoves(s, Waiting(cv), t);
      case NotifyAll(cv) => WakeAllMoves(s, Waiting(cv), t);
      case Destroy => ReapMoves(s, t);
      case _ =>
    }
  }

  lemma TickMoves(s: State, t: Tid)
    requires Valid(s) && t in s.threads && Valid(Ticked(s)) && Moves(s, Ticked(s), t)
    requires Moves(Ticked(s), Switch(Ticked(s)), t)
    ensures Moves(s, Switch(Ticked(s)), t)
  {
    hide NoDup, Switch, Preempts, StayBlocked;
  }

  // ---- Over whole runs ----

  /** A thread marked for exit stays marked and never becomes current again. */
  lemma {:induction false} ExitIsFinal(s: State, ops: seq<Op>, t: Tid)
    requires Valid(s) && CanRun(s, ops)
    requires t in s.threads && s.threads[t].mode == AboutToExit && t != s.idle
    ensures var u := After(s, ops);
            && u.idle == s.idle && t in u.threads && u.threads[t].mode == AboutToExit
            && (s.current != t ==> u.current != t)
    decreases |ops|
  {
    hide NoDup, Apply, ThreadOk;
    if ops != [] {
      var n := |ops| - 1;
      ExitIsFinal(s, ops[..n], t);
      ApplyMoves(After(s, ops[..n]), ops[n], t);
    }
  }

  /** A sleeping thread is not let go before its time, however the scheduler
      runs in between. */
  lemma {:induction false} NoEarlyWake(s: State, ops: seq<Op>, t: Tid)
    requires Valid(s) && CanRun(s, ops) && t in s.threads && s.threads[t].mode == BlockedOnSleep && t != s.idle
    ensures var u := After(s, ops);
            && t in u.threads && u.idle == s.idle
            && ((u.threads[t].mode == BlockedOnSleep && u.threads[t].wakeUp == s.threads[t].wakeUp)
                || u.threads[t].mode == AboutToExit || Now(u) >= s.threads[t].wakeUp)
    decreases |ops|
  {
    hide NoDup, Apply, ThreadOk;
    if ops != [] {
      var n := |ops| - 1;
      NoEarlyWake(s, ops[..n], t);
      ApplyMoves(After(s, ops[..n]), ops[n], t);
    }
  }

  /** So nanosleep lasts at least as long as it was asked to. */
  lemma SleepLasts(s: State, ns: nat, ops: seq<Op>)
    requires Valid(s) && Enabled(s, Nanosleep(ns)) && Valid(Apply(s, Nanosleep(ns))) && CanRun(Apply(s, Nanosleep(ns)), ops)
    ensures var u := After(Apply(s, Nanosleep(ns)), ops);
            && s.current in u.threads
            && (u.threads[s.current].mode in {Stopped, Running, BlockedOnCondition} ==> Now(u) >= Now(s) + ns)
  {
    hide CanRun, After, NoDup, ThreadOk;
    NoEarlyWake(Apply(s, Nanosleep(ns)), ops, s.current);
  }

  /** What a step without a notification does to a thread that waits. */
  lemma WaitsOn(s: State, op: Op, t: Tid)
    requires Valid(s) && Enabled(s, op) && t in s.threads && t != s.idle && s.threads[t].mode == BlockedOnCondition
    requires op != NotifyOne(s.threads[t].blockedOn) && op != NotifyAll(s.threads[t].blockedOn)
    ensures var a, u := s.threads[t], Apply(s, op);
            && t in u.threads && u.idle == s.idle
            && (u.threads[t].mode == AboutToExit
                || (u.threads[t].mode == BlockedOnCondition && u.threads[t].blockedOn == a.blockedOn))
  {
    hide NoDup, Preempts, StayBlocked, Switch, FirstHit, ThreadOk;
    if op == Tick {
      TickedValid(s);
      SwitchWaits(Ticked(s), t);
    } else if op == Yield {
      SwitchWaits(s, t);
    }
  }

  lemma SwitchWaits(s: State, t: Tid)
    requires Valid(s) && t in s.threads && t != s.idle && s.threads[t].mode == BlockedOnCondition
    ensures var u := Switch(s); u.idle == s.idle && t in u.threads && u.threads[t] == s.threads[t]
  {
    hide NoDup, Next;
    NextIsReady(Paused(s).threads, s.list, s.idle, Now(s));
  }

  /** A thread waiting on a condition goes on waiting, over every run in which
      that condition is not notified, unless it is terminated. */
  lemma {:induction false} NoSpuriousWake(s: State, ops: seq<Op>, t: Tid)
    requires Valid(s) && CanRun(s, ops) && t in s.threads && t != s.idle && s.threads[t].mode == BlockedOnCondition
    requires NotifyOne(s.threads[t].blockedOn) !in ops && NotifyAll(s.threads[t].blockedOn) !in ops
    ensures var u := After(s, ops);
            && t in u.threads && u.idle == s.idle
            && (u.threads[t].mode == AboutToExit
                || (u.threads[t].mode == BlockedOnCondition && u.threads[t].blockedOn == s.threads[t].blockedOn))
    decreases |ops|
  {
    hide NoDup, Apply, ThreadOk;
    if ops != [] {
      var n := |ops| - 1;
      assert ops == ops[..n] + [ops[n]];
      NoSpuriousWake(s, ops[..n], t);
      var u := After(s, ops[..n]);
      ApplyMoves(u, ops[n], t);
      if u.threads[t].mode == BlockedOnCondition {
        WaitsOn(u, ops[n], t);
      }
    }
  }

  /** And after every tick no thread is asleep whose time has come. */
  lemma NoLateWake(s: State, t: Tid)
    requires Valid(s)
    ensures Valid(Apply(s, Tick))
    ensures var u := Apply(s, Tick);
            t in u.threads && u.threads[t].mode == BlockedOnSleep ==> Now(u) < u.threads[t].wakeUp
  {
    ApplyValid(s, Tick);
    TickedValid(s);
    TickedWakes(s, t);
    SwitchSleeps(Ticked(s), t);
  }

  lemma TickedWakes(s: State, t: Tid)
    requires Valid(s)
    ensures var u := Ticked(s);
            t in u.threads && u.threads[t].mode == BlockedOnSleep ==> Now(u) < u.threads[t].wakeUp
  {
    hide StayBlocked, NoDup, Preempts;
    if t in s.threads {
      assert ThreadOk(s, t, s.threads[t]);
    }
  }

  lemma SwitchSleeps(s: State, t: Tid)
    requires Valid(s)
    ensures var u := Switch(s);
            && Now(u) == Now(s)
            && (t in u.threads && u.threads[t].mode == BlockedOnSleep ==> t in s.threads && u.threads[t] == s.threads[t])
  {
    hide Next, NoDup;
  }

  /** notifyOne lets go of the waiter that has been in the queue longest, with
      a boost, and touches no other thread. */
  lemma NotifyOneWakesFirst(s: State, cv: nat)
    requires Valid(s)
    ensures var u := Apply(s, NotifyOne(cv));
            var i := FirstHit(Waiting(cv), s.threads, s.blocked);
            && (i == |s.blocked| ==> u == s && forall t | t in s.threads :: !Matches(Waiting(cv), s.threads[t]))
            && u.threads.Keys == s.threads.Keys
            && (i < |s.blocked| ==> u.threads[s.blocked[i]] == Woken(Waiting(cv), s.threads[s.blocked[i]]))
            && (i < |s.blocked| ==> forall t | t in s.threads && t != s.blocked[i] ::
                  u.threads[t] == s.threads[t] && (t in u.blocked <==> t in s.blocked))
  {
    hide FirstHit, Woken;
    var i := FirstHit(Waiting(cv), s.threads, s.blocked);
    if i == |s.blocked| {
      forall t | t in s.threads ensures !Matches(Waiting(cv), s.threads[t]) {
        assert ThreadOk(s, t, s.threads[t]);
        if t in s.blocked {
          assert !Hit(Waiting(cv), s.threads, t);
        }
      }
    } else {
      Removed(s.blocked, i);
    }
  }

  /** notifyAll lets go of exactly those that wait on the condition. */
  lemma NotifyAllWakesAll(s: State, cv: nat, t: Tid)
    requires Valid(s) && t in s.threads
    ensures var u := Apply(s, NotifyAll(cv));
            && t in u.threads
            && (Matches(Waiting(cv), s.threads[t]) ==>
                  u.threads[t] == Woken(Waiting(cv), s.threads[t]) && t !in u.blocked)
            && (!Matches(Waiting(cv), s.threads[t]) ==>
                  u.threads[t] == s.threads[t] && (t in u.blocked <==> t in s.blocked))
  {
    hide StayBlocked, NoDup;
    assert ThreadOk(s, t, s.threads[t]);
  }

  // ---- Destroyed threads ----

  /** No thread in the list of blocked threads has been destroyed. */
  ghost predicate NoneDangling(s: State) {
    forall t | t in s.blocked && t in s.threads :: !s.threads[t].destroyed
  }

  /** The threads a run has terminated while they were in the list of blocked
      threads. */
  ghost function Caught(s: State, ops: seq<Op>): set<Tid>
    requires Valid(s) && CanRun(s, ops)
    decreases |ops|
  {
    if ops == [] then {}
    else
      var n := |ops| - 1;
      CaughtNext(After(s, ops[..n]), ops[n], Caught(s, ops[..n]))
  }

  ghost function CaughtNext(s: State, op: Op, c: set<Tid>): set<Tid> {
    if op.Terminate? && op.t in s.blocked then c + {op.t} else c
  }

  predicate Marked(s: State, t: Tid) {
    t in s.threads && (t in s.doomed || s.threads[t].destroyed)
  }

  /** Threads queued for destruction or destroyed are about to exit, the idle
      thread apart, and those of them that are listed as blocked are the ones
      that were terminated while they were. */
  ghost predicate CaughtOk(s: State, c: set<Tid>) {
    && (forall t | Marked(s, t) && t != s.idle :: s.threads[t].mode == AboutToExit)
    && (forall t :: t in c <==> t in s.blocked && Marked(s, t))
  }

  lemma CaughtKept(s: State, u: State, c: set<Tid>)
    requires Valid(s) && CaughtOk(s, c) && u.idle == s.idle && u.doomed == s.doomed && u.threads.Keys == s.threads.Keys
    requires forall t | t in s.threads :: u.threads[t].destroyed == s.threads[t].destroyed
    requires forall t | t in s.threads && s.threads[t].mode == AboutToExit && t != s.idle ::
               u.threads[t].mode == AboutToExit && (t in u.blocked <==> t in s.blocked)
    requires forall t | t in u.blocked :: t in s.blocked || (t in s.threads && s.threads[t].mode == Running && t != s.idle)
    ensures CaughtOk(u, c)
  {
    hide NoDup, ThreadOk;
    forall t ensures t in c <==> t in u.blocked && Marked(u, t) {
      if Marked(s, t) && t != s.idle {
        assert s.threads[t].mode == AboutToExit;
      }
    }
  }

  lemma SwitchCaught(s: State, c: set<Tid>)
    requires Valid(s) && CaughtOk(s, c)
    ensures CaughtOk(Switch(s), c)
  {
    hide Next, NoDup, ThreadOk, CaughtOk;
    var p := Paused(s);
    NextIsReady(p.threads, p.list, p.idle, Now(p));
    CaughtKept(s, Switch(s), c);
  }

  lemma WakeAllCaught(s: State, rule: Rule, c: set<Tid>)
    requires Valid(s) && CaughtOk(s, c)
    ensures CaughtOk(WakeAll(s, rule), c)
  {
    hide StayBlocked, NoDup, ThreadOk, CaughtOk;
    CaughtKept(s, WakeAll(s, rule), c);
  }

  lemma WakeFirstCaught(s: State, rule: Rule, c: set<Tid>)
    requires Valid(s) && CaughtOk(s, c)
    ensures CaughtOk(WakeFirst(s, rule), c)
  {
    hide FirstHit, NoDup, ThreadOk, CaughtOk;
    var i := FirstHit(rule, s.threads, s.blocked);
    if i < |s.blocked| {
      Removed(s.blocked, i);
    }
    CaughtKept(s, WakeFirst(s, rule), c);
  }

  lemma TickedCaught(s: State, c: set<Tid>)
    requires Valid(s) && CaughtOk(s, c)
    ensures CaughtOk(Ticked(s), c)
  {
    hide StayBlocked, WakeThreads, NoDup, Preempts;
    var d := Counted(s);
    assert Now(d) == Now(s) + NS_PER_TICK;
    assert Valid(d);
    assert CaughtOk(d, c);
    WakeAllCaught(d, Due(Now(d)), c);
  }

  lemma KillCaught(s: State, t: Tid, c: set<Tid>)
    requires Valid(s) && CaughtOk(s, c) && t in s.threads
    ensures CaughtOk(Kill(s, t), CaughtNext(s, Terminate(t), c))
  {
    hide NoDup, ThreadOk;
    var u := Kill(s, t);
    assert forall x :: Marked(u, x) <==> Marked(s, x) || x == t;
  }

  lemma ReapCaught(s: State, c: set<Tid>)
    requires Valid(s) && CaughtOk(s, c) && s.doomed != []
    ensures CaughtOk(Reap(s), c)
  {
    hide NoDup, ThreadOk, Without;
    var u := Reap(s);
    assert s.doomed == [s.doomed[0]] + s.doomed[1..];
    assert forall x :: Marked(u, x) <==> Marked(s, x);
  }

  lemma ApplyCaught(s: State, op: Op, c: set<Tid>)
    requires Valid(s) && Enabled(s, op) && CaughtOk(s, c)
    ensures CaughtOk(Apply(s, op), CaughtNext(s, op, c))
  {
    hide NoDup, Switch, Ticked, Preempts, WakeAll, WakeFirst, Reap, Kill, CaughtOk, ThreadOk;
    match op {
      case Tick =>
        TickedValid(s);
        TickedCaught(s, c);
        SwitchCaught(Ticked(s), c);
      case Yield => SwitchCaught(s, c);
      case NotifyOne(cv) => WakeFirstCaught(s, Waiting(cv), c);
      case NotifyAll(cv) => WakeAllCaught(s, Waiting(cv), c);
      case Terminate(t) => KillCaught(s, t, c);
      case Destroy => ReapCaught(s, c);
      case AddThread(t, kind) => AddCaught(s, t, kind, c);
      case _ => CaughtKept(s, Apply(s, op), c);
    }
  }

  lemma AddCaught(s: State, t: Tid, kind: Kind, c: set<Tid>)
    requires Valid(s) && CaughtOk(s, c) && t !in s.threads
    ensures CaughtOk(Add(s, t, kind), c)
  {
    hide NoDup, ThreadOk;
    assert forall x :: Marked(Add(s, t, kind), x) <==> Marked(s, x);
  }

  lemma {:induction false} RunCaught(s: State, ops: seq<Op>)
    requires Initial(s) && Valid(s) && CanRun(s, ops)
    ensures CaughtOk(After(s, ops), Caught(s, ops))
    decreases |ops|
  {
    hide Apply, Valid, Enabled, CaughtNext;
    if ops != [] {
      var n := |ops| - 1;
      RunCaught(s, ops[..n]);
      ApplyCaught(After(s, ops[..n]), ops[n], Caught(s, ops[..n]));
    }
  }

  /** The entries that dangle after a run are exactly the threads that it has
      terminated while they were blocked and that have been destroyed since. So
      as long as terminate is called for threads that are not blocked only, none
      ever dangles; and once the destroyer has caught up, none does if and only
      if terminate has been called that way. */
  lemma Dangling(s: State, ops: seq<Op>)
    requires Initial(s) && Valid(s) && CanRun(s, ops)
    ensures var u := After(s, ops);
            && (forall t | t in u.threads && u.threads[t].destroyed :: t in u.blocked <==> t in Caught(s, ops))
            && (Caught(s, ops) == {} ==> NoneDangling(u))
            && (u.doomed == [] ==> (NoneDangling(u) <==> Caught(s, ops) == {}))
  {
    hide After, CanRun, Valid, Caught;
    RunCaught(s, ops);
    var u, c := After(s, ops), Caught(s, ops);
    assert forall t | t in c :: Marked(u, t);
  }

  /** Nobody has been caught exactly if every terminate of the run found its
      thread out of the list of blocked threads. */
  lemma {:induction false} CaughtNobody(s: State, ops: seq<Op>)
    requires Valid(s) && CanRun(s, ops)
    ensures forall i | 0 <= i <= |ops| :: CanRun(s, ops[..i])
    ensures Caught(s, ops) == {} <==>
            forall i | 0 <= i < |ops| && ops[i].Terminate? :: ops[i].t !in After(s, ops[..i]).blocked
    decreases |ops|
  {
    hide After, Valid;
    assert ops[..|ops|] == ops;
    if ops != [] {
      var n := |ops| - 1;
      CaughtNobody(s, ops[..n]);
      assert forall i | 0 <= i <= n :: ops[..n][..i] == ops[..i];
      assert forall i | 0 <= i < n :: ops[..n][i] == ops[i];
    }
  }

  lemma SwitchLeaves(s: State, t: Tid)
    requires Valid(s) && t in s.threads && t != s.idle && s.threads[t].mode == AboutToExit
    ensures var u := Switch(s); u.blocked == s.blocked && t in u.threads && u.threads[t] == s.threads[t]
  {
    hide NoDup, Next, ThreadOk;
    NextIsReady(Paused(s).threads, s.list, s.idle, Now(s));
  }

  lemma DestroyedStays(s: State, op: Op, t: Tid)
    requires Valid(s) && Enabled(s, op) && t in s.blocked && s.threads[t].mode == AboutToExit && s.threads[t].destroyed
    ensures var u := Apply(s, op);
            t in u.blocked && t in u.threads && u.threads[t].mode == AboutToExit && u.threads[t].destroyed
  {
    hide NoDup, Preempts, StayBlocked, ThreadOk, FirstHit, Switch;
    if op == Tick {
      TickedValid(s);
      SwitchLeaves(Ticked(s), t);
    } else if op == Yield {
      SwitchLeaves(s, t);
    } else if op.NotifyOne? {
      var i := FirstHit(Waiting(op.cv), s.threads, s.blocked);
      if i < |s.blocked| {
        Removed(s.blocked, i);
      }
    }
  }

  /** An entry that dangles does so for good. */
  lemma {:induction false} DanglesForGood(s: State, ops: seq<Op>, t: Tid)
    requires Valid(s) && CanRun(s, ops)
    requires t in s.blocked && s.threads[t].mode == AboutToExit && s.threads[t].destroyed
    ensures var u := After(s, ops);
            t in u.blocked && t in u.threads && u.threads[t].mode == AboutToExit && u.threads[t].destroyed
    ensures !NoneDangling(After(s, ops))
    decreases |ops|
  {
    hide Apply, Enabled;
    if ops != [] {
      var n := |ops| - 1;
      DanglesForGood(s, ops[..n], t);
      DestroyedStays(After(s, ops[..n]), ops[n], t);
    }
  }

  /** From the start: a thread blocks, and is terminated while it is blocked. */
  lemma DanglingRun(s: State, t: Tid, cv: nat)
    requires Initial(s) && t != s.idle
    ensures exists ops :: CanRun(s, ops) && !NoneDangling(After(s, ops))
  {
    hide Switch, NoDup, ThreadOk, NoneDangling, Apply, After, CanRun, Caught;
    var ops := [AddThread(t, Normal), Yield, BlockOn(cv)];
    BlockingRun(s, t, cv);
    KillOp(After(s, ops), t);
    OneMore(s, ops, Terminate(t));
    var last := ops + [Terminate(t)];
    CaughtOne(s, ops, t);
    ReapOp(After(s, last));
    OneMore(s, last, Destroy);
    CaughtMore(s, last, Destroy);
    Dangling(s, last + [Destroy]);
  }

  lemma CaughtOne(s: State, ops: seq<Op>, t: Tid)
    requires Valid(s) && CanRun(s, ops + [Terminate(t)]) && CanRun(s, ops) && t in After(s, ops).blocked
    ensures t in Caught(s, ops + [Terminate(t)])
  {
    hide After, CanRun, Valid;
    assert (ops + [Terminate(t)])[..|ops|] == ops;
  }

  lemma CaughtMore(s: State, ops: seq<Op>, op: Op)
    requires Valid(s) && CanRun(s, ops + [op]) && CanRun(s, ops)
    ensures Caught(s, ops) <= Caught(s, ops + [op])
  {
    hide After, CanRun, Valid;
    assert (ops + [op])[..|ops|] == ops;
  }

  lemma ReapOp(s: State)
    requires Wf(s) && s.doomed != []
    ensures Apply(s, Destroy).doomed == s.doomed[1..]
  {
  }

  lemma BlockingRun(s: State, t: Tid, cv: nat)
    requires Initial(s) && t != s.idle
    ensures var ops := [AddThread(t, Normal), Yield, BlockOn(cv)];
            && Valid(s) && CanRun(s, ops) && After(s, ops).blocked == [t] && After(s, ops).doomed == []
            && Enabled(After(s, ops), Terminate(t))
  {
    hide After, CanRun, Switch, NoDup, ThreadOk, Apply;
    var a, b, c := AddThread(t, Normal), Yield, BlockOn(cv);
    assert [] + [a] == [a] && [a] + [b] == [a, b] && [a, b] + [c] == [a, b, c];
    InitialValid(s);
    Nothing(s);
    OneMore(s, [], a);
    FirstThread(s, t);
    var s1 := After(s, [a]);
    Single(s1, t);
    SwitchOp(s1);
    OneMore(s, [a], b);
    BlockOp(After(s, [a, b]), cv);
    OneMore(s, [a, b], c);
  }

  lemma InitialValid(s: State)
    requires Initial(s)
    ensures Valid(s)
  {
  }

  lemma FirstThread(s: State, t: Tid)
    requires Initial(s) && t != s.idle
    ensures Wf(s) && Enabled(s, AddThread(t, Normal))
    ensures var u := Apply(s, AddThread(t, Normal));
            && t in u.threads && u.threads[t].mode == Stopped && u.list == [t] && u.current == u.idle == s.idle
            && u.blocked == [] && u.doomed == []
  {
  }

  lemma SwitchOp(s: State)
    requires Wf(s)
    ensures Apply(s, Yield) == Switch(s)
  {
  }

  lemma KillOp(s: State, t: Tid)
    requires Wf(s) && t in s.threads
    ensures Apply(s, Terminate(t)).blocked == s.blocked && Apply(s, Terminate(t)).doomed == s.doomed + [t]
  {
  }

  lemma BlockOp(s: State, cv: nat)
    requires Wf(s) && s.threads[s.current].mode == Running && s.current != s.idle
    ensures Apply(s, BlockOn(cv)).blocked == s.blocked + [s.current] && Apply(s, BlockOn(cv)).doomed == s.doomed
    ensures Apply(s, BlockOn(cv)).threads.Keys == s.threads.Keys
  {
  }

  lemma Nothing(s: State)
    requires Valid(s)
    ensures CanRun(s, []) && After(s, []) == s
  {
  }

  lemma OneMore(s: State, ops: seq<Op>, op: Op)
    requires Valid(s) && CanRun(s, ops) && Enabled(After(s, ops), op)
    ensures CanRun(s, ops + [op])
    ensures Valid(Apply(After(s, ops), op)) && After(s, ops + [op]) == Apply(After(s, ops), op)
  {
    hide Apply, Valid;
    assert (ops + [op])[..|ops|] == ops;
    ApplyValid(After(s, ops), op);
  }

  /** The only ready thread is the one chosen. */
  lemma Single(s: State, t: Tid)
    requires Valid(s) && s.list == [t] && s.threads[t].mode == Stopped && s.current == s.idle
    ensures var u := Switch(s);
            u.current == t && u.threads[t].mode == Running && u.idle == s.idle && u.blocked == s.blocked && u.doomed == s.doomed
  {
    hide Next, NoDup;
    NextWins(Paused(s).threads, Paused(s).list, s.idle, Now(s), t);
  }
}
