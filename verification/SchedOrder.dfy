/** Who goes before whom, in terms of what is recorded of the threads: their
    kinds, when they last ran and the boosts they have been given. */
module SchedOrder {
  import opened SchedState
  import opened SchedRuns

  /** Of two threads of one kind that last ran at the same time, the one that
      has been boosted more. */
  predicate MoreBoost(p: Priority, q: Priority) {
    p.kind == q.kind && p.last == q.last && p.boost > q.boost
  }

  /** Of two threads of one kind and boost, the one that has waited longer by
      at least what earns a point: 9, 8 or 7 microseconds. */
  predicate LongerWait(p: Priority, q: Priority) {
    && p.kind == q.kind && p.boost == q.boost
    && match p.kind
       case Low => p.last + 9_000 <= q.last
       case Normal => p.last + 8_000 <= q.last
       case High => p.last + 7_000 <= q.last
  }

  /** Of two threads of one boost, the one of the higher kind, as long as the
      other has not waited for 400 milliseconds or more. */
  predicate HigherKind(p: Priority, q: Priority, now: nat) {
    && p.boost == q.boost
    && match (p.kind, q.kind)
       case (High, Normal) => now - q.last < 400_000_000
       case (Normal, Low) => now - q.last < 450_000_000
       case (High, Low) => now - q.last < 900_000_000
       case _ => false
  }

  /** The other way round, where the thread of the higher kind has just run and
      the other has waited for longer than that. */
  predicate Overtakes(p: Priority, q: Priority, now: nat) {
    && p.boost == q.boost && q.last == now
    && match (p.kind, q.kind)
       case (Normal, High) => now - p.last >= 400_000_000 + 8_000
       case (Low, Normal) => now - p.last >= 450_000_000 + 9_000
       case (Low, High) => now - p.last >= 900_000_000 + 9_000
       case _ => false
  }

  predicate Precedes(p: Priority, q: Priority, now: nat) {
    && p.last <= now && q.last <= now
    && (MoreBoost(p, q) || LongerWait(p, q) || HigherKind(p, q, now) || Overtakes(p, q, now))
  }

  lemma PrecedesScores(p: Priority, q: Priority, now: nat)
    requires Precedes(p, q, now)
    ensures Effective(p, now) > Effective(q, now)
  {
    if LongerWait(p, q) {
      LongerScores(p, q, now);
    }
  }

  lemma LongerScores(p: Priority, q: Priority, now: nat)
    requires LongerWait(p, q) && p.last <= now && q.last <= now
    ensures Effective(p, now) > Effective(q, now)
  {
    match p.kind
    case Low => assert (now - p.last) / 9000 > (now - q.last) / 9000;
    case Normal => assert (now - p.last) / 8000 > (now - q.last) / 8000;
    case High => assert (now - p.last) / 7000 > (now - q.last) / 7000;
  }

  /** Ready, or about to be when the processor is taken from it. */
  predicate Contends(s: State, t: Tid) {
    t in s.threads && (s.threads[t].mode == Stopped || (t == s.current && s.threads[t].mode == Running))
  }

  /** Nobody who contends goes before the thread that is chosen. */
  ghost predicate InOrder(s: State, r: Tid) {
    forall t | t in s.list && Contends(s, t) ::
      r in s.threads && !Precedes(s.threads[t].priority, s.threads[r].priority, Now(s))
  }

  /** Of the threads of a list that are ready, none goes before the one that is
      chosen, and of those recorded alike the first is chosen. */
  ghost predicate FirstInOrder(threads: Threads, list: seq<Tid>, r: Tid, now: nat) {
    forall j | 0 <= j < |list| && Ready(threads, list[j]) ::
      && r in threads && !Precedes(threads[list[j]].priority, threads[r].priority, now)
      && (threads[list[j]].priority == threads[r].priority ==> r in list[..j + 1])
  }

  lemma NobodyBefore(threads: Threads, list: seq<Tid>, idle: Tid, now: nat)
    ensures FirstInOrder(threads, list, Next(threads, list, idle, now), now)
  {
    hide Precedes, Effective;
    var i := Best(threads, list, now, |list|);
    BestIsFirst(threads, list, now, |list|);
    forall j | 0 <= j < |list| && Ready(threads, list[j])
      ensures !Precedes(threads[list[j]].priority, threads[list[i]].priority, now)
      ensures threads[list[j]].priority == threads[list[i]].priority ==> list[i] in list[..j + 1]
    {
      if Precedes(threads[list[j]].priority, threads[list[i]].priority, now) {
        PrecedesScores(threads[list[j]].priority, threads[list[i]].priority, now);
      }
      if i <= j {
        assert list[..j + 1][i] == list[i];
      }
    }
  }

  /** A switch keeps to the order. */
  lemma SwitchInOrder(s: State)
    requires Wf(s)
    ensures InOrder(s, Switch(s).current)
  {
    hide Precedes, Next;
    var p := Paused(s);
    NobodyBefore(p.threads, p.list, p.idle, Now(p));
    assert forall t | t in s.threads :: p.threads[t].priority == s.threads[t].priority;
    forall t | t in s.list && Contends(s, t)
      ensures !Precedes(s.threads[t].priority, s.threads[Switch(s).current].priority, Now(s))
    {
      var j :| 0 <= j < |s.list| && s.list[j] == t;
      assert Ready(p.threads, p.list[j]);
    }
  }

  // ---- Those who are notified ----

  /** A rival of the same kind that has been boosted no more, and has not waited
      longer by what a boost is worth: almost 162, 120 or 84 milliseconds. */
  predicate NoMoreClaim(p: Priority, rival: Priority) {
    && rival.kind == p.kind && rival.boost <= p.boost
    && match p.kind
       case Low => p.last <= rival.last + 17_999 * 9_000
       case Normal => p.last <= rival.last + 14_999 * 8_000
       case High => p.last <= rival.last + 11_999 * 7_000
  }

  lemma BoostWorth(p: Priority, rival: Priority, now: nat)
    requires NoMoreClaim(p, rival) && p.last <= now && rival.last <= now
    ensures Effective(Boosted(p, 1), now) > Effective(rival, now)
  {
    match p.kind
    case Low => assert (now - p.last) / 9000 + 17_999 >= (now - rival.last) / 9000;
    case Normal => assert (now - p.last) / 8000 + 14_999 >= (now - rival.last) / 8000;
    case High => assert (now - p.last) / 7000 + 11_999 >= (now - rival.last) / 7000;
  }

  /** Boosts add up, and count in full whatever has been waited. */
  lemma BoostsAdd(p: Priority, a: nat, b: nat, now: nat)
    ensures Boosted(Boosted(p, a), b) == Boosted(p, a + b)
    ensures Effective(Boosted(p, a), now) == Effective(p, now) + (Boosted(p, a).boost - p.boost)
  {
    var m := Mult(p.kind);
    assert m * (a + b) == m * a + m * b;
  }

  ghost predicate WaitsFirst(s: State, cv: nat, w: Tid) {
    exists i | 0 <= i < |s.blocked| :: s.blocked[i] == w &&
      forall j | 0 <= j < i && s.blocked[j] in s.threads ::
        !(s.threads[s.blocked[j]].mode == BlockedOnCondition && s.threads[s.blocked[j]].blockedOn == cv)
  }

  /** A thread that has just been notified is not passed over for a rival that
      was contending already and has no more of a claim. */
  lemma NotifiedGoesFirst(s: State, op: Op, w: Tid, rival: Tid)
    requires Valid(s) && (op.NotifyOne? || op.NotifyAll?)
    requires w in s.list && s.threads[w].mode == BlockedOnCondition && s.threads[w].blockedOn == op.cv
    requires op.NotifyOne? ==> WaitsFirst(s, op.cv, w)
    requires rival in s.list && Contends(s, rival) && NoMoreClaim(s.threads[w].priority, s.threads[rival].priority)
    ensures Apply(Apply(s, op), Yield).current != rival
  {
    hide NoMoreClaim, Boosted, Effective, Next, Switch, FirstHit, StayBlocked, NoDup;
    var u := Apply(s, op);
    NotifiedIs(s, op, w, rival);
    ApplyValid(s, op);
    assert ThreadOk(s, w, s.threads[w]) && ThreadOk(s, rival, s.threads[rival]);
    BoostWorth(s.threads[w].priority, s.threads[rival].priority, Now(s));
    NotChosen(u, w, rival);
  }

  /** What a notification does to one it wakes and to a rival. */
  lemma NotifiedIs(s: State, op: Op, w: Tid, rival: Tid)
    requires Valid(s) && (op.NotifyOne? || op.NotifyAll?)
    requires w in s.list && s.threads[w].mode == BlockedOnCondition && s.threads[w].blockedOn == op.cv
    requires op.NotifyOne? ==> WaitsFirst(s, op.cv, w)
    requires rival in s.list && Contends(s, rival)
    ensures var u := Apply(s, op);
            && u.list == s.list && u.ticks == s.ticks && u.current == s.current && u.threads.Keys == s.threads.Keys
            && u.threads[w].mode == Stopped && u.threads[w].priority == Boosted(s.threads[w].priority, 1)
            && u.threads[rival] == s.threads[rival]
  {
    hide Boosted, FirstHit, StayBlocked, NoDup;
    if op.NotifyOne? {
      NotifyOneWakesFirst(s, op.cv);
      FirstIs(s, op.cv, w);
    } else {
      NotifyAllWakesAll(s, op.cv, w);
      NotifyAllWakesAll(s, op.cv, rival);
    }
  }

  lemma FirstIs(s: State, cv: nat, w: Tid)
    requires Valid(s) && w in s.threads && Matches(Waiting(cv), s.threads[w]) && WaitsFirst(s, cv, w)
    ensures var i := FirstHit(Waiting(cv), s.threads, s.blocked); i < |s.blocked| && s.blocked[i] == w
  {
    hide NoDup;
  }

  lemma NotChosen(u: State, w: Tid, rival: Tid)
    requires Wf(u) && w in u.list && rival in u.list && Contends(u, w) && w != rival
    requires Effective(u.threads[w].priority, Now(u)) > Effective(u.threads[rival].priority, Now(u))
    ensures Switch(u).current != rival
  {
    hide Effective, Best;
    var p := Paused(u);
    BestIsFirst(p.threads, p.list, Now(u), |p.list|);
    var j :| 0 <= j < |p.list| && p.list[j] == w;
    assert Ready(p.threads, p.list[j]);
  }

  // ---- When the clock takes the processor away ----

  /** Whether some sleeper's time has come by the next tick. */
  ghost predicate SleeperDue(s: State) {
    exists t | t in s.threads :: s.threads[t].mode == BlockedOnSleep && s.threads[t].wakeUp <= (s.ticks + 1) * 1_000_000
  }

  /** The processor has just been handed out. */
  ghost predicate HandedOut(u: State) {
    u.current in u.threads && u.slice == 0 && u.threads[u.current].mode == Running && u.threads[u.current].priority.last == Now(u)
  }

  /** A tick hands the processor out exactly if no lock is held and it is asked
      to, a sleeper is due or this is the fourth tick of the slice. */
  lemma TickHandsOut(s: State)
    requires Valid(s)
    ensures var u := Apply(s, Tick);
            if s.held == 0 && (s.expedite || SleeperDue(s) || s.slice >= 3) then HandedOut(u)
            else u.current == s.current && u.slice == s.slice + 1
  {
    hide StayBlocked, WakeThreads, Next, NoDup;
    var c := Counted(s);
    TickedValid(s);
    if SleeperDue(s) {
      var t :| t in s.threads && s.threads[t].mode == BlockedOnSleep && s.threads[t].wakeUp <= (s.ticks + 1) * 1_000_000;
      assert ThreadOk(s, t, s.threads[t]);
      assert Hit(Due(Now(c)), c.threads, t);
    }
  }

  ghost function AfterTicks(s: State, n: nat): (u: State)
    requires Valid(s)
    ensures Valid(u) && u.held == s.held
  {
    if n == 0 then s
    else
      var u := AfterTicks(s, n - 1);
      ApplyValid(u, Tick);
      Apply(u, Tick)
  }

  lemma NextTick(s: State, n: nat)
    requires Valid(s) && s.held == 0
    ensures HandedOut(AfterTicks(s, n + 1)) || AfterTicks(s, n + 1).slice == AfterTicks(s, n).slice + 1 < 4
  {
    hide Apply, HandedOut, SleeperDue;
    TickHandsOut(AfterTicks(s, n));
  }

  /** Without a lock, one of any four ticks hands the processor out. */
  lemma FourTicks(s: State)
    requires Valid(s) && s.held == 0
    ensures exists k | 1 <= k <= 4 :: HandedOut(AfterTicks(s, k))
  {
    hide AfterTicks, HandedOut, Valid;
    NextTick(s, 0);
    NextTick(s, 1);
    NextTick(s, 2);
    NextTick(s, 3);
  }

  /** While a lock is held, no number of ticks does. */
  lemma {:induction false} NoTickSwitches(s: State, n: nat)
    requires Valid(s) && s.held > 0
    ensures AfterTicks(s, n).current == s.current && AfterTicks(s, n).slice == s.slice + n
  {
    hide Apply;
    if n > 0 {
      NoTickSwitches(s, n - 1);
      TickHandsOut(AfterTicks(s, n - 1));
    }
  }
}
