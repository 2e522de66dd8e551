/** How long a ready thread can be passed over. Waiting earns priority, so a
    thread that has waited long enough beats every thread that has run since. */
module SchedFair {
  import opened SchedState
  import opened SchedRuns

  ghost predicate Decides(s: State, op: Op) {
    op == Yield || (op == Tick && Preempts(s))
  }

  /** Whether having waited for E puts a thread of kind kt ahead of any thread
      of kind kr that has run since, given that boosts stay within b. Between
      equals it does for good. Otherwise it does for good if the other earns no
      faster, and until the wait has doubled in any case. */
  predicate Outlasts(kt: Kind, kr: Kind, e: nat, b: nat, waited: int) {
    || (kt == kr && e >= Div(kt) * (b + 1))
    || (e >= 12600 * (100002 + b) && (waited <= 2 * e || Div(kr) >= Div(kt)))
  }

  lemma Quotient(x: nat, q: nat, d: nat)
    requires d > 0 && x >= q * d
    ensures x / d >= q
  {
    if x / d < q {
      Larger(x / d + 1, q, d);
      assert false;
    }
  }

  lemma Larger(a: nat, b: nat, d: nat)
    requires a <= b
    ensures a * d <= b * d
  {
  }

  lemma SlowerRival(kt: Kind, kr: Kind, waited: nat, since: nat, margin: nat)
    requires Div(kr) >= Div(kt) && waited >= since + margin * Div(kt)
    ensures waited / Div(kt) >= since / Div(kr) + margin
  {
    var d := Div(kt);
    Quotient(waited, since / d + margin, d);
    assert since / d * d <= since;
    assert (since / d + margin) * d == since / d * d + margin * d;
    assert since / Div(kr) <= since / d by { Slower(since, Div(kr), d); }
  }

  lemma Slower(x: nat, big: nat, small: nat)
    requires big >= small > 0
    ensures x / big <= x / small
  {
    assert x / big * big <= x;
    assert x / big * small <= x / big * big;
    Quotient(x, x / big, small);
  }

  lemma AnyRival(kt: Kind, kr: Kind, waited: nat, since: nat, e: nat, b: nat)
    requires e >= 12600 * (100002 + b) && waited <= 2 * e && waited >= since + e
    ensures Base(kt) + waited / Div(kt) > Base(kr) + b + since / Div(kr)
  {
    assert waited / Div(kt) >= waited / 9000 by { Slower(waited, 9000, Div(kt)); }
    assert since / Div(kr) <= since / 7000 by { Slower(since, Div(kr), 7000); }
    assert waited / 9000 * 9000 > waited - 9000;
    assert since / 7000 * 7000 <= since;
  }

  /** A thread that last ran at l beats one that ran at t0 or later. */
  lemma Outlasted(pt: Priority, pr: Priority, t0: nat, now: nat, e: nat, b: nat)
    requires pt.last + e <= t0 <= pr.last <= now && pr.boost <= b
    requires Outlasts(pt.kind, pr.kind, e, b, now - pt.last)
    ensures Effective(pr, now) < Effective(pt, now)
  {
    var waited, since := now - pt.last, now - pr.last;
    if pt.kind == pr.kind && e >= Div(pt.kind) * (b + 1) {
      SlowerRival(pt.kind, pr.kind, waited, since, b + 1);
    } else if waited <= 2 * e {
      AnyRival(pt.kind, pr.kind, waited, since, e, b);
    } else {
      SlowerRival(pt.kind, pr.kind, waited, since, 100001 + b);
    }
  }

  // ---- One decision ----

  /** Whoever is chosen had at least the priority of any ready thread, and has
      now run last. */
  lemma SwitchTurn(s: State, t: Tid)
    requires Valid(s) && t in s.list && Ready(s.threads, t)
    ensures var u := Switch(s); var r := u.current;
            && r in s.threads && r in u.threads && Now(u) == Now(s) && u.threads[r].priority.last == Now(s)
            && r in s.list && u.list == s.list
            && Effective(s.threads[r].priority, Now(s)) >= Effective(s.threads[t].priority, Now(s))
  {
    hide Next, NoDup, Effective;
    var p := Paused(s);
    NextWins(p.threads, p.list, p.idle, Now(p), t);
  }

  lemma Turn(s: State, op: Op, t: Tid)
    requires Valid(s) && Enabled(s, op) && Decides(s, op) && t in s.list && Ready(s.threads, t)
    ensures var u := Apply(s, op); var r := u.current;
            && r in s.threads && r in u.threads && u.threads[r].priority.last == Now(u)
            && r in s.list && u.list == s.list
            && u.threads[r].priority.kind == s.threads[r].priority.kind
            && Effective(s.threads[r].priority, Now(u)) >= Effective(s.threads[t].priority, Now(u))
  {
    hide NoDup, Effective, Preempts, Switch;
    if op == Tick {
      TickedValid(s);
      TickedKeeps(s, t);
      var w := Ticked(s);
      SwitchTurn(w, t);
      TickedKeeps(s, Switch(w).current);
      SwitchMoves(w, Switch(w).current);
    } else {
      SwitchTurn(s, t);
      SwitchMoves(s, Switch(s).current);
    }
  }

  /** A tick by itself changes no priority and stops no thread being ready. */
  lemma TickedKeeps(s: State, t: Tid)
    requires Valid(s)
    ensures var u := Ticked(s);
            && u.threads.Keys == s.threads.Keys && u.list == s.list && u.doomed == s.doomed
            && (t in s.threads ==> u.threads[t].priority == s.threads[t].priority)
            && (Ready(s.threads, t) ==> Ready(u.threads, t))
  {
    hide StayBlocked, NoDup, Preempts;
  }

  // ---- Over a run ----

  /** A thread that can be chosen and that nobody is about to destroy. */
  ghost predicate Waits(s: State, t: Tid) {
    t in s.list && Ready(s.threads, t) && t !in s.doomed
  }

  /** Such a thread stays one until it is terminated or chosen. */
  lemma StaysReady(s: State, op: Op, t: Tid)
    requires Valid(s) && Enabled(s, op) && Waits(s, t) && op != Terminate(t)
    requires Decides(s, op) ==> Apply(s, op).current != t
    ensures Waits(Apply(s, op), t)
  {
    hide NoDup, Preempts, StayBlocked, FirstHit, Switch, Ticked, ThreadOk;
    if op == Tick {
      TickedValid(s);
      TickedKeeps(s, t);
      if Preempts(s) {
        SwitchKeeps(Ticked(s), t);
      }
    } else if op == Yield {
      SwitchKeeps(s, t);
    }
  }

  lemma SwitchKeeps(s: State, t: Tid)
    requires Valid(s) && Waits(s, t) && Switch(s).current != t
    ensures Waits(Switch(s), t)
  {
    hide NoDup, Next, ThreadOk;
  }

  /** The threads chosen in a run, in order. */
  ghost function Winners(s: State, ops: seq<Op>): seq<Tid>
    requires Valid(s) && CanRun(s, ops)
    decreases |ops|
  {
    if ops == [] then []
    else
      var n := |ops| - 1;
      var w := Winners(s, ops[..n]);
      if Decides(After(s, ops[..n]), ops[n]) then w + [After(s, ops).current] else w
  }

  /** Among the threads that can be chosen boosts stay within b, and a wait since
      l counts. */
  ghost predicate CalmState(u: State, t: Tid, l: nat, e: nat, b: nat) {
    t in u.threads &&
    forall r | r in u.list && r in u.threads && r != t ::
      u.threads[r].priority.boost <= b
      && Outlasts(u.threads[t].priority.kind, u.threads[r].priority.kind, e, b, Now(u) - l)
  }

  ghost predicate Calm(s: State, ops: seq<Op>, t: Tid, l: nat, e: nat, b: nat)
    requires Valid(s) && CanRun(s, ops)
    decreases |ops|
  {
    CalmState(After(s, ops), t, l, e, b) && (ops == [] || Calm(s, ops[..|ops| - 1], t, l, e, b))
  }

  /** Chosen threads have run since the start. */
  ghost predicate RanSince(u: State, winners: seq<Tid>, t: Tid, t0: nat) {
    forall w | w in winners :: w != t && w in u.threads && u.threads[w].priority.last >= t0
  }

  /** While a thread that has waited long enough is passed over, no other thread
      is chosen twice. */
  lemma {:induction false} NotTwice(s: State, ops: seq<Op>, t: Tid, e: nat, b: nat)
    requires Valid(s) && CanRun(s, ops) && Waits(s, t) && Terminate(t) !in ops && t !in Winners(s, ops)
    requires s.threads[t].priority.last + e <= Now(s)
    requires Calm(s, ops, t, s.threads[t].priority.last, e, b)
    ensures var u := After(s, ops);
            && Waits(u, t) && u.threads[t].priority.last == s.threads[t].priority.last
            && NoDup(Winners(s, ops)) && RanSince(u, Winners(s, ops), t, Now(s)) && Now(u) >= Now(s)
    decreases |ops|
  {
    hide NoDup, Apply, Enabled, Valid, Decides, CalmState, RanSince;
    if ops == [] {
      Trivial(s, t);
    } else {
      var n := |ops| - 1;
      var u, op := After(s, ops[..n]), ops[n];
      assert ops == ops[..n] + [op];
      NotTwice(s, ops[..n], t, e, b);
      OneTurn(u, op, t, Winners(s, ops[..n]), s.threads[t].priority.last, e, b, Now(s));
    }
  }

  lemma Trivial(s: State, t: Tid)
    ensures NoDup([]) && RanSince(s, [], t, Now(s))
  {
  }

  lemma OneTurn(u: State, op: Op, t: Tid, winners: seq<Tid>, l: nat, e: nat, b: nat, t0: nat)
    requires Valid(u) && Enabled(u, op) && Waits(u, t) && op != Terminate(t)
    requires Decides(u, op) ==> Apply(u, op).current != t
    requires u.threads[t].priority.last == l && l + e <= t0 <= Now(u)
    requires CalmState(u, t, l, e, b) && CalmState(Apply(u, op), t, l, e, b)
    requires NoDup(winners) && RanSince(u, winners, t, t0)
    ensures var v := Apply(u, op); var ws := if Decides(u, op) then winners + [v.current] else winners;
            && Waits(v, t) && v.threads[t].priority.last == l
            && NoDup(ws) && RanSince(v, ws, t, t0) && Now(v) >= Now(u)
  {
    hide Apply, Enabled, Decides, Outlasts, Effective, ThreadOk;
    var v := Apply(u, op);
    StaysReady(u, op, t);
    ApplyMoves(u, op, t);
    forall w | w in winners ensures w in v.threads && v.threads[w].priority.last >= t0 {
      ApplyMoves(u, op, w);
    }
    if Decides(u, op) {
      var r := v.current;
      Turn(u, op, t);
      if r in winners {
        ValidLast(u, r);
        Outlasted(u.threads[t].priority, u.threads[r].priority, t0, Now(v), e, b);
        assert false;
      }
    }
  }

  lemma ValidLast(u: State, r: Tid)
    requires Valid(u) && r in u.threads
    ensures u.threads[r].priority.last <= Now(u)
  {
  }

  /** A list without repetitions is no longer than a set it lies within. */
  lemma {:induction false} Pigeonhole(list: seq<Tid>, keys: set<Tid>)
    requires NoDup(list) && forall t | t in list :: t in keys
    ensures |list| <= |keys|
    decreases |list|
  {
    if list != [] {
      var n := |list| - 1;
      Pigeonhole(list[..n], keys - {list[n]});
    }
  }

  /** The threads that can be chosen in a run: those in the list of threads and
      those that are added to it. */
  ghost function Candidates(s: State, ops: seq<Op>): set<Tid> {
    (set t | t in s.list) + (set op | op in ops && op.AddThread? :: op.t)
  }

  lemma ListStep(s: State, op: Op, t: Tid)
    requires Valid(s) && Enabled(s, op) && t in Apply(s, op).list
    ensures t in s.list || (op.AddThread? && op.t == t)
  {
    hide NoDup, Preempts, StayBlocked, FirstHit, Next, ThreadOk;
  }

  /** The list of threads grows by AddThread alone. */
  lemma {:induction false} ListGrows(s: State, ops: seq<Op>, t: Tid)
    requires Valid(s) && CanRun(s, ops) && t in After(s, ops).list
    ensures t in Candidates(s, ops)
    decreases |ops|
  {
    hide Apply, Enabled, Valid;
    if ops != [] {
      var n := |ops| - 1;
      ListStep(After(s, ops[..n]), ops[n], t);
      if t in After(s, ops[..n]).list {
        ListGrows(s, ops[..n], t);
      }
    }
  }

  lemma MoreCandidates(s: State, ops: seq<Op>, n: nat)
    requires n <= |ops|
    ensures Candidates(s, ops[..n]) <= Candidates(s, ops)
  {
  }

  /** Whoever is chosen while a thread waits could be chosen. */
  lemma {:induction false} WinnersListed(s: State, ops: seq<Op>, t: Tid, e: nat, b: nat)
    requires Valid(s) && CanRun(s, ops) && Waits(s, t) && Terminate(t) !in ops && t !in Winners(s, ops)
    requires s.threads[t].priority.last + e <= Now(s)
    requires Calm(s, ops, t, s.threads[t].priority.last, e, b)
    ensures forall w | w in Winners(s, ops) :: w in Candidates(s, ops)
    decreases |ops|
  {
    hide NoDup, Apply, Enabled, Valid, Decides, CalmState, RanSince, Candidates;
    if ops != [] {
      var n := |ops| - 1;
      var u, op := After(s, ops[..n]), ops[n];
      assert ops == ops[..n] + [op];
      WinnersListed(s, ops[..n], t, e, b);
      NotTwice(s, ops[..n], t, e, b);
      MoreCandidates(s, ops, n);
      if Decides(u, op) {
        Turn(u, op, t);
        ListGrows(s, ops[..n], After(s, ops).current);
      }
    }
  }

  /** A ready thread that has waited for E gets its turn: in any run with as many
      decisions as there are threads to choose from, those in the list at the
      start and those added on the way, it is chosen, unless it is terminated. */
  lemma GetsItsTurn(s: State, ops: seq<Op>, t: Tid, e: nat, b: nat)
    requires Valid(s) && CanRun(s, ops) && Waits(s, t) && Terminate(t) !in ops
    requires s.threads[t].priority.last + e <= Now(s)
    requires Calm(s, ops, t, s.threads[t].priority.last, e, b)
    requires |Winners(s, ops)| >= |Candidates(s, ops)|
    ensures t in Winners(s, ops)
  {
    hide Calm, After, CanRun, Valid, Winners;
    if t !in Winners(s, ops) {
      NotTwice(s, ops, t, e, b);
      WinnersListed(s, ops, t, e, b);
      Pigeonhole(Winners(s, ops), Candidates(s, ops) - {t});
    }
  }

  /** Every thread that can be chosen in a run is of normal priority, as all the
      kernel creates are, and boosts stay within b. */
  ghost predicate AllNormal(s: State, ops: seq<Op>, b: nat)
    requires Valid(s) && CanRun(s, ops)
    decreases |ops|
  {
    && (forall r | r in After(s, ops).list ::
          After(s, ops).threads[r].priority.kind == Normal && After(s, ops).threads[r].priority.boost <= b)
    && (ops == [] || AllNormal(s, ops[..|ops| - 1], b))
  }

  /** Among threads of normal priority 8000 * (b + 1) nanoseconds are enough. */
  lemma NormalGetsItsTurn(s: State, ops: seq<Op>, t: Tid, b: nat)
    requires Valid(s) && CanRun(s, ops) && Waits(s, t) && Terminate(t) !in ops && AllNormal(s, ops, b)
    requires s.threads[t].priority.last + 8000 * (b + 1) <= Now(s)
    requires |Winners(s, ops)| >= |Candidates(s, ops)|
    ensures t in Winners(s, ops)
  {
    hide Calm, AllNormal, After, CanRun, Valid, Winners;
    NormalCalm(s, ops, t, s.threads[t].priority.last, b);
    GetsItsTurn(s, ops, t, 8000 * (b + 1), b);
  }

  lemma {:induction false} NormalCalm(s: State, ops: seq<Op>, t: Tid, l: nat, b: nat)
    requires Valid(s) && CanRun(s, ops) && t in s.list && AllNormal(s, ops, b)
    ensures t in After(s, ops).threads && After(s, ops).threads[t].priority.kind == Normal
    ensures Calm(s, ops, t, l, 8000 * (b + 1), b)
    decreases |ops|
  {
    hide Apply, Enabled, NoDup, ThreadOk;
    if ops != [] {
      var n := |ops| - 1;
      NormalCalm(s, ops[..n], t, l, b);
      ApplyMoves(After(s, ops[..n]), ops[n], t);
    }
  }
}
