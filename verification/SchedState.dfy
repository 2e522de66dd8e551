/** The scheduler of one processor as a state machine: what every operation
    does to the state, as functions. */
module SchedState {
  type Tid = nat

  datatype Mode = Stopped | Running | BlockedOnCondition | BlockedOnSleep | AboutToExit

  datatype Kind = Low | Normal | High

  function Base(k: Kind): nat {
    match k case Low => 50000 case Normal => 100000 case High => 150000
  }

  /** How many nanoseconds of waiting earn one point of priority. */
  function Div(k: Kind): (d: nat)
    ensures 7000 <= d <= 9000
  {
    match k case Low => 9000 case Normal => 8000 case High => 7000
  }

  function Mult(k: Kind): nat {
    match k case Low => 18000 case Normal => 15000 case High => 12000
  }

  datatype Priority = Priority(kind: Kind, last: nat, boost: nat)

  function Effective(p: Priority, now: nat): nat {
    Base(p.kind) + p.boost + (if p.last <= now then (now - p.last) / Div(p.kind) else 0)
  }

  function Boosted(p: Priority, amount: nat): Priority {
    p.(boost := p.boost + Mult(p.kind) * amount)
  }

  function Reset(p: Priority, now: nat): Priority {
    p.(last := now, boost := 0)
  }

  datatype Thread = Thread(mode: Mode, priority: Priority, blockedOn: nat, wakeUp: nat, destroyed: bool)

  type Threads = map<Tid, Thread>

  datatype State = State(
    idle: Tid, current: Tid, threads: Threads, list: seq<Tid>, blocked: seq<Tid>, doomed: seq<Tid>,
    ticks: nat, slice: nat, expedite: bool, held: nat)

  const NS_PER_TICK: nat := 1_000_000
  const TIMESLICE_DURATION_NS: nat := 4_000_000

  function Now(s: State): nat {
    s.ticks * NS_PER_TICK
  }

  // ---- Choosing ----

  predicate Ready(threads: Threads, t: Tid) {
    t in threads && threads[t].mode == Stopped
  }

  function Score(threads: Threads, t: Tid, now: nat): nat {
    if t in threads then Effective(threads[t].priority, now) else 0
  }

  /** The position, among the first n, of the first ready thread that none of
      them beats; n if none is ready. */
  function Best(threads: Threads, list: seq<Tid>, now: nat, n: nat): (i: nat)
    requires n <= |list|
    ensures i <= n
  {
    if n == 0 then 0
    else
      var i := Best(threads, list, now, n - 1);
      if Ready(threads, list[n - 1]) &&
         (i == n - 1 || Score(threads, list[n - 1], now) > Score(threads, list[i], now)) then n - 1
      else if i == n - 1 then n else i
  }

  function Next(threads: Threads, list: seq<Tid>, idle: Tid, now: nat): Tid {
    var i := Best(threads, list, now, |list|);
    if i == |list| then idle else list[i]
  }

  // ---- Waking ----

  /** Whom to wake: sleepers whose time has come, or waiters on a condition. */
  datatype Rule = Due(now: nat) | Waiting(cv: nat)

  predicate Matches(rule: Rule, th: Thread) {
    match rule
    case Due(now) => th.mode == BlockedOnSleep && now >= th.wakeUp
    case Waiting(cv) => th.mode == BlockedOnCondition && th.blockedOn == cv
  }

  function Woken(rule: Rule, th: Thread): Thread {
    match rule
    case Due(_) => th.(mode := Stopped, wakeUp := 0)
    case Waiting(_) => th.(mode := Stopped, blockedOn := 0, priority := Boosted(th.priority, 1))
  }

  predicate Hit(rule: Rule, threads: Threads, t: Tid) {
    t in threads && Matches(rule, threads[t])
  }

  /** The threads after waking those among a list that match. */
  function WakeThreads(rule: Rule, threads: Threads, among: seq<Tid>): Threads {
    map t | t in threads :: if t in among && Matches(rule, threads[t]) then Woken(rule, threads[t]) else threads[t]
  }

  /** Those of a list that stay blocked, in order. */
  function StayBlocked(rule: Rule, threads: Threads, blocked: seq<Tid>): (r: seq<Tid>)
    ensures forall t :: t in r <==> t in blocked && !Hit(rule, threads, t)
  {
    if blocked == [] then []
    else
      var n := |blocked| - 1;
      assert blocked == blocked[..n] + [blocked[n]];
      StayBlocked(rule, threads, blocked[..n]) + (if Hit(rule, threads, blocked[n]) then [] else [blocked[n]])
  }

  function WakeAll(s: State, rule: Rule): State {
    s.(threads := WakeThreads(rule, s.threads, s.blocked), blocked := StayBlocked(rule, s.threads, s.blocked))
  }

  ghost predicate AnyHit(rule: Rule, threads: Threads, list: seq<Tid>) {
    exists t | t in list :: Hit(rule, threads, t)
  }

  /** Where the first match is; the length of the list if there is none. */
  function FirstHit(rule: Rule, threads: Threads, blocked: seq<Tid>): (i: nat)
    ensures i <= |blocked|
    ensures i < |blocked| ==> Hit(rule, threads, blocked[i])
    ensures forall j | 0 <= j < i :: !Hit(rule, threads, blocked[j])
  {
    if blocked == [] || Hit(rule, threads, blocked[0]) then 0
    else 1 + FirstHit(rule, threads, blocked[1..])
  }

  function WakeFirst(s: State, rule: Rule): State {
    var i := FirstHit(rule, s.threads, s.blocked);
    if i == |s.blocked| then s
    else s.(threads := WakeThreads(rule, s.threads, [s.blocked[i]]), blocked := s.blocked[..i] + s.blocked[i + 1..])
  }

  // ---- Operations ----

  ghost predicate Wf(s: State) {
    && s.idle in s.threads && s.current in s.threads
    && (forall t | t in s.list :: t in s.threads)
    && (forall t | t in s.blocked :: t in s.threads)
    && (forall t | t in s.doomed :: t in s.threads)
  }

  function SetMode(s: State, t: Tid, mode: Mode): State
    requires t in s.threads
  {
    s.(threads := s.threads[t := s.threads[t].(mode := mode)])
  }

  /** The state of the thread that was running no longer says so. */
  function Paused(s: State): State
    requires s.current in s.threads
  {
    if s.threads[s.current].mode == Running then SetMode(s, s.current, Stopped) else s
  }

  function Run(s: State, t: Tid): State
    requires t in s.threads
  {
    var th := s.threads[t];
    s.(threads := s.threads[t := th.(mode := Running, priority := Reset(th.priority, Now(s)))], current := t)
  }

  function Switch(s: State): State
    requires Wf(s)
  {
    var p := Paused(s);
    var t := Next(p.threads, p.list, p.idle, Now(p));
    assert t in p.threads;
    Run(p, t)
  }

  function Counted(s: State): State {
    s.(ticks := s.ticks + 1, slice := s.slice + 1)
  }

  /** Whether a tick asks for a switch. */
  ghost predicate Preempts(s: State) {
    var c := Counted(s);
    && (AnyHit(Due(Now(c)), c.threads, c.blocked) || c.expedite
        || c.slice * NS_PER_TICK >= TIMESLICE_DURATION_NS)
    && c.held == 0
  }

  ghost function Ticked(s: State): State {
    var c := Counted(s);
    var w := WakeAll(c, Due(Now(c)));
    w.(expedite := false, slice := if Preempts(s) then 0 else w.slice)
  }

  function Block(s: State, cv: nat): State
    requires s.current in s.threads
  {
    var th := s.threads[s.current].(mode := BlockedOnCondition, blockedOn := cv);
    s.(threads := s.threads[s.current := th], blocked := s.blocked + [s.current])
  }

  function Sleep(s: State, ns: nat): State
    requires s.current in s.threads
  {
    var th := s.threads[s.current].(mode := BlockedOnSleep, wakeUp := Now(s) + ns);
    s.(threads := s.threads[s.current := th], blocked := s.blocked + [s.current])
  }

  /** exit, terminate and a crash all mark a thread and queue it. */
  function Kill(s: State, t: Tid): State
    requires t in s.threads
  {
    SetMode(s, t, AboutToExit).(doomed := s.doomed + [t])
  }

  function Add(s: State, t: Tid, kind: Kind): State {
    s.(threads := s.threads[t := Thread(Stopped, Priority(kind, 0, 0), 0, 0, false)], list := s.list + [t])
  }

  function Without(list: seq<Tid>, t: Tid): (r: seq<Tid>)
    ensures forall u :: u in r <==> u in list && u != t
  {
    if list == [] then []
    else (if list[0] == t then [] else [list[0]]) + Without(list[1..], t)
  }

  /** The worker that destroys threads takes one off its queue. */
  function Reap(s: State): State
    requires Wf(s) && s.doomed != []
  {
    var t := s.doomed[0];
    s.(threads := s.threads[t := s.threads[t].(destroyed := true)], list := Without(s.list, t), doomed := s.doomed[1..])
  }

  function Encourage(s: State, t: Tid, amount: nat): State
    requires t in s.threads
  {
    s.(threads := s.threads[t := s.threads[t].(priority := Boosted(s.threads[t].priority, amount))])
  }

  datatype Op =
    | Tick | Yield
    | BlockOn(cv: nat) | Nanosleep(ns: nat) | NotifyOne(cv: nat) | NotifyAll(cv: nat)
    | Terminate(t: Tid) | AddThread(t: Tid, kind: Kind) | Destroy
    | Boost(t: Tid, amount: nat) | Hold | Release | Expedite

  /** Only a running thread can block or sleep, and the idle thread does
      neither. */
  ghost predicate Enabled(s: State, op: Op)
    requires Wf(s)
  {
    match op
    case BlockOn(_) => s.threads[s.current].mode == Running && s.current != s.idle
    case Nanosleep(_) => s.threads[s.current].mode == Running && s.current != s.idle
    case Terminate(t) => t in s.threads
    case AddThread(t, _) => t !in s.threads
    case Destroy => s.doomed != []
    case Boost(t, _) => t in s.threads
    case Release => s.held > 0
    case _ => true
  }

  ghost function Apply(s: State, op: Op): State
    requires Wf(s) && Enabled(s, op)
  {
    match op
    case Tick => var u := Ticked(s); if Preempts(s) then Switch(u) else u
    case Yield => Switch(s)
    case BlockOn(cv) => Block(s, cv)
    case Nanosleep(ns) => Sleep(s, ns)
    case NotifyOne(cv) => WakeFirst(s, Waiting(cv))
    case NotifyAll(cv) => WakeAll(s, Waiting(cv))
    case Terminate(t) => Kill(s, t)
    case AddThread(t, kind) => Add(s, t, kind)
    case Destroy => Reap(s)
    case Boost(t, amount) => Encourage(s, t, amount)
    case Hold => s.(held := s.held + 1)
    case Release => s.(held := s.held - 1)
    case Expedite => s.(expedite := true)
  }
}
