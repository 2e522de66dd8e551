/** Memory tickets: memory shared between the processes that have collected a
    ticket, and freed when the last collection is released. One ticket. */
module Tickets {
  type Proc = nat
  type Virt = nat

  type Collection = (Proc, Virt)

  /** alive: the ticket can still be found. entries: how often it is in each
      process's list of collected tickets. */
  datatype Ticket = Ticket(alive: bool, refcount: nat, freed: bool, held: set<Collection>, entries: map<Proc, nat>)

  const CREATED := Ticket(true, 0, false, {}, map[])

  function Entries(t: Ticket, p: Proc): nat {
    if p in t.entries then t.entries[p] else 0
  }

  ghost function HeldBy(t: Ticket, p: Proc): set<Collection> {
    set c | c in t.held && c.0 == p
  }

  // ---- The operations, in the steps that are locked ----

  function Collect(t: Ticket, p: Proc, v: Virt): Ticket {
    if !t.alive then t
    else t.(refcount := t.refcount + 1, held := t.held + {(p, v)}, entries := t.entries[p := Entries(t, p) + 1])
  }

  /** One reference less; the memory is freed with the last one. */
  function Deref(t: Ticket): Ticket
    requires t.refcount > 0
  {
    t.(refcount := t.refcount - 1, freed := t.freed || t.refcount == 1)
  }

  /** The first step of a release. The ticket can still be found after it. */
  ghost function Release(t: Ticket, p: Proc, v: Virt): Ticket
    requires t.alive && (p, v) in t.held ==> t.refcount > 0
  {
    if !t.alive || (p, v) !in t.held then t
    else
      var r := t.(held := t.held - {(p, v)});
      Deref(r.(entries := if HeldBy(r, p) == {} then r.entries[p := 0] else r.entries))
  }

  /** The second step, if the first one dropped the last reference. */
  function Remove(t: Ticket): Ticket {
    t.(alive := false)
  }

  /** A process that is killed drops a reference for every entry in its list. */
  function DropEntries(t: Ticket, n: nat): Ticket
    decreases n
  {
    if n == 0 || !t.alive || t.refcount == 0 then t
    else
      var d := Deref(t);
      DropEntries(if d.refcount == 0 then Remove(d) else d, n - 1)
  }

  ghost function Die(t: Ticket, p: Proc): Ticket {
    DropEntries(t, Entries(t, p)).(held := t.held - HeldBy(t, p), entries := t.entries[p := 0])
  }

  datatype Op = Collecting(p: Proc, v: Virt) | Releasing(p: Proc, v: Virt) | Removing | Dying(p: Proc)

  /** A new collection is at an address the process does not use. The ticket is
      removed by whoever dropped the last reference. */
  predicate Enabled(t: Ticket, op: Op) {
    match op
    case Collecting(p, v) => (p, v) !in t.held
    case Removing => t.freed
    case _ => true
  }

  ghost function Apply(t: Ticket, op: Op): Ticket
    requires t.held != {} && t.alive ==> t.refcount > 0
  {
    match op
    case Collecting(p, v) => Collect(t, p, v)
    case Releasing(p, v) => Release(t, p, v)
    case Removing => Remove(t)
    case Dying(p) => Die(t, p)
  }

  // ---- What every operation keeps ----

  /** The reference count is the number of collections, and the memory is freed
      only when there is none. */
  ghost predicate Counted(t: Ticket) {
    t.refcount == |t.held| && (t.freed ==> t.held == {})
  }

  /** A process is in agreement if its list has the ticket once for each
      collection it holds. */
  ghost predicate Agrees(t: Ticket, p: Proc) {
    Entries(t, p) == |HeldBy(t, p)|
  }

  lemma AnyHeld(t: Ticket)
    requires Counted(t)
    ensures t.held != {} ==> t.refcount > 0
  {
  }

  lemma {:induction false} Dropped(t: Ticket, n: nat)
    requires t.alive && t.refcount >= n && (t.freed ==> t.refcount == 0)
    ensures var d := DropEntries(t, n);
            d.refcount == t.refcount - n && (d.freed <==> t.freed || (n > 0 && t.refcount == n)) && d.held == t.held
    decreases n
  {
    if n > 0 {
      var d := Deref(t);
      if d.refcount == 0 {
        assert n == 1;
      } else {
        Dropped(d, n - 1);
      }
    }
  }

  // ---- When the count stays right ----

  /** Collecting keeps the count right unless the memory has already gone, which
      is so between the two steps of the last release. */
  lemma CollectCounts(t: Ticket, p: Proc, v: Virt)
    requires Counted(t) && (p, v) !in t.held
    ensures Counted(Collect(t, p, v)) <==> !(t.alive && t.freed)
  {
    assert t.alive ==> (p, v) in Collect(t, p, v).held;
  }

  /** And it keeps every process in agreement. */
  lemma CollectAgrees(t: Ticket, p: Proc, v: Virt, q: Proc)
    requires (p, v) !in t.held && Agrees(t, q)
    ensures Agrees(Collect(t, p, v), q)
  {
    var u := Collect(t, p, v);
    if t.alive && q == p {
      assert HeldBy(u, q) == HeldBy(t, q) + {(p, v)};
    } else if t.alive {
      assert HeldBy(u, q) == HeldBy(t, q);
    }
  }

  /** A ticket that has been removed cannot be collected any more. */
  lemma RemovedIsGone(t: Ticket, p: Proc, v: Virt)
    ensures var r := Remove(t); Collect(r, p, v) == r && r.held == t.held && r.refcount == t.refcount && r.freed == t.freed
  {
  }

  /** The memory is freed by a release exactly when it was the last collection. */
  lemma ReleaseCounts(t: Ticket, p: Proc, v: Virt)
    requires Counted(t)
    ensures var r := Release(t, p, v);
            Counted(r) && (r.freed <==> t.freed || (t.alive && t.held == {(p, v)}))
  {
    AnyHeld(t);
    if t.alive && (p, v) in t.held {
      assert |t.held - {(p, v)}| == |t.held| - 1;
      if t.refcount == 1 {
        assert t.held - {(p, v)} == {};
      }
    }
  }

  /** A list has a ticket at least once for each collection, and more often
      exactly when some but not all of them have been released. */
  lemma ReleaseAgrees(t: Ticket, p: Proc, v: Virt)
    requires Counted(t) && t.alive && (p, v) in t.held && Agrees(t, p)
    ensures Agrees(Release(t, p, v), p) <==> HeldBy(t, p) == {(p, v)}
  {
    AnyHeld(t);
    var r := Release(t, p, v);
    assert HeldBy(r, p) == HeldBy(t, p) - {(p, v)};
    if HeldBy(r, p) == {} {
      assert HeldBy(t, p) == {(p, v)};
    }
  }

  lemma Fewer(t: Ticket, p: Proc)
    ensures |HeldBy(t, p)| <= |t.held|
    ensures |t.held - HeldBy(t, p)| == |t.held| - |HeldBy(t, p)|
    ensures |HeldBy(t, p)| == |t.held| <==> HeldBy(t, p) == t.held
  {
    var h := HeldBy(t, p);
    assert h <= t.held;
    assert t.held == h + (t.held - h);
    if |h| == |t.held| {
      assert |t.held - h| == 0;
    }
  }

  lemma {:induction false} DroppedAll(t: Ticket, n: nat)
    requires t.alive && t.refcount < n && !t.freed
    ensures var d := DropEntries(t, n);
            d.refcount == 0 && d.held == t.held && (t.refcount > 0 ==> d.freed && !d.alive)
    decreases n
  {
    if t.refcount > 0 {
      var d := Deref(t);
      if d.refcount > 0 {
        DroppedAll(d, n - 1);
      }
    }
  }

  /** When a process dies that holds the ticket, the count is right afterwards
      exactly if its list agreed with what it held or nobody else holds any. */
  lemma DieCounts(t: Ticket, p: Proc)
    requires Counted(t) && t.alive && !t.freed && Entries(t, p) >= |HeldBy(t, p)|
    ensures Counted(Die(t, p)) <==> Agrees(t, p) || HeldBy(t, p) == t.held
  {
    var e := Entries(t, p);
    Fewer(t, p);
    if e <= t.refcount {
      Dropped(t, e);
    } else {
      DroppedAll(t, e);
    }
  }

  /** So if the list has too many entries, the death of one process frees memory
      that others still hold. */
  lemma FreedTooSoon(t: Ticket, p: Proc)
    requires Counted(t) && t.alive && !t.freed && HeldBy(t, p) != t.held && Entries(t, p) >= t.refcount
    ensures Die(t, p).freed && Die(t, p).held != {}
  {
    Fewer(t, p);
    if Entries(t, p) == t.refcount {
      Dropped(t, t.refcount);
    } else {
      DroppedAll(t, Entries(t, p));
    }
  }

  /** It takes little to get there: p collects twice and releases once. */
  lemma FreedTooSoonRun(p: Proc, q: Proc, a: Virt, b: Virt, c: Virt)
    requires p != q && a != b
    ensures var t1 := Collect(Collect(CREATED, p, a), p, b);
            var t2 := Release(t1, p, a);
            var t3 := Collect(t2, q, c);
            Counted(t3) && t3.held == {(p, b), (q, c)} && Die(t3, p).freed && Die(t3, p).held == {(q, c)}
  {
    var t1 := Collect(Collect(CREATED, p, a), p, b);
    CollectCounts(CREATED, p, a);
    CollectCounts(Collect(CREATED, p, a), p, b);
    ReleaseCounts(t1, p, a);
    var t2 := Release(t1, p, a);
    assert t1.held == {(p, a), (p, b)};
    assert t2.held == {(p, b)};
    assert (p, b) in HeldBy(t2, p);
    var t3 := Collect(t2, q, c);
    CollectCounts(t2, q, c);
    assert t3.held == {(p, b), (q, c)};
    assert HeldBy(t3, p) == {(p, b)};
    FreedTooSoon(t3, p);
  }

  /** Between the two steps of the last release the ticket can be found though
      its memory has gone. */
  lemma CollectedTooLate(p: Proc, q: Proc, a: Virt, c: Virt)
    ensures var t := Release(Collect(CREATED, p, a), p, a);
            t.freed && t.alive && Collect(t, q, c).held == {(q, c)} && !Counted(Collect(t, q, c))
  {
    CollectCounts(CREATED, p, a);
    ReleaseCounts(Collect(CREATED, p, a), p, a);
    var t := Release(Collect(CREATED, p, a), p, a);
    assert t.held == {};
    CollectCounts(t, q, c);
  }

  // ---- Runs ----

  /** A step outside those two cases. */
  ghost predicate Clean(t: Ticket, op: Op) {
    match op
    case Collecting(_, _) => !(t.alive && t.freed)
    case Dying(p) => Agrees(t, p) && (t.alive ==> !t.freed) && (!t.alive ==> HeldBy(t, p) == {})
    case _ => true
  }

  /** Only a ticket whose memory is gone is removed. */
  ghost predicate Sound(t: Ticket) {
    Counted(t) && (!t.alive ==> t.freed)
  }

  lemma CleanStep(t: Ticket, op: Op)
    requires Sound(t) && Enabled(t, op) && Clean(t, op)
    ensures Sound(Apply(t, op))
  {
    AnyHeld(t);
    match op {
      case Collecting(p, v) => CollectCounts(t, p, v);
      case Releasing(p, v) => ReleaseCounts(t, p, v);
      case Removing =>
      case Dying(p) =>
        if t.alive {
          DieCounts(t, p);
          Fewer(t, p);
          Dropped(t, Entries(t, p));
          StillThere(t, Entries(t, p));
        } else {
          assert t.held - HeldBy(t, p) == t.held;
        }
    }
  }

  lemma {:induction false} StillThere(t: Ticket, n: nat)
    requires t.alive && t.refcount >= n && !t.freed
    ensures var d := DropEntries(t, n); !d.alive ==> d.freed
    decreases n
  {
    if n > 0 {
      var d := Deref(t);
      if d.refcount > 0 {
        StillThere(d, n - 1);
      }
    }
  }

  ghost predicate CleanRun(t: Ticket, ops: seq<Op>)
    decreases |ops|
  {
    if ops == [] then true
    else
      && (t.held != {} && t.alive ==> t.refcount > 0) && Enabled(t, ops[0]) && Clean(t, ops[0])
      && CleanRun(Apply(t, ops[0]), ops[1..])
  }

  ghost function After(t: Ticket, ops: seq<Op>): Ticket
    requires CleanRun(t, ops)
    decreases |ops|
  {
    if ops == [] then t else After(Apply(t, ops[0]), ops[1..])
  }

  /** Throughout a run of such steps the count is the number of collections, no
      memory is freed that somebody holds, and none is lost. */
  lemma {:induction false} RunCounts(t: Ticket, ops: seq<Op>)
    requires Sound(t) && CleanRun(t, ops)
    ensures Sound(After(t, ops))
    decreases |ops|
  {
    hide Apply, Sound;
    if ops != [] {
      CleanStep(t, ops[0]);
      RunCounts(Apply(t, ops[0]), ops[1..]);
    }
  }

  // ---- The code ----

  class MemoryTicket {
    var alive: bool
    var refcount: nat
    var freed: bool

    /** The table of collections. Those of a process that has been killed are
        never taken out of it. */
    var collectors: set<Collection>
    var entries: map<Proc, nat>

    /** Processes that have been killed. */
    ghost var dead: set<Proc>

    /** The ticket, with the collections of live processes. */
    ghost function Abs(): Ticket
      reads this
    {
      Ticket(alive, refcount, freed, (set c | c in collectors && c.0 !in dead), entries)
    }

    constructor ()
      ensures Abs() == CREATED && Sound(Abs()) && dead == {} && collectors == {}
    {
      alive, refcount, freed, collectors, entries, dead := true, 0, false, {}, map[], {};
    }

    /** Adds a collection if the ticket can be found. The count is right after it
        unless the memory has been freed and the ticket not yet been removed. */
    method CollectTicket(p: Proc, v: Virt) returns (ok: bool)
      requires Sound(Abs()) && (p, v) !in collectors && p !in dead
      modifies this
      ensures Abs() == Collect(old(Abs()), p, v) && dead == old(dead)
      ensures Sound(Abs()) <==> !(old(alive) && old(freed))
      ensures ok == old(alive) && (ok ==> collectors == old(collectors) + {(p, v)})
    {
      CollectCounts(Abs(), p, v);
      if !alive {
        return false;
      }
      ghost var t := Abs();
      refcount := refcount + 1;
      collectors := collectors + {(p, v)};
      entries := entries[p := (if p in entries then entries[p] else 0) + 1];
      assert Abs().held == t.held + {(p, v)};
      return true;
    }

    /** The first step of a release: the collection named goes, if it is there,
        and the memory with it if and only if it was the last. True if the ticket
        has to be removed. */
    method ReleaseTicket(p: Proc, v: Virt) returns (cleanup: bool)
      requires Sound(Abs()) && p !in dead
      modifies this
      ensures Abs() == Release(old(Abs()), p, v) && Sound(Abs()) && dead == old(dead) && alive == old(alive)
      ensures old(alive) ==> collectors == old(collectors) - {(p, v)}
      ensures freed <==> old(freed) || (old(alive) && old(Abs()).held == {(p, v)})
      ensures cleanup <==> old(alive) && old(Abs()).held == {(p, v)}
    {
      ReleaseCounts(Abs(), p, v);
      AnyHeld(Abs());
      if !alive || (p, v) !in collectors {
        return false;
      }
      ghost var t := Abs();
      assert (p, v) in t.held;
      collectors := collectors - {(p, v)};
      assert Abs().held == t.held - {(p, v)};
      if forall c | c in collectors :: c.0 != p {
        assert HeldBy(Abs(), p) == {};
        entries := entries[p := 0];
      } else {
        var c :| c in collectors && c.0 == p;
        assert c in HeldBy(Abs(), p);
      }
      refcount := refcount - 1;
      if refcount == 0 {
        freed := true;
      }
      return refcount == 0;
    }

    /** The second step, under a lock of its own. */
    method RemoveTicket()
      requires Sound(Abs()) && freed
      modifies `alive
      ensures Abs() == Remove(old(Abs())) && Sound(Abs())
    {
      alive := false;
    }

    /** Both steps with nothing in between: memory and ticket go exactly with
        the last collection. */
    method ReleaseWhole(p: Proc, v: Virt)
      requires Sound(Abs()) && p !in dead && (alive ==> !freed)
      modifies this
      ensures Sound(Abs()) && (alive ==> !freed)
      ensures Abs().held == if old(alive) then old(Abs()).held - {(p, v)} else old(Abs()).held
      ensures alive <==> old(alive) && old(Abs()).held != {(p, v)}
    {
      var cleanup := ReleaseTicket(p, v);
      if cleanup {
        RemoveTicket();
      }
    }

    /** What happens to the ticket when a process is killed: a reference is
        dropped for every entry in its list, and the table is left alone. */
    method CleanupProcess(p: Proc)
      requires Sound(Abs()) && p !in dead
      modifies this
      ensures Abs() == Die(old(Abs()), p) && dead == old(dead) + {p} && collectors == old(collectors)
    {
      ghost var t := Abs();
      var n := if p in entries then entries[p] else 0;
      var i := 0;
      while i < n && alive && refcount > 0
        invariant i <= n && DropEntries(Abs(), n - i) == DropEntries(t, n)
        invariant collectors == old(collectors) && dead == old(dead) && entries == t.entries
        decreases n - i
      {
        refcount := refcount - 1;
        if refcount == 0 {
          freed := true;
          alive := false;
        }
        i := i + 1;
      }
      dead := dead + {p};
      entries := entries[p := 0];
      assert Abs().held == t.held - HeldBy(t, p);
    }
  }
}

/** The pages behind a ticket, which come into being when they are first
    touched. Looking for a page and adding it are two separately locked steps. */
module SharedPages {
  type Frame = nat
  type Proc = nat

  /** pages: the frames of the region, by index. mapped: what the page tables of
      each collector say. pending: a fault between its two steps. */
  datatype State = State(pages: map<nat, Frame>, mapped: map<(Proc, nat), Frame>, pending: map<Proc, (nat, Frame)>)

  function Look(s: State, p: Proc, i: nat, spare: Frame): State {
    if i in s.pages then s.(mapped := s.mapped[(p, i) := s.pages[i]])
    else s.(pending := s.pending[p := (i, spare)])
  }

  function Add(s: State, p: Proc): State
    requires p in s.pending
  {
    var (i, f) := s.pending[p];
    s.(pages := s.pages[i := f], mapped := s.mapped[(p, i) := f], pending := s.pending - {p})
  }

  /** Every collector that has a page has the frame the region has for it. */
  ghost predicate SameFrames(s: State) {
    forall c | c in s.mapped :: c.1 in s.pages && s.mapped[c] == s.pages[c.1]
  }

  /** The frame a fault brings along is nobody's yet. */
  ghost predicate FreshFrame(s: State, p: Proc) {
    p in s.pending && forall c | c in s.mapped :: s.mapped[c] != s.pending[p].1
  }

  /** Adding a page keeps all collectors on the same frame exactly if none of the
      others has mapped that page since this one looked for it. */
  lemma AddKeeps(s: State, p: Proc)
    requires SameFrames(s) && FreshFrame(s, p)
    ensures SameFrames(Add(s, p)) <==> forall q | q != p :: (q, s.pending[p].0) !in s.mapped
  {
    var (i, f) := s.pending[p];
    var u := Add(s, p);
    if q :| q != p && (q, i) in s.mapped {
      assert (q, i) in u.mapped && u.mapped[(q, i)] != u.pages[i];
    }
  }

  /** Two faults on the same page that overlap end up with different frames. */
  lemma OverlappingFaults(p: Proc, q: Proc, i: nat, f: Frame, g: Frame)
    requires p != q && f != g
    ensures var s := Look(Look(State(map[], map[], map[]), p, i, f), q, i, g);
            && p in s.pending && q in s.pending && q in Add(s, p).pending
            && var u := Add(Add(s, p), q);
            (p, i) in u.mapped && (q, i) in u.mapped && u.mapped[(p, i)] != u.mapped[(q, i)]
  {
  }

  class SharedRegion {
    var pages: map<nat, Frame>
    var mapped: map<(Proc, nat), Frame>

    ghost function Abs(): State
      reads this
    {
      State(pages, mapped, map[])
    }

    /** A fault handled without interruption: the collector gets the frame that
        every other collector has for the page. */
    method HandleFault(p: Proc, i: nat, spare: Frame) returns (frame: Frame)
      requires SameFrames(Abs())
      modifies this
      ensures SameFrames(Abs()) && (p, i) in mapped && mapped[(p, i)] == frame
      ensures forall q | (q, i) in mapped :: mapped[(q, i)] == frame
      ensures frame == if i in old(pages) then old(pages)[i] else spare
      ensures forall c | c in old(mapped) && c != (p, i) :: c in mapped && mapped[c] == old(mapped)[c]
    {
      if i in pages {
        frame := pages[i];
      } else {
        frame := spare;
        pages := pages[i := frame];
      }
      mapped := mapped[(p, i) := frame];
    }
  }
}

/** A ticket together with its memory, over whole runs. A fault is one step. */
module TicketMemory {
  import opened Tickets

  type Frame = nat

  /** mapped: the page-table entries of the collections, by page index.
      returned: the frames given back to the page allocator. */
  datatype State = State(ticket: Ticket, pages: map<nat, Frame>, mapped: map<(Collection, nat), Frame>, returned: set<Frame>)

  datatype Event = Do(op: Op) | Fault(c: Collection, i: nat, frame: Frame)

  /** Only what is collected can be touched, and a new frame is nobody's. */
  ghost predicate CanDo(s: State, event: Event) {
    match event
    case Do(op) => Enabled(s.ticket, op) && Clean(s.ticket, op)
    case Fault(c, _, frame) => c in s.ticket.held && frame !in s.pages.Values
  }

  /** Releasing a collection, or dying, takes its mappings away; freeing the
      memory returns every frame. */
  ghost function Step(s: State, event: Event): State
    requires s.ticket.held != {} && s.ticket.alive ==> s.ticket.refcount > 0
  {
    match event
    case Do(op) =>
      var t := Apply(s.ticket, op);
      State(t, s.pages, map e | e in s.mapped && e.0 in t.held :: s.mapped[e],
            if t.freed && !s.ticket.freed then s.pages.Values else s.returned)
    case Fault(c, i, frame) =>
      var pages := if i in s.pages then s.pages else s.pages[i := frame];
      s.(pages := pages, mapped := s.mapped[(c, i) := pages[i]])
  }

  ghost predicate OneEach(pages: map<nat, Frame>) {
    forall i, j | i in pages && j in pages && i != j :: pages[i] != pages[j]
  }

  /** Mappings belong to collections and lead to the frames of the ticket, each
      page has its own frame, and frames are returned exactly when freed. */
  ghost predicate Inv(s: State) {
    && Sound(s.ticket) && OneEach(s.pages)
    && (forall e | e in s.mapped :: e.0 in s.ticket.held && e.1 in s.pages && s.mapped[e] == s.pages[e.1])
    && s.returned == if s.ticket.freed then s.pages.Values else {}
  }

  lemma Freed(t: Ticket, op: Op)
    requires Sound(t) && Enabled(t, op) && Clean(t, op) && (t.held != {} && t.alive ==> t.refcount > 0)
    ensures t.freed ==> Apply(t, op).freed
  {
    if op.Dying? && t.alive {
      Fewer(t, op.p);
      Dropped(t, Entries(t, op.p));
    } else if op.Dying? {
      assert DropEntries(t, Entries(t, op.p)) == t;
    }
  }

  lemma StepInv(s: State, event: Event)
    requires Inv(s) && CanDo(s, event)
    ensures s.ticket.held != {} && s.ticket.alive ==> s.ticket.refcount > 0
    ensures Inv(Step(s, event))
  {
    AnyHeld(s.ticket);
    match event {
      case Do(op) =>
        CleanStep(s.ticket, op);
        Freed(s.ticket, op);
        hide Apply, Enabled, Clean;
      case Fault(c, i, frame) =>
    }
  }

  ghost predicate CanRun(s: State, events: seq<Event>)
    decreases |events|
  {
    if events == [] then true
    else
      && (s.ticket.held != {} && s.ticket.alive ==> s.ticket.refcount > 0) && CanDo(s, events[0])
      && CanRun(Step(s, events[0]), events[1..])
  }

  ghost function After(s: State, events: seq<Event>): State
    requires CanRun(s, events)
    decreases |events|
  {
    if events == [] then s else After(Step(s, events[0]), events[1..])
  }

  lemma {:induction false} RunInv(s: State, events: seq<Event>)
    requires Inv(s) && CanRun(s, events)
    ensures Inv(After(s, events))
    decreases |events|
  {
    hide Inv, Step, CanDo;
    if events != [] {
      StepInv(s, events[0]);
      RunInv(Step(s, events[0]), events[1..]);
    }
  }

  /** In every reachable state, collections that have touched the same page have
      the same frame for it, the count is the number of collections, frames are
      returned exactly once the memory is freed, and nothing maps them then. */
  lemma Shared(events: seq<Event>, c: Collection, d: Collection, i: nat)
    requires CanRun(State(CREATED, map[], map[], {}), events)
    ensures var u := After(State(CREATED, map[], map[], {}), events);
            && (((c, i) in u.mapped && (d, i) in u.mapped) ==> u.mapped[(c, i)] == u.mapped[(d, i)])
            && u.ticket.refcount == |u.ticket.held|
            && (u.ticket.freed ==> u.returned == u.pages.Values && u.mapped == map[])
            && (!u.ticket.freed ==> u.returned == {})
  {
    hide Step, CanDo, After, CanRun;
    var s := State(CREATED, map[], map[], {});
    RunInv(s, events);
    var u := After(s, events);
    if u.ticket.freed {
      assert forall e | e in u.mapped :: e.0 in u.ticket.held;
    }
  }

  /** A page that is touched is mapped, to the frame it had if it had one, and
      nothing else changes. */
  lemma FaultMaps(s: State, c: Collection, i: nat, frame: Frame)
    requires Inv(s) && CanDo(s, Fault(c, i, frame)) && (s.ticket.held != {} && s.ticket.alive ==> s.ticket.refcount > 0)
    ensures var u := Step(s, Fault(c, i, frame));
            && (c, i) in u.mapped && u.mapped[(c, i)] == (if i in s.pages then s.pages[i] else frame)
            && i in u.pages && (forall j | j in s.pages :: j in u.pages && u.pages[j] == s.pages[j])
            && u.pages.Keys == s.pages.Keys + {i} && u.mapped.Keys == s.mapped.Keys + {(c, i)}
            && (forall e | e in s.mapped :: u.mapped[e] == s.mapped[e])
            && u.ticket == s.ticket && u.returned == s.returned
  {
  }

  /** Whether an event takes a collection's mappings away. */
  predicate TakesAway(event: Event, c: Collection) {
    event == Do(Releasing(c.0, c.1)) || event == Do(Dying(c.0))
  }

  /** A mapping lasts until its collection is released or its process dies, and
      no longer. */
  lemma MappingLasts(s: State, event: Event, c: Collection, i: nat)
    requires Inv(s) && CanDo(s, event) && (s.ticket.held != {} && s.ticket.alive ==> s.ticket.refcount > 0)
    requires (c, i) in s.mapped
    ensures var u := Step(s, event);
            && (!TakesAway(event, c) ==> (c, i) in u.mapped && u.mapped[(c, i)] == s.mapped[(c, i)])
            && (TakesAway(event, c) && s.ticket.alive ==> (c, i) !in u.mapped)
  {
    match event
    case Do(op) =>
      KeptByOthers(s.ticket, op, c);
      hide Apply, Enabled, Clean;
    case Fault(d, j, frame) => FaultMaps(s, d, j, frame);
  }

  lemma KeptByOthers(t: Ticket, op: Op, c: Collection)
    requires c in t.held && (t.held != {} && t.alive ==> t.refcount > 0)
    ensures !TakesAway(Do(op), c) ==> c in Apply(t, op).held
    ensures TakesAway(Do(op), c) && t.alive ==> c !in Apply(t, op).held
  {
  }

  /** Over whole runs. */
  lemma {:induction false} StaysMapped(s: State, events: seq<Event>, c: Collection, i: nat)
    requires Inv(s) && CanRun(s, events) && (c, i) in s.mapped
    requires forall e | e in events :: !TakesAway(e, c)
    ensures var u := After(s, events); (c, i) in u.mapped && u.mapped[(c, i)] == s.mapped[(c, i)]
    decreases |events|
  {
    hide Inv, Step, CanDo, TakesAway;
    if events != [] {
      StepInv(s, events[0]);
      assert events[0] in events;
      MappingLasts(s, events[0], c, i);
      StaysMapped(Step(s, events[0]), events[1..], c, i);
    }
  }
}
