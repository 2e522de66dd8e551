/** The heap's lock-free chunk lists under any interleaving of any number of
    threads. A list head is a pair of a counter and a chunk, swapped as one by
    a double-word compare-and-swap; every other access is a step of its own. */
module ChunkStacks {
  import opened Options

  type Chunk = nat
  type Thread = nat
  type List = nat

  datatype Head = Head(id: nat, chunk: Option<Chunk>)

  datatype Op = Pop | Push(c: Chunk)

  /** Where a thread is in getChunkFromList or addChunkToList. The initial copy
      of the list head is two loads, in either order; base is the counter at
      the first of them, or at the last failed swap. */
  datatype Pc =
    | Idle
    | Holding(c: Chunk)
    | Begun(l: List, op: Op)
    | GotId(l: List, op: Op, id: nat)
    | GotChunk(l: List, op: Op, chunk: Option<Chunk>, base: nat)
    | Loaded(l: List, op: Op, orig: Head, base: nat)
    | Ready(l: List, op: Op, orig: Head, next: Option<Chunk>, base: nat)
    | Empty(l: List)

  datatype State = State(heads: map<List, Head>, next: map<Chunk, Option<Chunk>>, pcs: map<Thread, Pc>)

  datatype Action =
    | StartPop(l: List)
    | StartPush(l: List)
    | ReadId
    | ReadChunk
    | Prepare
    | Swap
    | Scribble(v: Option<Chunk>)

  /** The chunk a thread has in its hands. */
  function Held(pc: Pc): Option<Chunk> {
    match pc
    case Holding(c) => Some(c)
    case Idle => None
    case Empty(_) => None
    case _ => if pc.op.Push? then Some(pc.op.c) else None
  }

  predicate Enabled(s: State, t: Thread, a: Action) {
    t in s.pcs &&
    match a
    case StartPop(l) => l in s.heads && (s.pcs[t].Idle? || s.pcs[t].Empty?)
    case StartPush(l) => l in s.heads && s.pcs[t].Holding?
    case ReadId => s.pcs[t].Begun? || s.pcs[t].GotChunk?
    case ReadChunk => s.pcs[t].Begun? || s.pcs[t].GotId?
    case Prepare => s.pcs[t].Loaded?
    case Swap => s.pcs[t].Ready?
    case Scribble(_) => s.pcs[t].Holding?
  }

  /** Lists and chunks mentioned anywhere exist. */
  ghost predicate Typed(s: State) {
    forall t | t in s.pcs :: TypedPc(s.heads, s.next, s.pcs[t])
  }

  ghost predicate TypedPc(heads: map<List, Head>, next: map<Chunk, Option<Chunk>>, pc: Pc) {
    && (!(pc.Idle? || pc.Holding?) ==> pc.l in heads)
    && (Held(pc).Some? ==> Held(pc).value in next)
    && ((pc.Loaded? || pc.Ready?) && pc.orig.chunk.Some? ==> pc.orig.chunk.value in next)
    && (pc.GotChunk? && pc.chunk.Some? ==> pc.chunk.value in next)
    && (pc.Ready? && pc.op.Pop? ==> pc.orig.chunk.Some?)
    && (pc.Ready? && pc.op.Push? ==> pc.next == Some(pc.op.c))
  }

  /** One step of thread t. */
  ghost function Step(s: State, t: Thread, a: Action): (s': State)
    requires Typed(s) && Enabled(s, t, a)
  {
    var pc := s.pcs[t];
    match a
    case StartPop(l) => s.(pcs := s.pcs[t := Begun(l, Pop)])
    case StartPush(l) => s.(pcs := s.pcs[t := Begun(l, Push(pc.c))])
    case ReadId =>
      var id := s.heads[pc.l].id;
      s.(pcs := s.pcs[t := if pc.Begun? then GotId(pc.l, pc.op, id)
                           else Loaded(pc.l, pc.op, Head(id, pc.chunk), pc.base)])
    case ReadChunk =>
      var h := s.heads[pc.l];
      s.(pcs := s.pcs[t := if pc.Begun? then GotChunk(pc.l, pc.op, h.chunk, h.id)
                           else Loaded(pc.l, pc.op, Head(pc.id, h.chunk), pc.id)])
    case Prepare => PrepareStep(s, t)
    case Swap => SwapStep(s, t)
    case Scribble(v) => s.(next := s.next[pc.c := v])
  }

  /** The top of the retry loop: a pop bails out on a null chunk and otherwise
      reads its next pointer; a push links its chunk to the one it saw. */
  ghost function PrepareStep(s: State, t: Thread): State
    requires Typed(s) && t in s.pcs && s.pcs[t].Loaded?
  {
    var pc := s.pcs[t];
    match pc.op
    case Pop =>
      if pc.orig.chunk == None then s.(pcs := s.pcs[t := Empty(pc.l)])
      else s.(pcs := s.pcs[t := Ready(pc.l, Pop, pc.orig, s.next[pc.orig.chunk.value], pc.base)])
    case Push(c) =>
      s.(next := s.next[c := pc.orig.chunk],
         pcs := s.pcs[t := Ready(pc.l, pc.op, pc.orig, Some(c), pc.base)])
  }

  /** The compare-and-swap: it takes effect only if both words are as expected,
      and otherwise hands back what is there. */
  ghost function SwapStep(s: State, t: Thread): State
    requires Typed(s) && t in s.pcs && s.pcs[t].Ready?
  {
    var pc := s.pcs[t];
    var h := s.heads[pc.l];
    if h == pc.orig then
      s.(heads := s.heads[pc.l := Head(h.id + 1, pc.next)],
         pcs := s.pcs[t := if pc.op.Pop? then Holding(h.chunk.value) else Idle])
    else
      s.(pcs := s.pcs[t := Loaded(pc.l, pc.op, h, h.id)])
  }

  // ---- The abstract stacks ----

  datatype Place = InList(l: List) | InHand(t: Thread)

  /** Stacks that are popped and pushed in one go, and where every chunk is. */
  datatype Stacks = Stacks(lists: map<List, seq<Chunk>>, place: map<Chunk, Place>)

  function Top(xs: seq<Chunk>): Option<Chunk> {
    if xs == [] then None else Some(xs[0])
  }

  function PopOf(a: Stacks, t: Thread, l: List): Stacks
    requires l in a.lists && a.lists[l] != []
  {
    Stacks(a.lists[l := a.lists[l][1..]], a.place[a.lists[l][0] := InHand(t)])
  }

  function PushOf(a: Stacks, l: List, c: Chunk): Stacks
    requires l in a.lists
  {
    Stacks(a.lists[l := [c] + a.lists[l]], a.place[c := InList(l)])
  }

  /** What a step does to the stacks: a swap that succeeds pops or pushes, and
      nothing else does anything. */
  ghost function Effect(a: Stacks, s: State, t: Thread, act: Action): Stacks
    requires Enabled(s, t, act) && Typed(s) && s.heads.Keys == a.lists.Keys
  {
    var pc := s.pcs[t];
    if act.Swap? && s.heads[pc.l] == pc.orig then
      if pc.op.Push? then PushOf(a, pc.l, pc.op.c)
      else if a.lists[pc.l] == [] then a
      else PopOf(a, t, pc.l)
    else a
  }

  /** The chain of next pointers from a head spells out a stack. */
  ghost predicate Chain(next: map<Chunk, Option<Chunk>>, xs: seq<Chunk>) {
    forall i | 0 <= i < |xs| :: xs[i] in next && next[xs[i]] == Top(xs[i + 1..])
  }

  /** Every chunk in a list is in that list only, and once. */
  ghost predicate ListsPlaced(a: Stacks) {
    && (forall l, i | l in a.lists && 0 <= i < |a.lists[l]| ::
          a.lists[l][i] in a.place && a.place[a.lists[l][i]] == InList(l))
    && (forall l, i, j | l in a.lists && 0 <= i < j < |a.lists[l]| :: a.lists[l][i] != a.lists[l][j])
    && (forall c | c in a.place && a.place[c].InList? :: a.place[c].l in a.lists && c in a.lists[a.place[c].l])
  }

  /** Every chunk in a hand is in that hand only. */
  ghost predicate HandsPlaced(pcs: map<Thread, Pc>, a: Stacks) {
    && (forall c | c in a.place && a.place[c].InHand? ::
          a.place[c].t in pcs && Held(pcs[a.place[c].t]) == Some(c))
    && (forall t | t in pcs && Held(pcs[t]).Some? ::
          Held(pcs[t]).value in a.place && a.place[Held(pcs[t]).value] == InHand(t))
  }

  ghost predicate Placed(s: State, a: Stacks) {
    && s.heads.Keys == a.lists.Keys
    && s.next.Keys == a.place.Keys
    && ListsPlaced(a)
    && HandsPlaced(s.pcs, a)
  }

  /** The heads and next pointers spell out the stacks. */
  ghost predicate Linked(s: State, a: Stacks)
    requires s.heads.Keys == a.lists.Keys
  {
    forall l | l in a.lists :: s.heads[l].chunk == Top(a.lists[l]) && Chain(s.next, a.lists[l])
  }

  /** What a thread knows about a head it has read: the counter has not gone
      back, and while it is the same the head is the same. */
  ghost predicate Knows(heads: map<List, Head>, next: map<Chunk, Option<Chunk>>, pc: Pc) {
    match pc
    case GotId(l, _, id) => l in heads && id <= heads[l].id
    case GotChunk(l, _, chunk, base) =>
      l in heads && base <= heads[l].id && (base == heads[l].id ==> chunk == heads[l].chunk)
    case Loaded(l, _, orig, base) => l in heads && Saw(heads[l], orig, base)
    case Ready(l, op, orig, nx, base) =>
      && l in heads && Saw(heads[l], orig, base)
      && (op.Pop? ==> orig.chunk.Some?)
      && (op.Pop? && orig == heads[l] ==> orig.chunk.value in next && nx == next[orig.chunk.value])
      && (op.Push? ==> op.c in next && next[op.c] == orig.chunk)
    case _ => true
  }

  predicate Saw(h: Head, orig: Head, base: nat) {
    base <= orig.id <= h.id && (base == h.id ==> orig == h)
  }

  ghost predicate Inv(s: State, a: Stacks) {
    && Typed(s)
    && Placed(s, a)
    && Linked(s, a)
    && (forall t | t in s.pcs :: Knows(s.heads, s.next, s.pcs[t]))
  }

  /** A step that changes nothing but what its own thread knows. */
  lemma LocalStep(s: State, a: Stacks, t: Thread, pc: Pc)
    requires Inv(s, a) && t in s.pcs && Held(pc) == Held(s.pcs[t])
    requires TypedPc(s.heads, s.next, pc) && Knows(s.heads, s.next, pc)
    ensures Inv(s.(pcs := s.pcs[t := pc]), a)
  {
    hide ListsPlaced, HandsPlaced, Chain, TypedPc, Knows;
    var s' := s.(pcs := s.pcs[t := pc]);
    HandsSame(s.pcs, a, t, pc);
    forall u | u in s'.pcs
      ensures TypedPc(s'.heads, s'.next, s'.pcs[u]) && Knows(s'.heads, s'.next, s'.pcs[u])
    {
      assert u in s.pcs;
      assert TypedPc(s.heads, s.next, s.pcs[u]) && Knows(s.heads, s.next, s.pcs[u]);
    }
  }

  lemma HandsSame(pcs: map<Thread, Pc>, a: Stacks, t: Thread, pc: Pc)
    requires HandsPlaced(pcs, a) && t in pcs && Held(pc) == Held(pcs[t])
    ensures HandsPlaced(pcs[t := pc], a)
  {
    hide Held;
  }

  /** A thread may write the next pointer of the chunk in its hands: no list
      runs through it, and no other thread relies on it. */
  lemma OwnWrite(s: State, a: Stacks, t: Thread, c: Chunk, v: Option<Chunk>)
    requires Inv(s, a) && t in s.pcs && Held(s.pcs[t]) == Some(c) && !s.pcs[t].Ready?
    ensures Inv(s.(next := s.next[c := v]), a)
  {
    hide Chain, Knows, TypedPc, ListsPlaced, HandsPlaced, Held;
    var s' := s.(next := s.next[c := v]);
    forall l | l in a.lists ensures Chain(s'.next, a.lists[l]) {
      OwnChain(s, a, t, c, v, l);
    }
    forall u | u in s'.pcs ensures TypedPc(s'.heads, s'.next, s'.pcs[u]) && Knows(s'.heads, s'.next, s'.pcs[u]) {
      OwnKnows(s, a, t, c, v, u);
    }
    assert c in s.next by { OwnThere(s, a, t, c); }
  }

  lemma OwnThere(s: State, a: Stacks, t: Thread, c: Chunk)
    requires Inv(s, a) && t in s.pcs && Held(s.pcs[t]) == Some(c)
    ensures c in s.next && c in a.place && a.place[c] == InHand(t)
  {
    hide Chain, Knows, TypedPc, ListsPlaced;
  }

  lemma OwnChain(s: State, a: Stacks, t: Thread, c: Chunk, v: Option<Chunk>, l: List)
    requires Inv(s, a) && t in s.pcs && Held(s.pcs[t]) == Some(c) && l in a.lists
    ensures Chain(s.next[c := v], a.lists[l])
  {
    hide Knows, TypedPc, HandsPlaced, Held;
    OwnThere(s, a, t, c);
    assert Chain(s.next, a.lists[l]);
  }

  lemma OwnKnows(s: State, a: Stacks, t: Thread, c: Chunk, v: Option<Chunk>, u: Thread)
    requires Inv(s, a) && t in s.pcs && Held(s.pcs[t]) == Some(c) && !s.pcs[t].Ready? && u in s.pcs
    ensures TypedPc(s.heads, s.next[c := v], s.pcs[u]) && Knows(s.heads, s.next[c := v], s.pcs[u])
  {
    hide Chain;
    OwnThere(s, a, t, c);
    assert TypedPc(s.heads, s.next, s.pcs[u]) && Knows(s.heads, s.next, s.pcs[u]);
    if s.pcs[u].Ready? {
      assert Held(s.pcs[u]) != Some(c);
      if s.heads[s.pcs[u].l].chunk.Some? {
        TopInList(s, a, s.pcs[u].l);
      }
    }
  }

  lemma TopInList(s: State, a: Stacks, l: List)
    requires Inv(s, a) && l in s.heads && s.heads[l].chunk.Some?
    ensures s.heads[l].chunk.value in a.place && a.place[s.heads[l].chunk.value] == InList(l)
  {
    assert a.lists[l][0] == s.heads[l].chunk.value;
  }

  /** A swapped head moves the counter on, so whatever a thread knows of an
      older head stays true: it will find it changed. */
  lemma StillKnows(heads: map<List, Head>, next: map<Chunk, Option<Chunk>>, pc: Pc, l: List, h: Head)
    requires l in heads && h.id > heads[l].id && Knows(heads, next, pc)
    ensures Knows(heads[l := h], next, pc)
  {
  }

  lemma SwapKeepsKnowledge(s: State, a: Stacks, t: Thread)
    requires Inv(s, a) && t in s.pcs && s.pcs[t].Ready? && s.heads[s.pcs[t].l] == s.pcs[t].orig
    ensures var s' := SwapStep(s, t);
            forall u | u in s'.pcs :: TypedPc(s'.heads, s'.next, s'.pcs[u]) && Knows(s'.heads, s'.next, s'.pcs[u])
  {
    var s' := SwapStep(s, t);
    var l := s.pcs[t].l;
    assert TypedPc(s.heads, s.next, s.pcs[t]);
    forall u | u in s'.pcs
      ensures TypedPc(s'.heads, s'.next, s'.pcs[u]) && Knows(s'.heads, s'.next, s'.pcs[u])
    {
      assert u in s.pcs && TypedPc(s.heads, s.next, s.pcs[u]) && Knows(s.heads, s.next, s.pcs[u]);
      StillKnows(s.heads, s.next, s.pcs[u], l, s'.heads[l]);
    }
  }

  lemma ChainTail(next: map<Chunk, Option<Chunk>>, xs: seq<Chunk>)
    requires xs != [] && Chain(next, xs)
    ensures Chain(next, xs[1..]) && xs[0] in next && next[xs[0]] == Top(xs[1..])
  {
    forall i | 0 <= i < |xs| - 1
      ensures xs[1..][i] in next && next[xs[1..][i]] == Top(xs[1..][i + 1..])
    {
      assert xs[1..][i] == xs[i + 1] && xs[1..][i + 1..] == xs[i + 1 + 1..];
    }
  }

  lemma ChainCons(next: map<Chunk, Option<Chunk>>, c: Chunk, xs: seq<Chunk>)
    requires Chain(next, xs) && c in next && next[c] == Top(xs)
    ensures Chain(next, [c] + xs)
  {
    var ys := [c] + xs;
    forall i | 0 <= i < |ys|
      ensures ys[i] in next && next[ys[i]] == Top(ys[i + 1..])
    {
      if i == 0 {
        assert ys[1..] == xs;
      } else {
        assert ys[i] == xs[i - 1] && ys[i + 1..] == xs[i - 1 + 1..];
      }
    }
  }

  lemma PopPlaced(pcs: map<Thread, Pc>, a: Stacks, t: Thread, l: List)
    requires ListsPlaced(a) && HandsPlaced(pcs, a) && l in a.lists && a.lists[l] != [] && t in pcs
    requires Held(pcs[t]) == None
    ensures ListsPlaced(PopOf(a, t, l)) && HandsPlaced(pcs[t := Holding(a.lists[l][0])], PopOf(a, t, l))
  {
    hide ListsPlaced, HandsPlaced;
    PopLists(a, t, l);
    PopHands(pcs, a, t, l);
  }

  lemma PopHands(pcs: map<Thread, Pc>, a: Stacks, t: Thread, l: List)
    requires ListsPlaced(a) && HandsPlaced(pcs, a) && l in a.lists && a.lists[l] != [] && t in pcs
    requires Held(pcs[t]) == None
    ensures HandsPlaced(pcs[t := Holding(a.lists[l][0])], PopOf(a, t, l))
  {
    assert a.place[a.lists[l][0]] == InList(l);
    hide ListsPlaced;
  }

  lemma PopLists(a: Stacks, t: Thread, l: List)
    requires ListsPlaced(a) && l in a.lists && a.lists[l] != []
    ensures ListsPlaced(PopOf(a, t, l))
  {
    var xs, b := a.lists[l], PopOf(a, t, l);
    var c := xs[0];
    assert a.place[c] == InList(l);
    forall d | d in b.place && b.place[d].InList?
      ensures b.place[d].l in b.lists && d in b.lists[b.place[d].l]
    {
      assert d != c && a.place[d] == b.place[d] && d in a.lists[a.place[d].l];
      if a.place[d].l == l {
        var i :| 0 <= i < |xs| && xs[i] == d;
        assert xs[1..][i - 1] == d;
      }
    }
    forall m, i | m in b.lists && 0 <= i < |b.lists[m]|
      ensures b.lists[m][i] in b.place && b.place[b.lists[m][i]] == InList(m)
    {
      if m == l {
        assert b.lists[m][i] == xs[i + 1] && xs[i + 1] != xs[0];
      } else {
        assert a.place[a.lists[m][i]] == InList(m);
      }
    }
  }

  lemma PopSwap(s: State, a: Stacks, t: Thread)
    requires Inv(s, a) && t in s.pcs && s.pcs[t].Ready? && s.pcs[t].op.Pop?
    requires s.heads[s.pcs[t].l] == s.pcs[t].orig
    ensures a.lists[s.pcs[t].l] != []
    ensures SwapStep(s, t).pcs[t] == Holding(a.lists[s.pcs[t].l][0])
    ensures Inv(SwapStep(s, t), PopOf(a, t, s.pcs[t].l))
  {
    hide ListsPlaced, HandsPlaced, Chain;
    var pc, s' := s.pcs[t], SwapStep(s, t);
    var l := pc.l;
    assert TypedPc(s.heads, s.next, pc) && Knows(s.heads, s.next, pc);
    assert s.heads[l].chunk == Top(a.lists[l]) && Chain(s.next, a.lists[l]);
    ChainTail(s.next, a.lists[l]);
    PopPlaced(s.pcs, a, t, l);
    SwapKeepsKnowledge(s, a, t);
    TopInList(s, a, l);
    assert s'.next.Keys == PopOf(a, t, l).place.Keys;
  }

  lemma PushPlaced(pcs: map<Thread, Pc>, a: Stacks, t: Thread, l: List, c: Chunk)
    requires ListsPlaced(a) && HandsPlaced(pcs, a) && l in a.lists && t in pcs && Held(pcs[t]) == Some(c)
    ensures ListsPlaced(PushOf(a, l, c)) && HandsPlaced(pcs[t := Idle], PushOf(a, l, c))
  {
    PushLists(a, t, l, c);
    hide ListsPlaced;
  }

  lemma PushLists(a: Stacks, t: Thread, l: List, c: Chunk)
    requires ListsPlaced(a) && l in a.lists && c in a.place && a.place[c] == InHand(t)
    ensures ListsPlaced(PushOf(a, l, c))
  {
    var xs, b := a.lists[l], PushOf(a, l, c);
    forall d | d in b.place && b.place[d].InList?
      ensures b.place[d].l in b.lists && d in b.lists[b.place[d].l]
    {
      if d == c {
        assert b.lists[l][0] == c;
      } else {
        assert a.place[d] == b.place[d] && d in a.lists[a.place[d].l];
        if a.place[d].l == l {
          var i :| 0 <= i < |xs| && xs[i] == d;
          assert b.lists[l][i + 1] == d;
        }
      }
    }
    forall m, i | m in b.lists && 0 <= i < |b.lists[m]|
      ensures b.lists[m][i] in b.place && b.place[b.lists[m][i]] == InList(m)
    {
      if m == l && i > 0 {
        assert b.lists[m][i] == xs[i - 1];
      }
    }
    forall m, i, j | m in b.lists && 0 <= i < j < |b.lists[m]|
      ensures b.lists[m][i] != b.lists[m][j]
    {
      if m == l {
        assert b.lists[m][j] == xs[j - 1];
        assert i > 0 ==> b.lists[m][i] == xs[i - 1];
      }
    }
  }

  /** A push whose swap succeeds puts its chunk on top of the stack. */
  lemma PushSwap(s: State, a: Stacks, t: Thread)
    requires Inv(s, a) && t in s.pcs && s.pcs[t].Ready? && s.pcs[t].op.Push?
    requires s.heads[s.pcs[t].l] == s.pcs[t].orig
    ensures Inv(SwapStep(s, t), PushOf(a, s.pcs[t].l, s.pcs[t].op.c))
  {
    hide ListsPlaced, HandsPlaced, Chain;
    var pc, s' := s.pcs[t], SwapStep(s, t);
    var l, c := pc.l, pc.op.c;
    assert TypedPc(s.heads, s.next, pc) && Knows(s.heads, s.next, pc);
    assert s.heads[l].chunk == Top(a.lists[l]) && Chain(s.next, a.lists[l]);
    ChainCons(s.next, c, a.lists[l]);
    PushPlaced(s.pcs, a, t, l, c);
    SwapKeepsKnowledge(s, a, t);
    assert s'.next.Keys == PushOf(a, l, c).place.Keys;
  }

  /** Every step keeps the invariant, and does to the stacks what Effect says:
      the lists behave as stacks operated on one at a time. */
  lemma StepRefines(s: State, a: Stacks, t: Thread, act: Action)
    requires Inv(s, a) && Enabled(s, t, act)
    ensures Inv(Step(s, t, act), Effect(a, s, t, act))
  {
    hide ListsPlaced, HandsPlaced, Linked;
    var pc := s.pcs[t];
    assert TypedPc(s.heads, s.next, pc) && Knows(s.heads, s.next, pc);
    match act
    case StartPop(l) => LocalStep(s, a, t, Begun(l, Pop));
    case StartPush(l) => LocalStep(s, a, t, Begun(l, Push(pc.c)));
    case ReadId => LocalStep(s, a, t, Step(s, t, act).pcs[t]);
    case ReadChunk =>
      if s.heads[pc.l].chunk.Some? { TopInList(s, a, pc.l); }
      LocalStep(s, a, t, Step(s, t, act).pcs[t]);
    case Prepare => PrepareRefines(s, a, t);
    case Swap => SwapRefines(s, a, t);
    case Scribble(v) => OwnWrite(s, a, t, pc.c, v);
  }

  lemma SwapRefines(s: State, a: Stacks, t: Thread)
    requires Inv(s, a) && Enabled(s, t, Swap)
    ensures Inv(Step(s, t, Swap), Effect(a, s, t, Swap))
  {
    hide ListsPlaced, HandsPlaced, Linked;
    var pc := s.pcs[t];
    assert TypedPc(s.heads, s.next, pc) && Knows(s.heads, s.next, pc);
    if s.heads[pc.l] != pc.orig {
      if s.heads[pc.l].chunk.Some? { TopInList(s, a, pc.l); }
      LocalStep(s, a, t, Loaded(pc.l, pc.op, s.heads[pc.l], s.heads[pc.l].id));
    } else if pc.op.Pop? {
      PopSwap(s, a, t);
    } else {
      PushSwap(s, a, t);
    }
  }

  lemma PrepareRefines(s: State, a: Stacks, t: Thread)
    requires Inv(s, a) && t in s.pcs && s.pcs[t].Loaded?
    ensures Inv(PrepareStep(s, t), a)
  {
    if s.pcs[t].op.Push? {
      PreparePush(s, a, t);
    } else {
      PreparePop(s, a, t);
    }
  }

  lemma PreparePush(s: State, a: Stacks, t: Thread)
    requires Inv(s, a) && t in s.pcs && s.pcs[t].Loaded? && s.pcs[t].op.Push?
    ensures Inv(PrepareStep(s, t), a)
  {
    hide Placed, Linked;
    var pc, s' := s.pcs[t], PrepareStep(s, t);
    assert TypedPc(s.heads, s.next, pc) && Knows(s.heads, s.next, pc);
    var r := s.(next := s.next[pc.op.c := pc.orig.chunk]);
    OwnWrite(s, a, t, pc.op.c, pc.orig.chunk);
    LocalStep(r, a, t, s'.pcs[t]);
    assert s' == r.(pcs := r.pcs[t := s'.pcs[t]]);
  }

  lemma PreparePop(s: State, a: Stacks, t: Thread)
    requires Inv(s, a) && t in s.pcs && s.pcs[t].Loaded? && s.pcs[t].op.Pop?
    ensures Inv(PrepareStep(s, t), a)
  {
    hide Placed, Linked;
    var pc, s' := s.pcs[t], PrepareStep(s, t);
    assert TypedPc(s.heads, s.next, pc) && Knows(s.heads, s.next, pc);
    LocalStep(s, a, t, s'.pcs[t]);
  }

  // ---- Whole runs ----

  datatype Move = Move(t: Thread, act: Action)

  /** The state after a run of moves; a move that is not enabled does nothing. */
  ghost function Run(s: State, moves: seq<Move>): State
    requires Typed(s)
  {
    if moves == [] then s
    else
      var r := Run(s, moves[..|moves| - 1]);
      var m := moves[|moves| - 1];
      if Typed(r) && Enabled(r, m.t, m.act) then Step(r, m.t, m.act) else r
  }

  /** The stacks after the same run, operated on one swap at a time. */
  ghost function RunStacks(s: State, a: Stacks, moves: seq<Move>): Stacks
    requires Typed(s)
  {
    if moves == [] then a
    else
      var r, b := Run(s, moves[..|moves| - 1]), RunStacks(s, a, moves[..|moves| - 1]);
      var m := moves[|moves| - 1];
      if Typed(r) && Enabled(r, m.t, m.act) && r.heads.Keys == b.lists.Keys then Effect(b, r, m.t, m.act) else b
  }

  /** Over every run of every number of threads the lists are stacks. */
  lemma {:induction false} RunRefines(s: State, a: Stacks, moves: seq<Move>)
    requires Inv(s, a)
    ensures Inv(Run(s, moves), RunStacks(s, a, moves))
  {
    if moves != [] {
      var init, m := moves[..|moves| - 1], moves[|moves| - 1];
      RunRefines(s, a, init);
      var r := Run(s, init);
      if Enabled(r, m.t, m.act) {
        StepRefines(r, RunStacks(s, a, init), m.t, m.act);
      }
    }
  }

  /** No chunk appears or vanishes. */
  lemma {:induction false} RunConserves(s: State, a: Stacks, moves: seq<Move>)
    requires Inv(s, a)
    ensures Run(s, moves).next.Keys == s.next.Keys
    ensures RunStacks(s, a, moves).place.Keys == a.place.Keys
  {
    if moves != [] {
      var init, m := moves[..|moves| - 1], moves[|moves| - 1];
      RunConserves(s, a, init);
      RunRefines(s, a, init);
      var r := Run(s, init);
      if Enabled(r, m.t, m.act) {
        assert TypedPc(r.heads, r.next, r.pcs[m.t]);
        RunRefines(s, a, moves);
        assert Step(r, m.t, m.act).next.Keys == r.next.Keys;
      }
    }
  }

  /** Every chunk is in one hand, or in one place of one list. */
  ghost predicate Exclusive(s: State, a: Stacks) {
    && (forall t, u | t in s.pcs && u in s.pcs && Held(s.pcs[t]).Some? && Held(s.pcs[t]) == Held(s.pcs[u]) :: t == u)
    && (forall t, l | t in s.pcs && l in a.lists && Held(s.pcs[t]).Some? :: Held(s.pcs[t]).value !in a.lists[l])
    && (forall l, m, c | l in a.lists && m in a.lists && c in a.lists[l] && c in a.lists[m] :: l == m)
    && (forall l, i, j | l in a.lists && 0 <= i < j < |a.lists[l]| :: a.lists[l][i] != a.lists[l][j])
    && (forall c | c in s.next :: Somewhere(s, a, c))
  }

  ghost predicate Somewhere(s: State, a: Stacks, c: Chunk) {
    (exists t :: t in s.pcs && Held(s.pcs[t]) == Some(c)) || (exists l :: l in a.lists && c in a.lists[l])
  }

  lemma PlacedIsExclusive(s: State, a: Stacks)
    requires Placed(s, a)
    ensures Exclusive(s, a)
  {
    forall l, m, c | l in a.lists && m in a.lists && c in a.lists[l] && c in a.lists[m]
      ensures l == m
    {
      assert a.place[c] == InList(l);
    }
    forall c | c in s.next
      ensures Somewhere(s, a, c)
    {
      assert c in a.place;
    }
  }

  /** None lost and none twice: after any run all the chunks there were to
      begin with are each in one hand or in one place of one list. */
  lemma NeverTwice(s: State, a: Stacks, moves: seq<Move>)
    requires Inv(s, a)
    ensures Exclusive(Run(s, moves), RunStacks(s, a, moves))
    ensures Run(s, moves).next.Keys == s.next.Keys
  {
    RunRefines(s, a, moves);
    RunConserves(s, a, moves);
    PlacedIsExclusive(Run(s, moves), RunStacks(s, a, moves));
  }

  /** Idle threads and linked lists that hold every chunk once are a start. */
  lemma Start(s: State, a: Stacks)
    requires s.heads.Keys == a.lists.Keys && s.next.Keys == a.place.Keys
    requires forall t | t in s.pcs :: s.pcs[t].Idle?
    requires forall c | c in a.place :: a.place[c].InList?
    requires ListsPlaced(a) && Linked(s, a)
    ensures Inv(s, a)
  {
    hide Chain, ListsPlaced, Linked;
  }

  /** A pop returns null only if the list was empty when it read the chunk. */
  lemma NullMeansEmpty(s: State, a: Stacks, t: Thread, act: Action)
    requires Inv(s, a) && Enabled(s, t, act)
    requires act.ReadChunk? || (act.Swap? && s.heads[s.pcs[t].l] != s.pcs[t].orig)
    ensures var pc := Step(s, t, act).pcs[t];
            (pc.GotChunk? && pc.chunk == None) || (pc.Loaded? && pc.orig.chunk == None)
            <==> a.lists[s.pcs[t].l] == []
  {
    assert TypedPc(s.heads, s.next, s.pcs[t]);
    assert s.heads[s.pcs[t].l].chunk == Top(a.lists[s.pcs[t].l]);
  }

  /** Whether a move is a swap on list l that goes through. */
  ghost predicate Swaps(s: State, m: Move, l: List) {
    Enabled(s, m.t, m.act) && m.act.Swap? && s.pcs[m.t].l == l && l in s.heads && s.heads[l] == s.pcs[m.t].orig
  }

  /** How many operations on list l have taken effect in a run. */
  ghost function Successes(s: State, moves: seq<Move>, l: List): nat
    requires Typed(s)
  {
    if moves == [] then 0
    else
      var init, m := moves[..|moves| - 1], moves[|moves| - 1];
      Successes(s, init, l) + if Swaps(Run(s, init), m, l) then 1 else 0
  }

  lemma StepHeads(s: State, m: Move)
    requires Typed(s) && Enabled(s, m.t, m.act)
    ensures var u := Step(s, m.t, m.act);
            && u.heads.Keys == s.heads.Keys
            && forall l | l in s.heads :: u.heads[l].id == s.heads[l].id + if Swaps(s, m, l) then 1 else 0
  {
    assert TypedPc(s.heads, s.next, s.pcs[m.t]);
  }

  /** The counter of a list counts the operations on it. */
  lemma {:induction false} CounterCounts(s: State, a: Stacks, moves: seq<Move>)
    requires Inv(s, a)
    ensures Run(s, moves).heads.Keys == s.heads.Keys
    ensures forall l | l in s.heads :: Run(s, moves).heads[l].id == s.heads[l].id + Successes(s, moves, l)
  {
    hide Placed, Linked, Knows, TypedPc, Step, Enabled, Swaps;
    if moves != [] {
      var init, m := moves[..|moves| - 1], moves[|moves| - 1];
      CounterCounts(s, a, init);
      RunRefines(s, a, init);
      var r := Run(s, init);
      if Enabled(r, m.t, m.act) {
        StepHeads(r, m);
      } else {
        NotSwapped(r, m);
      }
    }
  }

  lemma NotSwapped(s: State, m: Move)
    requires !Enabled(s, m.t, m.act)
    ensures forall l :: !Swaps(s, m, l)
  {
  }

  /** Where a thread has read the head of a list, the counter when it began to. */
  function Base(pc: Pc): Option<nat> {
    match pc
    case GotId(_, _, id) => Some(id)
    case GotChunk(_, _, _, base) => Some(base)
    case Loaded(_, _, _, base) => Some(base)
    case Ready(_, _, _, _, base) => Some(base)
    case _ => None
  }

  /** Whatever thread t has read of a head in state r, it has read since s. */
  ghost predicate ReadSince(s: State, r: State, t: Thread) {
    t in r.pcs && (Base(r.pcs[t]).Some? ==> r.pcs[t].l in s.heads && Base(r.pcs[t]).value >= s.heads[r.pcs[t].l].id)
  }

  lemma ReadStep(s: State, r: State, t: Thread, m: Move)
    requires Typed(r) && Enabled(r, m.t, m.act) && ReadSince(s, r, t)
    requires r.heads.Keys == s.heads.Keys && forall l | l in s.heads :: r.heads[l].id >= s.heads[l].id
    ensures ReadSince(s, Step(r, m.t, m.act), t)
  {
    assert TypedPc(r.heads, r.next, r.pcs[m.t]);
  }

  lemma {:induction false} ReadRun(s: State, a: Stacks, moves: seq<Move>, t: Thread)
    requires Inv(s, a) && ReadSince(s, s, t)
    ensures ReadSince(s, Run(s, moves), t)
  {
    hide Placed, Linked, Knows;
    if moves != [] {
      var init, m := moves[..|moves| - 1], moves[|moves| - 1];
      ReadRun(s, a, init, t);
      RunRefines(s, a, init);
      var r := Run(s, init);
      CounterCounts(s, a, init);
      if Enabled(r, m.t, m.act) {
        ReadStep(s, r, t, m);
      }
    }
  }

  /** When a swap is about to fail, an operation on that list has taken effect
      since the thread began to read it, in any run in which the thread itself
      has not swapped since then: some thread always makes progress. */
  lemma FailureMeansProgress(s: State, a: Stacks, moves: seq<Move>, t: Thread)
    requires Inv(s, a) && ReadSince(s, s, t) && Move(t, Swap) !in moves
    requires var r := Run(s, moves); t in r.pcs && r.pcs[t].Ready? && r.pcs[t].l in r.heads && r.heads[r.pcs[t].l] != r.pcs[t].orig
    ensures var l := Run(s, moves).pcs[t].l;
            && Successes(s, moves, l) >= 1
            && exists i :: 0 <= i < |moves| && moves[i].t != t && Swaps(Run(s, moves[..i]), moves[i], l)
  {
    hide Placed, Linked, Run;
    var r := Run(s, moves);
    var l := r.pcs[t].l;
    RunRefines(s, a, moves);
    assert Knows(r.heads, r.next, r.pcs[t]);
    ReadRun(s, a, moves, t);
    CounterCounts(s, a, moves);
    SomeSwap(s, moves, l);
  }

  lemma {:induction false} SomeSwap(s: State, moves: seq<Move>, l: List)
    requires Typed(s) && Successes(s, moves, l) >= 1
    ensures exists i :: 0 <= i < |moves| && moves[i].act.Swap? && Swaps(Run(s, moves[..i]), moves[i], l)
  {
    hide Run, Swaps;
    var n := |moves| - 1;
    if Swaps(Run(s, moves[..n]), moves[n], l) {
      SwapAct(Run(s, moves[..n]), moves[n], l);
    } else {
      SomeSwap(s, moves[..n], l);
      var i :| 0 <= i < n && moves[..n][i].act.Swap? && Swaps(Run(s, moves[..n][..i]), moves[..n][i], l);
      assert moves[..n][..i] == moves[..i] && moves[..n][i] == moves[i];
    }
  }

  lemma SwapAct(s: State, m: Move, l: List)
    requires Swaps(s, m, l)
    ensures m.act.Swap?
  {
  }

  /** A swap that succeeds found the head and the next pointer as they were
      read: nothing happened to the list in between that matters. */
  lemma SuccessMeansUnchanged(s: State, a: Stacks, t: Thread)
    requires Inv(s, a) && t in s.pcs && s.pcs[t].Ready? && s.pcs[t].op.Pop?
    requires s.heads[s.pcs[t].l] == s.pcs[t].orig
    ensures s.pcs[t].orig.chunk.Some? && s.pcs[t].orig.chunk.value in s.next
    ensures s.pcs[t].next == s.next[s.pcs[t].orig.chunk.value]
  {
    assert Knows(s.heads, s.next, s.pcs[t]);
  }
}
