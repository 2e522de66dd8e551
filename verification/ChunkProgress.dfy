/** What single operations on the chunk lists come to, whatever the other
    threads do: when a pop may find nothing, and what a thread that is not
    overtaken gets done. */
module ChunkProgress {
  import opened Options
  import opened ChunkStacks

  // ---- Finding a list empty ----

  /** A thread has read a null chunk, or has given up because of one. */
  predicate SawNull(pc: Pc) {
    match pc
    case GotChunk(_, _, chunk, _) => chunk == None
    case Loaded(_, _, orig, _) => orig.chunk == None
    case Ready(_, _, orig, _, _) => orig.chunk == None
    case Empty(_) => true
    case _ => false
  }

  /** A list was empty at some moment of a run. */
  ghost predicate WasEmpty(s: State, a: Stacks, moves: seq<Move>, l: List)
    requires Typed(s)
  {
    exists i | 0 <= i <= |moves| ::
      l in RunStacks(s, a, moves[..i]).lists && RunStacks(s, a, moves[..i]).lists[l] == []
  }

  lemma WasEmptyBefore(s: State, a: Stacks, moves: seq<Move>, l: List)
    requires Typed(s) && moves != [] && WasEmpty(s, a, moves[..|moves| - 1], l)
    ensures WasEmpty(s, a, moves, l)
  {
    hide RunStacks;
    var init := moves[..|moves| - 1];
    var i :| 0 <= i <= |init| && l in RunStacks(s, a, init[..i]).lists && RunStacks(s, a, init[..i]).lists[l] == [];
    assert init[..i] == moves[..i];
  }

  /** Only an empty list shows a null chunk. */
  lemma NullStep(s: State, a: Stacks, m: Move, t: Thread)
    requires Inv(s, a) && Enabled(s, m.t, m.act) && t in s.pcs
    ensures var pc, u := s.pcs[t], Step(s, m.t, m.act);
            t in u.pcs && (SawNull(u.pcs[t]) ==>
              (SawNull(pc) && pc.l == u.pcs[t].l) || (u.pcs[t].l in a.lists && a.lists[u.pcs[t].l] == []))
  {
    hide Placed;
    assert s.heads.Keys == a.lists.Keys by { SameLists(s, a); }
    assert TypedPc(s.heads, s.next, s.pcs[m.t]);
    if !(s.pcs[m.t].Idle? || s.pcs[m.t].Holding?) {
      assert s.heads[s.pcs[m.t].l].chunk == Top(a.lists[s.pcs[m.t].l]);
    }
  }

  lemma SameLists(s: State, a: Stacks)
    requires Placed(s, a)
    ensures s.heads.Keys == a.lists.Keys
  {
  }

  lemma {:induction false} NullRun(s: State, a: Stacks, moves: seq<Move>, t: Thread)
    requires Inv(s, a) && t in s.pcs && !SawNull(s.pcs[t])
    ensures Typed(s)
    ensures var r := Run(s, moves); t in r.pcs && (SawNull(r.pcs[t]) ==> WasEmpty(s, a, moves, r.pcs[t].l))
  {
    hide Inv, Step, Enabled, WasEmpty, RunStacks;
    Threaded(s, a);
    if moves != [] {
      var n := |moves| - 1;
      var init, m := moves[..n], moves[n];
      NullRun(s, a, init, t);
      RunRefines(s, a, init);
      var r, b := Run(s, init), RunStacks(s, a, init);
      Threaded(r, b);
      if Enabled(r, m.t, m.act) {
        NullStep(r, b, m, t);
        var u := Step(r, m.t, m.act);
        if SawNull(u.pcs[t]) {
          if SawNull(r.pcs[t]) && r.pcs[t].l == u.pcs[t].l {
            WasEmptyBefore(s, a, moves, u.pcs[t].l);
          } else {
            EmptyAt(s, a, moves, n, u.pcs[t].l);
          }
        }
      } else if SawNull(r.pcs[t]) {
        WasEmptyBefore(s, a, moves, r.pcs[t].l);
      }
    }
  }

  /** A pop finds a list empty only if it was, at some moment since the pop
      began. */
  lemma EmptyOnlyIfEmpty(s: State, a: Stacks, moves: seq<Move>, t: Thread, l: List)
    requires Inv(s, a) && t in s.pcs && s.pcs[t].Begun?
    requires Typed(s) && t in Run(s, moves).pcs && Run(s, moves).pcs[t] == Empty(l)
    ensures exists i | 0 <= i <= |moves| ::
              l in RunStacks(s, a, moves[..i]).lists && RunStacks(s, a, moves[..i]).lists[l] == []
  {
    hide Inv, Run, RunStacks, Typed;
    NullRun(s, a, moves, t);
  }

  lemma Threaded(s: State, a: Stacks)
    requires Inv(s, a)
    ensures Typed(s)
  {
  }

  lemma EmptyAt(s: State, a: Stacks, moves: seq<Move>, i: nat, l: List)
    requires Typed(s) && i <= |moves|
    requires l in RunStacks(s, a, moves[..i]).lists && RunStacks(s, a, moves[..i]).lists[l] == []
    ensures WasEmpty(s, a, moves, l)
  {
  }

  // ---- An operation that is not overtaken ----

  /** What one thread does in a run. */
  function Acts(moves: seq<Move>, t: Thread): seq<Action> {
    if moves == [] then []
    else
      var n := |moves| - 1;
      Acts(moves[..n], t) + if moves[n].t == t then [moves[n].act] else []
  }

  /** The steps of a pop or push that goes through at the first attempt, or the
      first few of them. The two words of the head are read in either order. */
  predicate Attempt(acts: seq<Action>) {
    acts <= [ReadId, ReadChunk, Prepare, Swap] || acts <= [ReadChunk, ReadId, Prepare, Swap]
  }

  /** No other thread swaps the head of a list. */
  ghost predicate NoOtherSwap(s: State, moves: seq<Move>, t: Thread, l: List)
    requires Typed(s)
  {
    forall i | 0 <= i < |moves| && moves[i].t != t :: !Swaps(Run(s, moves[..i]), moves[i], l)
  }

  /** Where a thread is after those steps, if the head was h throughout. */
  predicate GotTo(acts: seq<Action>, pc: Pc, l: List, op: Op, h: Head) {
    if |acts| == 0 then pc == Begun(l, op)
    else if |acts| == 1 then pc == if acts[0] == ReadId then GotId(l, op, h.id) else GotChunk(l, op, h.chunk, h.id)
    else if |acts| == 2 then pc == Loaded(l, op, h, h.id)
    else if op.Pop? && h.chunk == None then pc == Empty(l)
    else if |acts| == 3 then pc.Ready? && pc.l == l && pc.op == op && pc.orig == h
    else pc == if op.Pop? then Holding(h.chunk.value) else Idle
  }

  /** What has become of the list by then. */
  ghost predicate DoneTo(acts: seq<Action>, xs: seq<Chunk>, op: Op, ys: seq<Chunk>) {
    if |acts| < 4 || (op.Pop? && xs == []) then ys == xs
    else if op.Pop? then ys == xs[1..]
    else ys == [op.c] + xs
  }

  lemma OtherStep(s: State, a: Stacks, m: Move, t: Thread, l: List)
    requires Inv(s, a) && Enabled(s, m.t, m.act) && m.t != t && t in s.pcs && l in s.heads && !Swaps(s, m, l)
    ensures var u, b := Step(s, m.t, m.act), Effect(a, s, m.t, m.act);
            t in u.pcs && u.pcs[t] == s.pcs[t] && l in u.heads && u.heads[l] == s.heads[l] && l in b.lists && b.lists[l] == a.lists[l]
  {
    hide ListsPlaced, HandsPlaced, Linked;
    assert TypedPc(s.heads, s.next, s.pcs[m.t]);
  }

  lemma OwnStep(s: State, a: Stacks, t: Thread, acts: seq<Action>, act: Action, l: List, op: Op)
    requires Inv(s, a) && t in s.pcs && l in s.heads && Attempt(acts + [act])
    requires GotTo(acts, s.pcs[t], l, op, s.heads[l]) && !(|acts| >= 3 && op.Pop? && s.heads[l].chunk == None)
    ensures Enabled(s, t, act) && l in a.lists
    ensures var u, b := Step(s, t, act), Effect(a, s, t, act);
            && t in u.pcs && l in u.heads && l in b.lists
            && GotTo(acts + [act], u.pcs[t], l, op, s.heads[l]) && DoneTo(acts + [act], a.lists[l], op, b.lists[l])
            && (|acts| < 3 ==> u.heads[l] == s.heads[l])
  {
    hide ListsPlaced, HandsPlaced, Chain;
    assert TypedPc(s.heads, s.next, s.pcs[t]) && Knows(s.heads, s.next, s.pcs[t]);
    assert s.heads[l].chunk == Top(a.lists[l]);
    NextAct(acts, act);
  }

  lemma NextAct(acts: seq<Action>, act: Action)
    requires Attempt(acts + [act])
    ensures |acts| < 4 && (|acts| == 0 ==> act == ReadId || act == ReadChunk)
    ensures |acts| == 1 ==> act == if acts[0] == ReadId then ReadChunk else ReadId
    ensures (|acts| == 2 ==> act == Prepare) && (|acts| == 3 ==> act == Swap)
  {
    var all := acts + [act];
    assert all[|acts|] == act && (|acts| > 0 ==> all[0] == acts[0]);
  }

  lemma Fewer(acts: seq<Action>, act: Action)
    requires Attempt(acts + [act])
    ensures Attempt(acts) && |acts| < 4
  {
    var all := acts + [act];
    assert acts == all[..|acts|];
  }

  /** A move of a run, and what it does to the stacks. */
  lemma OneMove(s: State, a: Stacks, moves: seq<Move>)
    requires Inv(s, a) && moves != []
    ensures Typed(s)
    ensures var n := |moves| - 1; var r, b, m := Run(s, moves[..n]), RunStacks(s, a, moves[..n]), moves[n];
            && Inv(r, b) && Typed(r) && r.heads.Keys == b.lists.Keys
            && (Enabled(r, m.t, m.act) ==>
                  Run(s, moves) == Step(r, m.t, m.act) && RunStacks(s, a, moves) == Effect(b, r, m.t, m.act))
            && (!Enabled(r, m.t, m.act) ==> Run(s, moves) == r && RunStacks(s, a, moves) == b)
  {
    hide ListsPlaced, HandsPlaced, Linked, Knows, Step, Effect, Enabled, TypedPc;
    RunRefines(s, a, moves[..|moves| - 1]);
  }

  /** How far a thread has got, and what has become of the list. */
  ghost predicate Along(s: State, a: Stacks, r: State, b: Stacks, t: Thread, l: List, op: Op, acts: seq<Action>) {
    && l in s.heads && l in a.lists && t in r.pcs && l in r.heads && l in b.lists
    && GotTo(acts, r.pcs[t], l, op, s.heads[l]) && DoneTo(acts, a.lists[l], op, b.lists[l])
    && (|acts| < 4 ==> r.heads[l] == s.heads[l])
  }

  lemma AlongOwn(s: State, a: Stacks, r: State, b: Stacks, t: Thread, l: List, op: Op, acts: seq<Action>, act: Action)
    requires Inv(s, a) && Inv(r, b) && Along(s, a, r, b, t, l, op, acts) && Attempt(acts + [act])
    requires op.Pop? && a.lists[l] == [] ==> |acts| < 3
    ensures Enabled(r, t, act) && Along(s, a, Step(r, t, act), Effect(b, r, t, act), t, l, op, acts + [act])
  {
    hide Inv, Step, Enabled, Effect, GotTo, Attempt;
    TopOf(s, a, l);
    Fewer(acts, act);
    OwnStep(r, b, t, acts, act, l, op);
  }

  lemma AlongOther(s: State, a: Stacks, r: State, b: Stacks, t: Thread, l: List, op: Op, acts: seq<Action>, m: Move)
    requires Inv(r, b) && Along(s, a, r, b, t, l, op, acts) && m.t != t && !Swaps(r, m, l) && Enabled(r, m.t, m.act)
    ensures Along(s, a, Step(r, m.t, m.act), Effect(b, r, m.t, m.act), t, l, op, acts)
  {
    hide Inv, Step, Enabled, Effect, GotTo, Swaps, DoneTo;
    OtherStep(r, b, m, t, l);
  }

  lemma NoOtherBefore(s: State, moves: seq<Move>, t: Thread, l: List)
    requires Typed(s) && moves != [] && NoOtherSwap(s, moves, t, l)
    ensures NoOtherSwap(s, moves[..|moves| - 1], t, l)
    ensures var n := |moves| - 1; moves[n].t != t ==> !Swaps(Run(s, moves[..n]), moves[n], l)
  {
    hide Run, Swaps;
    var init := moves[..|moves| - 1];
    forall i | 0 <= i < |init| && init[i].t != t ensures !Swaps(Run(s, init[..i]), init[i], l) {
      assert init[i] == moves[i] && init[..i] == moves[..i];
    }
  }

  lemma {:induction false} AlongRun(s: State, a: Stacks, moves: seq<Move>, t: Thread, l: List, op: Op)
    requires Inv(s, a) && t in s.pcs && s.pcs[t] == Begun(l, op) && l in s.heads && l in a.lists
    requires NoOtherSwap(s, moves, t, l) && Attempt(Acts(moves, t))
    requires op.Pop? && a.lists[l] == [] ==> |Acts(moves, t)| <= 3
    ensures Along(s, a, Run(s, moves), RunStacks(s, a, moves), t, l, op, Acts(moves, t))
  {
    if moves == [] {
      hide Inv, NoOtherSwap;
    } else {
      hide Inv, Step, Enabled, Effect, Along, Attempt, Swaps, NoOtherSwap, Run, RunStacks;
      var init, m := moves[..|moves| - 1], moves[|moves| - 1];
      OneMove(s, a, moves);
      NoOtherBefore(s, moves, t, l);
      if m.t == t {
        Fewer(Acts(init, t), m.act);
        AlongRun(s, a, init, t, l, op);
        AlongOwn(s, a, Run(s, init), RunStacks(s, a, init), t, l, op, Acts(init, t), m.act);
      } else {
        assert Acts(moves, t) == Acts(init, t);
        AlongRun(s, a, init, t, l, op);
        if Enabled(Run(s, init), m.t, m.act) {
          AlongOther(s, a, Run(s, init), RunStacks(s, a, init), t, l, op, Acts(init, t), m);
        }
      }
    }
  }

  /** A pop that is not overtaken takes the top of the list, and one that finds
      the list empty says so. */
  lemma PopNotOvertaken(s: State, a: Stacks, moves: seq<Move>, t: Thread, l: List)
    requires Inv(s, a) && t in s.pcs && s.pcs[t] == Begun(l, Pop) && l in s.heads && l in a.lists
    requires NoOtherSwap(s, moves, t, l) && Attempt(Acts(moves, t))
    requires |Acts(moves, t)| == if a.lists[l] == [] then 3 else 4
    ensures var r, b := Run(s, moves), RunStacks(s, a, moves);
            && t in r.pcs && l in b.lists
            && if a.lists[l] == [] then r.pcs[t] == Empty(l) && b.lists[l] == []
               else r.pcs[t] == Holding(a.lists[l][0]) && b.lists[l] == a.lists[l][1..]
  {
    hide Inv, Run, RunStacks, NoOtherSwap, Attempt, Acts;
    TopOf(s, a, l);
    AlongRun(s, a, moves, t, l, Pop);
  }

  lemma TopOf(s: State, a: Stacks, l: List)
    requires Inv(s, a) && l in s.heads && l in a.lists
    ensures Typed(s) && s.heads[l].chunk == Top(a.lists[l])
  {
    hide Placed, Knows, Chain, TypedPc;
  }

  /** A push that is not overtaken leaves its chunk on top of the list. */
  lemma PushNotOvertaken(s: State, a: Stacks, moves: seq<Move>, t: Thread, l: List, c: Chunk)
    requires Inv(s, a) && t in s.pcs && s.pcs[t] == Begun(l, Push(c)) && l in s.heads && l in a.lists
    requires NoOtherSwap(s, moves, t, l) && Attempt(Acts(moves, t)) && |Acts(moves, t)| == 4
    ensures var r, b := Run(s, moves), RunStacks(s, a, moves);
            t in r.pcs && l in b.lists && r.pcs[t] == Idle && b.lists[l] == [c] + a.lists[l]
  {
    hide Inv, Run, RunStacks, NoOtherSwap, Attempt, Acts;
    Threaded(s, a);
    AlongRun(s, a, moves, t, l, Push(c));
  }
}
