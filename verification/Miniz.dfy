/** miniz's Huffman tables: a lookup by the next ten bits, and for longer codes
    an overflow tree in the same 16-bit cells. */
module Miniz {
  import opened Bits
  import opened Options
  import opened Huffman
  import opened InflateSpec

  /** Strings of length d whose numbers lie in a range are no more than the range. */
  lemma {:induction false} WordsInRange(ws: set<seq<Bit>>, d: nat, lo: nat, hi: nat)
    requires lo <= hi && forall w | w in ws :: |w| == d && lo <= MsbVal(w) < hi
    ensures |ws| <= hi - lo
    decreases hi
  {
    if lo == hi {
      assert ws == {};
    } else if w :| w in ws && MsbVal(w) == hi - 1 {
      forall u | u in ws - {w}
        ensures MsbVal(u) < hi - 1
      {
        if MsbVal(u) == hi - 1 {
          MsbValInjective(u, w);
        }
      }
      WordsInRange(ws - {w}, d, lo, hi - 1);
    } else {
      WordsInRange(ws, d, lo, hi - 1);
    }
  }

  ghost predicate Overflowing(lens: seq<CodeLen>, w: seq<Bit>) {
    10 <= |w| <= 14 && Inner(lens, w)
  }

  /** Inner nodes from depth ten down to depth d. */
  lemma {:induction false} OverflowBound(lens: seq<CodeLen>, ws: set<seq<Bit>>, d: nat)
    requires Complete(lens) && 10 <= d <= 15
    requires forall w | w in ws :: Overflowing(lens, w) && |w| < d
    ensures |ws| <= InnerSum(lens, d) - InnerSum(lens, 10)
  {
    hide Inner, Left, Sound, InnerSum;
    if d == 10 {
      assert ws == {};
    } else {
      InnerSumStep(lens, d);
      var here := set w | w in ws && |w| == d - 1;
      InnerAtDepth(lens, here, d - 1);
      OverflowBound(lens, ws - here, d - 1);
      assert ws == here + (ws - here);
    }
  }

  lemma InnerSumStep(lens: seq<CodeLen>, d: nat)
    requires d > 0
    ensures InnerSum(lens, d) == InnerSum(lens, d - 1) + Left(lens, d - 1)
  {
  }

  lemma InnerAtDepth(lens: seq<CodeLen>, ws: set<seq<Bit>>, d: nat)
    requires Sound(lens) && d <= 15
    requires forall w | w in ws :: |w| == d && Inner(lens, w)
    ensures |ws| <= Left(lens, d)
  {
    LeftNonnegative(lens, d);
    WordsInRange(ws, d, First(lens, d) + Num(lens, d), Pow2(d));
  }

  lemma {:induction false} InnerSumNonnegative(lens: seq<CodeLen>, d: nat)
    requires Sound(lens) && d <= 15
    ensures InnerSum(lens, d) >= 0
  {
    if d > 0 {
      InnerSumNonnegative(lens, d - 1);
      LeftNonnegative(lens, d - 1);
    }
  }

  /** The overflow tree of a complete code needs fewer nodes than symbols. */
  lemma NodeBound(lens: seq<CodeLen>, ws: set<seq<Bit>>)
    requires Complete(lens) && |lens| <= 288
    requires forall w | w in ws :: Overflowing(lens, w)
    ensures |ws| <= 287
  {
    OverflowBound(lens, ws, 15);
    InnerCount(lens, 15);
    InnerSumNonnegative(lens, 10);
    BelowBound(lens);
  }

  /** One of the first n symbols has a short code that begins u. */
  ghost predicate Short(lens: seq<CodeLen>, n: nat, s: nat, u: seq<Bit>)
    requires Sound(lens)
  {
    s < n && HasCode(lens, s) && lens[s] <= 10 && CodeWord(lens, s) <= u
  }

  /** One of the first n symbols has exactly the code x. */
  ghost predicate Leaf(lens: seq<CodeLen>, n: nat, s: nat, x: seq<Bit>)
    requires Sound(lens)
  {
    s < n && HasCode(lens, s) && CodeWord(lens, s) == x
  }

  /** Inner nodes have no code at or above them. */
  lemma InnerNoCode(lens: seq<CodeLen>, u: seq<Bit>, s: nat)
    requires Sound(lens) && HasCode(lens, s) && Inner(lens, u)
    ensures !(CodeWord(lens, s) <= u)
  {
    CodeBound(lens, s);
    if lens[s] <= |u| {
      assert CodeWord(lens, s) <= u ==> CodeWord(lens, s) == u[..lens[s]];
      InnerPrefix(lens, u, lens[s]);
    }
  }

  lemma InnerPrefix(lens: seq<CodeLen>, u: seq<Bit>, d: nat)
    requires Inner(lens, u) && d <= |u|
    ensures Inner(lens, u[..d])
  {
    if d < |u| {
      PrefixInner(lens, u, d);
    } else {
      assert u[..d] == u;
    }
  }

  type Nodes = map<seq<Bit>, nat>

  /** The cell that points to node k. */
  function Pointer(k: nat): int { -(2 * k + 1) }

  /** The nodes of the overflow tree: inner nodes from depth ten on, closed
      under parents, numbered without gaps or repetition. */
  ghost predicate Trie(lens: seq<CodeLen>, node: Nodes) {
    && (forall u | u in node :: Overflowing(lens, u) && node[u] < |node|)
    && (forall u, v | u in node && v in node && node[u] == node[v] :: u == v)
    && (forall u {:trigger HasParent(node, u)} | u in node :: HasParent(node, u))
  }

  ghost predicate HasParent(node: Nodes, u: seq<Bit>) {
    |u| > 10 ==> u[..|u| - 1] in node
  }

  /** The lookup cell for the ten bits u: a pointer, a short code with its
      length, or nothing yet. */
  ghost predicate LookAt(lens: seq<CodeLen>, n: nat, node: Nodes, u: seq<Bit>, cell: int)
    requires Sound(lens)
  {
    && (u in node ==> cell == Pointer(node[u]))
    && (forall s: nat | Short(lens, n, s, u) :: cell == 512 * lens[s] + s)
    && (u !in node && (forall s: nat :: !Short(lens, n, s, u)) ==> cell == 0)
  }

  /** The tree cell for the path x: a pointer, a symbol, or nothing yet. */
  ghost predicate TreeAt(lens: seq<CodeLen>, n: nat, node: Nodes, x: seq<Bit>, cell: int)
    requires Sound(lens)
  {
    && (x in node ==> cell == Pointer(node[x]))
    && (forall s: nat | Leaf(lens, n, s, x) :: cell == s)
    && (x !in node && (forall s: nat :: !Leaf(lens, n, s, x)) ==> cell == 0)
  }

  ghost predicate LookOk(lens: seq<CodeLen>, n: nat, node: Nodes, look: seq<int>)
    requires Sound(lens)
  {
    && |look| == 1024
    && forall u: seq<Bit> | |u| == 10 :: Index(u) < 1024 && LookAt(lens, n, node, u, look[Index(u)])
  }

  function Index(u: seq<Bit>): nat { LsbVal(u) }

  function Cell(k: nat, b: Bit): nat { 2 * k + b }

  ghost predicate TreeOk(lens: seq<CodeLen>, n: nat, node: Nodes, tree: seq<int>)
    requires Sound(lens)
  {
    && |tree| == 576 && |node| <= 288
    && (forall u, b: Bit | u in node :: NodeOk(lens, n, node, tree, u, b))
    && (forall i | 2 * |node| <= i < 576 :: tree[i] == 0)
  }

  /** Cell b of node u holds what belongs there. */
  ghost predicate NodeOk(lens: seq<CodeLen>, n: nat, node: Nodes, tree: seq<int>, u: seq<Bit>, b: Bit)
    requires Sound(lens) && u in node
  {
    Cell(node[u], b) < |tree| && TreeAt(lens, n, node, u + [b], tree[Cell(node[u], b)])
  }

  /** The long codes among the first n symbols have their paths in the tree. */
  ghost predicate Paths(lens: seq<CodeLen>, n: nat, node: Nodes)
    requires Sound(lens)
  {
    forall s: nat, d | s < n && HasCode(lens, s) && 10 <= d < lens[s] :: CodeWord(lens, s)[..d] in node
  }

  ghost predicate Holds(lens: seq<CodeLen>, n: nat, node: Nodes, look: seq<int>, tree: seq<int>) {
    && Complete(lens) && |lens| <= 288
    && Trie(lens, node)
    && LookOk(lens, n, node, look)
    && TreeOk(lens, n, node, tree)
    && Paths(lens, n, node)
  }

  lemma IndexInjective(u: seq<Bit>, v: seq<Bit>)
    requires |u| == |v| == 10 && Index(u) == Index(v)
    ensures u == v
  {
    LsbValInjective(u, v);
  }

  lemma IndexBound(u: seq<Bit>)
    requires |u| == 10
    ensures Index(u) < 1024
  {
    assert Pow2(10) == 1024;
  }

  /** A node added for u, with the next number. */
  lemma GrowTrie(lens: seq<CodeLen>, node: Nodes, u: seq<Bit>)
    requires Complete(lens) && |lens| <= 288 && Trie(lens, node)
    requires u !in node && Overflowing(lens, u)
    requires HasParent(node, u)
    ensures Trie(lens, node[u := |node|]) && |node[u := |node|]| == |node| + 1 <= 287
  {
    hide Overflowing, Complete;
    var node' := node[u := |node|];
    assert node'.Keys == node.Keys + {u};
    NodeBound(lens, node'.Keys);
    forall x | x in node'
      ensures HasParent(node', x)
    {
      assert HasParent(node, x);
    }
    forall x, y | x in node' && y in node' && node'[x] == node'[y]
      ensures x == y
    {
    }
  }

  /** Nothing hangs below a path that is not a node yet. */
  lemma NothingBelow(lens: seq<CodeLen>, n: nat, node: Nodes, u: seq<Bit>, b: Bit)
    requires Sound(lens) && Trie(lens, node) && Paths(lens, n, node)
    requires u !in node && 10 <= |u|
    ensures u + [b] !in node && forall s: nat :: !Leaf(lens, n, s, u + [b])
  {
    var x := u + [b];
    assert x[..|u|] == u;
    assert x in node ==> HasParent(node, x);
    forall s: nat | HasCode(lens, s)
      ensures !Leaf(lens, n, s, x)
    {
      assert s < n && |u| < lens[s] ==> CodeWord(lens, s)[..|u|] in node;
    }
  }

  /** At an inner node a cell is empty exactly when the node is not there yet. */
  lemma RootCell(lens: seq<CodeLen>, n: nat, node: Nodes, look: seq<int>, u: seq<Bit>)
    requires Sound(lens) && LookOk(lens, n, node, look) && |u| == 10 && Inner(lens, u)
    ensures Index(u) < 1024
    ensures look[Index(u)] == if u in node then Pointer(node[u]) else 0
  {
    hide Inner, LsbVal;
    assert LookAt(lens, n, node, u, look[Index(u)]);
    forall s: nat
      ensures !Short(lens, n, s, u)
    {
      if HasCode(lens, s) { InnerNoCode(lens, u, s); }
    }
  }

  lemma ChildCell(lens: seq<CodeLen>, n: nat, node: Nodes, tree: seq<int>, v: seq<Bit>, b: Bit)
    requires Sound(lens) && TreeOk(lens, n, node, tree) && v in node && Inner(lens, v + [b])
    ensures Cell(node[v], b) < 576
    ensures tree[Cell(node[v], b)] == if v + [b] in node then Pointer(node[v + [b]]) else 0
  {
    hide Inner;
    var x := v + [b];
    assert NodeOk(lens, n, node, tree, v, b);
    forall s: nat
      ensures !Leaf(lens, n, s, x)
    {
      if HasCode(lens, s) { InnerNoCode(lens, x, s); }
    }
  }

  lemma RootLook(lens: seq<CodeLen>, n: nat, node: Nodes, look: seq<int>, u: seq<Bit>)
    requires Sound(lens) && LookOk(lens, n, node, look) && |u| == 10 && Inner(lens, u) && u !in node
    ensures Index(u) < 1024
    ensures LookOk(lens, n, node[u := |node|], look[Index(u) := Pointer(|node|)])
  {
    hide Inner, Index;
    IndexBound(u);
    var node', look' := node[u := |node|], look[Index(u) := Pointer(|node|)];
    forall v: seq<Bit> | |v| == 10
      ensures Index(v) < 1024 && LookAt(lens, n, node', v, look'[Index(v)])
    {
      IndexBound(v);
      assert LookAt(lens, n, node, v, look[Index(v)]);
      if v == u {
        forall s: nat ensures !Short(lens, n, s, u)
        {
          if HasCode(lens, s) { InnerNoCode(lens, u, s); }
        }
      } else {
        if Index(v) == Index(u) { IndexInjective(u, v); }
      }
    }
  }

  /** A new node's own two cells are empty, and rightly so. */
  lemma NewCells(lens: seq<CodeLen>, n: nat, node: Nodes, tree: seq<int>, u: seq<Bit>, b: Bit)
    requires Sound(lens) && Trie(lens, node) && TreeOk(lens, n, node, tree) && Paths(lens, n, node)
    requires u !in node && 10 <= |u| && |node| <= 286
    ensures Cell(|node|, b) < 576
    ensures TreeAt(lens, n, node[u := |node|], u + [b], tree[Cell(|node|, b)])
  {
    NothingBelow(lens, n, node, u, b);
    assert u + [b] != u;
  }

  lemma RootTree(lens: seq<CodeLen>, n: nat, node: Nodes, tree: seq<int>, u: seq<Bit>)
    requires Sound(lens) && Trie(lens, node) && TreeOk(lens, n, node, tree) && Paths(lens, n, node)
    requires |u| == 10 && u !in node && |node| <= 286
    ensures TreeOk(lens, n, node[u := |node|], tree)
  {
    var node' := node[u := |node|];
    assert |node'| == |node| + 1;
    forall v, b: Bit | v in node'
      ensures NodeOk(lens, n, node', tree, v, b)
    {
      if v == u {
        NewCells(lens, n, node, tree, u, b);
      } else {
        assert NodeOk(lens, n, node, tree, v, b);
        assert Overflowing(lens, v) && |v + [b]| > 10;
      }
    }
  }

  /** The root of an overflow path enters the lookup table. */
  lemma AddRoot(lens: seq<CodeLen>, n: nat, node: Nodes, look: seq<int>, tree: seq<int>, u: seq<Bit>)
    requires Holds(lens, n, node, look, tree) && |u| == 10 && Overflowing(lens, u) && u !in node
    ensures Index(u) < 1024
    ensures Holds(lens, n, node[u := |node|], look[Index(u) := Pointer(|node|)], tree)
    ensures |node[u := |node|]| == |node| + 1
  {
    hide Inner, Trie, LookOk, TreeOk, Index;
    GrowTrie(lens, node, u);
    RootLook(lens, n, node, look, u);
    RootTree(lens, n, node, tree, u);
  }

  lemma ChildTree(lens: seq<CodeLen>, n: nat, node: Nodes, tree: seq<int>, v: seq<Bit>, b: Bit)
    requires Sound(lens) && Trie(lens, node) && TreeOk(lens, n, node, tree) && Paths(lens, n, node)
    requires v in node && v + [b] !in node && Inner(lens, v + [b]) && 10 <= |v| && |node| <= 286
    ensures Cell(node[v], b) < 576
    ensures TreeOk(lens, n, node[v + [b] := |node|], tree[Cell(node[v], b) := Pointer(|node|)])
  {
    hide Inner, Leaf, Overflowing, TreeAt, Paths, Sound;
    var x := v + [b];
    assert NodeOk(lens, n, node, tree, v, b);
    var node', tree' := node[x := |node|], tree[Cell(node[v], b) := Pointer(|node|)];
    assert |node'| == |node| + 1;
    forall u, c: Bit | u in node'
      ensures NodeOk(lens, n, node', tree', u, c)
    {
      if u == x {
        NewCells(lens, n, node, tree, x, c);
      } else {
        assert NodeOk(lens, n, node, tree, u, c) && NodeOk(lens, n, node, tree, v, b);
        if u == v && c == b {
          PointerCell(lens, n, node', x);
        } else {
          SameChild(u, c, v, b);
          OtherCell(lens, n, node, u + [c], x, tree[Cell(node[u], c)]);
        }
      }
    }
  }

  lemma PointerCell(lens: seq<CodeLen>, n: nat, node: Nodes, x: seq<Bit>)
    requires Sound(lens) && Inner(lens, x) && x in node
    ensures TreeAt(lens, n, node, x, Pointer(node[x]))
  {
    hide Inner, Leaf, Sound;
    NoLeaf(lens, n, x);
  }

  lemma OtherCell(lens: seq<CodeLen>, n: nat, node: Nodes, y: seq<Bit>, x: seq<Bit>, cell: int)
    requires Sound(lens) && TreeAt(lens, n, node, y, cell) && y != x
    ensures TreeAt(lens, n, node[x := |node|], y, cell)
  {
    hide Leaf, Sound;
  }

  lemma NoLeaf(lens: seq<CodeLen>, n: nat, x: seq<Bit>)
    requires Sound(lens) && Inner(lens, x)
    ensures forall s: nat :: !Leaf(lens, n, s, x)
  {
    hide Inner;
    forall s: nat ensures !Leaf(lens, n, s, x)
    {
      if HasCode(lens, s) { InnerNoCode(lens, x, s); }
    }
  }

  lemma SameChild(u: seq<Bit>, c: Bit, v: seq<Bit>, b: Bit)
    ensures u + [c] == v + [b] ==> u == v && c == b
  {
    if u + [c] == v + [b] {
      assert (u + [c])[..|u|] == u && (v + [b])[..|v|] == v;
      assert (u + [c])[|u|] == c && (v + [b])[|v|] == b;
    }
  }

  /** A node further down an overflow path. */
  lemma AddChild(lens: seq<CodeLen>, n: nat, node: Nodes, look: seq<int>, tree: seq<int>, v: seq<Bit>, b: Bit)
    requires Holds(lens, n, node, look, tree) && v in node && v + [b] !in node && Overflowing(lens, v + [b])
    ensures Cell(node[v], b) < 576
    ensures Holds(lens, n, node[v + [b] := |node|], look, tree[Cell(node[v], b) := Pointer(|node|)])
    ensures |node[v + [b] := |node|]| == |node| + 1
  {
    hide Inner, TreeOk, Index;
    var x := v + [b];
    assert x[..|x| - 1] == v;
    assert Overflowing(lens, v);
    GrowTrie(lens, node, x);
    ChildTree(lens, n, node, tree, v, b);
    ChildLook(lens, n, node, look, x);
  }

  lemma ChildLook(lens: seq<CodeLen>, n: nat, node: Nodes, look: seq<int>, x: seq<Bit>)
    requires Sound(lens) && LookOk(lens, n, node, look) && |x| > 10
    ensures LookOk(lens, n, node[x := |node|], look)
  {
    hide Index;
    var node' := node[x := |node|];
    forall u: seq<Bit> | |u| == 10
      ensures Index(u) < 1024 && LookAt(lens, n, node', u, look[Index(u)])
    {
      assert LookAt(lens, n, node, u, look[Index(u)]);
    }
  }

  /** One more symbol changes no path but that of its own code. */
  lemma LeafStep(lens: seq<CodeLen>, s: nat, n: nat, x: seq<Bit>)
    requires Sound(lens) && n == s + 1 && !(HasCode(lens, s) && CodeWord(lens, s) == x)
    ensures forall t: nat :: Leaf(lens, n, t, x) <==> Leaf(lens, s, t, x)
  {
  }

  lemma ShortStep(lens: seq<CodeLen>, s: nat, n: nat, u: seq<Bit>)
    requires Sound(lens) && n == s + 1 && !(HasCode(lens, s) && lens[s] <= 10 && CodeWord(lens, s) <= u)
    ensures forall t: nat :: Short(lens, n, t, u) <==> Short(lens, s, t, u)
  {
  }

  lemma LookUnchanged(lens: seq<CodeLen>, s: nat, node: Nodes, look: seq<int>)
    requires Sound(lens) && LookOk(lens, s, node, look) && (HasCode(lens, s) ==> lens[s] > 10)
    ensures LookOk(lens, s + 1, node, look)
  {
    hide Index;
    var n := s + 1;
    forall u: seq<Bit> | |u| == 10
      ensures Index(u) < 1024 && LookAt(lens, n, node, u, look[Index(u)])
    {
      assert LookAt(lens, s, node, u, look[Index(u)]);
      ShortStep(lens, s, n, u);
    }
  }

  lemma TreeUnchanged(lens: seq<CodeLen>, s: nat, node: Nodes, tree: seq<int>)
    requires Sound(lens) && Trie(lens, node) && TreeOk(lens, s, node, tree) && (HasCode(lens, s) ==> lens[s] <= 10)
    ensures TreeOk(lens, s + 1, node, tree)
  {
    hide Inner;
    var n := s + 1;
    forall u, b: Bit | u in node
      ensures NodeOk(lens, n, node, tree, u, b)
    {
      assert NodeOk(lens, s, node, tree, u, b);
      assert Overflowing(lens, u);
      LeafStep(lens, s, n, u + [b]);
    }
  }

  /** A symbol without a code changes nothing. */
  lemma AddNone(lens: seq<CodeLen>, s: nat, node: Nodes, look: seq<int>, tree: seq<int>)
    requires Holds(lens, s, node, look, tree) && s < |lens| && lens[s] == 0
    ensures Holds(lens, s + 1, node, look, tree)
  {
    hide Inner, Index, LookOk, TreeOk, Trie;
    LookUnchanged(lens, s, node, look);
    TreeUnchanged(lens, s, node, tree);
  }

  lemma ShortLook(lens: seq<CodeLen>, s: nat, node: Nodes, look: seq<int>, look': seq<int>)
    requires Sound(lens) && Trie(lens, node) && LookOk(lens, s, node, look) && HasCode(lens, s) && lens[s] <= 10
    requires |look'| == 1024
    requires forall u: seq<Bit> | |u| == 10 :: Index(u) < 1024 &&
               look'[Index(u)] == if CodeWord(lens, s) <= u then 512 * lens[s] + s else look[Index(u)]
    ensures LookOk(lens, s + 1, node, look')
  {
    hide Index, Inner;
    var n := s + 1;
    forall u: seq<Bit> | |u| == 10
      ensures Index(u) < 1024 && LookAt(lens, n, node, u, look'[Index(u)])
    {
      assert LookAt(lens, s, node, u, look[Index(u)]);
      if CodeWord(lens, s) <= u {
        forall t: nat | Short(lens, n, t, u) ensures t == s { PrefixFree(lens, s, t, u); }
        if u in node {
          assert Overflowing(lens, u);
          InnerNoCode(lens, u, s);
        }
        assert Short(lens, n, s, u);
      } else {
        ShortStep(lens, s, n, u);
      }
    }
  }

  /** A short code fills every cell it begins. */
  lemma AddShort(lens: seq<CodeLen>, s: nat, node: Nodes, look: seq<int>, look': seq<int>, tree: seq<int>)
    requires Holds(lens, s, node, look, tree) && HasCode(lens, s) && lens[s] <= 10
    requires |look'| == 1024
    requires forall u: seq<Bit> | |u| == 10 :: Index(u) < 1024 &&
               look'[Index(u)] == if CodeWord(lens, s) <= u then 512 * lens[s] + s else look[Index(u)]
    ensures Holds(lens, s + 1, node, look', tree)
  {
    hide Inner, Index, LookOk, TreeOk, Trie, CodeWord;
    ShortLook(lens, s, node, look, look');
    TreeUnchanged(lens, s, node, tree);
  }

  lemma LeafTree(lens: seq<CodeLen>, s: nat, node: Nodes, tree: seq<int>, v: seq<Bit>, b: Bit)
    requires Sound(lens) && Trie(lens, node) && TreeOk(lens, s, node, tree)
    requires HasCode(lens, s) && CodeWord(lens, s) == v + [b] && v in node
    ensures Cell(node[v], b) < 576
    ensures TreeOk(lens, s + 1, node, tree[Cell(node[v], b) := s])
  {
    hide Leaf, Overflowing, TreeAt, Sound, CodeWord;
    var x := v + [b];
    assert NodeOk(lens, s, node, tree, v, b);
    var tree' := tree[Cell(node[v], b) := s];
    var n := s + 1;
    forall u, c: Bit | u in node
      ensures NodeOk(lens, n, node, tree', u, c)
    {
      assert NodeOk(lens, s, node, tree, u, c);
      if u == v && c == b {
        SymbolCell(lens, s, node, x);
      } else {
        SameChild(u, c, v, b);
        SameCell(lens, s, node, u + [c], tree[Cell(node[u], c)]);
      }
    }
  }

  lemma SameCell(lens: seq<CodeLen>, s: nat, node: Nodes, y: seq<Bit>, cell: int)
    requires Sound(lens) && TreeAt(lens, s, node, y, cell) && !(HasCode(lens, s) && CodeWord(lens, s) == y)
    ensures TreeAt(lens, s + 1, node, y, cell)
  {
    hide Leaf, Sound;
    var n := s + 1;
    LeafStep(lens, s, n, y);
  }

  lemma SymbolCell(lens: seq<CodeLen>, s: nat, node: Nodes, x: seq<Bit>)
    requires Sound(lens) && Trie(lens, node) && HasCode(lens, s) && CodeWord(lens, s) == x
    ensures TreeAt(lens, s + 1, node, x, s)
  {
    hide Inner, Sound;
    var n := s + 1;
    forall t: nat | Leaf(lens, n, t, x) ensures t == s { PrefixFree(lens, s, t, x); }
    if x in node {
      assert Overflowing(lens, x);
      InnerNoCode(lens, x, s);
    }
    assert Leaf(lens, n, s, x);
  }

  /** A long code ends in a cell of the tree. */
  lemma AddLeaf(lens: seq<CodeLen>, s: nat, node: Nodes, look: seq<int>, tree: seq<int>, v: seq<Bit>, b: Bit)
    requires Holds(lens, s, node, look, tree) && HasCode(lens, s) && CodeWord(lens, s) == v + [b] && lens[s] > 10
    requires forall d | 10 <= d < lens[s] :: CodeWord(lens, s)[..d] in node
    ensures v in node && Cell(node[v], b) < 576
    ensures Holds(lens, s + 1, node, look, tree[Cell(node[v], b) := s])
  {
    hide Inner, Index, LookOk, TreeOk, Trie;
    assert CodeWord(lens, s)[..lens[s] - 1] == v;
    LookUnchanged(lens, s, node, look);
    LeafTree(lens, s, node, tree, v, b);
  }

  /** The cells a short code fills: one every 2^size from its reversed code on. */
  lemma StrideHits(w: seq<Bit>, u: seq<Bit>, j: nat)
    requires |w| <= 10 && |u| == 10 && Index(u) == LsbVal(w) + Shl(j, |w|)
    ensures w <= u
  {
    var L := |w|;
    if j >= Pow2(10 - L) {
      Pow2Shl(j, 10 - L, L);
      assert false;
    }
    var v := w + LsbWord(j, 10 - L);
    LsbConcat(w, LsbWord(j, 10 - L));
    LsbWordValue(j, 10 - L);
    LowSmall(j, 10 - L);
    LsbValInjective(u, v);
  }

  lemma {:induction false} Pow2Shl(j: nat, m: nat, n: nat)
    requires j >= Pow2(m)
    ensures Shl(j, n) >= Pow2(m + n)
  {
    if n > 0 {
      Pow2Shl(j, m, n - 1);
    }
  }

  lemma StrideSkips(w: seq<Bit>, u: seq<Bit>, j: nat)
    requires |w| <= 10 && |u| == 10 && w <= u
    ensures Index(u) <= LsbVal(w) + Shl(j, |w|) || Index(u) >= LsbVal(w) + Shl(j + 1, |w|)
  {
    hide LsbVal, Shl;
    var v := u[|w|..];
    assert u == w + v;
    LsbConcat(w, v);
    if LsbVal(v) < j {
      ShlMono(LsbVal(v), j, |w|);
    } else if LsbVal(v) > j + 1 {
      ShlMono(j + 1, LsbVal(v), |w|);
    }
  }

  lemma EmptyHolds(lens: seq<CodeLen>, look: seq<int>, tree: seq<int>)
    requires Complete(lens) && |lens| <= 288 && |look| == 1024 && |tree| == 576
    requires forall i | 0 <= i < 1024 :: look[i] == 0
    requires forall i | 0 <= i < 576 :: tree[i] == 0
    ensures Holds(lens, 0, map[], look, tree)
  {
    forall u: seq<Bit> | |u| == 10 ensures Index(u) < 1024 { IndexBound(u); }
  }

  class HuffTable {
    const lookUp: array<int>
    const tree: array<int>
    ghost var node: Nodes

    ghost predicate Valid() {
      lookUp != tree && lookUp.Length == 1024 && tree.Length == 576
    }

    constructor ()
      ensures Valid() && fresh(lookUp) && fresh(tree)
    {
      lookUp := new int[1024];
      tree := new int[576];
      node := map[];
    }

    /** The first n symbols are in the table. */
    ghost predicate Has(lens: seq<CodeLen>, n: nat)
      requires Valid()
      reads this, lookUp, tree
    {
      Holds(lens, n, node, lookUp[..], tree[..])
    }

    /** The code of a symbol with its bits in stream order. */
    static method ReverseCode(code: nat, size: nat, ghost w: seq<Bit>) returns (rev: nat)
      requires |w| == size && MsbVal(w) == code
      ensures rev == LsbVal(w)
    {
      rev := 0;
      var cur, l := code, size;
      assert w[..size] == w && w[size..] == [];
      while l > 0
        invariant 0 <= l <= size && cur == MsbVal(w[..l]) && rev == LsbVal(w[l..])
      {
        MsbPrefix(w, l - 1);
        assert w[l - 1..] == [w[l - 1]] + w[l..];
        rev := 2 * rev + cur % 2;
        cur := cur / 2;
        l := l - 1;
      }
    }

    /** The node for the first ten bits of a long code, made if need be. */
    method EnterTree(idx: nat, treeNext: int, ghost u: seq<Bit>, ghost lens: seq<CodeLen>, ghost n: nat)
      returns (treeCur: int, next: int)
      requires Valid() && Has(lens, n) && |u| == 10 && Overflowing(lens, u) && idx == Index(u)
      requires treeNext == Pointer(|node|)
      modifies `node, lookUp
      ensures Has(lens, n) && u in node && treeCur == Pointer(node[u]) && next == Pointer(|node|)
      ensures old(node).Keys <= node.Keys
    {
      hide Inner, Trie, LookOk, TreeOk, Index, Paths;
      RootCell(lens, n, node, lookUp[..], u);
      treeCur, next := lookUp[idx], treeNext;
      if treeCur == 0 {
        AddRoot(lens, n, node, lookUp[..], tree[..], u);
        ghost var look := lookUp[..];
        lookUp[idx] := treeNext;
        assert lookUp[..] == look[idx := treeNext];
        treeCur := treeNext;
        next := treeNext - 2;
        node := node[u := |node|];
      }
    }

    /** One step down a long code's path, making the node if need be. */
    method DescendTree(cur: int, bit: Bit, treeNext: int, ghost v: seq<Bit>, ghost lens: seq<CodeLen>, ghost n: nat)
      returns (treeCur: int, next: int)
      requires Valid() && Has(lens, n) && v in node && Overflowing(lens, v + [bit]) && cur == Pointer(node[v])
      requires treeNext == Pointer(|node|)
      modifies `node, tree
      ensures Has(lens, n) && v + [bit] in node && treeCur == Pointer(node[v + [bit]]) && next == Pointer(|node|)
      ensures old(node).Keys <= node.Keys
    {
      hide Inner, Trie, LookOk, TreeOk, Index, Paths;
      ChildCell(lens, n, node, tree[..], v, bit);
      treeCur, next := cur - bit, treeNext;
      if tree[-treeCur - 1] == 0 {
        AddChild(lens, n, node, lookUp[..], tree[..], v, bit);
        ghost var cells := tree[..];
        tree[-treeCur - 1] := treeNext;
        assert tree[..] == cells[Cell(node[v], bit) := treeNext];
        treeCur := treeNext;
        next := treeNext - 2;
        node := node[v + [bit] := |node|];
      } else {
        treeCur := tree[-treeCur - 1];
      }
    }

    /** Puts a code of more than ten bits into the overflow tree. */
    method InsertLong(s: nat, code: nat, size: nat, treeNext: int, ghost lens: seq<CodeLen>) returns (next: int)
      requires Valid() && Has(lens, s) && HasCode(lens, s) && size == lens[s] > 10
      requires code == LsbVal(CodeWord(lens, s)) && treeNext == Pointer(|node|)
      modifies `node, lookUp, tree
      ensures Has(lens, s + 1) && next == Pointer(|node|)
    {
      hide Inner, Trie, LookOk, TreeOk, Index, Paths, Complete, Sound, LsbVal, Shr, Low, Overflowing;
      ghost var w := CodeWordOf(lens, s);
      PathInner(lens, s, 10);
      FirstTen(w);
      var rev := code;
      var treeCur;
      treeCur, next := EnterTree(Low(rev, 10), treeNext, w[..10], lens, s);
      rev := Shr(rev, 9);
      var j := size;
      while j > 11
        invariant 11 <= j <= size && rev == Shr(code, 9 + (size - j))
        invariant Has(lens, s) && next == Pointer(|node|)
        invariant forall d | 10 <= d <= 10 + (size - j) :: w[..d] in node
        invariant treeCur == Pointer(node[w[..10 + (size - j)]])
      {
        ghost var d := 10 + (size - j);
        PathInner(lens, s, d + 1);
        PathBit(w, d);
        rev := rev / 2;
        treeCur, next := DescendTree(treeCur, rev % 2, next, w[..d], lens, s);
        j := j - 1;
      }
      PathBit(w, size - 1);
      rev := rev / 2;
      PlaceSymbol(s, treeCur, rev % 2, w[..size - 1], lens);
    }

    method PlaceSymbol(s: nat, cur: int, bit: Bit, ghost v: seq<Bit>, ghost lens: seq<CodeLen>)
      requires Valid() && Has(lens, s) && HasCode(lens, s) && lens[s] > 10 && CodeWordOf(lens, s) == v + [bit]
      requires forall d | 10 <= d < lens[s] :: CodeWordOf(lens, s)[..d] in node
      requires v in node && cur == Pointer(node[v])
      modifies tree
      ensures Has(lens, s + 1)
    {
      hide Inner, Trie, LookOk, TreeOk, Index, Paths;
      AddLeaf(lens, s, node, lookUp[..], tree[..], v, bit);
      ghost var cells := tree[..];
      tree[-(cur - bit) - 1] := s;
      assert tree[..] == cells[Cell(node[v], bit) := s];
    }

    /** Fills all lookup cells a short code begins. */
    method FillShort(rev: nat, size: nat, k: int, ghost w: seq<Bit>)
      requires Valid() && |w| == size <= 10 && rev == LsbVal(w)
      modifies lookUp
      ensures forall u: seq<Bit> | |u| == 10 :: Index(u) < 1024 &&
                lookUp[Index(u)] == if w <= u then k else old(lookUp[Index(u)])
    {
      hide Index, LsbVal, Shl;
      var code := rev;
      ghost var j := 0;
      IndexBounds();
      ShlOfZero(size);
      FirstHit(w);
      ghost var look := lookUp[..];
      while code < 1024
        invariant code == rev + Shl(j, size)
        invariant forall u: seq<Bit> | |u| == 10 ::
                    lookUp[Index(u)] == if w <= u && Index(u) < code then k else look[Index(u)]
        decreases 1024 - code
      {
        ShlStep(j, size);
        Stride(w, j, code);
        lookUp[code] := k;
        code := code + Pow2(size);
        j := j + 1;
      }
    }

    method Clear()
      requires Valid()
      modifies `node, lookUp, tree
      ensures node == map[]
      ensures forall i | 0 <= i < 1024 :: lookUp[i] == 0
      ensures forall i | 0 <= i < 576 :: tree[i] == 0
    {
      for i := 0 to 1024
        invariant forall j | 0 <= j < i :: lookUp[j] == 0
      {
        lookUp[i] := 0;
      }
      for i := 0 to 576
        invariant forall j | 0 <= j < 1024 :: lookUp[j] == 0
        invariant forall j | 0 <= j < i :: tree[j] == 0
      {
        tree[i] := 0;
      }
      node := map[];
    }

    /** Counts the codes and finds the first code of every length; the total
        is 65536 exactly when the code is complete. */
    static method FirstCodes(lens: seq<CodeLen>, nextCode: array<nat>) returns (used: nat, total: nat)
      requires nextCode.Length == 17
      modifies nextCode
      ensures used == Below(lens, 16) && (total == 65536 <==> Complete(lens))
      ensures forall l | 0 <= l <= 16 :: nextCode[l] == First(lens, l)
    {
      hide Count, First, Below, Complete;
      var counts := CountSizes(lens);
      used, total := 0, 0;
      nextCode[0], nextCode[1] := 0, 0;
      FirstStart(lens);
      for i := 1 to 16
        invariant used == Below(lens, i) && total == First(lens, i)
        invariant forall l | 0 <= l < 16 :: counts[l] == Count(lens, l)
        invariant forall l | 0 <= l <= i :: nextCode[l] == First(lens, l)
      {
        FirstNext(lens, i);
        used := used + counts[i];
        total := 2 * (total + counts[i]);
        nextCode[i + 1] := total;
      }
      FirstTotal(lens);
    }

    static method CountSizes(lens: seq<CodeLen>) returns (counts: array<nat>)
      ensures fresh(counts) && counts.Length == 16 && forall l | 0 <= l < 16 :: counts[l] == Count(lens, l)
    {
      hide Count;
      counts := new nat[16](i => 0);
      NoneCounted(lens);
      for i := 0 to |lens|
        invariant forall l | 0 <= l < 16 :: counts[l] == Count(lens[..i], l)
      {
        forall l: nat ensures Count(lens[..i + 1], l) == Count(lens[..i], l) + if lens[i] == l then 1 else 0
        {
          CountStep(lens, i, l);
        }
        counts[lens[i]] := counts[lens[i]] + 1;
      }
      assert lens[..|lens|] == lens;
    }

    /** Puts one symbol into the table. */
    method InsertSymbol(s: nat, size: nat, code: nat, treeNext: int, ghost lens: seq<CodeLen>) returns (next: int)
      requires Valid() && Has(lens, s) && HasCode(lens, s) && size == lens[s] && code == Code(lens, s)
      requires treeNext == Pointer(|node|)
      modifies `node, lookUp, tree
      ensures Has(lens, s + 1) && next == Pointer(|node|)
    {
      hide Inner, Trie, LookOk, TreeOk, Index, Paths, LsbVal;
      ghost var w := CodeWord(lens, s);
      var rev := ReverseCode(code, size, w);
      if size <= 10 {
        ghost var look := lookUp[..];
        FillShort(rev, size, 512 * size + s, w);
        AddShort(lens, s, node, look, lookUp[..], tree[..]);
        next := treeNext;
      } else {
        next := InsertLong(s, rev, size, treeNext, lens);
      }
    }

    /** Builds the table of a code that is complete or has several symbols; it
        is refused exactly when it is not complete. */
    method Build(lens: seq<CodeLen>) returns (ok: bool)
      requires Valid() && |lens| <= 288 && (Complete(lens) || Below(lens, 16) > 1)
      modifies `node, lookUp, tree
      ensures ok <==> Complete(lens)
      ensures ok ==> Has(lens, |lens|)
    {
      hide Inner, Trie, LookOk, TreeOk, Index, Paths, Complete, Below, Holds;
      Clear();
      var nextCode := new nat[17];
      var used, total := FirstCodes(lens, nextCode);
      if 65536 != total && used > 1 {
        return false;
      }
      EmptyHolds(lens, lookUp[..], tree[..]);
      var treeNext := -1;
      for s := 0 to |lens|
        invariant Has(lens, s) && treeNext == Pointer(|node|)
        invariant forall l | 0 <= l < 16 :: nextCode[l] == First(lens, l) + if l == 0 then 0 else Count(lens[..s], l)
      {
        forall l: nat ensures Count(lens[..s + 1], l) == Count(lens[..s], l) + if lens[s] == l then 1 else 0
        {
          CountStep(lens, s, l);
        }
        var size := lens[s];
        if size == 0 {
          AddNone(lens, s, node, lookUp[..], tree[..]);
        } else {
          var code := nextCode[size];
          nextCode[size] := code + 1;
          treeNext := InsertSymbol(s, size, code, treeNext, lens);
        }
      }
      ok := true;
    }

    /** Looks up the code at the low end of a bit buffer: ten bits at once,
        then bit by bit through the overflow tree. */
    method LookUp(bitBuf: nat, ghost lens: seq<CodeLen>) returns (sym: nat, codeLen: nat)
      requires Valid() && Has(lens, |lens|)
      ensures Names(lens, bitBuf, sym) && codeLen == lens[sym]
    {
      hide Inner, Trie, Index, Paths, LookOk, TreeOk, Names, Low, Shr, CodeWordOf, Complete, Holds;
      IsCompleteCode(lens, node, lookUp[..], tree[..]);
      ghost var s := NamesExists(lens, bitBuf);
      LookFound(lens, node, lookUp[..], tree[..], bitBuf, s);
      var temp := lookUp[Low(bitBuf, 10)];
      if temp >= 0 {
        CellParts(lens[s], s, temp);
        return temp % 512, temp / 512;
      }
      sym, codeLen := Climb(bitBuf, temp, lens, s);
    }

    /** Follows the tree from where the lookup leads to, for a code longer than
        ten bits. */
    method Climb(bitBuf: nat, start: int, ghost lens: seq<CodeLen>, ghost s: nat) returns (sym: nat, codeLen: nat)
      requires Valid() && Has(lens, |lens|) && Names(lens, bitBuf, s) && HasCode(lens, s) && lens[s] > 10
      requires |CodeWordOf(lens, s)| == lens[s]
      requires CodeWordOf(lens, s)[..10] in node && start == Pointer(node[CodeWordOf(lens, s)[..10]])
      ensures sym == s && codeLen == lens[s]
    {
      hide Inner, Trie, Index, Paths, LookOk, TreeOk, Names, Low, Shr, CodeWordOf, Complete, Holds;
      ghost var w := CodeWordOf(lens, s);
      var temp := start;
      codeLen := 10;
      while temp < 0
        invariant 10 <= codeLen <= lens[s]
        invariant codeLen < lens[s] ==> w[..codeLen] in node && temp == Pointer(node[w[..codeLen]])
        invariant codeLen == lens[s] ==> temp == s
        decreases lens[s] - codeLen
      {
        TreeFound(lens, node, lookUp[..], tree[..], bitBuf, s, codeLen);
        temp := tree[-temp - 1 + Shr(bitBuf, codeLen) % 2];
        codeLen := codeLen + 1;
      }
      sym := temp;
    }

    /** Whether the code at the low end of the buffer is all there. */
    method Peek(bitBuf: nat, numBits: nat, ghost lens: seq<CodeLen>, ghost s: nat) returns (found: bool)
      requires Valid() && Has(lens, |lens|) && Names(lens, bitBuf, s)
      ensures found <==> lens[s] <= numBits
    {
      hide Inner, Trie, Index, Paths, LookOk, TreeOk, Names, Low, Shr, CodeWordOf, Complete;
      LookFound(lens, node, lookUp[..], tree[..], bitBuf, s);
      ghost var w := CodeWordOf(lens, s);
      var temp := lookUp[Low(bitBuf, 10)];
      if temp >= 0 {
        var codeLen := temp / 512;
        return codeLen != 0 && numBits >= codeLen;
      }
      if numBits <= 10 {
        return false;
      }
      var codeLen := 10;
      var more := true;
      while more
        invariant 10 <= codeLen <= lens[s] && codeLen <= numBits
        invariant codeLen < lens[s] ==> w[..codeLen] in node && temp == Pointer(node[w[..codeLen]])
        invariant codeLen == lens[s] ==> temp == s
        invariant more <==> temp < 0 && numBits >= codeLen + 1
        decreases lens[s] - codeLen
      {
        TreeFound(lens, node, lookUp[..], tree[..], bitBuf, s, codeLen);
        temp := tree[-temp - 1 + Shr(bitBuf, codeLen) % 2];
        codeLen := codeLen + 1;
        more := temp < 0 && numBits >= codeLen + 1;
      }
      found := temp >= 0;
    }
  }

  ghost function CodeWordOf(lens: seq<CodeLen>, s: nat): (w: seq<Bit>)
    requires HasCode(lens, s)
  {
    if Sound(lens) then CodeWord(lens, s) else []
  }

  /** The proper prefixes of a long code from ten bits on are overflow nodes. */
  lemma PathInner(lens: seq<CodeLen>, s: nat, d: nat)
    requires Complete(lens) && HasCode(lens, s) && 10 <= d < lens[s]
    ensures CodeWordOf(lens, s) == CodeWord(lens, s) && Overflowing(lens, CodeWord(lens, s)[..d])
  {
    CodeBound(lens, s);
    PrefixInner(lens, CodeWord(lens, s), d);
  }

  lemma FirstTen(w: seq<Bit>)
    requires |w| >= 10
    ensures Low(LsbVal(w), 10) == Index(w[..10])
  {
    LsbSplit(w, 10);
  }

  lemma PathBit(w: seq<Bit>, d: nat)
    requires 10 <= d < |w|
    ensures Shr(LsbVal(w), d) == Shr(LsbVal(w), d - 1) / 2 && Shr(LsbVal(w), d) % 2 == w[d]
    ensures w[..d] + [w[d]] == w[..d + 1]
  {
    ShrStep(LsbVal(w), d - 1);
    LsbBit(w, d);
  }

  /** The number's low bits are the code of s. */
  ghost predicate Names(lens: seq<CodeLen>, x: nat, s: nat) {
    Sound(lens) && HasCode(lens, s) && LsbWord(x, lens[s]) == CodeWord(lens, s)
  }

  lemma NamesExists(lens: seq<CodeLen>, x: nat) returns (s: nat)
    requires Complete(lens)
    ensures Names(lens, x, s) && HasCode(lens, s) && CodeWordOf(lens, s) == CodeWord(lens, s)
  {
    s := CompleteCovers(lens, LsbWord(x, 15));
    LsbWordPrefix(x, lens[s], 15);
  }

  lemma NamesUnique(lens: seq<CodeLen>, x: nat, s: nat, t: nat)
    requires Names(lens, x, s) && Names(lens, x, t)
    ensures s == t
  {
    LsbWordPrefix(x, lens[s], 15);
    LsbWordPrefix(x, lens[t], 15);
    PrefixFree(lens, s, t, LsbWord(x, 15));
  }

  /** What the lookup cell of a finished table says about the code at the low
      end of a number. */
  lemma LookFound(lens: seq<CodeLen>, node: Nodes, look: seq<int>, tree: seq<int>, x: nat, s: nat)
    requires Holds(lens, |lens|, node, look, tree) && Names(lens, x, s)
    ensures HasCode(lens, s) && s < 288 && Low(x, 10) < 1024 && |CodeWordOf(lens, s)| == lens[s]
    ensures var cell, w := look[Low(x, 10)], CodeWordOf(lens, s);
            if lens[s] <= 10 then cell == 512 * lens[s] + s
            else w[..10] in node && cell == Pointer(node[w[..10]])
  {
    hide Inner, Trie, TreeOk;
    var u := LsbWord(x, 10);
    var w := CodeWord(lens, s);
    LsbWordValue(x, 10);
    assert Index(u) == Low(x, 10);
    IndexBound(u);
    assert LookAt(lens, |lens|, node, u, look[Index(u)]);
    if lens[s] <= 10 {
      LsbWordPrefix(x, lens[s], 10);
      assert Short(lens, |lens|, s, u);
    } else {
      LsbWordPrefix(x, 10, lens[s]);
      assert w[..10] == u;
    }
  }

  /** What the tree cell of a finished table says after d bits of a long code. */
  lemma TreeFound(lens: seq<CodeLen>, node: Nodes, look: seq<int>, tree: seq<int>, x: nat, s: nat, d: nat)
    requires Holds(lens, |lens|, node, look, tree) && Names(lens, x, s)
    requires HasCode(lens, s) && 10 <= d < lens[s]
    ensures var w := CodeWordOf(lens, s);
            && |w| == lens[s] && w[..d] in node
            && var i := 2 * node[w[..d]] + Shr(x, d) % 2;
               && i < 576
               && (d + 1 < lens[s] ==> w[..d + 1] in node && tree[i] == Pointer(node[w[..d + 1]]))
               && (d + 1 == lens[s] ==> tree[i] == s)
  {
    hide Inner, Trie, LookOk, LsbWord, Shr, Complete, TreeAt;
    var w := CodeWord(lens, s);
    LsbWordBits(x, lens[s], d);
    assert w[..d] in node;
    assert w[..d] + [w[d]] == w[..d + 1];
    assert NodeOk(lens, |lens|, node, tree, w[..d], w[d]);
    CellOnPath(lens, node, s, d + 1, tree[Cell(node[w[..d]], w[d])]);
  }

  lemma CellOnPath(lens: seq<CodeLen>, node: Nodes, s: nat, d: nat, cell: int)
    requires Sound(lens) && HasCode(lens, s) && 10 < d <= lens[s] && Paths(lens, |lens|, node)
    requires TreeAt(lens, |lens|, node, CodeWord(lens, s)[..d], cell)
    ensures d < lens[s] ==> CodeWord(lens, s)[..d] in node && cell == Pointer(node[CodeWord(lens, s)[..d]])
    ensures d == lens[s] ==> cell == s
  {
    hide Sound;
    var w := CodeWord(lens, s);
    if d == lens[s] {
      assert w[..d] == w;
      assert Leaf(lens, |lens|, s, w);
    }
  }

  lemma ShlOfZero(n: nat)
    ensures Shl(0, n) == 0
  {
    ShrZero(n);
  }

  lemma FirstHit(w: seq<Bit>)
    requires |w| <= 10
    ensures forall u: seq<Bit> | |u| == 10 && w <= u :: Index(u) >= LsbVal(w)
  {
    forall u: seq<Bit> | |u| == 10 && w <= u ensures Index(u) >= LsbVal(w)
    {
      assert u == w + u[|w|..];
      LsbConcat(w, u[|w|..]);
    }
  }

  lemma IndexBounds()
    ensures forall u: seq<Bit> | |u| == 10 :: Index(u) < 1024
  {
    forall u: seq<Bit> | |u| == 10 ensures Index(u) < 1024 { IndexBound(u); }
  }

  lemma Stride(w: seq<Bit>, j: nat, code: nat)
    requires |w| <= 10 && code == LsbVal(w) + Shl(j, |w|)
    ensures forall u: seq<Bit> | |u| == 10 ::
              if Index(u) == code then w <= u
              else w <= u ==> Index(u) < code || Index(u) >= code + Pow2(|w|)
  {
    hide Index, LsbVal, Shl;
    ShlStep(j, |w|);
    forall u: seq<Bit> | |u| == 10
      ensures if Index(u) == code then w <= u
              else w <= u ==> Index(u) < code || Index(u) >= code + Pow2(|w|)
    {
      if Index(u) == code { StrideHits(w, u, j); }
      if w <= u { StrideSkips(w, u, j); }
    }
  }

  lemma IsCompleteCode(lens: seq<CodeLen>, node: Nodes, look: seq<int>, tree: seq<int>)
    requires Holds(lens, |lens|, node, look, tree)
    ensures Complete(lens)
  {
  }

  lemma CellParts(l: nat, s: nat, cell: int)
    requires cell == 512 * l + s && s < 512
    ensures cell % 512 == s && cell / 512 == l
  {
  }

  lemma FirstStart(lens: seq<CodeLen>)
    ensures First(lens, 0) == 0 && First(lens, 1) == 0 && Below(lens, 1) == 0
  {
  }

  lemma FirstNext(lens: seq<CodeLen>, i: nat)
    requires i >= 1
    ensures First(lens, i + 1) == 2 * (First(lens, i) + Count(lens, i)) && Below(lens, i + 1) == Below(lens, i) + Count(lens, i)
  {
  }

  lemma FirstTotal(lens: seq<CodeLen>)
    ensures First(lens, 16) == 65536 <==> Complete(lens)
  {
    hide Count;
    assert Pow2(15) == 32768;
    FirstNext(lens, 15);
  }
}
