/** The kernel heap. Memory is carved into chunks of sixteen sizes; every
    allocation keeps its size and the way back to its chunk in the bytes in
    front of the pointer it hands out. */
module Heap {
  import opened HeapMemory

  predicate Apart(a: nat, n: nat, b: nat, m: nat) {
    a + n <= b || b + m <= a
  }

  /** Every block carved so far, by address, and every live large allocation. */
  type Blocks = map<nat, nat>

  ghost predicate AllApart(blocks: Blocks) {
    forall a, b | a in blocks && b in blocks && a != b :: Apart(a, blocks[a], b, blocks[b])
  }

  ghost predicate BlocksOk(blocks: Blocks) {
    AllApart(blocks) && forall b | b in blocks :: BlockOk(b, blocks[b])
  }

  /** A range of memory that no block touches. */
  ghost predicate Unclaimed(blocks: Blocks, a: nat, n: nat) {
    forall b | b in blocks :: Apart(a, n, b, blocks[b])
  }

  lemma Claim(blocks: Blocks, a: nat, n: nat)
    requires BlocksOk(blocks) && Unclaimed(blocks, a, n) && BlockOk(a, n)
    ensures a !in blocks && BlocksOk(blocks[a := n])
  {
  }

  // ---- The lists of free chunks ----

  type Lists = seq<seq<nat>>

  /** Where a block is in the lists of free chunks, if it is. */
  ghost predicate IsFree(free: Lists, b: nat) {
    exists i, k :: 0 <= i < |free| && 0 <= k < |free[i]| && free[i][k] == b
  }

  ghost predicate ListOk(blocks: Blocks, list: seq<nat>, size: nat) {
    && (forall k | 0 <= k < |list| :: list[k] in blocks && blocks[list[k]] == size)
    && (forall k, m | 0 <= k < m < |list| :: list[k] != list[m])
  }

  ghost predicate FreeOk(blocks: Blocks, free: Lists) {
    |free| == 16 && forall i | 0 <= i < 16 :: ListOk(blocks, free[i], Sizes()[i])
  }

  // ---- Live allocations ----

  type Allocations = map<nat, Live>

  /** The words and the byte in front of an allocation are as it left them. */
  ghost predicate Header(mem: Memory, p: nat, l: Live)
    requires IsAlign(l.align) && p == Ptr(l)
  {
    && LoadBytes(mem, l.base + 8, 8) == Total(l)
    && ByteAt(mem, p - 1) == p - (l.base + 16)
  }

  ghost predicate Holds(blocks: Blocks, mem: Memory, p: nat, l: Live) {
    && LiveOk(l) && p == Ptr(l)
    && l.base in blocks && blocks[l.base] == BlockSize(Total(l))
    && Header(mem, p, l)
  }

  ghost predicate LiveAll(blocks: Blocks, mem: Memory, live: Allocations) {
    && (forall p | p in live :: Holds(blocks, mem, p, live[p]))
    && (forall p, q | p in live && q in live && p != q :: live[p].base != live[q].base)
  }

  ghost predicate IsLive(live: Allocations, b: nat) {
    exists p | p in live :: live[p].base == b
  }

  /** Every block is free or in use, and none is both. */
  ghost predicate Partition(blocks: Blocks, free: Lists, live: Allocations) {
    forall b | b in blocks :: IsFree(free, b) <==> !IsLive(live, b)
  }

  predicate UsesBucket(l: Live, i: nat) {
    IsAlign(l.align) && Total(l) < PAGE_SIZE && Fitting(Total(l)) == i
  }

  /** The allocations that have their chunk from bucket i. */
  ghost function FromBucket(live: Allocations, i: nat): set<nat> {
    set p | p in live && UsesBucket(live[p], i)
  }

  // ---- One allocation's writes leave the others alone ----

  lemma HeaderKept(blocks: Blocks, mem: Memory, mem': Memory, p: nat, l: Live, a: nat, n: nat)
    requires Holds(blocks, mem, p, l) && SameOutside(mem, mem', a, n) && Apart(a, n, l.base, BlockSize(Total(l)))
    ensures Holds(blocks, mem', p, l)
  {
    hide BlockSize, Ptr, LoadBytes, BlockOk, TotalOf;
    PtrFits(l);
    LoadSame(mem, mem', l.base + 8, 8);
  }

  /** Writing within a block disturbs no allocation that has another block. */
  lemma OthersHold(blocks: Blocks, mem: Memory, mem': Memory, live: Allocations, b: nat)
    requires BlocksOk(blocks) && LiveAll(blocks, mem, live) && b in blocks
    requires SameOutside(mem, mem', b, blocks[b])
    ensures forall p | p in live && live[p].base != b :: Holds(blocks, mem', p, live[p])
  {
    forall p | p in live && live[p].base != b ensures Holds(blocks, mem', p, live[p]) {
      assert Apart(b, blocks[b], live[p].base, blocks[live[p].base]);
      HeaderKept(blocks, mem, mem', p, live[p], b, blocks[b]);
    }
  }

  /** An allocation lies within its block, behind room for the two words and
      the offset. */
  lemma Inside(blocks: Blocks, mem: Memory, p: nat, l: Live)
    requires Holds(blocks, mem, p, l)
    ensures l.base in blocks && l.base + 17 <= p && p + l.req <= l.base + blocks[l.base] && p % l.align == 0
  {
    PtrFits(l);
  }

  /** The bytes of two live allocations do not overlap, and neither reaches
      into the block of the other. */
  lemma LiveApart(blocks: Blocks, mem: Memory, live: Allocations, p: nat, q: nat)
    requires BlocksOk(blocks) && LiveAll(blocks, mem, live) && p in live && q in live && p != q
    ensures live[q].base in blocks && Apart(p, live[p].req, live[q].base, blocks[live[q].base])
    ensures Apart(p, live[p].req, q, live[q].req)
  {
    hide Holds, BlockOk;
    Inside(blocks, mem, p, live[p]);
    Inside(blocks, mem, q, live[q]);
    assert Apart(live[p].base, blocks[live[p].base], live[q].base, blocks[live[q].base]);
  }

  // ---- Moving a block between the lists and the allocations ----

  lemma PushFree(blocks: Blocks, free: Lists, i: nat, b: nat)
    requires FreeOk(blocks, free) && i < 16 && b in blocks && blocks[b] == Sizes()[i] && !IsFree(free, b)
    ensures var free' := free[i := [b] + free[i]];
            FreeOk(blocks, free') && forall x :: IsFree(free', x) <==> IsFree(free, x) || x == b
  {
    hide Sizes;
    var list := [b] + free[i];
    var free' := free[i := list];
    assert forall k | 1 <= k < |list| :: list[k] == free[i][k - 1];
    assert forall k | 0 <= k < |free[i]| :: free[i][k] != b;
    forall x ensures IsFree(free', x) <==> IsFree(free, x) || x == b {
      if x == b {
        assert free'[i][0] == x;
      } else if IsFree(free, x) {
        var j, k :| 0 <= j < |free| && 0 <= k < |free[j]| && free[j][k] == x;
        assert j == i ==> free'[i][k + 1] == x;
        assert j != i ==> free'[j][k] == x;
      }
    }
  }

  lemma PopFree(blocks: Blocks, free: Lists, i: nat)
    requires FreeOk(blocks, free) && i < 16 && free[i] != []
    ensures var b := free[i][0]; var free' := free[i := free[i][1..]];
            && b in blocks && blocks[b] == Sizes()[i] && IsFree(free, b)
            && FreeOk(blocks, free') && forall x :: IsFree(free', x) <==> IsFree(free, x) && x != b
  {
    var b, free' := free[i][0], free[i := free[i][1..]];
    assert forall k | 0 <= k < |free'[i]| :: free'[i][k] == free[i][k + 1];
    forall j, k | 0 <= j < 16 && 0 <= k < |free'[j]| ensures free'[j][k] != b {
      if j != i {
        assert blocks[free[j][k]] == Sizes()[j];
      }
    }
    hide Sizes;
    forall x ensures IsFree(free', x) <==> IsFree(free, x) && x != b {
      if IsFree(free, x) && x != b {
        var j, k :| 0 <= j < |free| && 0 <= k < |free[j]| && free[j][k] == x;
        assert j == i ==> k > 0 && free'[i][k - 1] == x;
        assert j != i ==> free'[j][k] == x;
      }
    }
  }

  /** A block that is in no use becomes an allocation, and memory has changed
      only within that block. */
  lemma BecomesLive(blocks: Blocks, mem: Memory, mem': Memory, live: Allocations, p: nat, l: Live)
    requires BlocksOk(blocks) && LiveAll(blocks, mem, live) && !IsLive(live, l.base)
    requires Holds(blocks, mem', p, l) && SameOutside(mem, mem', l.base, blocks[l.base])
    ensures p !in live && LiveAll(blocks, mem', live[p := l])
    ensures forall b :: IsLive(live[p := l], b) <==> IsLive(live, b) || b == l.base
  {
    hide Holds, BlockOk, SameOutside;
    Inside(blocks, mem', p, l);
    OthersHold(blocks, mem, mem', live, l.base);
    if p in live {
      Inside(blocks, mem, p, live[p]);
      assert false;
    }
    var live' := live[p := l];
    forall b ensures IsLive(live', b) <==> IsLive(live, b) || b == l.base {
      if b == l.base {
        assert live'[p].base == b;
      } else if IsLive(live, b) {
        var q :| q in live && live[q].base == b;
        assert live'[q].base == b;
      }
    }
  }

  /** An allocation ends, and memory has changed only within its block. */
  lemma NoLongerLive(blocks: Blocks, mem: Memory, mem': Memory, live: Allocations, p: nat)
    requires BlocksOk(blocks) && LiveAll(blocks, mem, live) && p in live
    requires live[p].base in blocks && SameOutside(mem, mem', live[p].base, blocks[live[p].base])
    ensures LiveAll(blocks, mem', live - {p})
    ensures forall b :: IsLive(live - {p}, b) <==> IsLive(live, b) && b != live[p].base
  {
    hide Holds, BlockOk, SameOutside;
    OthersHold(blocks, mem, mem', live, live[p].base);
    var live' := live - {p};
    forall b ensures IsLive(live', b) <==> IsLive(live, b) && b != live[p].base {
      if IsLive(live, b) && b != live[p].base {
        var q :| q in live && live[q].base == b;
        assert q in live' && live'[q].base == b;
      }
    }
  }

  lemma BucketGains(live: Allocations, p: nat, l: Live, i: nat)
    requires p !in live
    ensures |FromBucket(live[p := l], i)| == |FromBucket(live, i)| + if UsesBucket(l, i) then 1 else 0
  {
    hide UsesBucket;
    assert FromBucket(live[p := l], i) == FromBucket(live, i) + if UsesBucket(l, i) then {p} else {};
  }

  lemma BucketLoses(live: Allocations, p: nat, i: nat)
    requires p in live
    ensures |FromBucket(live, i)| == |FromBucket(live - {p}, i)| + if UsesBucket(live[p], i) then 1 else 0
  {
    hide UsesBucket;
    assert FromBucket(live, i) == FromBucket(live - {p}, i) + if UsesBucket(live[p], i) then {p} else {};
  }

  // ---- Laying out an allocation ----

  /** What allocate writes into a block. */
  function Written(mem: Memory, base: nat, caller: nat, req: nat, align: nat): Memory
    requires IsAlign(align)
  {
    var m1 := StoreBytes(mem, base, caller, 8);
    var m2 := StoreBytes(m1, base + 8, TotalOf(req, align), 8);
    var p := AlignUp(base + 17, align);
    var m3 := m2[p - 1 := (p - (base + 16)) % 256];
    Fill(m3, p, 0x55, req)
  }

  lemma WrittenHolds(blocks: Blocks, mem: Memory, caller: nat, l: Live)
    requires LiveOk(l) && l.base in blocks && blocks[l.base] == BlockSize(Total(l))
    ensures var mem' := Written(mem, l.base, caller, l.req, l.align);
            && Holds(blocks, mem', Ptr(l), l)
            && SameOutside(mem, mem', l.base, blocks[l.base])
            && (caller < 0x1_0000_0000_0000_0000 ==> LoadBytes(mem', l.base, 8) == caller)
            && forall x | Ptr(l) <= x < Ptr(l) + l.req :: ByteAt(mem', x) == 0x55
  {
    hide BlockSize, StoreBytes, LoadBytes, Fill, AlignUp, TotalOf, BlockOk;
    PtrFits(l);
    var base, p := l.base, Ptr(l);
    var m1 := StoreBytes(mem, base, caller, 8);
    StoreOutside(mem, base, caller, 8);
    var m2 := StoreBytes(m1, base + 8, Total(l), 8);
    StoreOutside(m1, base + 8, Total(l), 8);
    WordFits(Total(l));
    LoadStored(m1, base + 8, Total(l), 8);
    var m3 := m2[p - 1 := (p - (base + 16)) % 256];
    FillBytes(m3, p, 0x55, l.req);
    var m4 := Fill(m3, p, 0x55, l.req);
    LoadSame(m2, m4, base + 8, 8);
    if caller < 0x1_0000_0000_0000_0000 {
      WordFits(caller);
      LoadStored(mem, base, caller, 8);
      LoadSame(m1, m4, base, 8);
    }
    assert ByteAt(m4, p - 1) == ByteAt(m3, p - 1);
  }
}
