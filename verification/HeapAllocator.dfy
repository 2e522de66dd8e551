/** The operations of the kernel heap, one at a time. Pages come from outside,
    as the address of memory that nothing uses yet. */
module HeapAllocator {
  import opened HeapMemory
  import opened Heap

  const EXPANSION: nat := 2 * PAGE_SIZE
  const CHUNKS_PER_PAGE: nat := 256

  // ---- How many chunks of each size ----

  /** Memory that a plan for the first n buckets takes. */
  function Need(counter: seq<nat>, n: nat): nat
    requires n <= 16 && |counter| == 16
  {
    if n == 0 then 0 else Need(counter, n - 1) + counter[n - 1] * Sizes()[n - 1]
  }

  function Chunks(counter: seq<nat>, n: nat): nat
    requires n <= 16 && |counter| == 16
  {
    if n == 0 then 0 else Chunks(counter, n - 1) + counter[n - 1]
  }

  /** The lengths of the first n lists together. */
  function Lengths(free: Lists, n: nat): nat
    requires n <= |free|
  {
    if n == 0 then 0 else Lengths(free, n - 1) + |free[n - 1]|
  }

  lemma {:induction false} LengthsGrow(free: Lists, free': Lists, counter: seq<nat>, n: nat)
    requires n <= |free| == |free'| == |counter| == 16
    requires forall j | 0 <= j < 16 :: |free'[j]| == |free[j]| + counter[j]
    ensures Lengths(free', n) == Lengths(free, n) + Chunks(counter, n)
  {
    if n > 0 {
      LengthsGrow(free, free', counter, n - 1);
    }
  }

  lemma {:induction false} OneMore(counter: seq<nat>, i: nat, c: nat, n: nat)
    requires n <= 16 && |counter| == 16 && i < 16
    ensures Need(counter[i := counter[i] + c], n) == Need(counter, n) + if i < n then c * Sizes()[i] else 0
    ensures Chunks(counter[i := counter[i] + c], n) == Chunks(counter, n) + if i < n then c else 0
    decreases n
  {
    hide Sizes;
    if n > 0 {
      OneMore(counter, i, c, n - 1);
      if i == n - 1 {
        assert (counter[i] + c) * Sizes()[i] == counter[i] * Sizes()[i] + c * Sizes()[i];
      }
    }
  }

  lemma {:induction false} NoneYet(n: nat)
    requires n <= 16
    ensures var z := seq(16, i => 0); Need(z, n) == 0 && Chunks(z, n) == 0
  {
    if n > 0 {
      NoneYet(n - 1);
    }
  }

  /** How many more chunks the first n buckets get, one each from the largest
      down, as long as what is left allows. */
  function Rest(left: nat, n: nat): (r: nat)
    requires n <= 16
    ensures r <= n
  {
    if n == 0 then 0
    else if Sizes()[n - 1] <= left then 1 + Rest(left - Sizes()[n - 1], n - 1)
    else Rest(left, n - 1)
  }

  /** What is left after that. */
  function Left(left: nat, n: nat): nat
    requires n <= 16
  {
    if n == 0 then left
    else if Sizes()[n - 1] <= left then Left(left - Sizes()[n - 1], n - 1)
    else Left(left, n - 1)
  }

  /** Of bucket j there are as many chunks as the expansion is for, and one more
      unless what is left over is too small for it. */
  ghost predicate Spared(idx: nat, count: nat, j: nat, left: nat)
    requires idx < 16 && j < 16 && Sizes()[idx] > 0
  {
    var due := if j == idx then EXPANSION / Sizes()[idx] else 0;
    count == due + 1 || (count == due && left < Sizes()[j])
  }

  /** How many chunks one expansion makes: as many of the size asked for as
      fit, then one each of 48, 32 and 24 bytes if they still fit. */
  function Expansion(i: nat): nat
    requires i < 16
  {
    EXPANSION / Sizes()[i] + Rest(EXPANSION % Sizes()[i], 3)
  }

  /** One page of spare chunk records is enough for any bucket that can be asked
      for. It would be too little for the 24-byte bucket alone. */
  lemma SpareEnough(i: nat, spare: nat)
    requires i < 16
    ensures Expansion(i) <= spare + CHUNKS_PER_PAGE <==> i > 0 || spare >= 85
    ensures i >= 2 ==> Expansion(i) <= 171
  {
    if i == 0 {
      assert Rest(8, 1) == 0;
      assert Expansion(0) == 341;
    } else if i == 1 {
      assert Expansion(1) == 256;
    } else if i == 2 {
      assert Expansion(2) == 171;
    } else {
      Bigger(i);
    }
  }

  lemma Bigger(i: nat)
    requires 3 <= i < 16
    ensures Expansion(i) <= 131
  {
    var s := Sizes()[i];
    assert s >= 64;
    assert EXPANSION >= EXPANSION / s * s;
    assert EXPANSION / s <= 128;
  }

  /** A list of chunk records is given by the memory field of each: where the
      chunk is in a list of free chunks, and zero in those of used and spare
      ones. */
  class Allocator {
    ghost var blocks: Blocks
    ghost var live: Allocations
    var mem: Memory
    var free: Lists
    var numFree: seq<nat>
    var used: Lists
    var numUsed: seq<nat>
    var spare: seq<nat>
    var numSpare: nat
    var allocatedBytes: nat

    ghost predicate Valid()
      reads this
    {
      && BlocksOk(blocks) && FreeOk(blocks, free) && LiveAll(blocks, mem, live) && Partition(blocks, free, live)
      && Counted()
    }

    /** The counters are what they count. */
    ghost predicate Counted()
      reads this
    {
      && |free| == 16 && |numFree| == 16 && |used| == 16 && |numUsed| == 16 && numSpare == |spare|
      && (forall i | 0 <= i < 16 :: numFree[i] == |free[i]|)
      && (forall i | 0 <= i < 16 :: numUsed[i] == |used[i]| == |FromBucket(live, i)|)
      && allocatedBytes == Bytes(live)
    }

    /** The heap as it starts: sixteen pages cut up without remainder. */
    constructor (pages: nat)
      requires pages > 0 && pages % PAGE_SIZE == 0
      ensures Valid() && live == map[] && numSpare == 0
      ensures forall i | 0 <= i < 16 :: |free[i]| >= 1
    {
      blocks, live, mem, spare, numSpare, allocatedBytes := map[], map[], map[], [], 0, 0;
      free, used := seq(16, i => []), seq(16, i => []);
      numFree, numUsed := seq(16, i => 0), seq(16, i => 0);
      new;
      hide Sizes, Need, Chunks;
      var counter, slack := PlanInitial();
      CarveAll(counter, pages, pages + 16 * PAGE_SIZE);
    }

    /** A page of chunks for each bucket. The odd sizes leave 2720 bytes over,
        which make one more chunk each of 2048, 512, 128 and 32 bytes. */
    static method PlanInitial() returns (counter: seq<nat>, slack: nat)
      ensures |counter| == 16 && (forall i | 0 <= i < 16 :: counter[i] >= 1)
      ensures Need(counter, 16) == 16 * PAGE_SIZE && slack == 0
    {
      hide Sizes, Need, Chunks, Left, SlackOf;
      slack, counter := 0, seq(16, i => 0);
      NoneYet(16);
      SlackStep(0);
      for i := 0 to 16
        invariant |counter| == 16 && (forall j | 0 <= j < i :: counter[j] >= 1) && (forall j | i <= j < 16 :: counter[j] == 0)
        invariant slack == SlackOf(i) && Need(counter, 16) + slack == i * PAGE_SIZE
      {
        PageOfChunks(i);
        SlackStep(i + 1);
        var n := PAGE_SIZE / Sizes()[i];
        OneMore(counter, i, n, 16);
        slack := slack + (PAGE_SIZE - n * Sizes()[i]);
        counter := counter[i := n];
      }
      SlackUsedUp();
      for i := 16 downto 0
        invariant |counter| == 16 && (forall j | 0 <= j < 16 :: counter[j] >= 1)
        invariant Left(slack, i) == 0 && Need(counter, 16) + slack == 16 * PAGE_SIZE
      {
        LeftStep(slack, i + 1);
        OneMore(counter, i, 1, 16);
        if Sizes()[i] <= slack {
          slack := slack - Sizes()[i];
          counter := counter[i := counter[i] + 1];
        }
      }
      LeftStep(slack, 0);
    }

    /** The index of the smallest bucket that fits; 16 if there is none. */
    method GetFittingBucket(size: nat) returns (i: nat)
      ensures i == Fitting(size)
    {
      i := 0;
      while i < 16
        invariant i <= 16 && forall j | 0 <= j < i :: Sizes()[j] < size
        invariant FittingFrom(size, 0) == FittingFrom(size, i)
      {
        if Sizes()[i] >= size {
          return;
        }
        i := i + 1;
      }
    }

    /** The chunks an expansion of bucket idx will make, and the bytes that
        remain unused. */
    method PlanExpansion(idx: nat) returns (counter: seq<nat>, numChunks: nat, numBytes: nat)
      requires idx < 16
      ensures |counter| == 16 && counter[idx] > 0
      ensures Need(counter, 16) + numBytes == EXPANSION
      ensures Chunks(counter, 16) == numChunks == Expansion(idx)
      ensures forall j | 3 <= j < 16 :: counter[j] == if j == idx then EXPANSION / Sizes()[idx] else 0
      ensures forall j | 0 <= j < 3 :: Spared(idx, counter[j], j, numBytes)
    {
      hide Sizes, Need, Chunks, Rest, Expansion;
      LargeSizes(idx);
      FirstPlan(idx);
      numBytes := EXPANSION;
      numChunks := numBytes / Sizes()[idx];
      counter := seq(16, i => 0);
      numBytes := numBytes - numChunks * Sizes()[idx];
      counter := counter[idx := numChunks];
      for i := 3 downto 0
        invariant |counter| == 16 && counter[idx] > 0
        invariant forall j | 0 <= j < 16 && (j < i || j >= 3) ::
                    counter[j] == if j == idx then EXPANSION / Sizes()[idx] else 0
        invariant forall j | i <= j < 3 :: Spared(idx, counter[j], j, numBytes)
        invariant Need(counter, 16) + numBytes == EXPANSION && Chunks(counter, 16) == numChunks
        invariant numChunks + Rest(numBytes, i) == Expansion(idx)
      {
        RestStep(numBytes, i + 1);
        OneMore(counter, i, 1, 16);
        if Sizes()[i] <= numBytes {
          numBytes := numBytes - Sizes()[i];
          numChunks := numChunks + 1;
          counter := counter[i := counter[i] + 1];
        }
      }
      RestStep(numBytes, 0);
    }

    /** Makes the chunks of a plan, the largest first. */
    method CarveAll(counter: seq<nat>, start: nat, ghost end: nat)
      requires Valid() && |counter| == 16 && start > 0 && start % 128 == 0
      requires start + Need(counter, 16) == end && Unclaimed(blocks, start, end - start)
      modifies `blocks, `free, `numFree
      ensures Valid()
      ensures forall j | 0 <= j < 16 :: |free[j]| == |old(free)[j]| + counter[j]
    {
      hide BlocksOk, FreeOk, LiveAll, Partition, Unclaimed, Sizes, Need, Chunks;
      var at := start;
      for i := 16 downto 0
        invariant Valid() && at > 0 && (i >= 8 ==> at % 128 == 0)
        invariant at + Need(counter, i) == end && Unclaimed(blocks, at, end - at)
        invariant forall j | i <= j < 16 :: |free[j]| == |old(free)[j]| + counter[j]
        invariant forall j | 0 <= j < i :: free[j] == old(free)[j]
      {
        PlanStep(counter, i + 1);
        at := Carve(i, counter[i], at, end);
      }
    }

    /** Two more pages for bucket idx. The kernel stops if it still has too few
        spare chunk records after making a page of them. */
    method ExpandBucket(idx: nat, pages: nat)
      requires Valid() && idx < 16 && Expansion(idx) <= numSpare + CHUNKS_PER_PAGE
      requires pages > 0 && pages % PAGE_SIZE == 0 && Unclaimed(blocks, pages, EXPANSION)
      modifies `blocks, `free, `numFree, `spare, `numSpare
      ensures Valid() && |free[idx]| >= |old(free)[idx]| + EXPANSION / Sizes()[idx] && free[idx] != []
      ensures forall j | 3 <= j < 16 && j != idx :: |free[j]| == |old(free)[j]|
      ensures Lengths(free, 16) + |spare| == Lengths(old(free), 16) + |old(spare)|
              + if |old(spare)| < Expansion(idx) then CHUNKS_PER_PAGE else 0
    {
      hide BlocksOk, FreeOk, LiveAll, Partition, Unclaimed, Sizes, Need, Chunks, Expansion, FromBucket;
      PageLined(pages);
      LargeSizes(idx);
      var counter, numChunks, numBytes := PlanExpansion(idx);
      if numSpare < numChunks {
        MakeSpareChunks();
      }
      assert numSpare >= numChunks;
      spare := spare[numChunks..];
      numSpare := numSpare - numChunks;
      Shorter(blocks, pages, EXPANSION - numBytes, EXPANSION);
      ghost var before := free;
      CarveAll(counter, pages, pages + EXPANSION - numBytes);
      LengthsGrow(before, free, counter, 16);
      assert idx < 3 ==> Spared(idx, counter[idx], idx, numBytes);
    }

    /** Memory for an allocation: from the smallest bucket that fits, or whole
        pages of its own. What is handed out is aligned and filled with the byte
        0x55, is an allocation that was not there before, and changes no byte of
        any other. */
    method Allocate(req: nat, alignment: nat, caller: nat, pages: nat) returns (p: nat)
      requires Valid() && Aligns(alignment)
      requires TotalOf(req, AtLeast16(alignment)) < 0x1_0000_0000_0000_0000
      requires Provides(blocks, pages, TotalOf(req, AtLeast16(alignment)))
      modifies this
      ensures Valid()
      ensures req == 0 ==> p == 0 && live == old(live) && mem == old(mem)
      ensures req > 0 ==> Handed(old(live), old(mem), live, mem, p, req, AtLeast16(alignment), caller)
      ensures req > 0 ==> p % 16 == 0 && (IsPower(alignment) ==> p % alignment == 0)
    {
      hide BlocksOk, FreeOk, LiveAll, Partition, Unclaimed, TotalOf, BlockSize, Written, FromBucket, Handed, Bytes;
      if req == 0 {
        return 0;
      }
      var align := AtLeast16(alignment);
      var total := TotalOf(req, align);
      BlockHolds(total);
      MoreThan32(req, align);
      if total >= PAGE_SIZE {
        p := AllocateLarge(req, align, caller, pages);
      } else {
        p := AllocateSmall(req, align, caller, pages);
      }
      MultipleOf(old(live), old(mem), live, mem, p, req, alignment, caller);
    }

    /** A chunk from a bucket, which is expanded first if it has none. */
    method AllocateSmall(req: nat, align: nat, caller: nat, pages: nat) returns (p: nat)
      requires Valid() && IsAlign(align) && req > 0 && TotalOf(req, align) < PAGE_SIZE
      requires Provides(blocks, pages, TotalOf(req, align))
      modifies this
      ensures Valid() && Handed(old(live), old(mem), live, mem, p, req, align, caller)
    {
      hide BlocksOk, FreeOk, LiveAll, Partition, Unclaimed, TotalOf, Written, FromBucket, Handed, Sizes, Bytes, Expansion;
      var total := TotalOf(req, align);
      MoreThan32(req, align);
      BlockHolds(total);
      var i := GetFittingBucket(total);
      SpareEnough(i, numSpare);
      if numFree[i] == 0 {
        ExpandBucket(i, pages);
      }
      p := TakeFrom(i, req, align, caller);
    }

    /** The first chunk of a bucket that has one. */
    method TakeFrom(i: nat, req: nat, align: nat, caller: nat) returns (p: nat)
      requires Valid() && i < 16 && free[i] != [] && IsAlign(align) && req > 0
      requires TotalOf(req, align) < PAGE_SIZE && Fitting(TotalOf(req, align)) == i
      modifies this
      ensures Valid() && Handed(old(live), old(mem), live, mem, p, req, align, caller)
    {
      hide BlocksOk, FreeOk, LiveAll, Partition, TotalOf, Written, FromBucket, Handed, Sizes, Bytes, Fitting, AlignUp;
      var base := free[i][0];
      ghost var l := Live(base, req, align);
      TakeChunk(blocks, free, mem, live, i, l, caller);
      free := free[i := free[i][1..]];
      numFree := numFree[i := numFree[i] - 1];
      used := used[i := [0] + used[i]];
      numUsed := numUsed[i := numUsed[i] + 1];
      mem := Written(mem, base, caller, req, align);
      p := AlignUp(base + 17, align);
      forall j | 0 <= j < 16 ensures |FromBucket(live[p := l], j)| == |FromBucket(live, j)| + if j == i then 1 else 0 {
        BucketGains(live, p, l, j);
      }
      BytesGain(live, p, l);
      allocatedBytes := allocatedBytes + TotalOf(req, align);
      live := live[p := l];
    }

    /** Whole pages. */
    method AllocateLarge(req: nat, align: nat, caller: nat, pages: nat) returns (p: nat)
      requires Valid() && IsAlign(align) && req > 0 && PAGE_SIZE <= TotalOf(req, align) < 0x1_0000_0000_0000_0000
      requires Provides(blocks, pages, TotalOf(req, align))
      modifies this
      ensures Valid() && Handed(old(live), old(mem), live, mem, p, req, align, caller)
    {
      hide BlocksOk, FreeOk, LiveAll, Partition, Unclaimed, TotalOf, Written, FromBucket, Handed, Sizes, Bytes;
      ghost var l := Live(pages, req, align);
      TakePages(blocks, free, mem, live, l, caller);
      blocks := blocks[pages := Pages(TotalOf(req, align)) * PAGE_SIZE];
      mem := Written(mem, pages, caller, req, align);
      p := AlignUp(pages + 17, align);
      forall j | 0 <= j < 16 ensures |FromBucket(live[p := l], j)| == |FromBucket(live, j)| {
        BucketGains(live, p, l, j);
      }
      BytesGain(live, p, l);
      allocatedBytes := allocatedBytes + TotalOf(req, align);
      live := live[p := l];
    }

    /** Gives an allocation back. Its block is found again from the bytes in
        front of the pointer alone: a chunk goes back to the bucket it came
        from, whole pages are returned, all of them. No byte of any other
        allocation changes. */
    method Deallocate(p: nat) returns (at: nat, num: nat)
      requires Valid() && (p == 0 || p in live)
      modifies this
      ensures Valid()
      ensures p == 0 ==> live == old(live) && mem == old(mem) && num == 0
      ensures p > 0 ==> live == old(live) - {p} && OthersKept(old(live), old(mem), mem, p)
      ensures p > 0 && Total(old(live)[p]) < PAGE_SIZE ==>
                var i := Fitting(Total(old(live)[p])); num == 0 && free == old(free)[i := [old(live)[p].base] + old(free)[i]]
      ensures p > 0 && Total(old(live)[p]) < PAGE_SIZE ==>
                forall x | old(live)[p].base <= x < old(live)[p].base + old(blocks[live[p].base]) :: ByteAt(mem, x) == 0xAA
      ensures p > 0 && Total(old(live)[p]) >= PAGE_SIZE ==>
                at == old(live)[p].base && num * PAGE_SIZE == old(blocks[live[p].base]) && free == old(free)
    {
      hide BlocksOk, FreeOk, LiveAll, Partition, FromBucket, Sizes, LoadBytes, Fill, OthersKept, Total, Fitting, Bytes;
      at, num := 0, 0;
      if p == 0 {
        return;
      }
      ghost var l := live[p];
      Recover(blocks, mem, live, p);
      var ofs := ByteAt(mem, p - 1);
      var size := LoadBytes(mem, p - ofs - 8, 8);
      var base := p - ofs - 16;
      forall j | 0 <= j < 16 ensures |FromBucket(live, j)| == |FromBucket(live - {p}, j)| + if UsesBucket(l, j) then 1 else 0 {
        BucketLoses(live, p, j);
      }
      BytesLose(live, p);
      if size >= PAGE_SIZE {
        GivePages(blocks, free, mem, live, p);
        at, num := base, Pages(size);
        blocks := blocks - {base};
      } else {
        var i := GetFittingBucket(size);
        assert numUsed[i] > 0;
        GiveChunk(blocks, free, mem, live, p);
        used := used[i := used[i][1..]];
        numUsed := numUsed[i := numUsed[i] - 1];
        mem := Fill(mem, base, 0xAA, Sizes()[i]);
        free := free[i := [base] + free[i]];
        numFree := numFree[i := numFree[i] + 1];
      }
      allocatedBytes := allocatedBytes - size;
      live := live - {p};
    }

    /** The owner of an allocation may write any of its bytes. */
    method Write(p: nat, i: nat, v: nat)
      requires Valid() && p in live && i < live[p].req
      modifies `mem
      ensures Valid() && mem == old(mem)[p + i := v] && OthersKept(live, old(mem), mem, p)
    {
      hide BlocksOk, FreeOk, LiveAll, Partition, FromBucket, OthersKept;
      OwnByte(blocks, mem, live, p, i, v);
      mem := mem[p + i := v];
    }

    method MakeSpareChunks()
      requires Valid()
      modifies `spare, `numSpare
      ensures Valid() && spare == old(spare) + seq(CHUNKS_PER_PAGE, i => 0)
    {
      spare := spare + seq(CHUNKS_PER_PAGE, i => 0);
      numSpare := numSpare + CHUNKS_PER_PAGE;
    }

    /** Makes one chunk of bucket i out of the front of a free stretch. */
    method CarveOne(i: nat, at: nat, ghost end: nat)
      requires Valid() && i < 16
      requires at + Sizes()[i] <= end && Unclaimed(blocks, at, end - at) && BlockOk(at, Sizes()[i])
      modifies `blocks, `free, `numFree
      ensures Valid()
      ensures blocks == old(blocks)[at := Sizes()[i]] && at !in old(blocks)
      ensures Unclaimed(blocks, at + Sizes()[i], end - at - Sizes()[i])
      ensures free == old(free)[i := [at] + old(free)[i]]
    {
      hide Sizes, BlockOk, Holds;
      Narrow(blocks, at, Sizes()[i], end);
      Claim(blocks, at, Sizes()[i]);
      NewBlock(blocks, free, mem, live, at, Sizes()[i]);
      blocks := blocks[at := Sizes()[i]];
      PushFree(blocks, free, i, at);
      free := free[i := [at] + free[i]];
      numFree := numFree[i := numFree[i] + 1];
    }

    /** Makes num chunks of bucket i, one after the other. */
    method Carve(i: nat, num: nat, start: nat, ghost end: nat) returns (at: nat)
      requires Valid() && i < 16 && Lined(i, start)
      requires start + num * Sizes()[i] <= end && Unclaimed(blocks, start, end - start)
      modifies `blocks, `free, `numFree
      ensures Valid() && at == start + num * Sizes()[i] && Lined(i, at)
      ensures Unclaimed(blocks, at, end - at)
      ensures |free[i]| == |old(free)[i]| + num
      ensures forall j | 0 <= j < 16 && j != i :: free[j] == old(free)[j]
    {
      hide BlocksOk, FreeOk, LiveAll, Partition, Unclaimed, Sizes, BlockOk, FromBucket, Lined;
      at := start;
      for k := 0 to num
        invariant Valid() && |free| == 16 && at == start + k * Sizes()[i] && Lined(i, at)
        invariant Unclaimed(blocks, at, end - at)
        invariant |free[i]| == |old(free)[i]| + k
        invariant forall j | 0 <= j < 16 && j != i :: free[j] == old(free)[j]
      {
        Another(k, num, Sizes()[i]);
        NextLined(i, at);
        CarveOne(i, at, end);
        at := at + Sizes()[i];
      }
    }
  }

  lemma Whole(i: nat)
    requires i < 16
    ensures EXPANSION / Sizes()[i] > 0 && EXPANSION / Sizes()[i] * Sizes()[i] <= EXPANSION
    ensures EXPANSION - EXPANSION / Sizes()[i] * Sizes()[i] == EXPANSION % Sizes()[i]
  {
    assert 24 <= Sizes()[i] <= 4096;
  }

  lemma FirstPlan(idx: nat)
    requires idx < 16
    ensures var n := EXPANSION / Sizes()[idx]; var z: seq<nat> := seq(16, i => 0);
            && n > 0 && n * Sizes()[idx] <= EXPANSION && Need(z[idx := n], 16) == n * Sizes()[idx]
            && Chunks(z[idx := n], 16) == n && n + Rest(EXPANSION - n * Sizes()[idx], 3) == Expansion(idx)
  {
    hide Need, Chunks, Rest, Sizes;
    LargeSizes(idx);
    Whole(idx);
    NoneYet(16);
    var z: seq<nat> := seq(16, i => 0);
    OneMore(z, idx, EXPANSION / Sizes()[idx], 16);
  }

  /** What the first n buckets leave of a page each. */
  function SlackOf(n: nat): nat
    requires n <= 16
  {
    if n == 0 then 0 else SlackOf(n - 1) + (if Sizes()[n - 1] == 0 then 0 else PAGE_SIZE % Sizes()[n - 1])
  }

  lemma SlackStep(n: nat)
    requires n <= 16
    ensures n == 0 ==> SlackOf(n) == 0
    ensures n > 0 && Sizes()[n - 1] > 0 ==> SlackOf(n) == SlackOf(n - 1) + PAGE_SIZE % Sizes()[n - 1]
  {
  }

  lemma LeftStep(left: nat, n: nat)
    requires n <= 16
    ensures n == 0 ==> Left(left, n) == left
    ensures n > 0 && Sizes()[n - 1] <= left ==> Left(left, n) == Left(left - Sizes()[n - 1], n - 1)
    ensures n > 0 && Sizes()[n - 1] > left ==> Left(left, n) == Left(left, n - 1)
  {
  }

  lemma PageOfChunks(i: nat)
    requires i < 16
    ensures Sizes()[i] > 0 && PAGE_SIZE / Sizes()[i] >= 1
    ensures PAGE_SIZE - PAGE_SIZE / Sizes()[i] * Sizes()[i] == PAGE_SIZE % Sizes()[i] >= 0
  {
    assert 24 <= Sizes()[i] <= 4096;
  }

  lemma SlackUsedUp()
    ensures Left(SlackOf(16), 16) == 0
  {
    assert SlackOf(4) == 32;
    assert SlackOf(8) == 32 + 64 + 64;
    assert SlackOf(12) == 160 + 256 + 256;
    assert SlackOf(16) == 2720;
    assert Left(2720, 16) == Left(2720, 14);
    assert Left(2720, 14) == Left(672, 13);
    assert Left(672, 13) == Left(672, 10);
    assert Left(672, 10) == Left(160, 9);
    assert Left(160, 9) == Left(160, 6);
    assert Left(160, 6) == Left(32, 5);
    assert Left(32, 5) == Left(32, 2);
    assert Left(32, 2) == 0;
  }

  lemma RestStep(left: nat, n: nat)
    requires n <= 16
    ensures n == 0 ==> Rest(left, n) == 0
    ensures n > 0 && Sizes()[n - 1] <= left ==> Rest(left, n) == 1 + Rest(left - Sizes()[n - 1], n - 1)
    ensures n > 0 && Sizes()[n - 1] > left ==> Rest(left, n) == Rest(left, n - 1)
  {
  }

  lemma PlanStep(counter: seq<nat>, n: nat)
    requires 0 < n <= 16 && |counter| == 16
    ensures Need(counter, n) == Need(counter, n - 1) + counter[n - 1] * Sizes()[n - 1]
    ensures Chunks(counter, n) == Chunks(counter, n - 1) + counter[n - 1]
  {
  }

  lemma Shorter(blocks: Blocks, at: nat, n: nat, m: nat)
    requires n <= m && Unclaimed(blocks, at, m)
    ensures Unclaimed(blocks, at, n)
  {
  }

  lemma LargeSizes(i: nat)
    requires i < 16
    ensures Sizes()[i] > 0 && (i >= 8 ==> Sizes()[i] % 128 == 0) && (i < 8 ==> Sizes()[i] < 384)
  {
  }

  /** Chunks of the larger buckets are laid end to end on multiples of 128. */
  predicate Lined(i: nat, at: nat) {
    at > 0 && (i >= 8 ==> at % 128 == 0)
  }

  lemma PageLined(pages: nat)
    requires pages % PAGE_SIZE == 0
    ensures pages % 128 == 0
  {
  }

  lemma NextLined(i: nat, at: nat)
    requires i < 16 && Lined(i, at)
    ensures BlockOk(at, Sizes()[i]) && Lined(i, at + Sizes()[i])
  {
    LargeSizes(i);
  }

  lemma Another(k: nat, n: nat, size: nat)
    requires k < n
    ensures (k + 1) * size == k * size + size <= n * size
  {
  }

  lemma Narrow(blocks: Blocks, at: nat, size: nat, end: nat)
    requires at + size <= end && Unclaimed(blocks, at, end - at)
    ensures Unclaimed(blocks, at, size) && Unclaimed(blocks, at + size, end - at - size)
    ensures Unclaimed(blocks[at := size], at + size, end - at - size)
  {
  }

  /** A new block is neither free nor live, and changes nothing for the rest. */
  lemma NewBlock(blocks: Blocks, free: Lists, mem: Memory, live: Allocations, at: nat, size: nat)
    requires FreeOk(blocks, free) && LiveAll(blocks, mem, live) && at !in blocks
    ensures FreeOk(blocks[at := size], free) && LiveAll(blocks[at := size], mem, live)
    ensures !IsFree(free, at) && !IsLive(live, at)
  {
    hide BlockSize, Header, LiveOk, Ptr, Total;
    forall p | p in live ensures Holds(blocks[at := size], mem, p, live[p]) {
      assert Holds(blocks, mem, p, live[p]);
    }
  }

  function AtLeast16(alignment: nat): nat {
    if alignment > 16 then alignment else 16
  }

  /** The alignments that can be asked for: after raising them to at least 16
      they must be powers of two up to 256. */
  predicate Aligns(alignment: nat) {
    alignment <= 16 || alignment == 32 || alignment == 64 || alignment == 128 || alignment == 256
  }

  predicate IsPower(a: nat) {
    a == 1 || a == 2 || a == 4 || a == 8 || a == 16 || a == 32 || a == 64 || a == 128 || a == 256
  }

  lemma MultipleOf(live: Allocations, mem: Memory, live': Allocations, mem': Memory, p: nat, req: nat, alignment: nat, caller: nat)
    requires Aligns(alignment) && Handed(live, mem, live', mem', p, req, AtLeast16(alignment), caller)
    ensures p % 16 == 0 && (IsPower(alignment) ==> p % alignment == 0)
  {
    hide LoadBytes, ByteAt;
    assert p % AtLeast16(alignment) == 0;
    hide Handed;
    if alignment == 256 {
      Halved256(p);
    } else if alignment == 128 {
      Halved128(p);
    } else if alignment == 64 {
      Halved64(p);
    } else if alignment == 32 {
      Halved32(p);
    } else {
      Halved16(p);
      Halved8(p);
      Halved4(p);
    }
  }

  lemma Halved256(p: nat)
    requires p % 256 == 0
    ensures p % 16 == 0
  {
    assert p == 16 * (16 * (p / 256));
  }

  lemma Halved128(p: nat)
    requires p % 128 == 0
    ensures p % 16 == 0
  {
    assert p == 16 * (8 * (p / 128));
  }

  lemma Halved64(p: nat)
    requires p % 64 == 0
    ensures p % 16 == 0
  {
    assert p == 16 * (4 * (p / 64));
  }

  lemma Halved32(p: nat)
    requires p % 32 == 0
    ensures p % 16 == 0
  {
    assert p == 16 * (2 * (p / 32));
  }

  lemma Halved16(p: nat)
    requires p % 16 == 0
    ensures p % 8 == 0
  {
    assert p == 8 * (2 * (p / 16));
  }

  lemma Halved8(p: nat)
    requires p % 8 == 0
    ensures p % 4 == 0
  {
    assert p == 4 * (2 * (p / 8));
  }

  lemma Halved4(p: nat)
    requires p % 4 == 0
    ensures p % 2 == 0
  {
    assert p == 2 * (2 * (p / 4));
  }

  lemma MoreThan32(req: nat, align: nat)
    requires IsAlign(align) && req > 0
    ensures TotalOf(req, align) > 32 && (align == 256 ==> TotalOf(req, align) > 256)
  {
  }

  /** Fresh pages, enough for an allocation of that size or for an expansion. */
  ghost predicate Provides(blocks: Blocks, pages: nat, total: nat) {
    && pages > 0 && pages % PAGE_SIZE == 0
    && Unclaimed(blocks, pages, if total >= PAGE_SIZE then Pages(total) * PAGE_SIZE else EXPANSION)
  }

  /** What a caller gets: an aligned pointer to a new allocation, all of its
      bytes 0x55, its block marked with the caller's address, and every other
      allocation as it was. */
  ghost predicate Handed(live: Allocations, mem: Memory, live': Allocations, mem': Memory, p: nat, req: nat, align: nat, caller: nat) {
    && p > 0 && align > 0 && p % align == 0
    && p !in live && p in live' && live'[p].req == req && live'[p].align == align && live' == live[p := live'[p]]
    && (caller < 0x1_0000_0000_0000_0000 ==> LoadBytes(mem', live'[p].base, 8) == caller)
    && (forall x | p <= x < p + req :: ByteAt(mem', x) == 0x55)
    && (forall q, x | q in live && q <= x < q + live[q].req :: ByteAt(mem', x) == ByteAt(mem, x))
  }

  /** Laying out an allocation in a block that is neither free nor live. */
  lemma LaidOut(blocks: Blocks, mem: Memory, live: Allocations, l: Live, caller: nat)
    requires BlocksOk(blocks) && LiveAll(blocks, mem, live) && !IsLive(live, l.base)
    requires LiveOk(l) && l.base in blocks && blocks[l.base] == BlockSize(Total(l))
    ensures var mem' := Written(mem, l.base, caller, l.req, l.align);
            && LiveAll(blocks, mem', live[Ptr(l) := l])
            && Handed(live, mem, live[Ptr(l) := l], mem', Ptr(l), l.req, l.align, caller) && Ptr(l) !in live
            && forall b :: IsLive(live[Ptr(l) := l], b) <==> IsLive(live, b) || b == l.base
  {
    hide BlockSize, Written, Holds, BlockOk, Total;
    var mem', p := Written(mem, l.base, caller, l.req, l.align), Ptr(l);
    WrittenHolds(blocks, mem, caller, l);
    BecomesLive(blocks, mem, mem', live, p, l);
    Inside(blocks, mem', p, l);
    forall q, x | q in live && q <= x < q + live[q].req ensures ByteAt(mem', x) == ByteAt(mem, x) {
      Inside(blocks, mem, q, live[q]);
      assert Apart(live[q].base, blocks[live[q].base], l.base, blocks[l.base]);
    }
  }

  /** Taking the first chunk of a bucket for an allocation. */
  lemma TakeChunk(blocks: Blocks, free: Lists, mem: Memory, live: Allocations, i: nat, l: Live, caller: nat)
    requires BlocksOk(blocks) && FreeOk(blocks, free) && LiveAll(blocks, mem, live) && Partition(blocks, free, live)
    requires i < 16 && free[i] != [] && l.base == free[i][0] && IsAlign(l.align) && l.req > 0
    requires Total(l) < PAGE_SIZE && Fitting(Total(l)) == i
    ensures var mem' := Written(mem, l.base, caller, l.req, l.align);
            var free' := free[i := free[i][1..]]; var live' := live[Ptr(l) := l];
            && FreeOk(blocks, free') && LiveAll(blocks, mem', live') && Partition(blocks, free', live')
            && Handed(live, mem, live', mem', Ptr(l), l.req, l.align, caller) && Ptr(l) !in live
  {
    hide Written, FreeOk, LiveAll, Handed, IsFree, IsLive;
    PopFree(blocks, free, i);
    LaidOut(blocks, mem, live, l, caller);
  }

  lemma LargeOk(l: Live)
    requires IsAlign(l.align) && l.req > 0 && PAGE_SIZE <= Total(l) < 0x1_0000_0000_0000_0000
    requires l.base > 0 && l.base % PAGE_SIZE == 0
    ensures LiveOk(l) && BlockSize(Total(l)) == Pages(Total(l)) * PAGE_SIZE && BlockOk(l.base, BlockSize(Total(l)))
  {
    hide Pages, Total, Fitting, Sizes;
    PageOnLine(l.base);
    PagesEnough(Total(l));
  }

  lemma PageOnLine(base: nat)
    requires base % PAGE_SIZE == 0
    ensures base % 128 == 0
  {
  }

  /** Taking whole pages for an allocation. */
  lemma TakePages(blocks: Blocks, free: Lists, mem: Memory, live: Allocations, l: Live, caller: nat)
    requires BlocksOk(blocks) && FreeOk(blocks, free) && LiveAll(blocks, mem, live) && Partition(blocks, free, live)
    requires IsAlign(l.align) && l.req > 0 && PAGE_SIZE <= Total(l) < 0x1_0000_0000_0000_0000
    requires Provides(blocks, l.base, Total(l))
    ensures var mem' := Written(mem, l.base, caller, l.req, l.align);
            var blocks' := blocks[l.base := Pages(Total(l)) * PAGE_SIZE]; var live' := live[Ptr(l) := l];
            && BlocksOk(blocks') && FreeOk(blocks', free) && LiveAll(blocks', mem', live') && Partition(blocks', free, live')
            && Handed(live, mem, live', mem', Ptr(l), l.req, l.align, caller) && Ptr(l) !in live
  {
    hide Written, FreeOk, LiveAll, Handed, IsFree, IsLive, BlocksOk, Unclaimed, BlockOk, LiveOk, Total, Pages, BlockSize;
    var size := Pages(Total(l)) * PAGE_SIZE;
    LargeOk(l);
    Claim(blocks, l.base, size);
    NewBlock(blocks, free, mem, live, l.base, size);
    LaidOut(blocks[l.base := size], mem, live, l, caller);
  }

  ghost predicate OthersKept(live: Allocations, mem: Memory, mem': Memory, p: nat) {
    forall q, x | q in live && q != p && q <= x < q + live[q].req :: ByteAt(mem', x) == ByteAt(mem, x)
  }

  /** What deallocate reads is what allocate wrote. */
  lemma Recover(blocks: Blocks, mem: Memory, live: Allocations, p: nat)
    requires LiveAll(blocks, mem, live) && p in live
    ensures var l := live[p];
            && IsAlign(l.align) && p > 0 && p - ByteAt(mem, p - 1) - 16 == l.base
            && LoadBytes(mem, l.base + 8, 8) == Total(l) && l.base in blocks && blocks[l.base] == BlockSize(Total(l))
            && Total(l) > 0
  {
    hide BlockSize, LoadBytes, BlockOk;
    PtrFits(live[p]);
  }

  /** Nothing of the others is in a block. */
  lemma WithinBlock(blocks: Blocks, mem: Memory, mem': Memory, live: Allocations, p: nat)
    requires BlocksOk(blocks) && LiveAll(blocks, mem, live) && p in live && live[p].base in blocks
    requires SameOutside(mem, mem', live[p].base, blocks[live[p].base])
    ensures OthersKept(live, mem, mem', p)
  {
    hide Holds, BlockOk;
    forall q, x | q in live && q != p && q <= x < q + live[q].req ensures ByteAt(mem', x) == ByteAt(mem, x) {
      Inside(blocks, mem, q, live[q]);
      assert Apart(live[q].base, blocks[live[q].base], live[p].base, blocks[live[p].base]);
    }
  }

  lemma LiveNotFree(blocks: Blocks, free: Lists, mem: Memory, live: Allocations, p: nat)
    requires LiveAll(blocks, mem, live) && Partition(blocks, free, live) && p in live
    ensures live[p].base in blocks && !IsFree(free, live[p].base)
  {
    hide IsFree, Header;
    assert IsLive(live, live[p].base);
  }

  /** A chunk goes back to the front of its bucket. */
  lemma GiveChunk(blocks: Blocks, free: Lists, mem: Memory, live: Allocations, p: nat)
    requires BlocksOk(blocks) && FreeOk(blocks, free) && LiveAll(blocks, mem, live) && Partition(blocks, free, live)
    requires p in live && IsAlign(live[p].align) && Total(live[p]) < PAGE_SIZE
    ensures var i := Fitting(Total(live[p])); var base := live[p].base;
            && i < 16 && base in blocks
            && var mem' := Fill(mem, base, 0xAA, Sizes()[i]); var free' := free[i := [base] + free[i]];
            && FreeOk(blocks, free') && LiveAll(blocks, mem', live - {p}) && Partition(blocks, free', live - {p})
            && OthersKept(live, mem, mem', p)
            && forall x | base <= x < base + blocks[base] :: ByteAt(mem', x) == 0xAA
  {
    hide Fill, FreeOk, LiveAll, IsFree, IsLive, Sizes, OthersKept, Total;
    var i, base := Fitting(Total(live[p])), live[p].base;
    LiveNotFree(blocks, free, mem, live, p);
    Recover(blocks, mem, live, p);
    var mem' := Fill(mem, base, 0xAA, Sizes()[i]);
    FillBytes(mem, base, 0xAA, Sizes()[i]);
    PushFree(blocks, free, i, base);
    NoLongerLive(blocks, mem, mem', live, p);
    WithinBlock(blocks, mem, mem', live, p);
  }

  /** Whole pages go back to where they came from. */
  lemma GivePages(blocks: Blocks, free: Lists, mem: Memory, live: Allocations, p: nat)
    requires BlocksOk(blocks) && FreeOk(blocks, free) && LiveAll(blocks, mem, live) && Partition(blocks, free, live)
    requires p in live && IsAlign(live[p].align) && Total(live[p]) >= PAGE_SIZE
    ensures var blocks' := blocks - {live[p].base};
            && BlocksOk(blocks') && FreeOk(blocks', free) && LiveAll(blocks', mem, live - {p})
            && Partition(blocks', free, live - {p}) && OthersKept(live, mem, mem, p)
  {
    hide Holds, IsLive, Sizes, BlockOk, Total;
    var base := live[p].base;
    LiveNotFree(blocks, free, mem, live, p);
    NoLongerLive(blocks, mem, mem, live, p);
    Others(blocks, mem, live, p);
    forall i, k | 0 <= i < 16 && 0 <= k < |free[i]| ensures free[i][k] != base {
      assert IsFree(free, free[i][k]);
    }
  }

  lemma Others(blocks: Blocks, mem: Memory, live: Allocations, p: nat)
    requires LiveAll(blocks, mem, live) && p in live
    ensures LiveAll(blocks - {live[p].base}, mem, live - {p})
  {
    hide Header, BlockSize, LiveOk, Ptr;
    forall q | q in live && q != p ensures Holds(blocks - {live[p].base}, mem, q, live[q]) {
      assert Holds(blocks, mem, q, live[q]);
    }
  }

  lemma OwnByte(blocks: Blocks, mem: Memory, live: Allocations, p: nat, i: nat, v: nat)
    requires BlocksOk(blocks) && LiveAll(blocks, mem, live) && p in live && i < live[p].req
    ensures LiveAll(blocks, mem[p + i := v], live) && OthersKept(live, mem, mem[p + i := v], p)
  {
    hide Holds, BlockOk, OthersKept;
    var mem', b := mem[p + i := v], live[p].base;
    Inside(blocks, mem, p, live[p]);
    assert SameOutside(mem, mem', b, blocks[b]);
    OthersHold(blocks, mem, mem', live, b);
    WithinBlock(blocks, mem, mem', live, p);
    HeaderInFront(blocks, mem, p, live[p], i, v);
  }

  lemma HeaderInFront(blocks: Blocks, mem: Memory, p: nat, l: Live, i: nat, v: nat)
    requires Holds(blocks, mem, p, l)
    ensures Holds(blocks, mem[p + i := v], p, l)
  {
    hide BlockSize, LoadBytes, BlockOk, AlignUp;
    PtrFits(l);
    LoadSame(mem, mem[p + i := v], l.base + 8, 8);
  }

  // ---- How much is allocated ----

  function Weight(l: Live): nat {
    if IsAlign(l.align) then Total(l) else 0
  }

  /** The sizes recorded for all allocations together. */
  ghost function Bytes(live: Allocations): nat
    decreases |live|
  {
    if live == map[] then 0
    else
      var p :| p in live;
      Weight(live[p]) + Bytes(live - {p})
  }

  lemma {:induction false} BytesLose(live: Allocations, p: nat)
    requires p in live
    ensures Bytes(live) == Weight(live[p]) + Bytes(live - {p})
    decreases |live|
  {
    hide Weight;
    var q :| q in live && Bytes(live) == Weight(live[q]) + Bytes(live - {q});
    if q != p {
      BytesLose(live - {q}, p);
      assert live - {q} - {p} == live - {p} - {q};
      BytesLose(live - {p}, q);
    }
  }

  lemma BytesGain(live: Allocations, p: nat, l: Live)
    requires p !in live
    ensures Bytes(live[p := l]) == Bytes(live) + Weight(l)
  {
    hide Bytes, Weight;
    BytesLose(live[p := l], p);
    assert live[p := l] - {p} == live;
  }
}
