/** Bytes, words and blocks of the kernel heap. */
module HeapMemory {

  // ---- Bytes ----

  type Memory = map<nat, nat>

  function ByteAt(mem: Memory, a: nat): nat {
    if a in mem then mem[a] else 0
  }

  /** A number stored as n bytes, the lowest first. */
  function StoreBytes(mem: Memory, a: nat, v: nat, n: nat): Memory
    decreases n
  {
    if n == 0 then mem else StoreBytes(mem[a := v % 256], a + 1, v / 256, n - 1)
  }

  function LoadBytes(mem: Memory, a: nat, n: nat): nat
    decreases n
  {
    if n == 0 then 0 else ByteAt(mem, a) + 256 * LoadBytes(mem, a + 1, n - 1)
  }

  /** memset. */
  function Fill(mem: Memory, a: nat, v: nat, n: nat): Memory
    decreases n
  {
    if n == 0 then mem else Fill(mem[a := v], a + 1, v, n - 1)
  }

  predicate Fits(v: nat, n: nat) {
    if n == 0 then v == 0 else Fits(v / 256, n - 1)
  }

  ghost predicate SameOutside(mem: Memory, mem': Memory, a: nat, n: nat) {
    forall x: nat | x < a || x >= a + n :: ByteAt(mem', x) == ByteAt(mem, x)
  }

  lemma {:induction false} StoreOutside(mem: Memory, a: nat, v: nat, n: nat)
    ensures SameOutside(mem, StoreBytes(mem, a, v, n), a, n)
    decreases n
  {
    if n > 0 {
      StoreOutside(mem[a := v % 256], a + 1, v / 256, n - 1);
    }
  }

  lemma {:induction false} FillBytes(mem: Memory, a: nat, v: nat, n: nat)
    ensures SameOutside(mem, Fill(mem, a, v, n), a, n)
    ensures forall x | a <= x < a + n :: ByteAt(Fill(mem, a, v, n), x) == v
    decreases n
  {
    if n > 0 {
      FillBytes(mem[a := v], a + 1, v, n - 1);
    }
  }

  lemma {:induction false} LoadSame(mem: Memory, mem': Memory, a: nat, n: nat)
    requires forall x | a <= x < a + n :: ByteAt(mem', x) == ByteAt(mem, x)
    ensures LoadBytes(mem', a, n) == LoadBytes(mem, a, n)
    decreases n
  {
    if n > 0 {
      LoadSame(mem, mem', a + 1, n - 1);
    }
  }

  /** A number that fits is read back as it was stored. */
  lemma {:induction false} LoadStored(mem: Memory, a: nat, v: nat, n: nat)
    requires Fits(v, n)
    ensures LoadBytes(StoreBytes(mem, a, v, n), a, n) == v
    decreases n
  {
    if n > 0 {
      LoadStored(mem[a := v % 256], a + 1, v / 256, n - 1);
      StoreOutside(mem[a := v % 256], a + 1, v / 256, n - 1);
    }
  }

  lemma WordFits(v: nat)
    requires v < 0x1_0000_0000_0000_0000
    ensures Fits(v, 8)
  {
    var a := v / 256;
    var b := a / 256;
    var c := b / 256;
    var d := c / 256;
    assert d < 0x1_0000_0000;
    HalfFits(d);
    assert Fits(c, 5);
    assert Fits(b, 6);
    assert Fits(a, 7);
  }

  lemma HalfFits(v: nat)
    requires v < 0x1_0000_0000
    ensures Fits(v, 4)
  {
    assert v / 256 < 0x100_0000;
    assert v / 256 / 256 < 0x1_0000;
    assert v / 256 / 256 / 256 < 256;
    assert Fits(v / 256 / 256, 2);
  }

  // ---- Buckets ----

  const PAGE_SIZE: nat := 4096

  function Sizes(): (s: seq<nat>)
    ensures |s| == 16
  {
    [24, 32, 48, 64, 96, 128, 192, 256, 384, 512, 768, 1024, 1536, 2048, 3072, 4096]
  }

  /** The smallest bucket that fits; 16 if none does. */
  function Fitting(size: nat): (i: nat)
    ensures i <= 16
    ensures i < 16 ==> Sizes()[i] >= size && forall j | 0 <= j < i :: Sizes()[j] < size
    ensures i == 16 ==> size > 4096
  {
    var r := FittingFrom(size, 0);
    assert r == 16 ==> Sizes()[15] < size;
    r
  }

  function FittingFrom(size: nat, i: nat): (r: nat)
    requires i <= 16 && forall j | 0 <= j < i :: Sizes()[j] < size
    ensures i <= r <= 16
    ensures r < 16 ==> Sizes()[r] >= size
    ensures forall j | 0 <= j < r :: Sizes()[j] < size
    decreases 16 - i
  {
    if i == 16 || Sizes()[i] >= size then i else FittingFrom(size, i + 1)
  }

  // ---- Blocks ----

  predicate IsAlign(a: nat) {
    a == 16 || a == 32 || a == 64 || a == 128 || a == 256
  }

  /** Rounding up to a multiple, which is what adding a - 1 and masking does
      for a power of two. */
  function AlignUp(p: nat, a: nat): (r: nat)
    requires IsAlign(a)
    ensures p <= r
  {
    p + a - 1 - (p + a - 1) % a
  }

  /** A live allocation: where its block starts, what was asked for, and the
      size that was recorded for it. */
  datatype Live = Live(base: nat, req: nat, align: nat)

  function TotalOf(req: nat, align: nat): nat {
    req + (8 + 1 + (align - 1)) + 8
  }

  function Total(l: Live): nat
    requires IsAlign(l.align)
  {
    TotalOf(l.req, l.align)
  }

  function Pages(total: nat): nat {
    (total + PAGE_SIZE) / PAGE_SIZE
  }

  /** How much memory the block of an allocation takes up. */
  function BlockSize(total: nat): nat {
    if total >= PAGE_SIZE then Pages(total) * PAGE_SIZE
    else Sizes()[Fitting(total)]
  }

  function Ptr(l: Live): nat
    requires IsAlign(l.align)
  {
    AlignUp(l.base + 17, l.align)
  }

  /** Blocks of 384 bytes and more start at multiples of 128. */
  predicate BlockOk(base: nat, size: nat) {
    base > 0 && size > 0 && (size >= 384 ==> base % 128 == 0)
  }

  predicate LiveOk(l: Live) {
    l.req > 0 && IsAlign(l.align) && Total(l) < 0x1_0000_0000_0000_0000 && BlockOk(l.base, BlockSize(Total(l)))
  }

  lemma BlockHolds(total: nat)
    ensures BlockSize(total) >= total
    ensures total > 32 ==> BlockSize(total) >= 48
    ensures total > 256 ==> BlockSize(total) >= 384
    ensures 32 < total < PAGE_SIZE ==> 2 <= Fitting(total) < 16
  {
    if total < PAGE_SIZE {
      var i := Fitting(total);
      assert i < 16;
      assert total > 32 ==> i >= 2;
      assert total > 256 ==> i >= 8;
      assert total > 32 && i > 2 ==> Sizes()[i] > 48;
    }
  }

  /** The pointer handed out is aligned, leaves room for the two words and the
      offset byte in front, the bytes asked for end within the block, and the
      offset it takes to get back fits into the byte. */
  lemma PtrFits(l: Live)
    requires LiveOk(l)
    ensures Ptr(l) % l.align == 0
    ensures l.base + 17 <= Ptr(l) <= l.base + 16 + l.align
    ensures Ptr(l) + l.req <= l.base + Total(l) <= l.base + BlockSize(Total(l))
    ensures 1 <= Ptr(l) - (l.base + 16) <= 255
  {
    hide BlockSize, Fitting;
    BlockHolds(Total(l));
    RoundUp(l.base, l.align);
  }

  lemma RoundUp(p: nat, a: nat)
    requires IsAlign(a) && (a == 256 ==> p % 128 == 0)
    ensures AlignUp(p + 17, a) % a == 0
    ensures p + 17 <= AlignUp(p + 17, a) <= p + 16 + a && AlignUp(p + 17, a) <= p + 271
  {
    hide AlignUp;
    Round16(p);
    Round32(p);
    Round64(p);
    Round128(p);
    if a == 256 {
      Round256(p);
    }
  }

  /** The size recorded for an allocation is the least that is enough wherever
      its block may start. */
  lemma TotalIsLeast(req: nat, align: nat, size: nat)
    requires IsAlign(align)
    ensures (forall base: nat :: Ptr(Live(base, req, align)) + req <= base + size) <==> size >= TotalOf(req, align)
  {
    hide AlignUp;
    forall base: nat ensures Ptr(Live(base, req, align)) <= base + align + 16 {
      Rounds(base, align);
    }
    Rounds(align - 16, align);
    assert Ptr(Live(align - 16, req, align)) == 2 * align;
  }

  lemma Rounds(p: nat, a: nat)
    requires IsAlign(a)
    ensures AlignUp(p + 17, a) <= p + a + 16 && AlignUp(a - 16 + 17, a) == 2 * a
  {
    match a
    case 16 => assert AlignUp(p + 17, 16) == p + 32 - (p + 32) % 16;
    case 32 => assert AlignUp(p + 17, 32) == p + 48 - (p + 48) % 32;
    case 64 => assert AlignUp(p + 17, 64) == p + 80 - (p + 80) % 64;
    case 128 => assert AlignUp(p + 17, 128) == p + 144 - (p + 144) % 128;
    case _ => assert AlignUp(p + 17, 256) == p + 272 - (p + 272) % 256;
  }

  /** The pages asked for are more than enough, by at most one page. */
  lemma PagesEnough(total: nat)
    ensures total < Pages(total) * PAGE_SIZE <= total + PAGE_SIZE
  {
  }

  lemma Round16(p: nat)
    ensures AlignUp(p + 17, 16) % 16 == 0 && AlignUp(p + 17, 16) <= p + 32
  {
  }

  lemma Round32(p: nat)
    ensures AlignUp(p + 17, 32) % 32 == 0 && AlignUp(p + 17, 32) <= p + 48
  {
  }

  lemma Round64(p: nat)
    ensures AlignUp(p + 17, 64) % 64 == 0 && AlignUp(p + 17, 64) <= p + 80
  {
  }

  lemma Round128(p: nat)
    ensures AlignUp(p + 17, 128) % 128 == 0 && AlignUp(p + 17, 128) <= p + 144
  {
  }

  lemma Round256(p: nat)
    requires p % 128 == 0
    ensures AlignUp(p + 17, 256) % 256 == 0 && AlignUp(p + 17, 256) <= p + 256
  {
  }

  /** Only for an alignment of 256, and only where the two words end on a
      multiple of 256, would the offset not fit into its byte. Blocks that
      large never start in such a place. */
  lemma OffsetByte(base: nat, align: nat)
    requires IsAlign(align)
    ensures var ofs := AlignUp(base + 17, align) - (base + 16);
            ofs % 256 == ofs <==> !(align == 256 && (base + 16) % 256 == 0)
    ensures base % 128 == 0 ==> (base + 16) % 256 != 0
  {
    if align == 256 {
      assert AlignUp(base + 17, 256) == base + 272 - (base + 272) % 256;
    } else {
      hide AlignUp;
      RoundUp(base, align);
    }
  }
}
