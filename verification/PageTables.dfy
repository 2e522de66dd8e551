/** x86-64 page tables as the hardware walks them (section 5.3 of volume 2 of
    the AMD64 manual), and the recursive slot through which the kernel reaches
    them. Physical memory is a map from frame addresses to 512 entries. */
module PageTables {
  import opened Options

  /** A physical page frame, by its address. */
  datatype Frame = Frame(addr: bv64)

  type Entry = bv64
  type Table = seq<Entry>
  type Memory = map<Frame, Table>

  const PAGE_PRESENT: Entry := 0x1
  const PAGE_WRITE: Entry := 0x2
  const PAGE_USER: Entry := 0x4
  const PAGE_COPY_ON_WRITE: Entry := 0x200
  const PAGE_NX: Entry := 0x8000_0000_0000_0000

  /** The bits of an entry that hold a frame address, and those that hold flags. */
  const ADDRESS_BITS: Entry := 0x000F_FFFF_FFFF_F000
  const FLAG_BITS: Entry := 0x8000_0000_0000_0FFF

  predicate Present(e: Entry) {
    e & PAGE_PRESENT != 0
  }

  function FrameOf(e: Entry): Frame {
    Frame(e & ADDRESS_BITS)
  }

  /** A frame address: nothing but address bits. */
  predicate IsFrame(f: Frame) {
    f.addr & ADDRESS_BITS == f.addr
  }

  predicate IsFlags(flags: Entry) {
    flags & FLAG_BITS == flags
  }

  function FlagsOf(e: Entry): Entry {
    e & FLAG_BITS
  }

  /** An entry put together from a frame and flags comes apart again. */
  lemma EntryParts(f: Frame, flags: Entry)
    requires IsFrame(f) && IsFlags(flags)
    ensures FrameOf(f.addr | flags) == f && FlagsOf(f.addr | flags) == flags
    ensures Present(f.addr | flags) == Present(flags)
  {
    hide FrameOf, FlagsOf, Present, IsFrame, IsFlags;
    AddressPart(f, flags);
    FlagPart(f, flags);
    PresentPart(f, flags);
  }

  lemma AddressPart(f: Frame, flags: Entry)
    requires IsFrame(f) && IsFlags(flags)
    ensures FrameOf(f.addr | flags) == f
  {
  }

  lemma FlagPart(f: Frame, flags: Entry)
    requires IsFrame(f) && IsFlags(flags)
    ensures FlagsOf(f.addr | flags) == flags
  {
  }

  lemma PresentPart(f: Frame, flags: Entry)
    requires IsFrame(f)
    ensures Present(f.addr | flags) == Present(flags)
  {
  }

  // ---- Addresses ----

  const PAGE_SIZE := 0x1000
  const PTAB_SIZE := 0x20_0000
  const PDIR_SIZE := 0x4000_0000
  const PDPT_SIZE := 0x80_0000_0000
  const HIGHER_HALF_BASE := 0xFFFF_0000_0000_0000

  function IndexPML4(addr: nat): (i: nat) ensures i < 512 { addr / PDPT_SIZE % 512 }
  function IndexPDPT(addr: nat): (i: nat) ensures i < 512 { addr / PDIR_SIZE % 512 }
  function IndexPageDir(addr: nat): (i: nat) ensures i < 512 { addr / PTAB_SIZE % 512 }
  function IndexPageTable(addr: nat): (i: nat) ensures i < 512 { addr / PAGE_SIZE % 512 }

  /** The addresses at which slot r shows the tables themselves. */
  function GetPML4(r: nat): nat {
    HIGHER_HALF_BASE + r * PDPT_SIZE + r * PDIR_SIZE + r * PTAB_SIZE + r * PAGE_SIZE
  }

  function GetPDPT(r: nat, p4: nat): nat {
    HIGHER_HALF_BASE + r * PDPT_SIZE + r * PDIR_SIZE + r * PTAB_SIZE + PAGE_SIZE * p4
  }

  function GetPDir(r: nat, p4: nat, p3: nat): nat {
    HIGHER_HALF_BASE + r * PDPT_SIZE + r * PDIR_SIZE + PTAB_SIZE * p4 + PAGE_SIZE * p3
  }

  function GetPTab(r: nat, p4: nat, p3: nat, p2: nat): nat {
    HIGHER_HALF_BASE + r * PDPT_SIZE + PDIR_SIZE * p4 + PTAB_SIZE * p3 + PAGE_SIZE * p2
  }

  /** The four indices of a higher-half address put together from them. */
  lemma IndexOfParts(a: nat, b: nat, c: nat, d: nat)
    requires a < 512 && b < 512 && c < 512 && d < 512
    ensures var addr := HIGHER_HALF_BASE + a * PDPT_SIZE + b * PDIR_SIZE + c * PTAB_SIZE + d * PAGE_SIZE;
            IndexPML4(addr) == a && IndexPDPT(addr) == b && IndexPageDir(addr) == c && IndexPageTable(addr) == d
  {
    hide IndexPML4, IndexPDPT, IndexPageDir, IndexPageTable;
    FirstIndex(a, b, c, d);
    SecondIndex(a, b, c, d);
    ThirdIndex(a, b, c, d);
    FourthIndex(a, b, c, d);
  }

  function Composed(a: nat, b: nat, c: nat, d: nat): nat {
    HIGHER_HALF_BASE + a * PDPT_SIZE + b * PDIR_SIZE + c * PTAB_SIZE + d * PAGE_SIZE
  }

  lemma FirstIndex(a: nat, b: nat, c: nat, d: nat)
    requires a < 512 && b < 512 && c < 512 && d < 512
    ensures IndexPML4(Composed(a, b, c, d)) == a
  {
    assert Composed(a, b, c, d) / PDPT_SIZE == 0x1FF_FE00 + a;
  }

  lemma SecondIndex(a: nat, b: nat, c: nat, d: nat)
    requires a < 512 && b < 512 && c < 512 && d < 512
    ensures IndexPDPT(Composed(a, b, c, d)) == b
  {
    assert Composed(a, b, c, d) / PDIR_SIZE == 0x3_FFFC_0000 + a * 0x200 + b;
  }

  lemma ThirdIndex(a: nat, b: nat, c: nat, d: nat)
    requires a < 512 && b < 512 && c < 512 && d < 512
    ensures IndexPageDir(Composed(a, b, c, d)) == c
  {
    assert Composed(a, b, c, d) / PTAB_SIZE == 0x7FF_F800_0000 + a * 0x4_0000 + b * 0x200 + c;
  }

  lemma FourthIndex(a: nat, b: nat, c: nat, d: nat)
    requires a < 512 && b < 512 && c < 512 && d < 512
    ensures IndexPageTable(Composed(a, b, c, d)) == d
  {
    assert Composed(a, b, c, d) / PAGE_SIZE == 0xF_FFF0_0000_0000 + a * 0x800_0000 + b * 0x4_0000 + c * 0x200 + d;
  }

  // ---- The hardware walk ----

  ghost predicate WellFormed(mem: Memory) {
    forall f | f in mem :: |mem[f]| == 512
  }

  function Read(mem: Memory, f: Frame, i: nat): Entry {
    if f in mem && i < |mem[f]| then mem[f][i] else 0
  }

  /** The frame entry i of table f leads to. */
  function Follow(mem: Memory, f: Frame, i: nat): Option<Frame> {
    var e := Read(mem, f, i);
    if Present(e) then Some(FrameOf(e)) else None
  }

  function FollowFrom(mem: Memory, f: Option<Frame>, i: nat): Option<Frame> {
    match f
    case None => None
    case Some(g) => Follow(mem, g, i)
  }

  /** The frame an address translates to, given the root table. */
  function Walk(mem: Memory, root: Frame, addr: nat): Option<Frame> {
    FollowFrom(mem,
      FollowFrom(mem,
        FollowFrom(mem, Follow(mem, root, IndexPML4(addr)), IndexPDPT(addr)),
        IndexPageDir(addr)),
      IndexPageTable(addr))
  }

  /** The table reached from the root by a path of indices. */
  function Tab(mem: Memory, root: Frame, path: seq<nat>): Option<Frame> {
    if path == [] then Some(root)
    else FollowFrom(mem, Tab(mem, root, path[..|path| - 1]), path[|path| - 1])
  }

  lemma TabStep(mem: Memory, root: Frame, path: seq<nat>, i: nat)
    ensures Tab(mem, root, path + [i]) == FollowFrom(mem, Tab(mem, root, path), i)
  {
    assert (path + [i])[..|path|] == path;
  }

  lemma OneStep(mem: Memory, f: Frame, i: nat)
    ensures FollowFrom(mem, Some(f), i) == Follow(mem, f, i)
  {
  }

  lemma TabPaths(mem: Memory, root: Frame, a: nat, b: nat, c: nat)
    ensures Tab(mem, root, [a]) == Follow(mem, root, a)
    ensures Tab(mem, root, [a, b]) == FollowFrom(mem, Tab(mem, root, [a]), b)
    ensures Tab(mem, root, [a, b, c]) == FollowFrom(mem, Tab(mem, root, [a, b]), c)
  {
    hide Follow, FollowFrom;
    assert Tab(mem, root, []) == Some(root);
    assert FollowFrom(mem, Some(root), a) == Follow(mem, root, a) by { OneStep(mem, root, a); }
    hide Tab;
    TabStep(mem, root, [], a);
    TabStep(mem, root, [a], b);
    TabStep(mem, root, [a, b], c);
    assert [] + [a] == [a] && [a] + [b] == [a, b] && [a, b] + [c] == [a, b, c];
  }

  /** Slot r of the current root leads to a root whose own slot r leads to
      itself: the window through which that root's tables are seen. With slot
      510 the two roots are the same. */
  ghost predicate WindowOk(mem: Memory, cur: Frame, r: nat, root: Frame) {
    r < 512 && Follow(mem, cur, r) == Some(root) && Follow(mem, root, r) == Some(root)
  }

  /** Through a window the tables of a root appear where the kernel looks for
      them: at each address the walk ends at the table the indices choose. */
  lemma WindowShows(mem: Memory, cur: Frame, r: nat, root: Frame, a: nat, b: nat, c: nat)
    requires WindowOk(mem, cur, r, root) && a < 512 && b < 512 && c < 512
    ensures Walk(mem, cur, GetPML4(r)) == Some(root)
    ensures Walk(mem, cur, GetPDPT(r, a)) == Tab(mem, root, [a])
    ensures Walk(mem, cur, GetPDir(r, a, b)) == Tab(mem, root, [a, b])
    ensures Walk(mem, cur, GetPTab(r, a, b, c)) == Tab(mem, root, [a, b, c])
  {
    hide Follow, Tab, IndexPML4, IndexPDPT, IndexPageDir, IndexPageTable;
    TabPaths(mem, root, a, b, c);
    IndexOfParts(r, r, r, r);
    IndexOfParts(r, r, r, a);
    IndexOfParts(r, r, a, b);
    IndexOfParts(r, a, b, c);
  }

  // ---- Tables that form a tree ----

  /** A path to a table outside the two slots kept for windows. */
  ghost predicate TablePath(p: seq<nat>) {
    |p| <= 3 && (forall i | 0 <= i < |p| :: p[i] < 512) && (p != [] ==> p[0] != 509 && p[0] != 510)
  }

  /** No table is reached by two paths, and every table reached is there. */
  ghost predicate Unshared(mem: Memory, root: Frame) {
    && (forall p, q | TablePath(p) && TablePath(q) && Tab(mem, root, p).Some? && Tab(mem, root, p) == Tab(mem, root, q) :: p == q)
    && (forall p | TablePath(p) && Tab(mem, root, p).Some? :: Tab(mem, root, p).value in mem)
  }

  /** A frame that is no table of the root. */
  ghost predicate Fresh(mem: Memory, root: Frame, g: Frame) {
    forall p | TablePath(p) :: Tab(mem, root, p) != Some(g)
  }

  function Set(mem: Memory, f: Frame, i: nat, e: Entry): Memory
    requires f in mem && i < |mem[f]|
  {
    mem[f := mem[f][i := e]]
  }

  lemma SetRead(mem: Memory, f: Frame, i: nat, e: Entry, g: Frame, j: nat)
    requires f in mem && i < |mem[f]|
    ensures Read(Set(mem, f, i, e), g, j) == if g == f && j == i then e else Read(mem, g, j)
  {
    var t := mem[f][i := e];
    assert |t| == |mem[f]|;
    if g == f {
      assert Set(mem, f, i, e)[f] == t;
      if j < |t| {
        assert t[j] == if j == i then e else mem[f][j];
      }
    }
  }

  /** Writing an entry changes no path but those through it. */
  lemma {:induction false} SetTab(mem: Memory, root: Frame, p: seq<nat>, f: Frame, i: nat, e: Entry, q: seq<nat>)
    requires WellFormed(mem) && Unshared(mem, root)
    requires TablePath(p) && Tab(mem, root, p) == Some(f) && f in mem && i < 512
    requires TablePath(q) && !(p + [i] <= q)
    ensures Tab(Set(mem, f, i, e), root, q) == Tab(mem, root, q)
    decreases |q|
  {
    hide Present, FrameOf, Read;
    if q != [] {
      var q0, j := q[..|q| - 1], q[|q| - 1];
      assert q == q0 + [j];
      SetTab(mem, root, p, f, i, e, q0);
      var g := Tab(mem, root, q0);
      if g.Some? {
        SetRead(mem, f, i, e, g.value, j);
        assert g.value == f && j == i ==> q == p + [i];
      }
    }
  }

  /** The page-table entry of a page, zero where there is no page table. */
  function Pte(mem: Memory, root: Frame, page: seq<nat>): Entry
    requires |page| == 4
  {
    match Tab(mem, root, page[..3])
    case None => 0
    case Some(t) => Read(mem, t, page[3])
  }

  ghost predicate Page(page: seq<nat>) {
    |page| == 4 && TablePath(page[..3]) && page[3] < 512
  }

  lemma SetLeaf(mem: Memory, root: Frame, page: seq<nat>, f: Frame, e: Entry)
    requires WellFormed(mem) && Unshared(mem, root) && Page(page)
    requires Tab(mem, root, page[..3]) == Some(f) && f in mem
    ensures var mem' := Set(mem, f, page[3], e);
            && WellFormed(mem') && Unshared(mem', root)
            && (forall q | TablePath(q) :: Tab(mem', root, q) == Tab(mem, root, q))
            && Pte(mem', root, page) == e
            && (forall other | Page(other) && other != page :: Pte(mem', root, other) == Pte(mem, root, other))
  {
    hide Tab, Read;
    var mem' := Set(mem, f, page[3], e);
    forall q | TablePath(q)
      ensures Tab(mem', root, q) == Tab(mem, root, q)
    {
      SetTab(mem, root, page[..3], f, page[3], e, q);
    }
    SetRead(mem, f, page[3], e, f, page[3]);
    forall other | Page(other) && other != page
      ensures Pte(mem', root, other) == Pte(mem, root, other)
    {
      var t := Tab(mem, root, other[..3]);
      assert other == other[..3] + [other[3]] && page == page[..3] + [page[3]];
      if t.Some? {
        SetRead(mem, f, page[3], e, t.value, other[3]);
      }
    }
  }

  // ---- Adding a table ----

  function Zeros(): Table { seq(512, i => 0) }

  /** Entry i of table f now leads to frame g, which has been cleared. */
  function Link(mem: Memory, f: Frame, i: nat, e: Entry): Memory
    requires f in mem && i < |mem[f]|
  {
    Set(mem, f, i, e)[FrameOf(e) := Zeros()]
  }

  lemma LinkRead(mem: Memory, f: Frame, i: nat, e: Entry, h: Frame, j: nat)
    requires f in mem && i < |mem[f]| && FrameOf(e) != f
    ensures Read(Link(mem, f, i, e), h, j) ==
            if h == FrameOf(e) then 0 else if h == f && j == i then e else Read(mem, h, j)
  {
    SetRead(mem, f, i, e, h, j);
  }

  ghost predicate CanLink(mem: Memory, root: Frame, p: seq<nat>, f: Frame, i: nat, e: Entry) {
    && WellFormed(mem) && Unshared(mem, root)
    && TablePath(p) && TablePath(p + [i]) && i < 512
    && Tab(mem, root, p) == Some(f) && f in mem && Tab(mem, root, p + [i]) == None
    && Present(e) && FrameOf(e) in mem && Fresh(mem, root, FrameOf(e))
  }

  /** Paths that do not go through the new table are as before. */
  lemma {:induction false} LinkTabOther(mem: Memory, root: Frame, p: seq<nat>, f: Frame, i: nat, e: Entry, q: seq<nat>)
    requires CanLink(mem, root, p, f, i, e) && TablePath(q) && !(p + [i] <= q)
    ensures Tab(Link(mem, f, i, e), root, q) == Tab(mem, root, q)
    decreases |q|
  {
    hide Present, FrameOf, Read, Link;
    if q != [] {
      var q0, j := q[..|q| - 1], q[|q| - 1];
      assert q == q0 + [j];
      assert TablePath(q0) && !(p + [i] <= q0);
      LinkTabOther(mem, root, p, f, i, e, q0);
      var h := Tab(mem, root, q0);
      assert Tab(mem, root, p) == Some(f);
      if h.Some? {
        LinkRead(mem, f, i, e, h.value, j);
        assert h.value == f && j == i ==> q == p + [i];
      }
    }
  }

  /** The new table is where the new entry leads, and nothing is below it. */
  lemma {:induction false} LinkTabBelow(mem: Memory, root: Frame, p: seq<nat>, f: Frame, i: nat, e: Entry, q: seq<nat>)
    requires CanLink(mem, root, p, f, i, e) && TablePath(q) && p + [i] <= q
    ensures Tab(Link(mem, f, i, e), root, q) == if q == p + [i] then Some(FrameOf(e)) else None
    ensures Tab(mem, root, q) == None
    decreases |q|
  {
    hide FrameOf, Read, Link;
    var q0, j := q[..|q| - 1], q[|q| - 1];
    assert q == q0 + [j];
    assert Tab(mem, root, p) == Some(f);
    if q == p + [i] {
      assert q0 == p;
      LinkTabOther(mem, root, p, f, i, e, p);
      LinkRead(mem, f, i, e, f, i);
    } else {
      assert TablePath(q0) && p + [i] <= q0;
      LinkTabBelow(mem, root, p, f, i, e, q0);
      LinkRead(mem, f, i, e, FrameOf(e), j);
      NotPresentZero();
    }
  }

  lemma NotPresentZero()
    ensures !Present(0)
  {
  }

  lemma LinkTab(mem: Memory, root: Frame, p: seq<nat>, f: Frame, i: nat, e: Entry)
    requires CanLink(mem, root, p, f, i, e)
    ensures var mem' := Link(mem, f, i, e);
            && (forall q | TablePath(q) :: Tab(mem', root, q) ==
                  if q == p + [i] then Some(FrameOf(e)) else Tab(mem, root, q))
            && WellFormed(mem') && Unshared(mem', root)
  {
    hide Tab, Read, FrameOf, Present;
    var mem' := Link(mem, f, i, e);
    forall q | TablePath(q)
      ensures Tab(mem', root, q) == if q == p + [i] then Some(FrameOf(e)) else Tab(mem, root, q)
    {
      if p + [i] <= q {
        LinkTabBelow(mem, root, p, f, i, e, q);
      } else {
        LinkTabOther(mem, root, p, f, i, e, q);
      }
    }
  }

  /** Adding a table changes no page's entry: where there was none, the entry
      is now there, and zero. */
  lemma LinkPte(mem: Memory, root: Frame, p: seq<nat>, f: Frame, i: nat, e: Entry, page: seq<nat>)
    requires CanLink(mem, root, p, f, i, e) && Page(page)
    ensures Pte(Link(mem, f, i, e), root, page) == Pte(mem, root, page)
  {
    hide Tab, Read, FrameOf, Present, Link, Unshared;
    LinkTab(mem, root, p, f, i, e);
    var q := page[..3];
    NotLinkedItself(mem, root, p, f, i, e);
    if q == p + [i] {
      LinkRead(mem, f, i, e, FrameOf(e), page[3]);
    } else {
      var t := Tab(mem, root, q);
      if t.Some? {
        assert t.value != FrameOf(e);
        LinkRead(mem, f, i, e, t.value, page[3]);
        LeafTableApart(mem, root, p, f, q);
      }
    }
  }

  lemma NotLinkedItself(mem: Memory, root: Frame, p: seq<nat>, f: Frame, i: nat, e: Entry)
    requires CanLink(mem, root, p, f, i, e)
    ensures FrameOf(e) != f && Tab(mem, root, p + [i]) == None
  {
  }

  lemma LeafTableApart(mem: Memory, root: Frame, p: seq<nat>, f: Frame, q: seq<nat>)
    requires Unshared(mem, root) && TablePath(p) && Tab(mem, root, p) == Some(f) && |p| <= 2
    requires TablePath(q) && |q| == 3
    ensures Tab(mem, root, q) != Some(f)
  {
    hide Tab;
  }

  // ---- Through the window ----

  /** The address at which slot r shows the table at the end of a path. */
  function WindowAddr(r: nat, p: seq<nat>): nat
    requires |p| <= 3
  {
    if |p| == 0 then GetPML4(r)
    else if |p| == 1 then GetPDPT(r, p[0])
    else if |p| == 2 then GetPDir(r, p[0], p[1])
    else GetPTab(r, p[0], p[1], p[2])
  }

  lemma WindowShowsPath(mem: Memory, cur: Frame, r: nat, root: Frame, p: seq<nat>)
    requires WindowOk(mem, cur, r, root) && |p| <= 3 && forall i | 0 <= i < |p| :: p[i] < 512
    ensures Walk(mem, cur, WindowAddr(r, p)) == Tab(mem, root, p)
  {
    hide Walk, GetPML4, GetPDPT, GetPDir, GetPTab;
    if |p| == 0 {
      WindowShows(mem, cur, r, root, 0, 0, 0);
    } else if |p| == 1 {
      WindowShows(mem, cur, r, root, p[0], 0, 0);
      assert p == [p[0]];
    } else if |p| == 2 {
      WindowShows(mem, cur, r, root, p[0], p[1], 0);
      assert p == [p[0], p[1]];
    } else {
      WindowShows(mem, cur, r, root, p[0], p[1], p[2]);
      assert p == [p[0], p[1], p[2]];
    }
  }

  /** The page an address lies in, as the four indices. */
  function PageOf(addr: nat): (page: seq<nat>)
    ensures |page| == 4
  {
    [IndexPML4(addr), IndexPDPT(addr), IndexPageDir(addr), IndexPageTable(addr)]
  }

  /** The current root is no table of the root being changed, unless it is
      that root itself. */
  ghost predicate Apart(mem: Memory, root: Frame, cur: Frame) {
    forall p | TablePath(p) && Tab(mem, root, p) == Some(cur) :: p == []
  }

  /** Frames the page allocator may hand out: no tables, and all different. */
  ghost predicate Pool(mem: Memory, root: Frame, cur: Frame, free: seq<Frame>) {
    && (forall i | 0 <= i < |free| :: free[i] in mem && IsFrame(free[i]) && free[i] != cur && Fresh(mem, root, free[i]))
    && (forall i, j | 0 <= i < j < |free| :: free[i] != free[j])
  }

  /** Everything map_internal relies on, for the root seen through slot r. */
  ghost predicate Ready(mem: Memory, cur: Frame, r: nat, root: Frame, free: seq<Frame>) {
    && WellFormed(mem) && cur in mem && (r == 509 || r == 510)
    && WindowOk(mem, cur, r, root) && Unshared(mem, root) && Apart(mem, root, cur)
    && Pool(mem, root, cur, free)
  }

  /** How many tables are missing on the way to a page. */
  function Missing(mem: Memory, root: Frame, page: seq<nat>): nat
    requires |page| == 4
  {
    if Tab(mem, root, page[..1]) == None then 3
    else if Tab(mem, root, page[..2]) == None then 2
    else if Tab(mem, root, page[..3]) == None then 1
    else 0
  }

  lemma SetWindow(mem: Memory, cur: Frame, r: nat, root: Frame, free: seq<Frame>, p: seq<nat>, f: Frame, i: nat, e: Entry)
    requires Ready(mem, cur, r, root, free) && TablePath(p) && Tab(mem, root, p) == Some(f) && i < 512
    requires p == [] ==> i != 509 && i != 510
    ensures f in mem && WindowOk(Set(mem, f, i, e), cur, r, root)
  {
    hide Present, FrameOf, Read, Fresh, Pool;
    assert Tab(mem, root, []) == Some(root) && TablePath([]);
    SetRead(mem, f, i, e, cur, r);
    SetRead(mem, f, i, e, root, r);
  }

  /** Linking a frame from the pool keeps everything in order. */
  lemma LinkReady(mem: Memory, cur: Frame, r: nat, root: Frame, free: seq<Frame>, p: seq<nat>, f: Frame, i: nat, e: Entry)
    requires Ready(mem, cur, r, root, free) && free != [] && FrameOf(e) == free[0]
    requires CanLink(mem, root, p, f, i, e)
    ensures Ready(Link(mem, f, i, e), cur, r, root, free[1..])
  {
    hide Present, FrameOf, Read, Tab, IsFrame;
    LinkTab(mem, root, p, f, i, e);
    var mem' := Link(mem, f, i, e);
    LinkWindow(mem, cur, r, root, p, f, i, e);
    forall k | 0 <= k < |free| - 1
      ensures free[1..][k] in mem' && IsFrame(free[1..][k]) && free[1..][k] != cur && Fresh(mem', root, free[1..][k])
    {
      assert free[1..][k] == free[k + 1] && free[k + 1] != free[0];
    }
  }

  lemma LinkWindow(mem: Memory, cur: Frame, r: nat, root: Frame, p: seq<nat>, f: Frame, i: nat, e: Entry)
    requires CanLink(mem, root, p, f, i, e) && WindowOk(mem, cur, r, root) && Apart(mem, root, cur)
    requires (r == 509 || r == 510) && FrameOf(e) != cur
    ensures WindowOk(Link(mem, f, i, e), cur, r, root)
  {
    hide Present, FrameOf, Read, Link;
    assert Tab(mem, root, []) == Some(root) && TablePath([]);
    NotLinkedItself(mem, root, p, f, i, e);
    LinkRead(mem, f, i, e, cur, r);
    LinkRead(mem, f, i, e, root, r);
    assert p == [] ==> p + [i] == [i];
  }

  lemma SetReady(mem: Memory, cur: Frame, r: nat, root: Frame, free: seq<Frame>, page: seq<nat>, f: Frame, e: Entry)
    requires Ready(mem, cur, r, root, free) && Page(page) && Tab(mem, root, page[..3]) == Some(f)
    ensures f in mem && Ready(Set(mem, f, page[3], e), cur, r, root, free)
  {
    hide Present, FrameOf, Read, Tab, IsFrame;
    SetLeaf(mem, root, page, f, e);
    SetWindow(mem, cur, r, root, free, page[..3], f, page[3], e);
  }

  // ---- Translation ----

  /** Where an entry leads to. */
  function Leads(e: Entry): Option<Frame> {
    if Present(e) then Some(FrameOf(e)) else None
  }

  /** The walk of the processor ends where the entry of the page leads to. */
  lemma WalkIs(mem: Memory, root: Frame, addr: nat)
    ensures Walk(mem, root, addr) == Leads(Pte(mem, root, PageOf(addr)))
  {
    hide Read, FrameOf, Present, IndexPML4, IndexPDPT, IndexPageDir, IndexPageTable;
    NotPresentZero();
    TabPaths(mem, root, PageOf(addr)[0], PageOf(addr)[1], PageOf(addr)[2]);
    assert PageOf(addr)[..3] == [PageOf(addr)[0], PageOf(addr)[1], PageOf(addr)[2]];
  }
}
