/** The kernel's mapping functions. All table accesses go through virtual
    addresses in the window slots, as the processor would resolve them. */
module VirtMap {
  import opened Options
  import opened PageTables
  import opened PageAccess

  datatype Result = Done | Abort

  /** PAGE_ALIGN: bit 62 tells whether bit 63 belongs to the address. */
  function PageAlign(e: Entry): Entry {
    if e & 0x4000_0000_0000_0000 != 0 then e & 0xFFFF_FFFF_FFFF_F000 else e & 0x7FFF_FFFF_FFFF_F000
  }

  /** An entry made of a frame and flags gives the frame back. */
  lemma PageAlignParts(f: Frame, flags: Entry)
    requires IsFrame(f) && IsFlags(flags)
    ensures PageAlign(f.addr | flags) == f.addr
  {
  }

  function TableFlags(p4: nat): Entry {
    if p4 > 255 then PAGE_WRITE | PAGE_PRESENT else PAGE_USER | PAGE_WRITE | PAGE_PRESENT
  }

  /** The entry that leads to a table for addresses of slot p4. */
  function LinkEntry(f: Frame, p4: nat): Entry {
    f.addr | TableFlags(p4)
  }

  lemma TableEntry(f: Frame, p4: nat)
    requires IsFrame(f)
    ensures Present(LinkEntry(f, p4)) && FrameOf(LinkEntry(f, p4)) == f
  {
    EntryParts(f, TableFlags(p4));
  }

  lemma PathStep(page: seq<nat>, n: nat)
    requires Page(page) && n < 3
    ensures TablePath(page[..n]) && TablePath(page[..n + 1])
    ensures page[..n] + [page[n]] == page[..n + 1] && page[n] < 512
  {
  }

  /** Memory is as before but for the listed frames. */
  ghost predicate SameBut(mem: Memory, mem': Memory, touched: set<Frame>) {
    mem'.Keys == mem.Keys && forall f | f in mem && f !in touched :: mem'[f] == mem[f]
  }

  /** The tables of a root are as before but for some on the way to a page that
      were not there and are now frames from the pool. */
  ghost predicate Added(mem: Memory, mem': Memory, root: Frame, page: seq<nat>, pool: set<Frame>) {
    forall q | TablePath(q) && Tab(mem', root, q) != Tab(mem, root, q) ::
      q <= page && Tab(mem, root, q) == None && Tab(mem', root, q).Some? && Tab(mem', root, q).value in pool
  }

  /** And its window slots are as before. */
  ghost predicate Grown(mem: Memory, mem': Memory, root: Frame, page: seq<nat>, pool: set<Frame>) {
    && Added(mem, mem', root, page, pool)
    && Read(mem', root, 509) == Read(mem, root, 509) && Read(mem', root, 510) == Read(mem, root, 510)
  }

  function Single(f: Option<Frame>): set<Frame> {
    if f.Some? then {f.value} else {}
  }

  /** The tables on the way to a page. */
  function OnPath(mem: Memory, root: Frame, page: seq<nat>): set<Frame>
    requires |page| == 4
  {
    Single(Tab(mem, root, page[..0])) + Single(Tab(mem, root, page[..1]))
    + Single(Tab(mem, root, page[..2])) + Single(Tab(mem, root, page[..3]))
  }

  function Listed(free: seq<Frame>): set<Frame> {
    set i | 0 <= i < |free| :: free[i]
  }

  /** Outside the window slots. */
  predicate Ordinary(addr: nat) {
    IndexPML4(addr) != 509 && IndexPML4(addr) != 510
  }

  /** The processor's walk of any address in the page now ends where the entry
      leads to, and the walk of any other address as before. */
  ghost predicate Translates(mem: Memory, mem': Memory, root: Frame, virt: nat, e: Entry) {
    && (forall a: nat | PageOf(a) == PageOf(virt) :: Walk(mem', root, a) == Leads(e))
    && (forall a: nat | Ordinary(a) && PageOf(a) != PageOf(virt) :: Walk(mem', root, a) == Walk(mem, root, a))
  }

  lemma NowTranslates(mem: Memory, mem': Memory, root: Frame, virt: nat, e: Entry)
    requires Pte(mem', root, PageOf(virt)) == e
    requires forall q | Page(q) && q != PageOf(virt) :: Pte(mem', root, q) == Pte(mem, root, q)
    ensures Translates(mem, mem', root, virt, e)
  {
    hide Walk, Pte, PageOf, IndexPML4, Leads;
    forall a: nat ensures PageOf(a) == PageOf(virt) ==> Walk(mem', root, a) == Leads(e) {
      WalkIs(mem', root, a);
    }
    forall a: nat | Ordinary(a) && PageOf(a) != PageOf(virt) ensures Walk(mem', root, a) == Walk(mem, root, a) {
      IsPage(a);
      WalkIs(mem', root, a);
      WalkIs(mem, root, a);
    }
  }

  /** The processor's walk of every address in a range of pages ends where the
      entry of its page now leads to, and the walk of any other as before. */
  ghost predicate RangeTranslates(mem: Memory, mem': Memory, root: Frame, virt: nat, num: nat) {
    && (forall k, a: nat | 0 <= k < num && PageOf(a) == PageOf(PageAfter(virt, k)) ::
          Walk(mem', root, a) == Leads(Pte(mem', root, PageOf(PageAfter(virt, k)))))
    && (forall a: nat | Ordinary(a) && (forall k | 0 <= k < num :: PageOf(a) != PageOf(PageAfter(virt, k))) ::
          Walk(mem', root, a) == Walk(mem, root, a))
  }

  lemma RangeWalks(mem: Memory, mem': Memory, root: Frame, virt: nat, num: nat)
    requires forall q | Page(q) && (forall k | 0 <= k < num :: q != PageOf(PageAfter(virt, k))) ::
               Pte(mem', root, q) == Pte(mem, root, q)
    ensures RangeTranslates(mem, mem', root, virt, num)
  {
    hide Walk, Pte, PageOf, PageAfter, IndexPML4, Leads;
    forall k, a: nat | 0 <= k < num && PageOf(a) == PageOf(PageAfter(virt, k))
      ensures Walk(mem', root, a) == Leads(Pte(mem', root, PageOf(PageAfter(virt, k))))
    {
      WalkIs(mem', root, a);
    }
    forall a: nat | Ordinary(a) && (forall k | 0 <= k < num :: PageOf(a) != PageOf(PageAfter(virt, k)))
      ensures Walk(mem', root, a) == Walk(mem, root, a)
    {
      IsPage(a);
      WalkIs(mem', root, a);
      WalkIs(mem, root, a);
    }
  }

  /** What the flags of a mapping come to for the processor. The page can be
      written to or reached by user code exactly if the flags say so, where the
      tables that were there already let that through; other pages can be used
      as before; and no page of the higher half becomes one for user code, the
      windows included if their slots are not. */
  ghost predicate Granted(mem: Memory, mem': Memory, root: Frame, virt: nat, flags: Entry) {
    && (Carry(mem, root, PageOf(virt), PAGE_WRITE) ==>
          (Allows(mem', root, PageOf(virt), PAGE_WRITE) <==> Present(flags) && Has(flags, PAGE_WRITE)))
    && (Carry(mem, root, PageOf(virt), PAGE_USER) ==>
          (Allows(mem', root, PageOf(virt), PAGE_USER) <==> Present(flags) && Has(flags, PAGE_USER)))
    && (CarryNoNX(mem, root, PageOf(virt)) ==>
          (Executable(mem', root, PageOf(virt)) <==> Present(flags) && !Has(flags, PAGE_NX)))
    && (forall a: nat | Ordinary(a) && PageOf(a) != PageOf(virt) ::
          && (Allows(mem', root, PageOf(a), PAGE_USER) <==> Allows(mem, root, PageOf(a), PAGE_USER))
          && (Allows(mem', root, PageOf(a), PAGE_WRITE) <==> Allows(mem, root, PageOf(a), PAGE_WRITE))
          && (Executable(mem', root, PageOf(a)) <==> Executable(mem, root, PageOf(a))))
    && (forall a: nat | IndexPML4(a) > 255 && (Ordinary(a) || !Has(Read(mem, root, IndexPML4(a)), PAGE_USER)) ::
          Allows(mem', root, PageOf(a), PAGE_USER) ==> Allows(mem, root, PageOf(a), PAGE_USER))
  }

  lemma FlagsCount(f: Frame, flags: Entry)
    requires IsFrame(f)
    ensures Present(f.addr | flags) == Present(flags) && Has(f.addr | flags, PAGE_WRITE) == Has(flags, PAGE_WRITE)
    ensures Has(f.addr | flags, PAGE_USER) == Has(flags, PAGE_USER) && Has(f.addr | flags, PAGE_NX) == Has(flags, PAGE_NX)
  {
    hide Has, Present, IsFrame;
    PresentPart(f, flags);
    WriteCounts(f, flags);
    UserCounts(f, flags);
    NXCounts(f, flags);
  }

  lemma WriteCounts(f: Frame, flags: Entry)
    requires IsFrame(f)
    ensures Has(f.addr | flags, PAGE_WRITE) == Has(flags, PAGE_WRITE)
  {
  }

  lemma UserCounts(f: Frame, flags: Entry)
    requires IsFrame(f)
    ensures Has(f.addr | flags, PAGE_USER) == Has(flags, PAGE_USER)
  {
  }

  lemma NXCounts(f: Frame, flags: Entry)
    requires IsFrame(f)
    ensures Has(f.addr | flags, PAGE_NX) == Has(flags, PAGE_NX)
  {
  }

  lemma NowGranted(mem: Memory, mem': Memory, root: Frame, virt: nat, phys: Frame, flags: Entry)
    requires IsFrame(phys) && Ordinary(virt) && !(IndexPML4(virt) > 255 && flags & PAGE_USER != 0)
    requires Mapped(mem, mem', root, PageOf(virt), phys.addr | flags)
    requires Read(mem', root, 509) == Read(mem, root, 509) || !Has(Read(mem', root, 509), PAGE_USER)
    requires Read(mem', root, 510) == Read(mem, root, 510)
    ensures Granted(mem, mem', root, virt, flags)
  {
    hide Allows, Executable, Carry, CarryNoNX, Mapped, Has, Present, IsFrame, PageOf, IndexPML4, Read;
    IsPage(virt);
    FlagsCount(phys, flags);
    NotForUser(virt, flags);
    MappedAllows(mem, mem', root, PageOf(virt), phys.addr | flags);
    forall a: nat | Ordinary(a) && PageOf(a) != PageOf(virt)
      ensures Allows(mem', root, PageOf(a), PAGE_USER) == Allows(mem, root, PageOf(a), PAGE_USER)
      ensures Allows(mem', root, PageOf(a), PAGE_WRITE) == Allows(mem, root, PageOf(a), PAGE_WRITE)
      ensures Executable(mem', root, PageOf(a)) == Executable(mem, root, PageOf(a))
    {
      IsPage(a);
      OthersAllow(mem, mem', root, PageOf(virt), phys.addr | flags, PageOf(a), PAGE_USER);
      OthersAllow(mem, mem', root, PageOf(virt), phys.addr | flags, PageOf(a), PAGE_WRITE);
    }
    forall a: nat | Ordinary(a) && PageOf(a) == PageOf(virt) ensures IndexPML4(a) == IndexPML4(virt) {
      IsPage(a);
    }
    forall a: nat | !Ordinary(a) && !Has(Read(mem, root, IndexPML4(a)), PAGE_USER)
      ensures !Allows(mem', root, PageOf(a), PAGE_USER)
    {
      SlotForbids(mem', root, a);
    }
  }

  lemma NotForUser(virt: nat, flags: Entry)
    requires !(IndexPML4(virt) > 255 && flags & PAGE_USER != 0)
    ensures IndexPML4(virt) > 255 ==> !Has(flags, PAGE_USER)
  {
    hide IndexPML4;
  }

  lemma SlotForbids(mem: Memory, root: Frame, a: nat)
    requires !Has(Read(mem, root, IndexPML4(a)), PAGE_USER)
    ensures !Allows(mem, root, PageOf(a), PAGE_USER)
  {
    hide Has, Present, Read, IndexPML4, IndexPDPT, IndexPageDir, IndexPageTable;
    assert PageOf(a)[..1] == [IndexPML4(a)];
    assert EntryAt(mem, root, PageOf(a)[..1]) == Read(mem, root, IndexPML4(a));
  }

  class Mmu {
    const cr3: Frame
    var mem: Memory
    var free: seq<Frame>

    constructor (cr3: Frame, mem: Memory, free: seq<Frame>)
      ensures this.cr3 == cr3 && this.mem == mem && this.free == free
    {
      this.cr3, this.mem, this.free := cr3, mem, free;
    }

    ghost predicate Sees(r: nat, root: Frame)
      reads this
    {
      Ready(mem, cr3, r, root, free)
    }

    method Load(addr: nat, i: nat) returns (e: Entry)
      requires Walk(mem, cr3, addr).Some?
      ensures e == Read(mem, Walk(mem, cr3, addr).value, i)
    {
      e := Read(mem, Walk(mem, cr3, addr).value, i);
    }

    method Store(addr: nat, i: nat, e: Entry)
      requires var f := Walk(mem, cr3, addr); f.Some? && f.value in mem && i < |mem[f.value]|
      modifies `mem
      ensures mem == Set(old(mem), Walk(old(mem), cr3, addr).value, i, e)
    {
      mem := Set(mem, Walk(mem, cr3, addr).value, i, e);
    }

    method ClearPage(addr: nat)
      requires Walk(mem, cr3, addr).Some?
      modifies `mem
      ensures mem == old(mem)[Walk(old(mem), cr3, addr).value := Zeros()]
    {
      mem := mem[Walk(mem, cr3, addr).value := Zeros()];
    }

    /** Links a fresh frame as the table for the first n + 1 indices of a page:
        the entry is stored first, and the frame is cleared through it. */
    method LinkTable(page: seq<nat>, n: nat, r: nat, ghost root: Frame)
      requires Sees(r, root) && Page(page) && n < 3 && free != []
      requires Tab(mem, root, page[..n]).Some? && Tab(mem, root, page[..n + 1]) == None
      modifies `mem, `free
      ensures Sees(r, root) && free == old(free)[1..]
      ensures Tab(mem, root, page[..n + 1]) == Some(old(free)[0])
      ensures SameBut(old(mem), mem, {old(Tab(mem, root, page[..n])).value, old(free)[0]})
      ensures Grown(old(mem), mem, root, page, {old(free)[0]})
      ensures forall q | TablePath(q) && q != page[..n + 1] :: Tab(mem, root, q) == old(Tab(mem, root, q))
      ensures forall q | Page(q) :: Pte(mem, root, q) == old(Pte(mem, root, q))
      ensures OpenedOne(old(mem), mem, root, page[..n + 1], page[0])
    {
      hide Walk, WindowAddr, Tab, Pte, Present, FrameOf, Ready, TablePath, TableFlags, Read, Link, Set, CanLink, Fresh, Zeros, LinkEntry,
           OpenedOne;
      PathStep(page, n);
      ghost var p, f := page[..n], Tab(mem, root, page[..n]).value;
      var i := page[n];
      var e := LinkEntry(free[0], page[0]);
      PoolHead(mem, cr3, r, root, free, page[0]);
      LinkAllowed(mem, cr3, r, root, free, p, f, i, e);
      LinkFacts(mem, cr3, r, root, free, p, f, i, e);
      LinkOpens(mem, cr3, r, root, free, p, f, i, page[0]);
      Shown(mem, cr3, r, root, free, p);
      Store(WindowAddr(r, page[..n]), i, e);
      ClearPage(WindowAddr(r, page[..n + 1]));
      free := free[1..];
    }

    /** Makes sure the table for the first n + 1 indices of a page exists. No
        page's entry changes. */
    method EnsureTable(page: seq<nat>, n: nat, r: nat, ghost root: Frame) returns (res: Result)
      requires Sees(r, root) && Page(page) && n < 3 && Tab(mem, root, page[..n]).Some?
      modifies `mem, `free
      ensures res == Done <==> old(Tab(mem, root, page[..n + 1])).Some? || old(free) != []
      ensures res == Done ==> Sees(r, root) && Tab(mem, root, page[..n + 1]).Some?
      ensures res == Done ==> forall q | Page(q) :: Pte(mem, root, q) == old(Pte(mem, root, q))
      ensures res == Done ==>
                forall q | TablePath(q) && q != page[..n + 1] :: Tab(mem, root, q) == old(Tab(mem, root, q))
      ensures res == Done ==> free == if old(Tab(mem, root, page[..n + 1])).Some? then old(free) else old(free)[1..]
      ensures res == Done ==> if old(Tab(mem, root, page[..n + 1])).Some? then mem == old(mem)
                              else && Tab(mem, root, page[..n + 1]) == Some(old(free)[0])
                                   && SameBut(old(mem), mem, {old(Tab(mem, root, page[..n])).value, old(free)[0]})
                                   && Grown(old(mem), mem, root, page, {old(free)[0]})
      ensures res == Done ==> OpenedOne(old(mem), mem, root, page[..n + 1], page[0])
    {
      hide Walk, WindowAddr, Tab, Pte, Present, FrameOf, Ready, TablePath, Read, OpenedOne;
      PathStep(page, n);
      Shown(mem, cr3, r, root, free, page[..n]);
      StaysOpen(mem, root, page, n);
      EntryShown(mem, root, page, n);
      var e := Load(WindowAddr(r, page[..n]), page[n]);
      if !Present(e) {
        if free == [] {
          return Abort;
        }
        LinkTable(page, n, r, root);
      }
      return Done;
    }

    /** Writes the entry of a page whose table is there. */
    method StoreLeaf(page: seq<nat>, e: Entry, r: nat, ghost root: Frame)
      requires Sees(r, root) && Page(page) && Tab(mem, root, page[..3]).Some?
      modifies `mem
      ensures Sees(r, root) && Pte(mem, root, page) == e
      ensures forall q | Page(q) && q != page :: Pte(mem, root, q) == old(Pte(mem, root, q))
      ensures forall q | TablePath(q) :: Tab(mem, root, q) == old(Tab(mem, root, q))
      ensures SameBut(old(mem), mem, {old(Tab(mem, root, page[..3])).value})
      ensures Grown(old(mem), mem, root, page, {})
      ensures Rewritten(old(mem), mem, root, page, e)
    {
      hide Walk, WindowAddr, Tab, Pte, Ready, Rewritten;
      Shown(mem, cr3, r, root, free, page[..3]);
      LeafEntry(mem, cr3, r, root, free, page, e);
      LeafFacts(mem, cr3, r, root, free, page, e);
      Store(WindowAddr(r, page[..3]), page[3], e);
    }

    /** The entry of a page whose table is there. */
    method LoadLeaf(page: seq<nat>, r: nat, ghost root: Frame) returns (e: Entry)
      requires Sees(r, root) && Page(page) && Tab(mem, root, page[..3]).Some?
      ensures e == Pte(mem, root, page)
    {
      hide Walk, WindowAddr, Tab, Ready, Read;
      Shown(mem, cr3, r, root, free, page[..3]);
      e := Load(WindowAddr(r, page[..3]), page[3]);
    }

    /** Maps a page of the root seen through slot r. The entry of that page
        becomes what was asked for, and no other page's entry changes. It goes
        through exactly when the page is outside the window slots, is not a
        user page in the higher half, there are frames for the tables that are
        missing, and nothing is there already unless it may be overwritten. */
    method MapInternal(virt: nat, phys: Frame, flags: Entry, overwrite: bool, r: nat, ghost root: Frame)
      returns (res: Result)
      requires Sees(r, root)
      modifies `mem, `free
      ensures res == Done <==>
              && IndexPML4(virt) != 509 && IndexPML4(virt) != 510
              && !(IndexPML4(virt) > 255 && flags & PAGE_USER != 0)
              && |old(free)| >= old(Missing(mem, root, PageOf(virt)))
              && (overwrite || !Present(old(Pte(mem, root, PageOf(virt)))))
      ensures res == Done ==> Sees(r, root) && Tab(mem, root, PageOf(virt)[..3]).Some?
      ensures res == Done ==> Pte(mem, root, PageOf(virt)) == phys.addr | flags
      ensures res == Done ==> Translates(old(mem), mem, root, virt, phys.addr | flags)
      ensures res == Done ==> forall q | Page(q) && q != PageOf(virt) :: Pte(mem, root, q) == old(Pte(mem, root, q))
      ensures res == Done ==> free == old(free)[old(Missing(mem, root, PageOf(virt)))..]
      ensures res == Done ==> SameBut(old(mem), mem, old(OnPath(mem, root, PageOf(virt)) + Listed(free)))
      ensures res == Done ==> OnPath(mem, root, PageOf(virt)) <= old(OnPath(mem, root, PageOf(virt)) + Listed(free))
      ensures res == Done ==> Grown(old(mem), mem, root, PageOf(virt), old(Listed(free)))
      ensures res == Done ==> Mapped(old(mem), mem, root, PageOf(virt), phys.addr | flags)
      ensures res == Done && IsFrame(phys) ==> Granted(old(mem), mem, root, virt, flags)
    {
      hide Walk, WindowAddr, Tab, Pte, Present, FrameOf, Ready, PageOf, IndexPML4, Translates, Read, IsFrame, Opened, Rewritten,
           Mapped, Granted;
      var p4 := IndexPML4(virt);
      if p4 == 510 || p4 == 509 {
        return Abort;
      }
      if p4 > 255 && flags & PAGE_USER != 0 {
        return Abort;
      }
      var page := PageOf(virt);
      IsPage(virt);
      res := EnsureTables(page, r, root);
      if res == Abort {
        return;
      }
      var e := LoadLeaf(page, r, root);
      if !overwrite && Present(e) {
        return Abort;
      }
      ghost var between := mem;
      StoreLeaf(page, phys.addr | flags, r, root);
      NowTranslates(old(mem), mem, root, virt, phys.addr | flags);
      OpenedMapped(old(mem), between, mem, root, page, phys.addr | flags);
      if IsFrame(phys) {
        NowGranted(old(mem), mem, root, virt, phys, flags);
      }
    }

    /** All three tables on the way to a page. */
    method EnsureTables(page: seq<nat>, r: nat, ghost root: Frame) returns (res: Result)
      requires Sees(r, root) && Page(page)
      modifies `mem, `free
      ensures res == Done <==> |old(free)| >= old(Missing(mem, root, page))
      ensures res == Done ==> Sees(r, root) && Tab(mem, root, page[..3]).Some?
      ensures res == Done ==> free == old(free)[old(Missing(mem, root, page))..]
      ensures res == Done ==> forall q | Page(q) :: Pte(mem, root, q) == old(Pte(mem, root, q))
      ensures res == Done ==> SameBut(old(mem), mem, old(OnPath(mem, root, page) + Listed(free)))
      ensures res == Done ==> OnPath(mem, root, page) <= old(OnPath(mem, root, page) + Listed(free))
      ensures res == Done ==> Grown(old(mem), mem, root, page, old(Listed(free)))
      ensures res == Done ==> Opened(old(mem), mem, root, page, 3)
    {
      hide Walk, WindowAddr, Tab, Pte, Present, FrameOf, Ready, Opened, OpenedOne;
      RootTable(mem, root, page);
      Steps(mem, root, page);
      OpenedNone(mem, root, page);
      res := EnsureTable(page, 0, r, root);
      if res == Abort {
        return;
      }
      ghost var mem1 := mem;
      OpenedNext(old(mem), old(mem), mem1, root, page, 0);
      Steps(mem, root, page);
      res := EnsureTable(page, 1, r, root);
      if res == Abort {
        return;
      }
      ghost var mem2 := mem;
      OpenedNext(old(mem), mem1, mem2, root, page, 1);
      Steps(mem, root, page);
      res := EnsureTable(page, 2, r, root);
      if res == Done {
        OpenedNext(old(mem), mem2, mem, root, page, 2);
      }
    }

    /** Checks level by level whether the page table of a page is there. */
    method HasTable(page: seq<nat>, r: nat, ghost root: Frame) returns (there: bool)
      requires Sees(r, root) && Indices(page)
      ensures there <==> Tab(mem, root, page[..3]).Some?
    {
      hide Walk, WindowAddr, Tab, Present, FrameOf, Ready, Read;
      RootTable(mem, root, page);
      for n := 0 to 3
        invariant Tab(mem, root, page[..n]).Some?
      {
        EntryShown(mem, root, page, n);
        WindowAt(mem, cr3, r, root, free, page[..n]);
        var e := Load(WindowAddr(r, page[..n]), page[n]);
        if !Present(e) {
          NoneBelow(mem, root, page, n + 1);
          return false;
        }
      }
      return true;
    }

    /** The entry of a page, if its table is there. */
    method FindLeaf(page: seq<nat>, r: nat, ghost root: Frame) returns (e: Option<Entry>)
      requires Sees(r, root) && Indices(page)
      ensures e == if Tab(mem, root, page[..3]).Some? then Some(Pte(mem, root, page)) else None
      ensures e == None ==> Pte(mem, root, page) == 0
    {
      hide Walk, WindowAddr, Tab, Present, FrameOf, Ready, Read;
      var there := HasTable(page, r, root);
      if !there {
        return None;
      }
      WindowAt(mem, cr3, r, root, free, page[..3]);
      var v := Load(WindowAddr(r, page[..3]), page[3]);
      e := Some(v);
    }

    /** The flags in a page's entry, present or not. */
    method GetPageFlags(virt: nat, r: nat, ghost root: Frame) returns (flags: Entry)
      requires Sees(r, root)
      ensures flags == FlagsOf(Pte(mem, root, PageOf(virt)))
    {
      hide Tab, Pte, Ready, PageOf;
      AreIndices(virt);
      var e := FindLeaf(PageOf(virt), r, root);
      flags := if e.Some? then e.value & (PAGE_NX | 0xFFF) else 0;
    }

    /** The frame address a page is mapped to; aborts if it is not mapped. */
    method GetPhysAddr(virt: nat, r: nat, ghost root: Frame) returns (phys: Option<Entry>)
      requires Sees(r, root)
      ensures phys == if Present(Pte(mem, root, PageOf(virt))) then Some(PageAlign(Pte(mem, root, PageOf(virt)))) else None
    {
      hide Tab, Pte, Ready, PageOf, PageAlign;
      AreIndices(virt);
      NotPresentZero();
      var e := FindLeaf(PageOf(virt), r, root);
      if e == None || !Present(e.value) {
        return None;
      }
      phys := Some(PageAlign(e.value));
    }

    /** Whether all pages of a range are mapped. */
    method IsMapped(virt: nat, num: nat, r: nat, ghost root: Frame) returns (yes: bool)
      requires Sees(r, root)
      ensures yes <==> forall k | 0 <= k < num :: Present(Pte(mem, root, PageOf(PageAfter(virt, k))))
    {
      hide Tab, Pte, Ready, PageOf, Present;
      NotPresentZero();
      for i := 0 to num
        invariant forall k | 0 <= k < i :: Present(Pte(mem, root, PageOf(PageAfter(virt, k))))
      {
        AreIndices(PageAfter(virt, i));
        var e := FindLeaf(PageOf(PageAfter(virt, i)), r, root);
        if e == None || !Present(e.value) {
          return false;
        }
      }
      return true;
    }

    /** Unmaps one page: a present entry is cleared. What is not present is
        left alone if so asked, or if marked lazy loses that mark; anything
        else, and the slot of the tables themselves, aborts. */
    method UnmapPage(virt: nat, ignore: bool, r: nat, ghost root: Frame) returns (res: Result)
      requires Sees(r, root) && (IndexPML4(virt) == 509 ==> !Present(Read(mem, root, 509)))
      modifies `mem
      ensures res == Done <==> IndexPML4(virt) != 510 && Unmapped(old(Pte(mem, root, PageOf(virt))), ignore).Some?
      ensures res == Done ==> Sees(r, root)
      ensures res == Done ==> Some(Pte(mem, root, PageOf(virt))) == Unmapped(old(Pte(mem, root, PageOf(virt))), ignore)
      ensures res == Done && !ignore && !Present(old(Pte(mem, root, PageOf(virt)))) ==>
                LosesMark(old(Pte(mem, root, PageOf(virt))), Pte(mem, root, PageOf(virt)))
      ensures res == Done ==> Translates(old(mem), mem, root, virt, Pte(mem, root, PageOf(virt)))
      ensures res == Done ==> forall q | Page(q) && q != PageOf(virt) :: Pte(mem, root, q) == old(Pte(mem, root, q))
      ensures res == Done ==> SameBut(old(mem), mem, old(OnPath(mem, root, PageOf(virt))))
      ensures res == Done ==> Grown(old(mem), mem, root, PageOf(virt), {})
    {
      hide Tab, Pte, Ready, PageOf, Present, IndexPML4, LosesMark;
      if IndexPML4(virt) == 510 {
        return Abort;
      }
      AreIndices(virt);
      ZeroUnmapped();
      var page := PageOf(virt);
      if IndexPML4(virt) == 509 {
        NothingThere(mem, root, virt);
      } else {
        IsPage(virt);
      }
      var e := FindLeaf(page, r, root);
      if e == None {
        NowTranslates(mem, mem, root, virt, 0);
        return if ignore then Done else Abort;
      }
      if !Present(e.value) {
        if ignore {
          NowTranslates(mem, mem, root, virt, e.value);
          return Done;
        }
        if IsLazy(e.value) {
          MarkLost(e.value);
          StoreLeaf(page, NotLazy(e.value), r, root);
          NowTranslates(old(mem), mem, root, virt, NotLazy(e.value));
          return Done;
        }
        return Abort;
      }
      StoreLeaf(page, 0, r, root);
      NowTranslates(old(mem), mem, root, virt, 0);
      return Done;
    }

    /** Unmaps a range of pages: afterwards every page in it is as UnmapPage
        leaves it, and every other page is as it was. */
    method UnmapAddress(virt: nat, num: nat, ignore: bool, r: nat, ghost root: Frame) returns (res: Result)
      requires Sees(r, root) && num <= 0x10_0000_0000
      requires forall k | 0 <= k < num :: IndexPML4(PageAfter(virt, k)) == 509 ==> !Present(Read(mem, root, 509))
      modifies `mem
      ensures res == Done <==> forall k | 0 <= k < num ::
                IndexPML4(PageAfter(virt, k)) != 510 &&
                Unmapped(old(Pte(mem, root, PageOf(PageAfter(virt, k)))), ignore).Some?
      ensures res == Done ==> Sees(r, root)
      ensures res == Done ==> forall k | 0 <= k < num ::
                Some(Pte(mem, root, PageOf(PageAfter(virt, k)))) ==
                Unmapped(old(Pte(mem, root, PageOf(PageAfter(virt, k)))), ignore)
      ensures res == Done ==> forall q | Page(q) && (forall k | 0 <= k < num :: q != PageOf(PageAfter(virt, k))) ::
                Pte(mem, root, q) == old(Pte(mem, root, q))
      ensures res == Done ==> RangeTranslates(old(mem), mem, root, virt, num)
    {
      hide Tab, Pte, Ready, PageOf, Present, IndexPML4, PageAfter, Unmapped, Read, Added, RangeTranslates, Translates;
      for i := 0 to num
        invariant Sees(r, root) && Read(mem, root, 509) == old(Read(mem, root, 509))
        invariant forall k | 0 <= k < i :: IndexPML4(PageAfter(virt, k)) != 509 ==> Page(PageOf(PageAfter(virt, k)))
        invariant forall k | 0 <= k < i ::
                    IndexPML4(PageAfter(virt, k)) != 510 &&
                    Unmapped(old(Pte(mem, root, PageOf(PageAfter(virt, k)))), ignore).Some?
        invariant forall k | 0 <= k < i ::
                    Some(Pte(mem, root, PageOf(PageAfter(virt, k)))) ==
                    Unmapped(old(Pte(mem, root, PageOf(PageAfter(virt, k)))), ignore)
        invariant forall q | Page(q) && (forall k | 0 <= k < i :: q != PageOf(PageAfter(virt, k))) ::
                    Pte(mem, root, q) == old(Pte(mem, root, q))
      {
        PagesDiffer(virt, num, i);
        if IndexPML4(PageAfter(virt, i)) == 509 {
          NothingThere(mem, root, PageAfter(virt, i));
          NothingThere(old(mem), root, PageAfter(virt, i));
        } else if IndexPML4(PageAfter(virt, i)) != 510 {
          IsPage(PageAfter(virt, i));
        }
        ghost var was := mem;
        res := UnmapPage(PageAfter(virt, i), ignore, r, root);
        if res == Abort {
          return;
        }
        forall k | 0 <= k < i && IndexPML4(PageAfter(virt, k)) == 509
          ensures Pte(mem, root, PageOf(PageAfter(virt, k))) == Pte(was, root, PageOf(PageAfter(virt, k)))
        {
          NothingThere(mem, root, PageAfter(virt, k));
          NothingThere(was, root, PageAfter(virt, k));
        }
      }
      RangeWalks(old(mem), mem, root, virt, num);
      return Done;
    }
  }

  ghost predicate Indices(page: seq<nat>) {
    |page| == 4 && forall i | 0 <= i < 4 :: page[i] < 512
  }

  lemma AreIndices(virt: nat)
    ensures Indices(PageOf(virt))
  {
    hide IndexPML4, IndexPDPT, IndexPageDir, IndexPageTable;
  }

  function PageAfter(virt: nat, k: nat): nat {
    virt + k * PAGE_SIZE
  }

  predicate IsLazy(e: Entry) { e & PAGE_COPY_ON_WRITE != 0 }

  function NotLazy(e: Entry): Entry { e & !PAGE_COPY_ON_WRITE }

  /** The mark is gone, and every other bit as before. */
  predicate LosesMark(e: Entry, e': Entry) {
    !Has(e', PAGE_COPY_ON_WRITE) && e' | PAGE_COPY_ON_WRITE == e | PAGE_COPY_ON_WRITE
  }

  lemma MarkLost(e: Entry)
    ensures LosesMark(e, NotLazy(e))
  {
  }

  /** What unmapping makes of an entry, or None where it aborts. */
  function Unmapped(e: Entry, ignore: bool): Option<Entry> {
    if Present(e) then Some(0)
    else if ignore then Some(e)
    else if IsLazy(e) then Some(NotLazy(e))
    else None
  }

  lemma ZeroUnmapped()
    ensures !Present(0) && !IsLazy(0)
  {
  }

  /** No table is reached through an empty slot. */
  lemma NothingThere(mem: Memory, root: Frame, virt: nat)
    requires IndexPML4(virt) == 509 && !Present(Read(mem, root, 509))
    ensures Tab(mem, root, PageOf(virt)[..3]) == None && Pte(mem, root, PageOf(virt)) == 0
  {
    hide Read, Present, IndexPML4, IndexPDPT, IndexPageDir, IndexPageTable;
    TabPaths(mem, root, PageOf(virt)[0], PageOf(virt)[1], PageOf(virt)[2]);
    assert PageOf(virt)[..3] == [PageOf(virt)[0], PageOf(virt)[1], PageOf(virt)[2]];
  }

  lemma NoneBelow(mem: Memory, root: Frame, page: seq<nat>, n: nat)
    requires |page| == 4 && n <= 3 && Tab(mem, root, page[..n]) == None
    ensures Tab(mem, root, page[..3]) == None
    decreases 3 - n
  {
    hide Tab;
    if n < 3 {
      assert page[..n + 1] == page[..n] + [page[n]];
      TabStep(mem, root, page[..n], page[n]);
      NoneBelow(mem, root, page, n + 1);
    }
  }

  lemma WindowAt(mem: Memory, cur: Frame, r: nat, root: Frame, free: seq<Frame>, p: seq<nat>)
    requires Ready(mem, cur, r, root, free) && |p| <= 3 && forall i | 0 <= i < |p| :: p[i] < 512
    ensures Walk(mem, cur, WindowAddr(r, p)) == Tab(mem, root, p)
  {
    hide Walk, WindowAddr, Tab, Pool, Apart, Unshared;
    WindowShowsPath(mem, cur, r, root, p);
  }

  /** Pages at most 2^36 apart are different pages. */
  lemma PagesDiffer(virt: nat, num: nat, i: nat)
    requires i < num <= 0x10_0000_0000
    ensures forall k | 0 <= k < i :: PageOf(PageAfter(virt, k)) != PageOf(PageAfter(virt, i))
  {
    forall k | 0 <= k < i
      ensures PageOf(PageAfter(virt, k)) != PageOf(PageAfter(virt, i))
    {
      PageNumber(virt, k);
      PageNumber(virt, i);
      hide PageOf;
      SmallShift(virt / PAGE_SIZE, k, i);
    }
  }

  function Number(page: seq<nat>): nat
    requires |page| == 4
  {
    page[0] * 0x800_0000 + page[1] * 0x4_0000 + page[2] * 0x200 + page[3]
  }

  lemma PageNumber(virt: nat, k: nat)
    ensures Number(PageOf(PageAfter(virt, k))) == (virt / PAGE_SIZE + k) % 0x10_0000_0000
  {
    var addr := PageAfter(virt, k);
    var n := virt / PAGE_SIZE + k;
    assert addr / PAGE_SIZE == n;
    Levels(addr);
    Digits(n);
  }

  lemma Levels(addr: nat)
    ensures addr / PTAB_SIZE == addr / PAGE_SIZE / 512
    ensures addr / PDIR_SIZE == addr / PAGE_SIZE / 512 / 512
    ensures addr / PDPT_SIZE == addr / PAGE_SIZE / 512 / 512 / 512
  {
  }

  lemma Digits(n: nat)
    ensures n / 512 / 512 / 512 % 512 * 0x800_0000 + n / 512 / 512 % 512 * 0x4_0000 + n / 512 % 512 * 0x200 + n % 512
            == n % 0x10_0000_0000
  {
  }

  lemma SmallShift(n: nat, k: nat, i: nat)
    requires k < i < 0x10_0000_0000
    ensures (n + k) % 0x10_0000_0000 != (n + i) % 0x10_0000_0000
  {
  }

  lemma RootTable(mem: Memory, root: Frame, page: seq<nat>)
    requires |page| == 4
    ensures Tab(mem, root, page[..0]) == Some(root)
  {
  }

  /** A table below a missing one is missing. */
  lemma Steps(mem: Memory, root: Frame, page: seq<nat>)
    requires Page(page)
    ensures Tab(mem, root, page[..1]) == None ==> Tab(mem, root, page[..2]) == None
    ensures Tab(mem, root, page[..2]) == None ==> Tab(mem, root, page[..3]) == None
    ensures TablePath(page[..1]) && TablePath(page[..2]) && TablePath(page[..3])
    ensures page[..1] != page[..2] && page[..1] != page[..3] && page[..2] != page[..3]
  {
    hide Tab;
    PathStep(page, 0);
    PathStep(page, 1);
    PathStep(page, 2);
    TabStep(mem, root, page[..1], page[1]);
    TabStep(mem, root, page[..2], page[2]);
    assert |page[..1]| == 1 && |page[..2]| == 2 && |page[..3]| == 3;
  }

  lemma IsPage(virt: nat)
    requires IndexPML4(virt) != 509 && IndexPML4(virt) != 510
    ensures Page(PageOf(virt)) && PageOf(virt)[0] == IndexPML4(virt)
  {
    hide IndexPML4, IndexPDPT, IndexPageDir, IndexPageTable;
  }

  lemma LeafNotRoot(mem: Memory, root: Frame, page: seq<nat>, f: Frame)
    requires Unshared(mem, root) && Page(page) && Tab(mem, root, page[..3]) == Some(f)
    ensures f != root
  {
    assert Tab(mem, root, []) == Some(root) && TablePath([]);
  }

  lemma LeafEntry(mem: Memory, cur: Frame, r: nat, root: Frame, free: seq<Frame>, page: seq<nat>, e: Entry)
    requires Ready(mem, cur, r, root, free) && Page(page) && Tab(mem, root, page[..3]).Some?
    ensures var f := Tab(mem, root, page[..3]).value;
            f in mem && page[3] < |mem[f]| && Rewritten(mem, Set(mem, f, page[3], e), root, page, e)
  {
    hide Tab, Set, Pool, Apart, WindowOk, Read, Rewritten;
    SetEntry(mem, root, page, Tab(mem, root, page[..3]).value, e);
  }

  lemma LinkPasses(f: Frame, p4: nat)
    requires IsFrame(f)
    ensures Passes(LinkEntry(f, p4), p4)
  {
    hide Has, Present, IsFrame, TableFlags;
    FlagsOfTables(p4);
    FlagsCount(f, TableFlags(p4));
  }

  lemma FlagsOfTables(p4: nat)
    ensures var flags := TableFlags(p4);
            Present(flags) && Has(flags, PAGE_WRITE) && !Has(flags, PAGE_NX) && (Has(flags, PAGE_USER) <==> p4 <= 255)
  {
  }

  lemma LinkOpens(mem: Memory, cur: Frame, r: nat, root: Frame, free: seq<Frame>, p: seq<nat>, f: Frame, i: nat, p4: nat)
    requires Ready(mem, cur, r, root, free) && free != []
    requires CanLink(mem, root, p, f, i, LinkEntry(free[0], p4))
    ensures OpenedOne(mem, Link(mem, f, i, LinkEntry(free[0], p4)), root, p + [i], p4)
  {
    hide Tab, Present, FrameOf, Fresh, Read, Link, LinkEntry, Passes, IsFrame, Unshared, Apart, WindowOk;
    LinkPasses(free[0], p4);
    LinkEntryAt(mem, root, p, f, i, LinkEntry(free[0], p4));
    Absent(mem, root, p, i);
  }

  /** An entry is there exactly if the table it leads to is. */
  lemma Absent(mem: Memory, root: Frame, p: seq<nat>, i: nat)
    ensures Present(EntryAt(mem, root, p + [i])) <==> Tab(mem, root, p + [i]).Some?
  {
    hide Tab, Present, Read, FrameOf;
    assert (p + [i])[..|p|] == p;
    NotPresentZero();
    TabStep(mem, root, p, i);
  }

  lemma StaysOpen(mem: Memory, root: Frame, page: seq<nat>, n: nat)
    requires Page(page) && n < 3
    ensures Tab(mem, root, page[..n + 1]).Some? ==> OpenedOne(mem, mem, root, page[..n + 1], page[0])
  {
    hide Tab, Present, Read, FrameOf, EntryAt;
    assert page[..n + 1] == page[..n] + [page[n]];
    Absent(mem, root, page[..n], page[n]);
  }

  lemma LeafFacts(mem: Memory, cur: Frame, r: nat, root: Frame, free: seq<Frame>, page: seq<nat>, e: Entry)
    requires Ready(mem, cur, r, root, free) && Page(page) && Tab(mem, root, page[..3]).Some?
    ensures var f := Tab(mem, root, page[..3]).value;
            && f in mem && page[3] < |mem[f]|
            && var mem' := Set(mem, f, page[3], e);
               && Ready(mem', cur, r, root, free)
               && Pte(mem', root, page) == e
               && (forall q | Page(q) && q != page :: Pte(mem', root, q) == Pte(mem, root, q))
               && (forall q | TablePath(q) :: Tab(mem', root, q) == Tab(mem, root, q))
               && Grown(mem, mem', root, page, {})
  {
    hide Tab, Pte, Set, Pool, Apart, WindowOk, Read;
    var f := Tab(mem, root, page[..3]).value;
    LeafNotRoot(mem, root, page, f);
    SetRead(mem, f, page[3], e, root, 509);
    SetRead(mem, f, page[3], e, root, 510);
    SetLeaf(mem, root, page, f, e);
    SetReady(mem, cur, r, root, free, page, f, e);
  }

  lemma PoolHead(mem: Memory, cur: Frame, r: nat, root: Frame, free: seq<Frame>, p4: nat)
    requires Ready(mem, cur, r, root, free) && free != []
    ensures var e := LinkEntry(free[0], p4);
            && Present(e) && FrameOf(e) == free[0] && free[0] in mem && free[0] != cur && Fresh(mem, root, free[0])
  {
    hide Present, FrameOf, IsFrame, LinkEntry, Fresh, Unshared, Apart, WindowOk;
    TableEntry(free[0], p4);
  }

  /** What the window shows of a table that is there. */
  lemma Shown(mem: Memory, cur: Frame, r: nat, root: Frame, free: seq<Frame>, p: seq<nat>)
    requires Ready(mem, cur, r, root, free) && TablePath(p) && Tab(mem, root, p).Some?
    ensures Walk(mem, cur, WindowAddr(r, p)) == Tab(mem, root, p)
    ensures Tab(mem, root, p).value in mem && |mem[Tab(mem, root, p).value]| == 512
  {
    hide Walk, WindowAddr, Tab, Pool, Apart;
    WindowShowsPath(mem, cur, r, root, p);
  }

  lemma EntryShown(mem: Memory, root: Frame, page: seq<nat>, n: nat)
    requires |page| == 4 && n < 3 && Tab(mem, root, page[..n]).Some?
    ensures Present(Read(mem, Tab(mem, root, page[..n]).value, page[n])) <==> Tab(mem, root, page[..n + 1]).Some?
  {
    hide Present, Read;
    assert page[..n + 1] == page[..n] + [page[n]];
    TabStep(mem, root, page[..n], page[n]);
  }

  lemma LinkAllowed(mem: Memory, cur: Frame, r: nat, root: Frame, free: seq<Frame>, p: seq<nat>, f: Frame, i: nat, e: Entry)
    requires Ready(mem, cur, r, root, free) && free != []
    requires TablePath(p) && TablePath(p + [i]) && i < 512
    requires Tab(mem, root, p) == Some(f) && Tab(mem, root, p + [i]) == None
    requires Present(e) && FrameOf(e) == free[0] && free[0] in mem && Fresh(mem, root, free[0])
    ensures CanLink(mem, root, p, f, i, e)
  {
    hide Tab, Present, FrameOf, Fresh;
  }

  /** Storing the entry and clearing through it links the frame. */
  lemma LinkFacts(mem: Memory, cur: Frame, r: nat, root: Frame, free: seq<Frame>, p: seq<nat>, f: Frame, i: nat, e: Entry)
    requires Ready(mem, cur, r, root, free) && free != [] && FrameOf(e) == free[0]
    requires CanLink(mem, root, p, f, i, e)
    ensures f in mem && i < |mem[f]|
    ensures Walk(Set(mem, f, i, e), cur, WindowAddr(r, p + [i])) == Some(FrameOf(e))
    ensures Set(mem, f, i, e)[FrameOf(e) := Zeros()] == Link(mem, f, i, e)
    ensures Ready(Link(mem, f, i, e), cur, r, root, free[1..])
    ensures Tab(Link(mem, f, i, e), root, p + [i]) == Some(FrameOf(e))
    ensures SameBut(mem, Link(mem, f, i, e), {f, FrameOf(e)})
    ensures Grown(mem, Link(mem, f, i, e), root, p + [i], {FrameOf(e)})
    ensures forall q | TablePath(q) && q != p + [i] :: Tab(Link(mem, f, i, e), root, q) == Tab(mem, root, q)
    ensures forall q | Page(q) :: Pte(Link(mem, f, i, e), root, q) == Pte(mem, root, q)
  {
    hide Walk, WindowAddr, Tab, Pte, Present, FrameOf, Read, Set, Pool, Apart, Unshared, Fresh;
    FirstStore(mem, cur, r, root, free, p, f, i, e);
    LinkTouches(mem, root, p, f, i, e);
    LinkSlots(mem, root, p, f, i, e);
    NotLinkedItself(mem, root, p, f, i, e);
    LinkReady(mem, cur, r, root, free, p, f, i, e);
    LinkTab(mem, root, p, f, i, e);
    forall q | Page(q) ensures Pte(Link(mem, f, i, e), root, q) == Pte(mem, root, q)
    {
      LinkPte(mem, root, p, f, i, e, q);
    }
  }

  lemma LinkSlots(mem: Memory, root: Frame, p: seq<nat>, f: Frame, i: nat, e: Entry)
    requires CanLink(mem, root, p, f, i, e)
    ensures Read(Link(mem, f, i, e), root, 509) == Read(mem, root, 509)
    ensures Read(Link(mem, f, i, e), root, 510) == Read(mem, root, 510)
  {
    hide Read, Link, FrameOf, Present;
    NotLinkedItself(mem, root, p, f, i, e);
    assert Tab(mem, root, []) == Some(root) && TablePath([]);
    LinkRead(mem, f, i, e, root, 509);
    LinkRead(mem, f, i, e, root, 510);
    assert p == [] ==> p + [i] == [i];
  }

  lemma LinkTouches(mem: Memory, root: Frame, p: seq<nat>, f: Frame, i: nat, e: Entry)
    requires CanLink(mem, root, p, f, i, e)
    ensures SameBut(mem, Link(mem, f, i, e), {f, FrameOf(e)})
  {
    hide Tab, Unshared, Fresh, Present, FrameOf;
  }

  lemma FirstStore(mem: Memory, cur: Frame, r: nat, root: Frame, free: seq<Frame>, p: seq<nat>, f: Frame, i: nat, e: Entry)
    requires Ready(mem, cur, r, root, free) && CanLink(mem, root, p, f, i, e)
    ensures Walk(Set(mem, f, i, e), cur, WindowAddr(r, p + [i])) == Some(FrameOf(e))
  {
    hide Walk, WindowAddr, FrameOf, Read, Pool, Apart, Fresh, Tab;
    var mem' := Set(mem, f, i, e);
    assert p == [] ==> p + [i] == [i];
    SetWindow(mem, cur, r, root, free, p, f, i, e);
    WindowShowsPath(mem', cur, r, root, p + [i]);
    TabStep(mem', root, p, i);
    SetTab(mem, root, p, f, i, e, p);
    SetRead(mem, f, i, e, f, i);
  }
}
