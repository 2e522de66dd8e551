/** Mapping into another process. Slot 509 of the current root and of the other
    root are both pointed at the other root for as long as that takes, which
    makes the other process's tables appear in the window of slot 509. */
module TempMapper {
  import opened Options
  import opened PageTables
  import opened PageAccess
  import opened VirtMap

  /** The current root and another one, neither a table of the other, and
      frames to hand out that are tables of neither. The two may share tables,
      as every process shares the tables of the kernel half. */
  ghost predicate Pair(mem: Memory, cur: Frame, other: Frame, free: seq<Frame>) {
    && Ready(mem, cur, 510, cur, free)
    && other in mem && IsFrame(other) && other !in Listed(free)
    && Unshared(mem, other) && Fresh(mem, cur, other) && Fresh(mem, other, cur)
    && Pool(mem, other, cur, free)
  }

  /** The tables of one root on the way to a page are no tables of another. */
  ghost predicate Private(mem: Memory, root: Frame, other: Frame, page: seq<nat>) {
    |page| == 4 && forall f | f in OnPath(mem, root, page) :: Fresh(mem, other, f)
  }

  /** A page of the current process to look at the other root through: it is
      not mapped, and its tables are the current process's own. */
  ghost predicate Scratch(mem: Memory, cur: Frame, other: Frame, tmp: nat) {
    IndexPML4(tmp) <= 255 && Pte(mem, cur, PageOf(tmp)) == 0 && Private(mem, cur, other, PageOf(tmp))
  }

  ghost predicate SameTables(mem: Memory, mem': Memory, root: Frame) {
    forall q | TablePath(q) :: Tab(mem', root, q) == Tab(mem, root, q)
  }

  ghost predicate SamePages(mem: Memory, mem': Memory, root: Frame) {
    forall q | Page(q) :: Pte(mem', root, q) == Pte(mem, root, q)
  }

  /** Nor any other entry, slot 509 apart. */
  ghost predicate SameEntries(mem: Memory, mem': Memory, root: Frame) {
    && (forall q | EntryPath(q) :: EntryAt(mem', root, q) == EntryAt(mem, root, q))
    && Read(mem', root, 510) == Read(mem, root, 510)
  }

  lemma EntriesPages(mem: Memory, mem': Memory, root: Frame)
    requires SameEntries(mem, mem', root)
    ensures SamePages(mem, mem', root)
  {
    hide Tab, Read;
    forall q | Page(q) ensures Pte(mem', root, q) == Pte(mem, root, q) {
      assert forall i | 0 <= i < 3 :: q[i] == q[..3][i];
      assert EntryPath(q);
    }
  }

  /** No entry of any table of the root has changed, slot 509 apart. */
  ghost predicate Untouched(mem: Memory, mem': Memory, root: Frame) {
    forall p, i: nat | TablePath(p) && Tab(mem, root, p).Some? && (p == [] ==> i != 509) ::
      Read(mem', Tab(mem, root, p).value, i) == Read(mem, Tab(mem, root, p).value, i)
  }

  lemma {:induction false} UntouchedTab(mem: Memory, mem': Memory, root: Frame, q: seq<nat>)
    requires Untouched(mem, mem', root) && TablePath(q)
    ensures Tab(mem', root, q) == Tab(mem, root, q)
    decreases |q|
  {
    hide Read, FrameOf, Present;
    if q != [] {
      var p := q[..|q| - 1];
      assert q == p + [q[|q| - 1]] && TablePath(p) && q[|q| - 1] >= 0;
      UntouchedTab(mem, mem', root, p);
    }
  }

  lemma UntouchedSame(mem: Memory, mem': Memory, root: Frame)
    requires Untouched(mem, mem', root)
    ensures SameTables(mem, mem', root) && SameEntries(mem, mem', root) && SamePages(mem, mem', root)
  {
    hide Tab, Read;
    forall q | TablePath(q) ensures Tab(mem', root, q) == Tab(mem, root, q) {
      UntouchedTab(mem, mem', root, q);
    }
    forall q | EntryPath(q) ensures EntryAt(mem', root, q) == EntryAt(mem, root, q) {
      var p := q[..|q| - 1];
      assert TablePath(p) && q[|q| - 1] >= 0 && (p == [] ==> q[|q| - 1] == q[0]);
    }
    RootIsTable(mem, root);
    assert Read(mem', Tab(mem, root, []).value, 510) == Read(mem, Tab(mem, root, []).value, 510);
    EntriesPages(mem, mem', root);
  }

  /** Changing frames that are no tables of a root changes nothing for it. */
  lemma ElsewhereUntouched(mem: Memory, mem': Memory, root: Frame, touched: set<Frame>)
    requires Unshared(mem, root) && SameBut(mem, mem', touched)
    requires forall f | f in touched :: Fresh(mem, root, f)
    ensures Untouched(mem, mem', root)
    ensures forall i: nat :: Read(mem', root, i) == Read(mem, root, i)
  {
    hide Tab;
    RootIsTable(mem, root);
    forall p, i: nat | TablePath(p) && Tab(mem, root, p).Some?
      ensures Read(mem', Tab(mem, root, p).value, i) == Read(mem, Tab(mem, root, p).value, i)
    {
      assert Tab(mem, root, p).value !in touched;
    }
  }

  lemma RootIsTable(mem: Memory, root: Frame)
    ensures TablePath([]) && Tab(mem, root, []) == Some(root)
  {
  }

  /** Nor does writing a window slot of the root itself. */
  lemma SlotUntouched(mem: Memory, root: Frame, e: Entry)
    requires WellFormed(mem) && root in mem && Unshared(mem, root)
    ensures Untouched(mem, Set(mem, root, 509, e), root)
  {
    hide Tab, Read, Set;
    RootIsTable(mem, root);
    forall p, i: nat | TablePath(p) && Tab(mem, root, p).Some? && (p == [] ==> i != 509)
      ensures Read(Set(mem, root, 509, e), Tab(mem, root, p).value, i) == Read(mem, Tab(mem, root, p).value, i)
    {
      SetRead(mem, root, 509, e, Tab(mem, root, p).value, i);
    }
  }

  lemma SetSameBut(mem: Memory, f: Frame, e: Entry)
    requires WellFormed(mem) && f in mem
    ensures SameBut(mem, Set(mem, f, 509, e), {f}) && WellFormed(Set(mem, f, 509, e))
  {
  }

  /** Writing slot 509 of either root. */
  lemma SlotSet(mem: Memory, cur: Frame, other: Frame, free: seq<Frame>, f: Frame, e: Entry)
    requires Pair(mem, cur, other, free) && (f == cur || f == other)
    ensures var mem' := Set(mem, f, 509, e);
            && SameTables(mem, mem', cur) && SameTables(mem, mem', other)
            && SamePages(mem, mem', cur) && SameEntries(mem, mem', other)
            && WellFormed(mem')
  {
    hide Tab, Read, Set, Pool, WindowOk, Pte;
    var mem' := Set(mem, f, 509, e);
    SetSameBut(mem, f, e);
    if f == cur {
      SlotUntouched(mem, cur, e);
      ElsewhereUntouched(mem, mem', other, {f});
    } else {
      SlotUntouched(mem, other, e);
      ElsewhereUntouched(mem, mem', cur, {f});
    }
    UntouchedSame(mem, mem', cur);
    UntouchedSame(mem, mem', other);
  }

  /** The pair stays a pair as long as both keep their tables and slot 510. */
  lemma PairKept(mem: Memory, mem': Memory, cur: Frame, other: Frame, free: seq<Frame>)
    requires Pair(mem, cur, other, free) && WellFormed(mem') && mem'.Keys == mem.Keys
    requires SameTables(mem, mem', cur) && SameTables(mem, mem', other)
    requires Read(mem', cur, 510) == Read(mem, cur, 510)
    ensures Pair(mem', cur, other, free)
  {
    hide Tab, Read, FrameOf, Present, IsFrame;
  }

  /** What mapping a page of a root did to memory. */
  ghost predicate Grew(mem: Memory, mem': Memory, root: Frame, free: seq<Frame>, page: seq<nat>) {
    && |page| == 4
    && SameBut(mem, mem', OnPath(mem, root, page) + Listed(free))
    && Grown(mem, mem', root, page, Listed(free))
  }

  lemma AddedFresh(mem: Memory, mem': Memory, root: Frame, page: seq<nat>, pool: set<Frame>, f: Frame)
    requires Added(mem, mem', root, page, pool) && Fresh(mem, root, f) && f !in pool
    ensures Fresh(mem', root, f)
  {
    hide Tab;
  }

  lemma GrewFresh(mem: Memory, mem': Memory, root: Frame, free: seq<Frame>, page: seq<nat>, f: Frame)
    requires Grew(mem, mem', root, free, page) && Fresh(mem, root, f) && f !in Listed(free)
    ensures Fresh(mem', root, f)
  {
    hide Tab, Read;
  }

  /** Mapping a page of one root leaves a root alone that has none of the
      tables on the way to it. */
  lemma GrewElsewhere(mem: Memory, mem': Memory, root: Frame, free: seq<Frame>, page: seq<nat>, other: Frame)
    requires Grew(mem, mem', root, free, page) && Private(mem, root, other, page) && Unshared(mem, other)
    requires forall f | f in Listed(free) :: Fresh(mem, other, f)
    ensures SameTables(mem, mem', other) && SameEntries(mem, mem', other) && SamePages(mem, mem', other)
    ensures forall i: nat :: Read(mem', other, i) == Read(mem, other, i)
  {
    hide Tab, Read, OnPath, Grown, Fresh;
    ElsewhereUntouched(mem, mem', other, OnPath(mem, root, page) + Listed(free));
    UntouchedSame(mem, mem', other);
  }

  lemma ListedTail(free: seq<Frame>, k: nat)
    requires k <= |free|
    ensures Listed(free[k..]) <= Listed(free)
    ensures forall i | 0 <= i < |free[k..]| :: free[k..][i] in Listed(free)
  {
  }

  lemma PoolListed(mem: Memory, root: Frame, cur: Frame, free: seq<Frame>, f: Frame)
    requires Pool(mem, root, cur, free) && f in Listed(free)
    ensures Fresh(mem, root, f) && f != cur && f in mem && IsFrame(f)
  {
    hide Fresh, IsFrame;
  }

  lemma PoolTail(mem: Memory, mem': Memory, root: Frame, cur: Frame, free: seq<Frame>, k: nat)
    requires Pool(mem, root, cur, free) && k <= |free| && SameTables(mem, mem', root) && mem'.Keys == mem.Keys
    ensures Pool(mem', root, cur, free[k..])
  {
    hide Tab, IsFrame;
    forall i | 0 <= i < |free[k..]|
      ensures var f := free[k..][i]; f in mem' && IsFrame(f) && f != cur && Fresh(mem', root, f)
    {
      assert free[k..][i] == free[k + i];
    }
  }

  lemma SharingKept(mem: Memory, mem': Memory, root: Frame)
    requires Unshared(mem, root) && SameTables(mem, mem', root) && mem'.Keys == mem.Keys
    ensures Unshared(mem', root)
  {
    hide Tab;
  }

  lemma FreshKept(mem: Memory, mem': Memory, root: Frame, f: Frame)
    requires Fresh(mem, root, f) && SameTables(mem, mem', root)
    ensures Fresh(mem', root, f)
  {
    hide Tab;
  }

  lemma OtherListed(mem: Memory, cur: Frame, other: Frame, free: seq<Frame>)
    requires Pair(mem, cur, other, free)
    ensures forall f | f in Listed(free) :: Fresh(mem, other, f) && Fresh(mem, cur, f) && f != cur && f != other
  {
    hide Fresh, IsFrame, Listed, Unshared, WindowOk, Pool, Apart, WellFormed;
    forall f | f in Listed(free) ensures Fresh(mem, other, f) && Fresh(mem, cur, f) && f != cur {
      PoolListed(mem, other, cur, free, f);
      PoolListed(mem, cur, cur, free, f);
    }
  }

  /** The current process has mapped a page of its own. */
  lemma CurrentGrew(mem: Memory, mem': Memory, cur: Frame, other: Frame, free: seq<Frame>, k: nat, page: seq<nat>)
    requires Pair(mem, cur, other, free) && k <= |free|
    requires Grew(mem, mem', cur, free, page) && Private(mem, cur, other, page)
    requires Ready(mem', cur, 510, cur, free[k..])
    ensures Pair(mem', cur, other, free[k..])
    ensures SameTables(mem, mem', other) && SameEntries(mem, mem', other)
    ensures Read(mem', other, 509) == Read(mem, other, 509) && Read(mem', cur, 509) == Read(mem, cur, 509)
    ensures Added(mem, mem', cur, page, Listed(free))
  {
    hide Tab, Read, OnPath, Fresh, Pool, Listed, Unshared, Ready, SameTables, SamePages, SameEntries, Private, IsFrame;
    OtherListed(mem, cur, other, free);
    ListedTail(free, k);
    GrewElsewhere(mem, mem', cur, free, page, other);
    GrewFresh(mem, mem', cur, free, page, other);
    PoolTail(mem, mem', other, cur, free, k);
    SharingKept(mem, mem', other);
    FreshKept(mem, mem', other, cur);
  }

  /** The other process has had a page mapped for it. */
  lemma OtherGrew(mem: Memory, mem': Memory, cur: Frame, other: Frame, free: seq<Frame>, k: nat, page: seq<nat>)
    requires Pair(mem, cur, other, free) && k <= |free|
    requires Grew(mem, mem', other, free, page) && Private(mem, other, cur, page)
    requires Ready(mem', cur, 509, other, free[k..])
    ensures Pair(mem', cur, other, free[k..])
    ensures SameTables(mem, mem', cur) && SamePages(mem, mem', cur)
  {
    hide Tab, Read, OnPath, Fresh, Pool, Listed, Unshared, SameTables, SamePages, SameEntries, Private, IsFrame;
    OtherListed(mem, cur, other, free);
    ListedTail(free, k);
    GrewElsewhere(mem, mem', other, free, page, cur);
    GrewFresh(mem, mem', other, free, page, cur);
    PoolTail(mem, mem', cur, cur, free, k);
    SharingKept(mem, mem', cur);
    FreshKept(mem, mem', cur, other);
    OnlyRoot(mem', cur);
  }

  lemma OnlyRoot(mem: Memory, root: Frame)
    requires Unshared(mem, root)
    ensures Apart(mem, root, root)
  {
    hide Tab;
    RootIsTable(mem, root);
  }

  /** A scratch page stays one while the other process's tables grow. */
  lemma ScratchKept(mem: Memory, mem': Memory, cur: Frame, other: Frame, free: seq<Frame>, page: seq<nat>, tmp: nat)
    requires Pair(mem, cur, other, free) && Grew(mem, mem', other, free, page) && Scratch(mem, cur, other, tmp)
    requires SameTables(mem, mem', cur) && SamePages(mem, mem', cur)
    ensures Scratch(mem', cur, other, tmp)
  {
    hide Tab, Pte, Read, Fresh, Pool, Listed, Unshared, PageOf, IndexPML4, Grew;
    OtherListed(mem, cur, other, free);
    IsPage(tmp);
    Steps(mem, cur, PageOf(tmp));
    PathTables(mem, cur, PageOf(tmp));
    assert TablePath(PageOf(tmp)[..0]);
    assert OnPath(mem', cur, PageOf(tmp)) == OnPath(mem, cur, PageOf(tmp));
    forall f | f in OnPath(mem, cur, PageOf(tmp)) ensures Fresh(mem', other, f) {
      GrewFresh(mem, mem', other, free, page, f);
    }
  }

  lemma PathTables(mem: Memory, root: Frame, page: seq<nat>)
    requires Page(page)
    ensures forall f | f in OnPath(mem, root, page) :: !Fresh(mem, root, f)
  {
    hide Tab;
    Steps(mem, root, page);
    assert TablePath(page[..0]);
  }

  lemma PathKept(mem: Memory, mem': Memory, root: Frame, other: Frame, page: seq<nat>)
    requires Page(page) && SameTables(mem, mem', root) && SameTables(mem, mem', other) && Private(mem, root, other, page)
    ensures Private(mem', root, other, page) && Missing(mem', root, page) == Missing(mem, root, page)
  {
    hide Tab, Fresh;
    Steps(mem, root, page);
    assert TablePath(page[..0]);
    assert OnPath(mem', root, page) == OnPath(mem, root, page);
    forall f | f in OnPath(mem, root, page) ensures Fresh(mem', other, f) {
      FreshKept(mem, mem', other, f);
    }
  }

  function SlotFlags(): Entry {
    PAGE_PRESENT | PAGE_WRITE
  }

  function SlotEntry(f: Frame): Entry {
    f.addr | SlotFlags()
  }

  /** An entry through which the kernel, and only it, reads and writes. */
  predicate OpensWindow(e: Entry) {
    Present(e) && Has(e, PAGE_WRITE) && !Has(e, PAGE_USER)
  }

  lemma SlotLeads(f: Frame)
    requires IsFrame(f)
    ensures Present(SlotEntry(f)) && FrameOf(SlotEntry(f)) == f
    ensures IsFlags(SlotFlags()) && Present(SlotFlags()) && SlotFlags() & PAGE_USER == 0 && !Present(0)
  {
    EntryParts(f, SlotFlags());
  }

  lemma SlotOpens(f: Frame)
    requires IsFrame(f)
    ensures OpensWindow(SlotEntry(f))
  {
    SlotBits();
    hide Has, Present, IsFrame, SlotFlags;
    FlagsCount(f, SlotFlags());
  }

  lemma SlotBits()
    ensures Present(SlotFlags()) && Has(SlotFlags(), PAGE_WRITE) && !Has(SlotFlags(), PAGE_USER)
  {
  }

  /** Slot 509 of the current root, through its window. */
  method SetOwnSlot(m: Mmu, ghost other: Frame, e: Entry)
    requires Pair(m.mem, m.cr3, other, m.free)
    modifies m`mem
    ensures Pair(m.mem, m.cr3, other, m.free)
    ensures Read(m.mem, m.cr3, 509) == e && Read(m.mem, other, 509) == old(Read(m.mem, other, 509))
    ensures SameTables(old(m.mem), m.mem, m.cr3) && SameTables(old(m.mem), m.mem, other)
    ensures SamePages(old(m.mem), m.mem, m.cr3) && SameEntries(old(m.mem), m.mem, other)
  {
    WindowShows(m.mem, m.cr3, 510, m.cr3, 0, 0, 0);
    ghost var mem := m.mem;
    hide Walk, Tab, Pte, Read, Fresh, Pool, Listed, Unshared, WindowOk, SameTables, SamePages, SameEntries;
    m.Store(GetPML4(510), 509, e);
    SlotSet(mem, m.cr3, other, m.free, m.cr3, e);
    SetRead(mem, m.cr3, 509, e, m.cr3, 509);
    SetRead(mem, m.cr3, 509, e, m.cr3, 510);
    SetRead(mem, m.cr3, 509, e, other, 509);
    DifferentRoots(mem, m.cr3, other);
    PairKept(mem, m.mem, m.cr3, other, m.free);
  }

  lemma DifferentRoots(mem: Memory, cur: Frame, other: Frame)
    requires Fresh(mem, cur, other)
    ensures other != cur
  {
    RootIsTable(mem, cur);
  }

  /** Slot 509 of the other root, through a scratch page that is mapped for the
      moment. The kernel stops if it runs out of frames for that page's tables. */
  method SetOtherSlot(m: Mmu, other: Frame, tmp: nat, e: Entry) returns (res: Result)
    requires Pair(m.mem, m.cr3, other, m.free) && Scratch(m.mem, m.cr3, other, tmp)
    modifies m`mem, m`free
    ensures res == Done <==> |old(m.free)| >= old(Missing(m.mem, m.cr3, PageOf(tmp)))
    ensures res == Done ==> Pair(m.mem, m.cr3, other, m.free)
    ensures res == Done ==> m.free == old(m.free)[old(Missing(m.mem, m.cr3, PageOf(tmp)))..]
    ensures res == Done ==> Read(m.mem, m.cr3, 509) == old(Read(m.mem, m.cr3, 509)) && Read(m.mem, other, 509) == e
    ensures res == Done ==> SameTables(old(m.mem), m.mem, other)
    ensures res == Done ==> Added(old(m.mem), m.mem, m.cr3, PageOf(tmp), Listed(old(m.free)))
    ensures res == Done ==> SamePages(old(m.mem), m.mem, m.cr3) && SameEntries(old(m.mem), m.mem, other)
    ensures res == Done ==> Scratch(m.mem, m.cr3, other, tmp) && Missing(m.mem, m.cr3, PageOf(tmp)) == 0
  {
    hide Walk, Tab, Pte, Read, Fresh, Pool, Listed, Unshared, WindowOk, SameTables, SamePages, SameEntries, PageOf, IndexPML4,
         Present, FrameOf, OnPath, Grown, Missing, Pair, Ready, SameBut, Private, IsFrame, IsFlags, SlotEntry;
    ghost var page, mem0, free0 := PageOf(tmp), m.mem, m.free;
    res := MapScratch(m, other, tmp);
    if res == Abort {
      return;
    }
    ghost var mem1 := m.mem;
    PairParts(mem1, m.cr3, other, m.free);
    m.Store(tmp, 509, e);
    ghost var mem2 := m.mem;
    OtherSlotSet(mem1, m.cr3, other, m.free, e);
    PathKept(mem1, mem2, m.cr3, other, page);
    PageKept(mem1, mem2, m.cr3, page);
    PairParts(mem2, m.cr3, other, m.free);
    res := m.UnmapPage(tmp, false, 510, m.cr3);
    Cleared(mem2, m.mem, m.cr3, other, m.free, page);
    Chain(mem0, mem1, mem2, m.mem, m.cr3, other, free0, page);
  }

  /** The scratch page leads to the other root, and nothing else has changed. */
  ghost predicate ScratchMapped(mem: Memory, mem': Memory, cur: Frame, other: Frame, free: seq<Frame>,
                                free': seq<Frame>, tmp: nat) {
    var page, k := PageOf(tmp), Missing(mem, cur, PageOf(tmp));
    && k <= |free| && free' == free[k..]
    && Page(page) && Pair(mem', cur, other, free') && Private(mem', cur, other, page)
    && Walk(mem', cur, tmp) == Some(other) && Tab(mem', cur, page[..3]).Some? && Present(Pte(mem', cur, page))
    && (forall q | Page(q) && q != page :: Pte(mem', cur, q) == Pte(mem, cur, q))
    && SameTables(mem, mem', other) && SameEntries(mem, mem', other)
    && Read(mem', cur, 509) == Read(mem, cur, 509)
    && Added(mem, mem', cur, page, Listed(free))
  }

  method MapScratch(m: Mmu, other: Frame, tmp: nat) returns (res: Result)
    requires Pair(m.mem, m.cr3, other, m.free) && Scratch(m.mem, m.cr3, other, tmp)
    modifies m`mem, m`free
    ensures res == Done <==> |old(m.free)| >= old(Missing(m.mem, m.cr3, PageOf(tmp)))
    ensures res == Done ==> ScratchMapped(old(m.mem), m.mem, m.cr3, other, old(m.free), m.free, tmp)
  {
    hide Walk, Tab, Pte, Read, Fresh, Pool, Listed, Unshared, WindowOk, SameTables, SamePages, SameEntries, PageOf, IndexPML4,
         Present, FrameOf, OnPath, Grown, Missing, Pair, Ready, SameBut, Private, IsFrame, IsFlags, SlotFlags,
         ScratchMapped;
    IsPage(tmp);
    PairParts(m.mem, m.cr3, other, m.free);
    SlotLeads(other);
    ghost var page, mem0, free0 := PageOf(tmp), m.mem, m.free;
    res := m.MapInternal(tmp, other, SlotFlags(), false, 510, m.cr3);
    if res == Abort {
      return;
    }
    ScratchLeads(mem0, m.mem, m.cr3, other, free0, m.free, tmp);
  }

  lemma ScratchLeads(mem: Memory, mem': Memory, cur: Frame, other: Frame, free: seq<Frame>, free': seq<Frame>, tmp: nat)
    requires Pair(mem, cur, other, free) && Page(PageOf(tmp)) && Private(mem, cur, other, PageOf(tmp))
    requires Missing(mem, cur, PageOf(tmp)) <= |free| && free' == free[Missing(mem, cur, PageOf(tmp))..]
    requires Grew(mem, mem', cur, free, PageOf(tmp)) && Ready(mem', cur, 510, cur, free')
    requires OnPath(mem', cur, PageOf(tmp)) <= OnPath(mem, cur, PageOf(tmp)) + Listed(free)
    requires Tab(mem', cur, PageOf(tmp)[..3]).Some? && Pte(mem', cur, PageOf(tmp)) == SlotEntry(other)
    requires forall q | Page(q) && q != PageOf(tmp) :: Pte(mem', cur, q) == Pte(mem, cur, q)
    ensures ScratchMapped(mem, mem', cur, other, free, free', tmp)
  {
    hide Walk, Tab, Pte, Read, SameTables, SamePages, SameEntries, PageOf, Present, FrameOf, OnPath, Missing, Pair, Ready, Grew,
         Private, IsFrame, IsFlags, SlotEntry, Page, Listed;
    PairParts(mem, cur, other, free);
    SlotLeads(other);
    CurrentGrew(mem, mem', cur, other, free, Missing(mem, cur, PageOf(tmp)), PageOf(tmp));
    WalkIs(mem', cur, tmp);
    PrivateGrown(mem, mem', cur, other, free, PageOf(tmp));
  }

  lemma PrivateGrown(mem: Memory, mem': Memory, cur: Frame, other: Frame, free: seq<Frame>, page: seq<nat>)
    requires Pair(mem, cur, other, free) && Private(mem, cur, other, page) && SameTables(mem, mem', other)
    requires OnPath(mem', cur, page) <= OnPath(mem, cur, page) + Listed(free)
    ensures Private(mem', cur, other, page)
  {
    hide Tab, Fresh, OnPath, SameTables, Listed, Pool, Unshared, Ready;
    OtherListed(mem, cur, other, free);
    forall f | f in OnPath(mem', cur, page) ensures Fresh(mem', other, f) {
      FreshKept(mem, mem', other, f);
    }
  }

  lemma OtherSlotSet(mem: Memory, cur: Frame, other: Frame, free: seq<Frame>, e: Entry)
    requires Pair(mem, cur, other, free)
    ensures var mem' := Set(mem, other, 509, e);
            && Pair(mem', cur, other, free)
            && SameTables(mem, mem', cur) && SameTables(mem, mem', other)
            && SamePages(mem, mem', cur) && SameEntries(mem, mem', other)
            && Read(mem', other, 509) == e && Read(mem', cur, 509) == Read(mem, cur, 509)
  {
    hide Tab, Pte, Read, Fresh, Pool, Listed, Unshared, WindowOk, SameTables, SamePages, SameEntries;
    SlotSet(mem, cur, other, free, other, e);
    SetRead(mem, other, 509, e, cur, 509);
    SetRead(mem, other, 509, e, cur, 510);
    SetRead(mem, other, 509, e, other, 509);
    DifferentRoots(mem, cur, other);
    PairKept(mem, Set(mem, other, 509, e), cur, other, free);
  }

  /** Unmapping the scratch page again. */
  lemma Cleared(mem: Memory, mem': Memory, cur: Frame, other: Frame, free: seq<Frame>, page: seq<nat>)
    requires Pair(mem, cur, other, free) && Page(page) && Private(mem, cur, other, page)
    requires SameBut(mem, mem', OnPath(mem, cur, page)) && Grown(mem, mem', cur, page, {})
    requires Ready(mem', cur, 510, cur, free)
    ensures Pair(mem', cur, other, free) && SameTables(mem, mem', cur)
    ensures SameTables(mem, mem', other) && SameEntries(mem, mem', other)
    ensures Read(mem', other, 509) == Read(mem, other, 509) && Read(mem', cur, 509) == Read(mem, cur, 509)
    ensures Private(mem', cur, other, page)
  {
    hide Tab, Pte, Read, Fresh, Pool, Listed, Unshared, WindowOk, OnPath, Ready, SamePages, SameEntries, Private, IsFrame;
    assert free[0..] == free;
    assert SameTables(mem, mem', cur);
    CurrentGrew(mem, mem', cur, other, free, 0, page);
    PathKept(mem, mem', cur, other, page);
  }

  /** The three steps together. */
  lemma Chain(mem: Memory, mapped: Memory, written: Memory, mem': Memory, cur: Frame, other: Frame, free: seq<Frame>,
              page: seq<nat>)
    requires Page(page) && Pte(mem, cur, page) == 0 && Pte(mem', cur, page) == 0
    requires Tab(mapped, cur, page[..3]).Some?
    requires forall q | Page(q) && q != page :: Pte(mapped, cur, q) == Pte(mem, cur, q)
    requires forall q | Page(q) && q != page :: Pte(mem', cur, q) == Pte(written, cur, q)
    requires SamePages(mapped, written, cur) && SameTables(mapped, written, cur) && SameTables(written, mem', cur)
    requires SameTables(mem, mapped, other) && SameTables(mapped, written, other) && SameTables(written, mem', other)
    requires SameEntries(mem, mapped, other) && SameEntries(mapped, written, other) && SameEntries(written, mem', other)
    requires Added(mem, mapped, cur, page, Listed(free))
    ensures Added(mem, mem', cur, page, Listed(free))
    ensures SamePages(mem, mem', cur) && SameEntries(mem, mem', other) && SameTables(mem, mem', other)
    ensures Missing(mem', cur, page) == 0
  {
    hide Tab, Pte;
    Steps(mem', cur, page);
    assert Tab(written, cur, page[..3]).Some?;
    assert Tab(mem', cur, page[..3]).Some?;
  }

  lemma PageKept(mem: Memory, mem': Memory, root: Frame, page: seq<nat>)
    requires SamePages(mem, mem', root) && Page(page)
    ensures Pte(mem', root, page) == Pte(mem, root, page)
  {
  }

  lemma PairParts(mem: Memory, cur: Frame, other: Frame, free: seq<Frame>)
    requires Pair(mem, cur, other, free)
    ensures Ready(mem, cur, 510, cur, free) && other in mem && |mem[other]| == 512 && IsFrame(other)
  {
  }

  /** Points slot 509 of both roots at the other root. Then the window of slot
      509 shows the other process's tables, and no page of either process has
      changed. */
  method Enter(m: Mmu, other: Frame, tmp: nat) returns (res: Result)
    requires Pair(m.mem, m.cr3, other, m.free) && Scratch(m.mem, m.cr3, other, tmp)
    modifies m`mem, m`free
    ensures res == Done <==> |old(m.free)| >= old(Missing(m.mem, m.cr3, PageOf(tmp)))
    ensures res == Done ==> Pair(m.mem, m.cr3, other, m.free) && m.Sees(509, other)
    ensures res == Done ==> OpensWindow(Read(m.mem, m.cr3, 509)) && OpensWindow(Read(m.mem, other, 509))
    ensures res == Done ==> m.free == old(m.free)[old(Missing(m.mem, m.cr3, PageOf(tmp)))..]
    ensures res == Done ==> SameTables(old(m.mem), m.mem, other)
    ensures res == Done ==> Added(old(m.mem), m.mem, m.cr3, PageOf(tmp), Listed(old(m.free)))
    ensures res == Done ==> SamePages(old(m.mem), m.mem, m.cr3) && SameEntries(old(m.mem), m.mem, other)
    ensures res == Done ==> Scratch(m.mem, m.cr3, other, tmp) && Missing(m.mem, m.cr3, PageOf(tmp)) == 0
  {
    hide Tab, Pte, SameTables, SamePages, SameEntries, PageOf, Missing, Pair, IsFrame, IsFlags, SlotEntry, Read, Private, Ready;
    ghost var mem0, free0 := m.mem, m.free;
    assert IsFrame(other) by { PairParts(m.mem, m.cr3, other, m.free); }
    SlotOpens(other);
    SetOwnSlot(m, other, SlotEntry(other));
    ScratchSame(mem0, m.mem, m.cr3, other, tmp);
    ghost var mem1 := m.mem;
    res := SetOtherSlot(m, other, tmp, SlotEntry(other));
    if res == Done {
      WindowOpen(m.mem, m.cr3, other, m.free);
      SameTwice(mem0, mem1, m.mem, m.cr3);
      SameTwice(mem0, mem1, m.mem, other);
      StaysAfter(mem0, mem1, m.mem, m.cr3, PageOf(tmp), Listed(free0));
    }
  }

  /** Clears slot 509 of both roots, again without changing any page. */
  method Leave(m: Mmu, other: Frame, tmp: nat) returns (res: Result)
    requires Pair(m.mem, m.cr3, other, m.free) && Scratch(m.mem, m.cr3, other, tmp)
    modifies m`mem, m`free
    ensures res == Done <==> |old(m.free)| >= old(Missing(m.mem, m.cr3, PageOf(tmp)))
    ensures res == Done ==> Pair(m.mem, m.cr3, other, m.free)
    ensures res == Done ==> m.free == old(m.free)[old(Missing(m.mem, m.cr3, PageOf(tmp)))..]
    ensures res == Done ==> Read(m.mem, m.cr3, 509) == 0 && Read(m.mem, other, 509) == 0
    ensures res == Done ==> SameTables(old(m.mem), m.mem, other)
    ensures res == Done ==> Added(old(m.mem), m.mem, m.cr3, PageOf(tmp), Listed(old(m.free)))
    ensures res == Done ==> SamePages(old(m.mem), m.mem, m.cr3) && SameEntries(old(m.mem), m.mem, other)
  {
    hide Tab, Pte, SameTables, SamePages, SameEntries, PageOf, Missing, Pair, Read, Private;
    ghost var mem0, free0 := m.mem, m.free;
    SetOwnSlot(m, other, 0);
    ScratchSame(mem0, m.mem, m.cr3, other, tmp);
    ghost var mem1 := m.mem;
    res := SetOtherSlot(m, other, tmp, 0);
    if res == Done {
      SameTwice(mem0, mem1, m.mem, m.cr3);
      SameTwice(mem0, mem1, m.mem, other);
      StaysAfter(mem0, mem1, m.mem, m.cr3, PageOf(tmp), Listed(free0));
    }
  }

  lemma ScratchSame(mem: Memory, mem': Memory, cur: Frame, other: Frame, tmp: nat)
    requires Scratch(mem, cur, other, tmp) && SameTables(mem, mem', cur) && SameTables(mem, mem', other)
    requires SamePages(mem, mem', cur)
    ensures Scratch(mem', cur, other, tmp) && Missing(mem', cur, PageOf(tmp)) == Missing(mem, cur, PageOf(tmp))
  {
    hide Tab, Pte, SameTables, PageOf, IndexPML4, Missing, Private;
    IsPage(tmp);
    PathKept(mem, mem', cur, other, PageOf(tmp));
  }

  lemma SameTwice(mem: Memory, between: Memory, mem': Memory, root: Frame)
    ensures SamePages(mem, between, root) && SamePages(between, mem', root) ==> SamePages(mem, mem', root)
    ensures SameEntries(mem, between, root) && SameEntries(between, mem', root) ==> SameEntries(mem, mem', root)
    ensures SameTables(mem, between, root) && SameTables(between, mem', root) ==> SameTables(mem, mem', root)
  {
    hide Tab, Pte, EntryAt, Read;
  }

  lemma WindowOpen(mem: Memory, cur: Frame, other: Frame, free: seq<Frame>)
    requires Pair(mem, cur, other, free)
    requires Read(mem, cur, 509) == SlotEntry(other) && Read(mem, other, 509) == SlotEntry(other)
    ensures Ready(mem, cur, 509, other, free)
  {
    hide Tab, Pool, Unshared, Read, SlotEntry, IsFrame, Present, FrameOf;
    SlotLeads(other);
  }

  lemma StaysAfter(mem: Memory, between: Memory, mem': Memory, root: Frame, page: seq<nat>, pool: set<Frame>)
    requires SameTables(mem, between, root) && Added(between, mem', root, page, pool)
    ensures Added(mem, mem', root, page, pool)
  {
    hide Tab;
  }

  /** The other process's own tables stay its own as the current one's grow. */
  lemma PrivateStays(mem: Memory, mem': Memory, cur: Frame, other: Frame, free: seq<Frame>, page: seq<nat>, tmp: seq<nat>)
    requires Pair(mem, cur, other, free) && Page(page) && Private(mem, other, cur, page)
    requires SameTables(mem, mem', other) && Added(mem, mem', cur, tmp, Listed(free))
    ensures Private(mem', other, cur, page) && Missing(mem', other, page) == Missing(mem, other, page)
  {
    hide Tab, Fresh, Pair, Listed;
    OtherListed(mem, cur, other, free);
    Steps(mem, other, page);
    PathTables(mem, other, page);
    assert TablePath(page[..0]);
    assert OnPath(mem', other, page) == OnPath(mem, other, page);
    forall f | f in OnPath(mem, other, page) ensures Fresh(mem', cur, f) {
      AddedFresh(mem, mem', cur, tmp, Listed(free), f);
    }
  }

  /** How many tables are missing on the way to a page once those on the way to
      another are there. */
  function MissingBeside(mem: Memory, root: Frame, page: seq<nat>, beside: seq<nat>): nat
    requires |page| == 4
  {
    if Tab(mem, root, page[..1]) == None && !(page[..1] <= beside) then 3
    else if Tab(mem, root, page[..2]) == None && !(page[..2] <= beside) then 2
    else if Tab(mem, root, page[..3]) == None && !(page[..3] <= beside) then 1
    else 0
  }

  lemma MissingThen(mem: Memory, mem': Memory, root: Frame, page: seq<nat>, beside: seq<nat>, pool: set<Frame>)
    requires Page(page) && Page(beside) && Added(mem, mem', root, beside, pool) && Missing(mem', root, beside) == 0
    ensures Missing(mem', root, page) == MissingBeside(mem, root, page, beside)
  {
    hide Tab;
    Steps(mem, root, page);
    Steps(mem', root, beside);
    LevelThen(mem, mem', root, page, beside, pool, 1);
    LevelThen(mem, mem', root, page, beside, pool, 2);
    LevelThen(mem, mem', root, page, beside, pool, 3);
  }

  lemma LevelThen(mem: Memory, mem': Memory, root: Frame, page: seq<nat>, beside: seq<nat>, pool: set<Frame>, n: nat)
    requires Page(page) && Page(beside) && Added(mem, mem', root, beside, pool) && Missing(mem', root, beside) == 0
    requires 1 <= n <= 3
    ensures Tab(mem', root, page[..n]) == None <==> Tab(mem, root, page[..n]) == None && !(page[..n] <= beside)
  {
    hide Tab;
    Steps(mem, root, page);
    Steps(mem', root, beside);
    assert TablePath(page[..n]);
    if page[..n] <= beside {
      assert page[..n] == beside[..n];
    }
  }

  /** A second scratch page stays one while the first is used. */
  lemma ScratchBeside(mem: Memory, mem': Memory, cur: Frame, other: Frame, free: seq<Frame>, page: seq<nat>, tmp: nat)
    requires Pair(mem, cur, other, free) && Added(mem, mem', cur, page, Listed(free)) && Scratch(mem, cur, other, tmp)
    requires SamePages(mem, mem', cur) && SameTables(mem, mem', other)
    ensures Scratch(mem', cur, other, tmp)
  {
    hide Tab, Pte, Read, Fresh, Pool, Listed, Unshared, PageOf, IndexPML4, Pair;
    OtherListed(mem, cur, other, free);
    IsPage(tmp);
    Steps(mem, cur, PageOf(tmp));
    assert TablePath(PageOf(tmp)[..0]);
    forall f | f in OnPath(mem', cur, PageOf(tmp)) ensures Fresh(mem', other, f) {
      assert f in OnPath(mem, cur, PageOf(tmp)) || f in Listed(free);
      FreshKept(mem, mem', other, f);
    }
  }

  /** No walk of an ordinary address has changed. */
  ghost predicate SameWalks(mem: Memory, mem': Memory, root: Frame) {
    forall a: nat | Ordinary(a) :: Walk(mem', root, a) == Walk(mem, root, a)
  }

  lemma WalksSame(mem: Memory, mem': Memory, root: Frame)
    requires SamePages(mem, mem', root)
    ensures SameWalks(mem, mem', root)
  {
    hide Walk, Pte, PageOf, IndexPML4, Leads;
    forall a: nat | Ordinary(a) ensures Walk(mem', root, a) == Walk(mem, root, a) {
      IsPage(a);
      WalkIs(mem, root, a);
      WalkIs(mem', root, a);
    }
  }

  /** map_internal for another process, from opening the window to closing it:
      the page asked for gets its entry, every other page of that process keeps
      its own, no page of the current process changes, and slot 509 of both
      roots is left empty. Opening and closing take a scratch page each. */
  method MapInto(m: Mmu, other: Frame, virt: nat, phys: Frame, flags: Entry, overwrite: bool, tmp: nat, again: nat)
    returns (res: Result)
    requires Pair(m.mem, m.cr3, other, m.free)
    requires Scratch(m.mem, m.cr3, other, tmp) && Scratch(m.mem, m.cr3, other, again)
    requires Private(m.mem, other, m.cr3, PageOf(virt))
    modifies m`mem, m`free
    ensures res == Done <==>
            && IndexPML4(virt) != 509 && IndexPML4(virt) != 510
            && !(IndexPML4(virt) > 255 && flags & PAGE_USER != 0)
            && |old(m.free)| >= old(Missing(m.mem, m.cr3, PageOf(tmp))) + old(Missing(m.mem, other, PageOf(virt)))
                                + old(MissingBeside(m.mem, m.cr3, PageOf(again), PageOf(tmp)))
            && (overwrite || !Present(old(Pte(m.mem, other, PageOf(virt)))))
    ensures res == Done ==> Pair(m.mem, m.cr3, other, m.free)
    ensures res == Done ==> Pte(m.mem, other, PageOf(virt)) == phys.addr | flags
    ensures res == Done ==>
              forall q | Page(q) && q != PageOf(virt) :: Pte(m.mem, other, q) == old(Pte(m.mem, other, q))
    ensures res == Done ==> Translates(old(m.mem), m.mem, other, virt, phys.addr | flags)
    ensures res == Done ==> Mapped(old(m.mem), m.mem, other, PageOf(virt), phys.addr | flags)
    ensures res == Done && IsFrame(phys) ==> Granted(old(m.mem), m.mem, other, virt, flags)
    ensures res == Done ==> SamePages(old(m.mem), m.mem, m.cr3) && SameWalks(old(m.mem), m.mem, m.cr3)
    ensures res == Done ==> Read(m.mem, m.cr3, 509) == 0 && Read(m.mem, other, 509) == 0
  {
    hide Tab, Pte, SameTables, SamePages, SameEntries, PageOf, Missing, MissingBeside, Pair, Read, Private, Ready, IndexPML4, Present,
         Grown, Added, OnPath, Listed, Scratch, SameBut, Translates, SameWalks, Mapped, Granted, IsFrame;
    ghost var page, mem0, free0 := PageOf(virt), m.mem, m.free;
    res := Enter(m, other, tmp);
    if res == Abort {
      return;
    }
    ghost var mem1, free1 := m.mem, m.free;
    SecondScratch(mem0, mem1, m.cr3, other, free0, tmp, again);
    if IndexPML4(virt) != 509 && IndexPML4(virt) != 510 {
      IsPage(virt);
      PrivateStays(mem0, mem1, m.cr3, other, free0, page, PageOf(tmp));
      EntriesPages(mem0, mem1, other);
      PageKept(mem0, mem1, other, page);
    }
    res := m.MapInternal(virt, phys, flags, overwrite, 509, other);
    if res == Abort {
      return;
    }
    ghost var mem2 := m.mem;
    OtherGrew(mem1, mem2, m.cr3, other, free1, Missing(mem1, other, page), page);
    ScratchKept(mem1, mem2, m.cr3, other, free1, page, again);
    MissingKept(mem1, mem2, m.cr3, other, again);
    res := Leave(m, other, again);
    if res == Done {
      EntriesPages(mem2, m.mem, other);
      PagesOf(mem0, mem1, mem2, m.mem, other, page);
      MappedBetween(mem0, mem1, mem2, m.mem, other, virt, phys, flags, Listed(free1));
      SameTwice(mem0, mem1, mem2, m.cr3);
      SameTwice(mem0, mem2, m.mem, m.cr3);
      WalksSame(mem0, m.mem, m.cr3);
      NowTranslates(mem0, m.mem, other, virt, phys.addr | flags);
    }
  }

  /** What was mapped while the window was open is mapped once it is closed. */
  lemma MappedBetween(mem: Memory, before: Memory, mapped: Memory, mem': Memory, root: Frame, virt: nat, phys: Frame, flags: Entry,
                      pool: set<Frame>)
    requires SameEntries(mem, before, root) && SameEntries(mapped, mem', root)
    requires Mapped(before, mapped, root, PageOf(virt), phys.addr | flags)
    requires Grown(before, mapped, root, PageOf(virt), pool)
    requires Ordinary(virt) && !(IndexPML4(virt) > 255 && flags & PAGE_USER != 0) && Read(mem', root, 509) == 0
    ensures Mapped(mem, mem', root, PageOf(virt), phys.addr | flags)
    ensures IsFrame(phys) ==> Granted(mem, mem', root, virt, flags)
  {
    hide EntryAt, Read, Present, Passes, IsFrame, Granted, Added, PageOf, IndexPML4, Has;
    assert Mapped(mem, mem', root, PageOf(virt), phys.addr | flags);
    ZeroHas();
    hide Mapped;
    if IsFrame(phys) {
      NowGranted(mem, mem', root, virt, phys, flags);
    }
  }

  lemma ZeroHas()
    ensures !Has(0, PAGE_USER)
  {
  }

  lemma SecondScratch(mem: Memory, mem': Memory, cur: Frame, other: Frame, free: seq<Frame>, tmp: nat, again: nat)
    requires Pair(mem, cur, other, free) && Scratch(mem, cur, other, tmp) && Scratch(mem, cur, other, again)
    requires Added(mem, mem', cur, PageOf(tmp), Listed(free)) && Missing(mem', cur, PageOf(tmp)) == 0
    requires SamePages(mem, mem', cur) && SameTables(mem, mem', other)
    ensures Scratch(mem', cur, other, again)
    ensures Missing(mem', cur, PageOf(again)) == MissingBeside(mem, cur, PageOf(again), PageOf(tmp))
  {
    hide Tab, Pte, PageOf, IndexPML4, Missing, MissingBeside, Pair, Private, Added, Listed, SamePages, SameEntries, SameTables;
    IsPage(tmp);
    IsPage(again);
    ScratchBeside(mem, mem', cur, other, free, PageOf(tmp), again);
    MissingThen(mem, mem', cur, PageOf(again), PageOf(tmp), Listed(free));
  }

  lemma MissingKept(mem: Memory, mem': Memory, cur: Frame, other: Frame, tmp: nat)
    requires SameTables(mem, mem', cur) && Scratch(mem, cur, other, tmp)
    ensures Missing(mem', cur, PageOf(tmp)) == Missing(mem, cur, PageOf(tmp))
  {
    hide Tab, Pte, PageOf, IndexPML4, Private;
    IsPage(tmp);
    Steps(mem, cur, PageOf(tmp));
  }

  lemma PagesOf(mem: Memory, before: Memory, mapped: Memory, mem': Memory, root: Frame, page: seq<nat>)
    requires Page(page) && SamePages(mem, before, root) && SamePages(mapped, mem', root)
    requires forall q | Page(q) && q != page :: Pte(mapped, root, q) == Pte(before, root, q)
    ensures Pte(mem', root, page) == Pte(mapped, root, page)
    ensures forall q | Page(q) && q != page :: Pte(mem', root, q) == Pte(mem, root, q)
  {
    hide Tab, Pte;
  }
}
