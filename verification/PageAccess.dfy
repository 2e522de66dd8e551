/** What the processor lets a program do with a page: it asks every entry of
    the walk, from the root table down (section 5.6 of volume 2 of the AMD64
    manual). */
module PageAccess {
  import opened Options
  import opened PageTables

  /** A path to an entry: of the root table, or of any below it, outside the
      two slots kept for windows. */
  ghost predicate EntryPath(q: seq<nat>) {
    1 <= |q| <= 4 && (forall i | 0 <= i < |q| :: q[i] < 512) && q[0] != 509 && q[0] != 510
  }

  /** The entry at the end of a path, zero where there is no table for it. */
  function EntryAt(mem: Memory, root: Frame, q: seq<nat>): Entry
    requires q != []
  {
    match Tab(mem, root, q[..|q| - 1])
    case None => 0
    case Some(t) => Read(mem, t, q[|q| - 1])
  }

  predicate Has(e: Entry, bit: Entry) {
    e & bit != 0
  }

  /** All four entries on the way to a page are there, and carry the bit. */
  ghost predicate Allows(mem: Memory, root: Frame, page: seq<nat>, bit: Entry)
    requires |page| == 4
  {
    forall n | 1 <= n <= 4 :: Present(EntryAt(mem, root, page[..n])) && Has(EntryAt(mem, root, page[..n]), bit)
  }

  /** All four are there, and none forbids execution. */
  ghost predicate Executable(mem: Memory, root: Frame, page: seq<nat>)
    requires |page| == 4
  {
    forall n | 1 <= n <= 4 :: Present(EntryAt(mem, root, page[..n])) && !Has(EntryAt(mem, root, page[..n]), PAGE_NX)
  }

  /** The entries of a root are as before, but for one. */
  ghost predicate Rewritten(mem: Memory, mem': Memory, root: Frame, path: seq<nat>, e: Entry) {
    forall q | EntryPath(q) :: EntryAt(mem', root, q) == if q == path then e else EntryAt(mem, root, q)
  }

  /** Writing the entry of a page. */
  lemma SetEntry(mem: Memory, root: Frame, page: seq<nat>, f: Frame, e: Entry)
    requires WellFormed(mem) && Unshared(mem, root) && Page(page) && Tab(mem, root, page[..3]) == Some(f) && f in mem
    ensures Rewritten(mem, Set(mem, f, page[3], e), root, page, e)
  {
    hide Tab, Read, Set;
    var mem' := Set(mem, f, page[3], e);
    assert page == page[..3] + [page[3]];
    forall q | EntryPath(q) ensures EntryAt(mem', root, q) == if q == page then e else EntryAt(mem, root, q) {
      var q0, j := q[..|q| - 1], q[|q| - 1];
      assert q == q0 + [j] && TablePath(q0);
      SetTab(mem, root, page[..3], f, page[3], e, q0);
      var t := Tab(mem, root, q0);
      if t.Some? {
        SetRead(mem, f, page[3], e, t.value, j);
      }
    }
  }

  /** Linking a table changes one entry: those of the new table are zero, as if
      it were not there. */
  lemma LinkEntryAt(mem: Memory, root: Frame, p: seq<nat>, f: Frame, i: nat, e: Entry)
    requires CanLink(mem, root, p, f, i, e)
    ensures Rewritten(mem, Link(mem, f, i, e), root, p + [i], e)
  {
    hide Tab, Read, Link, FrameOf, Present, Unshared;
    LinkTab(mem, root, p, f, i, e);
    NotLinkedItself(mem, root, p, f, i, e);
    forall q | EntryPath(q)
      ensures EntryAt(Link(mem, f, i, e), root, q) == if q == p + [i] then e else EntryAt(mem, root, q)
    {
      LinkOneEntry(mem, root, p, f, i, e, q);
    }
  }

  lemma LinkOneEntry(mem: Memory, root: Frame, p: seq<nat>, f: Frame, i: nat, e: Entry, q: seq<nat>)
    requires CanLink(mem, root, p, f, i, e) && EntryPath(q) && FrameOf(e) != f
    requires var q0 := q[..|q| - 1];
             Tab(Link(mem, f, i, e), root, q0) == if q0 == p + [i] then Some(FrameOf(e)) else Tab(mem, root, q0)
    ensures EntryAt(Link(mem, f, i, e), root, q) == if q == p + [i] then e else EntryAt(mem, root, q)
  {
    hide Tab, Read, Link, FrameOf, Present;
    var q0, j := q[..|q| - 1], q[|q| - 1];
    assert q == q0 + [j] && TablePath(q0);
    if q0 == p + [i] {
      LinkRead(mem, f, i, e, FrameOf(e), j);
    } else {
      var t := Tab(mem, root, q0);
      if t.Some? {
        LinkRead(mem, f, i, e, t.value, j);
        assert t.value == f ==> q0 == p;
      }
    }
  }

  // ---- Opening the way to a page ----

  /** An entry that leads to a table: it allows all that the page's own entry
      may allow, but nothing to user code in the higher half. */
  predicate Passes(e: Entry, p4: nat) {
    Present(e) && Has(e, PAGE_WRITE) && !Has(e, PAGE_NX) && (Has(e, PAGE_USER) <==> p4 <= 255)
  }

  /** The first n entries on the way to a page that were not there now lead to
      tables; all other entries are as before. */
  ghost predicate Opened(mem: Memory, mem': Memory, root: Frame, page: seq<nat>, n: nat)
    requires n <= |page| == 4
  {
    forall q | EntryPath(q) ::
      if q <= page[..n] && !Present(EntryAt(mem, root, q)) then Passes(EntryAt(mem', root, q), page[0])
      else EntryAt(mem', root, q) == EntryAt(mem, root, q)
  }

  /** Likewise for one entry alone. */
  ghost predicate OpenedOne(mem: Memory, mem': Memory, root: Frame, path: seq<nat>, p4: nat) {
    forall q | EntryPath(q) ::
      if q == path && !Present(EntryAt(mem, root, q)) then Passes(EntryAt(mem', root, q), p4)
      else EntryAt(mem', root, q) == EntryAt(mem, root, q)
  }

  lemma OpenedNone(mem: Memory, root: Frame, page: seq<nat>)
    requires |page| == 4
    ensures Opened(mem, mem, root, page, 0)
  {
    hide EntryAt;
  }

  lemma OpenedNext(mem: Memory, between: Memory, mem': Memory, root: Frame, page: seq<nat>, n: nat)
    requires n < |page| == 4 && Opened(mem, between, root, page, n)
    requires OpenedOne(between, mem', root, page[..n + 1], page[0])
    ensures Opened(mem, mem', root, page, n + 1)
  {
    hide EntryAt, Present, Passes;
    forall q | EntryPath(q)
      ensures if q <= page[..n + 1] && !Present(EntryAt(mem, root, q)) then Passes(EntryAt(mem', root, q), page[0])
              else EntryAt(mem', root, q) == EntryAt(mem, root, q)
    {
      assert q <= page[..n + 1] && q != page[..n + 1] ==> q == page[..n][..|q|];
      assert q <= page[..n] ==> q == page[..n + 1][..|q|];
    }
  }

  /** The entry of a page is as asked for, those on the way that were missing
      lead to tables, and all other entries are as before. */
  ghost predicate Mapped(mem: Memory, mem': Memory, root: Frame, page: seq<nat>, e: Entry)
    requires |page| == 4
  {
    forall q | EntryPath(q) ::
      if q == page then EntryAt(mem', root, q) == e
      else if q <= page && !Present(EntryAt(mem, root, q)) then Passes(EntryAt(mem', root, q), page[0])
      else EntryAt(mem', root, q) == EntryAt(mem, root, q)
  }

  lemma OpenedMapped(mem: Memory, between: Memory, mem': Memory, root: Frame, page: seq<nat>, e: Entry)
    requires |page| == 4 && Opened(mem, between, root, page, 3) && Rewritten(between, mem', root, page, e)
    ensures Mapped(mem, mem', root, page, e)
  {
    hide EntryAt, Present, Passes;
    forall q | EntryPath(q) && q != page ensures q <= page[..3] <==> q <= page {
      if q <= page {
        assert q == page[..|q|] == page[..3][..|q|];
      }
    }
  }

  // ---- Access ----

  /** The entries on the way to a page that are there carry the bit. */
  ghost predicate Carry(mem: Memory, root: Frame, page: seq<nat>, bit: Entry)
    requires |page| == 4
  {
    forall n | 1 <= n <= 3 && Present(EntryAt(mem, root, page[..n])) :: Has(EntryAt(mem, root, page[..n]), bit)
  }

  ghost predicate CarryNoNX(mem: Memory, root: Frame, page: seq<nat>)
    requires |page| == 4
  {
    forall n | 1 <= n <= 3 && Present(EntryAt(mem, root, page[..n])) :: !Has(EntryAt(mem, root, page[..n]), PAGE_NX)
  }

  lemma Prefixes(page: seq<nat>, n: nat)
    requires Page(page) && 1 <= n <= 4
    ensures EntryPath(page[..n]) && page[..n] <= page && (page[..n] == page <==> n == 4)
  {
    assert forall i | 0 <= i < 3 :: page[i] == page[..3][i];
  }

  /** The page that has been mapped can be used as its own entry says. */
  lemma MappedAllows(mem: Memory, mem': Memory, root: Frame, page: seq<nat>, e: Entry)
    requires Page(page) && Mapped(mem, mem', root, page, e)
    ensures Carry(mem, root, page, PAGE_WRITE) ==>
              (Allows(mem', root, page, PAGE_WRITE) <==> Present(e) && Has(e, PAGE_WRITE))
    ensures page[0] <= 255 && Carry(mem, root, page, PAGE_USER) ==>
              (Allows(mem', root, page, PAGE_USER) <==> Present(e) && Has(e, PAGE_USER))
    ensures CarryNoNX(mem, root, page) ==> (Executable(mem', root, page) <==> Present(e) && !Has(e, PAGE_NX))
    ensures !Has(e, PAGE_USER) ==> !Allows(mem', root, page, PAGE_USER)
  {
    hide EntryAt, Present, Has;
    forall n | 1 <= n <= 4
      ensures n < 4 && !Present(EntryAt(mem, root, page[..n])) ==> Passes(EntryAt(mem', root, page[..n]), page[0])
      ensures n < 4 && Present(EntryAt(mem, root, page[..n])) ==> EntryAt(mem', root, page[..n]) == EntryAt(mem, root, page[..n])
      ensures n == 4 ==> EntryAt(mem', root, page[..n]) == e
    {
      Prefixes(page, n);
    }
    assert EntryAt(mem', root, page[..4]) == e;
  }

  /** Below an entry that is not there, no entry is. */
  lemma NothingBelow(mem: Memory, root: Frame, page: seq<nat>, n: nat)
    requires Page(page) && 1 <= n <= 3 && !Present(EntryAt(mem, root, page[..n]))
    ensures EntryAt(mem, root, page) == 0
    decreases 3 - n
  {
    hide Present, Read, FrameOf;
    assert page[..n] == page[..n][..n - 1] + [page[n - 1]] && page[..n][..n - 1] == page[..n - 1];
    TabStep(mem, root, page[..n - 1], page[n - 1]);
    assert Tab(mem, root, page[..n]) == None;
    if n < 3 {
      assert page[..n + 1][..n] == page[..n];
      NotPresentZero();
      NothingBelow(mem, root, page, n + 1);
    }
  }

  /** Every other page can be used as before. */
  lemma OthersAllow(mem: Memory, mem': Memory, root: Frame, page: seq<nat>, e: Entry, other: seq<nat>, bit: Entry)
    requires Page(page) && Page(other) && other != page && Mapped(mem, mem', root, page, e)
    ensures Allows(mem', root, other, bit) == Allows(mem, root, other, bit)
    ensures Executable(mem', root, other) == Executable(mem, root, other)
  {
    hide EntryAt, Present, Has;
    assert other[..4] == other;
    Prefixes(other, 4);
    assert !(other <= page);
    if exists n :: 1 <= n <= 3 && !Present(EntryAt(mem, root, other[..n])) {
      var n :| 1 <= n <= 3 && !Present(EntryAt(mem, root, other[..n]));
      NothingBelow(mem, root, other, n);
      NotPresentZero();
      assert !Present(EntryAt(mem', root, other[..4]));
    } else {
      forall n | 1 <= n <= 4 ensures EntryAt(mem', root, other[..n]) == EntryAt(mem, root, other[..n]) {
        Prefixes(other, n);
      }
    }
  }
}
