/** The extent allocator behind the physical and virtual address allocators.
    Addresses are counted in pages. */
module Extents {
  import opened Options

  datatype Extent = Extent(addr: nat, size: nat)

  function End(e: Extent): nat {
    e.addr + e.size
  }

  predicate In(e: Extent, x: nat) {
    e.addr <= x < End(e)
  }

  /** Whether a page is free. */
  ghost predicate Has(list: seq<Extent>, x: nat) {
    exists i :: 0 <= i < |list| && In(list[i], x)
  }

  /** No page is free twice. */
  ghost predicate Disjoint(list: seq<Extent>) {
    forall i, j, x | 0 <= i < j < |list| && In(list[i], x) :: !In(list[j], x)
  }

  ghost predicate NoneEmpty(list: seq<Extent>) {
    forall i | 0 <= i < |list| :: list[i].size > 0
  }

  function Total(list: seq<Extent>): nat {
    if list == [] then 0 else list[0].size + Total(list[1..])
  }

  predicate Within(addr: nat, num: nat, x: nat) {
    addr <= x < addr + num
  }

  // ---- Changing one extent of a list ----

  /** The extent at i is replaced by one that has gained or lost some pages. */
  lemma Replaced(list: seq<Extent>, i: nat, e: Extent)
    requires Disjoint(list) && i < |list|
    requires forall x | In(e, x) && !In(list[i], x) :: !Has(list, x)
    ensures Disjoint(list[i := e])
    ensures forall x :: Has(list[i := e], x) <==> In(e, x) || (Has(list, x) && !In(list[i], x))
  {
    var list' := list[i := e];
    forall x ensures Has(list', x) <==> In(e, x) || (Has(list, x) && !In(list[i], x)) {
      if In(e, x) {
        assert In(list'[i], x);
      }
      if Has(list, x) && !In(list[i], x) {
        var j :| 0 <= j < |list| && In(list[j], x);
        assert In(list'[j], x);
      }
    }
  }

  lemma Removed(list: seq<Extent>, i: nat)
    requires Disjoint(list) && i < |list|
    ensures Disjoint(list[..i] + list[i + 1..])
    ensures forall x :: Has(list[..i] + list[i + 1..], x) <==> Has(list, x) && !In(list[i], x)
    ensures NoneEmpty(list) ==> NoneEmpty(list[..i] + list[i + 1..])
  {
    var list' := list[..i] + list[i + 1..];
    assert forall j | 0 <= j < |list'| :: list'[j] == list[if j < i then j else j + 1];
    forall x ensures Has(list', x) <==> Has(list, x) && !In(list[i], x) {
      if Has(list, x) && !In(list[i], x) {
        var j :| 0 <= j < |list| && In(list[j], x);
        assert In(list'[if j < i then j else j - 1], x);
      }
      if Has(list', x) {
        var j :| 0 <= j < |list'| && In(list'[j], x);
        assert In(list[if j < i then j else j + 1], x);
      }
    }
  }

  lemma Added(list: seq<Extent>, e: Extent)
    requires Disjoint(list) && forall x | In(e, x) :: !Has(list, x)
    ensures Disjoint([e] + list)
    ensures forall x :: Has([e] + list, x) <==> In(e, x) || Has(list, x)
    ensures NoneEmpty([e] + list) <==> e.size > 0 && NoneEmpty(list)
  {
    var list' := [e] + list;
    assert list'[0] == e && forall j | 0 <= j < |list| :: list'[j + 1] == list[j];
    forall x ensures Has(list', x) <==> In(e, x) || Has(list, x) {
      if In(e, x) {
        assert In(list'[0], x);
      }
      if Has(list, x) {
        var j :| 0 <= j < |list| && In(list[j], x);
        assert In(list'[j + 1], x);
      }
    }
    if NoneEmpty(list') {
      forall j | 0 <= j < |list| ensures list[j].size > 0 {
        assert list'[j + 1].size > 0;
      }
    }
  }

  lemma {:induction false} TotalAt(list: seq<Extent>, i: nat, e: Extent)
    requires i < |list|
    ensures Total(list[i := e]) == Total(list) - list[i].size + e.size
    decreases |list|
  {
    if i > 0 {
      assert list[i := e][1..] == list[1..][i - 1 := e];
      TotalAt(list[1..], i - 1, e);
    } else {
      assert list[0 := e][1..] == list[1..];
    }
  }

  lemma {:induction false} TotalRemoved(list: seq<Extent>, i: nat)
    requires i < |list|
    ensures Total(list[..i] + list[i + 1..]) == Total(list) - list[i].size
    decreases |list|
  {
    var list' := list[..i] + list[i + 1..];
    if i > 0 {
      assert list'[1..] == list[1..][..i - 1] + list[1..][i..];
      TotalRemoved(list[1..], i - 1);
    } else {
      assert list' == list[1..];
    }
  }

  /** Exactly the pages of a range, all of them free before, are no longer. */
  ghost predicate Took(list: seq<Extent>, list': seq<Extent>, addr: nat, num: nat) {
    && Disjoint(list') && Total(list') + num == Total(list)
    && (forall x :: Has(list', x) <==> Has(list, x) && !Within(addr, num, x))
    && (forall x | Within(addr, num, x) :: Has(list, x))
  }

  /** Where the extent is that a release meets first: one that starts where the
      range ends, ends where it starts, or starts where it starts. */
  predicate Touches(e: Extent, addr: nat, num: nat) {
    addr + num == e.addr || End(e) == addr || e.addr == addr
  }

  function FirstTouch(list: seq<Extent>, addr: nat, num: nat): (i: nat)
    ensures i <= |list| && (i < |list| ==> Touches(list[i], addr, num))
    ensures forall j | 0 <= j < i :: !Touches(list[j], addr, num)
  {
    if list == [] || Touches(list[0], addr, num) then 0 else 1 + FirstTouch(list[1..], addr, num)
  }

  /** The release meets an extent that starts where the range ends. */
  predicate MeetsBelow(list: seq<Extent>, addr: nat, num: nat) {
    var i := FirstTouch(list, addr, num);
    i < |list| && addr + num == list[i].addr
  }

  /** The release meets an extent that starts where the range starts, which the
      kernel takes for a page freed twice. */
  predicate MeetsItself(list: seq<Extent>, addr: nat, num: nat) {
    var i := FirstTouch(list, addr, num);
    i < |list| && addr + num != list[i].addr && End(list[i]) != addr
  }

  class State {
    var list: seq<Extent>

    /** Pages handed out and not given back. */
    ghost var out: set<nat>

    /** No page is free twice, and none is both free and handed out. */
    ghost predicate Valid()
      reads this
    {
      Disjoint(list) && forall x | x in out :: !Has(list, x)
    }

    constructor ()
      ensures Valid() && list == [] && out == {}
    {
      list, out := [], {};
    }

    method AddExtent(addr: nat, size: nat)
      modifies `list
      ensures list == [Extent(addr, size)] + old(list)
    {
      list := [Extent(addr, size)] + list;
    }

    /** Takes the pages from the bottom of the first extent that is large enough
        and that the caller accepts. Exactly those pages stop being free. */
    method Allocate(num: nat, satisfies: (nat, nat) -> bool) returns (r: Option<nat>)
      requires Valid() && num > 0
      modifies this
      ensures Valid()
      ensures r == None <==> forall i | 0 <= i < |old(list)| ::
                !(old(list)[i].size >= num && satisfies(old(list)[i].addr, num))
      ensures r == None ==> list == old(list) && out == old(out)
      ensures r.Some? ==> satisfies(r.value, num) && out == old(out) + Range(r.value, num)
      ensures r.Some? ==> exists i ::
                && 0 <= i < |old(list)| && old(list)[i].addr == r.value && old(list)[i].size >= num
                && forall j | 0 <= j < i :: !(old(list)[j].size >= num && satisfies(old(list)[j].addr, num))
      ensures r.Some? ==> Took(old(list), list, r.value, num)
      ensures NoneEmpty(old(list)) ==> NoneEmpty(list)
    {
      hide Disjoint, Has, Took, NoneEmpty;
      for i := 0 to |list|
        invariant list == old(list) && out == old(out)
        invariant forall j | 0 <= j < i :: !(list[j].size >= num && satisfies(list[j].addr, num))
      {
        var e := list[i];
        if e.size >= num && satisfies(e.addr, num) {
          var rest := Extent(e.addr + num, e.size - num);
          Taken(list, i, rest, num);
          if rest.size == 0 {
            list := list[..i] + list[i + 1..];
          } else {
            list := list[i := rest];
          }
          TookValid(old(list), list, out, e.addr, num);
          out := out + Range(e.addr, num);
          return Some(e.addr);
        }
      }
      return None;
    }

    /** Takes a range that lies within the extent at i. An extent that is taken
        whole stays in the list with nothing in it. */
    method TakeFrom(i: nat, start: nat, num: nat)
      requires Valid() && i < |list| && list[i].addr <= start && End(list[i]) >= start + num
      modifies this
      ensures Valid() && out == old(out) + Range(start, num) && Took(old(list), list, start, num)
      ensures NoneEmpty(old(list)) ==> (NoneEmpty(list) <==> Extent(start, num) !in old(list))
    {
      hide Disjoint, Has, Took, In, NoneEmpty;
      var e := list[i];
      Exactly(list, i, start, num);
      if e.addr == start {
        TakenBottom(list, i, num);
        EmptyAt(list, i, Extent(e.addr + num, e.size - num));
        list := list[i := Extent(e.addr + num, e.size - num)];
      } else if start + num == End(e) {
        TakenTop(list, i, num);
        EmptyAt(list, i, Extent(e.addr, e.size - num));
        list := list[i := Extent(e.addr, e.size - num)];
      } else {
        TakenMiddle(list, i, start, num);
        list := list[i := Extent(e.addr, start - e.addr)];
        AddExtent(start + num, End(e) - (start + num));
      }
      TookValid(old(list), list, out, start, num);
      out := out + Range(start, num);
    }

    /** Takes a given range, which has to lie within one extent. */
    method AllocateSpecific(start: nat, num: nat) returns (r: Option<nat>)
      requires Valid()
      modifies this
      ensures Valid()
      ensures r == None <==> forall i | 0 <= i < |old(list)| ::
                !(old(list)[i].addr <= start && End(old(list)[i]) >= start + num)
      ensures r == None ==> list == old(list) && out == old(out)
      ensures r.Some? ==> r.value == start && out == old(out) + Range(start, num)
      ensures r.Some? ==> Took(old(list), list, start, num)
      ensures NoneEmpty(old(list)) ==>
                (NoneEmpty(list) <==> !(r.Some? && Extent(start, num) in old(list)))
    {
      hide Disjoint, Has, Took, NoneEmpty;
      for i := 0 to |list|
        invariant list == old(list) && out == old(out)
        invariant forall j | 0 <= j < i :: !(list[j].addr <= start && End(list[j]) >= start + num)
      {
        var e := list[i];
        if e.addr <= start && End(e) >= start + num {
          TakeFrom(i, start, num);
          return Some(start);
        }
      }
      return None;
    }

    /** Gives a range back. What is free afterwards was free before or is in the
        range. Nothing is lost unless the range is met by an extent that starts
        where it ends: that extent is moved down and not made larger. */
    method Deallocate(addr: nat, num: nat) returns (ok: bool)
      requires Valid()
      modifies this
      ensures ok <==> !MeetsItself(old(list), addr, num)
      ensures old(Owned(out, addr, num)) ==> ok && Valid() && out == old(out) - Range(addr, num)
      ensures old(Owned(out, addr, num)) ==> Gave(old(list), list, addr, num)
    {
      hide Disjoint, Has, Took, In, Gave, MeetsItself, Owned;
      ghost var owned := Owned(out, addr, num);
      for i := 0 to |list|
        invariant list == old(list) && out == old(out) && owned == old(Owned(out, addr, num))
        invariant forall j | 0 <= j < i :: !Touches(list[j], addr, num)
      {
        var e := list[i];
        Meets(list, i, addr, num);
        if addr + num == e.addr {
          GaveBelow(list, out, i, addr, num);
          list := list[i := Extent(addr, e.size)];
          out := out - Range(addr, num);
          return true;
        } else if End(e) == addr {
          GaveAbove(list, out, i, addr, num);
          list := list[i := Extent(e.addr, e.size + num)];
          out := out - Range(addr, num);
          return true;
        } else if e.addr == addr {
          NotItself(list, out, i, addr, num);
          return false;
        }
      }
      MeetsNone(list, addr, num);
      GaveNew(list, out, addr, num);
      AddExtent(addr, num);
      out := out - Range(addr, num);
      return true;
    }

    /** True exactly if no extent is empty and no two have a page in common. */
    method CheckConsistency() returns (ok: bool)
      ensures ok <==> NoneEmpty(list) && Disjoint(list)
    {
      hide Disjoint;
      for i := 0 to |list|
        invariant forall k | 0 <= k < i :: list[k].size > 0 && ApartFrom(list, k, |list|)
      {
        for j := i + 1 to |list|
          invariant ApartFrom(list, i, j)
        {
          if Intersects(list[i], list[j]) {
            Crossing(list, i, j);
            return false;
          }
        }
        if list[i].size == 0 {
          return false;
        }
      }
      AllApart(list);
      return true;
    }
  }

  /** How the addresses are compared; an empty extent within another counts. */
  predicate Intersects(a: Extent, b: Extent) {
    || (b.addr <= a.addr && a.addr < End(b))
    || (a.addr <= b.addr && b.addr < End(a))
  }

  ghost predicate ApartFrom(list: seq<Extent>, i: nat, n: nat) {
    i < |list| && n <= |list| && forall j | i < j < n :: !Intersects(list[i], list[j])
  }

  lemma Crossing(list: seq<Extent>, i: nat, j: nat)
    requires i < j < |list| && Intersects(list[i], list[j])
    ensures !(NoneEmpty(list) && Disjoint(list))
  {
    var a, b := list[i], list[j];
    var x := if b.addr <= a.addr then a.addr else b.addr;
    if NoneEmpty(list) {
      assert In(a, x) && In(b, x);
    }
  }

  lemma AllApart(list: seq<Extent>)
    requires forall k | 0 <= k < |list| :: list[k].size > 0 && ApartFrom(list, k, |list|)
    ensures NoneEmpty(list) && Disjoint(list)
  {
    forall i, j, x | 0 <= i < j < |list| && In(list[i], x) ensures !In(list[j], x) {
      assert ApartFrom(list, i, |list|);
      assert !Intersects(list[i], list[j]);
    }
  }

  /** Where the pages begin that are lost when the range is met from below: the
      extent keeps its size, so they are as many as it was moved by. */
  function LostFrom(list: seq<Extent>, addr: nat, num: nat): nat
    requires MeetsBelow(list, addr, num)
  {
    addr + list[FirstTouch(list, addr, num)].size
  }

  /** What giving a range back does to the free pages. */
  ghost predicate Gave(list: seq<Extent>, list': seq<Extent>, addr: nat, num: nat) {
    && Total(list') == Total(list) + (if MeetsBelow(list, addr, num) then 0 else num)
    && if MeetsBelow(list, addr, num) then
         var lost := LostFrom(list, addr, num);
         forall x :: Has(list', x) <==> (Has(list, x) || Within(addr, num, x)) && !Within(lost, num, x)
       else
         forall x :: Has(list', x) <==> Has(list, x) || Within(addr, num, x)
  }

  lemma Meets(list: seq<Extent>, i: nat, addr: nat, num: nat)
    requires i < |list| && forall j | 0 <= j < i :: !Touches(list[j], addr, num)
    ensures Touches(list[i], addr, num) ==> FirstTouch(list, addr, num) == i
    ensures Touches(list[i], addr, num) ==>
              (MeetsItself(list, addr, num) <==> addr + num != list[i].addr && End(list[i]) != addr)
  {
    hide FirstTouch;
  }

  lemma MeetsNone(list: seq<Extent>, addr: nat, num: nat)
    requires forall j | 0 <= j < |list| :: !Touches(list[j], addr, num)
    ensures !MeetsItself(list, addr, num) && FirstTouch(list, addr, num) == |list|
  {
    hide FirstTouch;
  }

  /** A page that begins a free extent is not handed out. */
  lemma NotItself(list: seq<Extent>, out: set<nat>, i: nat, addr: nat, num: nat)
    requires Disjoint(list) && (forall x | x in out :: !Has(list, x)) && i < |list|
    requires list[i].addr == addr && End(list[i]) != addr && addr + num != addr
    ensures !Owned(out, addr, num)
  {
    assert In(list[i], addr) && Within(addr, num, addr);
  }

  lemma GaveBelow(list: seq<Extent>, out: set<nat>, i: nat, addr: nat, num: nat)
    requires Disjoint(list) && (forall x | x in out :: !Has(list, x)) && i < |list|
    requires addr + num == list[i].addr && FirstTouch(list, addr, num) == i
    ensures var list' := list[i := Extent(addr, list[i].size)];
            Owned(out, addr, num) ==>
              && Disjoint(list') && (forall x | x in out - Range(addr, num) :: !Has(list', x))
              && Gave(list, list', addr, num)
  {
    hide Disjoint, Has, FirstTouch;
    var e := Extent(addr, list[i].size);
    if Owned(out, addr, num) {
      HasAll(list, i);
      Replaced(list, i, e);
      TotalAt(list, i, e);
      forall x ensures Has(list[i := e], x) <==>
                       (Has(list, x) || Within(addr, num, x)) && !Within(addr + list[i].size, num, x) {
        NotBoth(list, out, i, addr, num, x);
      }
    }
  }

  /** A free page outside the extent just above the range is above it or below
      the range. */
  lemma NotBoth(list: seq<Extent>, out: set<nat>, i: nat, addr: nat, num: nat, x: nat)
    requires Disjoint(list) && (forall y | y in out :: !Has(list, y)) && i < |list| && addr + num == list[i].addr
    requires Owned(out, addr, num)
    ensures Has(list, x) && !In(list[i], x) ==> x < addr || x >= End(list[i])
  {
    if Within(addr, num, x) {
      assert !Has(list, x);
    }
  }

  lemma GaveAbove(list: seq<Extent>, out: set<nat>, i: nat, addr: nat, num: nat)
    requires Disjoint(list) && (forall x | x in out :: !Has(list, x)) && i < |list|
    requires End(list[i]) == addr && addr + num != list[i].addr && FirstTouch(list, addr, num) == i
    ensures var list' := list[i := Extent(list[i].addr, list[i].size + num)];
            Owned(out, addr, num) ==>
              && Disjoint(list') && (forall x | x in out - Range(addr, num) :: !Has(list', x))
              && Gave(list, list', addr, num)
  {
    hide Disjoint, Has, FirstTouch;
    var e := Extent(list[i].addr, list[i].size + num);
    if Owned(out, addr, num) {
      HasAll(list, i);
      assert forall x | Within(addr, num, x) || In(list[i], x) :: In(e, x);
      Replaced(list, i, e);
      TotalAt(list, i, e);
    }
  }

  lemma GaveNew(list: seq<Extent>, out: set<nat>, addr: nat, num: nat)
    requires Disjoint(list) && (forall x | x in out :: !Has(list, x)) && FirstTouch(list, addr, num) == |list|
    ensures var list' := [Extent(addr, num)] + list;
            Owned(out, addr, num) ==>
              && Disjoint(list') && (forall x | x in out - Range(addr, num) :: !Has(list', x))
              && Gave(list, list', addr, num)
  {
    hide Disjoint, Has, FirstTouch;
    var e := Extent(addr, num);
    if Owned(out, addr, num) {
      assert forall x | In(e, x) :: Within(addr, num, x);
      assert forall x | Within(addr, num, x) :: In(e, x);
      Added(list, e);
      assert ([e] + list)[1..] == list;
    }
  }

  /** Every page of the range is handed out. */
  ghost predicate Owned(out: set<nat>, addr: nat, num: nat) {
    forall x | Within(addr, num, x) :: x in out
  }

  ghost function Range(addr: nat, num: nat): set<nat> {
    set x | addr <= x < addr + num && Within(addr, num, x)
  }

  lemma TookValid(list: seq<Extent>, list': seq<Extent>, out: set<nat>, addr: nat, num: nat)
    requires Disjoint(list) && (forall x | x in out :: !Has(list, x)) && Took(list, list', addr, num)
    ensures Disjoint(list') && forall x | x in out + Range(addr, num) :: !Has(list', x)
  {
  }

  lemma EmptyAt(list: seq<Extent>, i: nat, e: Extent)
    requires i < |list|
    ensures NoneEmpty(list) ==> (NoneEmpty(list[i := e]) <==> e.size > 0)
  {
    assert list[i := e][i] == e;
  }

  lemma Taken(list: seq<Extent>, i: nat, rest: Extent, num: nat)
    requires Disjoint(list) && i < |list| && 0 < num <= list[i].size
    requires rest == Extent(list[i].addr + num, list[i].size - num)
    ensures var list' := if rest.size == 0 then list[..i] + list[i + 1..] else list[i := rest];
            && Took(list, list', list[i].addr, num)
            && (NoneEmpty(list) ==> NoneEmpty(list'))
  {
    assert forall x | Within(list[i].addr, num, x) :: In(list[i], x);
    Only(list, i);
    if rest.size == 0 {
      Removed(list, i);
      TotalRemoved(list, i);
    } else {
      Replaced(list, i, rest);
      TotalAt(list, i, rest);
    }
  }

  /** A page of one extent is in no other. */
  lemma Only(list: seq<Extent>, i: nat)
    requires Disjoint(list) && i < |list|
    ensures forall x, j | 0 <= j < |list| && j != i && In(list[j], x) :: !In(list[i], x)
  {
  }

  lemma TakenBottom(list: seq<Extent>, i: nat, num: nat)
    requires Disjoint(list) && i < |list| && num <= list[i].size
    ensures var list' := list[i := Extent(list[i].addr + num, list[i].size - num)];
            && Took(list, list', list[i].addr, num)
  {
    var e := Extent(list[i].addr + num, list[i].size - num);
    Replaced(list, i, e);
    TotalAt(list, i, e);
    assert forall x | Within(list[i].addr, num, x) :: In(list[i], x);
  }

  lemma TakenTop(list: seq<Extent>, i: nat, num: nat)
    requires Disjoint(list) && i < |list| && num <= list[i].size
    ensures var list' := list[i := Extent(list[i].addr, list[i].size - num)];
            && Took(list, list', End(list[i]) - num, num)
  {
    var e := Extent(list[i].addr, list[i].size - num);
    Replaced(list, i, e);
    TotalAt(list, i, e);
    assert forall x | Within(End(list[i]) - num, num, x) :: In(list[i], x);
  }

  lemma HasAll(list: seq<Extent>, i: nat)
    requires i < |list|
    ensures forall x | In(list[i], x) :: Has(list, x)
  {
  }

  lemma TakenMiddle(list: seq<Extent>, i: nat, start: nat, num: nat)
    requires Disjoint(list) && i < |list| && list[i].addr < start && start + num < End(list[i])
    ensures var e := list[i]; var front := list[i := Extent(e.addr, start - e.addr)];
            var list' := [Extent(start + num, End(e) - (start + num))] + front;
            && Took(list, list', start, num)
            && (NoneEmpty(list) ==> NoneEmpty(list'))
  {
    hide Disjoint, Has, NoneEmpty;
    var e := list[i];
    EmptyAt(list, i, Extent(e.addr, start - e.addr));
    var front := list[i := Extent(e.addr, start - e.addr)];
    var back := Extent(start + num, End(e) - (start + num));
    Replaced(list, i, front[i]);
    TotalAt(list, i, front[i]);
    HasAll(list, i);
    assert forall x | In(back, x) :: In(e, x) && !In(front[i], x);
    Added(front, back);
    assert ([back] + front)[1..] == front;
    assert forall x | Within(start, num, x) :: In(e, x);
  }

  /** Within one extent there is no other with the same bounds. */
  lemma Exactly(list: seq<Extent>, i: nat, start: nat, num: nat)
    requires Disjoint(list) && i < |list| && list[i].addr <= start && start + num <= End(list[i])
    ensures NoneEmpty(list) ==> (Extent(start, num) in list <==> list[i] == Extent(start, num))
  {
    if NoneEmpty(list) && Extent(start, num) in list {
      var j :| 0 <= j < |list| && list[j] == Extent(start, num);
      assert In(list[j], start) && In(list[i], start);
    }
  }

  /** Nothing is lost exactly if nothing was given back or the range is not met
      by an extent that starts where it ends. The pages given back are all free
      again exactly if it is not met that way or by one that is large enough. */
  lemma Conserves(list: seq<Extent>, list': seq<Extent>, addr: nat, num: nat)
    requires Gave(list, list', addr, num)
    ensures (forall x :: Has(list', x) <==> Has(list, x) || Within(addr, num, x)) <==>
            num == 0 || !MeetsBelow(list, addr, num)
    ensures (forall x | Within(addr, num, x) :: Has(list', x)) <==>
            !MeetsBelow(list, addr, num) || LostFrom(list, addr, num) >= addr + num || num == 0
  {
    hide FirstTouch, Has;
    if MeetsBelow(list, addr, num) && num > 0 {
      var lost := LostFrom(list, addr, num);
      var size := list[FirstTouch(list, addr, num)].size;
      HasAll(list, FirstTouch(list, addr, num));
      assert Within(lost, num, lost);
      assert size >= num ==> In(list[FirstTouch(list, addr, num)], lost);
      assert size < num ==> Within(addr, num, lost);
    }
  }

  /** A range that is taken from the bottom of an extent and given back at once
      comes back if an earlier extent ends where it starts; otherwise as many
      pages are lost from the top of the extent. */
  lemma RoundTripLoses(list: seq<Extent>, i: nat, num: nat, list': seq<Extent>)
    requires Disjoint(list) && NoneEmpty(list) && i < |list| && 0 < num < list[i].size
    requires Gave(list[i := Extent(list[i].addr + num, list[i].size - num)], list', list[i].addr, num)
    ensures if exists j :: 0 <= j < i && End(list[j]) == list[i].addr
            then forall x :: Has(list', x) <==> Has(list, x)
            else forall x :: Has(list', x) <==> Has(list, x) && !Within(End(list[i]) - num, num, x)
  {
    hide FirstTouch, Has, Disjoint;
    var addr := list[i].addr;
    TakenBottom(list, i, num);
    MetAgain(list, i, num);
  }

  lemma MetAgain(list: seq<Extent>, i: nat, num: nat)
    requires Disjoint(list) && NoneEmpty(list) && i < |list| && 0 < num < list[i].size
    ensures var addr := list[i].addr; var left := list[i := Extent(addr + num, list[i].size - num)];
            && (MeetsBelow(left, addr, num) <==> forall j | 0 <= j < i :: End(list[j]) != addr)
            && (MeetsBelow(left, addr, num) ==> LostFrom(left, addr, num) == End(list[i]) - num)
  {
    hide FirstTouch;
    var addr := list[i].addr;
    var left := list[i := Extent(addr + num, list[i].size - num)];
    assert In(list[i], addr) && In(list[i], addr + num);
    forall j | 0 <= j < i ensures Touches(left[j], addr, num) <==> End(list[j]) == addr {
      assert In(list[j], list[j].addr);
    }
    assert Touches(left[i], addr, num);
  }
}
