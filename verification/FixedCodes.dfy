/** The fixed Huffman codes (section 3.2.6 of RFC 1951) and the arrays tinflate
    fills in for them without computing anything. */
module FixedCodes {
  import opened Bits
  import opened Huffman
  import opened InflateSpec
  import opened TinfTree

  function Clamp(x: int, hi: nat): nat {
    if x < 0 then 0 else if x > hi then hi else x
  }

  /** How many of the first s literal symbols have length l. */
  function LitsBefore(s: nat, l: nat): nat {
    if l == 7 then Clamp(s - 256, 24)
    else if l == 8 then Clamp(s, 144) + Clamp(s - 280, 8)
    else if l == 9 then Clamp(s - 144, 112)
    else 0
  }

  lemma LitAt(s: nat)
    requires s < 288
    ensures FixedLits()[s] == if s < 144 then 8 else if s < 256 then 9 else if s < 280 then 7 else 8
  {
  }

  lemma {:induction false} LitCount(s: nat, l: nat)
    requires s <= 288
    ensures Count(FixedLits()[..s], l) == LitsBefore(s, l)
  {
    if s > 0 {
      LitCount(s - 1, l);
      CountStep(FixedLits(), s - 1, l);
      LitAt(s - 1);
    }
  }

  lemma LitCounts(l: nat)
    ensures Count(FixedLits(), l) == LitsBefore(288, l)
  {
    LitCount(288, l);
    assert FixedLits()[..288] == FixedLits();
  }

  lemma {:induction false} LitBelow(l: nat)
    requires l <= 16
    ensures Below(FixedLits(), l) == if l <= 7 then 0 else if l == 8 then 24 else if l == 9 then 176 else 288
  {
    if l > 0 {
      LitBelow(l - 1);
      LitCounts(l - 1);
    }
  }

  lemma {:induction false} LitLeft(d: nat)
    requires d <= 15
    ensures Left(FixedLits(), d) == if d <= 6 then Pow2(d) else if d == 7 then 104 else if d == 8 then 56 else 0
  {
    if d > 0 {
      LitLeft(d - 1);
      LitCounts(d);
      assert Left(FixedLits(), d) == 2 * Left(FixedLits(), d - 1) - Num(FixedLits(), d);
      assert Pow2(6) == 64;
    }
  }

  lemma LitPosition(s: nat)
    requires s < 288
    ensures Position(FixedLits(), s) ==
            if s < 144 then 24 + s else if s < 256 then 32 + s else if s < 280 then s - 256 else s - 112
  {
    LitAt(s);
    LitBelow(FixedLits()[s]);
    LitCount(s, FixedLits()[s]);
  }

  lemma {:induction false} DistCount(s: nat, l: nat)
    requires s <= 32
    ensures Count(FixedDists()[..s], l) == if l == 5 then s else 0
  {
    if s > 0 {
      DistCount(s - 1, l);
      CountStep(FixedDists(), s - 1, l);
    }
  }

  lemma DistCounts(l: nat)
    ensures Count(FixedDists(), l) == if l == 5 then 32 else 0
  {
    DistCount(32, l);
    assert FixedDists()[..32] == FixedDists();
  }

  lemma {:induction false} DistBelow(l: nat)
    requires l <= 16
    ensures Below(FixedDists(), l) == if l <= 5 then 0 else 32
  {
    if l > 0 {
      DistBelow(l - 1);
      DistCounts(l - 1);
    }
  }

  lemma {:induction false} DistLeft(d: nat)
    requires d <= 15
    ensures Left(FixedDists(), d) == if d <= 4 then Pow2(d) else 0
  {
    if d > 0 {
      DistLeft(d - 1);
      DistCounts(d);
      assert Left(FixedDists(), d) == 2 * Left(FixedDists(), d - 1) - Num(FixedDists(), d);
      assert Pow2(4) == 16;
    }
  }

  /** Both fixed codes are complete codes a decoder accepts. */
  lemma FixedAccepted()
    ensures Accepts(FixedLits()) && Below(FixedLits(), 16) == 288 && MaxSym(FixedLits()) == 287
    ensures Accepts(FixedDists()) && Below(FixedDists(), 16) == 32 && MaxSym(FixedDists()) == 31
  {
    LitsAccepted();
    DistsAccepted();
  }

  lemma LitsAccepted()
    ensures Accepts(FixedLits()) && Below(FixedLits(), 16) == 288 && MaxSym(FixedLits()) == 287
  {
    hide Below, Left, KraftSum;
    LitLeft(15);
    LitBelow(16);
    KraftEquality(FixedLits());
    LitAt(287);
  }

  lemma DistsAccepted()
    ensures Accepts(FixedDists()) && Below(FixedDists(), 16) == 32 && MaxSym(FixedDists()) == 31
  {
    hide Below, Left, KraftSum;
    DistLeft(15);
    DistBelow(16);
    KraftEquality(FixedDists());
  }

  /** Writes symbols first, first+1, ... into num places from start on. */
  method FillRun(a: array<nat>, start: nat, num: nat, first: nat)
    requires start + num <= a.Length
    modifies a
    ensures forall i | 0 <= i < a.Length ::
              a[i] == if start <= i < start + num then first + (i - start) else old(a[i])
  {
    for i := 0 to num
      invariant forall j | 0 <= j < a.Length ::
                  a[j] == if start <= j < start + i then first + (j - start) else old(a[j])
    {
      a[start + i] := first + i;
    }
  }

  method ClearCounts(a: array<nat>)
    requires a.Length == 16
    modifies a
    ensures forall i | 0 <= i < 16 :: a[i] == 0
  {
    for i := 0 to 16
      invariant forall j | 0 <= j < i :: a[j] == 0
    {
      a[i] := 0;
    }
  }

  /** The constants filled in are the canonical trees of the fixed lengths. */
  method BuildFixedTrees(lt: Tree, dt: Tree)
    requires lt.Valid() && dt.Valid() && lt != dt
    requires {lt.counts, lt.symbols} !! {dt.counts, dt.symbols}
    modifies lt, lt.counts, lt.symbols, dt, dt.counts, dt.symbols
    ensures lt.Represents(FixedLits()) && lt.maxSym == 285
    ensures dt.Represents(FixedDists()) && dt.maxSym == 29
  {
    ClearCounts(lt.counts);
    lt.counts[7], lt.counts[8], lt.counts[9] := 24, 152, 112;
    FillRun(lt.symbols, 0, 24, 256);
    FillRun(lt.symbols, 24, 144, 0);
    FillRun(lt.symbols, 24 + 144, 8, 280);
    FillRun(lt.symbols, 24 + 144 + 8, 112, 144);
    lt.maxSym := 285;
    HoldsLits(lt);

    ClearCounts(dt.counts);
    dt.counts[5] := 32;
    FillRun(dt.symbols, 0, 32, 0);
    dt.maxSym := 29;
    HoldsDists(dt);
  }

  lemma HoldsLits(t: Tree)
    requires t.Valid()
    requires forall l | 1 <= l <= 15 :: t.counts[l] == LitsBefore(288, l)
    requires forall i | 0 <= i < 288 :: t.symbols[i] ==
               if i < 24 then 256 + i else if i < 168 then i - 24 else if i < 176 then 112 + i else i - 32
    ensures t.Represents(FixedLits())
  {
    forall l | 1 <= l <= 15
      ensures t.counts[l] == Count(FixedLits(), l)
    {
      LitCounts(l);
    }
    forall s: nat | s < 288
      ensures Position(FixedLits(), s) < 288 && t.symbols[Position(FixedLits(), s)] == s
    {
      LitPosition(s);
    }
  }

  lemma HoldsDists(t: Tree)
    requires t.Valid()
    requires forall l | 1 <= l <= 15 :: t.counts[l] == if l == 5 then 32 else 0
    requires forall i | 0 <= i < 32 :: t.symbols[i] == i
    ensures t.Represents(FixedDists())
  {
    forall l | 1 <= l <= 15
      ensures t.counts[l] == Count(FixedDists(), l)
    {
      DistCounts(l);
    }
    forall s: nat | s < 32
      ensures Position(FixedDists(), s) == s
    {
      DistBelow(5);
      DistCount(s, 5);
    }
  }
}
