/** The decoding tree of tinflate: how many codes each length has, and the
    symbols sorted by code. */
module TinfTree {
  import opened Bits
  import opened Huffman

  datatype Status = Ok | DataError | BufError

  /** Where a symbol stands when all codes are sorted by length, then by symbol. */
  function Position(lens: seq<CodeLen>, s: nat): nat
    requires s < |lens|
  {
    Below(lens, lens[s]) + Rank(lens, s)
  }

  lemma PositionIs(lens: seq<CodeLen>, i: nat)
    requires i < |lens|
    ensures Position(lens, i) == Below(lens, lens[i]) + Count(lens[..i], lens[i])
  {
  }

  lemma PositionBound(lens: seq<CodeLen>, s: nat)
    requires HasCode(lens, s)
    ensures Position(lens, s) < Below(lens, 16) <= |lens|
  {
    CountPrefix(lens, s, lens[s]);
    BelowMonotone(lens, lens[s], 16);
    BelowBound(lens);
  }

  lemma PositionInjective(lens: seq<CodeLen>, s: nat, t: nat)
    requires HasCode(lens, s) && HasCode(lens, t) && s != t
    ensures Position(lens, s) != Position(lens, t)
  {
    CountPrefix(lens, s, lens[s]);
    CountPrefix(lens, t, lens[t]);
    if lens[s] < lens[t] {
      BelowMonotone(lens, lens[s], lens[t]);
    } else if lens[t] < lens[s] {
      BelowMonotone(lens, lens[t], lens[s]);
    } else if s < t {
      RankOrder(lens, s, t);
    } else {
      RankOrder(lens, t, s);
    }
  }

  lemma FreshPosition(lens: seq<CodeLen>, i: nat)
    requires HasCode(lens, i)
    ensures Position(lens, i) < |lens|
    ensures forall s: nat | s < i && HasCode(lens, s) :: Position(lens, s) != Position(lens, i)
  {
    PositionBound(lens, i);
    forall s: nat | s < i && HasCode(lens, s)
      ensures Position(lens, s) != Position(lens, i)
    {
      PositionInjective(lens, s, i);
    }
  }

  lemma CountSteps(lens: seq<CodeLen>, i: nat)
    requires i < |lens|
    ensures forall l: nat :: Count(lens[..i + 1], l) == Count(lens[..i], l) + if lens[i] == l then 1 else 0
  {
    forall l: nat
      ensures Count(lens[..i + 1], l) == Count(lens[..i], l) + if lens[i] == l then 1 else 0
    {
      CountStep(lens, i, l);
    }
  }

  /** The largest symbol with a code, or -1. */
  function MaxSym(lens: seq<CodeLen>): (m: int)
    ensures -1 <= m < |lens|
    ensures m >= 0 ==> lens[m] > 0
    ensures forall s | m < s < |lens| :: lens[s] == 0
  {
    if lens == [] then -1
    else if lens[|lens| - 1] > 0 then |lens| - 1
    else MaxSym(lens[..|lens| - 1])
  }

  lemma {:induction false} KraftBound(lens: seq<CodeLen>)
    ensures KraftSum(lens) <= 16384 * Below(lens, 16)
  {
    hide Below, Pow2;
    if lens == [] {
      BelowEmpty(16);
    } else {
      KraftBound(lens[..|lens| - 1]);
      BelowAppend(lens, 16);
      AtMostHalf(lens[|lens| - 1]);
    }
  }

  lemma AtMostHalf(l: CodeLen)
    ensures l > 0 ==> Pow2(15 - l) <= 16384
  {
    assert Pow2(14) == 16384;
    if l > 0 {
      Pow2Mono(15 - l, 14);
    }
  }

  lemma {:induction false} Pow2Mono(m: nat, n: nat)
    requires m <= n
    ensures Pow2(m) <= Pow2(n)
  {
    if m < n {
      Pow2Mono(m, n - 1);
    }
  }

  /** When a code is accepted, in terms of what Build computes. */
  lemma AcceptsWhen(lens: seq<CodeLen>)
    ensures Accepts(lens) ==> Sound(lens)
    ensures Accepts(lens) <==>
            && Sound(lens)
            && !(Below(lens, 16) > 1 && Left(lens, 15) > 0)
            && !(Below(lens, 16) == 1 && Count(lens, 1) != 1)
  {
    KraftEquality(lens);
    KraftBound(lens);
    assert Pow2(15) == 32768;
  }

  /** The code decoding goes by: one lonely one-bit code gets a second symbol,
      one too large to pass the callers' range check. */
  function Effective(lens: seq<CodeLen>): seq<CodeLen> {
    if Below(lens, 16) == 1 then lens[..MaxSym(lens) + 1] + [1] else lens
  }

  lemma {:induction false} CountUpToMax(lens: seq<CodeLen>, l: nat)
    requires l > 0
    ensures Count(lens, l) == Count(lens[..MaxSym(lens) + 1], l)
  {
    if lens == [] || lens[|lens| - 1] > 0 {
      assert lens[..MaxSym(lens) + 1] == lens;
    } else {
      CountUpToMax(lens[..|lens| - 1], l);
      assert lens[..|lens| - 1][..MaxSym(lens) + 1] == lens[..MaxSym(lens) + 1];
    }
  }

  lemma {:induction false} BelowUpToMax(lens: seq<CodeLen>, l: nat)
    ensures Below(lens, l) == Below(lens[..MaxSym(lens) + 1], l)
  {
    if l > 1 {
      BelowUpToMax(lens, l - 1);
      CountUpToMax(lens, l - 1);
    }
  }

  /** The lonely code: the only symbol with a code is the largest. */
  lemma SingleCode(lens: seq<CodeLen>, s: nat)
    requires Below(lens, 16) == 1 && HasCode(lens, s)
    ensures s == MaxSym(lens) && Position(lens, s) == 0
  {
    var m := MaxSym(lens);
    assert HasCode(lens, m);
    PositionBound(lens, s);
    PositionBound(lens, m);
    if s != m {
      PositionInjective(lens, s, m);
    }
  }

  /** The lonely one-bit code, completed: two one-bit codes, 0 and 1. */
  lemma EffectiveOfSingle(lens: seq<CodeLen>)
    requires Below(lens, 16) == 1 && Count(lens, 1) == 1
    ensures var e, m := Effective(lens), MaxSym(lens);
            && m >= 0 && |e| == m + 2 && e[m] == e[m + 1] == 1
            && Complete(e) && Count(e, 1) == 2
            && (forall l | 2 <= l <= 15 :: Count(e, l) == Count(lens, l) == 0)
            && (forall s: nat | HasCode(e, s) :: s == m || s == m + 1)
            && Position(e, m) == 0 && Position(e, m + 1) == 1
  {
    var e, m := Effective(lens), MaxSym(lens);
    BelowBound(lens);
    var one := NthSymbol(lens, 1, 0);
    SingleCode(lens, one);
    assert e[..m + 1] == lens[..m + 1];
    CountUpToMax(lens, 1);
    assert Count(e, 1) == 2;
    forall l | 2 <= l <= 15
      ensures Count(e, l) == Count(lens, l) == 0
    {
      CountUpToMax(lens, l);
      if Count(lens, l) > 0 {
        var t := NthSymbol(lens, l, 0);
        SingleCode(lens, t);
      }
    }
    forall s: nat | HasCode(e, s)
      ensures s == m || s == m + 1
    {
      if s <= m {
        assert HasCode(lens, s);
        SingleCode(lens, s);
      }
    }
    assert Below(e, 1) == 0;
    assert e[..m] == lens[..m];
    KraftOfSingle(e, 15);
  }

  lemma {:induction false} KraftOfSingle(e: seq<CodeLen>, d: nat)
    requires Count(e, 1) == 2 && 1 <= d <= 15
    requires forall l | 2 <= l <= 15 :: Count(e, l) == 0
    ensures Left(e, d) == 0
  {
    if d == 1 {
      assert First(e, 1) == 0;
    } else {
      KraftOfSingle(e, d - 1);
    }
  }

  class Tree {
    const counts: array<nat>
    const symbols: array<nat>
    var maxSym: int

    ghost predicate Valid() {
      counts != symbols && counts.Length == 16 && symbols.Length == 288
    }

    constructor ()
      ensures Valid() && fresh(counts) && fresh(symbols)
    {
      counts := new nat[16];
      symbols := new nat[288];
      maxSym := -1;
    }

    /** The arrays hold the canonical code of the lengths. */
    ghost predicate Represents(lens: seq<CodeLen>)
      requires Valid()
      reads counts, symbols
    {
      && (forall l | 1 <= l <= 15 :: counts[l] == Count(lens, l))
      && Placed(lens, |lens|)
    }

    /** The symbols below n stand at their places. */
    ghost predicate Placed(lens: seq<CodeLen>, n: nat)
      requires Valid()
      reads symbols
    {
      forall s: nat | s < n && HasCode(lens, s) ::
        Position(lens, s) < 288 && symbols[Position(lens, s)] == s
    }

    /** Count the codes of every length and find the largest symbol. */
    method CountLengths(lengths: seq<CodeLen>)
      requires Valid()
      modifies this, counts
      ensures maxSym == MaxSym(lengths)
      ensures forall l | 0 <= l <= 15 :: counts[l] == Num(lengths, l)
    {
      for i := 0 to 16
        invariant forall l | 0 <= l < i :: counts[l] == 0
      {
        counts[i] := 0;
      }
      maxSym := -1;
      for i := 0 to |lengths|
        invariant maxSym == MaxSym(lengths[..i])
        invariant forall l | 0 <= l <= 15 :: counts[l] == Num(lengths[..i], l)
      {
        CountSteps(lengths, i);
        assert lengths[..i + 1][..i] == lengths[..i];
        if lengths[i] != 0 {
          maxSym := i;
          counts[lengths[i]] := counts[lengths[i]] + 1;
        }
      }
      assert lengths[..|lengths|] == lengths;
    }

    /** The offset table of the distribution sort; fails when some length has
        more codes than are available. */
    method Offsets(lengths: seq<CodeLen>, offs: array<nat>)
      returns (ok: bool, available: nat, numCodes: nat)
      requires Valid() && offs.Length == 16 && offs != counts
      requires forall l | 0 <= l <= 15 :: counts[l] == Num(lengths, l)
      modifies offs
      ensures ok <==> Sound(lengths)
      ensures ok ==> available == 2 * Left(lengths, 15) && numCodes == Below(lengths, 16)
      ensures ok ==> forall l | 0 <= l <= 15 :: offs[l] == Below(lengths, l)
    {
      available, numCodes := 1, 0;
      for i := 0 to 16
        invariant available == if i == 0 then 1 else 2 * Left(lengths, i - 1)
        invariant numCodes == Below(lengths, i)
        invariant forall l | 0 <= l < i :: offs[l] == Below(lengths, l)
        invariant i == 16 ==> Left(lengths, 15) >= 0
      {
        var used := counts[i];
        assert available - used == Left(lengths, i);
        if used > available {
          if Sound(lengths) { LeftNonnegative(lengths, i); }
          return false, available, numCodes;
        }
        available := 2 * (available - used);
        offs[i] := numCodes;
        numCodes := numCodes + used;
      }
      ok := true;
    }

    /** Put every symbol at its place in code order. */
    method Distribute(lengths: seq<CodeLen>, offs: array<nat>)
      requires Valid() && |lengths| <= 288 && offs.Length == 16 && offs != symbols && offs != counts
      requires forall l | 0 <= l <= 15 :: offs[l] == Below(lengths, l)
      modifies offs, symbols
      ensures Placed(lengths, |lengths|)
    {
      hide Position, Below, Count;
      NoneCounted(lengths);
      for i := 0 to |lengths|
        invariant forall l | 1 <= l <= 15 :: offs[l] == Below(lengths, l) + Count(lengths[..i], l)
        invariant Placed(lengths, i)
      {
        CountSteps(lengths, i);
        if lengths[i] != 0 {
          FreshPosition(lengths, i);
          PositionIs(lengths, i);
          symbols[offs[lengths[i]]] := i;
          offs[lengths[i]] := offs[lengths[i]] + 1;
        }
      }
    }

    /** Builds the tree of a length vector. It is accepted exactly when the
        code is complete, empty or a single one-bit code, and then the arrays
        hold the canonical code. */
    method Build(lengths: seq<CodeLen>) returns (res: Status)
      requires Valid() && |lengths| <= 288
      modifies this, counts, symbols
      ensures res == if Accepts(lengths) then Ok else DataError
      ensures maxSym == MaxSym(lengths)
      ensures res == Ok ==> Represents(Effective(lengths))
    {
      hide Accepts, Below, Left, KraftSum, Position;
      AcceptsWhen(lengths);
      CountLengths(lengths);
      var offs := new nat[16];
      var ok, available, numCodes := Offsets(lengths, offs);
      if !ok {
        return DataError;
      }
      if (numCodes > 1 && available > 0) || (numCodes == 1 && counts[1] != 1) {
        return DataError;
      }
      Distribute(lengths, offs);
      if numCodes == 1 {
        EffectiveOfSingle(lengths);
        counts[1] := 2;
        symbols[1] := maxSym + 1;
        SingleCode(lengths, MaxSym(lengths));
      }
      return Ok;
    }
  }
}
