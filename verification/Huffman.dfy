/** Canonical Huffman codes as section 3.2.2 of RFC 1951 defines them: from the
    code length of every symbol alone. This is the reference both decoders are
    compared with. */
module Huffman {
  import opened Bits

  /** A code length; zero means the symbol has no code. */
  type CodeLen = n: nat | n <= 15

  /** How many symbols have length l. */
  function Count(lens: seq<CodeLen>, l: nat): nat {
    if lens == [] then 0
    else Count(lens[..|lens| - 1], l) + if lens[|lens| - 1] == l then 1 else 0
  }

  /** How many codes have length l: the unused symbols do not count. */
  function Num(lens: seq<CodeLen>, l: nat): nat {
    if l == 0 then 0 else Count(lens, l)
  }

  /** The smallest code of length l (step 2 of the algorithm in section 3.2.2). */
  function First(lens: seq<CodeLen>, l: nat): nat {
    if l == 0 then 0 else 2 * (First(lens, l - 1) + Num(lens, l - 1))
  }

  predicate HasCode(lens: seq<CodeLen>, s: nat) {
    s < |lens| && lens[s] > 0
  }

  /** How many smaller symbols have the same length. */
  function Rank(lens: seq<CodeLen>, s: nat): nat
    requires s < |lens|
  {
    Count(lens[..s], lens[s])
  }

  /** The code of a symbol (step 3 of the algorithm in section 3.2.2). */
  function Code(lens: seq<CodeLen>, s: nat): nat
    requires s < |lens|
  {
    First(lens, lens[s]) + Rank(lens, s)
  }

  /** The nodes at depth d that are neither codes nor below a code; negative
      when the lengths ask for more codes than there are. */
  function Left(lens: seq<CodeLen>, d: nat): int {
    Pow2(d) - First(lens, d) - Num(lens, d)
  }

  predicate Sound(lens: seq<CodeLen>) {
    Left(lens, 15) >= 0
  }

  predicate Complete(lens: seq<CodeLen>) {
    Left(lens, 15) == 0
  }

  /** Too many codes at one length cannot be made good at a longer one. */
  lemma {:induction false} LeftNonnegative(lens: seq<CodeLen>, d: nat)
    requires Sound(lens) && d <= 15
    ensures Left(lens, d) >= 0
    decreases 15 - d
  {
    if d < 15 {
      LeftNonnegative(lens, d + 1);
      assert Left(lens, d + 1) == 2 * Left(lens, d) - Num(lens, d + 1);
    }
  }

  lemma NoneCounted(lens: seq<CodeLen>)
    ensures forall l: nat :: Count(lens[..0], l) == 0
  {
  }

  lemma {:induction false} CountPrefix(lens: seq<CodeLen>, i: nat, l: nat)
    requires i <= |lens|
    ensures Count(lens[..i], l) <= Count(lens, l)
    ensures i < |lens| && lens[i] == l ==> Count(lens[..i], l) < Count(lens, l)
  {
    if i == |lens| {
      assert lens[..i] == lens;
    } else {
      CountPrefix(lens[..|lens| - 1], i, l);
      assert lens[..|lens| - 1][..i] == lens[..i];
    }
  }

  lemma CountStep(lens: seq<CodeLen>, i: nat, l: nat)
    requires i < |lens|
    ensures Count(lens[..i + 1], l) == Count(lens[..i], l) + if lens[i] == l then 1 else 0
  {
    assert lens[..i + 1][..i] == lens[..i];
  }

  lemma RankOrder(lens: seq<CodeLen>, s: nat, t: nat)
    requires s < t < |lens| && lens[s] == lens[t]
    ensures Rank(lens, s) < Rank(lens, t)
  {
    CountPrefix(lens[..t], s, lens[s]);
    assert lens[..t][..s] == lens[..s];
  }

  /** The symbol of length l with exactly r smaller symbols of that length. */
  function NthSymbol(lens: seq<CodeLen>, l: nat, r: nat): (s: nat)
    requires r < Count(lens, l)
    ensures s < |lens| && lens[s] == l && Rank(lens, s) == r
  {
    var n := |lens| - 1;
    if lens[n] == l && Count(lens[..n], l) == r then n
    else
      var s := NthSymbol(lens[..n], l, r);
      assert lens[..n][..s] == lens[..s];
      s
  }

  lemma CodeBound(lens: seq<CodeLen>, s: nat)
    requires Sound(lens) && HasCode(lens, s)
    ensures First(lens, lens[s]) <= Code(lens, s) < First(lens, lens[s]) + Num(lens, lens[s]) <= Pow2(lens[s])
  {
    LeftNonnegative(lens, lens[s]);
    CountPrefix(lens, s, lens[s]);
  }

  /** The code of a symbol as it appears in a stream, first bit first. */
  function CodeWord(lens: seq<CodeLen>, s: nat): (w: seq<Bit>)
    requires Sound(lens) && HasCode(lens, s)
    ensures |w| == lens[s] && MsbVal(w) == Code(lens, s)
  {
    CodeBound(lens, s);
    MsbWord(Code(lens, s), lens[s])
  }

  /** A bit string that runs into no code, and past which longer codes lie. */
  predicate Inner(lens: seq<CodeLen>, w: seq<Bit>) {
    MsbVal(w) >= First(lens, |w|) + Num(lens, |w|)
  }

  /** Every proper prefix of a code word is an inner node. */
  lemma {:induction false} PrefixInner(lens: seq<CodeLen>, w: seq<Bit>, d: nat)
    requires d < |w| && MsbVal(w) >= First(lens, |w|)
    ensures Inner(lens, w[..d])
    decreases |w|
  {
    var n := |w| - 1;
    assert Inner(lens, w[..n]);
    if d < n {
      PrefixInner(lens, w[..n], d);
      assert w[..n][..d] == w[..d];
    }
  }

  /** No code word is a proper prefix of another, and two symbols never share one. */
  lemma PrefixFree(lens: seq<CodeLen>, s: nat, t: nat, w: seq<Bit>)
    requires Sound(lens) && HasCode(lens, s) && HasCode(lens, t)
    requires CodeWord(lens, s) <= w && CodeWord(lens, t) <= w
    ensures s == t
  {
    CodeBound(lens, s);
    CodeBound(lens, t);
    if lens[s] < lens[t] {
      assert CodeWord(lens, t)[..lens[s]] == CodeWord(lens, s);
      PrefixInner(lens, CodeWord(lens, t), lens[s]);
    } else if lens[t] < lens[s] {
      assert CodeWord(lens, s)[..lens[t]] == CodeWord(lens, t);
      PrefixInner(lens, CodeWord(lens, s), lens[t]);
    } else {
      assert CodeWord(lens, s) == CodeWord(lens, t);
      if s < t { RankOrder(lens, s, t); }
      if t < s { RankOrder(lens, t, s); }
    }
  }

  /** A string whose number falls among the codes of its length is one of them. */
  lemma WordOfNumber(lens: seq<CodeLen>, w: seq<Bit>) returns (s: nat)
    requires Sound(lens) && 0 < |w| <= 15
    requires First(lens, |w|) <= MsbVal(w) && !Inner(lens, w)
    ensures HasCode(lens, s) && CodeWord(lens, s) == w
    ensures s == NthSymbol(lens, |w|, MsbVal(w) - First(lens, |w|))
  {
    s := NthSymbol(lens, |w|, MsbVal(w) - First(lens, |w|));
    MsbValInjective(CodeWord(lens, s), w);
  }

  /** With a complete code every fifteen bits begin with a code word. */
  lemma CompleteCovers(lens: seq<CodeLen>, w: seq<Bit>) returns (s: nat)
    requires Complete(lens) && |w| >= 15
    ensures HasCode(lens, s) && CodeWord(lens, s) <= w
  {
    var d := 0;
    while d < 15
      invariant d <= 15 && Inner(lens, w[..d])
    {
      MsbPrefix(w, d);
      assert MsbVal(w[..d + 1]) >= First(lens, d + 1);
      d := d + 1;
      if !Inner(lens, w[..d]) {
        s := WordOfNumber(lens, w[..d]);
        return;
      }
    }
    assert false;
  }

  /** The sum of 2^(15-length) over all codes: Kraft's sum, scaled to integers. */
  function KraftSum(lens: seq<CodeLen>): nat {
    if lens == [] then 0
    else
      var l := lens[|lens| - 1];
      KraftSum(lens[..|lens| - 1]) + if l == 0 then 0 else Pow2(15 - l)
  }

  lemma {:induction false} FirstAppend(lens: seq<CodeLen>, d: nat)
    requires lens != []
    ensures var l, init := lens[|lens| - 1], lens[..|lens| - 1];
            First(lens, d) + Num(lens, d)
            == First(init, d) + Num(init, d) + if 0 < l <= d then Pow2(d - l) else 0
  {
    if d > 0 {
      FirstAppend(lens, d - 1);
    }
  }

  lemma {:induction false} FirstEmpty(d: nat)
    ensures First([], d) == 0
  {
    if d > 0 {
      FirstEmpty(d - 1);
    }
  }

  lemma KraftEmpty()
    ensures KraftSum([]) == 0 && Left([], 15) == Pow2(15)
  {
    FirstEmpty(15);
  }

  /** Kraft's equality: what the codes take and what they leave is everything. */
  lemma {:induction false} KraftEquality(lens: seq<CodeLen>)
    ensures KraftSum(lens) + Left(lens, 15) == Pow2(15)
  {
    hide Pow2, First, Num;
    if lens == [] {
      KraftEmpty();
    } else {
      KraftEquality(lens[..|lens| - 1]);
      FirstAppend(lens, 15);
    }
  }

  /** All codes shorter than l. */
  function Below(lens: seq<CodeLen>, l: nat): nat {
    if l == 0 then 0 else Below(lens, l - 1) + Num(lens, l - 1)
  }

  lemma {:induction false} BelowMonotone(lens: seq<CodeLen>, k: nat, l: nat)
    requires k < l
    ensures Below(lens, k) + Num(lens, k) <= Below(lens, l)
  {
    if k < l - 1 {
      BelowMonotone(lens, k, l - 1);
    }
  }

  lemma {:induction false} BelowAppend(lens: seq<CodeLen>, l: nat)
    requires lens != []
    ensures var x := lens[|lens| - 1];
            Below(lens, l) == Below(lens[..|lens| - 1], l) + if 0 < x < l then 1 else 0
  {
    if l > 0 {
      BelowAppend(lens, l - 1);
    }
  }

  lemma {:induction false} BelowEmpty(l: nat)
    ensures Below([], l) == 0
  {
    if l > 0 {
      BelowEmpty(l - 1);
    }
  }

  /** There are no more codes than symbols. */
  lemma {:induction false} BelowBound(lens: seq<CodeLen>)
    ensures Below(lens, 16) <= |lens|
  {
    if lens == [] {
      BelowEmpty(16);
    } else {
      BelowBound(lens[..|lens| - 1]);
      BelowAppend(lens, 16);
    }
  }

  /** The length vectors a decoder takes: a complete code, no code at all, or
      one code of one bit (section 3.2.7 of RFC 1951). */
  predicate Accepts(lens: seq<CodeLen>) {
    || KraftSum(lens) == Pow2(15)
    || Below(lens, 16) == 0
    || (Below(lens, 16) == 1 && Count(lens, 1) == 1)
  }

  /** Inner nodes at all depths below d. */
  function InnerSum(lens: seq<CodeLen>, d: nat): int {
    if d == 0 then 0 else InnerSum(lens, d - 1) + Left(lens, d - 1)
  }

  /** A binary tree has one inner node fewer than it has leaves. */
  lemma {:induction false} InnerCount(lens: seq<CodeLen>, d: nat)
    ensures InnerSum(lens, d) == Below(lens, d + 1) - 1 + Left(lens, d)
  {
    if d == 0 {
      assert Below(lens, 1) == Below(lens, 0) + Num(lens, 0) == 0;
    } else {
      InnerCount(lens, d - 1);
      assert Left(lens, d) == 2 * Left(lens, d - 1) - Num(lens, d);
    }
  }
}
