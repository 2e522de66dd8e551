/** Bits, bit strings and the two ways DEFLATE packs them into numbers
    (section 3.1.1 of RFC 1951): Huffman codes most significant bit first,
    everything else least significant bit first. */
module Bits {

  type Bit = b: int | 0 <= b < 2
  type Byte = b: int | 0 <= b < 256

  function Pow2(n: nat): (r: nat)
    ensures r >= 1
  {
    if n == 0 then 1 else 2 * Pow2(n - 1)
  }

  /** The number a bit string denotes when its first bit is the most significant. */
  function MsbVal(w: seq<Bit>): (v: nat)
    ensures v < Pow2(|w|)
  {
    if w == [] then 0 else 2 * MsbVal(w[..|w| - 1]) + w[|w| - 1]
  }

  /** The number a bit string denotes when its first bit is the least significant. */
  function LsbVal(w: seq<Bit>): (v: nat)
    ensures v < Pow2(|w|)
  {
    if w == [] then 0 else w[0] + 2 * LsbVal(w[1..])
  }

  /** The n-bit word of a number, most significant bit first. */
  function MsbWord(v: nat, n: nat): (w: seq<Bit>)
    requires v < Pow2(n)
    ensures |w| == n && MsbVal(w) == v
  {
    if n == 0 then [] else
      var w := MsbWord(v / 2, n - 1) + [v % 2];
      assert w[..n - 1] == MsbWord(v / 2, n - 1);
      w
  }

  lemma {:induction false} MsbValInjective(w: seq<Bit>, u: seq<Bit>)
    requires |w| == |u| && MsbVal(w) == MsbVal(u)
    ensures w == u
  {
    if w != [] {
      MsbValInjective(w[..|w| - 1], u[..|u| - 1]);
      assert w == w[..|w| - 1] + [w[|w| - 1]] && u == u[..|u| - 1] + [u[|u| - 1]];
    }
  }

  lemma {:induction false} LsbValInjective(w: seq<Bit>, u: seq<Bit>)
    requires |w| == |u| && LsbVal(w) == LsbVal(u)
    ensures w == u
  {
    if w != [] {
      LsbValInjective(w[1..], u[1..]);
      assert w == [w[0]] + w[1..] && u == [u[0]] + u[1..];
    }
  }

  /** Dropping the last bit halves an msb-first number. */
  lemma MsbPrefix(w: seq<Bit>, d: nat)
    requires d < |w|
    ensures MsbVal(w[..d + 1]) == 2 * MsbVal(w[..d]) + w[d]
  {
    assert w[..d + 1][..d] == w[..d];
  }

  /** Shifts and masks of unsigned numbers, one bit at a time. */
  function Shl(x: nat, n: nat): nat {
    if n == 0 then x else 2 * Shl(x, n - 1)
  }

  function Shr(x: nat, n: nat): nat {
    if n == 0 then x else Shr(x / 2, n - 1)
  }

  function Low(x: nat, n: nat): (r: nat)
    ensures r < Pow2(n)
  {
    if n == 0 then 0 else x % 2 + 2 * Low(x / 2, n - 1)
  }

  lemma {:induction false} LsbConcat(w: seq<Bit>, u: seq<Bit>)
    ensures LsbVal(w + u) == LsbVal(w) + Shl(LsbVal(u), |w|)
  {
    if w == [] {
      assert w + u == u;
    } else {
      LsbConcat(w[1..], u);
      assert (w + u)[1..] == w[1..] + u;
    }
  }

  /** Splitting an lsb-first number: the low n bits are the first n, the rest follow. */
  lemma {:induction false} LsbSplit(w: seq<Bit>, n: nat)
    requires n <= |w|
    ensures Low(LsbVal(w), n) == LsbVal(w[..n])
    ensures Shr(LsbVal(w), n) == LsbVal(w[n..])
  {
    if n > 0 {
      LsbSplit(w[1..], n - 1);
      assert w[..n][1..] == w[1..][..n - 1];
      assert w[n..] == w[1..][n - 1..];
    } else {
      assert w[0..] == w;
    }
  }

  /** Bit i of an lsb-first number. */
  lemma LsbBit(w: seq<Bit>, i: nat)
    requires i < |w|
    ensures Shr(LsbVal(w), i) % 2 == w[i]
  {
    LsbSplit(w, i);
    assert w[i..][0] == w[i];
  }

  /** Bit i of a byte string, followed by zeros for ever. */
  function BitAt(src: seq<Byte>, i: nat): Bit {
    if i / 8 < |src| then Shr(src[i / 8], i % 8) % 2 else 0
  }

  /** n bits of the stream from bit p on. */
  function Window(src: seq<Byte>, p: nat, n: nat): (w: seq<Bit>)
    ensures |w| == n
  {
    seq<Bit>(n, i requires 0 <= i < n => BitAt(src, p + i))
  }

  lemma WindowSplit(src: seq<Byte>, p: nat, m: nat, n: nat)
    ensures Window(src, p, m + n) == Window(src, p, m) + Window(src, p + m, n)
    ensures Window(src, p, m + n)[..m] == Window(src, p, m)
    ensures Window(src, p, m + n)[m..] == Window(src, p + m, n)
  {
  }

  /** The number read by taking n bits at p, as section 3.1.1 of RFC 1951 packs it. */
  function Value(src: seq<Byte>, p: nat, n: nat): (v: nat)
    ensures v < Pow2(n)
  {
    LsbVal(Window(src, p, n))
  }

  /** Taking m bits off a number read from the stream. */
  lemma ValueSplit(src: seq<Byte>, p: nat, m: nat, n: nat)
    ensures Value(src, p, m + n) == Value(src, p, m) + Shl(Value(src, p + m, n), m)
    ensures Low(Value(src, p, m + n), m) == Value(src, p, m)
    ensures Shr(Value(src, p, m + n), m) == Value(src, p + m, n)
  {
    WindowSplit(src, p, m, n);
    LsbConcat(Window(src, p, m), Window(src, p + m, n));
    LsbSplit(Window(src, p, m + n), m);
  }

  /** A number is made of its bits. */
  lemma {:induction false} NumberOfBits(w: seq<Bit>, b: nat)
    requires b < Pow2(|w|)
    requires forall i | 0 <= i < |w| :: w[i] == Shr(b, i) % 2
    ensures LsbVal(w) == b
  {
    if w != [] {
      forall i | 0 <= i < |w| - 1
        ensures w[1..][i] == Shr(b / 2, i) % 2
      {
        assert w[1..][i] == w[i + 1];
      }
      NumberOfBits(w[1..], b / 2);
      assert w[0] == Shr(b, 0) % 2;
    }
  }

  /** Reading eight bits at a byte boundary gives the byte, or zero past the end. */
  lemma ValueByte(src: seq<Byte>, k: nat)
    ensures Value(src, 8 * k, 8) == if k < |src| then src[k] else 0
  {
    var b := if k < |src| then src[k] else 0;
    var w := Window(src, 8 * k, 8);
    forall i | 0 <= i < 8
      ensures w[i] == Shr(b, i) % 2
    {
      assert (8 * k + i) / 8 == k && (8 * k + i) % 8 == i;
      assert w[i] == BitAt(src, 8 * k + i);
      ShrZero(i);
    }
    assert Pow2(8) == 256;
    NumberOfBits(w, b);
  }

  lemma {:induction false} ShrZero(n: nat)
    ensures Shr(0, n) == 0 && Shl(0, n) == 0
  {
    if n > 0 {
      ShrZero(n - 1);
    }
  }

  /** The low n bits of a number as a bit string, least significant bit first. */
  function LsbWord(x: nat, n: nat): (w: seq<Bit>)
    ensures |w| == n
  {
    if n == 0 then [] else [x % 2] + LsbWord(x / 2, n - 1)
  }

  lemma {:induction false} LsbWordBits(x: nat, n: nat, i: nat)
    requires i < n
    ensures LsbWord(x, n)[i] == Shr(x, i) % 2
  {
    if i > 0 {
      LsbWordBits(x / 2, n - 1, i - 1);
    }
  }

  lemma {:induction false} LsbWordPrefix(x: nat, m: nat, n: nat)
    requires m <= n
    ensures LsbWord(x, n)[..m] == LsbWord(x, m)
  {
    if m > 0 {
      LsbWordPrefix(x / 2, m - 1, n - 1);
    }
  }

  lemma {:induction false} LsbWordValue(x: nat, n: nat)
    ensures LsbVal(LsbWord(x, n)) == Low(x, n)
  {
    if n > 0 {
      LsbWordValue(x / 2, n - 1);
      assert LsbWord(x, n)[1..] == LsbWord(x / 2, n - 1);
    }
  }

  /** The low bits of an lsb-first number are the first bits of its string. */
  lemma {:induction false} LsbWordOfVal(w: seq<Bit>, n: nat)
    requires n <= |w|
    ensures LsbWord(LsbVal(w), n) == w[..n]
  {
    if n > 0 {
      LsbWordOfVal(w[1..], n - 1);
      assert w[..n] == [w[0]] + w[1..][..n - 1];
    }
  }

  lemma {:induction false} ShlStep(v: nat, n: nat)
    ensures Shl(v + 1, n) == Shl(v, n) + Shl(1, n) && Shl(1, n) == Pow2(n)
  {
    if n > 0 {
      ShlStep(v, n - 1);
    }
  }

  lemma {:induction false} ShlMono(v: nat, u: nat, n: nat)
    requires v < u
    ensures Shl(v, n) < Shl(u, n)
  {
    if n > 0 {
      ShlMono(v, u, n - 1);
    }
  }

  lemma {:induction false} ShrStep(x: nat, n: nat)
    ensures Shr(x, n + 1) == Shr(x, n) / 2
  {
    if n > 0 {
      ShrStep(x / 2, n - 1);
    }
  }

  lemma {:induction false} LowSmall(x: nat, n: nat)
    requires x < Pow2(n)
    ensures Low(x, n) == x
  {
    if n > 0 {
      LowSmall(x / 2, n - 1);
    }
  }

  /** One more byte above the bits already buffered. */
  lemma FetchByte(src: seq<Byte>, fetched: nat, bitcount: nat)
    requires bitcount <= 8 * fetched
    ensures Value(src, 8 * (fetched + 1) - (bitcount + 8), bitcount + 8)
            == Value(src, 8 * fetched - bitcount, bitcount)
               + if fetched < |src| then Shl(src[fetched], bitcount) else 0
  {
    hide Value, Shl, Shr;
    ValueByte(src, fetched);
    ValueSplit(src, 8 * fetched - bitcount, bitcount, 8);
    ShrZero(bitcount);
  }
}
