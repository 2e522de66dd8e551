/** What a DEFLATE stream means, read off RFC 1951: bits are taken by position
    from the byte string, symbols are found by their canonical code words, and
    nothing may lie past the end of the input. */
module InflateSpec {
  import opened Bits
  import opened Options
  import opened Huffman

  function Limit(src: seq<Byte>): nat {
    8 * |src|
  }

  function BitsAt(src: seq<Byte>, p: nat, n: nat): Option<nat> {
    if p + n <= Limit(src) then Some(Value(src, p, n)) else None
  }

  /** The code word of s stands in the stream at p. */
  ghost predicate CodeAt(lens: seq<CodeLen>, src: seq<Byte>, p: nat, s: nat) {
    && Sound(lens)
    && HasCode(lens, s)
    && Window(src, p, lens[s]) == CodeWord(lens, s)
  }

  ghost predicate FitsAt(lens: seq<CodeLen>, src: seq<Byte>, p: nat, s: nat) {
    CodeAt(lens, src, p, s) && p + lens[s] <= Limit(src)
  }

  /** The symbol whose code word stands at p, if there is one. */
  ghost function SymbolAt(lens: seq<CodeLen>, src: seq<Byte>, p: nat): (r: Option<nat>)
    ensures r.Some? ==> FitsAt(lens, src, p, r.value)
  {
    if exists s: nat :: FitsAt(lens, src, p, s) then
      var s: nat :| FitsAt(lens, src, p, s);
      Some(s)
    else
      None
  }

  /** At most one code word stands at a position. */
  lemma CodeAtUnique(lens: seq<CodeLen>, src: seq<Byte>, p: nat, s: nat, t: nat)
    requires CodeAt(lens, src, p, s) && CodeAt(lens, src, p, t)
    ensures s == t
  {
    WindowSplit(src, p, lens[s], 15 - lens[s]);
    WindowSplit(src, p, lens[t], 15 - lens[t]);
    PrefixFree(lens, s, t, Window(src, p, 15));
  }

  lemma SymbolAtIs(lens: seq<CodeLen>, src: seq<Byte>, p: nat, s: nat)
    requires CodeAt(lens, src, p, s)
    ensures SymbolAt(lens, src, p) == if p + lens[s] <= Limit(src) then Some(s) else None
  {
    var r := SymbolAt(lens, src, p);
    if r.Some? {
      CodeAtUnique(lens, src, p, s, r.value);
    } else {
      assert !FitsAt(lens, src, p, s);
    }
  }

  /** Extra bits and smallest length of a length symbol (section 3.2.5): after
      the first eight, every four symbols take one more extra bit. */
  function LengthExtra(s: nat): nat
    requires 257 <= s <= 285
  {
    if s < 265 || s == 285 then 0 else (s - 261) / 4
  }

  function LengthBase(s: nat): nat
    requires 257 <= s <= 285
  {
    if s == 285 then 258
    else if s < 265 then s - 254
    else (4 + (s - 261) % 4) * Pow2(LengthExtra(s)) + 3
  }

  /** The same for a distance symbol: every two symbols take one more extra bit. */
  function DistExtra(d: nat): nat
    requires d <= 29
  {
    if d < 4 then 0 else d / 2 - 1
  }

  function DistBase(d: nat): (b: nat)
    requires d <= 29
    ensures b >= 1
  {
    if d < 4 then d + 1 else (2 + d % 2) * Pow2(DistExtra(d)) + 1
  }

  /** The output after copying len bytes from dist back. A copy longer than its
      distance repeats the last dist bytes (section 3.2.3). */
  function Copy(out: seq<Byte>, dist: nat, len: nat): (r: seq<Byte>)
    requires 1 <= dist <= |out|
    ensures |r| == |out| + len && out <= r
  {
    out + seq<Byte>(len, i requires 0 <= i < len => out[|out| - dist + i % dist])
  }

  datatype Progress = Progress(p: nat, out: seq<Byte>)
  datatype Back = Back(len: nat, dist: nat, p: nat)

  /** The length and distance that follow length symbol s. */
  ghost function BackAt(src: seq<Byte>, dists: seq<CodeLen>, s: nat, p: nat): (r: Option<Back>)
    requires 257 <= s <= 285
    ensures r.Some? ==> p < r.value.p <= Limit(src) && r.value.dist >= 1
  {
    var e :- BitsAt(src, p, LengthExtra(s));
    var p1 := p + LengthExtra(s);
    var d :- SymbolAt(dists, src, p1);
    var p2 := p1 + dists[d];
    if d > 29 then None else
      var f :- BitsAt(src, p2, DistExtra(d));
      Some(Back(LengthBase(s) + e, DistBase(d) + f, p2 + DistExtra(d)))
  }

  /** The data of a compressed block from p on, up to its end-of-block symbol. */
  ghost function BlockData(src: seq<Byte>, lits: seq<CodeLen>, dists: seq<CodeLen>, p: nat, out: seq<Byte>)
    : (r: Option<Progress>)
    ensures r.Some? ==> p < r.value.p <= Limit(src) && out <= r.value.out
    decreases Limit(src) - p
  {
    var s :- SymbolAt(lits, src, p);
    var p1 := p + lits[s];
    if s < 256 then
      BlockData(src, lits, dists, p1, out + [s])
    else if s == 256 then
      Some(Progress(p1, out))
    else if s > 285 then
      None
    else
      var b :- BackAt(src, dists, s, p1);
      if b.dist > |out| then None
      else BlockData(src, lits, dists, b.p, Copy(out, b.dist, b.len))
  }

  /** A stored block (section 3.2.4) starts at the next byte boundary. */
  function Stored(src: seq<Byte>, p: nat, out: seq<Byte>): (r: Option<Progress>)
    ensures r.Some? ==> p <= r.value.p <= Limit(src) && out <= r.value.out
  {
    var k := (p + 7) / 8;
    if k + 4 > |src| then None
    else
      var len: nat := src[k] as int + 256 * src[k + 1] as int;
      var nlen: nat := src[k + 2] as int + 256 * src[k + 3] as int;
      if len + nlen != 65535 || k + 4 + len > |src| then None
      else Some(Progress(8 * (k + 4 + len), out + src[k + 4..k + 4 + len]))
  }

  /** The fixed code lengths (section 3.2.6). */
  function FixedLits(): seq<CodeLen> {
    Times(144, 8) + Times(112, 9) + Times(24, 7) + Times(8, 8)
  }

  function FixedDists(): seq<CodeLen> {
    Times(32, 5)
  }

  /** The order in which the lengths of the code length code are sent (section
      3.2.7), inverted: the place of symbol i. */
  const CLC_PLACE: seq<nat> := [3, 17, 15, 13, 11, 9, 7, 5, 4, 6, 8, 10, 12, 14, 16, 18, 0, 1, 2]

  /** The lengths of the code length code, n of them sent three bits each. */
  function ClcLens(src: seq<Byte>, p: nat, n: nat): (lens: seq<CodeLen>)
    ensures |lens| == 19
  {
    seq<CodeLen>(19, i requires 0 <= i < 19 =>
      if CLC_PLACE[i] < n then ThreeBits(src, p + 3 * CLC_PLACE[i]) else 0)
  }

  function ThreeBits(src: seq<Byte>, p: nat): CodeLen {
    assert Pow2(3) == 8;
    Value(src, p, 3)
  }

  function Times(n: nat, l: CodeLen): (r: seq<CodeLen>)
    ensures |r| == n
  {
    seq<CodeLen>(n, i => l)
  }

  /** One symbol of the code length sequence, added to the lengths before it:
      a length, or a repetition of the last length or of zero. */
  ghost function RunAt(src: seq<Byte>, clc: seq<CodeLen>, p: nat, acc: seq<CodeLen>, total: nat)
    : (r: Option<(seq<CodeLen>, nat)>)
    requires |clc| == 19 && |acc| < total
    ensures r.Some? ==> |acc| < |r.value.0| <= total && p <= r.value.1 <= Limit(src)
  {
    var s :- SymbolAt(clc, src, p);
    if s < 16 then Some((acc + [s], p + clc[s]))
    else if s == 16 && acc == [] then None
    else
      var e :- BitsAt(src, p + clc[s], RepeatBits(s));
      if |acc| + RepeatBase(s) + e > total then None
      else Some((acc + Times(RepeatBase(s) + e, if s == 16 then acc[|acc| - 1] else 0), p + clc[s] + RepeatBits(s)))
  }

  /** The code lengths up to total of them. */
  ghost function LensAt(src: seq<Byte>, clc: seq<CodeLen>, p: nat, acc: seq<CodeLen>, total: nat)
    : (r: Option<(seq<CodeLen>, nat)>)
    requires |clc| == 19 && |acc| <= total
    ensures r.Some? ==> |r.value.0| == total && p <= r.value.1
    decreases total - |acc|
  {
    if |acc| == total then Some((acc, p)) else
      var r :- RunAt(src, clc, p, acc, total);
      LensAt(src, clc, r.1, r.0, total)
  }

  function RepeatBits(s: nat): nat { if s == 16 then 2 else if s == 17 then 3 else 7 }
  function RepeatBase(s: nat): (b: nat) ensures b >= 1 { if s == 18 then 11 else 3 }

  datatype Codes = Codes(lits: seq<CodeLen>, dists: seq<CodeLen>, p: nat)

  /** The two codes at the head of a dynamic block (section 3.2.7). */
  ghost function CodesAt(src: seq<Byte>, p: nat): (r: Option<Codes>)
    ensures r.Some? ==> p <= r.value.p
  {
    var hlit :- BitsAt(src, p, 5);
    var hdist :- BitsAt(src, p + 5, 5);
    var hclen :- BitsAt(src, p + 10, 4);
    CodesFrom(src, p + 14, hlit + 257, hdist + 1, hclen + 4)
  }

  /** RFC 1951 lets a block announce up to 32 distance codes, of which the last
      two stand for nothing; tinflate refuses more than 30, and so does this. */
  ghost function CodesFrom(src: seq<Byte>, p: nat, nlit: nat, ndist: nat, nclc: nat): (r: Option<Codes>)
    requires nlit >= 257
    ensures r.Some? ==> p <= r.value.p
  {
    if nlit > 286 || ndist > 30 || p + 3 * nclc > Limit(src) || !Accepts(ClcLens(src, p, nclc)) then None
    else
      var r :- LensAt(src, ClcLens(src, p, nclc), p + 3 * nclc, [], nlit + ndist);
      CodesOf(r.0[..nlit], r.0[nlit..], r.1)
  }

  function CodesOf(lits: seq<CodeLen>, dists: seq<CodeLen>, p: nat): Option<Codes>
    requires |lits| >= 257
  {
    if lits[256] == 0 || !Accepts(lits) || !Accepts(dists) then None
    else Some(Codes(lits, dists, p))
  }

  /** The body of a block of the given type. */
  ghost function Block(src: seq<Byte>, kind: nat, p: nat, out: seq<Byte>): (r: Option<Progress>)
    ensures r.Some? ==> p <= r.value.p <= Limit(src) && out <= r.value.out
  {
    if kind == 0 then Stored(src, p, out)
    else if kind == 1 then BlockData(src, FixedLits(), FixedDists(), p, out)
    else if kind == 2 then
      var c :- CodesAt(src, p);
      BlockData(src, c.lits, c.dists, c.p, out)
    else None
  }

  /** All blocks from p on, up to the one marked final (section 3.2.3). */
  ghost function InflateFrom(src: seq<Byte>, p: nat, out: seq<Byte>): (r: Option<seq<Byte>>)
    ensures r.Some? ==> out <= r.value
    decreases Limit(src) - p
  {
    var final :- BitsAt(src, p, 1);
    var kind :- BitsAt(src, p + 1, 2);
    var b :- Block(src, kind, p + 3, out);
    if final == 1 then Some(b.out) else InflateFrom(src, b.p, b.out)
  }

  /** The data a DEFLATE stream stands for, if it is one. */
  ghost function Inflate(src: seq<Byte>): Option<seq<Byte>> {
    InflateFrom(src, 0, [])
  }
}
