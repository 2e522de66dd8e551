/** tinflate: a DEFLATE decoder over a byte buffer. */
module Tinflate {
  import opened Bits
  import opened Options
  import opened Huffman
  import opened InflateSpec
  import opened TinfTree
  import FixedCodes

  /** For each length and each distance symbol, how many bits follow it and the
      value they are added to. */
  const LENGTH_BITS: seq<nat> := [
    0, 0, 0, 0, 0, 0, 0, 0, 1, 1, 1, 1, 2, 2, 2, 2, 3, 3, 3, 3, 4, 4, 4, 4, 5, 5, 5, 5, 0, 127]
  const LENGTH_BASE: seq<nat> := [
    3, 4, 5, 6, 7, 8, 9, 10, 11, 13, 15, 17, 19, 23, 27, 31, 35, 43, 51, 59, 67, 83, 99, 115,
    131, 163, 195, 227, 258, 0]
  const DIST_BITS: seq<nat> := [
    0, 0, 0, 0, 1, 1, 2, 2, 3, 3, 4, 4, 5, 5, 6, 6, 7, 7, 8, 8, 9, 9, 10, 10, 11, 11, 12, 12, 13, 13]
  const DIST_BASE: seq<nat> := [
    1, 2, 3, 4, 5, 7, 9, 13, 17, 25, 33, 49, 65, 97, 129, 193, 257, 385, 513, 769, 1025, 1537,
    2049, 3073, 4097, 6145, 8193, 12289, 16385, 24577]

  /** Which symbol of the code length code each of the lengths sent is for. */
  const CLC_INDEX: seq<nat> := [16, 17, 18, 0, 8, 7, 9, 6, 10, 5, 11, 4, 12, 3, 13, 2, 14, 1, 15]

  lemma LengthTable(s: nat)
    requires 257 <= s <= 285
    ensures LENGTH_BITS[s - 257] == LengthExtra(s) <= 5 && LENGTH_BASE[s - 257] == LengthBase(s)
  {
    assert Pow2(1) == 2 && Pow2(2) == 4 && Pow2(3) == 8 && Pow2(4) == 16 && Pow2(5) == 32;
  }

  lemma DistTable(d: nat)
    requires d <= 29
    ensures DIST_BITS[d] == DistExtra(d) <= 13 && DIST_BASE[d] == DistBase(d)
  {
    assert Pow2(1) == 2 && Pow2(2) == 4 && Pow2(3) == 8 && Pow2(4) == 16 && Pow2(5) == 32;
    assert Pow2(6) == 64 && Pow2(7) == 128 && Pow2(8) == 256 && Pow2(9) == 512 && Pow2(10) == 1024;
    assert Pow2(11) == 2048 && Pow2(12) == 4096 && Pow2(13) == 8192;
  }

  method LengthEntry(sym: nat) returns (bits: nat, base: nat)
    requires 257 <= sym <= 285
    ensures bits == LengthExtra(sym) <= 5 && base == LengthBase(sym)
  {
    LengthTable(sym);
    return LENGTH_BITS[sym - 257], LENGTH_BASE[sym - 257];
  }

  method DistEntry(dist: nat) returns (bits: nat, base: nat)
    requires dist <= 29
    ensures bits == DistExtra(dist) <= 13 && base == DistBase(dist)
  {
    DistTable(dist);
    return DIST_BITS[dist], DIST_BASE[dist];
  }

  lemma ClcTable(i: nat)
    requires i < 19
    ensures CLC_INDEX[i] < 19 && CLC_PLACE[CLC_INDEX[i]] == i
    ensures CLC_PLACE[i] < 19 && CLC_INDEX[CLC_PLACE[i]] == i
  {
  }

  /** Decoding by the completed code is decoding by the lengths themselves,
      except that the symbol added to a lonely code stands for no symbol. */
  lemma EffectiveSymbol(lens: seq<CodeLen>, src: seq<Byte>, p: nat, sym: nat)
    requires Accepts(lens) && Below(lens, 16) > 0
    requires CodeAt(Effective(lens), src, p, sym)
    ensures sym <= MaxSym(lens) ==> CodeAt(lens, src, p, sym) && lens[sym] == Effective(lens)[sym]
    ensures sym > MaxSym(lens) ==> SymbolAt(lens, src, p) == None
  {
    AcceptsWhen(lens);
    var m := MaxSym(lens);
    if Below(lens, 16) == 1 {
      EffectiveOfSingle(lens);
      var e := Effective(lens);
      SingleCode(lens, m);
      assert First(e, 1) == First(lens, 1) == 0;
      assert lens[m] == e[m] == 1;
      assert Code(lens, m) == Code(e, m) == 0 && Code(e, m + 1) == 1;
      if sym > m && SymbolAt(lens, src, p).Some? {
        SingleCode(lens, SymbolAt(lens, src, p).value);
      }
    }
  }

  lemma EffectiveComplete(lens: seq<CodeLen>)
    requires Accepts(lens) && Below(lens, 16) > 0
    ensures Complete(Effective(lens))
  {
    AcceptsWhen(lens);
    if Below(lens, 16) == 1 {
      EffectiveOfSingle(lens);
    } else {
      KraftEquality(lens);
    }
  }

  /** Where symbol decoding stands before bit number len of a code word: the
      bits so far are an inner node of the code tree, offs nodes to the right
      of the first one, and base codes are shorter. */
  ghost predicate Level(lens: seq<CodeLen>, src: seq<Byte>, p: nat, len: nat, base: nat, offs: nat) {
    && len >= 1
    && base == Below(lens, len)
    && MsbVal(Window(src, p, len - 1)) == First(lens, len - 1) + Num(lens, len - 1) + offs
  }

  lemma TopLevel(lens: seq<CodeLen>, src: seq<Byte>, p: nat)
    ensures Level(lens, src, p, 1, 0, 0)
  {
    assert Below(lens, 1) == 0;
  }

  lemma LevelBase(lens: seq<CodeLen>, src: seq<Byte>, p: nat, len: nat, base: nat, offs: nat)
    requires Level(lens, src, p, len, base, offs)
    ensures base == Below(lens, len)
  {
  }

  /** The next bit selects a node among those of length len. */
  lemma Descend(lens: seq<CodeLen>, src: seq<Byte>, p: nat, len: nat, base: nat, offs: nat, bit: nat)
    requires 1 <= len <= 15 && Level(lens, src, p, len, base, offs)
    requires bit == Value(src, p + len - 1, 1)
    ensures MsbVal(Window(src, p, len)) == First(lens, len) + 2 * offs + bit
  {
    NextBit(src, p, len - 1);
    hide Window, Value, MsbVal;
  }

  lemma BottomLevel(lens: seq<CodeLen>)
    requires Complete(lens)
    ensures Pow2(15) == First(lens, 15) + Count(lens, 15)
  {
  }

  lemma BelowStep(lens: seq<CodeLen>, l: nat)
    ensures Below(lens, l + 1) == Below(lens, l) + Num(lens, l)
  {
  }

  /** Unless that node is one of the codes there, which come first, it is an
      inner node again; at length fifteen there are none. */
  lemma Deeper(lens: seq<CodeLen>, src: seq<Byte>, p: nat, len: nat, base: nat, offs: nat)
    requires Complete(lens) && 1 <= len <= 15
    requires base == Below(lens, len) && offs >= Count(lens, len)
    requires MsbVal(Window(src, p, len)) == First(lens, len) + offs
    ensures len < 15 && Level(lens, src, p, len + 1, base + Count(lens, len), offs - Count(lens, len))
  {
    hide Window, MsbVal, First, Below, Count, Left;
    BottomLevel(lens);
    BelowStep(lens, len);
    assert MsbVal(Window(src, p, len)) < Pow2(len);
    assert len + 1 - 1 == len;
  }

  lemma NextBit(src: seq<Byte>, p: nat, n: nat)
    ensures MsbVal(Window(src, p, n + 1)) == 2 * MsbVal(Window(src, p, n)) + Value(src, p + n, 1)
  {
    var w := Window(src, p, n + 1);
    WindowSplit(src, p, n, 1);
    OneBit(src, p + n);
    MsbPrefix(w, n);
    assert w[..n + 1] == w;
  }

  /** A number below the count is a code word, found at base + offs. */
  lemma Arrive(lens: seq<CodeLen>, src: seq<Byte>, p: nat, len: nat, base: nat, offs: nat) returns (s: nat)
    requires Complete(lens) && 1 <= len <= 15 && offs < Count(lens, len) && base == Below(lens, len)
    requires MsbVal(Window(src, p, len)) == First(lens, len) + offs
    ensures CodeAt(lens, src, p, s) && HasCode(lens, s) && lens[s] == len && Position(lens, s) == base + offs
  {
    s := WordOfNumber(lens, Window(src, p, len));
  }

  lemma HeldCount(t: Tree, lens: seq<CodeLen>, len: nat)
    requires t.Valid() && t.Represents(lens) && 1 <= len <= 15
    ensures t.counts[len] == Count(lens, len)
  {
  }

  lemma HeldSymbol(t: Tree, lens: seq<CodeLen>, s: nat)
    requires t.Valid() && t.Represents(lens) && HasCode(lens, s)
    ensures Position(lens, s) < 288 && t.symbols[Position(lens, s)] == s
  {
  }

  /** Where the i-th length of the code length code goes. */
  method ClcEntry(i: nat, ghost src: seq<Byte>, ghost p: nat) returns (idx: nat)
    requires i < 19
    ensures idx < 19 && Value(src, p + 3 * i, 3) < 8
    ensures ClcLens(src, p, i + 1) == ClcLens(src, p, i)[idx := Value(src, p + 3 * i, 3)]
  {
    ClcStep(src, p, i);
    return CLC_INDEX[i];
  }

  lemma ClcNone(src: seq<Byte>, p: nat)
    ensures ClcLens(src, p, 0) == Times(19, 0)
  {
    hide Value;
  }

  lemma ClcStep(src: seq<Byte>, p: nat, i: nat)
    requires i < 19
    ensures CLC_INDEX[i] < 19 && Value(src, p + 3 * i, 3) < 8
    ensures ClcLens(src, p, i + 1) == ClcLens(src, p, i)[CLC_INDEX[i] := Value(src, p + 3 * i, 3)]
  {
    hide Value, ClcLens;
    assert Pow2(3) == 8;
    ClcTable(i);
    var a, b := ClcLens(src, p, i + 1), ClcLens(src, p, i)[CLC_INDEX[i] := Value(src, p + 3 * i, 3)];
    forall j | 0 <= j < 19 ensures a[j] == b[j] {
      ClcStepAt(src, p, i, j);
    }
    assert |a| == 19 && |b| == 19;
  }

  lemma ClcAt(src: seq<Byte>, p: nat, n: nat, j: nat)
    requires j < 19
    ensures ClcLens(src, p, n)[j] == if CLC_PLACE[j] < n then Value(src, p + 3 * CLC_PLACE[j], 3) else 0
  {
    hide Value;
  }

  lemma ClcStepAt(src: seq<Byte>, p: nat, i: nat, j: nat)
    requires i < 19 && j < 19
    ensures ClcLens(src, p, i + 1)[j]
            == if j == CLC_INDEX[i] then Value(src, p + 3 * i, 3) else ClcLens(src, p, i)[j]
  {
    hide Value, ClcLens;
    ClcAt(src, p, i, j);
    ClcAt(src, p, i + 1, j);
    ClcPlaces(i, j);
  }

  lemma ClcPlaces(i: nat, j: nat)
    requires i < 19 && j < 19
    ensures j == CLC_INDEX[i] <==> CLC_PLACE[j] == i
  {
    ClcTable(i);
    ClcTable(j);
  }

  lemma CodesAtIs(src: seq<Byte>, p: nat)
    ensures CodesAt(src, p) ==
            CodesFrom(src, p + 14, 257 + Value(src, p, 5), 1 + Value(src, p + 5, 5), 4 + Value(src, p + 10, 4))
    ensures Value(src, p + 10, 4) < 16
  {
    hide Value, CodesFrom;
    assert Pow2(4) == 16;
    CodesTooLong(src, p + 14, 257 + Value(src, p, 5), 1 + Value(src, p + 5, 5), 4 + Value(src, p + 10, 4));
  }

  lemma CodesTooLong(src: seq<Byte>, p: nat, nlit: nat, ndist: nat, nclc: nat)
    requires nlit >= 257
    ensures p > Limit(src) ==> CodesFrom(src, p, nlit, ndist, nclc) == None
  {
    hide Accepts, ClcLens, LensAt, CodesOf;
  }

  lemma RunFails(src: seq<Byte>, clc: seq<CodeLen>, p: nat, acc: seq<CodeLen>, total: nat)
    requires |clc| == 19 && |acc| < total
    requires var s := SymbolAt(clc, src, p); s == None || (s == Some(16) && acc == [])
    ensures RunAt(src, clc, p, acc, total) == None
  {
    hide Value, SymbolAt, Times;
  }

  lemma RunLength(src: seq<Byte>, clc: seq<CodeLen>, p: nat, acc: seq<CodeLen>, total: nat, s: nat)
    requires |clc| == 19 && |acc| < total && SymbolAt(clc, src, p) == Some(s) && s < 16
    ensures RunAt(src, clc, p, acc, total) == Some((acc + Times(1, s), p + clc[s]))
  {
    hide Value, SymbolAt;
    assert Times(1, s) == [s];
  }

  lemma RunRepeat(src: seq<Byte>, clc: seq<CodeLen>, p: nat, acc: seq<CodeLen>, total: nat, s: nat)
    requires |clc| == 19 && |acc| < total && SymbolAt(clc, src, p) == Some(s) && s >= 16 && !(s == 16 && acc == [])
    ensures var p1 := p + clc[s];
            var times := RepeatBase(s) + Value(src, p1, RepeatBits(s));
            RunAt(src, clc, p, acc, total) ==
              if p1 + RepeatBits(s) > Limit(src) || |acc| + times > total then None
              else Some((acc + Times(times, if s == 16 then acc[|acc| - 1] else 0), p1 + RepeatBits(s)))
  {
    hide Value, SymbolAt, Times, RepeatBits, RepeatBase;
  }

  lemma LensStep(src: seq<Byte>, clc: seq<CodeLen>, p: nat, acc: seq<CodeLen>, total: nat)
    requires |clc| == 19 && |acc| < total
    ensures LensAt(src, clc, p, acc, total) ==
            match RunAt(src, clc, p, acc, total)
            case None => None
            case Some(r) => LensAt(src, clc, r.1, r.0, total)
  {
  }

  lemma LensPastEnd(src: seq<Byte>, clc: seq<CodeLen>, p: nat, total: nat)
    requires |clc| == 19 && p > Limit(src) && total > 0
    ensures LensAt(src, clc, p, [], total) == None
  {
  }

  lemma LensEmpty(src: seq<Byte>, clc: seq<CodeLen>, p: nat, total: nat)
    requires |clc| == 19 && Below(clc, 16) == 0 && total > 0
    ensures LensAt(src, clc, p, [], total) == None
  {
    var r := SymbolAt(clc, src, p);
    if r.Some? {
      CodeExists(clc, r.value);
    }
  }

  lemma CodeExists(lens: seq<CodeLen>, s: nat)
    requires HasCode(lens, s)
    ensures Below(lens, 16) > 0
  {
    PositionBound(lens, s);
  }

  /** There is no largest symbol exactly when there is no code. */
  lemma EmptyCode(lens: seq<CodeLen>)
    ensures MaxSym(lens) == -1 <==> Below(lens, 16) == 0
  {
    if MaxSym(lens) >= 0 {
      CodeExists(lens, MaxSym(lens));
    } else {
      BelowUpToMax(lens, 16);
      BelowEmpty(16);
    }
  }

  lemma LensDone(src: seq<Byte>, clc: seq<CodeLen>, p: nat, acc: seq<CodeLen>)
    requires |clc| == 19
    ensures LensAt(src, clc, p, acc, |acc|) == Some((acc, p))
  {
  }

  class TinfData {
    const source: seq<Byte>
    var pos: nat
    var tag: nat
    var bitcount: nat
    var overflow: bool
    /** Bytes put into the tag so far; past the end of the source each is zero. */
    ghost var fetched: nat

    const dest: array<Byte>
    const destLen: nat
    var destPos: nat

    const ltree: Tree
    const dtree: Tree

    constructor (source: seq<Byte>, dest: array<Byte>, destLen: nat)
      requires destLen <= dest.Length
      ensures this.source == source && this.dest == dest && this.destLen == destLen
      ensures destPos == 0 && !overflow
      ensures InSync() && At() == 0
      ensures Separate() && fresh(ltree) && fresh(dtree) && fresh(Trees())
    {
      this.source, this.dest, this.destLen := source, dest, destLen;
      pos, tag, bitcount, overflow, fetched := 0, 0, 0, false, 0;
      destPos := 0;
      ltree := new Tree();
      dtree := new Tree();
    }

    ghost function Trees(): set<object> {
      {ltree.counts, ltree.symbols, dtree.counts, dtree.symbols}
    }

    /** Nothing is shared between the two trees and the output. */
    ghost predicate Separate() {
      && destLen <= dest.Length
      && ltree.Valid() && dtree.Valid() && ltree != dtree
      && ltree.counts != dtree.counts && ltree.counts != dtree.symbols
      && ltree.symbols != dtree.counts && ltree.symbols != dtree.symbols
      && dest !in Trees()
    }

    /** The tag holds the stream's next bits. */
    ghost predicate Buffered()
      reads `pos, `tag, `bitcount, `overflow, `fetched
    {
      && pos == (if fetched <= |source| then fetched else |source|)
      && (overflow <==> fetched > |source|)
      && bitcount <= 8 * fetched
      && tag == Value(source, 8 * fetched - bitcount, bitcount)
    }

    /** Between reads less than a byte is buffered. */
    ghost predicate InSync()
      reads `pos, `tag, `bitcount, `overflow, `fetched
    {
      Buffered() && bitcount <= 7
    }

    /** The position in the bit stream. */
    ghost function At(): nat
      reads `bitcount, `fetched
    {
      if bitcount <= 8 * fetched then 8 * fetched - bitcount else 0
    }

    /** Reads bytes until num bits are there. More than 25 could push bits out
        of the 32-bit tag. */
    method Refill(num: nat)
      requires Buffered() && num <= 25 && bitcount <= 32
      modifies `pos, `tag, `bitcount, `overflow, `fetched
      ensures Buffered() && At() == old(At())
      ensures num <= bitcount <= 32 && tag < Pow2(bitcount)
      ensures bitcount == old(bitcount) || bitcount < num + 8
    {
      hide Value;
      while bitcount < num
        invariant Buffered() && At() == old(At()) && bitcount <= 32
        invariant bitcount == old(bitcount) || bitcount < num + 8
      {
        FetchByte(source, fetched, bitcount);
        if pos != |source| {
          tag := tag + Shl(source[pos], bitcount);
          pos := pos + 1;
        } else {
          overflow := true;
        }
        bitcount := bitcount + 8;
        fetched := fetched + 1;
      }
    }

    method GetBitsNoRefill(num: nat) returns (bits: nat)
      requires Buffered() && num <= bitcount
      modifies `tag, `bitcount
      ensures Buffered() && At() == old(At()) + num && bitcount == old(bitcount) - num
      ensures bits == Value(source, old(At()), num)
    {
      ValueSplit(source, At(), num, bitcount - num);
      bits := Low(tag, num);
      tag := Shr(tag, num);
      bitcount := bitcount - num;
    }

    /** The next num bits of the stream, zeros past its end; overflow tells
        exactly whether the end has been passed. */
    method GetBits(num: nat) returns (bits: nat)
      requires InSync() && num <= 25
      modifies `pos, `tag, `bitcount, `overflow, `fetched
      ensures InSync() && At() == old(At()) + num
      ensures bits == Value(source, old(At()), num)
      ensures overflow <==> At() > Limit(source)
      ensures !overflow ==> pos == (At() + 7) / 8
    {
      Refill(num);
      bits := GetBitsNoRefill(num);
    }

    method GetBitsBase(num: nat, base: nat) returns (v: nat)
      requires InSync() && num <= 25
      modifies `pos, `tag, `bitcount, `overflow, `fetched
      ensures InSync() && At() == old(At()) + num
      ensures overflow <==> At() > Limit(source)
      ensures v == base + Value(source, old(At()), num)
    {
      v := base;
      if num != 0 {
        var bits := GetBits(num);
        v := v + bits;
      }
    }

    /** Reads one code word of the complete code a tree holds: the symbol
        returned is the one whose canonical code stands at the position, and
        exactly that code is consumed, within fifteen bits. */
    method DecodeSymbol(t: Tree, ghost lens: seq<CodeLen>) returns (sym: nat)
      requires InSync() && t.Valid() && Complete(lens) && t.Represents(lens)
      modifies `pos, `tag, `bitcount, `overflow, `fetched
      ensures InSync() && CodeAt(lens, source, old(At()), sym)
      ensures At() == old(At()) + lens[sym]
    {
      hide Level, CodeAt, Value, Position, InSync, At, First, Below, Complete, MsbVal, Window;
      ghost var p := At();
      var base, offs, len := 0, 0, 1;
      TopLevel(lens, source, p);
      while true
        invariant InSync() && 1 <= len <= 15 && At() == p + len - 1
        invariant Level(lens, source, p, len, base, offs)
        invariant t.Represents(lens)
        decreases 15 - len
      {
        var bit := GetBits(1);
        Descend(lens, source, p, len, base, offs, bit);
        LevelBase(lens, source, p, len, base, offs);
        offs := 2 * offs + bit;
        HeldCount(t, lens, len);
        if offs < t.counts[len] {
          ghost var s := Arrive(lens, source, p, len, base, offs);
          HeldSymbol(t, lens, s);
          return t.symbols[base + offs];
        }
        Deeper(lens, source, p, len, base, offs);
        base := base + t.counts[len];
        offs := offs - t.counts[len];
        len := len + 1;
      }
    }

    /** The symbol at the position by the lengths themselves: it stands there,
        and lies within the input, exactly if it is no larger than the largest
        symbol and the end has not been passed. */
    method Decode(t: Tree, ghost lens: seq<CodeLen>) returns (sym: nat)
      requires InSync() && t.Valid()
      requires Accepts(lens) && Below(lens, 16) > 0 && t.Represents(Effective(lens))
      modifies `pos, `tag, `bitcount, `overflow, `fetched
      ensures InSync() && At() > old(At())
      ensures overflow <==> At() > Limit(source)
      ensures sym <= MaxSym(lens) ==> HasCode(lens, sym) && At() == old(At()) + lens[sym]
      ensures SymbolAt(lens, source, old(At())) ==
              if sym <= MaxSym(lens) && !overflow then Some(sym) else None
    {
      ghost var p := At();
      EffectiveComplete(lens);
      sym := DecodeSymbol(t, Effective(lens));
      EffectiveSymbol(lens, source, p, sym);
      if sym <= MaxSym(lens) {
        SymbolAtIs(lens, source, p, sym);
      }
    }

    /** Reads the lengths of the code length code, in their special order. */
    method ReadClcLengths(hclen: nat, lengths: array<CodeLen>)
      requires InSync() && hclen <= 19 && lengths.Length == 320
      modifies `pos, `tag, `bitcount, `overflow, `fetched, lengths
      ensures InSync() && At() == old(At()) + 3 * hclen
      ensures lengths[..19] == ClcLens(source, old(At()), hclen)
    {
      hide Value, InSync, At, ClcLens;
      ghost var p := At();
      ClcNone(source, p);
      FillLengths(lengths, 0, 19, 0);
      for i := 0 to hclen
        invariant InSync() && At() == p + 3 * i
        invariant lengths[..19] == ClcLens(source, p, i)
      {
        var idx := ClcEntry(i, source, p);
        var clen := GetBits(3);
        lengths[idx] := clen;
      }
    }

    /** How often a repeat symbol repeats. */
    method DecodeRepeat(sym: nat) returns (length: nat)
      requires InSync() && 16 <= sym <= 18
      modifies `pos, `tag, `bitcount, `overflow, `fetched
      ensures InSync() && At() == old(At()) + RepeatBits(sym)
      ensures overflow <==> At() > Limit(source)
      ensures length == RepeatBase(sym) + Value(source, old(At()), RepeatBits(sym))
    {
      hide Value;
      if sym == 16 {
        length := GetBitsBase(2, 3);
      } else if sym == 17 {
        length := GetBitsBase(3, 3);
      } else {
        length := GetBitsBase(7, 11);
      }
    }

    /** Decodes one symbol of the code length sequence: so many times a value. */
    method DecodeRun(prev: CodeLen, num: nat, total: nat, ghost acc: seq<CodeLen>, ghost clc: seq<CodeLen>)
      returns (ok: bool, value: CodeLen, length: nat)
      requires InSync() && ltree.Valid() && num < total
      requires |acc| == num && (num > 0 ==> prev == acc[num - 1])
      requires |clc| == 19 && Accepts(clc) && Below(clc, 16) > 0
      requires ltree.Represents(Effective(clc)) && ltree.maxSym == MaxSym(clc)
      modifies `pos, `tag, `bitcount, `overflow, `fetched
      ensures InSync() && At() > old(At())
      ensures ok ==> 0 < length <= total - num
      ensures overflow <==> At() > Limit(source)
      ensures RunAt(source, clc, old(At()), acc, total) ==
              if ok && !overflow then Some((acc + Times(length, value), At())) else None
    {
      hide Value, SymbolAt, Accepts, Effective, Below, RunAt, Times, RepeatBits, RepeatBase, InSync, At;
      ghost var p := At();
      var sym := Decode(ltree, clc);
      ok, value, length := false, 0, 1;
      if sym > ltree.maxSym || (sym == 16 && num == 0) {
        RunFails(source, clc, p, acc, total);
        return;
      }
      value, length := FinishRun(sym, prev, num, total, acc, clc, p);
      ok := length <= total - num;
    }

    /** What a symbol of the code length sequence asks to be repeated, and how
        often. */
    method FinishRun(sym: nat, prev: CodeLen, num: nat, total: nat, ghost acc: seq<CodeLen>, ghost clc: seq<CodeLen>,
                     ghost p: nat)
      returns (value: CodeLen, length: nat)
      requires InSync() && num < total && |acc| == num && (num > 0 ==> prev == acc[num - 1])
      requires |clc| == 19 && sym < 19 && !(sym == 16 && num == 0)
      requires At() == p + clc[sym] && At() > p && (overflow <==> At() > Limit(source))
      requires SymbolAt(clc, source, p) == if overflow then None else Some(sym)
      modifies `pos, `tag, `bitcount, `overflow, `fetched
      ensures InSync() && At() > p && 0 < length && (overflow <==> At() > Limit(source))
      ensures RunAt(source, clc, p, acc, total) ==
              if length <= total - num && !overflow then Some((acc + Times(length, value), At())) else None
    {
      hide Value, SymbolAt, RunAt, Times, RepeatBits, RepeatBase, InSync, At;
      if overflow {
        RunFails(source, clc, p, acc, total);
      } else if sym >= 16 {
        RunRepeat(source, clc, p, acc, total, sym);
      } else {
        RunLength(source, clc, p, acc, total, sym);
      }
      value, length := 0, 1;
      if sym >= 16 {
        value := if sym == 16 then prev else 0;
        length := DecodeRepeat(sym);
      } else {
        value := sym;
      }
    }

    /** Decodes total code lengths, runs included, into lengths. When it fails,
        or the end of the input has been passed, there are no such lengths. */
    method DecodeLengths(total: nat, lengths: array<CodeLen>, ghost clc: seq<CodeLen>) returns (ok: bool)
      requires InSync() && Separate() && lengths !in Trees() && 0 < total <= lengths.Length
      requires |clc| == 19 && Accepts(clc) && Below(clc, 16) > 0
      requires ltree.Represents(Effective(clc)) && ltree.maxSym == MaxSym(clc)
      modifies `pos, `tag, `bitcount, `overflow, `fetched, lengths
      ensures InSync() && At() >= old(At())
      ensures LensAt(source, clc, old(At()), [], total) ==
              if ok && !overflow then Some((lengths[..total], At())) else None
    {
      hide Accepts, Effective, Below, LensAt, RunAt, InSync, At;
      OverflowMeans();
      ghost var goal := LensAt(source, clc, At(), [], total);
      var num := 0;
      assert lengths[..0] == [];
      if overflow {
        LensPastEnd(source, clc, At(), total);
      }
      while num < total
        invariant InSync() && num <= total && At() >= old(At())
        invariant ltree.Represents(Effective(clc))
        invariant goal == if overflow then None else LensAt(source, clc, At(), lengths[..num], total)
      {
        OverflowMeans();
        ghost var acc := lengths[..num];
        LensStep(source, clc, At(), acc, total);
        var prev := if num == 0 then 0 else lengths[num - 1];
        var value, length;
        ok, value, length := DecodeRun(prev, num, total, acc, clc);
        if !ok {
          return;
        }
        FillLengths(lengths, num, length, value);
        num := num + length;
      }
      LensDone(source, clc, At(), lengths[..total]);
      ok := true;
    }

    static method FillLengths(lengths: array<CodeLen>, start: nat, n: nat, value: CodeLen)
      requires start + n <= lengths.Length
      modifies lengths
      ensures lengths[..start + n] == old(lengths[..start]) + Times(n, value)
    {
      for i := 0 to n
        invariant lengths[..start + i] == old(lengths[..start]) + Times(i, value)
      {
        lengths[start + i] := value;
      }
    }

    /** The trees hold the two codes of a block, with the largest symbols that
        may appear. */
    ghost predicate Ready(lits: seq<CodeLen>, dists: seq<CodeLen>)
      requires Separate()
      reads ltree, dtree, ltree.counts, ltree.symbols, dtree.counts, dtree.symbols
    {
      && HasCode(lits, 256)
      && Accepts(lits) && Below(lits, 16) > 0 && ltree.Represents(Effective(lits))
      && (ltree.maxSym == MaxSym(lits) || ltree.maxSym == 285 <= MaxSym(lits))
      && Accepts(dists) && (Below(dists, 16) > 0 <==> dtree.maxSym != -1)
      && (Below(dists, 16) > 0 ==> dtree.Represents(Effective(dists)))
      && (dtree.maxSym == MaxSym(dists) || dtree.maxSym == 29 <= MaxSym(dists))
    }

    /** Builds both trees from the decoded lengths. */
    method BuildDynamicTrees(lits: seq<CodeLen>, dists: seq<CodeLen>, ghost p: nat) returns (res: Status)
      requires Separate() && 257 <= |lits| <= 286 && |dists| <= 30
      modifies ltree, dtree, ltree.counts, ltree.symbols, dtree.counts, dtree.symbols
      ensures res == Ok ==> Ready(lits, dists)
      ensures CodesOf(lits, dists, p) == if res == Ok then Some(Codes(lits, dists, p)) else None
      ensures res != BufError
    {
      hide Accepts, Effective, Below;
      if lits[256] == 0 {
        return DataError;
      }
      res := ltree.Build(lits);
      if res != Ok {
        return;
      }
      res := dtree.Build(dists);
      CodeExists(lits, 256);
      EmptyCode(dists);
    }

    /** The rest of a dynamic block's head, after the three counts. */
    method DecodeTreesFrom(hlit: nat, hdist: nat, hclen: nat)
      returns (res: Status, ghost lits: seq<CodeLen>, ghost dists: seq<CodeLen>)
      requires InSync() && Separate() && hlit >= 257 && hclen <= 19
      modifies `pos, `tag, `bitcount, `overflow, `fetched
      modifies ltree, dtree, ltree.counts, ltree.symbols, dtree.counts, dtree.symbols
      ensures InSync() && At() >= old(At()) && res != BufError
      ensures res == Ok ==> Ready(lits, dists)
      ensures CodesFrom(source, old(At()), hlit, hdist, hclen) ==
              if res == Ok && !overflow then Some(Codes(lits, dists, At())) else None
    {
      hide Accepts, Effective, Below, LensAt, ClcLens, CodesOf, InSync, At;
      OverflowMeans();
      lits, dists := [], [];
      if hlit > 286 || hdist > 30 {
        return DataError, lits, dists;
      }
      var lengths := new CodeLen[320];
      ghost var p := At();
      ReadClcLengths(hclen, lengths);
      OverflowMeans();
      ghost var clc := lengths[..19];
      res := ltree.Build(lengths[..19]);
      if res != Ok {
        return;
      }
      EmptyCode(clc);
      if ltree.maxSym == -1 {
        LensEmpty(source, clc, At(), hlit + hdist);
        return DataError, lits, dists;
      }
      var ok := DecodeLengths(hlit + hdist, lengths, clc);
      OverflowMeans();
      if !ok {
        return DataError, lits, dists;
      }
      lits, dists := lengths[..hlit], lengths[hlit..hlit + hdist];
      assert lengths[..hlit + hdist][..hlit] == lits && lengths[..hlit + hdist][hlit..] == dists;
      res := BuildDynamicTrees(lengths[..hlit], lengths[hlit..hlit + hdist], At());
    }

    /** Decodes the codes of a dynamic block. When it fails, or the end of the
        input has been passed, the block has no codes. */
    method DecodeTrees() returns (res: Status, ghost lits: seq<CodeLen>, ghost dists: seq<CodeLen>)
      requires InSync() && Separate()
      modifies `pos, `tag, `bitcount, `overflow, `fetched
      modifies ltree, dtree, ltree.counts, ltree.symbols, dtree.counts, dtree.symbols
      ensures InSync() && At() >= old(At()) && res != BufError
      ensures res == Ok ==> Ready(lits, dists)
      ensures CodesAt(source, old(At())) ==
              if res == Ok && !overflow then Some(Codes(lits, dists, At())) else None
    {
      hide Value, CodesFrom, CodesAt, InSync, At, Ready;
      CodesAtIs(source, At());
      var hlit := GetBitsBase(5, 257);
      var hdist := GetBitsBase(5, 1);
      var hclen := GetBitsBase(4, 4);
      res, lits, dists := DecodeTreesFrom(hlit, hdist, hclen);
    }

    /** What has been written so far. */
    ghost function Output(): seq<Byte>
      requires destPos <= dest.Length
      reads this, dest
    {
      dest[..destPos]
    }

    method PutByte(b: Byte)
      requires Separate() && destPos < destLen
      modifies `destPos, dest
      ensures destPos == old(destPos) + 1 && Output() == old(Output()) + [b]
      ensures dest[destLen..] == old(dest[destLen..])
    {
      dest[destPos] := b;
      destPos := destPos + 1;
    }

    /** Copies a match; it may run into the bytes it is producing. */
    method CopyMatch(length: nat, offs: nat)
      requires Separate() && 1 <= offs <= destPos && destPos + length <= destLen
      modifies `destPos, dest
      ensures destPos == old(destPos) + length
      ensures Output() == Copy(old(Output()), offs, length)
      ensures dest[destLen..] == old(dest[destLen..])
    {
      ghost var out := dest[..destPos];
      for i := 0 to length
        invariant destPos == old(destPos) && dest[..destPos + i] == Copy(out, offs, i)
        invariant dest[destLen..] == old(dest[destLen..])
      {
        CopyStep(out, offs, i);
        assert dest[destPos + i - offs] == dest[..destPos + i][destPos + i - offs];
        dest[destPos + i] := dest[destPos + i - offs];
      }
      destPos := destPos + length;
    }

    method GetLength(sym: nat) returns (length: nat)
      requires InSync() && 257 <= sym <= 285
      modifies `pos, `tag, `bitcount, `overflow, `fetched
      ensures InSync() && At() == old(At()) + LengthExtra(sym)
      ensures length == LengthBase(sym) + Value(source, old(At()), LengthExtra(sym))
    {
      hide Value, InSync, At, LengthBase, LengthExtra;
      var bits, base := LengthEntry(sym);
      length := GetBitsBase(bits, base);
    }

    method GetDistance(dist: nat) returns (offs: nat)
      requires InSync() && dist <= 29
      modifies `pos, `tag, `bitcount, `overflow, `fetched
      ensures InSync() && At() == old(At()) + DistExtra(dist)
      ensures overflow <==> At() > Limit(source)
      ensures offs == DistBase(dist) + Value(source, old(At()), DistExtra(dist))
    {
      hide Value, InSync, At, DistBase, DistExtra;
      var bits, base := DistEntry(dist);
      offs := GetBitsBase(bits, base);
    }

    /** A distance symbol of the block. */
    method DecodeDist(ghost lits: seq<CodeLen>, ghost dists: seq<CodeLen>) returns (dist: nat)
      requires InSync() && Separate() && Ready(lits, dists) && dtree.maxSym != -1
      modifies `pos, `tag, `bitcount, `overflow, `fetched
      ensures InSync() && At() > old(At())
      ensures overflow <==> At() > Limit(source)
      ensures var d := SymbolAt(dists, source, old(At()));
              && (overflow ==> d == None)
              && (dist > dtree.maxSym ==> d == None || d.value > 29)
              && (!overflow && dist <= dtree.maxSym ==> d == Some(dist) && At() == old(At()) + dists[dist])
    {
      hide Value, SymbolAt, Accepts, Effective, Below, InSync;
      dist := Decode(dtree, dists);
    }

    /** The length and distance behind a length symbol. A distance symbol out
        of range, or the end of the input, means there are none. */
    method DecodeBack(sym: nat, ghost lits: seq<CodeLen>, ghost dists: seq<CodeLen>)
      returns (ok: bool, length: nat, offs: nat)
      requires InSync() && Separate() && Ready(lits, dists) && 257 <= sym <= 285 && dtree.maxSym != -1
      modifies `pos, `tag, `bitcount, `overflow, `fetched
      ensures InSync() && At() > old(At())
      ensures overflow <==> At() > Limit(source)
      ensures ok ==> offs >= 1
      ensures BackAt(source, dists, sym, old(At())) ==
              if ok && !overflow then Some(Back(length, offs, At())) else None
    {
      hide Value, SymbolAt, LengthBase, LengthExtra, DistBase, DistExtra, InSync, Ready, At, BackAt;
      ghost var p := At();
      length := GetLength(sym);
      var dist := DecodeDist(lits, dists);
      if dist > dtree.maxSym || dist > 29 {
        BackFails(source, dists, sym, p);
        return false, length, 1;
      }
      if overflow {
        BackFails(source, dists, sym, p);
      } else {
        BackWorks(source, dists, sym, p, dist);
      }
      offs := GetDistance(dist);
      ok := true;
    }

    /** The state agrees with what a block stands for: on success it is that
        block, a data error means there is none, and a full buffer that its
        data does not fit. */
    ghost predicate Agrees(res: Status, r: Option<Progress>)
      requires destPos <= dest.Length
      reads this, dest
    {
      match res
      case Ok => !overflow && r == Some(Progress(At(), Output()))
      case DataError => r == None
      case BufError => r.Some? ==> |r.value.out| > destLen
    }

    /** Copies the match that length symbol sym starts. */
    method InflateMatch(sym: nat, ghost lits: seq<CodeLen>, ghost dists: seq<CodeLen>) returns (res: Status)
      requires InSync() && Separate() && Ready(lits, dists) && 257 <= sym <= 285 && dtree.maxSym != -1
      requires destPos <= destLen
      modifies `pos, `tag, `bitcount, `overflow, `fetched, `destPos, dest
      ensures InSync() && destPos <= destLen && dest[destLen..] == old(dest[destLen..]) && At() > old(At())
      ensures var r := AfterMatch(source, lits, dists, sym, old(At()), old(Output()));
              if res != Ok then Agrees(res, r)
              else r == if overflow then None else BlockData(source, lits, dists, At(), Output())
    {
      hide InSync, Ready, BackAt, Copy, BlockData;
      var ok, length, offs := DecodeBack(sym, lits, dists);
      if !ok || offs > destPos {
        return DataError;
      }
      if destLen - destPos < length {
        return BufError;
      }
      CopyMatch(length, offs);
      return Ok;
    }

    /** A literal or length symbol of the block. */
    method DecodeLit(ghost lits: seq<CodeLen>, ghost dists: seq<CodeLen>) returns (sym: nat)
      requires InSync() && Separate() && Ready(lits, dists)
      modifies `pos, `tag, `bitcount, `overflow, `fetched
      ensures InSync() && At() > old(At())
      ensures overflow <==> At() > Limit(source)
      ensures var s := SymbolAt(lits, source, old(At()));
              && (overflow ==> s == None)
              && (sym > ltree.maxSym ==> s == None || s.value > 285)
              && (!overflow && sym <= ltree.maxSym ==> s == Some(sym) && At() == old(At()) + lits[sym])
      ensures sym <= 256 ==> sym <= ltree.maxSym
    {
      hide Value, SymbolAt, Accepts, Effective, Below, InSync;
      sym := Decode(ltree, lits);
    }

    /** What a block that goes on with symbol sym, just read, stands for. */
    ghost predicate GoesOn(sym: nat, lits: seq<CodeLen>, dists: seq<CodeLen>, r: Option<Progress>)
      requires destPos <= dest.Length
      reads this, ltree, dest
    {
      && (sym > ltree.maxSym || sym > 285 ==> r == None)
      && (sym < 256 ==> r == BlockData(source, lits, dists, At(), Output() + [sym]))
      && (sym == 256 ==> r == Some(Progress(At(), Output())))
      && (257 <= sym <= 285 && sym <= ltree.maxSym ==>
            r == AfterMatch(source, lits, dists, sym, At(), Output()))
    }

    /** Acts on a symbol: a literal, the end of the block, or a match. */
    method InflateSymbol(sym: nat, ghost lits: seq<CodeLen>, ghost dists: seq<CodeLen>, ghost r: Option<Progress>)
      returns (done: bool, res: Status)
      requires InSync() && Separate() && Ready(lits, dists) && destPos <= destLen && !overflow
      requires GoesOn(sym, lits, dists, r)
      modifies `pos, `tag, `bitcount, `overflow, `fetched, `destPos, dest
      ensures InSync() && destPos <= destLen && dest[destLen..] == old(dest[destLen..])
      ensures At() >= old(At())
      ensures if done then Agrees(res, r)
              else r == if overflow then None else BlockData(source, lits, dists, At(), Output())
    {
      hide AfterMatch, Ready, BlockData, InSync, At, Below;
      EmptyTree(lits, dists);
      done, res := true, DataError;
      if sym < 256 {
        if destPos == destLen {
          return true, BufError;
        }
        PutByte(sym);
        return false, Ok;
      }
      if sym == 256 {
        return true, Ok;
      }
      if sym > ltree.maxSym || sym - 257 > 28 || dtree.maxSym == -1 {
        if sym <= ltree.maxSym && sym - 257 <= 28 {
          NoDistances(source, lits, dists, sym, At(), Output());
        }
        return;
      }
      res := InflateMatch(sym, lits, dists);
      done := res != Ok;
    }

    /** Reads the next symbol of a block. */
    method NextSymbol(ghost lits: seq<CodeLen>, ghost dists: seq<CodeLen>, ghost r: Option<Progress>)
      returns (sym: nat)
      requires InSync() && Separate() && Ready(lits, dists) && destPos <= destLen
      requires r == if overflow then None else BlockData(source, lits, dists, At(), Output())
      modifies `pos, `tag, `bitcount, `overflow, `fetched
      ensures InSync() && At() > old(At()) && (old(overflow) ==> overflow)
      ensures if overflow then r == None else GoesOn(sym, lits, dists, r)
    {
      hide SymbolAt, AfterMatch, Ready, BlockData, InSync, At;
      OverflowMeans();
      BlockCases(source, lits, dists, At(), Output());
      sym := DecodeLit(lits, dists);
    }

    lemma OverflowMeans()
      requires InSync()
      ensures overflow <==> At() > Limit(source)
    {
    }

    lemma EmptyTree(lits: seq<CodeLen>, dists: seq<CodeLen>)
      requires Separate() && Ready(lits, dists)
      ensures dtree.maxSym == -1 ==> Below(dists, 16) == 0
    {
    }

    /** Inflates the data of a block. Success means the bits are a block with
        exactly that data; a data error that they are not; a full buffer that
        the data, if any, does not fit. */
    method InflateBlockData(ghost lits: seq<CodeLen>, ghost dists: seq<CodeLen>) returns (res: Status)
      requires InSync() && Separate() && Ready(lits, dists) && destPos <= destLen
      modifies `pos, `tag, `bitcount, `overflow, `fetched, `destPos, dest
      ensures InSync() && destPos <= destLen && dest[destLen..] == old(dest[destLen..])
      ensures Agrees(res, BlockData(source, lits, dists, old(At()), old(Output())))
    {
      hide Value, Accepts, Effective, Below, BlockData, SymbolAt, BackAt;
      ghost var goal := BlockData(source, lits, dists, At(), Output());
      while true
        invariant InSync() && Ready(lits, dists) && destPos <= destLen
        invariant dest[destLen..] == old(dest[destLen..])
        invariant goal == if overflow then None else BlockData(source, lits, dists, At(), Output())
        decreases if overflow then 0 else 1 + Limit(source) - At()
      {
        var sym := NextSymbol(lits, dists, goal);
        if overflow {
          return DataError;
        }
        var done;
        done, res := InflateSymbol(sym, lits, dists, goal);
        if done {
          return;
        }
      }
    }

    /** Copies a stored block. It starts at the source pointer, which is the
        next byte boundary of the bit stream. */
    method InflateUncompressedBlock() returns (res: Status)
      requires InSync() && Separate() && destPos <= destLen
      modifies `pos, `tag, `bitcount, `overflow, `fetched, `destPos, dest
      ensures InSync() && destPos <= destLen && dest[destLen..] == old(dest[destLen..])
      ensures Agrees(res, Stored(source, old(At()), old(Output())))
    {
      hide Value, Stored, InSync, At;
      StoredCases(source, At(), Output());
      Boundary();
      if |source| - pos < 4 {
        return DataError;
      }
      var length: nat := source[pos] as int + 256 * source[pos + 1] as int;
      var invlength: nat := source[pos + 2] as int + 256 * source[pos + 3] as int;
      if length != 0xFFFF - invlength {
        return DataError;
      }
      if |source| - (pos + 4) < length {
        return DataError;
      }
      if destLen - destPos < length {
        return BufError;
      }
      CopyStored(pos + 4, length);
      Resync(pos + 4 + length);
      return Ok;
    }

    method CopyStored(start: nat, length: nat)
      requires Separate() && start + length <= |source| && destPos + length <= destLen
      modifies `destPos, dest
      ensures destPos == old(destPos) + length
      ensures Output() == old(Output()) + source[start..start + length]
      ensures dest[destLen..] == old(dest[destLen..])
    {
      ghost var out := Output();
      for i := 0 to length
        invariant destPos == old(destPos) + i
        invariant Output() == out + source[start..start + i]
        invariant dest[destLen..] == old(dest[destLen..])
      {
        PutByte(source[start + i]);
      }
    }

    /** Goes on at a byte of the source, with nothing buffered. */
    method Resync(start: nat)
      requires InSync() && start <= |source| && !overflow
      modifies `pos, `tag, `bitcount, `fetched
      ensures InSync() && At() == 8 * start && !overflow
    {
      pos, tag, bitcount, fetched := start, 0, 0, start;
    }

    lemma Boundary()
      requires InSync()
      ensures !overflow ==> pos == (At() + 7) / 8 <= |source|
      ensures overflow ==> pos == |source| && At() > Limit(source)
    {
    }

    method InflateFixedBlock() returns (res: Status)
      requires InSync() && Separate() && destPos <= destLen
      modifies `pos, `tag, `bitcount, `overflow, `fetched, `destPos, dest
      modifies ltree, dtree, ltree.counts, ltree.symbols, dtree.counts, dtree.symbols
      ensures InSync() && destPos <= destLen && dest[destLen..] == old(dest[destLen..])
      ensures Agrees(res, Block(source, 1, old(At()), old(Output())))
    {
      hide Value, BlockData, InSync, At, FixedLits, FixedDists, Ready;
      FixedCodes.BuildFixedTrees(ltree, dtree);
      ReadyFixed();
      res := InflateBlockData(FixedLits(), FixedDists());
    }

    lemma ReadyFixed()
      requires Separate()
      requires ltree.Represents(FixedLits()) && ltree.maxSym == 285
      requires dtree.Represents(FixedDists()) && dtree.maxSym == 29
      ensures Ready(FixedLits(), FixedDists())
    {
      hide Accepts, Below, FixedLits, FixedDists;
      FixedCodes.FixedAccepted();
      FixedCodes.LitAt(256);
    }

    method InflateDynamicBlock() returns (res: Status)
      requires InSync() && Separate() && destPos <= destLen
      modifies `pos, `tag, `bitcount, `overflow, `fetched, `destPos, dest
      modifies ltree, dtree, ltree.counts, ltree.symbols, dtree.counts, dtree.symbols
      ensures InSync() && destPos <= destLen && dest[destLen..] == old(dest[destLen..])
      ensures Agrees(res, Block(source, 2, old(At()), old(Output())))
    {
      hide Value, BlockData, InSync, At, CodesAt, Ready;
      ghost var lits, dists;
      res, lits, dists := DecodeTrees();
      if res != Ok {
        return;
      }
      OverflowMeans();
      if overflow {
        BlockPastEnd(source, lits, dists, At(), Output());
      }
      res := InflateBlockData(lits, dists);
    }

    /** One block of the given type. */
    method InflateBlock(btype: nat) returns (res: Status)
      requires InSync() && Separate() && destPos <= destLen && btype < 4
      modifies `pos, `tag, `bitcount, `overflow, `fetched, `destPos, dest
      modifies ltree, dtree, ltree.counts, ltree.symbols, dtree.counts, dtree.symbols
      ensures InSync() && destPos <= destLen && dest[destLen..] == old(dest[destLen..])
      ensures Agrees(res, Block(source, btype, old(At()), old(Output())))
    {
      hide Value, BlockData, InSync, At, CodesAt, Stored;
      if btype == 0 {
        res := InflateUncompressedBlock();
      } else if btype == 1 {
        res := InflateFixedBlock();
      } else if btype == 2 {
        res := InflateDynamicBlock();
      } else {
        res := DataError;
      }
    }

    /** Inflates block after block up to the final one. A run that ends well
        has not read past the end. */
    method InflateBlocks() returns (res: Status)
      requires InSync() && Separate() && destPos <= destLen
      modifies `pos, `tag, `bitcount, `overflow, `fetched, `destPos, dest
      modifies ltree, dtree, ltree.counts, ltree.symbols, dtree.counts, dtree.symbols
      ensures InSync() && destPos <= destLen && dest[destLen..] == old(dest[destLen..])
      ensures res == Ok ==> !overflow
      ensures AgreesAll(res, InflateFrom(source, old(At()), old(Output())))
    {
      hide Value, Block, InSync, At, InflateFrom;
      ghost var goal := InflateFrom(source, At(), Output());
      OverflowMeans();
      while true
        invariant InSync() && destPos <= destLen && dest[destLen..] == old(dest[destLen..])
        invariant goal == InflateFrom(source, At(), Output())
        invariant At() <= Limit(source) || overflow
        decreases if overflow then 0 else 1 + Limit(source) - At()
      {
        FromCases(source, At(), Output());
        OverflowMeans();
        assert Pow2(2) == 4;
        var bfinal := GetBits(1);
        var btype := GetBits(2);
        res := InflateBlock(btype);
        if res != Ok {
          return;
        }
        if bfinal != 0 {
          return;
        }
      }
    }

    ghost predicate AgreesAll(res: Status, r: Option<seq<Byte>>)
      requires destPos <= dest.Length
      reads this, dest
    {
      match res
      case Ok => r == Some(Output())
      case DataError => r == None
      case BufError => r.Some? ==> |r.value| > destLen
    }
  }

  /** The rest of a block after length symbol s. */
  ghost function AfterMatch(src: seq<Byte>, lits: seq<CodeLen>, dists: seq<CodeLen>, s: nat, p: nat, out: seq<Byte>)
    : (r: Option<Progress>)
    requires 257 <= s <= 285
  {
    var b := BackAt(src, dists, s, p);
    if b == None || b.value.dist > |out| then None
    else BlockData(src, lits, dists, b.value.p, Copy(out, b.value.dist, b.value.len))
  }

  lemma BlockPastEnd(src: seq<Byte>, lits: seq<CodeLen>, dists: seq<CodeLen>, p: nat, out: seq<Byte>)
    requires p > Limit(src)
    ensures BlockData(src, lits, dists, p, out) == None
  {
  }

  lemma StoredCases(src: seq<Byte>, p: nat, out: seq<Byte>)
    ensures var k := (p + 7) / 8;
            if k + 4 > |src| then Stored(src, p, out) == None
            else
              var len: nat := src[k] as int + 256 * src[k + 1] as int;
              var nlen: nat := src[k + 2] as int + 256 * src[k + 3] as int;
              Stored(src, p, out) ==
              if len + nlen != 65535 || k + 4 + len > |src| then None
              else Some(Progress(8 * (k + 4 + len), out + src[k + 4..k + 4 + len]))
  {
  }

  lemma FromCases(src: seq<Byte>, p: nat, out: seq<Byte>)
    ensures var final, kind := Value(src, p, 1), Value(src, p + 1, 2);
            var b := Block(src, kind, p + 3, out);
            InflateFrom(src, p, out) ==
            if p + 3 > Limit(src) || b == None then None
            else if final == 1 then Some(b.value.out)
            else InflateFrom(src, b.value.p, b.value.out)
  {
    hide Value, Block;
  }

  /** One symbol of a block: a literal, the end, or a match. */
  lemma BlockCases(src: seq<Byte>, lits: seq<CodeLen>, dists: seq<CodeLen>, p: nat, out: seq<Byte>)
    ensures var r, s := BlockData(src, lits, dists, p, out), SymbolAt(lits, src, p);
            && (s == None || s.value > 285 ==> r == None)
            && (s.Some? && s.value < 256 ==> r == BlockData(src, lits, dists, p + lits[s.value], out + [s.value]))
            && (s == Some(256) ==> r == Some(Progress(p + lits[256], out)))
            && (s.Some? && 257 <= s.value <= 285 ==>
                  r == AfterMatch(src, lits, dists, s.value, p + lits[s.value], out))
  {
    hide SymbolAt, BackAt, Copy;
  }

  /** A length symbol's extra bits, a distance symbol, and its extra bits. */
  lemma BackFails(src: seq<Byte>, dists: seq<CodeLen>, s: nat, p: nat)
    requires 257 <= s <= 285
    requires var d := SymbolAt(dists, src, p + LengthExtra(s)); d == None || d.value > 29
    ensures BackAt(src, dists, s, p) == None
  {
    hide Value, SymbolAt, LengthBase, LengthExtra, DistBase, DistExtra;
  }

  lemma BackWorks(src: seq<Byte>, dists: seq<CodeLen>, s: nat, p: nat, d: nat)
    requires 257 <= s <= 285 && d <= 29 && SymbolAt(dists, src, p + LengthExtra(s)) == Some(d)
    ensures var p2 := p + LengthExtra(s) + dists[d];
            var p3 := p2 + DistExtra(d);
            BackAt(src, dists, s, p) ==
              if p3 > Limit(src) then None
              else Some(Back(LengthBase(s) + Value(src, p, LengthExtra(s)), DistBase(d) + Value(src, p2, DistExtra(d)), p3))
  {
    hide Value, SymbolAt, LengthBase, LengthExtra, DistBase, DistExtra;
  }

  lemma NoDistances(src: seq<Byte>, lits: seq<CodeLen>, dists: seq<CodeLen>, s: nat, p: nat, out: seq<Byte>)
    requires Below(dists, 16) == 0 && 257 <= s <= 285
    ensures AfterMatch(src, lits, dists, s, p, out) == None
  {
    hide BlockData;
    var d := SymbolAt(dists, src, p + LengthExtra(s));
    if d.Some? {
      CodeExists(dists, d.value);
    }
  }

  lemma CopyStep(out: seq<Byte>, dist: nat, i: nat)
    requires 1 <= dist <= |out|
    ensures Copy(out, dist, i + 1) == Copy(out, dist, i) + [Copy(out, dist, i)[|out| + i - dist]]
  {
    var c := Copy(out, dist, i);
    assert c[|out| + i - dist] == out[|out| - dist + i % dist] by {
      if i < dist {
        SmallMod(i, dist);
      } else {
        ModBack(i, dist);
      }
    }
  }

  lemma SmallMod(i: nat, d: nat)
    requires i < d
    ensures i % d == i
  {
  }

  lemma ModBack(i: nat, d: nat)
    requires 1 <= d <= i
    ensures i % d == (i - d) % d
  {
    var q, r := (i - d) / d, (i - d) % d;
    assert i == d * (q + 1) + r;
    MulUnique(d, i / d, i % d, q + 1, r);
  }

  lemma MulUnique(m: nat, q: int, r: nat, q': int, r': nat)
    requires r < m && r' < m && m * q + r == m * q' + r'
    ensures q == q' && r == r'
  {
    if q < q' {
      MulMono(m, q + 1, q');
    } else if q' < q {
      MulMono(m, q' + 1, q);
    }
  }

  lemma MulMono(m: nat, a: int, b: int)
    requires a <= b
    ensures m * a <= m * b
  {
  }

  lemma OneBit(src: seq<Byte>, p: nat)
    ensures Value(src, p, 1) == BitAt(src, p)
    ensures Window(src, p, 1) == [BitAt(src, p)]
  {
    var w := Window(src, p, 1);
    assert w[0] == BitAt(src, p) && w[1..] == [];
  }

  /** Inflates source into dest. It always returns; it succeeds exactly when
      the source is a DEFLATE stream whose data fits into the first destLen
      bytes, and then that data is what it wrote. Nothing beyond those bytes
      is ever written. */
  method Uncompress(dest: array<Byte>, destLen: nat, source: seq<Byte>) returns (res: Status, outLen: nat)
    requires destLen <= dest.Length
    modifies dest
    ensures res == Ok <==> Inflate(source).Some? && |Inflate(source).value| <= destLen
    ensures res == Ok ==> outLen <= destLen && Inflate(source) == Some(dest[..outLen])
    ensures res == DataError ==> Inflate(source) == None
    ensures dest[destLen..] == old(dest[destLen..])
  {
    hide InflateFrom;
    var d := new TinfData(source, dest, destLen);
    assert d.Output() == [];
    res := d.InflateBlocks();
    outLen := d.destPos;
    if res == Ok && d.overflow {
      res := DataError;
    }
  }
}
