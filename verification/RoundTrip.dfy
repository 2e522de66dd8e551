/** Whatever can be written as a DEFLATE stream is read back as it was. */
module RoundTrip {
  import opened Bits
  import opened Options
  import opened Huffman
  import opened InflateSpec
  import opened Deflate
  import TinfTree
  import FixedCodes
  import Tinflate

  // ---- Bits standing in a stream ----

  ghost predicate Stands(src: seq<Byte>, p: nat, bits: seq<Bit>) {
    Window(src, p, |bits|) == bits && p + |bits| <= Limit(src)
  }

  lemma StandsSplit(src: seq<Byte>, p: nat, x: seq<Bit>, y: seq<Bit>)
    requires Stands(src, p, x + y)
    ensures Stands(src, p, x) && Stands(src, p + |x|, y) && p + |x| + |y| <= Limit(src)
  {
    hide Window;
    WindowSplit(src, p, |x|, |y|);
    assert (x + y)[..|x|] == x && (x + y)[|x|..] == y;
  }

  /** A number that stands in a stream is read as that number. */
  lemma NumberStands(src: seq<Byte>, p: nat, v: nat, n: nat)
    requires Stands(src, p, LsbWord(v, n)) && v < Pow2(n)
    ensures BitsAt(src, p, n) == Some(v)
  {
    hide Window, LsbWord, Low;
    LsbWordValue(v, n);
    LowSmall(v, n);
  }

  /** So is a symbol. */
  lemma CodeStands(src: seq<Byte>, p: nat, lens: seq<CodeLen>, s: nat)
    requires Sound(lens) && HasCode(lens, s) && Stands(src, p, CodeWord(lens, s))
    ensures SymbolAt(lens, src, p) == Some(s)
  {
    hide Sound, CodeWord, Window, SymbolAt;
    assert CodeAt(lens, src, p, s);
    SymbolAtIs(lens, src, p, s);
  }

  // ---- Every length, distance and count has its symbol ----

  lemma Powers()
    ensures Pow2(0) == 1 && Pow2(1) == 2 && Pow2(2) == 4 && Pow2(3) == 8 && Pow2(4) == 16 && Pow2(5) == 32
    ensures Pow2(6) == 64 && Pow2(7) == 128 && Pow2(8) == 256 && Pow2(9) == 512 && Pow2(10) == 1024
    ensures Pow2(11) == 2048 && Pow2(12) == 4096 && Pow2(13) == 8192
  {
    assert Pow2(4) == 16;
    assert Pow2(8) == 256;
    assert Pow2(12) == 4096;
  }

  /** The rows of the table are those the decoder goes by. */
  lemma LengthRows(i: nat)
    requires i < 29
    ensures LengthBase(257 + i) == FirstLength(i) && LengthExtra(257 + i) == LengthMore(i) <= 5
    ensures i < 27 ==> FirstLength(i) + Pow2(LengthMore(i)) == FirstLength(i + 1)
    ensures i == 27 ==> FirstLength(i) == 227 && Pow2(LengthMore(i)) == 32
    ensures i == 28 ==> FirstLength(i) == 258 && Pow2(LengthMore(i)) == 1
  {
    hide LengthBase, FirstLength, LengthMore, LengthExtra, Pow2;
    LengthTable(i);
    LengthNext(i);
  }

  lemma LengthTable(i: nat)
    requires i < 29
    ensures LengthBase(257 + i) == FirstLength(i) && LengthExtra(257 + i) == LengthMore(i) <= 5
  {
    Powers();
    hide Pow2;
  }

  lemma LengthNext(i: nat)
    requires i < 29
    ensures i < 27 ==> FirstLength(i) + Pow2(LengthMore(i)) == FirstLength(i + 1)
    ensures i == 27 ==> FirstLength(i) == 227 && Pow2(LengthMore(i)) == 32
    ensures i == 28 ==> FirstLength(i) == 258 && Pow2(LengthMore(i)) == 1
  {
    Powers();
    hide Pow2;
  }

  lemma DistRows(i: nat)
    requires i < 30
    ensures DistBase(i) == FirstDistance(i) && DistExtra(i) == DistMore(i) <= 13
    ensures FirstDistance(i) + Pow2(DistMore(i)) == if i < 29 then FirstDistance(i + 1) else 32769
  {
    hide DistBase, FirstDistance, DistMore, DistExtra, Pow2;
    DistTable(i);
    DistNext(i);
  }

  lemma DistTable(i: nat)
    requires i < 30
    ensures DistBase(i) == FirstDistance(i) && DistExtra(i) == DistMore(i) <= 13
  {
    hide Pow2, DistBase, DistExtra;
    Tinflate.DistTable(i);
  }

  lemma DistNext(i: nat)
    requires i < 30
    ensures FirstDistance(i) + Pow2(DistMore(i)) == if i < 29 then FirstDistance(i + 1) else 32769
  {
    Powers();
    hide Pow2;
  }

  lemma {:induction false} LengthsGrow(i: nat, j: nat)
    requires i < j < 29
    ensures FirstLength(i) < FirstLength(j)
  {
    if i + 1 < j {
      LengthsGrow(i, j - 1);
    }
    LengthRows(j - 1);
    assert FirstLength(27) < FirstLength(28);
  }

  lemma {:induction false} DistancesGrow(i: nat, j: nat)
    requires i < j < 30
    ensures FirstDistance(i) < FirstDistance(j)
  {
    if i + 1 < j {
      DistancesGrow(i, j - 1);
    }
    DistRows(j - 1);
  }

  /** Every length has one symbol and one value of its extra bits, except that
      258 has a symbol to itself and the last value of the one before. */
  lemma LengthSymbols(len: nat, s: nat, e: nat)
    requires 3 <= len <= 258 && 257 <= s <= 285
    ensures e < Pow2(LengthExtra(s)) && LengthBase(s) + e == len <==>
            || (s == 257 + LengthRow(len) && e == len - FirstLength(LengthRow(len)))
            || (len == 258 && s == 284 && e == 31)
    ensures len == 258 ==> LengthRow(len) == 28
  {
    hide Pow2, LengthBase, LengthExtra, LengthRow, FirstLength, LengthMore;
    var r, i := LengthRow(len), s - 257;
    LengthRows(r);
    LengthRows(i);
    LengthRows(28);
    if i + 1 < r {
      LengthsGrow(i + 1, r);
    } else if r + 1 < i {
      LengthsGrow(r + 1, i);
    }
    if r + 1 < 28 {
      LengthsGrow(r + 1, 28);
    }
  }

  /** Every distance has exactly one. */
  lemma DistSymbols(dist: nat, d: nat, e: nat)
    requires 1 <= dist <= 32768 && d <= 29
    ensures e < Pow2(DistExtra(d)) && DistBase(d) + e == dist <==>
            d == DistRow(dist) && e == dist - FirstDistance(DistRow(dist))
  {
    hide Pow2, DistBase, DistExtra, DistRow, FirstDistance, DistMore;
    var r := DistRow(dist);
    DistRows(r);
    DistRows(d);
    if d + 1 < r {
      DistancesGrow(d + 1, r);
    } else if r + 1 < d {
      DistancesGrow(r + 1, d);
    }
  }

  /** What the repeat symbols can express: each count in exactly one way. */
  lemma RepeatCounts(s: nat, e: nat, n: nat)
    requires 16 <= s <= 18
    ensures e < Pow2(RepeatBits(s)) && RepeatBase(s) + e == n <==>
            match s
            case 16 => 3 <= n <= 6 && e == n - 3
            case 17 => 3 <= n <= 10 && e == n - 3
            case _ => 11 <= n <= 138 && e == n - 11
  {
    Powers();
  }

  // ---- Runs of code lengths ----

  /** A repeat symbol and its extra bits. */
  lemma RepeatReads(src: seq<Byte>, clc: seq<CodeLen>, p: nat, run: Run, acc: seq<CodeLen>, total: nat)
    requires |clc| == 19 && !run.Once? && RunOk(run, acc) && |acc| + run.n <= total
    requires RunSymbol(run) < |clc| && SymbolAt(clc, src, p) == Some(RunSymbol(run))
    requires Stands(src, p + clc[RunSymbol(run)], RunExtra(run))
    ensures RunAt(src, clc, p, acc, total) ==
            Some((acc + Times(run.n, if run.Again? then acc[|acc| - 1] else 0), p + clc[RunSymbol(run)] + |RunExtra(run)|))
  {
    hide SymbolAt, Stands, RunAt, Times, Value, LsbWord, Pow2;
    var s := RunSymbol(run);
    var e := if s == 18 then run.n - 11 else run.n - 3;
    RepeatCounts(s, e, run.n);
    assert RunExtra(run) == LsbWord(e, RepeatBits(s));
    NumberStands(src, p + clc[s], e, RepeatBits(s));
    Tinflate.RunRepeat(src, clc, p, acc, total, s);
  }

  lemma RunIs(run: Run, acc: seq<CodeLen>)
    requires RunOk(run, acc)
    ensures AfterRun(run, acc) ==
            acc + match run
                  case Once(l) => Times(1, l)
                  case Again(n) => Times(n, acc[|acc| - 1])
                  case Zeros(n) => Times(n, 0)
  {
  }

  lemma RunReads(src: seq<Byte>, clc: seq<CodeLen>, p: nat, run: Run, acc: seq<CodeLen>, total: nat)
    requires |clc| == 19 && Sound(clc) && HasCode(clc, RunSymbol(run)) && RunOk(run, acc)
    requires Stands(src, p, RunBits(clc, run)) && |AfterRun(run, acc)| <= total
    ensures |acc| < total && RunAt(src, clc, p, acc, total) == Some((AfterRun(run, acc), p + |RunBits(clc, run)|))
  {
    hide Sound, CodeWord, SymbolAt, Stands, RunAt, AfterRun, RunExtra, Times, RunSymbol;
    var s := RunSymbol(run);
    StandsSplit(src, p, CodeWord(clc, s), RunExtra(run));
    CodeStands(src, p, clc, s);
    RunIs(run, acc);
    if run.Once? {
      OnceIs(run);
      Tinflate.RunLength(src, clc, p, acc, total, s);
    } else {
      RepeatReads(src, clc, p, run, acc, total);
    }
  }

  lemma OnceIs(run: Run)
    requires run.Once?
    ensures RunSymbol(run) == run.l && RunExtra(run) == []
  {
  }

  lemma {:induction false} RunsRead(src: seq<Byte>, clc: seq<CodeLen>, p: nat, runs: seq<Run>, acc: seq<CodeLen>)
    requires |clc| == 19 && RunsOk(runs, acc) && CanWriteRuns(clc, runs) && Stands(src, p, RunsBits(clc, runs))
    ensures LensAt(src, clc, p, acc, |AfterRuns(runs, acc)|) == Some((AfterRuns(runs, acc), p + |RunsBits(clc, runs)|))
    decreases |runs|
  {
    hide Sound, Stands, RunAt, RunBits, AfterRun, RunOk;
    if runs != [] {
      StandsSplit(src, p, RunBits(clc, runs[0]), RunsBits(clc, runs[1..]));
      RunReads(src, clc, p, runs[0], acc, |AfterRuns(runs, acc)|);
      RunsRead(src, clc, p + |RunBits(clc, runs[0])|, runs[1..], AfterRun(runs[0], acc));
    }
  }

  // ---- The head of a dynamic block ----

  lemma OrderPlace(i: nat)
    requires i < 19
    ensures CLC_PLACE[i] < 19 && ORDER[CLC_PLACE[i]] == i
  {
  }

  lemma {:induction false} ClcStands(src: seq<Byte>, p: nat, clc: seq<CodeLen>, n: nat, j: nat)
    requires |clc| == 19 && j < n <= 19 && Stands(src, p, ClcBits(clc, n))
    ensures ORDER[j] < 19 && Stands(src, p + 3 * j, LsbWord(clc[ORDER[j]], 3))
  {
    hide Stands, LsbWord;
    StandsSplit(src, p, ClcBits(clc, n - 1), LsbWord(clc[ORDER[n - 1]], 3));
    if j < n - 1 {
      ClcStands(src, p, clc, n - 1, j);
    }
  }

  lemma ClcReads(src: seq<Byte>, p: nat, h: Header)
    requires ClcOk(h) && Stands(src, p, ClcBits(h.clc, h.nclc))
    ensures ClcLens(src, p, h.nclc) == h.clc
  {
    hide Stands, ClcBits, LsbWord, Value;
    forall i | 0 <= i < 19 ensures ClcLens(src, p, h.nclc)[i] == h.clc[i] {
      var j := CLC_PLACE[i];
      OrderPlace(i);
      assert h.clc[ORDER[j]] <= if j < h.nclc then 7 else 0;
      if j < h.nclc {
        ClcStands(src, p, h.clc, h.nclc, j);
        assert Pow2(3) == 8;
        NumberStands(src, p + 3 * j, h.clc[i], 3);
      }
    }
  }

  /** The three numbers in front. */
  lemma CountsRead(src: seq<Byte>, p: nat, nlit: nat, ndist: nat, nclc: nat, rest: seq<Bit>)
    requires 257 <= nlit <= 286 && 1 <= ndist <= 30 && 4 <= nclc <= 19
    requires Stands(src, p, LsbWord(nlit - 257, 5) + LsbWord(ndist - 1, 5) + LsbWord(nclc - 4, 4) + rest)
    ensures CodesAt(src, p) == CodesFrom(src, p + 14, nlit, ndist, nclc) && Stands(src, p + 14, rest)
  {
    hide Stands, LsbWord, CodesFrom, Value;
    var a, b, c := LsbWord(nlit - 257, 5), LsbWord(ndist - 1, 5), LsbWord(nclc - 4, 4);
    assert Pow2(4) == 16 && Pow2(5) == 32;
    StandsSplit(src, p, a + b + c, rest);
    StandsSplit(src, p, a + b, c);
    StandsSplit(src, p, a, b);
    NumberStands(src, p, nlit - 257, 5);
    NumberStands(src, p + 5, ndist - 1, 5);
    NumberStands(src, p + 10, nclc - 4, 4);
  }

  lemma HeaderReads(src: seq<Byte>, p: nat, h: Header)
    requires HeaderOk(h) && Stands(src, p, HeaderBits(h))
    ensures CodesAt(src, p) == Some(Codes(Lits(h), Dists(h), p + |HeaderBits(h)|))
  {
    hide Stands, LsbWord, CodesAt, ClcBits, RunsBits, Accepts, Sound, ClcLens, LensAt, RunsOk, AfterRuns, ClcOk, CanWriteRuns, CodesFrom;
    ClcCount(h);
    var clc, runs := ClcBits(h.clc, h.nclc), RunsBits(h.clc, h.runs);
    CountsRead(src, p, h.nlit, |Dists(h)|, h.nclc, clc + runs);
    StandsSplit(src, p + 14, clc, runs);
    ClcReads(src, p + 14, h);
    RunsRead(src, h.clc, p + 14 + |clc|, h.runs, []);
    CodesFromIs(src, p + 14, h);
  }

  lemma ClcCount(h: Header)
    requires ClcOk(h)
    ensures |h.clc| == 19 && 4 <= h.nclc <= 19
  {
  }

  lemma CodesFromIs(src: seq<Byte>, p: nat, h: Header)
    requires HeaderOk(h) && ClcLens(src, p, h.nclc) == h.clc && p + 3 * h.nclc <= Limit(src) && |h.clc| == 19
    requires LensAt(src, h.clc, p + 3 * h.nclc, [], |AfterRuns(h.runs, [])|) ==
             Some((AfterRuns(h.runs, []), p + 3 * h.nclc + |RunsBits(h.clc, h.runs)|))
    ensures CodesFrom(src, p, h.nlit, |Dists(h)|, h.nclc) ==
            Some(Codes(Lits(h), Dists(h), p + 3 * h.nclc + |RunsBits(h.clc, h.runs)|))
  {
    hide RunsBits, Accepts, Sound, ClcLens, LensAt, RunsOk, AfterRuns, ClcOk, CanWriteRuns;
  }

  // ---- Literals and matches ----

  /** Copying is repeating byte by byte. */
  lemma {:induction false} RepeatedIsCopy(out: seq<Byte>, dist: nat, len: nat)
    requires 1 <= dist <= |out|
    ensures Repeated(out, dist, len) == Copy(out, dist, len)
  {
    if len > 0 {
      RepeatedIsCopy(out, dist, len - 1);
      Tinflate.CopyStep(out, dist, len - 1);
    } else {
      assert Copy(out, dist, 0) == out;
    }
  }

  /** The length symbol of a match, and its extra bits. */
  lemma LengthReads(src: seq<Byte>, lits: seq<CodeLen>, p: nat, len: nat)
    requires Sound(lits) && 3 <= len <= 258 && HasCode(lits, 257 + LengthRow(len)) && Stands(src, p, LengthBits(lits, len))
    ensures var s := 257 + LengthRow(len);
            && SymbolAt(lits, src, p) == Some(s) && |LengthBits(lits, len)| == lits[s] + LengthExtra(s)
            && BitsAt(src, p + lits[s], LengthExtra(s)) == Some(len - LengthBase(s)) && LengthBase(s) <= len
  {
    hide Sound, CodeWord, SymbolAt, Stands, LsbWord, Pow2, LengthBase, LengthExtra, LengthRow, FirstLength, LengthMore, BitsAt;
    var i := LengthRow(len);
    var s, e := 257 + i, len - FirstLength(i);
    LengthRows(i);
    LengthSymbols(len, s, e);
    StandsSplit(src, p, CodeWord(lits, s), LsbWord(e, LengthMore(i)));
    CodeStands(src, p, lits, s);
    NumberStands(src, p + lits[s], e, LengthMore(i));
  }

  lemma DistReads(src: seq<Byte>, dists: seq<CodeLen>, p: nat, dist: nat)
    requires Sound(dists) && 1 <= dist <= 32768 && HasCode(dists, DistRow(dist)) && Stands(src, p, DistBits(dists, dist))
    ensures var d := DistRow(dist);
            && SymbolAt(dists, src, p) == Some(d) && |DistBits(dists, dist)| == dists[d] + DistExtra(d)
            && BitsAt(src, p + dists[d], DistExtra(d)) == Some(dist - DistBase(d)) && DistBase(d) <= dist
  {
    hide Sound, CodeWord, SymbolAt, Stands, LsbWord, Pow2, DistBase, DistExtra, DistRow, FirstDistance, DistMore, BitsAt;
    var d := DistRow(dist);
    var e := dist - FirstDistance(d);
    DistRows(d);
    DistSymbols(dist, d, e);
    StandsSplit(src, p, CodeWord(dists, d), LsbWord(e, DistMore(d)));
    CodeStands(src, p, dists, d);
    NumberStands(src, p + dists[d], e, DistMore(d));
  }

  lemma OneLiteral(src: seq<Byte>, lits: seq<CodeLen>, dists: seq<CodeLen>, p: nat, out: seq<Byte>, s: nat)
    requires SymbolAt(lits, src, p) == Some(s) && s <= 256
    ensures s < 256 ==> BlockData(src, lits, dists, p, out) == BlockData(src, lits, dists, p + lits[s], out + [s])
    ensures s == 256 ==> BlockData(src, lits, dists, p, out) == Some(Progress(p + lits[s], out))
  {
    hide SymbolAt, BlockData;
    Tinflate.BlockCases(src, lits, dists, p, out);
  }

  lemma OneMatch(src: seq<Byte>, lits: seq<CodeLen>, dists: seq<CodeLen>, p: nat, out: seq<Byte>, s: nat, b: Back)
    requires SymbolAt(lits, src, p) == Some(s) && 257 <= s <= 285
    requires BackAt(src, dists, s, p + lits[s]) == Some(b) && 1 <= b.dist <= |out|
    ensures BlockData(src, lits, dists, p, out) == BlockData(src, lits, dists, b.p, Copy(out, b.dist, b.len))
  {
    hide SymbolAt, BackAt, Copy, BlockData;
    Tinflate.BlockCases(src, lits, dists, p, out);
  }

  lemma BackIs(src: seq<Byte>, dists: seq<CodeLen>, s: nat, p: nat, e: nat, d: nat, f: nat)
    requires 257 <= s <= 285 && d <= 29 && BitsAt(src, p, LengthExtra(s)) == Some(e)
    requires SymbolAt(dists, src, p + LengthExtra(s)) == Some(d)
    requires BitsAt(src, p + LengthExtra(s) + dists[d], DistExtra(d)) == Some(f)
    ensures BackAt(src, dists, s, p) ==
            Some(Back(LengthBase(s) + e, DistBase(d) + f, p + LengthExtra(s) + dists[d] + DistExtra(d)))
  {
    hide SymbolAt, BitsAt, LengthExtra, LengthBase, DistExtra, DistBase;
  }

  /** The rest of a match, behind its length symbol. */
  lemma BackReads(src: seq<Byte>, dists: seq<CodeLen>, p: nat, s: nat, len: nat, dist: nat)
    requires Sound(dists) && 257 <= s <= 285 && 1 <= dist <= 32768 && HasCode(dists, DistRow(dist))
    requires LengthBase(s) <= len && BitsAt(src, p, LengthExtra(s)) == Some(len - LengthBase(s))
    requires Stands(src, p + LengthExtra(s), DistBits(dists, dist))
    ensures BackAt(src, dists, s, p) == Some(Back(len, dist, p + LengthExtra(s) + |DistBits(dists, dist)|))
  {
    hide Sound, SymbolAt, Stands, DistBits, DistRow, BitsAt, BackAt, LengthExtra, LengthBase, DistExtra, DistBase,
         FirstDistance, HasCode;
    var d := DistRow(dist);
    DistReads(src, dists, p + LengthExtra(s), dist);
    BackIs(src, dists, s, p, len - LengthBase(s), d, dist - DistBase(d));
  }

  lemma MatchReads(src: seq<Byte>, lits: seq<CodeLen>, dists: seq<CodeLen>, p: nat, len: nat, dist: nat, out: seq<Byte>)
    requires Sound(lits) && Sound(dists) && CanWrite(lits, dists, Match(len, dist)) && 1 <= dist <= |out|
    requires Stands(src, p, LengthBits(lits, len) + DistBits(dists, dist))
    ensures BlockData(src, lits, dists, p, out) ==
            BlockData(src, lits, dists, p + |LengthBits(lits, len)| + |DistBits(dists, dist)|, Copy(out, dist, len))
  {
    hide Sound, SymbolAt, Stands, LengthBits, DistBits, LengthRow, DistRow, BitsAt, BackAt, BlockData, Copy, LengthExtra, LengthBase,
         FirstLength, FirstDistance;
    var s := 257 + LengthRow(len);
    StandsSplit(src, p, LengthBits(lits, len), DistBits(dists, dist));
    LengthReads(src, lits, p, len);
    BackReads(src, dists, p + lits[s], s, len, dist);
    OneMatch(src, lits, dists, p, out, s, Back(len, dist, p + |LengthBits(lits, len)| + |DistBits(dists, dist)|));
  }

  lemma ItemReads(src: seq<Byte>, lits: seq<CodeLen>, dists: seq<CodeLen>, p: nat, item: Item, out: seq<Byte>)
    requires Sound(lits) && Sound(dists) && CanWrite(lits, dists, item) && ItemOk(item, out)
    requires Stands(src, p, ItemBits(lits, dists, item))
    ensures BlockData(src, lits, dists, p, out) ==
            BlockData(src, lits, dists, p + |ItemBits(lits, dists, item)|, AfterItem(item, out))
  {
    hide Sound, SymbolAt, Stands, LengthBits, DistBits, LengthRow, DistRow, BlockData, Copy, CodeWord, Repeated;
    match item
    case Literal(b) =>
      CodeStands(src, p, lits, b);
      OneLiteral(src, lits, dists, p, out, b);
    case Match(len, dist) =>
      MatchReads(src, lits, dists, p, len, dist, out);
      RepeatedIsCopy(out, dist, len);
  }

  /** Wherever items are written in a stream, the data of the block is what they
      stand for, and the block ends behind them. */
  lemma {:induction false} ItemsRead(src: seq<Byte>, lits: seq<CodeLen>, dists: seq<CodeLen>, p: nat, items: seq<Item>,
                                     out: seq<Byte>)
    requires CanWriteAll(lits, dists, items) && ItemsOk(items, out) && Stands(src, p, ItemsBits(lits, dists, items))
    ensures BlockData(src, lits, dists, p, out) ==
            Some(Progress(p + |ItemsBits(lits, dists, items)|, AfterItems(items, out)))
    decreases |items|
  {
    hide Sound, SymbolAt, Stands, BlockData, ItemBits, ItemOk, AfterItem, CanWrite, CodeWord;
    if items == [] {
      CodeStands(src, p, lits, 256);
      OneLiteral(src, lits, dists, p, out, 256);
    } else {
      StandsSplit(src, p, ItemBits(lits, dists, items[0]), ItemsBits(lits, dists, items[1..]));
      ItemReads(src, lits, dists, p, items[0], out);
      ItemsRead(src, lits, dists, p + |ItemBits(lits, dists, items[0])|, items[1..], AfterItem(items[0], out));
    }
  }

  // ---- Stored blocks ----

  lemma TwoBytes(src: seq<Byte>, k: nat, v: nat)
    requires v <= 65535 && Stands(src, 8 * k, LsbWord(v, 16))
    ensures k + 2 <= |src| && v == src[k] as int + 256 * src[k + 1] as int
  {
    hide LsbWord, Value, Pow2, Window, Shl, Shr, Low;
    Sixteen();
    NumberStands(src, 8 * k, v, 16);
    assert k + 2 <= |src|;
    hide Stands, BitsAt;
    ValueSplit(src, 8 * k, 8, 8);
    assert 8 * k + 8 == 8 * (k + 1);
    ValueByte(src, k);
    ValueByte(src, k + 1);
    EightUp(Value(src, 8 * k + 8, 8));
  }

  lemma Sixteen()
    ensures Pow2(16) == 65536
  {
    assert Pow2(15) == 32768;
  }

  lemma EightUp(x: nat)
    ensures Shl(x, 8) == 256 * x
  {
    assert Shl(x, 1) == 2 * x;
    assert Shl(x, 3) == 8 * x;
    assert Shl(x, 5) == 32 * x;
    assert Shl(x, 7) == 128 * x;
  }

  lemma {:induction false} BytesStand(src: seq<Byte>, k: nat, data: seq<Byte>)
    requires Stands(src, 8 * k, BytesBits(data))
    ensures k + |data| <= |src| && src[k..k + |data|] == data
    decreases |data|
  {
    if data != [] {
      assert Pow2(8) == 256;
      hide Window, LsbWord, Value, Pow2;
      StandsSplit(src, 8 * k, LsbWord(data[0], 8), BytesBits(data[1..]));
      NumberStands(src, 8 * k, data[0], 8);
      ValueByte(src, k);
      BytesStand(src, k + 1, data[1..]);
      assert src[k..k + |data|] == [src[k]] + src[k + 1..k + |data|];
    }
  }

  /** The two lengths and the bytes, at a byte boundary. */
  lemma RawStands(src: seq<Byte>, k: nat, data: seq<Byte>)
    requires |data| <= 65535 && Stands(src, 8 * k, RawBits(data))
    ensures k + 4 + |data| <= |src| && src[k + 4..k + 4 + |data|] == data
    ensures src[k] as int + 256 * src[k + 1] as int == |data|
    ensures src[k + 2] as int + 256 * src[k + 3] as int == 65535 - |data|
  {
    hide Stands, LsbWord, BytesBits;
    var a, b := LsbWord(|data|, 16), LsbWord(65535 - |data|, 16);
    StandsSplit(src, 8 * k, a + b, BytesBits(data));
    StandsSplit(src, 8 * k, a, b);
    assert 8 * k + 16 == 8 * (k + 2) && 8 * k + 32 == 8 * (k + 4);
    TwoBytes(src, k, |data|);
    TwoBytes(src, k + 2, 65535 - |data|);
    BytesStand(src, k + 4, data);
  }

  lemma NextBoundary(p: nat, n: nat)
    requires n < 8 && (p + n) % 8 == 0
    ensures p + n == 8 * ((p + 7) / 8)
  {
  }

  lemma RawReads(src: seq<Byte>, p: nat, pad: seq<Bit>, data: seq<Byte>, out: seq<Byte>)
    requires |pad| < 8 && (p + |pad|) % 8 == 0 && |data| <= 65535 && Stands(src, p, pad + RawBits(data))
    ensures Stored(src, p, out) == Some(Progress(p + |pad| + |RawBits(data)|, out + data))
  {
    hide Stands, RawBits, Stored;
    var k := (p + 7) / 8;
    StandsSplit(src, p, pad, RawBits(data));
    NextBoundary(p, |pad|);
    RawStands(src, k, data);
    Tinflate.StoredCases(src, p, out);
  }

  // ---- Blocks and streams ----

  lemma FixedAgrees()
    ensures FixedLitLengths() == FixedLits() && FixedDistLengths() == FixedDists()
  {
    forall s | 0 <= s < 288 ensures FixedLitLengths()[s] == FixedLits()[s] {
      FixedCodes.LitAt(s);
    }
  }

  /** The body of a block reads back as what the block stands for. */
  lemma BodyReads(src: seq<Byte>, block: Block, p: nat, out: seq<Byte>)
    requires BlockOk(block, p, out) && Stands(src, p + 3, BodyBits(block, p, out))
    ensures InflateSpec.Block(src, Kind(block), p + 3, out) ==
            Some(Progress(BlockEnd(block, p, out), AfterBlock(block, p, out)))
  {
    hide Stands, RawBits, Stored, BlockData, ItemsBits, ItemsOk, CanWriteAll, AfterItems, HeaderOk, HeaderBits, CodesAt,
         FixedLits, FixedDists, FixedLitLengths, FixedDistLengths, Lits, Dists, SpellsOk;
    match block
    case Raw(pad, data) => RawReads(src, p + 3, pad, data, out);
    case Fixed(items) =>
      FixedAgrees();
      ItemsRead(src, FixedLits(), FixedDists(), p + 3, items, out);
    case Dynamic(h, items) =>
      HeaderSpells(h);
      StandsSplit(src, p + 3, HeaderBits(h), ItemsBits(Lits(h), Dists(h), items));
      HeaderReads(src, p + 3, h);
      ItemsRead(src, Lits(h), Dists(h), p + 3 + |HeaderBits(h)|, items, out);
  }

  lemma HeaderSpells(h: Header)
    requires HeaderOk(h)
    ensures SpellsOk(h)
  {
  }

  lemma BlockReads(src: seq<Byte>, block: Block, p: nat, out: seq<Byte>, final: bool)
    requires BlockOk(block, p, out) && Stands(src, p, BlockBits(block, p, out, final))
    ensures InflateFrom(src, p, out) ==
            if final then Some(AfterBlock(block, p, out))
            else InflateFrom(src, BlockEnd(block, p, out), AfterBlock(block, p, out))
  {
    hide Stands, LsbWord, BlockOk, BodyBits, AfterBlock, InflateFrom, InflateSpec.Block, Value;
    var f: seq<Bit> := [if final then 1 else 0];
    StandsSplit(src, p, f + LsbWord(Kind(block), 2), BodyBits(block, p, out));
    StandsSplit(src, p, f, LsbWord(Kind(block), 2));
    FinalBit(final);
    assert Pow2(1) == 2 && Pow2(2) == 4;
    NumberStands(src, p, if final then 1 else 0, 1);
    NumberStands(src, p + 1, Kind(block), 2);
    BodyReads(src, block, p, out);
    Tinflate.FromCases(src, p, out);
  }

  lemma FinalBit(final: bool)
    ensures LsbWord(if final then 1 else 0, 1) == [if final then 1 else 0]
  {
  }

  /** Wherever a stream stands, it inflates to what it stands for. */
  lemma {:induction false} StreamReads(src: seq<Byte>, blocks: seq<Block>, p: nat, out: seq<Byte>)
    requires StreamOk(blocks, p, out) && Stands(src, p, StreamBits(blocks, p, out))
    ensures InflateFrom(src, p, out) == Some(AfterBlocks(blocks, p, out))
    decreases |blocks|
  {
    hide Stands, BlockOk, BlockBits, BlockEnd, AfterBlock, InflateFrom;
    var final := |blocks| == 1;
    var first := BlockBits(blocks[0], p, out, final);
    if final {
      assert StreamBits(blocks, p, out) == first;
      BlockReads(src, blocks[0], p, out, true);
    } else {
      BlockLength(blocks[0], p, out);
      StandsSplit(src, p, first, StreamBits(blocks[1..], BlockEnd(blocks[0], p, out), AfterBlock(blocks[0], p, out)));
      BlockReads(src, blocks[0], p, out, false);
      StreamReads(src, blocks[1..], BlockEnd(blocks[0], p, out), AfterBlock(blocks[0], p, out));
    }
  }

  lemma BlockLength(block: Block, p: nat, out: seq<Byte>)
    requires BlockOk(block, p, out)
    ensures p + |BlockBits(block, p, out, false)| == BlockEnd(block, p, out)
  {
    hide BlockOk, BodyBits;
  }

  // ---- Bytes ----

  lemma {:induction false} PackedBit(bits: seq<Bit>, i: nat)
    requires i < |bits|
    ensures i / 8 < |Packed(bits)| && BitAt(Packed(bits), i) == bits[i]
    decreases |bits|
  {
    var b := Packed(bits);
    if i < 8 {
      var first := if |bits| <= 8 then bits else bits[..8];
      assert b[0] == ByteOf(first) && i / 8 == 0 && i % 8 == i;
      LsbBit(first, i);
    } else {
      PackedBit(bits[8..], i - 8);
      assert (i - 8) / 8 == i / 8 - 1 && (i - 8) % 8 == i % 8;
      assert b[i / 8] == Packed(bits[8..])[i / 8 - 1];
    }
  }

  lemma PackedStands(bits: seq<Bit>)
    ensures Stands(Packed(bits), 0, bits)
  {
    forall i | 0 <= i < |bits| ensures Window(Packed(bits), 0, |bits|)[i] == bits[i] {
      PackedBit(bits, i);
    }
    if |bits| > 0 {
      PackedBit(bits, |bits| - 1);
    }
  }

  /** Any stream of stored, fixed and dynamic blocks, with any literals and
      matches, any codes a decoder takes and any runs that spell them, inflates
      to what it stands for. */
  lemma InflateStream(blocks: seq<Block>)
    requires StreamOk(blocks, 0, [])
    ensures Inflate(Stream(blocks)) == Some(AfterBlocks(blocks, 0, []))
  {
    hide Stands, StreamOk, StreamBits, AfterBlocks, InflateFrom, Packed;
    PackedStands(StreamBits(blocks, 0, []));
    StreamReads(Stream(blocks), blocks, 0, []);
  }

  // ---- Any data at all ----

  function Literals(data: seq<Byte>): (items: seq<Item>)
    ensures |items| == |data|
  {
    seq<Item>(|data|, i requires 0 <= i < |data| => Literal(data[i]))
  }

  lemma {:induction false} LiteralsStandFor(data: seq<Byte>, out: seq<Byte>)
    ensures ItemsOk(Literals(data), out) && AfterItems(Literals(data), out) == out + data
    decreases |data|
  {
    if data == [] {
      assert out + data == out;
    } else {
      assert Literals(data)[1..] == Literals(data[1..]);
      LiteralsStandFor(data[1..], out + [data[0]]);
      assert out + [data[0]] + data[1..] == out + data;
    }
  }

  lemma FixedCodesWrite()
    ensures Sound(FixedLitLengths()) && Sound(FixedDistLengths())
    ensures forall s | 0 <= s <= 256 :: HasCode(FixedLitLengths(), s)
  {
    FixedCodes.LitLeft(15);
    FixedCodes.DistLeft(15);
    hide Left, FixedLits, FixedDists, FixedDistLengths;
    FixedAgrees();
    FixedHas();
  }

  lemma FixedHas()
    ensures forall s | 0 <= s <= 256 :: HasCode(FixedLitLengths(), s)
  {
  }

  /** Any data can be written, as literals with the fixed codes, and is read back
      as it was. */
  lemma InflateWritten(data: seq<Byte>)
    ensures StreamOk([Fixed(Literals(data))], 0, [])
    ensures Inflate(Stream([Fixed(Literals(data))])) == Some(data)
  {
    hide Sound, Inflate, Stream, FixedLitLengths, FixedDistLengths, ItemsOk, AfterItems, BodyBits, BlockEnd;
    FixedCodesWrite();
    LiteralsStandFor(data, []);
    assert [] + data == data;
    InflateStream([Fixed(Literals(data))]);
  }

  // ---- What is refused ----

  lemma ReservedRefused(src: seq<Byte>, p: nat, out: seq<Byte>)
    requires Value(src, p + 1, 2) == 3
    ensures InflateFrom(src, p, out) == None
  {
    hide Value, InflateFrom;
    Tinflate.FromCases(src, p, out);
  }

  /** A stored block whose second length is not the complement of the first. */
  lemma ComplementRefused(src: seq<Byte>, k: nat, len: nat, nlen: nat, out: seq<Byte>)
    requires len <= 65535 && nlen <= 65535 && nlen != 65535 - len
    requires Stands(src, 8 * k, LsbWord(len, 16) + LsbWord(nlen, 16))
    ensures Stored(src, 8 * k, out) == None
  {
    hide Stands, LsbWord, Stored;
    StandsSplit(src, 8 * k, LsbWord(len, 16), LsbWord(nlen, 16));
    assert 8 * k + 16 == 8 * (k + 2) && (8 * k + 7) / 8 == k;
    TwoBytes(src, k, len);
    TwoBytes(src, k + 2, nlen);
    Tinflate.StoredCases(src, 8 * k, out);
  }

  /** A match that reaches back further than there is data. */
  lemma FarMatchRefused(src: seq<Byte>, lits: seq<CodeLen>, dists: seq<CodeLen>, p: nat, len: nat, dist: nat, out: seq<Byte>)
    requires Sound(lits) && Sound(dists) && CanWrite(lits, dists, Match(len, dist)) && dist > |out|
    requires Stands(src, p, LengthBits(lits, len) + DistBits(dists, dist))
    ensures BlockData(src, lits, dists, p, out) == None
  {
    hide Sound, SymbolAt, Stands, LengthBits, DistBits, LengthRow, DistRow, BitsAt, BackAt, BlockData, Copy, LengthExtra, LengthBase,
         FirstLength, FirstDistance;
    var s := 257 + LengthRow(len);
    StandsSplit(src, p, LengthBits(lits, len), DistBits(dists, dist));
    LengthReads(src, lits, p, len);
    BackReads(src, dists, p + lits[s], s, len, dist);
    OneFarMatch(src, lits, dists, p, out, s);
  }

  lemma OneFarMatch(src: seq<Byte>, lits: seq<CodeLen>, dists: seq<CodeLen>, p: nat, out: seq<Byte>, s: nat)
    requires SymbolAt(lits, src, p) == Some(s) && 257 <= s <= 285
    requires var b := BackAt(src, dists, s, p + lits[s]); b.Some? && b.value.dist > |out|
    ensures BlockData(src, lits, dists, p, out) == None
  {
    hide SymbolAt, BackAt, Copy, BlockData;
    Tinflate.BlockCases(src, lits, dists, p, out);
  }

  /** A length or distance symbol that stands for nothing. */
  lemma NoSymbolRefused(src: seq<Byte>, lits: seq<CodeLen>, dists: seq<CodeLen>, p: nat, s: nat, out: seq<Byte>)
    requires Sound(lits) && s > 285 && HasCode(lits, s) && Stands(src, p, CodeWord(lits, s))
    ensures BlockData(src, lits, dists, p, out) == None
  {
    hide Sound, SymbolAt, Stands, CodeWord, BlockData;
    CodeStands(src, p, lits, s);
    Tinflate.BlockCases(src, lits, dists, p, out);
  }

  lemma NoDistanceRefused(src: seq<Byte>, lits: seq<CodeLen>, dists: seq<CodeLen>, p: nat, len: nat, d: nat, out: seq<Byte>)
    requires Sound(lits) && Sound(dists) && 3 <= len <= 258 && HasCode(lits, 257 + LengthRow(len))
    requires d > 29 && HasCode(dists, d) && Stands(src, p, LengthBits(lits, len) + CodeWord(dists, d))
    ensures BlockData(src, lits, dists, p, out) == None
  {
    hide Sound, SymbolAt, Stands, CodeWord, LengthBits, LengthRow, BitsAt, BackAt, BlockData, Copy, LengthExtra, LengthBase, FirstLength;
    var s := 257 + LengthRow(len);
    StandsSplit(src, p, LengthBits(lits, len), CodeWord(dists, d));
    LengthReads(src, lits, p, len);
    CodeStands(src, p + |LengthBits(lits, len)|, dists, d);
    Tinflate.BackFails(src, dists, s, p + lits[s]);
    Tinflate.BlockCases(src, lits, dists, p, out);
  }

  /** A run that repeats nothing, or goes past the number of lengths announced. */
  lemma RunRefused(src: seq<Byte>, clc: seq<CodeLen>, p: nat, run: Run, acc: seq<CodeLen>, total: nat)
    requires |clc| == 19 && Sound(clc) && !run.Once? && 3 <= run.n <= (if run.Again? then 6 else 138)
    requires HasCode(clc, RunSymbol(run)) && Stands(src, p, RunBits(clc, run)) && |acc| < total
    requires (run.Again? && acc == []) || |acc| + run.n > total
    ensures RunAt(src, clc, p, acc, total) == None
  {
    hide SymbolAt, Stands, RunAt, Times, Value, LsbWord, Pow2, Sound, CodeWord;
    var s := RunSymbol(run);
    StandsSplit(src, p, CodeWord(clc, s), RunExtra(run));
    CodeStands(src, p, clc, s);
    if run.Again? && acc == [] {
      Tinflate.RunFails(src, clc, p, acc, total);
    } else {
      var e := if s == 18 then run.n - 11 else run.n - 3;
      RepeatCounts(s, e, run.n);
      assert RunExtra(run) == LsbWord(e, RepeatBits(s));
      NumberStands(src, p + clc[s], e, RepeatBits(s));
      Tinflate.RunRepeat(src, clc, p, acc, total, s);
    }
  }

  /** More literal or distance codes than there are symbols. */
  lemma CountsRefused(src: seq<Byte>, p: nat, nlit: nat, ndist: nat)
    requires 257 <= nlit <= 288 && 1 <= ndist <= 32 && (nlit > 286 || ndist > 30)
    requires Stands(src, p, LsbWord(nlit - 257, 5) + LsbWord(ndist - 1, 5))
    ensures CodesAt(src, p) == None
  {
    hide Stands, LsbWord, Value, Accepts, ClcLens, LensAt;
    assert Pow2(5) == 32;
    StandsSplit(src, p, LsbWord(nlit - 257, 5), LsbWord(ndist - 1, 5));
    NumberStands(src, p, nlit - 257, 5);
    NumberStands(src, p + 5, ndist - 1, 5);
  }

  /** Codes that cannot be, or without an end of block. */
  lemma CodesRefused(src: seq<Byte>, p: nat, h: Header)
    requires ClcOk(h) && SpellsOk(h) && CanWriteRuns(h.clc, h.runs) && !CodesOk(h.clc, Lits(h), Dists(h))
    requires Stands(src, p, FrontBits(h) + (ClcBits(h.clc, h.nclc) + RunsBits(h.clc, h.runs)))
    ensures CodesAt(src, p) == None
  {
    hide Stands, CodesAt, ClcBits, RunsBits, Accepts, Sound, ClcLens, LensAt, RunsOk, AfterRuns, ClcOk, CanWriteRuns, CodesFrom;
    ClcCount(h);
    var clc, runs := ClcBits(h.clc, h.nclc), RunsBits(h.clc, h.runs);
    CountsRead(src, p, h.nlit, |Dists(h)|, h.nclc, clc + runs);
    StandsSplit(src, p + 14, clc, runs);
    ClcReads(src, p + 14, h);
    RunsRead(src, h.clc, p + 14 + |clc|, h.runs, []);
    NotCodes(src, p + 14, h);
  }

  lemma NotCodes(src: seq<Byte>, p: nat, h: Header)
    requires SpellsOk(h) && !CodesOk(h.clc, Lits(h), Dists(h)) && ClcLens(src, p, h.nclc) == h.clc && |h.clc| == 19
    requires var r := LensAt(src, h.clc, p + 3 * h.nclc, [], |AfterRuns(h.runs, [])|);
             r.Some? && r.value.0 == AfterRuns(h.runs, [])
    ensures CodesFrom(src, p, h.nlit, |Dists(h)|, h.nclc) == None
  {
    hide Accepts, Sound, ClcLens, LensAt, RunsOk, AfterRuns;
  }

  // ---- And with codes of a block's own ----

  lemma {:induction false} KraftConcat(x: seq<CodeLen>, y: seq<CodeLen>)
    ensures KraftSum(x + y) == KraftSum(x) + KraftSum(y)
    decreases |y|
  {
    hide Pow2;
    if y == [] {
      assert x + y == x;
    } else {
      assert (x + y)[..|x + y| - 1] == x + y[..|y| - 1];
      KraftConcat(x, y[..|y| - 1]);
    }
  }

  lemma {:induction false} KraftTimes(n: nat, l: CodeLen)
    ensures KraftSum(Times(n, l)) == if l == 0 then 0 else n * Pow2(15 - l)
  {
    hide Pow2;
    if n > 0 {
      KraftTimes(n - 1, l);
      assert Times(n, l)[..n - 1] == Times(n - 1, l);
    }
  }

  /** Lengths sent one by one. */
  function Singly(lens: seq<CodeLen>): (runs: seq<Run>)
    ensures |runs| == |lens|
  {
    seq<Run>(|lens|, i requires 0 <= i < |lens| => Once(lens[i]))
  }

  lemma {:induction false} SinglySpells(lens: seq<CodeLen>, acc: seq<CodeLen>)
    ensures RunsOk(Singly(lens), acc) && AfterRuns(Singly(lens), acc) == acc + lens
    decreases |lens|
  {
    if lens == [] {
      assert acc + lens == acc;
    } else {
      assert Singly(lens)[1..] == Singly(lens[1..]);
      SinglySpells(lens[1..], acc + [lens[0]]);
      assert acc + [lens[0]] + lens[1..] == acc + lens;
    }
  }

  /** A complete code for the bytes and the end of a block: two symbols of nine
      bits and the rest of eight. */
  function ByteCode(): (lens: seq<CodeLen>)
    ensures |lens| == 257
  {
    Times(255, 8) + Times(2, 9)
  }

  /** A code for the three lengths that occur. */
  function ByteClc(): (lens: seq<CodeLen>)
    ensures |lens| == 19
  {
    Times(1, 1) + Times(7, 0) + Times(2, 2) + Times(9, 0)
  }

  function ByteHeader(): Header {
    Header(ByteClc(), 7, 257, Singly(ByteCode() + [0]))
  }

  lemma ByteCodesOk()
    ensures CodesOk(ByteClc(), ByteCode(), [0])
  {
    hide Pow2, KraftSum, Below, Count, ByteCode, ByteClc;
    ByteCodeKraft();
    ByteClcKraft();
    NoDistanceCode();
    ByteCodeAt(256);
  }

  lemma ByteCodeKraft()
    ensures KraftSum(ByteCode()) == Pow2(15)
  {
    assert Pow2(15) == 32768 && Pow2(7) == 128 && Pow2(6) == 64;
    hide Pow2, Times, KraftSum;
    KraftTimes(255, 8);
    KraftTimes(2, 9);
    KraftConcat(Times(255, 8), Times(2, 9));
  }

  lemma ByteClcKraft()
    ensures KraftSum(ByteClc()) == Pow2(15)
  {
    assert Pow2(15) == 32768 && Pow2(14) == 16384 && Pow2(13) == 8192;
    hide Pow2, Times, KraftSum;
    var a, b, c, d := Times(1, 1), Times(7, 0), Times(2, 2), Times(9, 0);
    KraftTimes(1, 1);
    KraftTimes(7, 0);
    KraftTimes(2, 2);
    KraftTimes(9, 0);
    KraftConcat(a, b);
    KraftConcat(a + b, c);
    KraftConcat(a + b + c, d);
  }

  lemma NoDistanceCode()
    ensures Accepts([0])
  {
    var none: seq<CodeLen> := [0];
    BelowEmpty(16);
    BelowAppend(none, 16);
    assert none[..0] == [];
  }

  lemma ByteCodeAt(s: nat)
    requires s <= 256
    ensures ByteCode()[s] == if s < 255 then 8 else 9
  {
  }

  lemma ByteClcAt(s: nat)
    requires s < 19
    ensures ByteClc()[s] == if s == 0 then 1 else if s == 8 || s == 9 then 2 else 0
  {
  }

  lemma ByteHeaderOk()
    ensures HeaderOk(ByteHeader()) && Lits(ByteHeader()) == ByteCode() && Dists(ByteHeader()) == [0]
  {
    hide Accepts, Sound, ByteCode, ByteClc, RunsOk, AfterRuns, HasCode;
    var h, all := ByteHeader(), ByteCode() + [0];
    SinglySpells(all, []);
    assert [] + all == all && all[..257] == ByteCode() && all[257..] == [0];
    ByteCodesOk();
    assert ClcOk(h) by {
      forall j | 0 <= j < 19 ensures h.clc[ORDER[j]] <= if j < h.nclc then 7 else 0 {
        ByteClcAt(ORDER[j]);
      }
    }
    TinfTree.AcceptsWhen(ByteClc());
    ByteRuns();
  }

  lemma ByteRuns()
    requires Sound(ByteClc())
    ensures CanWriteRuns(ByteClc(), Singly(ByteCode() + [0]))
  {
    hide Sound, ByteCode, ByteClc;
    var all := ByteCode() + [0];
    forall i | 0 <= i < |all| ensures HasCode(ByteClc(), all[i]) {
      if i < 257 {
        ByteCodeAt(i);
      }
      ByteClcAt(all[i]);
    }
  }

  lemma ByteWrites(data: seq<Byte>)
    ensures CanWriteAll(ByteCode(), [0], Literals(data))
  {
    hide Sound, Accepts, ByteCode;
    ByteCodesOk();
    TinfTree.AcceptsWhen(ByteCode());
    TinfTree.AcceptsWhen([0]);
    forall s | 0 <= s <= 256 ensures HasCode(ByteCode(), s) {
      ByteCodeAt(s);
    }
  }

  /** Any data can be written in a dynamic block, too. */
  lemma InflateDynamic(data: seq<Byte>)
    ensures StreamOk([Dynamic(ByteHeader(), Literals(data))], 0, [])
    ensures Inflate(Stream([Dynamic(ByteHeader(), Literals(data))])) == Some(data)
  {
    hide Inflate, Stream, ItemsOk, AfterItems, BodyBits, BlockEnd, HeaderOk, ByteHeader, ByteCode, SpellsOk, Lits, Dists, CanWriteAll,
         Literals;
    ByteHeaderOk();
    HeaderSpells(ByteHeader());
    ByteWrites(data);
    LiteralsStandFor(data, []);
    assert [] + data == data;
    InflateStream([Dynamic(ByteHeader(), Literals(data))]);
  }
}
