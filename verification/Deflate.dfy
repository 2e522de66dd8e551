/** How data is written as a DEFLATE stream, as RFC 1951 describes it, from the
    writer's side: what a stream stands for is decided before a bit of it is
    read. */
module Deflate {
  import opened Bits
  import opened Huffman

  // ---- Literals and matches (section 3.2.3) ----

  datatype Item = Literal(b: Byte) | Match(len: nat, dist: nat)

  /** Bytes repeated from some way back, one at a time. */
  function Repeated(out: seq<Byte>, dist: nat, len: nat): (r: seq<Byte>)
    requires 1 <= dist <= |out|
    ensures |r| == |out| + len
  {
    if len == 0 then out
    else
      var r := Repeated(out, dist, len - 1);
      r + [r[|r| - dist]]
  }

  predicate ItemOk(item: Item, out: seq<Byte>) {
    item.Match? ==> 3 <= item.len <= 258 && 1 <= item.dist <= 32768 && item.dist <= |out|
  }

  function AfterItem(item: Item, out: seq<Byte>): seq<Byte>
    requires ItemOk(item, out)
  {
    match item
    case Literal(b) => out + [b]
    case Match(len, dist) => Repeated(out, dist, len)
  }

  predicate ItemsOk(items: seq<Item>, out: seq<Byte>)
    decreases |items|
  {
    items == [] || (ItemOk(items[0], out) && ItemsOk(items[1..], AfterItem(items[0], out)))
  }

  /** What items stand for, after what has been written already. */
  function AfterItems(items: seq<Item>, out: seq<Byte>): seq<Byte>
    requires ItemsOk(items, out)
    decreases |items|
  {
    if items == [] then out else AfterItems(items[1..], AfterItem(items[0], out))
  }

  // ---- Their symbols (section 3.2.5) ----

  /** The smallest length of each symbol from 257 on, and how many extra bits
      follow it. */
  const LENGTHS: seq<(nat, nat)> := [
    (3, 0), (4, 0), (5, 0), (6, 0), (7, 0), (8, 0), (9, 0), (10, 0),
    (11, 1), (13, 1), (15, 1), (17, 1), (19, 2), (23, 2), (27, 2), (31, 2),
    (35, 3), (43, 3), (51, 3), (59, 3), (67, 4), (83, 4), (99, 4), (115, 4),
    (131, 5), (163, 5), (195, 5), (227, 5), (258, 0)]

  /** The same for distances, from symbol 0 on. */
  const DISTANCES: seq<(nat, nat)> := [
    (1, 0), (2, 0), (3, 0), (4, 0), (5, 1), (7, 1), (9, 2), (13, 2), (17, 3), (25, 3),
    (33, 4), (49, 4), (65, 5), (97, 5), (129, 6), (193, 6), (257, 7), (385, 7), (513, 8), (769, 8),
    (1025, 9), (1537, 9), (2049, 10), (3073, 10), (4097, 11), (6145, 11), (8193, 12), (12289, 12),
    (16385, 13), (24577, 13)]

  /** The last of the first n rows that starts no later than v. */
  function RowOf(rows: seq<(nat, nat)>, v: nat, n: nat): (i: nat)
    requires 0 < n <= |rows| && rows[0].0 <= v
    ensures i < n && rows[i].0 <= v && (i + 1 < n ==> v < rows[i + 1].0)
  {
    if n == 1 || rows[n - 1].0 <= v then n - 1 else RowOf(rows, v, n - 1)
  }

  function FirstLength(i: nat): nat
    requires i < 29
  {
    LENGTHS[i].0
  }

  function LengthMore(i: nat): nat
    requires i < 29
  {
    LENGTHS[i].1
  }

  function FirstDistance(i: nat): nat
    requires i < 30
  {
    DISTANCES[i].0
  }

  function DistMore(i: nat): nat
    requires i < 30
  {
    DISTANCES[i].1
  }

  function LengthRow(len: nat): (i: nat)
    requires 3 <= len <= 258
    ensures i < 29 && FirstLength(i) <= len && (i + 1 < 29 ==> len < FirstLength(i + 1))
  {
    RowOf(LENGTHS, len, 29)
  }

  function DistRow(dist: nat): (i: nat)
    requires 1 <= dist <= 32768
    ensures i < 30 && FirstDistance(i) <= dist && (i + 1 < 30 ==> dist < FirstDistance(i + 1))
  {
    RowOf(DISTANCES, dist, 30)
  }

  // ---- Items as bits ----

  /** All the symbols of an item have codes. */
  predicate CanWrite(lits: seq<CodeLen>, dists: seq<CodeLen>, item: Item) {
    match item
    case Literal(b) => HasCode(lits, b)
    case Match(len, dist) =>
      && 3 <= len <= 258 && 1 <= dist <= 32768
      && HasCode(lits, 257 + LengthRow(len)) && HasCode(dists, DistRow(dist))
  }

  function ItemBits(lits: seq<CodeLen>, dists: seq<CodeLen>, item: Item): seq<Bit>
    requires Sound(lits) && Sound(dists) && CanWrite(lits, dists, item)
  {
    match item
    case Literal(b) => CodeWord(lits, b)
    case Match(len, dist) => LengthBits(lits, len) + DistBits(dists, dist)
  }

  function LengthBits(lits: seq<CodeLen>, len: nat): seq<Bit>
    requires Sound(lits) && 3 <= len <= 258 && HasCode(lits, 257 + LengthRow(len))
  {
    var i := LengthRow(len);
    CodeWord(lits, 257 + i) + LsbWord(len - FirstLength(i), LengthMore(i))
  }

  function DistBits(dists: seq<CodeLen>, dist: nat): seq<Bit>
    requires Sound(dists) && 1 <= dist <= 32768 && HasCode(dists, DistRow(dist))
  {
    var i := DistRow(dist);
    CodeWord(dists, i) + LsbWord(dist - FirstDistance(i), DistMore(i))
  }

  predicate CanWriteAll(lits: seq<CodeLen>, dists: seq<CodeLen>, items: seq<Item>) {
    Sound(lits) && Sound(dists) && HasCode(lits, 256) && forall i | 0 <= i < |items| :: CanWrite(lits, dists, items[i])
  }

  /** Items one after the other, with the end-of-block symbol behind them. */
  function ItemsBits(lits: seq<CodeLen>, dists: seq<CodeLen>, items: seq<Item>): seq<Bit>
    requires CanWriteAll(lits, dists, items)
  {
    if items == [] then CodeWord(lits, 256)
    else ItemBits(lits, dists, items[0]) + ItemsBits(lits, dists, items[1..])
  }

  // ---- Code lengths as runs (section 3.2.7) ----

  /** A code length, the last one again 3 to 6 times, or 3 to 138 zeros. */
  datatype Run = Once(l: CodeLen) | Again(n: nat) | Zeros(n: nat)

  predicate RunOk(run: Run, acc: seq<CodeLen>) {
    match run
    case Once(_) => true
    case Again(n) => 3 <= n <= 6 && acc != []
    case Zeros(n) => 3 <= n <= 138
  }

  function AfterRun(run: Run, acc: seq<CodeLen>): (r: seq<CodeLen>)
    requires RunOk(run, acc)
    ensures |r| > |acc|
  {
    match run
    case Once(l) => acc + [l]
    case Again(n) => acc + seq<CodeLen>(n, i => acc[|acc| - 1])
    case Zeros(n) => acc + seq<CodeLen>(n, i => 0)
  }

  predicate RunsOk(runs: seq<Run>, acc: seq<CodeLen>)
    decreases |runs|
  {
    runs == [] || (RunOk(runs[0], acc) && RunsOk(runs[1..], AfterRun(runs[0], acc)))
  }

  /** The code lengths that runs stand for. */
  function AfterRuns(runs: seq<Run>, acc: seq<CodeLen>): (r: seq<CodeLen>)
    requires RunsOk(runs, acc)
    ensures |r| >= |acc| && (runs != [] ==> |r| > |acc|)
    decreases |runs|
  {
    if runs == [] then acc else AfterRuns(runs[1..], AfterRun(runs[0], acc))
  }

  /** Symbol 16 repeats with two extra bits, 17 writes up to ten zeros with
      three, 18 more of them with seven. */
  function RunSymbol(run: Run): nat {
    match run
    case Once(l) => l
    case Again(_) => 16
    case Zeros(n) => if n <= 10 then 17 else 18
  }

  function RunExtra(run: Run): seq<Bit>
    requires !run.Once? ==> run.n >= 3
  {
    match run
    case Once(_) => []
    case Again(n) => LsbWord(n - 3, 2)
    case Zeros(n) => if n <= 10 then LsbWord(n - 3, 3) else LsbWord(n - 11, 7)
  }

  function RunBits(clc: seq<CodeLen>, run: Run): seq<Bit>
    requires Sound(clc) && HasCode(clc, RunSymbol(run)) && (!run.Once? ==> run.n >= 3)
  {
    CodeWord(clc, RunSymbol(run)) + RunExtra(run)
  }

  predicate CanWriteRuns(clc: seq<CodeLen>, runs: seq<Run>) {
    Sound(clc) && forall i | 0 <= i < |runs| :: HasCode(clc, RunSymbol(runs[i])) && (!runs[i].Once? ==> runs[i].n >= 3)
  }

  function RunsBits(clc: seq<CodeLen>, runs: seq<Run>): seq<Bit>
    requires CanWriteRuns(clc, runs)
  {
    if runs == [] then [] else RunBits(clc, runs[0]) + RunsBits(clc, runs[1..])
  }

  /** The order in which the lengths of the code length code are sent. */
  const ORDER: seq<nat> := [16, 17, 18, 0, 8, 7, 9, 6, 10, 5, 11, 4, 12, 3, 13, 2, 14, 1, 15]

  /** The first n of them, three bits each. */
  function ClcBits(clc: seq<CodeLen>, n: nat): (w: seq<Bit>)
    requires |clc| == 19 && n <= 19
    ensures |w| == 3 * n
  {
    if n == 0 then [] else ClcBits(clc, n - 1) + LsbWord(clc[ORDER[n - 1]], 3)
  }

  /** The head of a dynamic block: nclc lengths of the code length code are
      sent, then the runs that spell nlit literal lengths and the distance
      lengths. */
  datatype Header = Header(clc: seq<CodeLen>, nclc: nat, nlit: nat, runs: seq<Run>)

  /** Lengths that are not sent are zero. */
  predicate ClcOk(h: Header) {
    && |h.clc| == 19 && 4 <= h.nclc <= 19
    && (forall j | 0 <= j < 19 :: h.clc[ORDER[j]] <= if j < h.nclc then 7 else 0)
  }

  predicate SpellsOk(h: Header) {
    RunsOk(h.runs, []) && 257 <= h.nlit <= 286 && 1 <= |AfterRuns(h.runs, [])| - h.nlit <= 30
  }

  predicate CodesOk(clc: seq<CodeLen>, lits: seq<CodeLen>, dists: seq<CodeLen>) {
    Accepts(clc) && Accepts(lits) && Accepts(dists) && HasCode(lits, 256)
  }

  predicate HeaderOk(h: Header) {
    ClcOk(h) && SpellsOk(h) && CanWriteRuns(h.clc, h.runs) && CodesOk(h.clc, Lits(h), Dists(h))
  }

  function Lits(h: Header): seq<CodeLen>
    requires SpellsOk(h)
  {
    AfterRuns(h.runs, [])[..h.nlit]
  }

  function Dists(h: Header): seq<CodeLen>
    requires SpellsOk(h)
  {
    AfterRuns(h.runs, [])[h.nlit..]
  }

  /** How many of each are sent. */
  function FrontBits(h: Header): seq<Bit>
    requires ClcOk(h) && SpellsOk(h)
  {
    LsbWord(h.nlit - 257, 5) + LsbWord(|Dists(h)| - 1, 5) + LsbWord(h.nclc - 4, 4)
  }

  function HeaderBits(h: Header): seq<Bit>
    requires HeaderOk(h)
  {
    FrontBits(h) + (ClcBits(h.clc, h.nclc) + RunsBits(h.clc, h.runs))
  }

  // ---- Blocks (sections 3.2.3 to 3.2.7) ----

  /** Stored as it is, behind padding up to a byte boundary; written with the
      fixed codes; or with codes of its own. */
  datatype Block = Raw(pad: seq<Bit>, data: seq<Byte>) | Fixed(items: seq<Item>) | Dynamic(header: Header, items: seq<Item>)

  function Kind(block: Block): nat {
    match block case Raw(_, _) => 0 case Fixed(_) => 1 case Dynamic(_, _) => 2
  }

  /** The fixed code lengths (section 3.2.6). */
  function FixedLength(s: nat): CodeLen {
    if s <= 143 then 8 else if s <= 255 then 9 else if s <= 279 then 7 else 8
  }

  function FixedLitLengths(): seq<CodeLen> {
    seq<CodeLen>(288, i requires 0 <= i < 288 => FixedLength(i))
  }

  function FixedDistLengths(): seq<CodeLen> {
    seq<CodeLen>(32, i => 5)
  }

  function BytesBits(data: seq<Byte>): (w: seq<Bit>)
    ensures |w| == 8 * |data|
  {
    if data == [] then [] else LsbWord(data[0], 8) + BytesBits(data[1..])
  }

  /** A length, its complement and the bytes (section 3.2.4). */
  function RawBits(data: seq<Byte>): (w: seq<Bit>)
    requires |data| <= 65535
    ensures |w| == 32 + 8 * |data|
  {
    LsbWord(|data|, 16) + LsbWord(65535 - |data|, 16) + BytesBits(data)
  }

  /** A block at bit p of the stream, after what has been written before it. */
  predicate BlockOk(block: Block, p: nat, out: seq<Byte>) {
    match block
    case Raw(pad, data) => |pad| < 8 && (p + 3 + |pad|) % 8 == 0 && |data| <= 65535
    case Fixed(items) => ItemsOk(items, out) && CanWriteAll(FixedLitLengths(), FixedDistLengths(), items)
    case Dynamic(h, items) => HeaderOk(h) && ItemsOk(items, out) && CanWriteAll(Lits(h), Dists(h), items)
  }

  function AfterBlock(block: Block, p: nat, out: seq<Byte>): seq<Byte>
    requires BlockOk(block, p, out)
  {
    match block
    case Raw(_, data) => out + data
    case Fixed(items) => AfterItems(items, out)
    case Dynamic(_, items) => AfterItems(items, out)
  }

  function BodyBits(block: Block, p: nat, out: seq<Byte>): seq<Bit>
    requires BlockOk(block, p, out)
  {
    match block
    case Raw(pad, data) => pad + RawBits(data)
    case Fixed(items) => ItemsBits(FixedLitLengths(), FixedDistLengths(), items)
    case Dynamic(h, items) => HeaderBits(h) + ItemsBits(Lits(h), Dists(h), items)
  }

  function BlockBits(block: Block, p: nat, out: seq<Byte>, final: bool): seq<Bit>
    requires BlockOk(block, p, out)
  {
    [if final then 1 else 0] + LsbWord(Kind(block), 2) + BodyBits(block, p, out)
  }

  function BlockEnd(block: Block, p: nat, out: seq<Byte>): nat
    requires BlockOk(block, p, out)
  {
    p + 3 + |BodyBits(block, p, out)|
  }

  /** Blocks one after the other, the last one marked final. */
  predicate StreamOk(blocks: seq<Block>, p: nat, out: seq<Byte>)
    decreases |blocks|
  {
    && blocks != [] && BlockOk(blocks[0], p, out)
    && (|blocks| > 1 ==> StreamOk(blocks[1..], BlockEnd(blocks[0], p, out), AfterBlock(blocks[0], p, out)))
  }

  function StreamBits(blocks: seq<Block>, p: nat, out: seq<Byte>): seq<Bit>
    requires StreamOk(blocks, p, out)
    decreases |blocks|
  {
    hide BlockOk, BlockEnd, AfterBlock, BodyBits;
    BlockBits(blocks[0], p, out, |blocks| == 1) +
    if |blocks| == 1 then []
    else StreamBits(blocks[1..], BlockEnd(blocks[0], p, out), AfterBlock(blocks[0], p, out))
  }

  /** What a stream stands for. */
  function AfterBlocks(blocks: seq<Block>, p: nat, out: seq<Byte>): seq<Byte>
    requires StreamOk(blocks, p, out)
    decreases |blocks|
  {
    hide BlockOk, BlockEnd, AfterBlock, BodyBits;
    if |blocks| == 1 then AfterBlock(blocks[0], p, out)
    else AfterBlocks(blocks[1..], BlockEnd(blocks[0], p, out), AfterBlock(blocks[0], p, out))
  }

  /** Bits packed into bytes, the first bit lowest (section 3.1.1). */
  function Packed(bits: seq<Bit>): seq<Byte> {
    if |bits| == 0 then []
    else if |bits| <= 8 then [ByteOf(bits)]
    else [ByteOf(bits[..8])] + Packed(bits[8..])
  }

  function ByteOf(bits: seq<Bit>): Byte
    requires |bits| <= 8
  {
    Pow2Byte(|bits|);
    LsbVal(bits)
  }

  lemma Pow2Byte(n: nat)
    requires n <= 8
    ensures Pow2(n) <= 256
    decreases 8 - n
  {
    assert Pow2(8) == 256;
    if n < 8 {
      Pow2Byte(n + 1);
    }
  }

  /** A stream of blocks, as bytes. */
  function Stream(blocks: seq<Block>): seq<Byte>
    requires StreamOk(blocks, 0, [])
  {
    Packed(StreamBits(blocks, 0, []))
  }
}
