/** The checksums of compressed data: Adler-32 as section 8.2 of RFC 1950 gives
    it, and CRC-32 as section 8 of RFC 1952 does. */
module Adler {
  import opened Bits

  const BASE: nat := 65521
  const NMAX: nat := 5552
  const WORD: nat := 0x1_0000_0000

  type Sums = (nat, nat)

  /** One byte, reducing at once. */
  function Step(s: Sums, b: Byte): Sums {
    var s1 := (s.0 + b) % BASE;
    (s1, (s.1 + s1) % BASE)
  }

  /** The two sums over some data, starting from given ones. */
  function Over(s: Sums, data: seq<Byte>): Sums {
    if data == [] then s
    else Step(Over(s, data[..|data| - 1]), data[|data| - 1])
  }

  function Pack(s: Sums): nat {
    s.1 * 65536 + s.0
  }

  function Unpack(v: nat): Sums {
    (v % 65536, v / 65536)
  }

  ghost predicate Reduced(s: Sums) {
    s.0 < BASE && s.1 < BASE
  }

  lemma {:induction false} OverReduced(s: Sums, data: seq<Byte>)
    requires Reduced(s)
    ensures Reduced(Over(s, data))
  {
    if data != [] {
      OverReduced(s, data[..|data| - 1]);
    }
  }

  /** Data in two pieces. */
  lemma {:induction false} OverTwo(s: Sums, x: seq<Byte>, y: seq<Byte>)
    ensures Over(s, x + y) == Over(Over(s, x), y)
    decreases |y|
  {
    if y == [] {
      assert x + y == x;
    } else {
      var n := |y| - 1;
      assert (x + y)[..|x + y| - 1] == x + y[..n];
      OverTwo(s, x, y[..n]);
    }
  }

  /** The checksum of the letters a, b, c. */
  lemma KnownValue()
    ensures Pack(Over((1, 0), [97, 98, 99])) == 0x024D_0127
  {
    var a: seq<Byte>, ab: seq<Byte>, abc: seq<Byte> := [97], [97, 98], [97, 98, 99];
    assert a[..0] == [] && ab[..1] == a && abc[..2] == ab;
    assert Over((1, 0), a) == (98, 98);
    assert Over((1, 0), ab) == (196, 294);
    assert Over((1, 0), abc) == (295, 589);
  }

  lemma PackUnpack(s: Sums)
    requires Reduced(s)
    ensures Unpack(Pack(s)) == s && Pack(s) < WORD
  {
  }

  // ---- Reducing once a block ----

  /** Sums that have not been reduced, as they stand after k bytes of a block. */
  ghost predicate Bounded(s: Sums, k: nat) {
    && s.0 <= 65520 + 255 * k
    && 2 * s.1 <= 2 * 65520 * (k + 1) + 255 * (k * (k + 1))
  }

  lemma BoundedStep(s: Sums, k: nat, b: Byte)
    requires Bounded(s, k)
    ensures Bounded((s.0 + b, s.1 + (s.0 + b)), k + 1)
  {
    assert (k + 1) * (k + 2) == k * (k + 1) + 2 * (k + 1);
  }

  /** A block of 5552 bytes is the most that cannot overflow 32 bits. */
  lemma NoOverflow(s: Sums, k: nat)
    requires Bounded(s, k) && k <= NMAX
    ensures s.0 < WORD && s.1 < WORD
  {
    Grows(k, NMAX, k + 1);
  }

  lemma Grows(a: nat, b: nat, c: nat)
    requires a <= b
    ensures a * c <= b * c
  {
  }

  lemma BlockLimit()
    ensures 2 * WORD > 2 * 65520 * (NMAX + 1) + 255 * (NMAX * (NMAX + 1))
    ensures 2 * WORD <= 2 * 65520 * (NMAX + 2) + 255 * ((NMAX + 1) * (NMAX + 2))
  {
  }

  ghost predicate SameSums(s: Sums, t: Sums) {
    s.0 % BASE == t.0 % BASE && s.1 % BASE == t.1 % BASE
  }

  lemma SameRest(a: nat, q: int, r: nat)
    requires a == BASE * q + r && r < BASE
    ensures a % BASE == r
  {
  }

  lemma SameAfterAdding(x: nat, y: nat, b: nat)
    requires x % BASE == y % BASE
    ensures (x + b) % BASE == (y + b) % BASE
  {
    var q, r := (y + b) / BASE, (y + b) % BASE;
    SameRest(x + b, q + x / BASE - y / BASE, r);
  }

  lemma StepLater(s: Sums, t: Sums, b: Byte)
    requires SameSums(s, t)
    ensures SameSums((s.0 + b, s.1 + (s.0 + b)), Step(t, b))
  {
    var s1 := (t.0 + b) % BASE;
    SameAfterAdding(s.0, t.0, b);
    SameAfterAdding(s.1, t.1, s.0 + b);
    SameAfterAdding(s.0 + b, s1, t.1);
  }

  /** One block, with the additions of a 32-bit machine. */
  method AddBlock(s: Sums, data: seq<Byte>, from: nat, k: nat) returns (r: Sums)
    requires Reduced(s) && from + k <= |data| && k <= NMAX
    ensures r == Over(s, data[from..from + k])
  {
    hide Step, Over, Bounded, SameSums, Wrap, Reduced;
    var s1: nat, s2: nat := s.0, s.1;
    Begin(s, data, from);
    for i := 0 to k
      invariant Bounded((s1, s2), i) && SameSums((s1, s2), Over(s, data[from..from + i]))
    {
      var b := data[from + i];
      BoundedStep((s1, s2), i, b);
      NoOverflow((s1 + b, s2 + (s1 + b)), i + 1);
      StepLater((s1, s2), Over(s, data[from..from + i]), b);
      OneMore(s, data, from, i);
      WrapSmall(s1 + b);
      WrapSmall(s2 + (s1 + b));
      s1 := Wrap(s1 + b);
      s2 := Wrap(s2 + s1);
    }
    OverReduced(s, data[from..from + k]);
    Settled((s1, s2), Over(s, data[from..from + k]));
    r := (s1 % BASE, s2 % BASE);
  }

  /** A 32-bit sum. */
  function Wrap(x: nat): nat {
    x % WORD
  }

  lemma WrapSmall(x: nat)
    requires x < WORD
    ensures Wrap(x) == x
  {
  }

  lemma Begin(s: Sums, data: seq<Byte>, from: nat)
    requires Reduced(s) && from <= |data|
    ensures Bounded(s, 0) && SameSums(s, Over(s, data[from..from]))
  {
  }

  lemma OneMore(s: Sums, data: seq<Byte>, from: nat, i: nat)
    requires from + i < |data|
    ensures Over(s, data[from..from + i + 1]) == Step(Over(s, data[from..from + i]), data[from + i])
  {
    hide Step;
    assert data[from..from + i + 1][..i] == data[from..from + i];
  }

  lemma Settled(s: Sums, t: Sums)
    requires SameSums(s, t) && Reduced(t)
    ensures (s.0 % BASE, s.1 % BASE) == t
  {
  }

  /** tinf_adler32. */
  method TinfAdler32(data: seq<Byte>) returns (r: nat)
    ensures r == Pack(Over((1, 0), data)) && r < WORD
  {
    hide Over, Pack, Unpack;
    var s: Sums := (1, 0);
    var at: nat := 0;
    Nothing(s, data);
    while at < |data|
      invariant at <= |data| && Reduced(s) && s == Over((1, 0), data[..at])
    {
      var length := |data| - at;
      var k := if length < NMAX then length else NMAX;
      ghost var t := s;
      s := AddBlock(s, data, at, k);
      OverReduced(t, data[at..at + k]);
      OverTwo((1, 0), data[..at], data[at..at + k]);
      assert data[..at] + data[at..at + k] == data[..at + k];
      at := at + k;
    }
    assert data[..|data|] == data;
    PackUnpack(s);
    r := Pack(s);
  }

  /** The decompressor carries the sum from call to call, and begins with the
      odd part of a block. */
  method MinizAdler32(check: nat, data: seq<Byte>) returns (r: nat)
    requires check < WORD && Reduced(Unpack(check))
    ensures r == Pack(Over(Unpack(check), data)) && r < WORD && Reduced(Unpack(r))
  {
    hide Over, Pack, Unpack;
    var s: Sums := Unpack(check);
    var at: nat, block: nat := 0, |data| % NMAX;
    ghost var blocks: nat := |data| / NMAX;
    Nothing(s, data);
    while at < |data|
      invariant at <= |data| && Reduced(s) && s == Over(Unpack(check), data[..at])
      invariant block <= NMAX && (at < |data| ==> |data| == at + block + NMAX * blocks)
      invariant block == 0 ==> at == 0
      decreases |data| - at, if block == 0 then 1 else 0
    {
      ghost var t := s;
      s := AddBlock(s, data, at, block);
      OverReduced(t, data[at..at + block]);
      OverTwo(Unpack(check), data[..at], data[at..at + block]);
      assert data[..at] + data[at..at + block] == data[..at + block];
      at := at + block;
      block := NMAX;
      blocks := if blocks > 0 then blocks - 1 else 0;
    }
    assert data[..|data|] == data;
    PackUnpack(s);
    r := Pack(s);
  }

  lemma Nothing(s: Sums, data: seq<Byte>)
    ensures Over(s, data[..0]) == s
  {
  }

  // ---- What it is for ----

  lemma {:induction false} FirstSum(s: Sums, data: seq<Byte>)
    requires Reduced(s)
    ensures Over(s, data).0 == (s.0 + Sum(data)) % BASE
  {
    if data != [] {
      var n := |data| - 1;
      FirstSum(s, data[..n]);
      SameAfterAdding(Over(s, data[..n]).0, s.0 + Sum(data[..n]), data[n]);
    }
  }

  function Sum(data: seq<Byte>): nat {
    if data == [] then 0 else Sum(data[..|data| - 1]) + data[|data| - 1]
  }

  lemma {:induction false} SumTwo(x: seq<Byte>, y: seq<Byte>)
    ensures Sum(x + y) == Sum(x) + Sum(y)
    decreases |y|
  {
    if y == [] {
      assert x + y == x;
    } else {
      var n := |y| - 1;
      assert (x + y)[..|x + y| - 1] == x + y[..n];
      SumTwo(x, y[..n]);
    }
  }

  lemma DifferentSum(n: nat, b: Byte, c: Byte)
    requires b != c
    ensures (n + b) % BASE != (n + c) % BASE
  {
    if b < c {
      SameRest((c - b) as nat, 0, c - b);
    }
  }

  /** A single changed byte is always noticed. */
  lemma NoticesByte(x: seq<Byte>, b: Byte, c: Byte, y: seq<Byte>)
    requires b != c
    ensures Pack(Over((1, 0), x + [b] + y)) != Pack(Over((1, 0), x + [c] + y))
  {
    hide Over, Pack, Unpack;
    var p, q := x + [b] + y, x + [c] + y;
    FirstSum((1, 0), p);
    FirstSum((1, 0), q);
    SumTwo(x + [b], y);
    SumTwo(x + [c], y);
    SumTwo(x, [b]);
    SumTwo(x, [c]);
    assert Sum([b]) == b && Sum([c]) == c;
    DifferentSum(1 + Sum(x) + Sum(y), b, c);
    OverReduced((1, 0), p);
    OverReduced((1, 0), q);
    PackUnpack(Over((1, 0), p));
    PackUnpack(Over((1, 0), q));
  }
}

module Crc {
  type Word = bv32

  /** One bit: divide by the polynomial, lowest bit first. */
  function BitStep(c: Word): Word {
    if IsOdd(c) then Xor(Half(c), 0xEDB8_8320) else Half(c)
  }

  predicate IsOdd(c: Word) { c & 1 == 1 }

  function Half(c: Word): Word { c >> 1 }

  function Xor(x: Word, y: Word): Word { x ^ y }

  function Bits(c: Word, n: nat): Word
    decreases n
  {
    if n == 0 then c else Bits(BitStep(c), n - 1)
  }

  function Plus(c: Word, b: bv8): Word {
    c ^ (b as Word)
  }

  function Inverted(c: Word): Word {
    c ^ 0xFFFF_FFFF
  }

  /** One byte. */
  function ByteStep(c: Word, b: bv8): Word {
    Bits(Plus(c, b), 8)
  }

  function Over(c: Word, data: seq<bv8>): Word {
    if data == [] then c else ByteStep(Over(c, data[..|data| - 1]), data[|data| - 1])
  }

  /** The checksum, as its definition has it. */
  function Crc32(data: seq<bv8>): Word {
    Inverted(Over(0xFFFF_FFFF, data))
  }

  /** The table of the remainders of four bits. */
  function Table(n: Word): Word {
    if n == 0 then 0x0000_0000 else if n == 1 then 0x1DB7_1064
    else if n == 2 then 0x3B6E_20C8 else if n == 3 then 0x26D9_30AC
    else if n == 4 then 0x76DC_4190 else if n == 5 then 0x6B6B_51F4
    else if n == 6 then 0x4DB2_6158 else if n == 7 then 0x5005_713C
    else if n == 8 then 0xEDB8_8320 else if n == 9 then 0xF00F_9344
    else if n == 10 then 0xD6D6_A3E8 else if n == 11 then 0xCB61_B38C
    else if n == 12 then 0x9B64_C2B0 else if n == 13 then 0x86D3_D2D4
    else if n == 14 then 0xA00A_E278 else 0xBDBD_F21C
  }

  /** One look into the table. */
  function Lookup(c: Word): Word {
    Xor(Table(Low(c)), Shift(c))
  }

  function Low(c: Word): Word { c & 0xF }

  function Shift(c: Word): Word { c >> 4 }

  function FourSteps(c: Word): Word {
    BitStep(BitStep(BitStep(BitStep(c))))
  }

  /** A look into the table is worth four bits. */
  lemma TableStep(c: Word)
    ensures Lookup(c) == FourSteps(c)
  {
    hide BitStep, FourSteps, Table, Low, Shift, Xor, High;
    Split(c);
    FourLinear(Low(c), High(c));
    FourHigh(c);
    LowSmall(c);
    FourLow(Low(c));
  }

  function High(c: Word): Word { c & 0xFFFF_FFF0 }

  lemma Split(c: Word)
    ensures c == Xor(Low(c), High(c))
  {
  }

  lemma LowSmall(c: Word)
    ensures Low(c) <= 15
  {
  }

  /** Dividing a sum gives the sum of the remainders. */
  lemma BitLinear(x: Word, y: Word)
    ensures BitStep(Xor(x, y)) == Xor(BitStep(x), BitStep(y))
  {
    hide IsOdd, Half, Xor;
    HalfLinear(x, y);
    OddLinear(x, y);
    Shuffle(Half(x), Half(y), 0xEDB8_8320);
  }

  lemma HalfLinear(x: Word, y: Word)
    ensures Half(Xor(x, y)) == Xor(Half(x), Half(y))
  {
    assert (x ^ y) >> 1 == (x >> 1) ^ (y >> 1);
  }

  lemma OddLinear(x: Word, y: Word)
    ensures IsOdd(Xor(x, y)) <==> (IsOdd(x) != IsOdd(y))
  {
    assert (x ^ y) & 1 == (x & 1) ^ (y & 1);
    Lowest(x);
    Lowest(y);
  }

  lemma Lowest(x: Word)
    ensures x & 1 == 0 || x & 1 == 1
  {
  }

  lemma Shuffle(x: Word, y: Word, p: Word)
    ensures Xor(Xor(x, p), y) == Xor(Xor(x, y), p)
    ensures Xor(x, Xor(y, p)) == Xor(Xor(x, y), p)
    ensures Xor(Xor(x, p), Xor(y, p)) == Xor(x, y)
  {
    hide Xor;
    Commute(x, p);
    Commute(y, p);
    Associate(x, p, y);
    Associate(x, y, p);
    Associate(Xor(x, p), p, y);
    Associate(x, p, p);
    Cancel(x, p);
    Commute(p, y);
  }

  lemma Commute(x: Word, y: Word)
    ensures Xor(x, y) == Xor(y, x)
  {
  }

  lemma Associate(x: Word, y: Word, z: Word)
    ensures Xor(Xor(x, y), z) == Xor(x, Xor(y, z))
  {
    RawAssociate(x, y, z);
  }

  lemma RawAssociate(x: Word, y: Word, z: Word)
    ensures (x ^ y) ^ z == x ^ (y ^ z)
  {
  }

  lemma Cancel(x: Word, p: Word)
    ensures Xor(x, Xor(p, p)) == x
  {
  }

  lemma FourLinear(x: Word, y: Word)
    ensures FourSteps(Xor(x, y)) == Xor(FourSteps(x), FourSteps(y))
  {
    hide BitStep, Xor;
    BitLinear(x, y);
    BitLinear(BitStep(x), BitStep(y));
    BitLinear(BitStep(BitStep(x)), BitStep(BitStep(y)));
    BitLinear(BitStep(BitStep(BitStep(x))), BitStep(BitStep(BitStep(y))));
  }

  lemma FourHigh(c: Word)
    ensures FourSteps(High(c)) == Shift(c)
  {
    hide IsOdd, Half, High, Shift;
    AllEven(c);
    HalfFourTimes(c);
  }

  lemma AllEven(c: Word)
    ensures !IsOdd(High(c)) && !IsOdd(Half(High(c))) && !IsOdd(Half(Half(High(c))))
    ensures !IsOdd(Half(Half(Half(High(c)))))
  {
    assert (c & 0xFFFF_FFF0) & 1 == 0;
    assert ((c & 0xFFFF_FFF0) >> 1) & 1 == 0;
    assert (((c & 0xFFFF_FFF0) >> 1) >> 1) & 1 == 0;
    assert ((((c & 0xFFFF_FFF0) >> 1) >> 1) >> 1) & 1 == 0;
  }

  lemma HalfFourTimes(c: Word)
    ensures Half(Half(Half(Half(High(c))))) == Shift(c)
  {
    RawShifts(c);
  }

  lemma RawShifts(c: Word)
    ensures ((((c & 0xFFFF_FFF0) >> 1) >> 1) >> 1) >> 1 == c >> 4
  {
  }

  lemma FourLow(n: Word)
    requires n <= 15
    ensures FourSteps(n) == Table(n)
  {
    if n < 8 {
      LowNibble(n);
    } else {
      HighNibble(n);
    }
  }

  lemma LowNibble(n: Word)
    requires n < 8
    ensures FourSteps(n) == Table(n)
  {
    assert n == 0 || n == 1 || n == 2 || n == 3 || n == 4 || n == 5 || n == 6 || n == 7;
  }

  lemma HighNibble(n: Word)
    requires 8 <= n <= 15
    ensures FourSteps(n) == Table(n)
  {
    assert n == 8 || n == 9 || n == 10 || n == 11 || n == 12 || n == 13 || n == 14 || n == 15;
  }

  lemma FourBits(c: Word, n: nat)
    requires n >= 4
    ensures Bits(c, n) == Bits(FourSteps(c), n - 4)
  {
    hide BitStep;
    assert Bits(c, n) == Bits(BitStep(c), n - 1);
    assert Bits(BitStep(c), n - 1) == Bits(BitStep(BitStep(c)), n - 2);
    assert Bits(BitStep(BitStep(c)), n - 2) == Bits(BitStep(BitStep(BitStep(c))), n - 3);
  }

  lemma EightBits(c: Word)
    ensures Bits(c, 8) == Lookup(Lookup(c))
  {
    hide Lookup, FourSteps;
    FourBits(c, 8);
    FourBits(FourSteps(c), 4);
    TableStep(c);
    TableStep(FourSteps(c));
    assert Bits(FourSteps(FourSteps(c)), 0) == FourSteps(FourSteps(c));
  }

  lemma Snoc(c: Word, data: seq<bv8>, i: nat)
    requires i < |data|
    ensures Over(c, data[..i + 1]) == ByteStep(Over(c, data[..i]), data[i])
  {
    hide ByteStep;
    assert data[..i + 1][..i] == data[..i];
  }

  lemma Start(c: Word, data: seq<bv8>)
    ensures Over(c, data[..0]) == c
  {
  }

  /** tinf_crc32: the byte is added first, then two looks into the table. */
  method TinfCrc32(data: seq<bv8>) returns (r: Word)
    ensures r == Crc32(data)
  {
    hide Lookup, Bits, Over, Plus, Inverted;
    if |data| == 0 {
      NoData(data);
      return 0;
    }
    var crc: Word := 0xFFFF_FFFF;
    Start(crc, data);
    for i := 0 to |data|
      invariant crc == Over(0xFFFF_FFFF, data[..i])
    {
      Snoc(0xFFFF_FFFF, data, i);
      crc := Plus(crc, data[i]);
      EightBits(crc);
      crc := Lookup(crc);
      crc := Lookup(crc);
    }
    assert data[..|data|] == data;
    return Inverted(crc);
  }

  lemma NoData(data: seq<bv8>)
    requires data == []
    ensures Crc32(data) == 0
  {
  }

  function BottomOf(b: bv8): Word { (b & 0xF) as Word }

  function TopOf(b: bv8): Word { (b >> 4) as Word }

  function LowHalf(c: Word, b: bv8): Word {
    Xor(Shift(c), Table(Xor(Low(c), BottomOf(b))))
  }

  function HighHalf(c: Word, b: bv8): Word {
    Xor(Shift(c), Table(Xor(Low(c), TopOf(b))))
  }

  /** Adding the byte half by half comes to the same. */
  lemma Halves(c: Word, b: bv8)
    ensures HighHalf(LowHalf(c, b), b) == ByteStep(c, b)
  {
    hide Bits, Table, Xor, Low, Shift, BottomOf, TopOf, Plus;
    var z := LowHalf(c, b);
    EightBits(Plus(c, b));
    PlusParts(c, b);
    Regroup(Table(Low(Plus(c, b))), Shift(c), TopOf(b));
    TopParts(z, b);
    Regroup(Table(Xor(Low(z), TopOf(b))), Shift(z), 0);
    XorZero(Xor(Shift(z), Table(Xor(Low(z), TopOf(b)))));
    XorZero(Shift(z));
  }

  lemma PlusParts(c: Word, b: bv8)
    ensures Low(Plus(c, b)) == Xor(Low(c), BottomOf(b))
    ensures Shift(Plus(c, b)) == Xor(Shift(c), TopOf(b))
  {
  }

  lemma TopParts(z: Word, b: bv8)
    ensures Low(Xor(z, TopOf(b))) == Xor(Low(z), TopOf(b))
    ensures Shift(Xor(z, TopOf(b))) == Shift(z)
  {
  }

  lemma Regroup(x: Word, y: Word, z: Word)
    ensures Xor(x, Xor(y, z)) == Xor(Xor(y, x), z)
  {
    hide Xor;
    Associate(x, y, z);
    Commute(x, y);
  }

  lemma XorZero(x: Word)
    ensures Xor(x, 0) == x
  {
  }

  /** The boot loader's own version. */
  method LoaderCrc32(data: seq<bv8>) returns (r: Word)
    ensures r == Crc32(data)
  {
    hide LowHalf, HighHalf, ByteStep, Over, Inverted;
    var crc: Word := 0xFFFF_FFFF;
    Start(crc, data);
    for i := 0 to |data|
      invariant crc == Over(0xFFFF_FFFF, data[..i])
    {
      Snoc(0xFFFF_FFFF, data, i);
      Halves(crc, data[i]);
      crc := LowHalf(crc, data[i]);
      crc := HighHalf(crc, data[i]);
    }
    assert data[..|data|] == data;
    return Inverted(crc);
  }

  // ---- What it is for ----

  lemma BitStepInjective(c: Word, d: Word)
    requires BitStep(c) == BitStep(d)
    ensures c == d
  {
  }

  lemma {:induction false} BitsInjective(c: Word, d: Word, n: nat)
    requires Bits(c, n) == Bits(d, n)
    ensures c == d
    decreases n
  {
    hide BitStep;
    if n > 0 {
      BitsInjective(BitStep(c), BitStep(d), n - 1);
      BitStepInjective(c, d);
    }
  }

  lemma PlusByte(c: Word, b: bv8, e: bv8)
    requires Plus(c, b) == Plus(c, e)
    ensures b == e
  {
  }

  lemma PlusWord(c: Word, d: Word, b: bv8)
    requires Plus(c, b) == Plus(d, b)
    ensures c == d
  {
  }

  lemma InvertedInjective(c: Word, d: Word)
    requires Inverted(c) == Inverted(d)
    ensures c == d
  {
  }

  lemma {:induction false} OverInjective(c: Word, d: Word, data: seq<bv8>)
    requires Over(c, data) == Over(d, data)
    ensures c == d
    decreases |data|
  {
    hide Bits, Plus;
    if data != [] {
      var n := |data| - 1;
      var x, y := Over(c, data[..n]), Over(d, data[..n]);
      BitsInjective(Plus(x, data[n]), Plus(y, data[n]), 8);
      PlusWord(x, y, data[n]);
      OverInjective(c, d, data[..n]);
    }
  }

  lemma {:induction false} OverTwo(c: Word, x: seq<bv8>, y: seq<bv8>)
    ensures Over(c, x + y) == Over(Over(c, x), y)
    decreases |y|
  {
    hide ByteStep;
    if y == [] {
      assert x + y == x;
    } else {
      var n := |y| - 1;
      assert (x + y)[..|x + y| - 1] == x + y[..n];
      OverTwo(c, x, y[..n]);
    }
  }

  /** A single changed byte, whatever is around it, is always noticed. */
  lemma NoticesByte(x: seq<bv8>, b: bv8, e: bv8, y: seq<bv8>)
    requires b != e
    ensures Crc32(x + [b] + y) != Crc32(x + [e] + y)
  {
    hide Bits, Over, Inverted, Plus;
    if Crc32(x + [b] + y) == Crc32(x + [e] + y) {
      var c: Word := 0xFFFF_FFFF;
      var m := Over(c, x);
      InvertedInjective(Over(c, x + [b] + y), Over(c, x + [e] + y));
      Around(c, x, b, y);
      Around(c, x, e, y);
      OverInjective(ByteStep(m, b), ByteStep(m, e), y);
      BitsInjective(Plus(m, b), Plus(m, e), 8);
      PlusByte(m, b, e);
    }
  }

  lemma Around(c: Word, x: seq<bv8>, b: bv8, y: seq<bv8>)
    ensures Over(c, x + [b] + y) == Over(ByteStep(Over(c, x), b), y)
  {
    hide ByteStep;
    OverTwo(c, x + [b], y);
    assert (x + [b])[..|x|] == x;
  }

  /** Eight bits, with the words in between written out. */
  lemma StepByStep(c: seq<Word>)
    requires |c| == 9 && forall i, j | 0 <= i < 8 && j == i + 1 :: c[j] == BitStep(c[i])
    ensures Bits(c[0], 8) == c[8]
  {
    hide BitStep;
    assert Bits(c[8], 0) == c[8];
    assert Bits(c[7], 1) == c[8];
    assert Bits(c[6], 2) == c[8];
    assert Bits(c[5], 3) == c[8];
    assert Bits(c[4], 4) == c[8];
    assert Bits(c[3], 5) == c[8];
    assert Bits(c[2], 6) == c[8];
    assert Bits(c[1], 7) == c[8];
  }

  lemma KnownA()
    ensures ByteStep(0xFFFF_FFFF, 0x61) == 0x1748_41BC
  {
    StepByStep([0xFFFF_FF9E, 0x7FFF_FFCF, 0xD247_7CC7, 0x849B_3D43, 0xAFF5_1D81,
                0xBA42_0DE0, 0x5D21_06F0, 0x2E90_8378, 0x1748_41BC]);
  }

  lemma KnownB()
    ensures ByteStep(0x1748_41BC, 0x62) == 0x617C_B792
  {
    StepByStep([0x1748_41DE, 0x0BA4_20EF, 0xE86A_9357, 0x998D_CA8B, 0xA17E_6665,
                0xBD07_B012, 0x5E83_D809, 0xC2F9_6F24, 0x617C_B792]);
  }

  lemma KnownC()
    ensures ByteStep(0x617C_B792, 0x63) == 0xCADB_BE3D
  {
    StepByStep([0x617C_B7F1, 0xDD06_D8D8, 0x6E83_6C6C, 0x3741_B636, 0x1BA0_DB1B,
                0xE068_EEAD, 0x9D8C_F476, 0x4EC6_7A3B, 0xCADB_BE3D]);
  }

  /** The checksum of the letters a, b, c. */
  lemma KnownValue()
    ensures Crc32([0x61, 0x62, 0x63]) == 0x3524_41C2
  {
    var a: seq<bv8>, ab: seq<bv8>, abc: seq<bv8> := [0x61], [0x61, 0x62], [0x61, 0x62, 0x63];
    assert a[..0] == [] && ab[..1] == a && abc[..2] == ab;
    KnownA();
    KnownB();
    KnownC();
    hide ByteStep;
    assert Over(0xFFFF_FFFF, a) == ByteStep(0xFFFF_FFFF, 0x61);
    assert Over(0xFFFF_FFFF, ab) == ByteStep(0x1748_41BC, 0x62);
    assert Over(0xFFFF_FFFF, abc) == ByteStep(0x617C_B792, 0x63);
  }
}
