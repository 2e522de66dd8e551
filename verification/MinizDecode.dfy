/** miniz's symbol decoder over a bit buffer filled from the input. */
module MinizDecode {
  import opened Bits
  import opened Options
  import opened Huffman
  import opened InflateSpec
  import opened Miniz

  /** A code within the first n bits at p stands in the stream exactly when it
      stands at the low end of the number they make. */
  lemma NamesInStream(lens: seq<CodeLen>, src: seq<Byte>, p: nat, n: nat, s: nat)
    requires Sound(lens) && HasCode(lens, s) && lens[s] <= n
    ensures Names(lens, Value(src, p, n), s) <==> CodeAt(lens, src, p, s)
  {
    LsbWordOfVal(Window(src, p, n), lens[s]);
    WindowSplit(src, p, lens[s], n - lens[s]);
  }

  /** With n bits at hand, no more input, and a code longer than that, there is
      no symbol. */
  lemma NoneLeft(lens: seq<CodeLen>, src: seq<Byte>, p: nat, n: nat, s: nat)
    requires Names(lens, Value(src, p, n), s) && lens[s] > n && p + n == Limit(src)
    ensures SymbolAt(lens, src, p) == None
  {
    var r := SymbolAt(lens, src, p);
    if r.Some? {
      NamesInStream(lens, src, p, n, r.value);
      NamesUnique(lens, Value(src, p, n), s, r.value);
    }
  }

  lemma SymbolFound(lens: seq<CodeLen>, src: seq<Byte>, p: nat, n: nat, s: nat)
    requires Names(lens, Value(src, p, n), s) && lens[s] <= n && p + n <= Limit(src)
    ensures CodeAt(lens, src, p, s) && SymbolAt(lens, src, p) == Some(s)
  {
    NamesInStream(lens, src, p, n, s);
    SymbolAtIs(lens, src, p, s);
  }

  /** More bits at hand do not turn up a shorter code. */
  lemma LongerStays(lens: seq<CodeLen>, src: seq<Byte>, p: nat, n: nat, m: nat, s: nat, t: nat)
    requires Names(lens, Value(src, p, n), s) && lens[s] > n && n <= m
    requires Names(lens, Value(src, p, m), t)
    ensures lens[t] > n
  {
    if lens[t] <= n {
      NamesInStream(lens, src, p, m, t);
      NamesInStream(lens, src, p, n, t);
      NamesUnique(lens, Value(src, p, n), s, t);
    }
  }

  class Input {
    const source: seq<Byte>
    var pos: nat
    var bitBuf: nat
    var numBits: nat

    constructor (source: seq<Byte>)
      ensures this.source == source && InSync() && At() == 0 && numBits == 0
    {
      this.source, pos, bitBuf, numBits := source, 0, 0, 0;
    }

    ghost predicate InSync()
      reads this
    {
      pos <= |source| && numBits <= 8 * pos && bitBuf == Value(source, 8 * pos - numBits, numBits)
    }

    ghost function At(): nat
      reads this
    {
      if numBits <= 8 * pos then 8 * pos - numBits else 0
    }

    method GetByte()
      requires InSync() && pos < |source|
      modifies this
      ensures InSync() && At() == old(At()) && numBits == old(numBits) + 8 && pos == old(pos) + 1
    {
      FetchByte(source, pos, numBits);
      bitBuf := bitBuf + Shl(source[pos], numBits);
      pos := pos + 1;
      numBits := numBits + 8;
    }

    /** Near the end of the input: reads bytes one at a time, and only while
        the next code is not all there. Fails when the input runs out first. */
    method FillSlowly(t: HuffTable, ghost lens: seq<CodeLen>) returns (ok: bool, ghost s: nat)
      requires InSync() && t.Valid() && t.Has(lens, |lens|) && numBits < 15
      modifies this
      ensures InSync() && At() == old(At()) && pos >= old(pos) && Names(lens, bitBuf, s)
      ensures if ok then lens[s] <= numBits else SymbolAt(lens, source, At()) == None
      ensures pos > old(pos) ==> numBits - 8 < lens[s]
    {
      hide Value, SymbolAt, Names, CodeAt;
      IsComplete(t, lens);
      s := NamesExists(lens, bitBuf);
      NameFacts(lens, bitBuf, s);
      while true
        invariant InSync() && At() == old(At()) && pos >= old(pos) && numBits < 15
        invariant t.Has(lens, |lens|) && Names(lens, bitBuf, s) && HasCode(lens, s)
        invariant pos > old(pos) ==> numBits - 8 < lens[s]
        decreases |source| - pos
      {
        ok := t.Peek(bitBuf, numBits, lens, s);
        if ok {
          return;
        }
        if pos >= |source| {
          NoneLeft(lens, source, At(), numBits, s);
          return;
        }
        ghost var n, was := numBits, s;
        GetByte();
        s := NamesExists(lens, bitBuf);
        LongerStays(lens, source, At(), n, numBits, was, s);
        NameFacts(lens, bitBuf, s);
        if numBits >= 15 {
          return true, s;
        }
      }
    }

    /** Decodes the next symbol: the one whose canonical code stands at the
        position in the stream, all of it within the input, and exactly its
        bits are consumed. Near the end no byte is read that the code does not
        need. */
    method HuffDecode(t: HuffTable, ghost lens: seq<CodeLen>) returns (r: Option<nat>)
      requires InSync() && t.Valid() && t.Has(lens, |lens|)
      modifies this
      ensures InSync() && r == SymbolAt(lens, source, old(At()))
      ensures r.Some? ==> HasCode(lens, r.value) && At() == old(At()) + lens[r.value]
      ensures r.None? ==> At() == old(At())
      ensures r.Some? && |source| - old(pos) < 2 && pos > old(pos) ==> numBits < 8
    {
      hide Value, SymbolAt, Names, CodeAt;
      ghost var s := 0;
      if numBits < 15 {
        if |source| - pos < 2 {
          var ok;
          ok, s := FillSlowly(t, lens);
          if !ok {
            return None;
          }
        } else {
          GetByte();
          GetByte();
        }
      }
      var sym, codeLen := t.LookUp(bitBuf, lens);
      Settle(lens, sym, s);
      Consume(sym, codeLen, lens);
      r := Some(sym);
    }

    lemma Settle(lens: seq<CodeLen>, sym: nat, s: nat)
      requires Names(lens, bitBuf, sym)
      requires numBits < 15 ==> Names(lens, bitBuf, s) && lens[s] <= numBits
      ensures HasCode(lens, sym) && lens[sym] <= numBits
      ensures Names(lens, bitBuf, s) ==> sym == s
    {
      if Names(lens, bitBuf, s) {
        NamesUnique(lens, bitBuf, sym, s);
      }
    }

    method Consume(sym: nat, codeLen: nat, ghost lens: seq<CodeLen>)
      requires InSync() && Names(lens, bitBuf, sym) && codeLen == lens[sym] <= numBits
      modifies `bitBuf, `numBits
      ensures InSync() && At() == old(At()) + codeLen && numBits == old(numBits) - codeLen
      ensures SymbolAt(lens, source, old(At())) == Some(sym)
    {
      hide Value, Names, SymbolAt, CodeAt, Shr, Shl, Low;
      SymbolFound(lens, source, At(), numBits, sym);
      ValueSplit(source, At(), codeLen, numBits - codeLen);
      bitBuf := Shr(bitBuf, codeLen);
      numBits := numBits - codeLen;
    }
  }

  lemma NameFacts(lens: seq<CodeLen>, x: nat, s: nat)
    requires Names(lens, x, s)
    ensures HasCode(lens, s) && lens[s] <= 15
  {
  }

  lemma IsComplete(t: HuffTable, lens: seq<CodeLen>)
    requires t.Valid() && t.Has(lens, |lens|)
    ensures Complete(lens)
  {
  }
}
