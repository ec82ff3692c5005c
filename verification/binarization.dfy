/** Binarisation of the 4-symbol alphabet (cabac.cpp, first half): two fixed
    prefix-code tables, the concatenation of codewords over a sequence, and
    the packing of bins into bytes through a `BitWriter`. */
module Binarization {
  import opened Common
  import opened Bitstream

  datatype BinarizationType = Good | Bad

  /** Truncated unary: 0 -> 0, 1 -> 10, 2 -> 110, 3 -> 1110. */
  const GoodTable: seq<seq<int>> := [[0], [1, 0], [1, 1, 0], [1, 1, 1, 0]]

  /** The same codewords with the symbol order reversed. */
  const BadTable: seq<seq<int>> := [[1, 1, 1, 0], [1, 1, 0], [1, 0], [0]]

  /** n ones followed by a terminating zero. */
  function UnaryCode(n: nat): (c: seq<int>)
    ensures |c| == n + 1 && c[n] == 0
    ensures forall i :: 0 <= i < n ==> c[i] == 1
  {
    seq(n, i => 1) + [0]
  }

  /** The table entry of a symbol. */
  function Codeword(symbol: Symbol, t: BinarizationType): (c: seq<int>)
    ensures |c| == (if t == Good then symbol + 1 else 4 - symbol)
  {
    if t == Good then GoodTable[symbol] else BadTable[symbol]
  }

  /** Under Good symbol s is s ones and a zero; under Bad it is 3 - s ones
      and a zero. */
  lemma CodewordIsUnary(symbol: Symbol, t: BinarizationType)
    ensures Codeword(symbol, t) == UnaryCode(if t == Good then symbol else 3 - symbol)
  {
  }

  /** `binarizeSymbol`: fails for a symbol outside 0..3, else the codeword. */
  function BinarizeSymbol(symbol: int, t: BinarizationType): (r: Result<seq<int>>)
    ensures r.Ok? <==> 0 <= symbol < 4
    ensures r.Err? ==> r.error == SymbolOutOfRange
    ensures r.Ok? ==> |r.value| == (if t == Good then symbol + 1 else 4 - symbol)
    ensures r.Ok? ==> r.value == UnaryCode(if t == Good then symbol else 3 - symbol)
  {
    if symbol < 0 || symbol > 3 then Err(SymbolOutOfRange)
    else CodewordIsUnary(symbol, t); Ok(Codeword(symbol, t))
  }

  /** No codeword of a table is a prefix of another one. */
  lemma CodewordsPrefixFree(s1: Symbol, s2: Symbol, t: BinarizationType)
    requires s1 != s2
    ensures !(Codeword(s1, t) <= Codeword(s2, t))
  {
    var a := if t == Good then s1 else 3 - s1;
    var b := if t == Good then s2 else 3 - s2;
    CodewordIsUnary(s1, t);
    CodewordIsUnary(s2, t);
    if a < b {
      assert Codeword(s1, t)[a] == 0 != Codeword(s2, t)[a];
    } else {
      assert |Codeword(s1, t)| > |Codeword(s2, t)|;
    }
  }

  /** The concatenation of the codewords of `symbols`, in input order. */
  function Binarized(symbols: seq<Symbol>, t: BinarizationType): seq<int>
  {
    if symbols == [] then [] else Codeword(symbols[0], t) + Binarized(symbols[1..], t)
  }

  /** Appending a symbol appends its codeword. */
  lemma {:induction false} BinarizedSnoc(symbols: seq<Symbol>, s: Symbol, t: BinarizationType)
    ensures Binarized(symbols + [s], t) == Binarized(symbols, t) + Codeword(s, t)
  {
    if symbols == [] {
      assert ([] + [s])[1..] == [];
    } else {
      assert (symbols + [s])[1..] == symbols[1..] + [s];
      BinarizedSnoc(symbols[1..], s, t);
    }
  }

  /** The sum of the symbol values. */
  function SymbolSum(symbols: seq<Symbol>): int
  {
    if symbols == [] then 0 else symbols[0] + SymbolSum(symbols[1..])
  }

  /** `binarizeSequence`: the codewords of all symbols concatenated in input
      order; the first symbol outside 0..3 aborts the whole call. */
  method BinarizeSequence(symbols: seq<int>, t: BinarizationType) returns (r: Result<seq<int>>)
    ensures AllSymbols(symbols) ==> r == Ok(Binarized(symbols, t))
    ensures !AllSymbols(symbols) ==> r == Err(SymbolOutOfRange)
  {
    var bits: seq<int> := [];
    ghost var done: seq<Symbol> := [];
    for i := 0 to |symbols|
      invariant done == symbols[..i]
      invariant bits == Binarized(done, t)
    {
      var b := BinarizeSymbol(symbols[i], t);
      if b.Err? {
        return Err(SymbolOutOfRange);
      }
      CodewordIsUnary(symbols[i], t);
      BinarizedSnoc(done, symbols[i], t);
      assert symbols[..i + 1] == symbols[..i] + [symbols[i]];
      done := done + [symbols[i]];
      bits := bits + b.value;
    }
    assert done == symbols;
    return Ok(bits);
  }

  /** Good codewords have length s + 1, Bad ones 4 - s. */
  lemma {:induction false} BinarizedLengths(symbols: seq<Symbol>)
    ensures |Binarized(symbols, Good)| == SymbolSum(symbols) + |symbols|
    ensures |Binarized(symbols, Bad)| == 4 * |symbols| - SymbolSum(symbols)
  {
    if symbols != [] {
      BinarizedLengths(symbols[1..]);
    }
  }

  /** Together the two binarisations always spend five bins per symbol. */
  lemma LengthsSumToFive(symbols: seq<Symbol>)
    ensures |Binarized(symbols, Good)| + |Binarized(symbols, Bad)| == 5 * |symbols|
  {
    BinarizedLengths(symbols);
  }

  /** The two binarisations have the same length exactly when the mean
      symbol is 1.5. */
  lemma LengthsEqualIff(symbols: seq<Symbol>)
    ensures |Binarized(symbols, Good)| == |Binarized(symbols, Bad)|
            <==> 2 * SymbolSum(symbols) == 3 * |symbols|
  {
    BinarizedLengths(symbols);
  }

  /** Two codewords one of which is a prefix of the other are the same codeword. */
  lemma CodewordsComparable(s1: Symbol, s2: Symbol, t: BinarizationType)
    ensures (Codeword(s1, t) <= Codeword(s2, t) || Codeword(s2, t) <= Codeword(s1, t)) ==> s1 == s2
  {
    if s1 != s2 {
      CodewordsPrefixFree(s1, s2, t);
      CodewordsPrefixFree(s2, s1, t);
    }
  }

  /** Prefix-freeness makes the concatenation uniquely decodable: two
      symbol sequences with the same bins are the same sequence. */
  lemma {:induction false} BinarizedInjective(s1: seq<Symbol>, s2: seq<Symbol>, t: BinarizationType)
    requires Binarized(s1, t) == Binarized(s2, t)
    ensures s1 == s2
  {
    if s1 != [] && s2 != [] {
      var c1, c2 := Codeword(s1[0], t), Codeword(s2[0], t);
      var r1, r2 := Binarized(s1[1..], t), Binarized(s2[1..], t);
      var b := Binarized(s1, t);
      assert b == c1 + r1 && b == c2 + r2;
      assert s1[0] == s2[0] by {
        assert c1 == b[..|c1|] && c2 == b[..|c2|];
        CodewordsComparable(s1[0], s2[0], t);
      }
      assert r1 == b[|c1|..] == r2;
      BinarizedInjective(s1[1..], s2[1..], t);
      assert s1 == [s1[0]] + s1[1..] && s2 == [s2[0]] + s2[1..];
    }
  }

  /** The bins as `writeBit` sees them: any nonzero entry is a 1. */
  function Truthy(bits: seq<int>): (b: seq<bool>)
    ensures |b| == |bits| && forall i :: 0 <= i < |bits| ==> b[i] == (bits[i] != 0)
  {
    seq(|bits|, i requires 0 <= i < |bits| => bits[i] != 0)
  }

  /** `packBitsToBytes`: ceil(n/8) bytes, input bit 8i+j in bit j of byte i,
      unused high bits zero. */
  method PackBitsToBytes(bits: seq<int>) returns (bytes: seq<byte>)
    ensures bytes == Pack(Truthy(bits))
    ensures |bytes| == (|bits| + 7) / 8
    ensures forall p :: 0 <= p < 8 * |bytes| ==> BitAt(bytes, p) == (p < |bits| && bits[p] != 0)
  {
    var bw := new BitWriter();
    for i := 0 to |bits|
      invariant bw.Valid() && fresh(bw)
      invariant bw.Written == Truthy(bits[..i])
    {
      bw.WriteBit(bits[i] != 0);
      assert Truthy(bits[..i + 1]) == Truthy(bits[..i]) + [bits[i] != 0];
    }
    assert bits[..|bits|] == bits;
    bytes := bw.Flush();
    forall p | 0 <= p < 8 * |bytes|
      ensures BitAt(bytes, p) == (p < |bits| && bits[p] != 0)
    {
      PackBitAt(Truthy(bits), p);
    }
  }
}
