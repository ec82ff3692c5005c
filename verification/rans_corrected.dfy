/** The rANS codec with the defects of `ransEncode`/`ransDecode` repaired:
    the encoder renormalises against `2^19 * f`, which matches the
    decoder's refill bound RANS_L; the decoder reads the final state
    little-endian, as it was written; the symbols come out in input order;
    the header check adds the frequencies without wrapping; and the empty
    stream decodes to the empty input. For every input of symbols 0..3 the
    decoder gives back the encoder's input. */
module RansCorrected {
  import opened Common
  import opened LittleEndian
  import opened RansModel
  import opened Rans

  /** The encoder with the matched renormalisation bound. */
  function CorrectedEncoding(symbols: seq<int>): (r: Result<seq<byte>>)
    requires |symbols| < Two32
    ensures symbols == [] ==> r == Ok([])
    ensures r.Err? <==> !AllSymbols(symbols)
    ensures r.Err? ==> r.error == SymbolOutOfRange
    ensures r.Ok? && symbols != [] ==> |r.value| >= 16
  {
    if symbols == [] then Ok([])
    else if !AllSymbols(symbols) then Err(SymbolOutOfRange)
    else
      var freq := Freqs(symbols);
      var e := EncodeFrom(AsSymbols(symbols), RansL, freq, MatchedFactor);
      Ok(Header(|symbols|, freq) + e.bytes + U32LE(e.x))
  }

  /** The decoder: the state from the last four bytes little-endian, the
      payload between the header and the state, the symbols in the order
      they are decoded. It accepts exactly the tables the encoder writes. */
  function CorrectedDecoding(stream: seq<byte>): (r: Result<seq<int>>)
    ensures stream == [] ==> r == Ok([])
    ensures r == Err(StreamTooShort) <==> 0 < |stream| < 16
    ensures r.Ok? && stream != [] ==> ValidFreqs(HeaderFreqsOf(stream))
    ensures r.Ok? && stream != [] ==> |r.value| == ReadU32LE(stream, 0)
    ensures r.Ok? ==> AllSymbols(r.value)
  {
    if stream == [] then Ok([])
    else if |stream| < 16 then Err(StreamTooShort)
    else
      var freq := HeaderFreqsOf(stream);
      if freq[0] == 0 || freq[1] == 0 || freq[2] == 0 || freq[3] == 0 then Err(ZeroFrequency)
      else if Sum4(freq) != TotFreq then Err(TotalFrequencyMismatch)
      else
        var d := DecodeSeq(ReadU32LE(stream, 0), ReadU32LE(stream, |stream| - 4), stream[12..|stream| - 4], freq);
        Ok(d.symbols)
  }

  /** Renormalisation never takes a state that reached `bound` below
      `bound / 256`. */
  lemma {:induction false} RenormLowerBound(x: nat, bound: nat)
    requires bound >= 1 && x >= bound
    ensures Renorm(x, bound).x >= bound / 256
    decreases x
  {
    if x / 256 >= bound {
      RenormLowerBound(x / 256, bound);
    }
  }

  /** The refill loop undoes the encoder's renormalisation: with the state
      below 2^31, every shifted state is below RANS_L, so the decoder pops
      exactly the bytes that were pushed, most recent first, and ends
      where the encoder started. */
  lemma {:induction false} RefillUndoesRenorm(x: nat, bound: nat, pre: seq<byte>)
    requires bound >= 1 && x < 0x8000_0000
    ensures Refill(Renorm(x, bound).x, pre + Renorm(x, bound).bytes) == Refill(x, pre)
    decreases x
  {
    var r := Renorm(x, bound);
    if x >= bound {
      var rest := Renorm(x / 256, bound);
      var b: byte := x % 256;
      RefillUndoesRenorm(x / 256, bound, pre + [b]);
      assert pre + r.bytes == (pre + [b]) + rest.bytes;
      var st := pre + [b];
      assert st[..|st| - 1] == pre;
      assert (x / 256) * 256 + b == x;
    } else {
      assert pre + r.bytes == pre;
    }
  }

  lemma DivAtLeast(v: nat, f: nat, k: nat)
    requires f >= 1 && v >= k * f
    ensures v / f >= k
  {
    var q := v / f;
    assert v == f * q + v % f;
    if q < k {
      MulBounds(f, k - q);
    }
  }

  /** With `f <= 4096` folding a symbol in never lowers the state. */
  lemma CoreAtLeastState(x: nat, f: nat, c: nat)
    requires 1 <= f <= TotFreq
    ensures EncodeCore(x, f, c) >= x
  {
    var q, t := x / f, x % f;
    assert x == f * q + t;
    var g: nat := TotFreq - f;
    assert q * TotFreq == q * f + q * g;
  }

  /** A state of at least `k * f` folds into one of at least `k * 4096`. */
  lemma CoreAtLeastMultiple(x: nat, f: nat, c: nat, k: nat)
    requires 1 <= f && x >= k * f
    ensures EncodeCore(x, f, c) >= k * TotFreq
  {
    DivAtLeast(x, f, k);
    assert (x / f - k) * TotFreq >= 0;
  }

  /** With the matched bound an encoder step keeps the state in
      [RANS_L, 2^31). */
  lemma StepKeepsInterval(x: nat, s: Symbol, freq: seq<nat>)
    requires ValidFreqs(freq) && RansL <= x < 0x8000_0000
    ensures RansL <= EncodeStep(x, s, freq, MatchedFactor).x < 0x8000_0000
  {
    var f := freq[s];
    var c := CumTable(freq)[s];
    var bound := MatchedFactor * f;
    var r := Renorm(x, bound);
    assert EncodeStep(x, s, freq, MatchedFactor).x == EncodeCore(r.x, f, c);
    if x >= bound {
      RenormLowerBound(x, bound);
      assert bound / 256 == 0x800 * f;
      CoreAtLeastMultiple(r.x, f, c, 0x800);
    } else {
      CoreAtLeastState(x, f, c);
    }
  }

  /** One decoder step followed by a refill undoes one encoder step with
      the matched bound: the symbol, the state and the payload below the
      step's bytes all come back. */
  lemma DecodeUndoesStep(x: nat, s: Symbol, pre: seq<byte>, freq: seq<nat>)
    requires ValidFreqs(freq) && RansL <= x < 0x8000_0000
    ensures EncodeStep(x, s, freq, MatchedFactor).x < Two32
    ensures var step := EncodeStep(x, s, freq, MatchedFactor);
            DecodeStep(step.x, freq).0 == s
            && Refill(DecodeStep(step.x, freq).1, pre + step.bytes) == (x, pre)
  {
    var f, c := freq[s], CumTable(freq)[s];
    var r := Renorm(x, MatchedFactor * f);
    assert EncodeStep(x, s, freq, MatchedFactor) == Emitted(EncodeCore(r.x, f, c), r.bytes);
    StepKeepsInterval(x, s, freq);
    StepInverts(r.x, s, freq);
    RefillUndoesRenorm(x, MatchedFactor * f, pre);
  }

  /** The heart of the round trip: encoding `syms` from a state in
      [RANS_L, 2^31) on top of the payload `pre`, then decoding as many
      symbols, gives back the symbols in order, the state and `pre`. */
  lemma {:induction false} RoundTripFrom(syms: seq<Symbol>, x: nat, pre: seq<byte>, freq: seq<nat>)
    requires ValidFreqs(freq) && RansL <= x < 0x8000_0000
    ensures EncodeFrom(syms, x, freq, MatchedFactor).x < 0x8000_0000
    ensures var e := EncodeFrom(syms, x, freq, MatchedFactor);
            DecodeSeq(|syms|, e.x, pre + e.bytes, freq) == Decoded(syms, x, pre)
    decreases |syms|
  {
    if syms == [] {
      assert pre + [] == pre;
    } else {
      var n := |syms|;
      var init, s := syms[..n - 1], syms[n - 1];
      var step := EncodeStep(x, s, freq, MatchedFactor);
      StepKeepsInterval(x, s, freq);
      var rest := EncodeFrom(init, step.x, freq, MatchedFactor);
      var e := EncodeFrom(syms, x, freq, MatchedFactor);
      assert e == Emitted(rest.x, step.bytes + rest.bytes);
      var mid := pre + step.bytes;
      var stack := mid + rest.bytes;
      assert pre + e.bytes == stack;
      assert DecodeSeq(|init|, rest.x, stack, freq) == Decoded(init, step.x, mid) by {
        RoundTripFrom(init, step.x, mid, freq);
      }
      assert DecodeSeq(n, rest.x, stack, freq) == Decoded(syms, x, pre) by {
        DecodeSeqSnoc(|init|, rest.x, stack, freq);
        DecodeUndoesStep(x, s, pre, freq);
        assert init + [s] == syms;
      }
    }
  }

  /** The round trip: the corrected decoder gives back every input of
      symbols 0..3 that the corrected encoder accepts. */
  lemma RoundTrip(symbols: seq<int>)
    requires |symbols| < Two32 && AllSymbols(symbols)
    ensures CorrectedEncoding(symbols).Ok?
    ensures CorrectedDecoding(CorrectedEncoding(symbols).value) == Ok(symbols)
  {
    if symbols != [] {
      var freq := Freqs(symbols);
      var syms := AsSymbols(symbols);
      var e := EncodeFrom(syms, RansL, freq, MatchedFactor);
      RoundTripFrom(syms, RansL, [], freq);
      assert [] + e.bytes == e.bytes;
      StreamLayout(|symbols|, freq, e.bytes, e.x);
    }
  }
}
