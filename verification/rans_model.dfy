/** The static 4-symbol rANS model of rans.cpp, shared by the encoder and
    the decoder: the normalised frequency table, the cumulative table, the
    symbol lookup, and the encoder and decoder steps with their byte-wise
    renormalisation. The stream-level codec (as written) is in module Rans,
    a corrected codec in module RansCorrected. */
module RansModel {
  import opened Common

  /** RANS_L: the lower bound of the normalised state interval. */
  const RansL: nat := 0x80_0000

  /** TOTFREQ: the frequencies add up to 2^12. */
  const TotFreq: nat := 0x1000

  /** `RANS_L >> 8`: the factor of the encoder's renormalisation bound as
      written (emit while x >= 2^15 * f). */
  const WrittenFactor: nat := 0x8000

  /** `(RANS_L >> 12) << 8`: the factor that matches the decoder's refill
      bound RANS_L (emit while x >= 2^19 * f). */
  const MatchedFactor: nat := 0x8_0000

  /** The range of a `uint16_t`. */
  const U16: nat := 0x1_0000

  // ---------------------------------------------------------------------
  // Histogram and normalisation
  // ---------------------------------------------------------------------

  function Sum4(t: seq<nat>): nat
    requires |t| == 4
  {
    t[0] + t[1] + t[2] + t[3]
  }

  /** A normalised table: four nonzero frequencies adding up to 4096. */
  predicate ValidFreqs(freq: seq<nat>)
  {
    |freq| == 4 && 1 <= freq[0] && 1 <= freq[1] && 1 <= freq[2] && 1 <= freq[3]
    && Sum4(freq) == TotFreq
  }

  /** The number of occurrences of symbol `k`. */
  function Occurrences(symbols: seq<int>, k: int): nat
  {
    if symbols == [] then 0
    else Occurrences(symbols[..|symbols| - 1], k) + (if symbols[|symbols| - 1] == k then 1 else 0)
  }

  /** `counts` after the histogram loop. */
  function Histogram(symbols: seq<int>): (h: seq<nat>)
    ensures |h| == 4
  {
    [Occurrences(symbols, 0), Occurrences(symbols, 1), Occurrences(symbols, 2), Occurrences(symbols, 3)]
  }

  /** Every symbol of the alphabet is counted once, so the histogram adds up
      to the input length (the "empty histogram" check cannot fire for a
      non-empty input). */
  lemma {:induction false} HistogramSum(symbols: seq<int>)
    requires AllSymbols(symbols)
    ensures Sum4(Histogram(symbols)) == |symbols|
  {
    if symbols != [] {
      var init := symbols[..|symbols| - 1];
      assert AllSymbols(init) by {
        forall i | 0 <= i < |init| ensures 0 <= init[i] < 4 {
          assert init[i] == symbols[i];
        }
      }
      HistogramSum(init);
    }
  }

  /** `freqRaw[k]` after scaling: 1 for an absent symbol, otherwise
      `counts[k] * 4096 / sumCounts` rounded down and raised to 1. */
  function Scaled(count: nat, sum: nat): (f: nat)
    requires sum > 0
    ensures f >= 1
    ensures count > 0 ==> f == (if count * TotFreq / sum == 0 then 1 else count * TotFreq / sum)
  {
    if count == 0 then 1
    else
      var scaled := count * TotFreq / sum;
      if scaled == 0 then 1 else scaled
  }

  function ScaledTable(counts: seq<nat>, sum: nat): (t: seq<nat>)
    requires |counts| == 4 && sum > 0
    ensures |t| == 4 && 1 <= t[0] && 1 <= t[1] && 1 <= t[2] && 1 <= t[3]
  {
    [Scaled(counts[0], sum), Scaled(counts[1], sum), Scaled(counts[2], sum), Scaled(counts[3], sum)]
  }

  /** The index the `maxIdx` loop finds among the first `n` entries: the
      first strict improvement wins, so ties go to the lowest index. */
  function MaxIndexUpTo(t: seq<nat>, n: nat): (m: nat)
    requires 1 <= n <= |t|
    ensures m < n
  {
    if n == 1 then 0
    else
      var m := MaxIndexUpTo(t, n - 1);
      if t[n - 1] > t[m] then n - 1 else m
  }

  /** The first index of a largest entry. */
  lemma {:induction false} MaxIndexIsFirstMax(t: seq<nat>, n: nat)
    requires 1 <= n <= |t|
    ensures forall j :: 0 <= j < n ==> t[j] <= t[MaxIndexUpTo(t, n)]
    ensures forall j :: 0 <= j < MaxIndexUpTo(t, n) ==> t[j] < t[MaxIndexUpTo(t, n)]
  {
    if n > 1 {
      MaxIndexIsFirstMax(t, n - 1);
    }
  }

  function FirstMaxIndex(t: seq<nat>): (m: nat)
    requires |t| == 4
    ensures m < 4
  {
    MaxIndexUpTo(t, 4)
  }

  /** The trimming loop: `diff` times, take one from the first largest
      entry, stopping early (the `break`) if that entry is 1. */
  function Trim(t: seq<nat>, diff: nat): (r: seq<nat>)
    requires |t| == 4
    ensures |r| == 4
    decreases diff
  {
    if diff == 0 then t
    else
      var m := FirstMaxIndex(t);
      if t[m] > 1 then Trim(t[m := t[m] - 1], diff - 1) else t
  }

  /** The normalised frequencies: the scaled table, with the shortfall added
      to symbol 0 or the excess trimmed from the largest entries. */
  function NormalizedFreqs(counts: seq<nat>, sum: nat): (freq: seq<nat>)
    requires |counts| == 4 && sum > 0
  {
    var raw := ScaledTable(counts, sum);
    var total := Sum4(raw);
    if total < TotFreq then raw[0 := raw[0] + (TotFreq - total)]
    else if total > TotFreq then Trim(raw, total - TotFreq)
    else raw
  }

  /** Trimming from a table of nonzero entries that exceeds 4096 by `diff`
      always reaches 4096: while the sum exceeds 4 the largest entry is above
      1, so the `break` is never taken. */
  lemma {:induction false} TrimReachesTotal(t: seq<nat>, diff: nat)
    requires |t| == 4 && 1 <= t[0] && 1 <= t[1] && 1 <= t[2] && 1 <= t[3]
    requires Sum4(t) == TotFreq + diff
    ensures ValidFreqs(Trim(t, diff))
    decreases diff
  {
    if diff > 0 {
      var m := FirstMaxIndex(t);
      MaxIndexIsFirstMax(t, 4);
      assert t[m] > 1;
      TrimReachesTotal(t[m := t[m] - 1], diff - 1);
    }
  }

  /** For every histogram of a non-empty input the four frequencies are each
      between 1 and 4093 and add up to exactly 4096. */
  lemma NormalizedFreqsValid(counts: seq<nat>, sum: nat)
    requires |counts| == 4 && sum > 0
    ensures ValidFreqs(NormalizedFreqs(counts, sum))
    ensures forall k :: 0 <= k < 4 ==> 1 <= NormalizedFreqs(counts, sum)[k] <= 4093
  {
    var raw := ScaledTable(counts, sum);
    var freq := NormalizedFreqs(counts, sum);
    if Sum4(raw) > TotFreq {
      TrimReachesTotal(raw, Sum4(raw) - TotFreq);
    } else {
      assert ValidFreqs(freq);
    }
    ValidFreqsBounded(freq);
  }

  /** Four frequencies of at least 1 adding up to 4096 are each at most 4093. */
  lemma ValidFreqsBounded(freq: seq<nat>)
    requires ValidFreqs(freq)
    ensures forall k :: 0 <= k < 4 ==> 1 <= freq[k] <= 4093
  {
  }

  // ---------------------------------------------------------------------
  // Cumulative table and lookup
  // ---------------------------------------------------------------------

  /** `cum`, built with `uint16_t` additions: `cum[k] = cum[k-1] + freq[k-1]`
      modulo 2^16. */
  function CumTable(freq: seq<nat>): (cum: seq<nat>)
    requires |freq| == 4
    ensures |cum| == 4 && cum[0] == 0
    ensures forall k :: 0 <= k < 4 ==> cum[k] < U16
  {
    var c1 := freq[0] % U16;
    var c2 := (c1 + freq[1]) % U16;
    var c3 := (c2 + freq[2]) % U16;
    [0, c1, c2, c3]
  }

  /** For a normalised table nothing wraps: `cum` is the prefix sum. */
  lemma CumIsPrefixSum(freq: seq<nat>)
    requires ValidFreqs(freq)
    ensures CumTable(freq) == [0, freq[0], freq[0] + freq[1], freq[0] + freq[1] + freq[2]]
  {
  }

  /** The header frequencies the decoder accepts before its total check:
      `uint16_t` values, none of them 0. */
  predicate HeaderFreqs(freq: seq<nat>)
  {
    |freq| == 4 && 1 <= freq[0] < U16 && 1 <= freq[1] < U16 && 1 <= freq[2] < U16
    && 1 <= freq[3] < U16
  }

  /** `x_mod` lies in the slot `[cum[k], cum[k] + freq[k])` of symbol k. */
  predicate InSlot(freq: seq<nat>, cum: seq<nat>, xm: nat, k: nat)
    requires |freq| == 4 && |cum| == 4 && k < 4
  {
    cum[k] <= xm < cum[k] + freq[k]
  }

  /** The decoder's linear search from index `k` on: the first slot that
      holds `xm`, or 0 when none does. */
  function LookupFrom(freq: seq<nat>, cum: seq<nat>, xm: nat, k: nat): (s: nat)
    requires |freq| == 4 && |cum| == 4 && k <= 4
    ensures s < 4
    ensures InSlot(freq, cum, xm, s) || (s == 0 && forall j :: k <= j < 4 ==> !InSlot(freq, cum, xm, j))
    ensures InSlot(freq, cum, xm, s) ==> forall j :: k <= j < s ==> !InSlot(freq, cum, xm, j)
    decreases 4 - k
  {
    if k == 4 then 0
    else if InSlot(freq, cum, xm, k) then k
    else LookupFrom(freq, cum, xm, k + 1)
  }

  /** The symbol the decoder reads off `x_mod`. */
  function Lookup(freq: seq<nat>, xm: nat): (s: Symbol)
    requires |freq| == 4
    ensures CumTable(freq)[s] <= xm
  {
    LookupFrom(freq, CumTable(freq), xm, 0)
  }

  /** For a normalised table the slots partition [0, 4096): every `x_mod`
      lies in exactly one slot, and the search returns that one. */
  lemma LookupPartition(freq: seq<nat>, xm: nat, s: Symbol)
    requires ValidFreqs(freq) && xm < TotFreq
    ensures Lookup(freq, xm) == s <==> InSlot(freq, CumTable(freq), xm, s)
  {
    CumIsPrefixSum(freq);
  }

  // ---------------------------------------------------------------------
  // Encoder step
  // ---------------------------------------------------------------------

  /** A state together with the bytes pushed on the way. */
  datatype Emitted = Emitted(x: nat, bytes: seq<byte>)

  /** The encoder's renormalisation loop: while `x >= bound`, push the low
      byte of `x` and shift it right by a byte. */
  function Renorm(x: nat, bound: nat): (e: Emitted)
    requires bound >= 1
    ensures e.x < bound && e.x <= x
    ensures x < bound <==> e.bytes == []
    decreases x
  {
    if x >= bound then
      var rest := Renorm(x / 256, bound);
      Emitted(rest.x, [x % 256] + rest.bytes)
    else Emitted(x, [])
  }

  /** The bytes pushed by renormalisation, read back most recent first,
      rebuild the state: the pushed bytes are the low bytes of `x`. */
  lemma {:induction false} RenormBytes(x: nat, bound: nat)
    requires bound >= 1
    ensures x == Renorm(x, bound).x * Pow256(|Renorm(x, bound).bytes|)
                 + LsbValueOf(Renorm(x, bound).bytes)
    decreases x
  {
    if x >= bound {
      var rest := Renorm(x / 256, bound);
      RenormBytes(x / 256, bound);
      var k := |rest.bytes|;
      assert x == 256 * (x / 256) + x % 256;
      assert 256 * (rest.x * Pow256(k)) == rest.x * Pow256(k + 1);
    }
  }

  /** The number whose little-endian bytes are `bytes`. */
  function LsbValueOf(bytes: seq<byte>): nat
  {
    if bytes == [] then 0 else bytes[0] as nat + 256 * LsbValueOf(bytes[1..])
  }

  /** `x = (x / f) * TOTFREQ + x % f + c`. */
  function EncodeCore(x: nat, f: nat, c: nat): nat
    requires f >= 1
  {
    (x / f) * TotFreq + x % f + c
  }

  lemma DivBelow(x: nat, f: nat, k: nat)
    requires f >= 1 && x < k * f
    ensures x / f < k
  {
    var q := x / f;
    assert f * q <= x;
    MulBounds(f, k - q);
  }

  /** After renormalisation `x < factor * f`, so the new state stays below
      `factor * 4096` (2^27 as written, 2^31 for the matched factor) and the
      32-bit arithmetic never wraps. */
  lemma CoreBound(x: nat, f: nat, c: nat, factor: nat)
    requires f >= 1 && c + f <= TotFreq && x < factor * f
    ensures EncodeCore(x, f, c) < factor * TotFreq
  {
    DivBelow(x, f, factor);
  }

  /** One encoder step: renormalise against `factor * f`, then fold the
      symbol into the state. */
  function EncodeStep(x: nat, s: Symbol, freq: seq<nat>, factor: nat): (e: Emitted)
    requires ValidFreqs(freq) && 1 <= factor
    ensures e.x < factor * TotFreq
  {
    var f := freq[s];
    CumIsPrefixSum(freq);
    MulBounds(factor, f);
    var r := Renorm(x, factor * f);
    CoreBound(r.x, f, CumTable(freq)[s], factor);
    Emitted(EncodeCore(r.x, f, CumTable(freq)[s]), r.bytes)
  }

  /** The encoder's main loop over `symbols`, last symbol first, from the
      state `x`. */
  function EncodeFrom(symbols: seq<Symbol>, x: nat, freq: seq<nat>, factor: nat): (e: Emitted)
    requires ValidFreqs(freq) && 1 <= factor
    ensures symbols != [] ==> e.x < factor * TotFreq
    ensures symbols == [] ==> e == Emitted(x, [])
  {
    if symbols == [] then Emitted(x, [])
    else
      var step := EncodeStep(x, symbols[|symbols| - 1], freq, factor);
      var rest := EncodeFrom(symbols[..|symbols| - 1], step.x, freq, factor);
      Emitted(rest.x, step.bytes + rest.bytes)
  }

  // ---------------------------------------------------------------------
  // Decoder step
  // ---------------------------------------------------------------------

  /** One decoder step on a 32-bit state: the symbol whose slot holds
      `x % 4096`, and the state `f * (x / 4096) + (x % 4096 - c)` modulo
      2^32. */
  function DecodeStep(x: nat, freq: seq<nat>): (r: (Symbol, nat))
    requires |freq| == 4
    ensures r.1 < Two32
  {
    var xm := x % TotFreq;
    var s := Lookup(freq, xm);
    (s, (freq[s] * (x / TotFreq) + (xm - CumTable(freq)[s])) % Two32)
  }

  /** The per-step inversion: after renormalisation (`x < 2^19 * f`, which
      covers the written bound 2^15 * f) decoding the encoder's new state
      gives back the symbol and the state exactly. */
  lemma StepInverts(x: nat, s: Symbol, freq: seq<nat>)
    requires ValidFreqs(freq) && x < MatchedFactor * freq[s]
    ensures DecodeStep(EncodeCore(x, freq[s], CumTable(freq)[s]), freq) == (s, x)
  {
    var f, c := freq[s], CumTable(freq)[s];
    CumIsPrefixSum(freq);
    var q, r := x / f, x % f;
    var y := EncodeCore(x, f, c);
    DivModUnique(y, TotFreq, q, r + c);
    LookupPartition(freq, r + c, s);
    assert x == f * q + r;
    CoreBound(x, f, c, MatchedFactor);
    DivModUnique(f * q + r, Two32, 0, x);
  }

  /** The decoder's refill loop on the unread payload `stack` (the bytes
      between the header and the cursor, the last one read first): while
      `x < RANS_L` and a byte is left, `x = (x << 8) | byte`. */
  function Refill(x: nat, stack: seq<byte>): (r: (nat, seq<byte>))
    requires x < Two32
    ensures r.0 < Two32
    ensures stack == [] ==> r == (x, stack)
    ensures |r.1| <= |stack|
    decreases |stack|
  {
    if x < RansL && stack != [] then
      Refill(x * 256 + stack[|stack| - 1], stack[..|stack| - 1])
    else (x, stack)
  }

  /** The decoder's result after some steps: the symbols in the order they
      were decoded, the state and the unread payload. */
  datatype Decoded = Decoded(symbols: seq<Symbol>, x: nat, stack: seq<byte>)

  /** `n` decoder steps, each followed by a refill. */
  function DecodeSeq(n: nat, x: nat, stack: seq<byte>, freq: seq<nat>): (d: Decoded)
    requires x < Two32 && |freq| == 4
    ensures |d.symbols| == n && d.x < Two32 && |d.stack| <= |stack|
  {
    if n == 0 then Decoded([], x, stack)
    else
      var (s, x1) := DecodeStep(x, freq);
      var (x2, st2) := Refill(x1, stack);
      var rest := DecodeSeq(n - 1, x2, st2, freq);
      Decoded([s] + rest.symbols, rest.x, rest.stack)
  }

  /** Decoding `n + 1` symbols is decoding `n` and then one more. */
  lemma {:induction false} DecodeSeqSnoc(n: nat, x: nat, stack: seq<byte>, freq: seq<nat>)
    requires x < Two32 && |freq| == 4
    ensures var d := DecodeSeq(n, x, stack, freq);
            var (s, x1) := DecodeStep(d.x, freq);
            var (x2, st2) := Refill(x1, d.stack);
            DecodeSeq(n + 1, x, stack, freq) == Decoded(d.symbols + [s], x2, st2)
  {
    if n > 0 {
      var (s, x1) := DecodeStep(x, freq);
      var (x2, st2) := Refill(x1, stack);
      DecodeSeqSnoc(n - 1, x2, st2, freq);
      var d := DecodeSeq(n - 1, x2, st2, freq);
      var (s', x1') := DecodeStep(d.x, freq);
      assert [s] + (d.symbols + [s']) == ([s] + d.symbols) + [s'];
    }
  }
}
