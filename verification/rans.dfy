/** `ransEncode` and `ransDecode` of rans.cpp as written: the stream format,
    the two methods with their loops, and what the written code does to a
    round trip. */
module Rans {
  import opened Common
  import opened LittleEndian
  import opened RansModel

  // ---------------------------------------------------------------------
  // Stream format
  // ---------------------------------------------------------------------

  /** The four frequencies, each as a little-endian u16. */
  function FreqBytes(freq: seq<nat>): (b: seq<byte>)
    requires forall k :: 0 <= k < |freq| ==> freq[k] < U16
    ensures |b| == 2 * |freq|
  {
    if freq == [] then [] else FreqBytes(freq[..|freq| - 1]) + U16LE(freq[|freq| - 1])
  }

  /** The 12-byte header: N as a little-endian u32, then freq[0..3]. */
  function Header(n: nat, freq: seq<nat>): (h: seq<byte>)
    requires n < Two32 && HeaderFreqs(freq)
    ensures |h| == 12
  {
    U32LE(n) + FreqBytes(freq)
  }

  /** The frequencies a stream's header holds (bytes 4..11). */
  function HeaderFreqsOf(stream: seq<byte>): (freq: seq<nat>)
    requires |stream| >= 12
    ensures |freq| == 4 && forall k :: 0 <= k < 4 ==> freq[k] < U16
  {
    [ReadU16LE(stream, 4), ReadU16LE(stream, 6), ReadU16LE(stream, 8), ReadU16LE(stream, 10)]
  }

  /** The header of a four-entry table, field by field. */
  lemma HeaderFields(n: nat, freq: seq<nat>)
    requires n < Two32 && HeaderFreqs(freq)
    ensures Header(n, freq) == U32LE(n) + U16LE(freq[0]) + U16LE(freq[1]) + U16LE(freq[2]) + U16LE(freq[3])
  {
    var f1, f2, f3 := freq[..1], freq[..2], freq[..3];
    assert f1[..0] == [];
    assert FreqBytes(f1) == U16LE(freq[0]);
    assert f2[..1] == f1;
    assert FreqBytes(f2) == FreqBytes(f1) + U16LE(freq[1]);
    assert f3[..2] == f2;
    assert FreqBytes(f3) == FreqBytes(f2) + U16LE(freq[2]);
    assert freq[..|freq| - 1] == f3;
    assert FreqBytes(freq) == FreqBytes(f3) + U16LE(freq[3]);
  }

  /** The header reads back as the count and the table, whatever follows it. */
  lemma HeaderReadBack(n: nat, freq: seq<nat>, rest: seq<byte>)
    requires n < Two32 && HeaderFreqs(freq)
    ensures ReadU32LE(Header(n, freq) + rest, 0) == n
    ensures HeaderFreqsOf(Header(n, freq) + rest) == freq
  {
    var a, b, c, d := U16LE(freq[0]), U16LE(freq[1]), U16LE(freq[2]), U16LE(freq[3]);
    HeaderFields(n, freq);
    var out := Header(n, freq) + rest;
    assert out == [] + U32LE(n) + (a + b + c + d + rest);
    U32RoundTrip([], n, a + b + c + d + rest);
    assert out == U32LE(n) + a + (b + c + d + rest);
    U16RoundTrip(U32LE(n), freq[0], b + c + d + rest);
    assert out == (U32LE(n) + a) + b + (c + d + rest);
    U16RoundTrip(U32LE(n) + a, freq[1], c + d + rest);
    assert out == (U32LE(n) + a + b) + c + (d + rest);
    U16RoundTrip(U32LE(n) + a + b, freq[2], d + rest);
    assert out == (U32LE(n) + a + b + c) + d + rest;
    U16RoundTrip(U32LE(n) + a + b + c, freq[3], rest);
  }

  /** A stream made of a header, a payload and a 4-byte state gives back
      each part: N from bytes 0..3, the frequencies from bytes 4..11, the
      payload from byte 12 to the last four, and the state from the last
      four, least significant byte first. */
  lemma StreamLayout(n: nat, freq: seq<nat>, payload: seq<byte>, x: nat)
    requires n < Two32 && HeaderFreqs(freq) && x < Two32
    ensures var out := Header(n, freq) + payload + U32LE(x);
      && |out| == 16 + |payload|
      && ReadU32LE(out, 0) == n
      && HeaderFreqsOf(out) == freq
      && out[12..|out| - 4] == payload
      && out[|out| - 4..] == U32LE(x)
      && ReadU32LE(out, |out| - 4) == x
  {
    var out := Header(n, freq) + payload + U32LE(x);
    assert out == Header(n, freq) + (payload + U32LE(x));
    HeaderReadBack(n, freq, payload + U32LE(x));
    assert out == (Header(n, freq) + payload) + U32LE(x) + [];
    U32RoundTrip(Header(n, freq) + payload, x, []);
  }

  // ---------------------------------------------------------------------
  // Encoder
  // ---------------------------------------------------------------------

  /** The frequency table `ransEncode` builds for a valid, non-empty input. */
  function Freqs(symbols: seq<int>): (freq: seq<nat>)
    requires symbols != [] && AllSymbols(symbols)
    ensures ValidFreqs(freq)
  {
    HistogramSum(symbols);
    NormalizedFreqsValid(Histogram(symbols), Sum4(Histogram(symbols)));
    NormalizedFreqs(Histogram(symbols), Sum4(Histogram(symbols)))
  }

  /** The symbols of an input every element of which is in 0..3. */
  function AsSymbols(symbols: seq<int>): (r: seq<Symbol>)
    requires AllSymbols(symbols)
    ensures r == symbols
  {
    symbols
  }

  /** The symbols the main loop `for (int i = (int)N - 1; i >= 0; --i)`
      visits: all of them, or none once `(int)N - 1` is negative (N above
      2^31). */
  function LoopSymbols(symbols: seq<int>): (r: seq<Symbol>)
    requires AllSymbols(symbols) && |symbols| < Two32
    ensures |symbols| <= 0x8000_0000 ==> r == symbols
    ensures |symbols| > 0x8000_0000 ==> r == []
  {
    if |symbols| <= 0x8000_0000 then AsSymbols(symbols) else []
  }

  /** The whole result of `ransEncode`: an empty stream for an empty input,
      a failure for a symbol outside 0..3, otherwise the header, the bytes
      pushed while encoding the visited symbols last to first from
      x = RANS_L, and the final state. */
  function RansEncoding(symbols: seq<int>): (r: Result<seq<byte>>)
    requires |symbols| < Two32
    ensures symbols == [] ==> r == Ok([])
    ensures r.Err? <==> !AllSymbols(symbols)
    ensures r.Err? ==> r.error == SymbolOutOfRange
  {
    if symbols == [] then Ok([])
    else if !AllSymbols(symbols) then Err(SymbolOutOfRange)
    else
      var freq := Freqs(symbols);
      var e := EncodeFrom(LoopSymbols(symbols), RansL, freq, WrittenFactor);
      Ok(Header(|symbols|, freq) + e.bytes + U32LE(e.x))
  }

  /** The stream of a non-empty input: at least 16 bytes, N and the
      normalised frequencies in the header, and the final state, below 2^27,
      in the last four bytes, least significant byte first. Above 2^31
      symbols the loop is skipped and the state RANS_L follows the header. */
  lemma EncodingLayout(symbols: seq<int>)
    requires 0 < |symbols| < Two32 && AllSymbols(symbols)
    ensures RansEncoding(symbols).Ok?
    ensures var out := RansEncoding(symbols).value;
      var e := EncodeFrom(LoopSymbols(symbols), RansL, Freqs(symbols), WrittenFactor);
      && |out| == 16 + |e.bytes|
      && ReadU32LE(out, 0) == |symbols|
      && HeaderFreqsOf(out) == Freqs(symbols)
      && out[12..|out| - 4] == e.bytes
      && ReadU32LE(out, |out| - 4) == e.x < 0x800_0000
    ensures |symbols| > 0x8000_0000 ==>
      RansEncoding(symbols).value == Header(|symbols|, Freqs(symbols)) + U32LE(RansL)
  {
    var e := EncodeFrom(LoopSymbols(symbols), RansL, Freqs(symbols), WrittenFactor);
    StreamLayout(|symbols|, Freqs(symbols), e.bytes, e.x);
    if |symbols| > 0x8000_0000 {
      assert Header(|symbols|, Freqs(symbols)) + [] + U32LE(RansL)
          == Header(|symbols|, Freqs(symbols)) + U32LE(RansL);
    }
  }

  /** The encoder's renormalisation loop on `x`; `pushed` is what it
      appends to `out`. */
  method RenormEncoder(x0: nat, bound: nat) returns (x: nat, pushed: seq<byte>)
    requires bound >= 1
    ensures Emitted(x, pushed) == Renorm(x0, bound)
  {
    ghost var whole := Renorm(x0, bound);
    x, pushed := x0, [];
    while x >= bound
      invariant Renorm(x, bound).x == whole.x
      invariant pushed + Renorm(x, bound).bytes == whole.bytes
      decreases x
    {
      ghost var rest := Renorm(x / 256, bound);
      assert Renorm(x, bound) == Emitted(rest.x, [x % 256] + rest.bytes);
      assert (pushed + [x % 256]) + rest.bytes == pushed + ([x % 256] + rest.bytes);
      pushed := pushed + [x % 256];
      x := x / 256;
    }
  }

  /** The sum of the first `k` entries. */
  function SumFirst(t: seq<nat>, k: nat): nat
    requires k <= |t|
  {
    if k == 0 then 0 else SumFirst(t, k - 1) + t[k - 1]
  }

  lemma SumFirstFour(t: seq<nat>)
    requires |t| == 4
    ensures SumFirst(t, 4) == Sum4(t)
  {
    assert SumFirst(t, 1) == t[0];
    assert SumFirst(t, 2) == t[0] + t[1];
    assert SumFirst(t, 3) == t[0] + t[1] + t[2];
  }

  /** The scaling loop of step 2: `freqRaw[k]`, 1 for an absent symbol. */
  method ScaleCounts(counts: seq<nat>, sumCounts: nat) returns (freqRaw: seq<nat>)
    requires |counts| == 4 && sumCounts > 0
    ensures freqRaw == ScaledTable(counts, sumCounts)
  {
    freqRaw := [0, 0, 0, 0];
    for k := 0 to 4
      invariant |freqRaw| == 4 && freqRaw[..k] == ScaledTable(counts, sumCounts)[..k]
    {
      if counts[k] == 0 {
        freqRaw := freqRaw[k := 1];
      } else {
        var scaled := counts[k] * TotFreq / sumCounts;
        if scaled == 0 {
          scaled := 1;
        }
        freqRaw := freqRaw[k := scaled];
      }
    }
    assert freqRaw == freqRaw[..4];
  }

  /** The `maxIdx` loop: the first index of a largest entry. */
  method FindMaxIndex(t: seq<nat>) returns (maxIdx: nat)
    requires |t| == 4
    ensures maxIdx == FirstMaxIndex(t)
    ensures forall j :: 0 <= j < 4 ==> t[j] <= t[maxIdx]
  {
    maxIdx := 0;
    for k := 1 to 4
      invariant maxIdx == MaxIndexUpTo(t, k)
    {
      if t[k] > t[maxIdx] {
        maxIdx := k;
      }
    }
    MaxIndexIsFirstMax(t, 4);
  }

  /** The trimming loop of step 2, `break` included. */
  method TrimExcess(t: seq<nat>, diff0: nat) returns (freqRaw: seq<nat>)
    requires |t| == 4
    ensures freqRaw == Trim(t, diff0)
  {
    freqRaw := t;
    var diff := diff0;
    while diff > 0
      invariant |freqRaw| == 4 && Trim(freqRaw, diff) == Trim(t, diff0)
      decreases diff
    {
      var maxIdx := FindMaxIndex(freqRaw);
      if freqRaw[maxIdx] > 1 {
        freqRaw := freqRaw[maxIdx := freqRaw[maxIdx] - 1];
        diff := diff - 1;
      } else {
        break;
      }
    }
  }

  /** Step 2 of `ransEncode`: the scaling loop, the sum, and the shortfall
      added to symbol 0 or the excess trimmed from the largest entries. The
      final zero fix-up and the `uint16_t` casts change nothing, because
      every entry is already between 1 and 4093. */
  method NormalizeFreqs(counts: seq<nat>, sumCounts: nat) returns (freq: seq<nat>)
    requires |counts| == 4 && sumCounts > 0
    ensures freq == NormalizedFreqs(counts, sumCounts)
    ensures ValidFreqs(freq) && forall k :: 0 <= k < 4 ==> 1 <= freq[k] <= 4093
  {
    NormalizedFreqsValid(counts, sumCounts);
    var freqRaw := ScaleCounts(counts, sumCounts);
    var sumFreq := 0;
    for k := 0 to 4
      invariant sumFreq == SumFirst(freqRaw, k)
    {
      sumFreq := sumFreq + freqRaw[k];
    }
    SumFirstFour(freqRaw);
    if sumFreq < TotFreq {
      freqRaw := freqRaw[0 := freqRaw[0] + (TotFreq - sumFreq)];
    } else if sumFreq > TotFreq {
      freqRaw := TrimExcess(freqRaw, sumFreq - TotFreq);
    }
    freq := freqRaw;
  }

  /** Step 3 of `ransEncode` and the same loop in `ransDecode`: the
      cumulative table with `uint16_t` additions. */
  method CumulativeTable(freq: seq<nat>) returns (cum: seq<nat>)
    requires |freq| == 4
    ensures cum == CumTable(freq)
  {
    ghost var table := CumTable(freq);
    cum := [0, 0, 0, 0];
    for k := 1 to 4
      invariant |cum| == 4 && forall j :: 0 <= j < k ==> cum[j] == table[j]
    {
      assert table[k] == (table[k - 1] + freq[k - 1]) % U16;
      cum := cum[k := (cum[k - 1] + freq[k - 1]) % U16];
    }
  }

  /** Step 1 of `ransEncode`: the histogram loop, which fails on the first
      symbol outside 0..3. */
  method CountSymbols(symbols: seq<int>) returns (counts: seq<nat>, ok: bool)
    ensures ok <==> AllSymbols(symbols)
    ensures ok ==> counts == Histogram(symbols)
  {
    counts := [0, 0, 0, 0];
    for i := 0 to |symbols|
      invariant AllSymbols(symbols[..i]) && counts == Histogram(symbols[..i])
    {
      var s := symbols[i];
      if s < 0 || s >= 4 {
        assert !(0 <= symbols[i] < 4);
        return counts, false;
      }
      assert symbols[..i + 1][..i] == symbols[..i];
      counts := counts[s := counts[s] + 1];
    }
    assert symbols[..|symbols|] == symbols;
    ok := true;
  }

  /** Step 4 of `ransEncode`: N, then the four frequencies. */
  method WriteHeader(n: nat, freq: seq<nat>) returns (out: seq<byte>)
    requires n < Two32 && HeaderFreqs(freq)
    ensures out == Header(n, freq)
  {
    out := U32LE(n);
    for k := 0 to 4
      invariant out == U32LE(n) + FreqBytes(freq[..k])
    {
      assert freq[..k + 1][..k] == freq[..k];
      out := out + U16LE(freq[k]);
    }
    assert freq[..4] == freq;
  }

  /** The state update `x = (x / f) * TOTFREQ + x % f + c`. */
  method FoldSymbol(x0: nat, f: nat, c: nat) returns (x: nat)
    requires f >= 1
    ensures x == EncodeCore(x0, f, c)
  {
    var q: nat := x0 / f;
    var rem: nat := x0 % f;
    x := q * TotFreq + rem + c;
  }

  /** One iteration of the main loop: renormalise against `2^15 * f`,
      then fold the symbol into the state. */
  method EncodeOneSymbol(x0: nat, s: Symbol, freq: seq<nat>, cum: seq<nat>) returns (x: nat, bytes: seq<byte>)
    requires ValidFreqs(freq) && cum == CumTable(freq)
    ensures Emitted(x, bytes) == EncodeStep(x0, s, freq, WrittenFactor)
  {
    ValidFreqsBounded(freq);
    var f := freq[s];
    var c := cum[s];
    MulBounds(WrittenFactor, f);
    x, bytes := RenormEncoder(x0, WrittenFactor * f);
    x := FoldSymbol(x, f, c);
  }

  /** Step 5 of `ransEncode`: the symbols last to first from x = RANS_L;
      `pushed` is what the loop appends to `out`. */
  method EncodeSymbols(symbols: seq<int>, freq: seq<nat>, cum: seq<nat>) returns (x: nat, pushed: seq<byte>)
    requires AllSymbols(symbols) && ValidFreqs(freq) && cum == CumTable(freq)
    ensures Emitted(x, pushed) == EncodeFrom(AsSymbols(symbols), RansL, freq, WrittenFactor)
  {
    ghost var syms := AsSymbols(symbols);
    ghost var whole := EncodeFrom(syms, RansL, freq, WrittenFactor);
    x, pushed := RansL, [];
    var i := |symbols|;
    assert syms[..i] == syms;
    while i > 0
      invariant 0 <= i <= |symbols|
      invariant pushed + EncodeFrom(syms[..i], x, freq, WrittenFactor).bytes == whole.bytes
      invariant EncodeFrom(syms[..i], x, freq, WrittenFactor).x == whole.x
    {
      i := i - 1;
      ghost var x1, pushed1 := x, pushed;
      var bytes;
      x, bytes := EncodeOneSymbol(x, symbols[i], freq, cum);
      EncodeFromPeel(syms, i, x1, x, bytes, pushed1, freq, whole);
      pushed := pushed + bytes;
    }
    assert syms[..0] == [];
  }

  /** Encoding the symbols before `i` after symbol `i`'s step continues the
      encoding of the symbols up to `i`. */
  lemma EncodeFromPeel(syms: seq<Symbol>, i: nat, x: nat, x1: nat, bytes: seq<byte>, pushed: seq<byte>,
                       freq: seq<nat>, whole: Emitted)
    requires i < |syms| && ValidFreqs(freq)
    requires Emitted(x1, bytes) == EncodeStep(x, syms[i], freq, WrittenFactor)
    requires pushed + EncodeFrom(syms[..i + 1], x, freq, WrittenFactor).bytes == whole.bytes
    requires EncodeFrom(syms[..i + 1], x, freq, WrittenFactor).x == whole.x
    ensures (pushed + bytes) + EncodeFrom(syms[..i], x1, freq, WrittenFactor).bytes == whole.bytes
    ensures EncodeFrom(syms[..i], x1, freq, WrittenFactor).x == whole.x
  {
    assert syms[..i + 1][..i] == syms[..i];
    var rest := EncodeFrom(syms[..i], x1, freq, WrittenFactor);
    assert EncodeFrom(syms[..i + 1], x, freq, WrittenFactor) == Emitted(rest.x, bytes + rest.bytes);
    assert (pushed + bytes) + rest.bytes == pushed + (bytes + rest.bytes);
  }

  /** The flush loop of `ransEncode`: the state's four bytes, least
      significant first. */
  method FlushState(x0: nat) returns (bytes: seq<byte>)
    requires x0 < Two32
    ensures bytes == U32LE(x0)
  {
    LsbFirstIsU32LE(x0);
    var x := x0;
    bytes := [];
    for k := 0 to 4
      invariant bytes + LsbFirst(x, 4 - k) == U32LE(x0)
    {
      bytes := bytes + [x % 256];
      x := x / 256;
    }
  }

  /** The stream `ransEncode` assembles from the header, the pushed bytes
      and the final state is the one `RansEncoding` describes, once the
      frequencies and the main loop's result agree with it. */
  lemma EncodingAssembled(symbols: seq<int>, freq: seq<nat>, x: nat, pushed: seq<byte>)
    requires 0 < |symbols| < Two32 && AllSymbols(symbols)
    requires freq == Freqs(symbols)
    requires Emitted(x, pushed) == EncodeFrom(LoopSymbols(symbols), RansL, freq, WrittenFactor)
    ensures x < Two32
    ensures RansEncoding(symbols) == Ok(Header(|symbols|, freq) + pushed + U32LE(x))
  {
  }

  /** `ransEncode`. Its main loop runs only while the `int` index
      `(int)N - 1` is not negative. */
  method RansEncode(symbols: seq<int>) returns (r: Result<seq<byte>>)
    requires |symbols| < Two32
    ensures r == RansEncoding(symbols)
  {
    var n := |symbols|;
    if n == 0 {
      return Ok([]);
    }
    var counts, ok := CountSymbols(symbols);
    if !ok {
      return Err(SymbolOutOfRange);
    }
    HistogramSum(symbols);
    var sumCounts := counts[0] + counts[1] + counts[2] + counts[3];
    var freq := NormalizeFreqs(counts, sumCounts);
    assert freq == Freqs(symbols);
    var cum := CumulativeTable(freq);
    var out := WriteHeader(n, freq);
    var x: nat, pushed: seq<byte> := RansL, [];
    if n <= 0x8000_0000 {
      x, pushed := EncodeSymbols(symbols, freq, cum);
    }
    EncodingAssembled(symbols, freq, x, pushed);
    var tail := FlushState(x);
    return Ok(out + pushed + tail);
  }

  // ---------------------------------------------------------------------
  // Decoder
  // ---------------------------------------------------------------------

  /** The decoder's total check: `cum[3] + freq[3]`, with the `uint16_t`
      prefix sums, must be 4096. */
  predicate TotalAccepted(freq: seq<nat>)
    requires |freq| == 4
  {
    CumTable(freq)[3] + freq[3] == TotFreq
  }

  /** The payload bytes still unread when the cursor is at `idx`: those
      between the header and `idx`, none once `idx` is at or below the
      header. */
  function Stack(stream: seq<byte>, idx: nat): (st: seq<byte>)
    requires idx <= |stream|
    ensures idx > 12 ==> st == stream[12..idx]
    ensures idx <= 12 ==> st == []
  {
    if idx > 12 then stream[12..idx] else []
  }

  /** The state after the tail loop has read `i` bytes: byte `|stream|-1-j`
      is shifted by `8*j`, so the last byte lands in the low byte. */
  function TailValue(stream: seq<byte>, i: nat): (x: nat)
    requires i <= 4 <= |stream|
    ensures x < Pow256(i)
  {
    if i == 0 then 0 else TailValue(stream, i - 1) + stream[|stream| - i] as nat * Pow256(i - 1)
  }

  /** The state the decoder starts from is the last four bytes read most
      significant byte first, which is the reverse of the order the encoder
      wrote them in. */
  lemma TailValueReversed(stream: seq<byte>)
    requires |stream| >= 4
    ensures TailValue(stream, 4) == ReadU32LE(Reverse(stream[|stream| - 4..]), 0)
    ensures TailValue(stream, 4) < Two32
  {
    var n := |stream|;
    var t := stream[n - 4..];
    var b0, b1, b2, b3 := t[3] as nat, t[2] as nat, t[1] as nat, t[0] as nat;
    assert Pow256(1) == 0x100 && Pow256(2) == 0x1_0000 && Pow256(3) == 0x100_0000;
    assert TailValue(stream, 1) == b0;
    assert TailValue(stream, 2) == b0 + b1 * 0x100;
    assert TailValue(stream, 3) == b0 + b1 * 0x100 + b2 * 0x1_0000;
    assert TailValue(stream, 4) == b0 + b1 * 0x100 + b2 * 0x1_0000 + b3 * 0x100_0000;
    var rt := Reverse(t);
    assert rt[0] == b0 && rt[1] == b1 && rt[2] == b2 && rt[3] == b3;
  }

  /** The whole result of `ransDecode`. The symbols come out in the order
      opposite to the one they were decoded in, and past 2^31 the loop does
      not run and all N entries stay 0. */
  function RansDecoding(stream: seq<byte>): (r: Result<seq<int>>)
    ensures r == Err(StreamTooShort) <==> |stream| < 12
    ensures r == Err(ZeroFrequency) <==> |stream| >= 12 && 0 in HeaderFreqsOf(stream)
    ensures r == Err(TotalFrequencyMismatch)
            <==> |stream| >= 12 && HeaderFreqs(HeaderFreqsOf(stream)) && !TotalAccepted(HeaderFreqsOf(stream))
    ensures r.Ok? ==> |r.value| == ReadU32LE(stream, 0)
    ensures r.Ok? ==> forall i :: 0 <= i < |r.value| ==> 0 <= r.value[i] < 4
  {
    if |stream| < 12 then Err(StreamTooShort)
    else
      var n := ReadU32LE(stream, 0);
      var freq := HeaderFreqsOf(stream);
      if freq[0] == 0 || freq[1] == 0 || freq[2] == 0 || freq[3] == 0 then Err(ZeroFrequency)
      else if !TotalAccepted(freq) then Err(TotalFrequencyMismatch)
      else if n <= 0x8000_0000 then
        TailValueReversed(stream);
        Ok(Reverse(DecodeSeq(n, TailValue(stream, 4), Stack(stream, |stream| - 4), freq).symbols))
      else Ok(seq(n, _ => 0))
  }

  /** The symbol search of `ransDecode`: the first slot that holds `xm`,
      symbol 0 when none does. */
  method FindSymbol(freq: seq<nat>, cum: seq<nat>, xm: nat) returns (s: Symbol)
    requires |freq| == 4 && cum == CumTable(freq)
    ensures s == Lookup(freq, xm)
  {
    s := 0;
    for k := 0 to 4
      invariant s == 0 && LookupFrom(freq, cum, xm, k) == Lookup(freq, xm)
    {
      var c := cum[k];
      var f := freq[k];
      if xm >= c && xm < c + f {
        s := k;
        break;
      }
    }
  }

  /** The refill loop of `ransDecode`: `x = (x << 8) | stream[--idx]` while
      `x < RANS_L` and the cursor is above the header. */
  method RefillFromStream(x0: nat, stream: seq<byte>, idx0: nat) returns (x: nat, idx: nat)
    requires x0 < Two32 && idx0 <= |stream|
    ensures idx <= idx0 && (x, Stack(stream, idx)) == Refill(x0, Stack(stream, idx0))
  {
    x, idx := x0, idx0;
    while x < RansL && idx > 12
      invariant x < Two32 && idx <= idx0
      invariant Refill(x, Stack(stream, idx)) == Refill(x0, Stack(stream, idx0))
      decreases idx
    {
      assert Stack(stream, idx)[..idx - 13] == Stack(stream, idx - 1);
      idx := idx - 1;
      x := x * 256 + stream[idx];
    }
  }

  /** The header loop of `ransDecode`: four u16 frequencies from byte 4
      on, failing at the first zero. */
  method ReadFreqs(stream: seq<byte>) returns (freq: seq<nat>, ok: bool)
    requires |stream| >= 12
    ensures ok <==> 0 !in HeaderFreqsOf(stream)
    ensures ok ==> freq == HeaderFreqsOf(stream)
  {
    var offset := 4;
    freq := [];
    for k := 0 to 4
      invariant offset == 4 + 2 * k && freq == HeaderFreqsOf(stream)[..k]
      invariant 0 !in freq
    {
      var f := ReadU16LE(stream, offset);
      offset := offset + 2;
      freq := freq + [f];
      if f == 0 {
        assert HeaderFreqsOf(stream)[k] == 0;
        return freq, false;
      }
    }
    assert freq == HeaderFreqsOf(stream);
    ok := true;
  }

  /** The tail loop of `ransDecode`: `x |= stream[--idx] << (8 * i)` for
      i = 0..3. */
  method ReadTail(stream: seq<byte>) returns (x: nat, idx: nat)
    requires |stream| >= 4
    ensures idx == |stream| - 4 && x == TailValue(stream, 4) && x < Two32
  {
    idx := |stream|;
    x := 0;
    for i := 0 to 4
      invariant idx == |stream| - i && x == TailValue(stream, i)
    {
      idx := idx - 1;
      x := x + stream[idx] as nat * Pow256(i);
    }
    TailValueReversed(stream);
  }

  /** One pass of the main loop of `ransDecode`: the symbol lookup, the
      state update modulo 2^32, then the refill loop. */
  method DecodeOneSymbol(x0: nat, stream: seq<byte>, idx0: nat, freq: seq<nat>, cum: seq<nat>)
    returns (s: Symbol, x: nat, idx: nat)
    requires x0 < Two32 && idx0 <= |stream| && |freq| == 4 && cum == CumTable(freq)
    ensures idx <= idx0 && x < Two32
    ensures s == DecodeStep(x0, freq).0
    ensures (x, Stack(stream, idx)) == Refill(DecodeStep(x0, freq).1, Stack(stream, idx0))
  {
    var xMod := x0 % TotFreq;
    var xDiv := x0 / TotFreq;
    s := FindSymbol(freq, cum, xMod);
    var c := cum[s];
    var f := freq[s];
    var xRem := xMod - c;
    x := (f * xDiv + xRem) % Two32;
    x, idx := RefillFromStream(x, stream, idx0);
  }

  /** The main loop of `ransDecode`: `count` steps, the k-th decoded symbol
      stored at `out[count - 1 - k]`; the rest of `out` is untouched. */
  method DecodeInto(out: array<int>, count: nat, x0: nat, stream: seq<byte>, idx0: nat, freq: seq<nat>, cum: seq<nat>)
    requires count <= out.Length && x0 < Two32 && idx0 <= |stream|
    requires |freq| == 4 && cum == CumTable(freq)
    modifies out
    ensures out[..count] == Reverse(DecodeSeq(count, x0, Stack(stream, idx0), freq).symbols)
    ensures forall j :: count <= j < out.Length ==> out[j] == old(out[j])
  {
    ghost var whole := DecodeSeq(count, x0, Stack(stream, idx0), freq).symbols;
    ghost var done: seq<Symbol> := [];
    var x: nat, idx: nat := x0, idx0;
    var left: nat := count;
    while left > 0
      invariant left <= count && x < Two32 && idx <= |stream|
      invariant |done| == count - left
      invariant done + DecodeSeq(left, x, Stack(stream, idx), freq).symbols == whole
      invariant forall j :: left <= j < count ==> out[j] == done[count - 1 - j]
      invariant forall j :: count <= j < out.Length ==> out[j] == old(out[j])
    {
      var s;
      s, x, idx := DecodeSlot(out, left - 1, x, stream, idx, freq, cum, done, whole);
      done := done + [s];
      left := left - 1;
    }
    NothingLeft(done, x, Stack(stream, idx), freq, whole);
    ReversedFill(out, count, whole);
  }

  /** One iteration of the decoder's loop: decode a symbol, store it in
      slot `i`, refill. The decoded prefix grows by that symbol. */
  method DecodeSlot(out: array<int>, i: nat, x0: nat, stream: seq<byte>, idx0: nat, freq: seq<nat>, cum: seq<nat>,
                    ghost done: seq<Symbol>, ghost whole: seq<Symbol>)
    returns (s: Symbol, x: nat, idx: nat)
    requires i < out.Length && x0 < Two32 && idx0 <= |stream|
    requires |freq| == 4 && cum == CumTable(freq)
    requires done + DecodeSeq(i + 1, x0, Stack(stream, idx0), freq).symbols == whole
    modifies out
    ensures x < Two32 && idx <= idx0
    ensures out[i] == s
    ensures forall j :: 0 <= j < out.Length && j != i ==> out[j] == old(out[j])
    ensures (done + [s]) + DecodeSeq(i, x, Stack(stream, idx), freq).symbols == whole
  {
    ghost var stb := Stack(stream, idx0);
    s, x, idx := DecodeOneSymbol(x0, stream, idx0, freq, cum);
    DecodeSeqStep(i, x0, stb, freq, s, x, Stack(stream, idx), done, whole);
    out[i] := s;
  }

  /** Once no symbol is left to decode, the decoded prefix is everything. */
  lemma NothingLeft(done: seq<Symbol>, x: nat, stack: seq<byte>, freq: seq<nat>, whole: seq<Symbol>)
    requires x < Two32 && |freq| == 4
    requires done + DecodeSeq(0, x, stack, freq).symbols == whole
    ensures done == whole
  {
    assert done + [] == done;
  }

  /** A sequence that holds `done` back to front is its reverse. */
  lemma ReversedFill(a: array<int>, n: nat, done: seq<Symbol>)
    requires n == |done| <= a.Length
    requires forall j :: 0 <= j < n ==> a[j] == done[n - 1 - j]
    ensures a[..n] == Reverse(done)
  {
  }

  /** The decoded prefix grows by the symbol of one step. */
  lemma DecodeSeqStep(n: nat, x: nat, stack: seq<byte>, freq: seq<nat>, s: Symbol, x1: nat, stack1: seq<byte>,
                      done: seq<Symbol>, whole: seq<Symbol>)
    requires x < Two32 && |freq| == 4
    requires s == DecodeStep(x, freq).0 && (x1, stack1) == Refill(DecodeStep(x, freq).1, stack)
    requires done + DecodeSeq(n + 1, x, stack, freq).symbols == whole
    ensures x1 < Two32
    ensures (done + [s]) + DecodeSeq(n, x1, stack1, freq).symbols == whole
  {
    var rest := DecodeSeq(n, x1, stack1, freq).symbols;
    assert DecodeSeq(n + 1, x, stack, freq).symbols == [s] + rest;
    assert (done + [s]) + rest == done + ([s] + rest);
  }

  /** `ransDecode`. The loop `for (int i = (int)N - 1; i >= 0; --i)`
      runs N times up to N = 2^31 (where `(int)N - 1` is 2^31 - 1) and not
      at all above, where `(int)N` is negative. */
  method RansDecode(stream: seq<byte>) returns (r: Result<seq<int>>)
    ensures r == RansDecoding(stream)
  {
    if |stream| < 12 {
      return Err(StreamTooShort);
    }
    var n := ReadU32LE(stream, 0);
    var freq, ok := ReadFreqs(stream);
    if !ok {
      return Err(ZeroFrequency);
    }
    var cum := CumulativeTable(freq);
    var totalFreq := cum[3] + freq[3];
    if totalFreq != TotFreq {
      return Err(TotalFrequencyMismatch);
    }
    var x, idx := ReadTail(stream);
    var out := new int[n](_ => 0);
    ghost var zeros := out[..];
    assert zeros == seq(n, _ => 0);
    var count := if n <= 0x8000_0000 then n else 0;
    DecodeInto(out, count, x, stream, idx, freq, cum);
    ghost var symbols := Reverse(DecodeSeq(count, x, Stack(stream, idx), freq).symbols);
    assert out[..] == out[..count] + out[count..];
    if n <= 0x8000_0000 {
      assert out[..] == symbols;
    } else {
      assert out[..] == seq(n, _ => 0);
    }
    return Ok(out[..]);
  }
}

/** What the codec of module Rans does to concrete inputs: the defects a
    round trip runs into, each on the smallest input found for it. */
module RansCounterexamples {
  import opened Common
  import opened LittleEndian
  import opened RansModel
  import opened Rans

  /** `ransEncode` on a concrete input, once its table and main loop are
      known. */
  lemma EncodingIs(symbols: seq<int>, freq: seq<nat>, e: Emitted)
    requires 0 < |symbols| <= 0x8000_0000 && AllSymbols(symbols)
    requires Freqs(symbols) == freq && EncodeFrom(AsSymbols(symbols), RansL, freq, WrittenFactor) == e
    ensures RansEncoding(symbols) == Ok(Header(|symbols|, freq) + e.bytes + U32LE(e.x))
  {
  }

  /** `ransDecode` on a concrete 16-byte stream, once its header, its tail
      and its decoding steps are known. */
  lemma DecodingIs(stream: seq<byte>, n: nat, freq: seq<nat>, x: nat, syms: seq<Symbol>)
    requires |stream| == 16 && n <= 0x8000_0000
    requires ReadU32LE(stream, 0) == n && HeaderFreqsOf(stream) == freq
    requires freq[0] != 0 && freq[1] != 0 && freq[2] != 0 && freq[3] != 0 && TotalAccepted(freq)
    requires TailValue(stream, 4) == x && x < Two32
    requires DecodeSeq(n, x, [], freq).symbols == syms
    ensures RansDecoding(stream) == Ok(Reverse(syms))
  {
    assert Stack(stream, 12) == [];
  }

  /** The table `ransEncode` builds for the input [3]. */
  lemma FreqsOfThree()
    ensures Freqs([3]) == [1, 1, 1, 4093]
  {
    var h := Histogram([3]);
    assert [3][..0] == [];
    assert h == [0, 0, 0, 1];
    var raw := ScaledTable(h, 1);
    assert raw == [1, 1, 1, 4096];
    assert FirstMaxIndex(raw) == 3;
    assert FirstMaxIndex([1, 1, 1, 4095]) == 3;
    assert FirstMaxIndex([1, 1, 1, 4094]) == 3;
    assert Trim(raw, 3) == [1, 1, 1, 4093];
  }

  /** The stream `ransEncode` writes for [3]: the header, no payload, and
      the state 8394758 least significant byte first. */
  lemma EncodeThree()
    ensures RansEncoding([3]) == Ok([1, 0, 0, 0, 1, 0, 1, 0, 1, 0, 253, 15, 6, 24, 128, 0])
  {
    var freq: seq<nat> := [1, 1, 1, 4093];
    HeaderOfThree();
    assert U32LE(8394758) == [6, 24, 128, 0];
    assert Header(1, freq) + [] + U32LE(8394758) == [1, 0, 0, 0, 1, 0, 1, 0, 1, 0, 253, 15, 6, 24, 128, 0];
    FreqsOfThree();
    EncodeFromThree();
    EncodingIs([3], freq, Emitted(8394758, []));
  }

  /** The main loop on [3] pushes nothing and ends in 8394758. */
  lemma EncodeFromThree()
    ensures EncodeFrom(AsSymbols([3]), RansL, [1, 1, 1, 4093], WrittenFactor) == Emitted(8394758, [])
  {
    var freq: seq<nat> := [1, 1, 1, 4093];
    var syms: seq<Symbol> := AsSymbols([3]);
    assert syms[..0] == [];
    assert CumTable(freq)[3] == 3;
    assert Renorm(RansL, WrittenFactor * 4093) == Emitted(RansL, []);
    assert EncodeStep(RansL, 3, freq, WrittenFactor) == Emitted(8394758, []);
  }

  /** The header `ransEncode` writes for [3]. */
  lemma HeaderOfThree()
    ensures Header(1, [1, 1, 1, 4093]) == [1, 0, 0, 0, 1, 0, 1, 0, 1, 0, 253, 15]
  {
    HeaderFields(1, [1, 1, 1, 4093]);
    assert U32LE(1) == [1, 0, 0, 0] && U16LE(1) == [1, 0] && U16LE(4093) == [253, 15];
  }

  /** The final state is written least significant byte first but read
      back with the last byte as the least significant one: the stream of
      [3] holds 8394758 in its last four bytes, the decoder reads 102268928,
      which lies in the slot of symbol 0, so [3] comes back as [0]. */
  lemma TailByteOrderCounterexample()
    ensures RansEncoding([3]) == Ok([1, 0, 0, 0, 1, 0, 1, 0, 1, 0, 253, 15, 6, 24, 128, 0])
    ensures ReadU32LE([1, 0, 0, 0, 1, 0, 1, 0, 1, 0, 253, 15, 6, 24, 128, 0], 12) == 8394758
    ensures TailValue([1, 0, 0, 0, 1, 0, 1, 0, 1, 0, 253, 15, 6, 24, 128, 0], 4) == 102268928
    ensures RansDecoding([1, 0, 0, 0, 1, 0, 1, 0, 1, 0, 253, 15, 6, 24, 128, 0]) == Ok([0])
  {
    DecodingThree();
    EncodeThree();
  }

  /** `ransDecode` on the stream of [3]. */
  lemma DecodingThree()
    ensures TailValue([1, 0, 0, 0, 1, 0, 1, 0, 1, 0, 253, 15, 6, 24, 128, 0], 4) == 102268928
    ensures RansDecoding([1, 0, 0, 0, 1, 0, 1, 0, 1, 0, 253, 15, 6, 24, 128, 0]) == Ok([0])
  {
    var stream: seq<byte> := [1, 0, 0, 0, 1, 0, 1, 0, 1, 0, 253, 15, 6, 24, 128, 0];
    var freq: seq<nat> := [1, 1, 1, 4093];
    assert ReadU32LE(stream, 0) == 1;
    assert HeaderFreqsOf(stream) == freq;
    assert TotalAccepted(freq);
    assert TailValue(stream, 1) == 0;
    assert TailValue(stream, 2) == 128 * 0x100;
    assert TailValue(stream, 3) == 128 * 0x100 + 24 * 0x1_0000;
    assert TailValue(stream, 4) == 102268928;
    assert Lookup(freq, 0) == 0;
    assert DecodeStep(102268928, freq).0 == 0;
    assert DecodeSeq(1, 102268928, [], freq).symbols == [0];
    assert Reverse([0]) == [0];
    DecodingIs(stream, 1, freq, 102268928, [0]);
  }

  /** The table `ransEncode` builds for the input [0, 1, 1]. */
  lemma FreqsOfZeroOneOne()
    ensures Freqs([0, 1, 1]) == [1365, 2729, 1, 1]
  {
    var input := [0, 1, 1];
    assert input[..2] == [0, 1] && input[..2][..1] == [0] && input[..2][..1][..0] == [];
    assert Histogram([0]) == [1, 0, 0, 0];
    assert Histogram([0, 1]) == [1, 1, 0, 0];
    assert Histogram(input) == [1, 2, 0, 0];
    var raw := ScaledTable([1, 2, 0, 0], 3);
    assert raw == [1365, 2730, 1, 1];
    assert MaxIndexUpTo(raw, 2) == 1;
    assert MaxIndexUpTo(raw, 3) == 1;
    assert FirstMaxIndex(raw) == 1;
    assert Trim(raw, 1) == [1365, 2729, 1, 1];
  }

  /** The main loop on [0, 1, 1] pushes nothing and ends in 56706064. */
  lemma EncodeFromZeroOneOne()
    ensures EncodeFrom([0, 1, 1], RansL, [1365, 2729, 1, 1], WrittenFactor) == Emitted(56706064, [])
  {
    var freq: seq<nat> := [1365, 2729, 1, 1];
    var syms: seq<Symbol> := [0, 1, 1];
    assert syms[..2] == [0, 1] && syms[..2][..1] == [0] && syms[..2][..1][..0] == [];
    assert CumTable(freq) == [0, 1365, 4094, 4095];
    assert Renorm(RansL, WrittenFactor * 2729) == Emitted(RansL, []);
    assert EncodeStep(RansL, 1, freq, WrittenFactor) == Emitted(12590764, []);
    assert Renorm(12590764, WrittenFactor * 2729) == Emitted(12590764, []);
    assert EncodeStep(12590764, 1, freq, WrittenFactor) == Emitted(18898100, []);
    assert Renorm(18898100, WrittenFactor * 1365) == Emitted(18898100, []);
    assert EncodeStep(18898100, 0, freq, WrittenFactor) == Emitted(56706064, []);
  }

  /** The stream `ransEncode` writes for [0, 1, 1]: the header, no payload,
      and the state 56706064 least significant byte first. */
  lemma EncodeZeroOneOne()
    ensures RansEncoding([0, 1, 1]) == Ok([3, 0, 0, 0, 85, 5, 169, 10, 1, 0, 1, 0, 16, 68, 97, 3])
  {
    var freq: seq<nat> := [1365, 2729, 1, 1];
    HeaderOfZeroOneOne();
    assert U32LE(56706064) == [16, 68, 97, 3];
    assert Header(3, freq) + [] + U32LE(56706064) == [3, 0, 0, 0, 85, 5, 169, 10, 1, 0, 1, 0, 16, 68, 97, 3];
    assert AsSymbols([0, 1, 1]) == [0, 1, 1];
    FreqsOfZeroOneOne();
    EncodeFromZeroOneOne();
    EncodingIs([0, 1, 1], freq, Emitted(56706064, []));
  }

  /** The header `ransEncode` writes for [0, 1, 1]. */
  lemma HeaderOfZeroOneOne()
    ensures Header(3, [1365, 2729, 1, 1]) == [3, 0, 0, 0, 85, 5, 169, 10, 1, 0, 1, 0]
  {
    HeaderFields(3, [1365, 2729, 1, 1]);
    assert U32LE(3) == [3, 0, 0, 0] && U16LE(1365) == [85, 5] && U16LE(2729) == [169, 10] && U16LE(1) == [1, 0];
  }

  /** The decoder pops 0, 1, 1 from the state the encoder wrote. */
  lemma DecodeWrittenZeroOneOne()
    ensures DecodeSeq(3, 56706064, [], [1365, 2729, 1, 1]).symbols == [0, 1, 1]
  {
    var freq: seq<nat> := [1365, 2729, 1, 1];
    assert CumTable(freq) == [0, 1365, 4094, 4095];
    assert Lookup(freq, 1040) == 0;
    assert DecodeStep(56706064, freq) == (0, 18898100);
    assert Lookup(freq, 3252) == 1;
    assert DecodeStep(18898100, freq) == (1, 12590764);
    assert Lookup(freq, 3756) == 1;
    assert DecodeStep(12590764, freq).0 == 1;
  }

  /** The decoder pops 0, 1, 1 from the state it reads, too. */
  lemma DecodeReadZeroOneOne()
    ensures DecodeSeq(3, 272916739, [], [1365, 2729, 1, 1]).symbols == [0, 1, 1]
  {
    var freq: seq<nat> := [1365, 2729, 1, 1];
    assert CumTable(freq) == [0, 1365, 4094, 4095];
    assert Lookup(freq, 259) == 0;
    assert DecodeStep(272916739, freq) == (0, 90950209);
    assert Lookup(freq, 2625) == 1;
    assert DecodeStep(90950209, freq) == (1, 60595976);
    assert Lookup(freq, 3848) == 1;
    assert DecodeStep(60595976, freq).0 == 1;
  }

  /** `ransDecode` stores the k-th decoded symbol at `out[N-1-k]`, but the
      decoder pops the symbols first to last: [0, 1, 1] decodes in the
      order 0, 1, 1 (from the state as written and from the state as read
      alike) and comes back as [1, 1, 0]. */
  lemma ReversedOutputCounterexample()
    ensures RansEncoding([0, 1, 1]) == Ok([3, 0, 0, 0, 85, 5, 169, 10, 1, 0, 1, 0, 16, 68, 97, 3])
    ensures DecodeSeq(3, 56706064, [], [1365, 2729, 1, 1]).symbols == [0, 1, 1]
    ensures RansDecoding([3, 0, 0, 0, 85, 5, 169, 10, 1, 0, 1, 0, 16, 68, 97, 3]) == Ok([1, 1, 0])
  {
    DecodingZeroOneOne();
    DecodeWrittenZeroOneOne();
    EncodeZeroOneOne();
  }

  /** `ransDecode` on the stream of [0, 1, 1]. */
  lemma DecodingZeroOneOne()
    ensures RansDecoding([3, 0, 0, 0, 85, 5, 169, 10, 1, 0, 1, 0, 16, 68, 97, 3]) == Ok([1, 1, 0])
  {
    var stream: seq<byte> := [3, 0, 0, 0, 85, 5, 169, 10, 1, 0, 1, 0, 16, 68, 97, 3];
    var freq: seq<nat> := [1365, 2729, 1, 1];
    assert ReadU32LE(stream, 0) == 3;
    assert HeaderFreqsOf(stream) == freq;
    assert TotalAccepted(freq);
    assert TailValue(stream, 1) == 3;
    assert TailValue(stream, 2) == 3 + 97 * 0x100;
    assert TailValue(stream, 3) == 3 + 97 * 0x100 + 68 * 0x1_0000;
    assert TailValue(stream, 4) == 272916739;
    assert Reverse([0, 1, 1]) == [1, 1, 0];
    DecodeReadZeroOneOne();
    DecodingIs(stream, 3, freq, 272916739, [0, 1, 1]);
  }

  /** The empty input encodes to the empty stream, which the decoder
      rejects as too short. */
  lemma EmptyInputCounterexample()
    ensures RansEncoding([]) == Ok([])
    ensures RansDecoding([]) == Err(StreamTooShort)
  {
  }

  /** An input with a skewed histogram: seven 0s and one each of 1, 2, 3. */
  const SkewedInput: seq<int> := [0, 0, 0, 1, 0, 0, 2, 0, 0, 3]

  /** The normalised table of `SkewedInput`. */
  const SkewedFreqs: seq<nat> := [2869, 409, 409, 409]

  /** Counting one more symbol adds one to its entry of the histogram. */
  lemma HistogramSnoc(symbols: seq<int>, v: int, h: seq<nat>)
    requires 0 <= v < 4 && Histogram(symbols) == h
    ensures Histogram(symbols + [v]) == h[v := h[v] + 1]
  {
    assert (symbols + [v])[..|symbols|] == symbols;
  }

  /** The histogram of the first five symbols of `SkewedInput`. */
  lemma HistogramOfSkewedHalf()
    ensures Histogram(SkewedInput[..5]) == [4, 1, 0, 0]
  {
    assert SkewedInput[..0] == [];
    HistogramSnoc(SkewedInput[..0], 0, [0, 0, 0, 0]);
    assert SkewedInput[..0] + [0] == SkewedInput[..1];
    HistogramSnoc(SkewedInput[..1], 0, [1, 0, 0, 0]);
    assert SkewedInput[..1] + [0] == SkewedInput[..2];
    HistogramSnoc(SkewedInput[..2], 0, [2, 0, 0, 0]);
    assert SkewedInput[..2] + [0] == SkewedInput[..3];
    HistogramSnoc(SkewedInput[..3], 1, [3, 0, 0, 0]);
    assert SkewedInput[..3] + [1] == SkewedInput[..4];
    HistogramSnoc(SkewedInput[..4], 0, [3, 1, 0, 0]);
    assert SkewedInput[..4] + [0] == SkewedInput[..5];
  }

  /** The histogram of `SkewedInput`. */
  lemma HistogramOfSkewed()
    ensures Histogram(SkewedInput) == [7, 1, 1, 1]
  {
    HistogramOfSkewedHalf();
    HistogramSnoc(SkewedInput[..5], 0, [4, 1, 0, 0]);
    assert SkewedInput[..5] + [0] == SkewedInput[..6];
    HistogramSnoc(SkewedInput[..6], 2, [5, 1, 0, 0]);
    assert SkewedInput[..6] + [2] == SkewedInput[..7];
    HistogramSnoc(SkewedInput[..7], 0, [5, 1, 1, 0]);
    assert SkewedInput[..7] + [0] == SkewedInput[..8];
    HistogramSnoc(SkewedInput[..8], 0, [6, 1, 1, 0]);
    assert SkewedInput[..8] + [0] == SkewedInput[..9];
    HistogramSnoc(SkewedInput[..9], 3, [7, 1, 1, 0]);
    assert SkewedInput[..9] + [3] == SkewedInput[..10];
    assert SkewedInput[..10] == SkewedInput;
  }

  /** The table `ransEncode` builds for `SkewedInput`: the counts 7, 1, 1, 1
      scale to 2867, 409, 409, 409, and the shortfall of 2 goes to symbol 0. */
  lemma FreqsOfSkewed()
    ensures Freqs(SkewedInput) == SkewedFreqs
  {
    HistogramOfSkewed();
    var raw := ScaledTable([7, 1, 1, 1], 10);
    assert raw == [2867, 409, 409, 409];
  }

  /** One step of the encoder under `SkewedFreqs`, from the renormalised
      state `r` and the bytes renormalisation pushed. */
  lemma SkewedStep(x: nat, s: Symbol, r: nat, bytes: seq<byte>, y: nat)
    requires CumTable(SkewedFreqs) == [0, 2869, 3278, 3687]
    requires Renorm(x, WrittenFactor * SkewedFreqs[s]) == Emitted(r, bytes)
    requires y == (r / SkewedFreqs[s]) * TotFreq + r % SkewedFreqs[s] + CumTable(SkewedFreqs)[s]
    ensures EncodeStep(x, s, SkewedFreqs, WrittenFactor) == Emitted(y, bytes)
  {
  }

  /** The encoder's steps on the last five symbols of `SkewedInput`, the
      first five it takes: 157 is not pushed yet, 47 is. */
  lemma EncodeStepsEarly()
    ensures EncodeStep(8388608, 3, SkewedFreqs, WrittenFactor) == Emitted(84012665, [])
    ensures EncodeStep(84012665, 0, SkewedFreqs, WrittenFactor) == Emitted(119941679, [])
    ensures EncodeStep(119941679, 0, SkewedFreqs, WrittenFactor) == Emitted(668523, [47])
    ensures EncodeStep(668523, 2, SkewedFreqs, WrittenFactor) == Emitted(6696359, [])
    ensures EncodeStep(6696359, 0, SkewedFreqs, WrittenFactor) == Emitted(9560177, [])
  {
    assert CumTable(SkewedFreqs) == [0, 2869, 3278, 3687];
    SkewedStep(8388608, 3, 8388608, [], 84012665);
    SkewedStep(84012665, 0, 84012665, [], 119941679);
    assert Renorm(468522, WrittenFactor * 2869) == Emitted(468522, []);
    SkewedStep(119941679, 0, 468522, [47], 668523);
    SkewedStep(668523, 2, 668523, [], 6696359);
    SkewedStep(6696359, 0, 6696359, [], 9560177);
  }

  /** The encoder's steps on the first five symbols of `SkewedInput`, the
      last five it takes: the fourth symbol pushes 157. */
  lemma EncodeStepsLate()
    ensures EncodeStep(9560177, 0, SkewedFreqs, WrittenFactor) == Emitted(13648541, [])
    ensures EncodeStep(13648541, 1, SkewedFreqs, WrittenFactor) == Emitted(535493, [157])
    ensures EncodeStep(535493, 0, SkewedFreqs, WrittenFactor) == Emitted(763715, [])
    ensures EncodeStep(763715, 0, SkewedFreqs, WrittenFactor) == Emitted(1090097, [])
    ensures EncodeStep(1090097, 0, SkewedFreqs, WrittenFactor) == Emitted(1555130, [])
  {
    assert CumTable(SkewedFreqs) == [0, 2869, 3278, 3687];
    SkewedStep(9560177, 0, 9560177, [], 13648541);
    assert Renorm(53314, WrittenFactor * 409) == Emitted(53314, []);
    SkewedStep(13648541, 1, 53314, [157], 535493);
    SkewedStep(535493, 0, 535493, [], 763715);
    SkewedStep(763715, 0, 763715, [], 1090097);
    SkewedStep(1090097, 0, 1090097, [], 1555130);
  }

  /** The main loop on `init + [s]` from `x`: the step on `s`, then the loop
      on `init`. */
  lemma EncodeFromSnoc(init: seq<Symbol>, s: Symbol, x: nat, step: Emitted, rest: Emitted)
    requires EncodeStep(x, s, SkewedFreqs, WrittenFactor) == step
    requires EncodeFrom(init, step.x, SkewedFreqs, WrittenFactor) == rest
    ensures EncodeFrom(init + [s], x, SkewedFreqs, WrittenFactor) == Emitted(rest.x, step.bytes + rest.bytes)
  {
    assert (init + [s])[..|init|] == init;
  }

  /** `SkewedInput` as symbols. */
  const SkewedSymbols: seq<Symbol> := [0, 0, 0, 1, 0, 0, 2, 0, 0, 3]

  /** The main loop on the first three symbols of `SkewedInput`, from the
      state the later symbols leave, ends in 1555130 without a push. */
  lemma EncodeFromSkewedThree()
    ensures EncodeFrom([0, 0, 0], 535493, SkewedFreqs, WrittenFactor) == Emitted(1555130, [])
  {
    EncodeStepsLate();
    assert EncodeFrom([0], 1090097, SkewedFreqs, WrittenFactor) == Emitted(1555130, []) by {
      EncodeFromSnoc([], 0, 1090097, Emitted(1555130, []), Emitted(1555130, []));
      assert [] + [0 as Symbol] == [0];
    }
    assert EncodeFrom([0, 0], 763715, SkewedFreqs, WrittenFactor) == Emitted(1555130, []) by {
      EncodeFromSnoc([0], 0, 763715, Emitted(1090097, []), Emitted(1555130, []));
      assert [0 as Symbol] + [0] == [0, 0];
    }
    EncodeFromSnoc([0, 0], 0, 535493, Emitted(763715, []), Emitted(1555130, []));
    assert [0 as Symbol, 0] + [0] == [0, 0, 0];
  }

  /** The main loop on the first five symbols of `SkewedInput` pushes 157
      at the fourth symbol. */
  lemma EncodeFromSkewedHalf()
    ensures EncodeFrom([0, 0, 0, 1, 0], 9560177, SkewedFreqs, WrittenFactor) == Emitted(1555130, [157])
  {
    EncodeStepsLate();
    EncodeFromSkewedThree();
    assert EncodeFrom([0, 0, 0, 1], 13648541, SkewedFreqs, WrittenFactor) == Emitted(1555130, [157]) by {
      EncodeFromSnoc([0, 0, 0], 1, 13648541, Emitted(535493, [157]), Emitted(1555130, []));
      assert [0 as Symbol, 0, 0] + [1] == [0, 0, 0, 1];
      assert [157] + [] == [157];
    }
    EncodeFromSnoc([0, 0, 0, 1], 0, 9560177, Emitted(13648541, []), Emitted(1555130, [157]));
    assert [0 as Symbol, 0, 0, 1] + [0] == [0, 0, 0, 1, 0];
  }

  /** The main loop on the first seven symbols of `SkewedInput` still
      pushes only 157. */
  lemma EncodeFromSkewedSeven()
    ensures EncodeFrom([0, 0, 0, 1, 0, 0, 2], 668523, SkewedFreqs, WrittenFactor) == Emitted(1555130, [157])
  {
    EncodeStepsEarly();
    EncodeFromSkewedHalf();
    assert EncodeFrom([0, 0, 0, 1, 0, 0], 6696359, SkewedFreqs, WrittenFactor) == Emitted(1555130, [157]) by {
      EncodeFromSnoc([0, 0, 0, 1, 0], 0, 6696359, Emitted(9560177, []), Emitted(1555130, [157]));
      assert [0 as Symbol, 0, 0, 1, 0] + [0] == [0, 0, 0, 1, 0, 0];
    }
    EncodeFromSnoc([0, 0, 0, 1, 0, 0], 2, 668523, Emitted(6696359, []), Emitted(1555130, [157]));
    assert [0 as Symbol, 0, 0, 1, 0, 0] + [2] == [0, 0, 0, 1, 0, 0, 2];
  }

  /** The main loop on `SkewedInput` pushes 47, then 157, and ends in
      1555130. */
  lemma EncodeFromSkewed()
    ensures EncodeFrom(SkewedSymbols, RansL, SkewedFreqs, WrittenFactor) == Emitted(1555130, [47, 157])
  {
    EncodeStepsEarly();
    EncodeFromSkewedSeven();
    assert EncodeFrom([0, 0, 0, 1, 0, 0, 2, 0], 119941679, SkewedFreqs, WrittenFactor) == Emitted(1555130, [47, 157]) by {
      EncodeFromSnoc([0, 0, 0, 1, 0, 0, 2], 0, 119941679, Emitted(668523, [47]), Emitted(1555130, [157]));
      assert [0 as Symbol, 0, 0, 1, 0, 0, 2] + [0] == [0, 0, 0, 1, 0, 0, 2, 0];
      assert [47] + [157] == [47, 157];
    }
    assert EncodeFrom([0, 0, 0, 1, 0, 0, 2, 0, 0], 84012665, SkewedFreqs, WrittenFactor) == Emitted(1555130, [47, 157]) by {
      EncodeFromSnoc([0, 0, 0, 1, 0, 0, 2, 0], 0, 84012665, Emitted(119941679, []), Emitted(1555130, [47, 157]));
      assert [0 as Symbol, 0, 0, 1, 0, 0, 2, 0] + [0] == [0, 0, 0, 1, 0, 0, 2, 0, 0];
    }
    EncodeFromSnoc([0, 0, 0, 1, 0, 0, 2, 0, 0], 3, 8388608, Emitted(84012665, []), Emitted(1555130, [47, 157]));
    assert [0 as Symbol, 0, 0, 1, 0, 0, 2, 0, 0] + [3] == SkewedSymbols;
  }

  /** The first three decoder steps from the state the encoder reaches on
      `SkewedInput`, with the payload it pushed. */
  lemma DecodeSkewed()
    ensures DecodeStep(1555130, SkewedFreqs) == (0, 1090097)
    ensures DecodeSeq(3, 1555130, [47, 157], SkewedFreqs).symbols == [0, 0, 1]
  {
    var freq := SkewedFreqs;
    assert CumTable(freq) == [0, 2869, 3278, 3687];
    assert Lookup(freq, 2746) == 0;
    assert DecodeStep(1555130, freq) == (0, 1090097);
    assert [47, 157][..1] == [47];
    assert Refill(279064989, [47]) == (279064989, [47]);
    assert Refill(1090097, [47, 157]) == (279064989, [47]);
    assert Lookup(freq, 413) == 0;
    assert DecodeStep(279064989, freq) == (0, 195468252);
    assert Refill(195468252, [47]) == (195468252, [47]);
    assert Lookup(freq, 3036) == 1;
    assert DecodeStep(195468252, freq).0 == 1;
  }

  /** The encoder emits while `x >= 2^15 * f`, the decoder refills while
      `x < 2^23`. On `SkewedInput` the encoder folds the first symbol into
      1090097 < 2^23 with no byte pushed; the decoder undoes that step,
      finds 1090097 below 2^23 and refills early, taking the byte 157 that
      the step of the fourth symbol pushed. The third symbol decoded is then
      1, where the input has 0. */
  lemma RenormBoundCounterexample()
    ensures Freqs(SkewedInput) == SkewedFreqs
    ensures RansEncoding(SkewedInput) == Ok(Header(10, SkewedFreqs) + [47, 157] + U32LE(1555130))
    ensures EncodeFrom(SkewedSymbols, RansL, SkewedFreqs, WrittenFactor) == Emitted(1555130, [47, 157])
    ensures DecodeStep(1555130, SkewedFreqs) == (0, 1090097) && 1090097 < RansL
    ensures DecodeSeq(3, 1555130, [47, 157], SkewedFreqs).symbols == [0, 0, 1]
    ensures SkewedInput[..3] == [0, 0, 0]
  {
    FreqsOfSkewed();
    EncodeFromSkewed();
    DecodeSkewed();
    EncodingIs(SkewedInput, SkewedFreqs, Emitted(1555130, [47, 157]));
  }

  /** The decoder checks the total with `uint16_t` prefix sums, so a header
      whose frequencies add up to 69632 passes it; the slots of symbols 0
      and 2 then overlap. */
  lemma WrappedHeaderCounterexample()
    ensures HeaderFreqs([65535, 1, 2048, 2048]) && TotalAccepted([65535, 1, 2048, 2048])
    ensures Sum4([65535, 1, 2048, 2048]) == 69632 && !ValidFreqs([65535, 1, 2048, 2048])
    ensures InSlot([65535, 1, 2048, 2048], CumTable([65535, 1, 2048, 2048]), 100, 0)
    ensures InSlot([65535, 1, 2048, 2048], CumTable([65535, 1, 2048, 2048]), 100, 2)
  {
    assert CumTable([65535, 1, 2048, 2048]) == [0, 65535, 0, 2048];
  }
}

