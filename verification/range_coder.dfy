/** The toy binary range coder of cabac.cpp (`arithEncodeBits` /
    `arithDecodeBits`): a static two-symbol model taken from the bin counts,
    32-bit `low`/`range`/`code` registers, byte-wise renormalisation while
    `range < 2^24`, a 12-byte header and a 4-byte flush of `low`. */
module RangeCoder {
  import opened Common
  import opened LittleEndian

  /** 2^24: renormalisation runs while `range` is below it. */
  const Top: nat := 0x100_0000

  /** The initial `range` register, 0xFFFFFFFF. */
  const FullRange: nat := 0xFFFF_FFFF

  // ---------------------------------------------------------------------
  // 32-bit register arithmetic
  // ---------------------------------------------------------------------

  /** `v << 8` on a `uint32_t`: the top byte falls off. */
  function Shl8(v: nat): (r: nat)
    ensures r < Two32 && r % 256 == 0
  {
    (v % Top) * 256
  }

  /** `Shl8` is multiplication by 256 reduced modulo 2^32. */
  lemma Shl8IsShift(v: nat)
    ensures Shl8(v) == (v * 256) % Two32
    ensures v < Top ==> Shl8(v) == v * 256
  {
    DivModUnique(v * 256, Two32, v / Top, Shl8(v));
  }

  /** `(range / total) * count0`, the width of the sub-interval of a 0-bin,
      as a `uint32_t` product. */
  function Split(range: nat, count0: nat, total: nat): nat
    requires total > 0
  {
    ((range / total) * count0) % Two32
  }

  /** With 1 <= count0 < total the product does not wrap and leaves room
      for a 1-bin; once `range >= total` it also leaves room for a 0-bin. */
  lemma SplitBounds(range: nat, count0: nat, total: nat)
    requires 1 <= range < Two32 && 1 <= count0 < total
    ensures Split(range, count0, total) == (range / total) * count0
    ensures Split(range, count0, total) < range
    ensures range >= total ==> Split(range, count0, total) >= count0
  {
    var q := range / total;
    QuotientTimesDivisor(range, total);
    ProductBelow(q, count0, total, range);
    if q >= 1 {
      MulBounds(count0, q);
    }
    DivModUnique(q * count0, Two32, 0, q * count0);
  }

  lemma QuotientTimesDivisor(v: nat, m: nat)
    requires m > 0
    ensures (v / m) * m <= v
  {
  }

  lemma ProductBelow(q: nat, count0: nat, total: nat, range: nat)
    requires q * total <= range && 1 <= range && 1 <= count0 < total
    ensures q * count0 < range
  {
    if q >= 1 {
      assert q * total == q * count0 + q * (total - count0);
      MulBounds(q, total - count0);
    }
  }

  // ---------------------------------------------------------------------
  // The counts and the header
  // ---------------------------------------------------------------------

  /** The number of entries equal to 0 (the encoder's `count0` loop). */
  function CountZeros(bits: seq<int>): nat
  {
    if bits == [] then 0
    else CountZeros(bits[..|bits| - 1]) + (if bits[|bits| - 1] == 0 then 1 else 0)
  }

  /** The number of nonzero entries (the encoder's `count1` loop). */
  function CountOnes(bits: seq<int>): nat
  {
    if bits == [] then 0
    else CountOnes(bits[..|bits| - 1]) + (if bits[|bits| - 1] == 0 then 0 else 1)
  }

  /** Every entry is counted exactly once. */
  lemma {:induction false} CountsPartition(bits: seq<int>)
    ensures CountZeros(bits) + CountOnes(bits) == |bits|
  {
    if bits != [] {
      CountsPartition(bits[..|bits| - 1]);
    }
  }

  /** "Avoid degenerate probs": a zero count is raised to 1. */
  function AtLeastOne(count: nat): (c: nat)
    ensures c >= 1 && (count >= 1 ==> c == count)
  {
    if count == 0 then 1 else count
  }

  /** The model counts the encoder writes into the header. */
  function Count0(bits: seq<int>): nat { AtLeastOne(CountZeros(bits)) }
  function Count1(bits: seq<int>): nat { AtLeastOne(CountOnes(bits)) }

  /** The encoder's precondition: `total` does not exceed 2^24, so that
      `range / total` is never 0. */
  predicate EncodableCounts(bits: seq<int>)
  {
    Count0(bits) + Count1(bits) <= Top
  }

  /** The 12-byte header: numBits, count0, count1, each a little-endian u32. */
  function Header(numBits: nat, count0: nat, count1: nat): (h: seq<byte>)
    requires numBits < Two32 && count0 < Two32 && count1 < Two32
    ensures |h| == 12
  {
    U32LE(numBits) + U32LE(count0) + U32LE(count1)
  }

  // ---------------------------------------------------------------------
  // Encoder
  // ---------------------------------------------------------------------

  /** The encoder registers. */
  datatype Coder = Coder(low: nat, range: nat)

  /** Between two bins: both registers are 32-bit values and `range` is
      renormalised to at least 2^24. */
  predicate Normal(c: Coder)
  {
    c.low < Two32 && Top <= c.range < Two32
  }

  /** The registers together with the bytes pushed on the way. */
  datatype Emission = Emission(coder: Coder, bytes: seq<byte>)

  /** The encoder's `renormalize` lambda: while `range < 2^24`, push the top
      byte of `low` and shift both registers left by a byte. */
  function Renormalize(c: Coder): (e: Emission)
    requires c.low < Two32 && 1 <= c.range < Two32
    ensures Normal(e.coder)
    ensures |e.bytes| <= 3
    ensures c.range >= 0x100 ==> |e.bytes| <= 2
    ensures c.range >= 0x1_0000 ==> |e.bytes| <= 1
    ensures c.range >= Top <==> e.bytes == []
    decreases Top - c.range
  {
    if c.range >= Top then Emission(c, [])
    else
      Shl8IsShift(c.range);
      var rest := Renormalize(Coder(Shl8(c.low), Shl8(c.range)));
      Emission(rest.coder, [c.low / Top] + rest.bytes)
  }

  /** The number of shifts renormalisation makes is fixed by `range` alone,
      and `range` is multiplied by 256 per shift without wrapping. */
  lemma {:induction false} RenormalizeScales(c: Coder)
    requires c.low < Two32 && 1 <= c.range < Two32
    ensures Renormalize(c).coder.range == c.range * Pow256(|Renormalize(c).bytes|)
    decreases Top - c.range
  {
    if c.range < Top {
      Shl8IsShift(c.range);
      var c1 := Coder(Shl8(c.low), Shl8(c.range));
      var r := Renormalize(c1);
      assert Renormalize(c) == Emission(r.coder, [c.low / Top] + r.bytes);
      RenormalizeScales(c1);
      var k := |r.bytes|;
      assert r.coder.range == (c.range * 256) * Pow256(k);
      assert Pow256(k + 1) == 256 * Pow256(k);
      MulAssoc(c.range, 256, Pow256(k));
    }
  }

  /** The interval update of one bin, before renormalisation: a 0 keeps
      `[low, low+split)`, a 1 keeps `[low+split, low+range)`. */
  function EncodeBin(c: Coder, bit: int, count0: nat, total: nat): (d: Coder)
    requires total > 0
  {
    var split := Split(c.range, count0, total);
    if bit == 0 then Coder(c.low, split)
    else Coder((c.low + split) % Two32, (c.range - split) % Two32)
  }

  /** Under the encoder's precondition a bin leaves `range` positive and
      smaller than before, without wrapping. */
  lemma EncodeBinRange(c: Coder, bit: int, count0: nat, total: nat)
    requires Normal(c) && 1 <= count0 < total <= Top
    ensures EncodeBin(c, bit, count0, total).low < Two32
    ensures 1 <= EncodeBin(c, bit, count0, total).range < c.range
  {
    SplitBounds(c.range, count0, total);
  }

  /** One bin: the interval update followed by renormalisation. */
  function EncodeStep(c: Coder, bit: int, count0: nat, total: nat): (e: Emission)
    requires Normal(c) && 1 <= count0 < total <= Top
    ensures Normal(e.coder) && |e.bytes| <= 3
  {
    EncodeBinRange(c, bit, count0, total);
    Renormalize(EncodeBin(c, bit, count0, total))
  }

  /** The bins encoded one after the other from the registers `c`. */
  function EncodeRun(bits: seq<int>, c: Coder, count0: nat, total: nat): (e: Emission)
    requires Normal(c) && 1 <= count0 < total <= Top
    ensures Normal(e.coder)
    ensures |e.bytes| <= 3 * |bits|
  {
    if bits == [] then Emission(c, [])
    else
      var first := EncodeStep(c, bits[0], count0, total);
      var rest := EncodeRun(bits[1..], first.coder, count0, total);
      Emission(rest.coder, first.bytes + rest.bytes)
  }

  /** The flush loop: `n` times, push the top byte of `low` and shift it. */
  function FlushBytes(low: nat, n: nat): (bytes: seq<byte>)
    requires low < Two32
    ensures |bytes| == n
    decreases n
  {
    if n == 0 then [] else [low / Top] + FlushBytes(Shl8(low), n - 1)
  }

  /** The four flushed bytes are `low` most significant byte first: the
      reverse of what `writeU32LE` writes. */
  lemma FlushIsBigEndian(low: nat)
    requires low < Two32
    ensures FlushBytes(low, 4) == Reverse(U32LE(low))
  {
    var u := U32LE(low);
    U32RoundTrip([], low, []);
    assert [] + u + [] == u;
    var b0, b1, b2, b3 := u[0], u[1], u[2], u[3];
    assert low == b3 * Top + b2 * 0x1_0000 + b1 * 0x100 + b0;
    var l1 := Shl8(low);
    DivModUnique(low, Top, b3, b2 * 0x1_0000 + b1 * 0x100 + b0);
    assert l1 == b2 * Top + b1 * 0x1_0000 + b0 * 0x100;
    DivModUnique(l1, Top, b2, b1 * 0x1_0000 + b0 * 0x100);
    var l2 := Shl8(l1);
    assert l2 == b1 * Top + b0 * 0x1_0000;
    DivModUnique(l2, Top, b1, b0 * 0x1_0000);
    var l3 := Shl8(l2);
    assert l3 == b0 * Top;
    assert FlushBytes(low, 4) == [b3, b2, b1, b0];
    assert Reverse(u) == [b3, b2, b1, b0];
  }

  /** The whole output of `arithEncodeBits`. */
  function ArithEncoding(bits: seq<int>): (out: seq<byte>)
    requires EncodableCounts(bits)
  {
    CountsPartition(bits);
    Header(|bits|, Count0(bits), Count1(bits)) + Payload(bits, Count0(bits), Count0(bits) + Count1(bits))
  }

  /** What follows the header: the bytes pushed while encoding the bins from
      the initial registers, then the four flushed bytes of `low`. */
  function Payload(bits: seq<int>, count0: nat, total: nat): (p: seq<byte>)
    requires 1 <= count0 < total <= Top
    ensures 4 <= |p| <= 4 + 3 * |bits|
  {
    var e := EncodeRun(bits, Coder(0, FullRange), count0, total);
    e.bytes + FlushBytes(e.coder.low, 4)
  }

  /** The stream layout: the header holds numBits and the two counts, and
      the payload is the renormalisation bytes (at most three per bin)
      followed by the four flushed bytes. */
  lemma EncodingLayout(bits: seq<int>)
    requires EncodableCounts(bits)
    ensures var out := ArithEncoding(bits);
      && 16 <= |out| <= 16 + 3 * |bits|
      && ReadU32LE(out, 0) == |bits|
      && ReadU32LE(out, 4) == Count0(bits) && Count0(bits) >= 1
      && ReadU32LE(out, 8) == Count1(bits) && Count1(bits) >= 1
      && (CountZeros(bits) >= 1 ==> ReadU32LE(out, 4) == CountZeros(bits))
      && (CountOnes(bits) >= 1 ==> ReadU32LE(out, 8) == CountOnes(bits))
  {
    CountsPartition(bits);
    var count0, count1 := Count0(bits), Count1(bits);
    HeaderReadBack(|bits|, count0, count1, Payload(bits, count0, count0 + count1));
  }

  /** The three header fields read back from the front of a stream. */
  lemma HeaderReadBack(numBits: nat, count0: nat, count1: nat, tail: seq<byte>)
    requires numBits < Two32 && count0 < Two32 && count1 < Two32
    ensures ReadU32LE(Header(numBits, count0, count1) + tail, 0) == numBits
    ensures ReadU32LE(Header(numBits, count0, count1) + tail, 4) == count0
    ensures ReadU32LE(Header(numBits, count0, count1) + tail, 8) == count1
  {
    var a, b, c := U32LE(numBits), U32LE(count0), U32LE(count1);
    var out := Header(numBits, count0, count1) + tail;
    assert out == [] + a + (b + c + tail);
    U32RoundTrip([], numBits, b + c + tail);
    assert out == a + b + (c + tail);
    U32RoundTrip(a, count0, c + tail);
    assert out == (a + b) + c + tail;
    U32RoundTrip(a + b, count1, tail);
  }

  /** The counting loop of `arithEncodeBits`. */
  method CountBins(bits: seq<int>) returns (count0: nat, count1: nat)
    ensures count0 == CountZeros(bits) && count1 == CountOnes(bits)
  {
    count0, count1 := 0, 0;
    for i := 0 to |bits|
      invariant count0 == CountZeros(bits[..i]) && count1 == CountOnes(bits[..i])
    {
      assert bits[..i + 1][..i] == bits[..i];
      if bits[i] == 0 {
        count0 := count0 + 1;
      } else {
        count1 := count1 + 1;
      }
    }
    assert bits[..|bits|] == bits;
  }

  /** The encoder's `renormalize` lambda on its registers; `pushed` is what
      it appends to `out`. */
  method RenormalizeEncoder(low0: nat, range0: nat) returns (low: nat, range: nat, pushed: seq<byte>)
    requires low0 < Two32 && 1 <= range0 < Two32
    ensures Emission(Coder(low, range), pushed) == Renormalize(Coder(low0, range0))
  {
    low, range, pushed := low0, range0, [];
    while range < Top
      invariant low < Two32 && 1 <= range < Two32
      invariant Renormalize(Coder(low, range)).coder == Renormalize(Coder(low0, range0)).coder
      invariant pushed + Renormalize(Coder(low, range)).bytes == Renormalize(Coder(low0, range0)).bytes
      decreases Top - range
    {
      pushed := pushed + [low / Top];
      Shl8IsShift(range);
      low := Shl8(low);
      range := Shl8(range);
    }
  }

  /** One pass of the bin loop of `arithEncodeBits`: the interval update,
      then the `renormalize` lambda. */
  method EncodeOneBin(low0: nat, range0: nat, bit: int, count0: nat, total: nat)
    returns (low: nat, range: nat, pushed: seq<byte>)
    requires Normal(Coder(low0, range0)) && 1 <= count0 < total <= Top
    ensures Emission(Coder(low, range), pushed) == EncodeStep(Coder(low0, range0), bit, count0, total)
  {
    ghost var updated := EncodeBin(Coder(low0, range0), bit, count0, total);
    EncodeBinRange(Coder(low0, range0), bit, count0, total);
    var split := Split(range0, count0, total);
    if bit == 0 {
      low, range := low0, split;
    } else {
      low := (low0 + split) % Two32;
      range := (range0 - split) % Two32;
    }
    assert Coder(low, range) == updated;
    low, range, pushed := RenormalizeEncoder(low, range);
  }

  /** The bin loop of `arithEncodeBits`, from the initial registers: the
      bytes it pushes and the final `low`. */
  method EncodeBins(bits: seq<int>, count0: nat, total: nat) returns (low: nat, pushed: seq<byte>)
    requires 1 <= count0 < total <= Top
    ensures Emission(Coder(low, EncodeRun(bits, Coder(0, FullRange), count0, total).coder.range), pushed)
            == EncodeRun(bits, Coder(0, FullRange), count0, total)
  {
    ghost var whole := EncodeRun(bits, Coder(0, FullRange), count0, total);
    var range: nat;
    low, range, pushed := 0, FullRange, [];
    assert bits[0..] == bits;
    for i := 0 to |bits|
      invariant Normal(Coder(low, range))
      invariant pushed + EncodeRun(bits[i..], Coder(low, range), count0, total).bytes == whole.bytes
      invariant EncodeRun(bits[i..], Coder(low, range), count0, total).coder == whole.coder
    {
      ghost var before := Coder(low, range);
      ghost var step := EncodeStep(before, bits[i], count0, total);
      assert bits[i..][1..] == bits[i + 1..];
      ghost var rest := EncodeRun(bits[i + 1..], step.coder, count0, total);
      assert EncodeRun(bits[i..], before, count0, total) == Emission(rest.coder, step.bytes + rest.bytes);
      var more;
      low, range, more := EncodeOneBin(low, range, bits[i], count0, total);
      assert (pushed + more) + rest.bytes == pushed + (more + rest.bytes);
      pushed := pushed + more;
    }
    assert bits[|bits|..] == [];
  }

  /** The flush loop of `arithEncodeBits`: four times, push the top byte of
      `low` and shift it left by a byte. */
  method FlushLow(low0: nat) returns (bytes: seq<byte>)
    requires low0 < Two32
    ensures bytes == FlushBytes(low0, 4)
  {
    var low: nat := low0;
    bytes := [];
    var left: nat := 4;
    while left > 0
      invariant low < Two32
      invariant bytes + FlushBytes(low, left) == FlushBytes(low0, 4)
    {
      assert FlushBytes(low, left) == [low / Top] + FlushBytes(Shl8(low), left - 1);
      assert (bytes + [low / Top]) + FlushBytes(Shl8(low), left - 1) == bytes + FlushBytes(low, left);
      bytes := bytes + [low / Top];
      low := Shl8(low);
      left := left - 1;
    }
  }

  /** The counts of `arithEncodeBits`, each raised to 1 if it is 0. */
  method ModelCounts(bits: seq<int>) returns (count0: nat, count1: nat)
    ensures count0 == Count0(bits) && count1 == Count1(bits)
  {
    count0, count1 := CountBins(bits);
    if count0 == 0 {
      count0 := 1;
    }
    if count1 == 0 {
      count1 := 1;
    }
  }

  /** Everything `arithEncodeBits` writes after the header: the bin loop,
      then the flush of `low`. */
  method EncodePayload(bits: seq<int>, count0: nat, total: nat) returns (payload: seq<byte>)
    requires 1 <= count0 < total <= Top
    ensures payload == Payload(bits, count0, total)
  {
    var low: nat, pushed: seq<byte> := EncodeBins(bits, count0, total);
    var flushed := FlushLow(low);
    payload := pushed + flushed;
  }

  /** `arithEncodeBits`. */
  method ArithEncodeBits(bits: seq<int>) returns (out: seq<byte>)
    requires EncodableCounts(bits)
    ensures out == ArithEncoding(bits)
  {
    CountsPartition(bits);
    var count0, count1 := ModelCounts(bits);
    var total := count0 + count1;
    var header := U32LE(|bits|) + U32LE(count0) + U32LE(count1);
    var payload := EncodePayload(bits, count0, total);
    out := header + payload;
  }

  // ---------------------------------------------------------------------
  // Decoder
  // ---------------------------------------------------------------------

  /** The decoder registers and the read cursor `offset`. */
  datatype Decoder = Decoder(low: nat, range: nat, code: nat, offset: nat)

  /** The registers are 32-bit values and `range` is not 0. */
  predicate Live(d: Decoder)
  {
    d.low < Two32 && 1 <= d.range < Two32 && d.code < Two32
  }

  /** The byte the decoder's `renormalize` lambda takes at `offset`: the
      stream byte, or 0 once the stream is exhausted. */
  function NextByte(stream: seq<byte>, offset: nat): byte
  {
    if offset < |stream| then stream[offset] else 0
  }

  /** The decoder's `renormalize` lambda: while `range < 2^24`, shift
      `range`, `low` and `code` left by a byte and bring the next byte into
      `code` (`|` and `+` agree because the shifted value ends in a zero byte). */
  function DecodeRenormalize(d: Decoder, stream: seq<byte>): (e: Decoder)
    requires Live(d)
    ensures Live(e) && e.range >= Top
    ensures d.offset <= e.offset
    decreases Top - d.range
  {
    if d.range >= Top then d
    else
      Shl8IsShift(d.range);
      var next := NextByte(stream, d.offset);
      var offset := if d.offset < |stream| then d.offset + 1 else d.offset;
      DecodeRenormalize(Decoder(Shl8(d.low), Shl8(d.range), Shl8(d.code) + next, offset), stream)
  }

  /** The bin decision and interval update of one bin: the bin is 0 exactly
      when `code - low` (modulo 2^32) falls below `split`. */
  function DecodeBin(d: Decoder, count0: nat, total: nat): (r: (int, Decoder))
    requires total > 0
  {
    var split := Split(d.range, count0, total);
    var rel := (d.code - d.low) % Two32;
    if rel < split then (0, d.(range := split))
    else (1, d.(low := (d.low + split) % Two32, range := (d.range - split) % Two32))
  }

  /** Decoding keeps `range` positive for any counts whose sum does not wrap,
      however large. */
  lemma DecodeBinRange(d: Decoder, count0: nat, total: nat)
    requires Live(d) && 1 <= count0 < total
    ensures Live(DecodeBin(d, count0, total).1)
    ensures DecodeBin(d, count0, total).1.offset == d.offset
  {
    SplitBounds(d.range, count0, total);
  }

  /** One decoded bin followed by renormalisation. */
  function DecodeStep(d: Decoder, stream: seq<byte>, count0: nat, total: nat): (r: (int, Decoder))
    requires Live(d) && 1 <= count0 < total
    ensures Live(r.1) && r.1.range >= Top
    ensures r.0 == 0 || r.0 == 1
  {
    DecodeBinRange(d, count0, total);
    var (bit, d1) := DecodeBin(d, count0, total);
    (bit, DecodeRenormalize(d1, stream))
  }

  /** `n` bins decoded one after the other from the state `d`. */
  function DecodeRun(n: nat, d: Decoder, stream: seq<byte>, count0: nat, total: nat): (r: (seq<int>, Decoder))
    requires Live(d) && 1 <= count0 < total
    ensures |r.0| == n
    ensures forall i :: 0 <= i < n ==> r.0[i] == 0 || r.0[i] == 1
    ensures Live(r.1)
  {
    if n == 0 then ([], d)
    else
      var (bit, d1) := DecodeStep(d, stream, count0, total);
      var rest := DecodeRun(n - 1, d1, stream, count0, total);
      ([bit] + rest.0, rest.1)
  }

  /** `code` after the initial loop has read `k` of the bytes 12..15. */
  function InitialCode(stream: seq<byte>, k: nat): (c: nat)
    requires k <= 4 && 12 + k <= |stream|
    ensures c < Two32
  {
    if k == 0 then 0 else Shl8(InitialCode(stream, k - 1)) + stream[12 + k - 1]
  }

  /** The initial `code` is bytes 12..15 read most significant byte first,
      the order in which the encoder's flush writes `low`. */
  lemma InitialCodeBigEndian(stream: seq<byte>)
    requires 16 <= |stream|
    ensures InitialCode(stream, 4)
            == stream[12] as nat * Top + stream[13] as nat * 0x1_0000
               + stream[14] as nat * 0x100 + stream[15] as nat
  {
    var b0, b1, b2, b3 := stream[12] as nat, stream[13] as nat, stream[14] as nat, stream[15] as nat;
    assert InitialCode(stream, 1) == b0;
    var c2 := b0 * 0x100 + b1;
    Shl8IsShift(b0);
    assert InitialCode(stream, 2) == c2;
    var c3 := b0 * 0x1_0000 + b1 * 0x100 + b2;
    Shl8IsShift(c2);
    assert InitialCode(stream, 3) == c3;
    Shl8IsShift(c3);
    assert InitialCode(stream, 4) == c3 * 0x100 + b3;
  }

  /** The decoder's precondition: the two header counts add up without
      wrapping (otherwise `total` wraps, and the division by zero or a
      `range` of 0 renormalised forever can follow). */
  predicate DecodableHeader(stream: seq<byte>)
  {
    |stream| >= 12 ==> ReadU32LE(stream, 4) + ReadU32LE(stream, 8) < Two32
  }

  /** The whole result of `arithDecodeBits`. */
  function ArithDecoding(stream: seq<byte>): (r: Result<seq<int>>)
    requires DecodableHeader(stream)
    ensures r == Err(StreamTooShort) <==> |stream| < 12
    ensures r == Err(InvalidCounts)
            <==> |stream| >= 12 && (ReadU32LE(stream, 4) == 0 || ReadU32LE(stream, 8) == 0)
    ensures r == Err(NoDataBytes)
            <==> |stream| >= 12 && ReadU32LE(stream, 4) != 0 && ReadU32LE(stream, 8) != 0
                 && |stream| < 16
    ensures r.Ok? ==> |r.value| == ReadU32LE(stream, 0)
    ensures r.Ok? ==> forall i :: 0 <= i < |r.value| ==> r.value[i] == 0 || r.value[i] == 1
  {
    if |stream| < 12 then Err(StreamTooShort)
    else
      var numBits, count0, count1 := ReadU32LE(stream, 0), ReadU32LE(stream, 4), ReadU32LE(stream, 8);
      if count0 == 0 || count1 == 0 then Err(InvalidCounts)
      else if |stream| < 16 then Err(NoDataBytes)
      else
        var start := Decoder(0, FullRange, InitialCode(stream, 4), 16);
        Ok(DecodeRun(numBits, start, stream, count0, count0 + count1).0)
  }

  /** The decoder's `renormalize` lambda on its registers and cursor. */
  method RenormalizeDecoder(d0: Decoder, stream: seq<byte>) returns (d: Decoder)
    requires Live(d0)
    ensures d == DecodeRenormalize(d0, stream)
  {
    var low: nat, range: nat, code: nat, offset: nat := d0.low, d0.range, d0.code, d0.offset;
    while range < Top
      invariant Live(Decoder(low, range, code, offset))
      invariant DecodeRenormalize(Decoder(low, range, code, offset), stream) == DecodeRenormalize(d0, stream)
      decreases Top - range
    {
      Shl8IsShift(range);
      range := Shl8(range);
      low := Shl8(low);
      var nextByte: byte := 0;
      if offset < |stream| {
        nextByte := stream[offset];
        offset := offset + 1;
      }
      code := Shl8(code) + nextByte;
    }
    d := Decoder(low, range, code, offset);
  }

  /** `arithDecodeBits`. */
  method ArithDecodeBits(stream: seq<byte>) returns (r: Result<seq<int>>)
    requires DecodableHeader(stream)
    ensures r == ArithDecoding(stream)
  {
    if |stream| < 12 {
      return Err(StreamTooShort);
    }
    var offset: nat := 0;
    var numBits := ReadU32LE(stream, offset);
    offset := offset + 4;
    var count0 := ReadU32LE(stream, offset);
    offset := offset + 4;
    var count1 := ReadU32LE(stream, offset);
    offset := offset + 4;
    if count0 == 0 || count1 == 0 {
      return Err(InvalidCounts);
    }
    var total := count0 + count1;
    var low: nat, range: nat, code: nat := 0, FullRange, 0;
    if offset + 4 > |stream| {
      return Err(NoDataBytes);
    }
    for i := 0 to 4
      invariant offset == 12 + i && code == InitialCode(stream, i)
    {
      code := Shl8(code) + stream[offset];
      offset := offset + 1;
    }
    var bits := DecodeBins(numBits, Decoder(low, range, code, offset), stream, count0, total);
    return Ok(bits);
  }

  /** One pass of the bin loop of `arithDecodeBits`: the bin decision, the
      interval update, then the `renormalize` lambda. */
  method DecodeOneBin(d0: Decoder, stream: seq<byte>, count0: nat, total: nat) returns (bit: int, d: Decoder)
    requires Live(d0) && 1 <= count0 < total
    ensures (bit, d) == DecodeStep(d0, stream, count0, total)
  {
    ghost var decided := DecodeBin(d0, count0, total);
    DecodeBinRange(d0, count0, total);
    var split := Split(d0.range, count0, total);
    var rel := (d0.code - d0.low) % Two32;
    if rel < split {
      bit := 0;
      d := d0.(range := split);
    } else {
      bit := 1;
      d := d0.(low := (d0.low + split) % Two32, range := (d0.range - split) % Two32);
    }
    assert (bit, d) == decided;
    d := RenormalizeDecoder(d, stream);
  }

  /** The bin loop of `arithDecodeBits`, from the state after the initial
      `code` is read. */
  method DecodeBins(numBits: nat, start: Decoder, stream: seq<byte>, count0: nat, total: nat)
    returns (bits: seq<int>)
    requires Live(start) && 1 <= count0 < total
    ensures bits == DecodeRun(numBits, start, stream, count0, total).0
  {
    ghost var whole := DecodeRun(numBits, start, stream, count0, total).0;
    var d := start;
    bits := [];
    for i := 0 to numBits
      invariant Live(d)
      invariant bits + DecodeRun(numBits - i, d, stream, count0, total).0 == whole
    {
      ghost var before := d;
      var bit;
      bit, d := DecodeOneBin(d, stream, count0, total);
      ghost var rest := DecodeRun(numBits - i - 1, d, stream, count0, total).0;
      assert DecodeRun(numBits - i, before, stream, count0, total).0 == [bit] + rest;
      assert (bits + [bit]) + rest == bits + ([bit] + rest);
      bits := bits + [bit];
    }
  }

  // ---------------------------------------------------------------------
  // The decoder mirrors the encoder
  // ---------------------------------------------------------------------

  /** The registers of the encoder that a decoder state shadows. */
  function Shadow(d: Decoder): Coder
  {
    Coder(d.low, d.range)
  }

  /** Renormalisation: the decoder makes the same shifts as the encoder,
      reading one byte per byte the encoder pushes (or a 0 past the end). */
  lemma {:induction false} RenormalizeMirror(d: Decoder, stream: seq<byte>)
    requires Live(d) && d.offset <= |stream|
    ensures Shadow(DecodeRenormalize(d, stream)) == Renormalize(Shadow(d)).coder
    ensures DecodeRenormalize(d, stream).offset == Min(d.offset + |Renormalize(Shadow(d)).bytes|, |stream|)
    decreases Top - d.range
  {
    if d.range < Top {
      Shl8IsShift(d.range);
      var offset := if d.offset < |stream| then d.offset + 1 else d.offset;
      RenormalizeMirror(Decoder(Shl8(d.low), Shl8(d.range), Shl8(d.code) + NextByte(stream, d.offset), offset), stream);
    }
  }

  function Min(a: nat, b: nat): nat { if a <= b then a else b }

  /** One bin: whenever the decoder decides the bin the encoder coded, it
      applies the same interval update and the same shifts, and its cursor
      advances by the number of bytes the encoder pushed (up to the end of
      the stream). */
  lemma StepMirror(d: Decoder, stream: seq<byte>, bit: int, count0: nat, total: nat)
    requires Live(d) && d.range >= Top && 1 <= count0 < total <= Top && d.offset <= |stream|
    requires DecodeStep(d, stream, count0, total).0 == bit
    ensures Shadow(DecodeStep(d, stream, count0, total).1)
            == EncodeStep(Shadow(d), bit, count0, total).coder
    ensures DecodeStep(d, stream, count0, total).1.offset
            == Min(d.offset + |EncodeStep(Shadow(d), bit, count0, total).bytes|, |stream|)
  {
    DecodeBinRange(d, count0, total);
    var d1 := DecodeBin(d, count0, total).1;
    assert Shadow(d1) == EncodeBin(Shadow(d), bit, count0, total);
    RenormalizeMirror(d1, stream);
  }

  /** A whole run: as long as the decoder reproduces the encoded bins, it
      ends with the encoder's `low` and `range`, and its cursor has moved by
      the number of bytes the encoder pushed (up to the end of the stream). */
  lemma {:induction false} RunMirror(bits: seq<int>, d: Decoder, stream: seq<byte>, count0: nat, total: nat)
    requires Live(d) && d.range >= Top && 1 <= count0 < total <= Top && d.offset <= |stream|
    requires DecodeRun(|bits|, d, stream, count0, total).0 == bits
    ensures Shadow(DecodeRun(|bits|, d, stream, count0, total).1)
            == EncodeRun(bits, Shadow(d), count0, total).coder
    ensures DecodeRun(|bits|, d, stream, count0, total).1.offset
            == Min(d.offset + |EncodeRun(bits, Shadow(d), count0, total).bytes|, |stream|)
  {
    if bits != [] {
      var n := |bits|;
      var (bit, d1) := DecodeStep(d, stream, count0, total);
      var dr := DecodeRun(n - 1, d1, stream, count0, total);
      assert DecodeRun(n, d, stream, count0, total) == ([bit] + dr.0, dr.1);
      assert bit == bits[0] && dr.0 == bits[1..];
      var e1 := EncodeStep(Shadow(d), bit, count0, total);
      var er := EncodeRun(bits[1..], e1.coder, count0, total);
      assert EncodeRun(bits, Shadow(d), count0, total) == Emission(er.coder, e1.bytes + er.bytes);
      StepMirror(d, stream, bit, count0, total);
      RunMirror(bits[1..], d1, stream, count0, total);
    }
  }

  /** Decoding what the encoder produced never fails: it returns one bin in
      {0,1} per encoded bin. */
  lemma DecodeEncodedShape(bits: seq<int>)
    requires EncodableCounts(bits)
    ensures DecodableHeader(ArithEncoding(bits))
    ensures ArithDecoding(ArithEncoding(bits)).Ok?
    ensures |ArithDecoding(ArithEncoding(bits)).value| == |bits|
  {
    EncodingLayout(bits);
  }
}
