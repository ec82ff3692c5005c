/** The round trip of the range coder of cabac.cpp, proved for every input
    whose encoding never lets `low += split` overflow 32 bits.

    The argument reads the payload as one big-endian number. While encoding
    a run of bins from the registers `c`, the bytes still to come (the
    renormalisation bytes and the four flushed bytes of `low`) form a number
    that lies in the interval `[c.low, c.low + c.range)` scaled by 256 per
    byte pushed. The decoder's `code` is the top four of those bytes, so it
    lies in the same interval and falls on the side of `low + split` that
    the encoded bin chose. */
module RangeRoundTrip {
  import opened Common
  import opened LittleEndian
  import opened RangeCoder

  // ---------------------------------------------------------------------
  // Big-endian values
  // ---------------------------------------------------------------------

  /** The number whose bytes, most significant first, are `s`. */
  function BE(s: seq<byte>): (v: nat)
    ensures v < Pow256(|s|)
  {
    if s == [] then 0
    else
      var p := Pow256(|s| - 1);
      var rest := BE(s[1..]);
      DigitBound(s[0], p, rest);
      s[0] as nat * p + rest
  }

  /** A byte followed by a number below `p` stays below `256 * p`. */
  lemma DigitBound(digit: nat, p: nat, rest: nat)
    requires digit < 256 && rest < p
    ensures digit * p + rest < 256 * p
  {
    assert 256 * p == digit * p + (256 - digit) * p;
    MulBounds(p, 256 - digit);
  }

  lemma {:induction false} Pow256Add(a: nat, b: nat)
    ensures Pow256(a + b) == Pow256(a) * Pow256(b)
  {
    if a > 0 {
      Pow256Add(a - 1, b);
      MulAssoc(256, Pow256(a - 1), Pow256(b));
    }
  }

  /** Appending bytes shifts the number up by a byte per appended byte. */
  lemma {:induction false} BEAppend(a: seq<byte>, b: seq<byte>)
    ensures BE(a + b) == BE(a) * Pow256(|b|) + BE(b)
  {
    if a == [] {
      assert a + b == b;
    } else {
      var ab := a + b;
      assert ab[0] == a[0] && ab[1..] == a[1..] + b;
      var x, y := a[0] as nat, BE(a[1..]);
      var p, q := Pow256(|a| - 1), Pow256(|b|);
      assert BE(ab) == x * Pow256(|a| - 1 + |b|) + BE(a[1..] + b);
      assert BE(a) == x * p + y;
      BEAppend(a[1..], b);
      Pow256Add(|a| - 1, |b|);
      LeadingDigit(x, y, p, q, BE(b));
    }
  }

  /** The arithmetic of `BEAppend`: a leading digit `x` of weight `p * q`
      before `y * q + z`. */
  lemma LeadingDigit(x: nat, y: nat, p: nat, q: nat, z: nat)
    ensures x * (p * q) + (y * q + z) == (x * p + y) * q + z
  {
    MulAssoc(x, p, q);
    Distrib(x * p, y, q);
  }

  lemma Distrib(x: nat, y: nat, q: nat)
    ensures (x + y) * q == x * q + y * q
  {
  }

  /** Four bytes, most significant first. */
  lemma {:induction false} BEFour(s: seq<byte>)
    requires |s| == 4
    ensures BE(s) == s[0] as nat * Top + s[1] as nat * 0x1_0000 + s[2] as nat * 0x100 + s[3] as nat
  {
    var t1, t2, t3 := s[1..], s[2..], s[3..];
    assert t1[1..] == t2 && t2[1..] == t3 && t3[1..] == [];
    assert Pow256(1) == 0x100 && Pow256(2) == 0x1_0000 && Pow256(3) == Top;
    assert BE(t3) == s[3] as nat;
    assert BE(t2) == s[2] as nat * 0x100 + BE(t3);
    assert BE(t1) == s[1] as nat * 0x1_0000 + BE(t2);
  }

  /** The four flushed bytes read back most significant first give `low`. */
  lemma {:induction false} BEFlush(low: nat)
    requires low < Two32
    ensures BE(FlushBytes(low, 4)) == low
  {
    var u := U32LE(low);
    FlushIsBigEndian(low);
    U32RoundTrip([], low, []);
    assert [] + u + [] == u;
    BEFour(FlushBytes(low, 4));
  }

  /** `code` after one more byte: the window of four bytes slides by one. */
  lemma {:induction false} ShiftWindow(w: seq<byte>)
    requires |w| >= 5
    ensures Shl8(BE(w[..4])) + w[4] == BE(w[1..5])
  {
    BEFour(w[..4]);
    BEFour(w[1..5]);
    var low3 := w[1] as nat * 0x1_0000 + w[2] as nat * 0x100 + w[3] as nat;
    DivModUnique(BE(w[..4]), Top, w[0], low3);
  }

  // ---------------------------------------------------------------------
  // The encoder keeps the rest of the stream inside its interval
  // ---------------------------------------------------------------------

  /** The arithmetic of pushing the top byte of `low`: with `low` split
      into its top byte and the 24 bits `m` below it, shifting `m` up by a
      byte per byte pushed after it is `low` shifted by one more byte. */
  lemma ShiftScale(low: nat, top: nat, m: nat, p: nat, b: nat, rest: nat)
    requires low == top * Top + m && b * Two32 + rest == (m * 256) * p
    ensures (top * p + b) * Two32 + rest == low * (256 * p)
  {
    calc {
      (top * p + b) * Two32 + rest;
      top * p * Two32 + (b * Two32 + rest);
      top * p * Two32 + (m * 256) * p;
      { MulAssoc(top, p, Two32); MulAssoc(m, 256, p); }
      p * (top * Two32 + m * 256);
      p * (low * 256);
      { MulAssoc(low, 256, p); }
      low * (256 * p);
    }
  }

  /** Renormalisation moves the top bytes of `low` into the pushed bytes:
      the pushed bytes followed by the new `low` are the old `low` shifted
      by a byte per pushed byte. */
  lemma {:induction false} RenormalizeValue(c: Coder)
    requires c.low < Two32 && 1 <= c.range < Two32
    ensures BE(Renormalize(c).bytes) * Two32 + Renormalize(c).coder.low
            == c.low * Pow256(|Renormalize(c).bytes|)
    decreases Top - c.range
  {
    if c.range < Top {
      Shl8IsShift(c.range);
      var c1 := Coder(Shl8(c.low), Shl8(c.range));
      var rest := Renormalize(c1);
      var e := Renormalize(c);
      var top := c.low / Top;
      assert e == Emission(rest.coder, [top] + rest.bytes);
      RenormalizeValue(c1);
      var k := |rest.bytes|;
      var p := Pow256(k);
      assert ([top] + rest.bytes)[1..] == rest.bytes;
      assert BE(e.bytes) == top * p + BE(rest.bytes);
      DivModUnique(c.low, Top, top, c.low % Top);
      assert c1.low == (c.low % Top) * 256;
      assert Pow256(k + 1) == 256 * p;
      ShiftScale(c.low, top, c.low % Top, p, BE(rest.bytes), rest.coder.low);
    }
  }

  /** No 1-bin of the run lets `low + split` reach 2^32: the case where the
      encoder's `low` register wraps without carrying into the bytes it has
      already pushed. */
  predicate NoCarry(bits: seq<int>, c: Coder, count0: nat, total: nat)
    requires Normal(c) && 1 <= count0 < total <= Top
    decreases |bits|
  {
    bits == []
    || ((bits[0] != 0 ==> c.low + Split(c.range, count0, total) < Two32)
        && NoCarry(bits[1..], EncodeStep(c, bits[0], count0, total).coder, count0, total))
  }

  /** `NoCarry` for the encoding `arithEncodeBits` makes of `bits`. */
  predicate NoCarryIn(bits: seq<int>)
    requires EncodableCounts(bits)
  {
    NoCarry(bits, Coder(0, FullRange), Count0(bits), Count0(bits) + Count1(bits))
  }

  /** What the encoder writes from the registers `c` on: the bytes pushed
      while it encodes `bits`, then the four flushed bytes of `low`. */
  function Rest(bits: seq<int>, c: Coder, count0: nat, total: nat): (r: seq<byte>)
    requires Normal(c) && 1 <= count0 < total <= Top
    ensures |r| == |EncodeRun(bits, c, count0, total).bytes| + 4
  {
    var e := EncodeRun(bits, c, count0, total);
    e.bytes + FlushBytes(e.coder.low, 4)
  }

  /** The rest of the stream is the pushed bytes followed by the final
      `low`. */
  lemma {:induction false} RestValue(bits: seq<int>, c: Coder, count0: nat, total: nat)
    requires Normal(c) && 1 <= count0 < total <= Top
    ensures var e := EncodeRun(bits, c, count0, total);
            BE(Rest(bits, c, count0, total)) == BE(e.bytes) * Two32 + e.coder.low
  {
    var e := EncodeRun(bits, c, count0, total);
    BEAppend(e.bytes, FlushBytes(e.coder.low, 4));
    BEFlush(e.coder.low);
    assert Pow256(4) == Two32;
  }

  /** `x < y` scaled by a positive factor. */
  lemma MulStrict(x: nat, y: nat, s: nat)
    requires x < y && s >= 1
    ensures x * s < y * s
  {
    assert y * s == x * s + (y - x) * s;
    MulBounds(s, y - x);
  }

  lemma MulMono(x: nat, y: nat, s: nat)
    requires x <= y
    ensures x * s <= y * s
  {
    assert y * s == x * s + (y - x) * s;
  }

  lemma ConcatAssoc(a: seq<byte>, b: seq<byte>, c: seq<byte>)
    ensures (a + b) + c == a + (b + c)
  {
  }

  /** The rest of the stream from `c` is the first bin's bytes followed by
      the rest of the stream from the registers that bin leaves. */
  lemma {:induction false} RestSplit(bits: seq<int>, c: Coder, count0: nat, total: nat)
    requires Normal(c) && 1 <= count0 < total <= Top && bits != []
    ensures var e1 := EncodeStep(c, bits[0], count0, total);
            && Rest(bits, c, count0, total) == e1.bytes + Rest(bits[1..], e1.coder, count0, total)
            && |EncodeRun(bits, c, count0, total).bytes|
               == |e1.bytes| + |EncodeRun(bits[1..], e1.coder, count0, total).bytes|
  {
    var e1 := EncodeStep(c, bits[0], count0, total);
    var rest := EncodeRun(bits[1..], e1.coder, count0, total);
    var e := EncodeRun(bits, c, count0, total);
    assert e.bytes == e1.bytes + rest.bytes && e.coder == rest.coder;
    var f := FlushBytes(rest.coder.low, 4);
    assert Rest(bits, c, count0, total) == e.bytes + f;
    assert Rest(bits[1..], e1.coder, count0, total) == rest.bytes + f;
    ConcatAssoc(e1.bytes, rest.bytes, f);
  }

  /** `v` lies in `[lo, hi)` scaled by `s`. */
  predicate Within(v: nat, s: nat, lo: nat, hi: nat)
  {
    lo * s <= v < hi * s
  }

  /** A scaled interval lies inside any scaled interval around it. */
  lemma Widen(v: nat, s: nat, lo1: nat, hi1: nat, lo2: nat, hi2: nat)
    requires lo2 <= lo1 && hi1 <= hi2 && Within(v, s, lo1, hi1)
    ensures Within(v, s, lo2, hi2)
  {
    MulMono(lo2, lo1, s);
    MulMono(hi1, hi2, s);
  }

  /** The interval arithmetic of one renormalisation: bounds that hold
      after `k` pushed bytes (`s1 = 256^k`) hold before them, scaled. */
  lemma ScaleBack(b: nat, low1: nat, range1: nat, low2: nat, range2: nat, s1: nat, s2: nat, v2: nat)
    requires b * Two32 + low2 == low1 * s1 && range2 == range1 * s1
    requires Within(v2, s2, low2, low2 + range2)
    ensures Within(b * (s2 * Two32) + v2, s1 * s2, low1, low1 + range1)
  {
    MulAssoc(b, Two32, s2);
    MulAssoc(low1, s1, s2);
    MulAssoc(range1, s1, s2);
    Distrib(b * Two32, low2, s2);
    Distrib(b * Two32 + low2, range2, s2);
    Distrib(low1, range1, s1 * s2);
    assert b * (s2 * Two32) == (b * Two32) * s2;
  }

  /** After the first bin's interval update the rest of the stream lies in
      the updated interval, scaled by a byte per byte pushed. */
  lemma {:induction false} FirstBinBounds(bits: seq<int>, c: Coder, count0: nat, total: nat)
    requires Normal(c) && 1 <= count0 < total <= Top && bits != []
    requires NoCarry(bits, c, count0, total)
    ensures var c1 := EncodeBin(c, bits[0], count0, total);
            Within(BE(Rest(bits, c, count0, total)), Pow256(|EncodeRun(bits, c, count0, total).bytes|),
                   c1.low, c1.low + c1.range)
    decreases |bits|, 0
  {
    EncodeBinRange(c, bits[0], count0, total);
    var c1 := EncodeBin(c, bits[0], count0, total);
    var e1 := EncodeStep(c, bits[0], count0, total);
    assert e1 == Renormalize(c1);
    RestSplit(bits, c, count0, total);
    assert NoCarry(bits[1..], e1.coder, count0, total);
    RunBounds(bits[1..], e1.coder, count0, total);
    AppendBounds(c1, Rest(bits[1..], e1.coder, count0, total), |EncodeRun(bits[1..], e1.coder, count0, total).bytes|);
  }

  /** The bytes renormalisation pushes, followed by a stream in the
      interval of the renormalised registers, lie in the interval before
      it. */
  lemma AppendBounds(c1: Coder, r2: seq<byte>, k2: nat)
    requires c1.low < Two32 && 1 <= c1.range < Two32 && |r2| == k2 + 4
    requires Within(BE(r2), Pow256(k2), Renormalize(c1).coder.low, Renormalize(c1).coder.low + Renormalize(c1).coder.range)
    ensures Within(BE(Renormalize(c1).bytes + r2), Pow256(|Renormalize(c1).bytes| + k2), c1.low, c1.low + c1.range)
  {
    var pushed := Renormalize(c1).bytes;
    var s1, s2 := Pow256(|pushed|), Pow256(k2);
    assert Pow256(|pushed| + k2) == s1 * s2 by {
      Pow256Add(|pushed|, k2);
    }
    assert BE(pushed + r2) == BE(pushed) * (s2 * Two32) + BE(r2) by {
      BEAppend(pushed, r2);
      Pow256Add(k2, 4);
      assert Pow256(4) == Two32;
    }
    RenormalizedBounds(c1, s2, BE(r2), BE(pushed + r2), Pow256(|pushed| + k2));
  }

  /** A value in the interval of the renormalised registers, behind the
      bytes renormalisation pushed, lies in the interval before it. */
  lemma RenormalizedBounds(c1: Coder, s2: nat, v2: nat, v: nat, s: nat)
    requires c1.low < Two32 && 1 <= c1.range < Two32
    requires Within(v2, s2, Renormalize(c1).coder.low, Renormalize(c1).coder.low + Renormalize(c1).coder.range)
    requires v == BE(Renormalize(c1).bytes) * (s2 * Two32) + v2 && s == Pow256(|Renormalize(c1).bytes|) * s2
    ensures Within(v, s, c1.low, c1.low + c1.range)
  {
    var e1 := Renormalize(c1);
    RenormalizeValue(c1);
    RenormalizeScales(c1);
    ScaleBack(BE(e1.bytes), c1.low, c1.range, e1.coder.low, e1.coder.range, Pow256(|e1.bytes|), s2, v2);
  }

  /** The rest of the stream lies in the interval of the registers it is
      encoded from, scaled by a byte per byte pushed. */
  lemma {:induction false} RunBounds(bits: seq<int>, c: Coder, count0: nat, total: nat)
    requires Normal(c) && 1 <= count0 < total <= Top
    requires NoCarry(bits, c, count0, total)
    ensures Within(BE(Rest(bits, c, count0, total)), Pow256(|EncodeRun(bits, c, count0, total).bytes|),
                   c.low, c.low + c.range)
    decreases |bits|, 1
  {
    var s := Pow256(|EncodeRun(bits, c, count0, total).bytes|);
    var v := BE(Rest(bits, c, count0, total));
    if bits == [] {
      RestValue(bits, c, count0, total);
      assert s == 1;
    } else {
      FirstBinBounds(bits, c, count0, total);
      var c1 := EncodeBin(c, bits[0], count0, total);
      assert c.low <= c1.low && c1.low + c1.range <= c.low + c.range by {
        SplitBounds(c.range, count0, total);
        BinInterval(c, bits[0], count0, total);
      }
      Widen(v, s, c1.low, c1.low + c1.range, c.low, c.low + c.range);
    }
  }

  // ---------------------------------------------------------------------
  // The decoder reads back the interval choices
  // ---------------------------------------------------------------------

  /** The decoded value of a bin: 0 for 0, 1 for anything else (the
      encoder's `if (b == 0) … else …`). */
  function Bins(bits: seq<int>): (r: seq<int>)
    ensures |r| == |bits|
    ensures forall i :: 0 <= i < |bits| ==> (r[i] == 0 <==> bits[i] == 0) && (r[i] == 0 || r[i] == 1)
  {
    if bits == [] then [] else [if bits[0] == 0 then 0 else 1] + Bins(bits[1..])
  }

  /** A number with `v` as its leading digits, in base `s`, lies in an
      interval scaled by `s` exactly when `v` lies in the interval. */
  lemma LeadingDigits(v: nat, x: nat, s: nat, lo: nat, hi: nat)
    requires s >= 1 && v * s <= x < (v + 1) * s
    ensures lo * s <= x ==> lo <= v
    ensures x < hi * s ==> v < hi
  {
    if lo * s <= x && v < lo {
      MulMono(v + 1, lo, s);
    }
    if x < hi * s && hi <= v {
      MulMono(hi, v, s);
    }
  }

  /** The windows of `w` and of the stream one byte further on. */
  lemma {:induction false} WindowStep(stream: seq<byte>, w: seq<byte>, offset: nat, k: nat)
    requires 1 <= k && k + 4 <= |w| && offset + k <= |stream|
    requires stream[offset..offset + k] == w[4..4 + k]
    ensures stream[offset] == w[4]
    ensures stream[offset + 1..offset + 1 + (k - 1)] == w[1..][4..4 + (k - 1)]
    ensures w[1..][..4] == w[1..5]
    ensures w[1..][k - 1..k - 1 + 4] == w[k..k + 4]
  {
    assert stream[offset] == stream[offset..offset + k][0];
    calc {
      stream[offset + 1..offset + 1 + (k - 1)];
      stream[offset..offset + k][1..];
      w[4..4 + k][1..];
      w[1..][4..4 + (k - 1)];
    }
  }

  /** Renormalisation on the decoder's side: while the encoder pushes `k`
      bytes, the decoder's `code` slides `k` bytes along the stream. */
  lemma {:induction false} RenormalizeWindow(d: Decoder, stream: seq<byte>, w: seq<byte>)
    requires Live(d)
    requires var k := |Renormalize(Shadow(d)).bytes|;
             k + 4 <= |w| && d.offset + k <= |stream|
             && d.code == BE(w[..4]) && stream[d.offset..d.offset + k] == w[4..4 + k]
    ensures var k := |Renormalize(Shadow(d)).bytes|;
            DecodeRenormalize(d, stream).code == BE(w[k..k + 4])
    decreases Top - d.range
  {
    if d.range < Top {
      Shl8IsShift(d.range);
      var k := |Renormalize(Shadow(d)).bytes|;
      var c1 := Coder(Shl8(d.low), Shl8(d.range));
      assert Renormalize(Shadow(d)).bytes == [d.low / Top] + Renormalize(c1).bytes;
      WindowStep(stream, w, d.offset, k);
      ShiftWindow(w);
      var d1 := Decoder(Shl8(d.low), Shl8(d.range), Shl8(d.code) + stream[d.offset], d.offset + 1);
      assert DecodeRenormalize(d, stream) == DecodeRenormalize(d1, stream);
      assert Shadow(d1) == c1;
      RenormalizeWindow(d1, stream, w[1..]);
    }
  }

  /** `code` followed by the digits `tail` (below `s`) make `v`. */
  predicate Leading(v: nat, code: nat, s: nat, tail: nat)
  {
    v == code * s + tail && tail < s
  }

  /** The decision arithmetic: a `code` that is the leading digits (base
      `s`) of a value inside `[lo, hi)` scaled by `s` lies in `[lo, hi)`
      itself. */
  lemma LeadingIn(code: nat, tail: nat, s: nat, v: nat, lo: nat, hi: nat)
    requires Leading(v, code, s, tail) && Within(v, s, lo, hi)
    ensures lo <= code < hi
  {
    Distrib(code, 1, s);
    LeadingDigits(code, v, s, lo, hi);
  }

  /** The top four bytes of the rest of the stream are its leading digits
      in base `256^k`, `k` the number of bytes still to be pushed. */
  lemma {:induction false} RestLeading(bits: seq<int>, c: Coder, count0: nat, total: nat)
    requires Normal(c) && 1 <= count0 < total <= Top
    ensures var r := Rest(bits, c, count0, total);
            Leading(BE(r), BE(r[..4]), Pow256(|EncodeRun(bits, c, count0, total).bytes|), BE(r[4..]))
  {
    var r := Rest(bits, c, count0, total);
    assert r == r[..4] + r[4..];
    BEAppend(r[..4], r[4..]);
  }

  /** The interval one bin leaves, when a 1-bin does not carry: the lower
      part `[low, low + split)` for a 0-bin, the upper part for a 1-bin. */
  lemma BinInterval(c: Coder, bit: int, count0: nat, total: nat)
    requires Normal(c) && 1 <= count0 < total <= Top
    requires bit != 0 ==> c.low + Split(c.range, count0, total) < Two32
    ensures var c1 := EncodeBin(c, bit, count0, total);
            var split := Split(c.range, count0, total);
            && c1.low == (if bit == 0 then c.low else c.low + split)
            && c1.low + c1.range == (if bit == 0 then c.low + split else c.low + c.range)
  {
    SplitBounds(c.range, count0, total);
  }

  /** The decoder's `code`, the top four bytes of the rest of the stream,
      lies inside the encoder's interval. */
  lemma {:induction false} CodeInInterval(bits: seq<int>, c: Coder, code: nat, count0: nat, total: nat)
    requires Normal(c) && 1 <= count0 < total <= Top
    requires NoCarry(bits, c, count0, total)
    requires code == BE(Rest(bits, c, count0, total)[..4])
    ensures c.low <= code < c.low + c.range
  {
    var r := Rest(bits, c, count0, total);
    var s := Pow256(|EncodeRun(bits, c, count0, total).bytes|);
    RestLeading(bits, c, count0, total);
    RunBounds(bits, c, count0, total);
    LeadingIn(code, BE(r[4..]), s, BE(r), c.low, c.low + c.range);
  }

  /** The decoder's `code` lies on the side of `low + split` that the first
      bin of a carry-free run chose. */
  lemma {:induction false} CodeSide(bits: seq<int>, c: Coder, code: nat, count0: nat, total: nat)
    requires Normal(c) && 1 <= count0 < total <= Top && bits != []
    requires NoCarry(bits, c, count0, total)
    requires code == BE(Rest(bits, c, count0, total)[..4])
    ensures bits[0] == 0 ==> code < c.low + Split(c.range, count0, total)
    ensures bits[0] != 0 ==> c.low + Split(c.range, count0, total) <= code
  {
    var r := Rest(bits, c, count0, total);
    var s := Pow256(|EncodeRun(bits, c, count0, total).bytes|);
    var c1 := EncodeBin(c, bits[0], count0, total);
    RestLeading(bits, c, count0, total);
    FirstBinBounds(bits, c, count0, total);
    LeadingIn(code, BE(r[4..]), s, BE(r), c1.low, c1.low + c1.range);
    BinInterval(c, bits[0], count0, total);
  }

  /** The decoder decides the first bin of a carry-free run as it was
      encoded and makes the encoder's interval update, as long as its
      registers match the encoder's and its `code` holds the top four bytes
      of the rest of the stream. */
  lemma {:induction false} FirstBinDecoded(bits: seq<int>, c: Coder, d: Decoder, count0: nat, total: nat)
    requires Normal(c) && 1 <= count0 < total <= Top && bits != []
    requires NoCarry(bits, c, count0, total)
    requires Live(d) && Shadow(d) == c
    requires d.code == BE(Rest(bits, c, count0, total)[..4])
    ensures DecodeBin(d, count0, total).0 == (if bits[0] == 0 then 0 else 1)
    ensures Shadow(DecodeBin(d, count0, total).1) == EncodeBin(c, bits[0], count0, total)
    ensures DecodeBin(d, count0, total).1.code == d.code
    ensures DecodeBin(d, count0, total).1.offset == d.offset
  {
    CodeInInterval(bits, c, d.code, count0, total);
    CodeSide(bits, c, d.code, count0, total);
    DecideBin(d, bits[0], count0, total);
  }

  /** `DecodeBin` once it is known on which side of `low + split` the
      `code` lies: it decides the bin the encoder coded and makes the
      encoder's interval update. */
  lemma {:induction false} DecideBin(d: Decoder, bit: int, count0: nat, total: nat)
    requires Live(d) && Normal(Shadow(d)) && 1 <= count0 < total <= Top
    requires d.low <= d.code < d.low + d.range
    requires bit == 0 ==> d.code < d.low + Split(d.range, count0, total)
    requires bit != 0 ==> d.low + Split(d.range, count0, total) <= d.code
    ensures DecodeBin(d, count0, total).0 == (if bit == 0 then 0 else 1)
    ensures Shadow(DecodeBin(d, count0, total).1) == EncodeBin(Shadow(d), bit, count0, total)
    ensures DecodeBin(d, count0, total).1.code == d.code
    ensures DecodeBin(d, count0, total).1.offset == d.offset
  {
    DivModUnique(d.code - d.low, Two32, 0, d.code - d.low);
  }

  /** Equal slices have equal sub-slices. */
  lemma {:induction false} SubSlice(a: seq<byte>, b: seq<byte>, i: nat, j: nat, n: nat, p: nat, q: nat)
    requires i + n <= |a| && j + n <= |b| && a[i..i + n] == b[j..j + n] && p <= q <= n
    ensures a[i + p..i + q] == b[j + p..j + q]
  {
    var sa, sb := a[i + p..i + q], b[j + p..j + q];
    forall t | 0 <= t < |sa|
      ensures sa[t] == sb[t]
    {
      assert sa[t] == a[i..i + n][p + t];
      assert sb[t] == b[j..j + n][p + t];
    }
  }

  /** The windows of the stream around one renormalisation: the stream
      holds `r[4..]`, where `r` is `k` pushed bytes followed by `r2`. */
  lemma {:induction false} WindowSlide(stream: seq<byte>, r: seq<byte>, pushed: seq<byte>, r2: seq<byte>, offset: nat)
    requires r == pushed + r2 && |r2| >= 4
    requires offset + |r| - 4 <= |stream| && stream[offset..offset + |r| - 4] == r[4..]
    ensures stream[offset..offset + |pushed|] == r[4..4 + |pushed|]
    ensures r[|pushed|..|pushed| + 4] == r2[..4]
    ensures stream[offset + |pushed|..offset + |pushed| + |r2| - 4] == r2[4..]
  {
    var k := |pushed|;
    SubSlice(stream, r, offset, 4, |r| - 4, 0, k);
    SubSlice(stream, r, offset, 4, |r| - 4, k, |r| - 4);
    assert r[4 + k..] == r2[4..];
  }

  /** Renormalisation inside the stream: the decoder's cursor moves on by
      the number of bytes the encoder pushes. */
  lemma RenormalizeAdvance(d: Decoder, stream: seq<byte>, k: nat)
    requires Live(d) && k == |Renormalize(Shadow(d)).bytes| && d.offset + k <= |stream|
    ensures Shadow(DecodeRenormalize(d, stream)) == Renormalize(Shadow(d)).coder
    ensures DecodeRenormalize(d, stream).offset == d.offset + k
  {
    RenormalizeMirror(d, stream);
  }

  /** The decoder is in step with the encoder at the start of `bits`: its
      registers match the encoder's, its `code` holds the top four bytes of
      the rest of the stream and the stream goes on with the others. */
  predicate Aligned(bits: seq<int>, c: Coder, d: Decoder, stream: seq<byte>, count0: nat, total: nat)
  {
    && Normal(c) && 1 <= count0 < total <= Top
    && NoCarry(bits, c, count0, total)
    && Live(d) && Shadow(d) == c
    && var r := Rest(bits, c, count0, total);
       d.code == BE(r[..4]) && d.offset + |r| - 4 <= |stream|
       && stream[d.offset..d.offset + |r| - 4] == r[4..]
  }

  /** One bin of a carry-free run: the decoder decides it as it was
      encoded, its registers keep matching the encoder's, and its `code`
      and cursor move to the top of the rest of the stream. */
  lemma {:induction false} StepDecodes(bits: seq<int>, c: Coder, d: Decoder, stream: seq<byte>, count0: nat, total: nat)
    requires Aligned(bits, c, d, stream, count0, total) && bits != []
    ensures DecodeStep(d, stream, count0, total).0 == (if bits[0] == 0 then 0 else 1)
    ensures Aligned(bits[1..], EncodeStep(c, bits[0], count0, total).coder,
                    DecodeStep(d, stream, count0, total).1, stream, count0, total)
  {
    var r := Rest(bits, c, count0, total);
    FirstBinDecoded(bits, c, d, count0, total);
    DecodeBinRange(d, count0, total);
    var d1 := DecodeBin(d, count0, total).1;
    var e1 := EncodeStep(c, bits[0], count0, total);
    assert e1 == Renormalize(Shadow(d1));
    var r2 := Rest(bits[1..], e1.coder, count0, total);
    assert r == e1.bytes + r2 by {
      RestSplit(bits, c, count0, total);
    }
    SlideAfterBin(d1, stream, r, e1.bytes, r2);
    assert DecodeStep(d, stream, count0, total) == (DecodeBin(d, count0, total).0, DecodeRenormalize(d1, stream));
    assert NoCarry(bits[1..], e1.coder, count0, total);
  }

  /** Renormalisation after a bin, on the decoder's side: with the stream
      holding `r` past its top four bytes, where `r` is the bytes the
      encoder pushes followed by `r2`, the decoder's `code` and cursor move
      to the top of `r2`. */
  lemma {:induction false} SlideAfterBin(d: Decoder, stream: seq<byte>, r: seq<byte>, pushed: seq<byte>, r2: seq<byte>)
    requires Live(d) && pushed == Renormalize(Shadow(d)).bytes
    requires r == pushed + r2 && |r2| >= 4
    requires d.code == BE(r[..4]) && d.offset + |r| - 4 <= |stream|
             && stream[d.offset..d.offset + |r| - 4] == r[4..]
    ensures var d2 := DecodeRenormalize(d, stream);
            && Shadow(d2) == Renormalize(Shadow(d)).coder
            && d2.code == BE(r2[..4]) && d2.offset + |r2| - 4 <= |stream|
            && stream[d2.offset..d2.offset + |r2| - 4] == r2[4..]
  {
    WindowSlide(stream, r, pushed, r2, d.offset);
    RenormalizeWindow(d, stream, r);
    RenormalizeAdvance(d, stream, |pushed|);
  }

  /** `n >= 1` bins decoded: the first step's bin, then the rest decoded
      from the registers it leaves. */
  lemma {:induction false} DecodeRunFirst(n: nat, d: Decoder, stream: seq<byte>, count0: nat, total: nat)
    requires Live(d) && 1 <= count0 < total && n >= 1
    ensures var (bit, d1) := DecodeStep(d, stream, count0, total);
            DecodeRun(n, d, stream, count0, total).0 == [bit] + DecodeRun(n - 1, d1, stream, count0, total).0
  {
  }

  /** The decoder decides every bin of a carry-free run as it was encoded,
      from any state in step with the encoder's. */
  lemma {:induction false} RunDecodes(bits: seq<int>, c: Coder, d: Decoder, stream: seq<byte>,
                                      count0: nat, total: nat)
    requires Aligned(bits, c, d, stream, count0, total)
    ensures DecodeRun(|bits|, d, stream, count0, total).0 == Bins(bits)
  {
    if bits != [] {
      StepDecodes(bits, c, d, stream, count0, total);
      var step := DecodeStep(d, stream, count0, total);
      var tail := DecodeRun(|bits| - 1, step.1, stream, count0, total).0;
      assert tail == Bins(bits[1..]) by {
        RunDecodes(bits[1..], EncodeStep(c, bits[0], count0, total).coder, step.1, stream, count0, total);
      }
      DecodeRunFirst(|bits|, d, stream, count0, total);
      assert Bins(bits) == [step.0] + Bins(bits[1..]);
    } else {
      assert DecodeRun(0, d, stream, count0, total).0 == [];
    }
  }

  /** The decoder's initial `code` is the first four bytes after the
      header, read big-endian. */
  lemma {:induction false} InitialCodeIsBE(stream: seq<byte>)
    requires 16 <= |stream|
    ensures InitialCode(stream, 4) == BE(stream[12..16])
  {
    InitialCodeBigEndian(stream);
    BEFour(stream[12..16]);
  }

  /** `arithDecodeBits` on a stream whose header is valid: the bins the
      decoder's loop gives from its initial registers. */
  lemma {:induction false} DecodingOfValidHeader(stream: seq<byte>, numBits: nat, count0: nat, count1: nat)
    requires 16 <= |stream| && DecodableHeader(stream) && ReadU32LE(stream, 0) == numBits
    requires ReadU32LE(stream, 4) == count0 >= 1 && ReadU32LE(stream, 8) == count1 >= 1
    ensures ArithDecoding(stream)
            == Ok(DecodeRun(numBits, Decoder(0, FullRange, BE(stream[12..16]), 16),
                            stream, count0, count0 + count1).0)
  {
    InitialCodeIsBE(stream);
  }

  /** The stream `arithEncodeBits` writes: the header fields, then the
      rest of the stream from the initial registers. */
  lemma {:induction false} EncodedStream(bits: seq<int>)
    requires EncodableCounts(bits)
    ensures var out := ArithEncoding(bits);
            var count0, count1 := Count0(bits), Count1(bits);
            && 1 <= count0 && 1 <= count1 && count0 + count1 <= Top
            && |out| >= 16 && DecodableHeader(out)
            && ReadU32LE(out, 0) == |bits| && ReadU32LE(out, 4) == count0 && ReadU32LE(out, 8) == count1
            && out[12..] == Rest(bits, Coder(0, FullRange), count0, count0 + count1)
  {
    EncodingLayout(bits);
    DecodeEncodedShape(bits);
  }

  /** A decoder that starts from the encoder's registers, with its `code`
      the first four bytes after the 12-byte header, is in step with the
      encoder on a stream that holds the rest of the stream from there. */
  lemma {:induction false} AlignedAtStart(bits: seq<int>, out: seq<byte>, start: Coder, d: Decoder,
                                          count0: nat, total: nat)
    requires 1 <= count0 < total <= Top && Normal(start) && NoCarry(bits, start, count0, total)
    requires |out| >= 16 && out[12..] == Rest(bits, start, count0, total)
    requires d == Decoder(start.low, start.range, BE(out[12..16]), 16)
    ensures Aligned(bits, start, d, out, count0, total)
  {
    var r := out[12..];
    assert out[12..16] == r[..4];
    assert out[16..] == r[4..];
  }

  /** The decoder started as in `AlignedAtStart` gives back every bin. */
  lemma {:induction false} DecodesFromStart(bits: seq<int>, out: seq<byte>, start: Coder, d: Decoder,
                                            count0: nat, total: nat)
    requires 1 <= count0 < total <= Top && Normal(start) && NoCarry(bits, start, count0, total)
    requires |out| >= 16 && out[12..] == Rest(bits, start, count0, total)
    requires d == Decoder(start.low, start.range, BE(out[12..16]), 16)
    ensures DecodeRun(|bits|, d, out, count0, total).0 == Bins(bits)
  {
    AlignedAtStart(bits, out, start, d, count0, total);
    RunDecodes(bits, start, d, out, count0, total);
  }

  /** The round trip: whenever no 1-bin makes `low + split` reach 2^32,
      `arithDecodeBits` gives back every bin of what `arithEncodeBits`
      coded, a nonzero entry as 1. */
  lemma {:induction false} RoundTripWithoutCarry(bits: seq<int>)
    requires EncodableCounts(bits) && NoCarryIn(bits)
    ensures DecodableHeader(ArithEncoding(bits))
    ensures ArithDecoding(ArithEncoding(bits)) == Ok(Bins(bits))
  {
    EncodedStream(bits);
    DecodesStream(bits, ArithEncoding(bits), Coder(0, FullRange), Count0(bits), Count1(bits));
  }

  /** A stream whose header holds the length and the counts, followed by
      the rest of the stream from the encoder's initial registers, decodes
      to the bins. */
  lemma {:induction false} DecodesStream(bits: seq<int>, out: seq<byte>, start: Coder, count0: nat, count1: nat)
    requires start.low == 0 && start.range == FullRange
    requires 1 <= count0 && 1 <= count1 && count0 + count1 <= Top
    requires NoCarry(bits, start, count0, count0 + count1)
    requires |out| >= 16 && DecodableHeader(out)
    requires ReadU32LE(out, 0) == |bits| && ReadU32LE(out, 4) == count0 && ReadU32LE(out, 8) == count1
    requires out[12..] == Rest(bits, start, count0, count0 + count1)
    ensures ArithDecoding(out) == Ok(Bins(bits))
  {
    var d := Decoder(0, FullRange, BE(out[12..16]), 16);
    assert DecodeRun(|bits|, d, out, count0, count0 + count1).0 == Bins(bits) by {
      DecodesFromStart(bits, out, start, d, count0, count0 + count1);
    }
    DecodingOfValidHeader(out, |bits|, count0, count1);
  }

  /** Bins given as 0s and 1s come back unchanged. */
  lemma {:induction false} BinaryRoundTripWithoutCarry(bits: seq<int>)
    requires EncodableCounts(bits) && NoCarryIn(bits)
    requires forall i :: 0 <= i < |bits| ==> bits[i] == 0 || bits[i] == 1
    ensures DecodableHeader(ArithEncoding(bits))
    ensures ArithDecoding(ArithEncoding(bits)) == Ok(bits)
  {
    RoundTripWithoutCarry(bits);
    assert Bins(bits) == bits;
  }

  /** A run of 0-bins never carries: only 1-bins add to `low`. */
  lemma {:induction false} ZerosNeverCarry(bits: seq<int>, c: Coder, count0: nat, total: nat)
    requires Normal(c) && 1 <= count0 < total <= Top
    requires forall i :: 0 <= i < |bits| ==> bits[i] == 0
    ensures NoCarry(bits, c, count0, total)
    decreases |bits|
  {
    if bits != [] {
      ZerosNeverCarry(bits[1..], EncodeStep(c, bits[0], count0, total).coder, count0, total);
    }
  }
}
