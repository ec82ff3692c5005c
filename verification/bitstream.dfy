/** Bit-level I/O (bitstream.hpp / bitstream.cpp): a writer that packs bits
    least-significant-bit first into bytes, and a reader that takes them back
    out in the same order. */
module Bitstream {
  import opened Common

  // ---------------------------------------------------------------------
  // Bits of a number
  // ---------------------------------------------------------------------

  /** The number whose bit i is `bits[i]` (bit 0 first). */
  function LsbValue(bits: seq<bool>): nat
  {
    if bits == [] then 0 else (if bits[0] then 1 else 0) + 2 * LsbValue(bits[1..])
  }

  /** `(v >> j) & 1 == 1`: shift right j times, then look at the parity. */
  predicate TestBit(v: nat, j: nat)
  {
    if j == 0 then v % 2 == 1 else TestBit(v / 2, j - 1)
  }

  /** `v | (bit << j)`: bit j set when `bit` holds, every other bit kept. */
  function SetBit(v: nat, j: nat, bit: bool): nat
  {
    if bit && !TestBit(v, j) then v + Pow2(j) else v
  }

  /** The first `n` bits of `v`, bit 0 first: what `writeBits(v, n)` feeds to `writeBit`. */
  function LsbBits(v: nat, n: nat): (bits: seq<bool>)
    ensures |bits| == n
    ensures forall i :: 0 <= i < n ==> bits[i] == TestBit(v, i)
  {
    seq(n, i requires 0 <= i => TestBit(v, i))
  }

  lemma {:induction false} Pow2Monotone(a: nat, b: nat)
    requires a <= b
    ensures Pow2(a) <= Pow2(b)
  {
    if a < b {
      Pow2Monotone(a, b - 1);
    }
  }

  /** Adding 2^j to a number whose bit j is clear sets exactly that bit. */
  lemma {:induction false} AddPow2Bits(v: nat, j: nat, i: nat)
    requires !TestBit(v, j)
    ensures TestBit(v + Pow2(j), i) == (i == j || TestBit(v, i))
  {
    if j == 0 {
      assert v % 2 == 0;
      if i > 0 {
        assert (v + 1) / 2 == v / 2;
      }
    } else {
      assert v + Pow2(j) == v + 2 * Pow2(j - 1);
      if i > 0 {
        assert (v + Pow2(j)) / 2 == v / 2 + Pow2(j - 1);
        AddPow2Bits(v / 2, j - 1, i - 1);
      }
    }
  }

  /** The meaning of `|=` with a single shifted bit. */
  lemma SetBitEffect(v: nat, j: nat, bit: bool, i: nat)
    ensures TestBit(SetBit(v, j, bit), i) == ((bit && i == j) || TestBit(v, i))
  {
    if bit && !TestBit(v, j) {
      AddPow2Bits(v, j, i);
    }
  }

  /** Bit j of `LsbValue(bits)` is `bits[j]`, and zero beyond the sequence. */
  lemma {:induction false} TestBitOfLsbValue(bits: seq<bool>, j: nat)
    ensures TestBit(LsbValue(bits), j) == (j < |bits| && bits[j])
  {
    if bits == [] {
      if j > 0 {
        ZeroHasNoBits(j);
      }
    } else {
      var b := if bits[0] then 1 else 0;
      var v := LsbValue(bits[1..]);
      assert LsbValue(bits) == 2 * v + b;
      DivModUnique(LsbValue(bits), 2, v, b);
      if j > 0 {
        TestBitOfLsbValue(bits[1..], j - 1);
      }
    }
  }

  lemma {:induction false} ZeroHasNoBits(j: nat)
    ensures !TestBit(0, j)
  {
    if j > 0 {
      ZeroHasNoBits(j - 1);
    }
  }

  /** A value of k bits is below 2^k. */
  lemma {:induction false} LsbValueBound(bits: seq<bool>)
    ensures LsbValue(bits) < Pow2(|bits|)
  {
    if bits != [] {
      LsbValueBound(bits[1..]);
    }
  }

  /** Appending a bit at position |bits| is what `|= bit << bitPos` computes. */
  lemma {:induction false} LsbValueSnoc(bits: seq<bool>, b: bool)
    ensures LsbValue(bits + [b]) == SetBit(LsbValue(bits), |bits|, b)
  {
    TestBitOfLsbValue(bits, |bits|);
    LsbValueAppend(bits, b);
  }

  lemma {:induction false} LsbValueAppend(bits: seq<bool>, b: bool)
    ensures LsbValue(bits + [b]) == LsbValue(bits) + (if b then Pow2(|bits|) else 0)
  {
    if bits != [] {
      assert (bits + [b])[1..] == bits[1..] + [b];
      LsbValueAppend(bits[1..], b);
    }
  }

  /** Zero bits appended at the top change nothing: the padding of `flush`. */
  lemma {:induction false} LsbValueZeroPadding(bits: seq<bool>, n: nat)
    ensures LsbValue(bits + Zeros(n)) == LsbValue(bits)
  {
    if bits == [] {
      assert bits + Zeros(n) == Zeros(n);
      LsbValueOfZeros(n);
    } else {
      assert (bits + Zeros(n))[1..] == bits[1..] + Zeros(n);
      LsbValueZeroPadding(bits[1..], n);
    }
  }

  lemma {:induction false} LsbValueOfZeros(n: nat)
    ensures LsbValue(Zeros(n)) == 0
  {
    if n > 0 {
      assert Zeros(n)[1..] == Zeros(n - 1);
      LsbValueOfZeros(n - 1);
    }
  }

  function Zeros(n: nat): (z: seq<bool>)
    ensures |z| == n && forall i :: 0 <= i < n ==> !z[i]
  {
    seq(n, i => false)
  }

  /** One more low bit extends the bit list by bit `n`. */
  lemma LsbBitsSnoc(v: nat, n: nat)
    ensures LsbBits(v, n + 1) == LsbBits(v, n) + [TestBit(v, n)]
  {
    var a, b := LsbBits(v, n + 1), LsbBits(v, n) + [TestBit(v, n)];
    assert |a| == |b|;
    forall i | 0 <= i < n + 1
      ensures a[i] == b[i]
    {
    }
  }

  lemma {:induction false} LsbBitsValue(v: nat, n: nat)
    ensures LsbValue(LsbBits(v, n)) == v % Pow2(n)
  {
    if n > 0 {
      var t := LsbBits(v / 2, n - 1);
      assert LsbBits(v, n)[1..] == t by {
        forall i | 0 <= i < n - 1
          ensures LsbBits(v, n)[1..][i] == t[i]
        {
          assert TestBit(v, i + 1) == TestBit(v / 2, i);
        }
      }
      LsbBitsValue(v / 2, n - 1);
      HalvingMod(v, Pow2(n - 1));
    }
  }

  /** The remainder modulo `2p` from the low bit and the remainder of the
      half modulo `p`. */
  lemma HalvingMod(v: nat, p: nat)
    requires p >= 1
    ensures v % (2 * p) == 2 * ((v / 2) % p) + v % 2
  {
    var q := (v / 2) / p;
    var r := (v / 2) % p;
    assert v == 2 * p * q + (2 * r + v % 2);
    DivModUnique(v, 2 * p, q, 2 * r + v % 2);
  }

  // ---------------------------------------------------------------------
  // Bytes of a bit sequence
  // ---------------------------------------------------------------------

  /** The bytes that hold `bits` LSB-first, eight to a byte, the last byte
      zero-padded in its unused high bits. */
  function Pack(bits: seq<bool>): (bytes: seq<byte>)
    ensures |bytes| == (|bits| + 7) / 8
  {
    if bits == [] then []
    else if |bits| <= 8 then
      LsbValueBound(bits);
      Pow2Monotone(|bits|, 8);
      [LsbValue(bits)]
    else
      LsbValueBound(bits[..8]);
      [LsbValue(bits[..8])] + Pack(bits[8..])
  }

  /** Bit `p` of a byte buffer read LSB-first: bit `p % 8` of byte `p / 8`. */
  predicate BitAt(bytes: seq<byte>, p: nat)
    requires p < 8 * |bytes|
  {
    TestBit(bytes[p / 8], p % 8)
  }

  /** Bit p of the packed bytes is bit p of the input, and zero in the padding. */
  lemma {:induction false} PackBitAt(bits: seq<bool>, p: nat)
    requires p < 8 * |Pack(bits)|
    ensures BitAt(Pack(bits), p) == (p < |bits| && bits[p])
  {
    if |bits| <= 8 {
      TestBitOfLsbValue(bits, p);
    } else if p < 8 {
      TestBitOfLsbValue(bits[..8], p);
    } else {
      PackBitAt(bits[8..], p - 8);
      assert Pack(bits)[p / 8] == Pack(bits[8..])[(p - 8) / 8];
    }
  }

  /** Packing splits at a byte boundary. */
  lemma {:induction false} PackAppend(a: seq<bool>, b: seq<bool>)
    requires |a| % 8 == 0
    ensures Pack(a + b) == Pack(a) + Pack(b)
  {
    if a == [] {
      assert a + b == b;
    } else {
      assert (a + b)[..8] == a[..8];
      assert (a + b)[8..] == a[8..] + b;
      if |a| == 8 {
        assert a[8..] == [];
        assert Pack(a) == [LsbValue(a[..8])] by { assert a[..8] == a; }
        if b == [] {
          assert a + b == a;
        }
      } else {
        PackAppend(a[8..], b);
      }
    }
  }

  /** A byte's worth of bits or less packs into the single byte `LsbValue`. */
  lemma PackShort(bits: seq<bool>)
    requires 0 < |bits| <= 8
    ensures Pack(bits) == [LsbValue(bits)]
  {
  }

  /** Padding a partial byte with zeros to a whole byte does not change the
      packed bytes, whose last one is the partial byte's value. */
  lemma PadPartialByte(head: seq<bool>, tail: seq<bool>, n: nat)
    requires |head| % 8 == 0 && 0 < |tail| < 8 && n == 8 - |tail|
    ensures Pack(head + tail) == Pack(head) + [LsbValue(tail)]
    ensures Pack(head + (tail + Zeros(n))) == Pack(head) + [LsbValue(tail)]
  {
    LsbValueZeroPadding(tail, n);
    PackShort(tail);
    PackShort(tail + Zeros(n));
    PackAppend(head, tail);
    PackAppend(head, tail + Zeros(n));
  }

  /** ORing a bit into the accumulator appends it to the partial byte. */
  lemma AccumulateBit(tail: seq<bool>, bit: bool)
    requires |tail| < 8
    ensures SetBit(LsbValue(tail), |tail|, bit) == LsbValue(tail + [bit]) < 256
  {
    LsbValueSnoc(tail, bit);
    LsbValueBound(tail + [bit]);
    Pow2Monotone(|tail| + 1, 8);
  }

  /** Eight more bits after a whole number of bytes pack into one more byte. */
  lemma PackCompletedByte(head: seq<bool>, full: seq<bool>)
    requires |head| % 8 == 0 && |full| == 8
    ensures Pack(head + full) == Pack(head) + [LsbValue(full)]
  {
    PackAppend(head, full);
    PackShort(full);
  }

  // ---------------------------------------------------------------------
  // BitWriter
  // ---------------------------------------------------------------------

  /** The writer's representation invariant over its field values: the
      completed bytes pack the bits before the partial byte, and the
      accumulator holds the partial byte's bits. */
  ghost predicate WriterState(buffer: seq<byte>, currentByte: byte, bitPos: nat, written: seq<bool>)
  {
    && bitPos < 8
    && |written| == 8 * |buffer| + bitPos
    && buffer == Pack(written[..8 * |buffer|])
    && currentByte == LsbValue(written[8 * |buffer|..])
  }

  /** `writeBit` keeps the invariant: the bit joins the partial byte, and
      the eighth bit moves the byte to the buffer. */
  lemma WriteBitStep(buffer: seq<byte>, currentByte: byte, bitPos: nat, written: seq<bool>, bit: bool)
    requires WriterState(buffer, currentByte, bitPos, written)
    ensures SetBit(currentByte, bitPos, bit) < 256
    ensures var byte' := SetBit(currentByte, bitPos, bit);
            if bitPos + 1 == 8 then WriterState(buffer + [byte'], 0, 0, written + [bit])
            else WriterState(buffer, byte', bitPos + 1, written + [bit])
  {
    var head, tail := written[..8 * |buffer|], written[8 * |buffer|..];
    assert written == head + tail;
    AccumulateBit(tail, bit);
    var w := written + [bit];
    assert w == head + (tail + [bit]);
    if bitPos + 1 == 8 {
      PackCompletedByte(head, tail + [bit]);
      assert w[..8 * (|buffer| + 1)] == w;
      assert w[8 * (|buffer| + 1)..] == [];
    } else {
      assert w[..8 * |buffer|] == head;
      assert w[8 * |buffer|..] == tail + [bit];
    }
  }

  /** `flush` returns every bit written so far, packed: the completed bytes
      and, if there is one, the partial byte. */
  lemma FlushStep(buffer: seq<byte>, currentByte: byte, bitPos: nat, written: seq<bool>)
    requires WriterState(buffer, currentByte, bitPos, written)
    ensures buffer + (if bitPos == 0 then [] else [currentByte]) == Pack(written)
  {
    var head, tail := written[..8 * |buffer|], written[8 * |buffer|..];
    assert written == head + tail;
    if bitPos != 0 {
      PadPartialByte(head, tail, 8 - bitPos);
    } else {
      assert tail == [] && written == head;
    }
  }

  /** `flush` keeps the invariant: the zero-padded partial byte moves to
      the buffer. */
  lemma FlushPadStep(buffer: seq<byte>, currentByte: byte, bitPos: nat, written: seq<bool>)
    requires WriterState(buffer, currentByte, bitPos, written) && bitPos != 0
    ensures WriterState(buffer + [currentByte], 0, 0, written + Zeros(8 - bitPos))
  {
    var head, tail := written[..8 * |buffer|], written[8 * |buffer|..];
    assert written == head + tail;
    var w := written + Zeros(8 - bitPos);
    PadPartialByte(head, tail, 8 - bitPos);
    assert w == head + (tail + Zeros(8 - bitPos));
    assert |w| == 8 * (|buffer| + 1);
    assert w[..8 * (|buffer| + 1)] == w;
    assert w[8 * (|buffer| + 1)..] == [];
  }

  /** `BitWriter`: completed bytes in `buffer`, the byte being filled in
      `currentByte`, the next free bit position in `bitPos`. `Written` is
      the whole bit sequence these three hold, zero padding of a flushed
      partial byte included. */
  class BitWriter {
    var buffer: seq<byte>
    var currentByte: byte
    var bitPos: nat
    ghost var Written: seq<bool>

    ghost predicate Valid()
      reads this
    {
      WriterState(buffer, currentByte, bitPos, Written)
    }

    constructor ()
      ensures Valid() && Written == [] && buffer == []
    {
      buffer := [];
      currentByte := 0;
      bitPos := 0;
      Written := [];
    }

    /** `writeBit`: OR the bit into position `bitPos`; on the eighth bit the
        byte moves to the buffer and the accumulator restarts. */
    method WriteBit(bit: bool)
      requires Valid()
      modifies this
      ensures Valid()
      ensures Written == old(Written) + [bit]
      ensures |buffer| == |Written| / 8 && bitPos == |Written| % 8
    {
      WriteBitStep(buffer, currentByte, bitPos, Written, bit);
      currentByte := SetBit(currentByte, bitPos, bit);
      bitPos := bitPos + 1;
      Written := Written + [bit];
      if bitPos == 8 {
        buffer := buffer + [currentByte];
        currentByte := 0;
        bitPos := 0;
      }
    }

    /** `writeBits`: bits 0 .. nBits-1 of `value`, bit 0 first. A count of 32
        or more would shift a `uint32_t` by its width. */
    method WriteBits(value: nat, nBits: int)
      requires Valid() && value < Two32 && nBits <= 32
      modifies this
      ensures Valid()
      ensures Written == old(Written) + LsbBits(value, if nBits < 0 then 0 else nBits)
    {
      var n := if nBits < 0 then 0 else nBits;
      for i := 0 to n
        invariant Valid()
        invariant Written == old(Written) + LsbBits(value, i)
      {
        LsbBitsSnoc(value, i);
        WriteBit(TestBit(value, i));
      }
    }

    /** `flush`: emit the zero-padded partial byte, if any, and return the
        whole buffer. The buffer is kept, so flushing again returns the
        same bytes. */
    method Flush() returns (bytes: seq<byte>)
      requires Valid()
      modifies this
      ensures Valid() && bitPos == 0 && bytes == buffer
      ensures bytes == Pack(old(Written))
      ensures |bytes| == (|old(Written)| + 7) / 8
      ensures Written == old(Written) + Zeros(if old(bitPos) == 0 then 0 else 8 - old(bitPos))
    {
      FlushStep(buffer, currentByte, bitPos, Written);
      if bitPos != 0 {
        FlushPadStep(buffer, currentByte, bitPos, Written);
        buffer := buffer + [currentByte];
        currentByte := 0;
        Written := Written + Zeros(8 - bitPos);
        bitPos := 0;
      } else {
        assert Written + Zeros(0) == Written;
      }
      bytes := buffer;
    }
  }

  // ---------------------------------------------------------------------
  // BitReader
  // ---------------------------------------------------------------------

  /** The `n` bits starting at bit position `p` of a buffer, read LSB-first. */
  function BitsFrom(bytes: seq<byte>, p: nat, n: nat): (bits: seq<bool>)
    requires p + n <= 8 * |bytes|
    ensures |bits| == n
  {
    seq(n, i requires 0 <= i < n => BitAt(bytes, p + i))
  }

  /** `BitReader`: a cursor (`byteIndex`, `bitPos`) over a read-only buffer. */
  class BitReader {
    const data: seq<byte>
    var byteIndex: nat
    var bitPos: nat

    ghost predicate Valid()
      reads this
    {
      bitPos < 8 && (byteIndex < |data| || (byteIndex == |data| && bitPos == 0))
    }

    /** The number of bits read so far. */
    function Position(): nat
      reads this
    {
      8 * byteIndex + bitPos
    }

    constructor (data: seq<byte>)
      ensures Valid() && this.data == data && Position() == 0
    {
      this.data := data;
      byteIndex := 0;
      bitPos := 0;
    }

    /** `readBit`: fails once the cursor has passed the last byte; otherwise
        returns the next bit and advances, moving to the next byte after bit 7. */
    method ReadBit() returns (r: Result<bool>)
      requires Valid()
      modifies this
      ensures Valid()
      ensures old(Position()) < 8 * |data| ==>
                r == Ok(BitAt(data, old(Position()))) && Position() == old(Position()) + 1
      ensures old(Position()) >= 8 * |data| ==>
                r == Err(OutOfData) && byteIndex == old(byteIndex) && bitPos == old(bitPos)
    {
      if byteIndex >= |data| {
        return Err(OutOfData);
      }
      assert Position() / 8 == byteIndex && Position() % 8 == bitPos;
      var bit := TestBit(data[byteIndex], bitPos);
      bitPos := bitPos + 1;
      if bitPos == 8 {
        bitPos := 0;
        byteIndex := byteIndex + 1;
      }
      return Ok(bit);
    }

    /** `readBits`: the next nBits bits as a number, bit 0 first. `1u << i`
        needs nBits <= 32. If the data runs out, the failure of `readBit`
        propagates with the cursor at the end of the buffer. */
    method ReadBits(nBits: int) returns (r: Result<nat>)
      requires Valid() && nBits <= 32
      modifies this
      ensures Valid()
      ensures var n := if nBits < 0 then 0 else nBits;
              if old(Position()) + n <= 8 * |data|
              then r == Ok(LsbValue(BitsFrom(data, old(Position()), n)))
                   && Position() == old(Position()) + n
              else r == Err(OutOfData) && Position() == 8 * |data|
    {
      var n := if nBits < 0 then 0 else nBits;
      ghost var p0 := Position();
      var v: nat := 0;
      var i := 0;
      while i < n
        invariant Valid() && i <= n
        invariant Position() == p0 + i <= 8 * |data|
        invariant v == LsbValue(BitsFrom(data, p0, i))
      {
        var b := ReadBit();
        if b.Err? {
          return Err(OutOfData);
        }
        LsbValueSnoc(BitsFrom(data, p0, i), b.value);
        assert BitsFrom(data, p0, i + 1) == BitsFrom(data, p0, i) + [b.value];
        if b.value {
          v := SetBit(v, i, true);
        }
        i := i + 1;
      }
      return Ok(v);
    }
  }
}
