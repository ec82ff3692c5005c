/** The little-endian header helpers. rans.cpp and cabac.cpp each carry their
    own copy of `writeU32LE`/`readU32LE`; both copies compute the same bytes,
    so they are defined once here. */
module LittleEndian {
  import opened Common

  /** `writeU16LE`: the low byte first, then the high byte. */
  function U16LE(v: nat): (r: seq<byte>)
    requires v < 0x1_0000
    ensures |r| == 2
  {
    [v % 256, (v / 256) % 256]
  }

  /** `writeU32LE`: the four bytes of `v`, least significant first. */
  function U32LE(v: nat): (r: seq<byte>)
    requires v < Two32
    ensures |r| == 4
  {
    [v % 256, (v / 0x100) % 256, (v / 0x1_0000) % 256, (v / 0x100_0000) % 256]
  }

  /** `readU16LE` at `offset`, inside a buffer already known to be long enough. */
  function ReadU16LE(bytes: seq<byte>, offset: nat): (v: nat)
    requires offset + 2 <= |bytes|
    ensures v < 0x1_0000
  {
    bytes[offset] as nat + 0x100 * bytes[offset + 1] as nat
  }

  /** `readU32LE` at `offset`, inside a buffer already known to be long enough. */
  function ReadU32LE(bytes: seq<byte>, offset: nat): (v: nat)
    requires offset + 4 <= |bytes|
    ensures v < Two32
  {
    bytes[offset] as nat + 0x100 * bytes[offset + 1] as nat
      + 0x1_0000 * bytes[offset + 2] as nat + 0x100_0000 * bytes[offset + 3] as nat
  }

  /** Reading back what `writeU16LE` wrote gives the value, wherever it sits. */
  lemma U16RoundTrip(pre: seq<byte>, v: nat, post: seq<byte>)
    requires v < 0x1_0000
    ensures ReadU16LE(pre + U16LE(v) + post, |pre|) == v
  {
    var s := pre + U16LE(v) + post;
    assert s[|pre|] == v % 256 && s[|pre| + 1] == (v / 256) % 256;
  }

  /** Reading back what `writeU32LE` wrote gives the value, wherever it sits. */
  lemma U32RoundTrip(pre: seq<byte>, v: nat, post: seq<byte>)
    requires v < Two32
    ensures ReadU32LE(pre + U32LE(v) + post, |pre|) == v
  {
    var s := pre + U32LE(v) + post;
    var n := |pre|;
    assert s[n] == v % 256 && s[n + 1] == (v / 0x100) % 256;
    assert s[n + 2] == (v / 0x1_0000) % 256 && s[n + 3] == (v / 0x100_0000) % 256;
    assert v / 0x1_0000 == (v / 0x100) / 0x100;
    assert v / 0x100_0000 == (v / 0x1_0000) / 0x100;
  }

  /** `n` times: take the low byte of `v`, then shift `v` right by a byte
      (the encoders' flush loops). */
  function LsbFirst(v: nat, n: nat): (r: seq<byte>)
    ensures |r| == n
  {
    if n == 0 then [] else [v % 256] + LsbFirst(v / 256, n - 1)
  }

  /** Four rounds of the flush loop write what `writeU32LE` writes. */
  lemma LsbFirstIsU32LE(v: nat)
    requires v < Two32
    ensures LsbFirst(v, 4) == U32LE(v)
  {
    var v1, v2, v3 := v / 0x100, v / 0x1_0000, v / 0x100_0000;
    assert v2 == v1 / 0x100;
    assert v3 == v2 / 0x100;
    assert v3 / 0x100 == 0;
    assert LsbFirst(v3, 1) == [v3 % 256];
    assert LsbFirst(v2, 2) == [v2 % 256, v3 % 256];
    assert LsbFirst(v1, 3) == [v1 % 256, v2 % 256, v3 % 256];
  }
}
