/** Shared vocabulary of the three codecs: bytes, the failure type that
    stands for the C++ exceptions, and small sequence helpers. */
module Common {

  /** An unsigned 8-bit value (`uint8_t` / `unsigned char`). */
  type byte = b: int | 0 <= b < 256

  /** 2^32, the modulus of every `uint32_t` computation. */
  const Two32: nat := 0x1_0000_0000

  /** The kinds of `std::runtime_error` the codecs throw. */
  datatype Error =
    | SymbolOutOfRange        // ransEncode, binarizeSymbol
    | StreamTooShort          // ransDecode, arithDecodeBits: fewer than 12 bytes
    | ZeroFrequency           // ransDecode: a header frequency is 0
    | TotalFrequencyMismatch  // ransDecode: frequencies do not add up to 4096
    | InvalidCounts           // arithDecodeBits: a header count is 0
    | NoDataBytes             // arithDecodeBits: fewer than 4 payload bytes
    | OutOfData               // BitReader::readBit past the end

  /** The value of an operation that either returns or throws. */
  datatype Result<T> = Ok(value: T) | Err(error: Error)

  function Pow2(n: nat): (p: nat)
    ensures p >= 1
  {
    if n == 0 then 1 else 2 * Pow2(n - 1)
  }

  /** 256^k: the weight of byte k of a little-endian number. */
  function Pow256(k: nat): (p: nat)
    ensures p >= 1
  {
    if k == 0 then 1 else 256 * Pow256(k - 1)
  }

  function Reverse<T>(s: seq<T>): (r: seq<T>)
    ensures |r| == |s|
    ensures forall i :: 0 <= i < |s| ==> r[i] == s[|s| - 1 - i]
  {
    if s == [] then [] else Reverse(s[1..]) + [s[0]]
  }

  /** A symbol of the alphabet {0,1,2,3}. */
  type Symbol = s: int | 0 <= s < 4

  /** Every element is a symbol of the alphabet {0,1,2,3}. */
  predicate AllSymbols(s: seq<int>)
  {
    forall i :: 0 <= i < |s| ==> 0 <= s[i] < 4
  }

  /** Euclidean division is unique: a decomposition v == m*q + t with
      0 <= t < m gives the quotient and the remainder. */
  lemma DivModUnique(v: int, m: int, q: int, t: int)
    requires m > 0 && 0 <= t < m && v == m * q + t
    ensures v / m == q && v % m == t
  {
    var q0, t0 := v / m, v % m;
    assert m * (q - q0) == t0 - t;
    MulBounds(m, q - q0);
  }

  lemma MulAssoc(a: int, b: int, c: int)
    ensures (a * b) * c == a * (b * c)
  {
  }

  lemma MulBounds(m: int, k: int)
    requires m > 0
    ensures k >= 1 ==> m * k >= m
    ensures k <= -1 ==> m * k <= -m
  {
    if k >= 1 {
      assert m * k == m + m * (k - 1);
    } else if k <= -1 {
      assert m * k == -m + m * (k + 1);
    }
  }
}
