# Entropy coders of the EE-555 project, modelled in Dafny

The project compares three ways of coding a stream of 4-ary symbols. This
model covers the three integer codecs behind that comparison.

- **rANS** (`Code/src/rans.cpp`, modules `RansModel`, `Rans`,
  `RansCounterexamples` and `RansCorrected`). The coder has a static
  4-symbol model.
  - `ransEncode` builds a histogram and normalises it to frequencies that
    sum to 4096.
  - It writes a 12-byte little-endian header (N, then four u16
    frequencies).
  - It folds the symbols into a 32-bit state `x` in reverse order, pushing
    the low byte while `x >= 2^15 * f`. It then flushes `x` least
    significant byte first.
  - `ransDecode` checks the header and rebuilds `x` from the last four
    bytes. For each symbol it searches the cumulative table, undoes the
    step, and refills `x` from the payload backwards towards the header.
- **Binarisation and the toy binary range coder** (`Code/src/cabac.cpp`,
  modules `Binarization`, `RangeCoder` and `RangeRoundTrip`).
  - There are two unary code tables, and `binarizeSequence` concatenates
    their codes.
  - `packBitsToBytes` drives a `BitWriter`.
  - The range coder uses a static model. It has 32-bit `low`/`range`/`code`
    registers and renormalises while `range < 2^24`. Its stream is a
    12-byte header followed by the coded bytes.
- **Bit I/O** (`Code/src/bitstream.cpp`, module `Bitstream`).
  - `BitWriter` and `BitReader` are classes whose fields change bit by
    bit.
  - `BitWriter` carries a ghost field `Written`, which holds every bit the
    three fields represent.
  - `BitReader` exposes its cursor as `Position()`.

Modules `Common` and `LittleEndian` hold the shared types:
- `byte`;
- a `Result` type for the C++ exceptions;
- the little-endian helpers that both codecs define.

All 32-bit arithmetic is on `nat`, reduced `% 2^32` exactly where the
C++ wraps:
- `low += split` and `low <<= 8` in the range coder;
- `code - low` in the range decoder;
- the `uint16_t` prefix sums of the rANS tables.

Each loop of the source is a method with loop invariants. The method is
proved equal to a specification function, and the properties are proved
as lemmas about that function. The methods are:
- the histogram, scaling, trimming, cumulative-table, core and refill
  loops of the rANS code;
- the bin loops and both `renormalize` lambdas of the range coder;
- `writeBits` and `readBits`.

What was found while proving:

- **The rANS round trip does not hold as written.**
  - `main.cpp` compares `ransDecode(ransEncode(s))` with `s`, and the code
    fails that comparison for three reasons (see Findings).
  - `RansCorrected` repairs these three defects, the wrapped header check
    and the empty-stream case. It proves the round trip for every input of
    symbols 0..3.
- **The trimming `break` is never taken.** `TrimReachesTotal` shows that
  the `break` at `rans.cpp:107` is unreachable. `NormalizedFreqsValid`
  shows that the zero fix-up at `rans.cpp:114` never fires.
- **The two binarisations are seldom the same length.** Their lengths
  add up to `5 * N`, and they are equal exactly when `2 * sum == 3 * N`,
  that is, when the mean symbol is 1.5 (`LengthsEqualIff`). They are not
  equal in general.
- **The range decoder mirrors the encoder.** Whenever the decoder decides
  the bin the encoder coded, both apply the same `low`/`range` update and
  the same shifts (`StepMirror`, `RunMirror`).
- **The range coder round-trips when no carry occurs.** Suppose no 1-bin
  makes `low + split` reach 2^32 (`NoCarry`). Then `arithDecodeBits` gives
  back every coded bin, a nonzero entry as 1 (`RoundTripWithoutCarry`).
  - The proof reads the rest of the stream as one big-endian number.
  - That number lies in the coder's interval `[low, low + range)`, scaled
    by a byte per byte pushed (`RunBounds`).
  - So the decoder's `code` falls on the side of `low + split` that the
    encoder chose (`CodeSide`).
  - A run of 0-bins never carries (`ZerosNeverCarry`).

## Model

| member | source | states |
|---|---|---|
| LittleEndian.U16RoundTrip | Code/src/rans.cpp:23-50 | reading two bytes at the position where `writeU16LE` put them, whatever surrounds them, gives back the 16-bit value |
| LittleEndian.U32RoundTrip | Code/src/rans.cpp:16-39 | reading four bytes at the position where `writeU32LE` put them, whatever surrounds them, gives back the 32-bit value |
| LittleEndian.LsbFirstIsU32LE | Code/src/rans.cpp:154-158 | the flush loop (push the low byte, shift right by 8, four times) emits exactly the `writeU32LE` bytes of the state |
| Bitstream.SetBitEffect | Code/src/bitstream.cpp:10 | OR-ing a bit into position j sets bit j when the bit is 1 and leaves every other bit as it was |
| Bitstream.TestBitOfLsbValue | Code/src/bitstream.cpp:59-66 | bit j of the value assembled LSB-first from a bit sequence is bit j of the sequence, and 0 past its end |
| Bitstream.LsbBitsValue | Code/src/bitstream.cpp:21-26 | the n bits `(v >> 0) & 1 … (v >> (n-1)) & 1`, read back LSB-first, give `v mod 2^n` |
| Bitstream.PackBitAt | Code/src/bitstream.cpp:8-36 | in the packed bytes, bit j of byte i is written bit 8i+j, and every padding bit is 0 |
| Bitstream.PackAppend | Code/src/bitstream.cpp:13-18 | packing is compositional at byte boundaries: the bytes of a whole number of bytes followed by more bits are the bytes of each part |
| Bitstream.WriteBitStep | Code/src/bitstream.cpp:8-19 | one `writeBit` keeps the writer invariant: `bitPos < 8`, `buffer` packs the completed bytes of the written bits, and `currentByte` holds the remaining bits with zero high bits |
| Bitstream.FlushStep | Code/src/bitstream.cpp:28-36 | the buffer, plus the partial byte when `bitPos != 0`, is the packing of all written bits |
| Bitstream.FlushPadStep | Code/src/bitstream.cpp:30-34 | pushing the partial byte is the same as writing zero bits up to the byte boundary |
| Bitstream.BitWriter.constructor | Code/include/bitstream.hpp:11-13 | a new writer is in the invariant with nothing written and an empty buffer |
| Bitstream.BitWriter.WriteBit | Code/src/bitstream.cpp:8-19 | appends the bit to the written sequence and keeps the invariant; after k bits the buffer holds floor(k/8) bytes and `bitPos` is k mod 8 |
| Bitstream.BitWriter.WriteBits | Code/src/bitstream.cpp:21-26 | equals `nBits` calls of `writeBit` with bits 0..nBits-1 of `value`, in that order; a negative count writes nothing |
| Bitstream.BitWriter.Flush | Code/src/bitstream.cpp:28-36 | returns the packing of everything written, ceil(k/8) bytes; it zero-pads a partial byte only when `bitPos != 0`, resets `bitPos` and keeps the bytes in the buffer |
| Bitstream.BitReader.constructor | Code/src/bitstream.cpp:42-43 | a new reader is over the given bytes, with the cursor at bit 0 |
| Bitstream.BitReader.ReadBit | Code/src/bitstream.cpp:45-57 | it fails and leaves the cursor in place once every byte has been read; otherwise it returns the bit at the cursor (bit `bitPos` of byte `byteIndex`) and advances by one bit, moving to the next byte after bit 7 |
| Bitstream.BitReader.ReadBits | Code/src/bitstream.cpp:59-67 | returns the LSB-first value of the next n bits and advances n bits; if fewer than n remain it fails with the cursor at the end |
| Binarization.CodewordIsUnary | Code/src/cabac.cpp:28-40 | under Good, symbol s is s ones then a 0; under Bad it is 3-s ones then a 0 |
| Binarization.BinarizeSymbol | Code/src/cabac.cpp:42-52 | fails exactly for a symbol outside 0..3; otherwise returns the table code, of length s+1 under Good and 4-s under Bad |
| Binarization.CodewordsPrefixFree | Code/src/cabac.cpp:28-40 | neither table has a code that is a prefix of another symbol's code |
| Binarization.BinarizedSnoc | Code/src/cabac.cpp:60-63 | the binarisation of a sequence with one more symbol is the old binarisation followed by that symbol's code |
| Binarization.BinarizeSequence | Code/src/cabac.cpp:54-65 | fails if any symbol is outside 0..3; otherwise returns the in-order concatenation of the codes |
| Binarization.BinarizedLengths | Code/src/cabac.cpp:54-65 | the binarised length is Σ(s+1) under Good and Σ(4-s) under Bad |
| Binarization.LengthsSumToFive | Code/src/cabac.cpp:54-65 | the two binarised lengths of one sequence add up to 5·N |
| Binarization.LengthsEqualIff | Code/src/cabac.cpp:54-65 | the two binarised lengths are equal if and only if 2·Σs = 3·N |
| Binarization.BinarizedInjective | Code/src/cabac.cpp:54-65 | two symbol sequences with the same binarisation under either table are equal (the code is uniquely decodable) |
| Binarization.PackBitsToBytes | Code/src/cabac.cpp:67-73 | returns ceil(n/8) bytes in which bit j of byte i is 1 exactly when entry 8i+j is nonzero, and the padding bits are 0 |
| RangeCoder.Shl8IsShift | Code/src/cabac.cpp:139-140 | `<<= 8` on a `uint32_t` is multiplication by 256 modulo 2^32, and is exact below 2^24 |
| RangeCoder.SplitBounds | Code/src/cabac.cpp:146-147 | with 1 ≤ count0 < total the split `(range / total) * count0` is below `range`, and at least count0 when `range ≥ total` |
| RangeCoder.CountsPartition | Code/src/cabac.cpp:111-117 | every entry is counted once, as a zero or as a nonzero |
| RangeCoder.Renormalize | Code/src/cabac.cpp:136-142 | leaves `2^24 ≤ range < 2^32`; it shifts at most 3 times (at most 2 from `range ≥ 2^8`, at most 1 from `range ≥ 2^16`) and shifts nothing exactly when `range ≥ 2^24` |
| RangeCoder.RenormalizeScales | Code/src/cabac.cpp:136-142 | `range` never wraps: after k shifts it is the old range times 256^k |
| RangeCoder.EncodeBinRange | Code/src/cabac.cpp:145-156 | with total ≤ 2^24, a bin update leaves `1 ≤ range` and a smaller range than before, and `low` stays a 32-bit value |
| RangeCoder.EncodeStep | Code/src/cabac.cpp:145-159 | one bin with its renormalisation keeps the coder normal and pushes at most 3 bytes |
| RangeCoder.EncodeRun | Code/src/cabac.cpp:145-159 | coding n bins keeps the coder normal and pushes at most 3n bytes |
| RangeCoder.FlushIsBigEndian | Code/src/cabac.cpp:161-165 | the 4-byte flush writes `low` most significant byte first |
| RangeCoder.Payload | Code/src/cabac.cpp:132-165 | the coded bytes after the header number between 4 and 4 + 3n |
| RangeCoder.EncodingLayout | Code/src/cabac.cpp:108-167 | the stream is 16 to 16 + 3n bytes long, and its header reads back as n, count0, count1; each count is at least 1 and equals the true count whenever that count is nonzero |
| RangeCoder.HeaderReadBack | Code/src/cabac.cpp:127-130 | the three header words read back as numBits, count0 and count1 whatever follows them |
| RangeCoder.CountBins | Code/src/cabac.cpp:111-117 | the counting loop gives the number of zero entries and the number of nonzero entries |
| RangeCoder.ModelCounts | Code/src/cabac.cpp:111-122 | gives the counts that the model uses and the header carries |
| RangeCoder.RenormalizeEncoder | Code/src/cabac.cpp:136-142 | the encoder's `renormalize` lambda computes `Renormalize` |
| RangeCoder.EncodeOneBin | Code/src/cabac.cpp:146-158 | one pass of the bin loop computes `EncodeStep` |
| RangeCoder.EncodeBins | Code/src/cabac.cpp:144-159 | the bin loop computes `EncodeRun` from `low = 0`, `range = 2^32 - 1` |
| RangeCoder.FlushLow | Code/src/cabac.cpp:161-165 | the flush loop emits the big-endian bytes of `low` |
| RangeCoder.EncodePayload | Code/src/cabac.cpp:132-165 | the coder part of `arithEncodeBits` computes `Payload` |
| RangeCoder.ArithEncodeBits | Code/src/cabac.cpp:108-168 | `arithEncodeBits` computes the header followed by `Payload`, the stream whose layout `EncodingLayout` states |
| RangeCoder.DecodeRenormalize | Code/src/cabac.cpp:199-209 | leaves `range ≥ 2^24` with every register 32-bit, and never moves the cursor backwards |
| RangeCoder.DecodeBinRange | Code/src/cabac.cpp:215-229 | a decoder bin update keeps the registers 32-bit with `range ≥ 1` and reads no byte |
| RangeCoder.DecodeStep | Code/src/cabac.cpp:214-233 | each decoded bin is 0 or 1 and leaves `range ≥ 2^24` |
| RangeCoder.DecodeRun | Code/src/cabac.cpp:211-235 | decoding n bins gives exactly n entries, each 0 or 1 |
| RangeCoder.InitialCodeBigEndian | Code/src/cabac.cpp:191-197 | the initial `code` is bytes 12..15 read most significant byte first |
| RangeCoder.ArithDecoding | Code/src/cabac.cpp:170-236 | fails with "too short" exactly below 12 bytes, with "invalid counts" exactly when a header count is 0, and with "no data bytes" exactly when the counts are nonzero and the stream has fewer than 16 bytes; otherwise it returns numBits entries, each 0 or 1 |
| RangeCoder.RenormalizeDecoder | Code/src/cabac.cpp:199-209 | the decoder's `renormalize` lambda, which reads 0 once the stream is exhausted, computes `DecodeRenormalize` |
| RangeCoder.DecodeOneBin | Code/src/cabac.cpp:215-232 | one pass of the decoder's bin loop computes `DecodeStep` |
| RangeCoder.DecodeBins | Code/src/cabac.cpp:211-235 | the decoder's bin loop computes `DecodeRun` |
| RangeCoder.ArithDecodeBits | Code/src/cabac.cpp:170-236 | `arithDecodeBits` computes `ArithDecoding` |
| RangeCoder.RenormalizeMirror | Code/src/cabac.cpp:199-209 | the decoder's renormalisation changes `low`/`range` as the encoder's does and consumes as many bytes as the encoder pushed, up to the end of the stream |
| RangeCoder.StepMirror | Code/src/cabac.cpp:215-232 | whenever the decoder decides the bin the encoder coded, `low`/`range` get the encoder's update and shifts, and the cursor advances by the bytes the encoder pushed |
| RangeCoder.RunMirror | Code/src/cabac.cpp:214-233 | over a run of bins decoded as coded, the decoder's `low`/`range` follow the encoder's, and the cursor advances by the bytes pushed, up to the end of the stream |
| RangeCoder.DecodeEncodedShape | Code/src/cabac.cpp:170-236 | the decoder accepts every stream the encoder writes and returns as many bins as were coded |
| RangeRoundTrip.BEFlush | Code/src/cabac.cpp:161-165 | the four flushed bytes, read back most significant first, give `low` |
| RangeRoundTrip.ShiftWindow | Code/src/cabac.cpp:207 | shifting `code` left by 8 and OR-ing in the next byte slides the window of four stream bytes that `code` holds by one byte |
| RangeRoundTrip.RenormalizeValue | Code/src/cabac.cpp:136-142 | the bytes the encoder's renormalisation pushes, followed by the new `low`, are the old `low` shifted by one byte per push, so no bit of `low` is lost |
| RangeRoundTrip.RestSplit | Code/src/cabac.cpp:144-165 | the rest of the stream is the first bin's pushed bytes followed by the rest from the registers after that bin |
| RangeRoundTrip.FirstBinBounds | Code/src/cabac.cpp:146-158 | without a carry, the rest of the stream, read as a big-endian number, lies in the interval the first bin chose, scaled by 256 per byte pushed |
| RangeRoundTrip.RunBounds | Code/src/cabac.cpp:144-165 | without a carry, the rest of the stream, read as a big-endian number, lies in `[low, low + range)`, scaled by 256 per byte pushed |
| RangeRoundTrip.CodeInInterval | Code/src/cabac.cpp:191-197 | a `code` holding the top four bytes of the rest of a carry-free stream lies in `[low, low + range)` |
| RangeRoundTrip.CodeSide | Code/src/cabac.cpp:218-229 | that `code` is below `low + split` when the first bin is 0 and at or above it otherwise |
| RangeRoundTrip.DecideBin | Code/src/cabac.cpp:215-229 | with `code` in the interval and on the encoder's side of `low + split`, the wrapped `rel = code - low` test decides the coded bin, and `low`/`range` get the encoder's update |
| RangeRoundTrip.FirstBinDecoded | Code/src/cabac.cpp:214-229 | a decoder whose registers match the encoder's decides the first bin of a carry-free run as coded and makes the encoder's update |
| RangeRoundTrip.RenormalizeWindow | Code/src/cabac.cpp:199-209 | while the encoder's renormalisation pushes k bytes, the decoder's `code` slides k bytes along the stream |
| RangeRoundTrip.StepDecodes | Code/src/cabac.cpp:214-233 | one pass of the decoder's loop decodes the coded bin and keeps the decoder in step with the encoder on the rest of the bins |
| RangeRoundTrip.RunDecodes | Code/src/cabac.cpp:211-235 | a decoder in step with the encoder decodes every bin of a carry-free run as coded, a nonzero entry as 1 |
| RangeRoundTrip.InitialCodeIsBE | Code/src/cabac.cpp:191-197 | the initial `code` is bytes 12..15 read most significant first |
| RangeRoundTrip.DecodingOfValidHeader | Code/src/cabac.cpp:170-236 | on a stream with nonzero counts and a data word, `arithDecodeBits` runs its bin loop from `low = 0`, `range = 2^32 - 1`, the initial `code` and the cursor at byte 16 |
| RangeRoundTrip.EncodedStream | Code/src/cabac.cpp:108-167 | the stream `arithEncodeBits` writes has a header that reads back as numBits and the two counts, followed by the rest of the stream from the initial registers |
| RangeRoundTrip.DecodesStream | Code/src/cabac.cpp:170-236 | a stream laid out that way, with a carry-free run behind the header, decodes to the coded bins |
| RangeRoundTrip.RoundTripWithoutCarry | Code/src/cabac.cpp:108-236 | when no 1-bin makes `low + split` reach 2^32, `arithDecodeBits(arithEncodeBits(bits))` returns every bin, a nonzero entry as 1 |
| RangeRoundTrip.BinaryRoundTripWithoutCarry | Code/src/cabac.cpp:108-236 | under the same condition, bins given as 0s and 1s come back unchanged |
| RangeRoundTrip.ZerosNeverCarry | Code/src/cabac.cpp:149-156 | a run of 0-bins never carries, because only a 1-bin adds to `low` |
| RansModel.HistogramSum | Code/src/rans.cpp:61-74 | the four counts of a valid input add up to N |
| RansModel.ScaledTable | Code/src/rans.cpp:77-87 | every entry of the scaled table is at least 1 |
| RansModel.MaxIndexIsFirstMax | Code/src/rans.cpp:97-102 | the search returns the first index of a maximal entry |
| RansModel.TrimReachesTotal | Code/src/rans.cpp:92-110 | trimming an excess from nonzero entries always reaches a table of nonzero entries summing to 4096, so the `break` is never taken |
| RansModel.NormalizedFreqsValid | Code/src/rans.cpp:76-116 | for every non-empty histogram the four frequencies are each in [1, 4093] and add up to exactly 4096 |
| RansModel.CumTable | Code/src/rans.cpp:118-123 | `cum[0] = 0` and every entry is a 16-bit value |
| RansModel.CumIsPrefixSum | Code/src/rans.cpp:118-123 | for a valid table, `cum` is the exact prefix sum of the frequencies |
| RansModel.LookupFrom | Code/src/rans.cpp:214-223 | the search returns the first slot holding `x_mod`, or 0 when no slot holds it |
| RansModel.LookupPartition | Code/src/rans.cpp:214-223 | for a valid table and `x_mod < 4096`, the search returns s exactly when `cum[s] ≤ x_mod < cum[s] + freq[s]` (the slots partition [0, 4096)) |
| RansModel.Renorm | Code/src/rans.cpp:143-147 | the renormalisation loop ends below its bound, never raises the state, and pushes nothing exactly when the state was already below the bound |
| RansModel.RenormBytes | Code/src/rans.cpp:143-147 | the pushed bytes are the low bytes of the state, least significant first: state = new state · 256^k + their little-endian value |
| RansModel.CoreBound | Code/src/rans.cpp:149-151 | from a state below `2^15 · f` the update `(x/f)·4096 + x%f + c` stays below `2^15 · 4096 = 2^27`, so it cannot overflow 32 bits |
| RansModel.EncodeStep | Code/src/rans.cpp:138-152 | one step of the core loop leaves the state below 2^27 |
| RansModel.EncodeFrom | Code/src/rans.cpp:134-152 | the core loop over a non-empty input ends with the state below 2^27; over the empty input it pushes nothing and keeps the state |
| RansModel.DecodeStep | Code/src/rans.cpp:211-230 | the decoder's update keeps a 32-bit state |
| RansModel.StepInverts | Code/src/rans.cpp:211-230 | from a state below `2^19 · f`, decoding the encoder's update gives back the symbol and the state exactly |
| RansModel.Refill | Code/src/rans.cpp:232-235 | the refill keeps a 32-bit state, pops only payload bytes, and does nothing on an empty payload |
| RansModel.DecodeSeq | Code/src/rans.cpp:208-236 | decoding n symbols gives n symbols and a 32-bit state, and takes bytes only from the given payload |
| RansModel.DecodeSeqSnoc | Code/src/rans.cpp:208-236 | decoding n+1 symbols is decoding n symbols followed by one more step and refill |
| Rans.HeaderFields | Code/src/rans.cpp:126-132 | the header is N as a little-endian u32 followed by the four frequencies as little-endian u16s |
| Rans.HeaderReadBack | Code/src/rans.cpp:173-181 | the decoder's header reads give back N and the four frequencies whatever follows the header |
| Rans.StreamLayout | Code/src/rans.cpp:126-158 | a stream of header, payload and state is 16 + |payload| bytes long; N and the frequencies read back, the payload sits between byte 12 and the last four bytes, and those hold the state little-endian |
| Rans.Freqs | Code/src/rans.cpp:61-116 | the table of a non-empty valid input is valid (four nonzero frequencies summing to 4096) |
| Rans.LoopSymbols | Code/src/rans.cpp:138 | the core loop, with its `int` index `(int)N - 1`, visits every symbol when N ≤ 2^31 and none when N > 2^31 |
| Rans.RansEncoding | Code/src/rans.cpp:57-161 | the empty input encodes to the empty stream; encoding fails, with "symbol out of range", exactly when some symbol is outside 0..3 |
| Rans.EncodingLayout | Code/src/rans.cpp:126-158 | for a non-empty valid input the stream is 16 + (payload) bytes: N, the normalised frequencies, the bytes pushed by the core loop, then the final state (below 2^27) little-endian; above 2^31 symbols it is the header followed by `RANS_L` |
| Rans.CountSymbols | Code/src/rans.cpp:61-68 | the histogram loop succeeds exactly when every symbol is in 0..3, and then gives the histogram |
| Rans.SumFirstFour | Code/src/rans.cpp:89-90 | the accumulation loop's running sum over four entries is their total |
| Rans.ScaleCounts | Code/src/rans.cpp:77-87 | the scaling loop computes the scaled table |
| Rans.FindMaxIndex | Code/src/rans.cpp:97-102 | the inner search returns the first maximal index, and no entry exceeds the entry there |
| Rans.TrimExcess | Code/src/rans.cpp:95-109 | the trimming loop, including its `break`, computes `Trim` |
| Rans.NormalizeFreqs | Code/src/rans.cpp:76-116 | normalisation computes `NormalizedFreqs`, whose entries lie in [1, 4093] and add up to 4096 |
| Rans.CumulativeTable | Code/src/rans.cpp:118-123 | the prefix-sum loop computes `CumTable` |
| Rans.WriteHeader | Code/src/rans.cpp:126-132 | the header writes produce `Header(N, freq)` |
| Rans.RenormEncoder | Code/src/rans.cpp:143-147 | the renormalisation loop computes `Renorm` |
| Rans.FoldSymbol | Code/src/rans.cpp:149-151 | the state update computes `(x/f)·4096 + x%f + c` |
| Rans.EncodeOneSymbol | Code/src/rans.cpp:139-151 | one pass of the core loop computes `EncodeStep` with the written bound `2^15 · f` |
| Rans.EncodeSymbols | Code/src/rans.cpp:134-152 | the core loop, run from `x = 2^23` over the input in reverse, computes `EncodeFrom` |
| Rans.FlushState | Code/src/rans.cpp:154-158 | the flush loop emits the state's four bytes, least significant first |
| Rans.RansEncode | Code/src/rans.cpp:57-161 | `ransEncode` computes `RansEncoding` |
| Rans.TailValueReversed | Code/src/rans.cpp:195-204 | the tail loop reads the last four bytes with the last byte as the least significant, that is, in the reverse of the order the encoder wrote them |
| Rans.RansDecoding | Code/src/rans.cpp:167-239 | fails exactly below 12 bytes, exactly on a zero header frequency, and exactly when the 16-bit total is not 4096; otherwise returns N symbols, each in 0..3 |
| Rans.ReadFreqs | Code/src/rans.cpp:175-181 | the header loop succeeds exactly when no frequency is 0, and then gives the header frequencies |
| Rans.ReadTail | Code/src/rans.cpp:195-204 | the tail loop leaves the cursor 4 bytes before the end with the reversed-order state |
| Rans.FindSymbol | Code/src/rans.cpp:214-223 | the linear search computes `Lookup` |
| Rans.RefillFromStream | Code/src/rans.cpp:232-235 | the refill loop computes `Refill` on the payload below the cursor and only moves the cursor down |
| Rans.DecodeOneSymbol | Code/src/rans.cpp:210-235 | one pass of the decoding loop computes one decoder step and its refill |
| Rans.DecodeSlot | Code/src/rans.cpp:210-235 | one pass stores the decoded symbol in `out[i]`, changes no other slot, and advances the decoding by one symbol |
| Rans.DecodeInto | Code/src/rans.cpp:206-236 | the decoding loop fills `out[0..N)` with the decoded symbols in reverse order of decoding and leaves the other slots alone |
| Rans.RansDecode | Code/src/rans.cpp:167-239 | `ransDecode` computes `RansDecoding` |
| RansCounterexamples.TailByteOrderCounterexample | Code/src/rans.cpp:201-204 | `[3]` encodes to a 16-byte stream whose state bytes spell 8394758 little-endian; the decoder reads 102268928 instead and returns `[0]` |
| RansCounterexamples.ReversedOutputCounterexample | Code/src/rans.cpp:224 | `[0,1,1]` encodes with no payload byte; decoding its state gives 0, 1, 1 in order, but the decoder returns `[1,1,0]` |
| RansCounterexamples.FreqsOfSkewed | Code/src/rans.cpp:61-116 | the normalised table of `[0,0,0,1,0,0,2,0,0,3]` is `[2869,409,409,409]` |
| RansCounterexamples.EncodeFromSkewed | Code/src/rans.cpp:134-152 | the core loop on `[0,0,0,1,0,0,2,0,0,3]` from `RANS_L` pushes 47, then 157, and ends in the state 1555130 |
| RansCounterexamples.DecodeSkewed | Code/src/rans.cpp:208-236 | from the state 1555130 with the payload `[47,157]`, the first decoder step gives symbol 0 and the state 1090097, and three steps give 0, 0, 1 |
| RansCounterexamples.RenormBoundCounterexample | Code/src/rans.cpp:144 | `[0,0,0,1,0,0,2,0,0,3]` encodes to its header, the payload `[47,157]` and the state 1555130; decoding that state, read correctly, leaves 1090097 < 2^23 after the first symbol, refills early, and gives 0, 0, 1 where the input starts 0, 0, 0 |
| RansCounterexamples.WrappedHeaderCounterexample | Code/src/rans.cpp:185-193 | the header `[65535,1,2048,2048]`, which sums to 69632, passes the wrapped total check, and the slots of symbols 0 and 2 then overlap |
| RansCounterexamples.EmptyInputCounterexample | Code/src/rans.cpp:59 | the empty input encodes to the empty stream, which the decoder rejects as too short |
| RansCorrected.CorrectedEncoding | Code/src/rans.cpp:57-161 | the repaired encoder keeps the format: the empty input gives the empty stream, an out-of-range symbol fails, and any other stream has at least 16 bytes |
| RansCorrected.CorrectedDecoding | Code/src/rans.cpp:167-239 | the repaired decoder accepts the empty stream, rejects 1 to 15 bytes as too short, and accepts only tables of four nonzero frequencies that truly sum to 4096; it returns N symbols in 0..3 |
| RansCorrected.RenormLowerBound | Code/src/rans.cpp:143-147 | renormalisation never takes a state at or above the bound below bound/256 |
| RansCorrected.RefillUndoesRenorm | Code/src/rans.cpp:232-235 | with the state below 2^31, the refill pops exactly the bytes the renormalisation pushed, most recent first, and gives back the state before it |
| RansCorrected.StepKeepsInterval | Code/src/rans.cpp:143-151 | with the bound `2^19 · f` an encoder step keeps the state in [2^23, 2^31) |
| RansCorrected.DecodeUndoesStep | Code/src/rans.cpp:211-235 | one decoder step with its refill undoes one matched encoder step: the symbol, the state and the payload below come back |
| RansCorrected.RoundTripFrom | Code/src/rans.cpp:134-152 | encoding any symbols from a state in [2^23, 2^31) and decoding as many gives back the symbols in order, the state and the payload underneath |
| RansCorrected.RoundTrip | Code/src/main.cpp:94-96 | the repaired decoder gives back every input of symbols 0..3 that the repaired encoder accepts |

## Left out

- Console output, the random symbol source, the entropy figures and the
  floating-point CABAC estimate of `main.cpp` are not part of this model.
  `main.cpp` serves only as the statement of the intended rANS round trip.
- The CABAC tables declared in `cabac_tables.hpp` are not part of this
  model. Their definitions are not in the repository files modelled, and
  only floating-point code uses them.
- `reserve` calls and vector allocation are left out. The model does not
  capture running out of memory for a huge N in `ransDecode`.
- Exceptions become `Result` values. The rANS decoder's `idx < 4` check
  (`rans.cpp:197`) is dead behind the 12-byte check, and so is the
  empty-histogram check (`rans.cpp:72`); the model omits both branches.
- RangeRoundTrip.RoundTripWithoutCarry: the round trip is proved only for
  inputs where no 1-bin makes `low + split` reach 2^32 (`NoCarryIn`).
  At `cabac.cpp:154` such a sum wraps, and nothing propagates the carry
  into the bytes already pushed. The stream then need not lie in the coded
  interval, and decoding can go wrong. The model states nothing about
  those inputs.
- RangeCoder.DecodeEncodedShape: states only that decoding succeeds with
  as many bins as were coded. Which bins come back is stated, for
  carry-free inputs, by `RangeRoundTrip.RoundTripWithoutCarry`.
- RangeCoder.RunMirror: takes as a hypothesis that the bins come out as
  coded. `RangeRoundTrip.RunDecodes` proves that hypothesis for
  carry-free runs.
- RangeCoder.ArithEncodeBits: requires count0 + count1 ≤ 2^24. Above that,
  `range / total` can be 0 and a 0-bin loops forever.
- RangeCoder.ArithEncoding: requires the same bound, for the same reason.
- RangeCoder.ArithDecodeBits: requires the header counts to add up to less
  than 2^32. Otherwise `total` wraps, and the decoder divides by zero or
  overflows `split`.
- RangeCoder.ArithDecoding: requires the same header bound.
- RangeCoder.RenormalizeMirror: requires the cursor not to be past the end
  of the stream, which holds throughout decoding.
- RangeCoder.StepMirror: requires the same.
- RangeCoder.RunMirror: requires the same.
- Rans.RansEncoding: requires fewer than 2^32 symbols, because of the
  `uint32_t` count at `rans.cpp:58`.
- Rans.LoopSymbols: at N = 2^31 the loop index `(int)N - 1` overflows a
  signed `int`, which C++ leaves undefined; the model runs the loop over
  every symbol there.
- Rans.RansDecoding: above N = 2^31 the `int` loop index is negative, the
  loop does not run, and all N entries stay 0. The model states this case
  but proves nothing more about it.
- Bitstream.BitWriter.WriteBits: requires `nBits ≤ 32`, because
  `value >> i` is undefined for i ≥ 32.
- Bitstream.BitReader.ReadBits: requires `nBits ≤ 32`, because `1u << i`
  is undefined for i ≥ 32.
- RansModel.Refill: its contract bounds only the state and the remaining
  payload length. Which bytes it pops is stated by
  `RansCorrected.RefillUndoesRenorm`.
- RansModel.DecodeSeq: its contract states the count, the state bound and
  the remaining payload length. What it returns is stated by
  `RansCorrected.RoundTripFrom` and the counterexample lemmas.

## Findings

| source | as written | input that shows it | evidently intended | confidence | as-written member | corrected member |
|---|---|---|---|---|---|---|
| Code/src/rans.cpp:201-204 | the encoder writes the final state least significant byte first (lines 155-158), but the decoder's tail loop takes the last byte as the least significant, so it starts from the byte-swapped state | `[3]` is written with state 8394758 and read as 102268928; it decodes to `[0]` | read the last four bytes as a little-endian u32 | not executed | RansCounterexamples.TailByteOrderCounterexample | RansCorrected.RoundTrip |
| Code/src/rans.cpp:224 | the first decoded symbol, which is `symbols[0]`, is stored in `out[N-1]`, so the output is reversed | `[0,1,1]`: its state decodes to 0, 1, 1 in order, but `ransDecode` returns `[1,1,0]` | store the i-th decoded symbol in `out[i]` | not executed | RansCounterexamples.ReversedOutputCounterexample | RansCorrected.RoundTrip |
| Code/src/rans.cpp:144 | the encoder pushes while `x ≥ 2^15·f`, but the decoder refills while `x < 2^23` (line 233), so it can pull a byte where the encoder pushed none | `[0,0,0,1,0,0,2,0,0,3]` encodes to the payload `[47,157]` and the state 1555130; decoding from that state, read correctly, refills after the first symbol and gives 0, 0, 1 | push while `x ≥ 2^19·f`, the bound that matches `RANS_L` | not executed | RansCounterexamples.RenormBoundCounterexample | RansCorrected.RoundTripFrom |
| Code/src/rans.cpp:185-193 | the total check adds the frequencies through `uint16_t` prefix sums, which wrap | the header `[65535,1,2048,2048]` sums to 69632 and is accepted; `x_mod = 100` then lies in the slots of both symbol 0 and symbol 2 | reject a table whose true sum is not 4096 | not executed | RansCounterexamples.WrappedHeaderCounterexample | RansCorrected.CorrectedDecoding |
| Code/src/rans.cpp:59 | the empty input encodes to the empty stream, which `ransDecode` rejects as shorter than 12 bytes | `[]` | decode the empty stream to the empty input | not executed | RansCounterexamples.EmptyInputCounterexample | RansCorrected.RoundTrip |
