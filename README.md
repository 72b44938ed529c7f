# A Dafny model of javan-warty-pig's fuzzing core

javan-warty-pig is a coverage-guided fuzzer for JVM methods in the style of AFL. It calls a target method over and over with generated arguments. A JVMTI agent records which branches each call took. Inputs that reach new branches go back into a queue and are mutated further. This project models the core of that loop in Dafny and proves properties of the model.

What is modelled, one module per source file:

- **Byte buffers** (`Bytes`, `JavaInts`, `Sorting`). These cover `Extensions.kt`:
  - reading and writing shorts, ints and longs in both byte orders;
  - bit flips and byte inversion in place;
  - the consecutive-bit-flip test;
  - byte removal.

  They also cover Java's 32- and 64-bit wrap-around, `Arrays.hashCode`, and the stable sort.
- **Mutation stages** (`FlipStages`, `ValueStages`, `DictionaryStage`, `StageProperties`, `Havoc`, `JavaRandom`). These are the deterministic stages of `ByteArrayParamGen`:
  - bit and byte flips;
  - 8/16/32-bit arithmetic;
  - interesting values;
  - the user-dictionary stage.

  They also cover the havoc tweaks driven by a `java.util.Random` oracle.
- **Queue and generator** (`Queue`, `Generator`). These cover:
  - `TestCase` ordering and culling;
  - `ListBacked` and `SetBacked` queues;
  - `QueueEntry` counters;
  - the `ByteArrayParamGen` generator's fields, `onResult` and its batch iterator.
- **Traces** (`TraceResult`, `TracerHelper`, `TracerState`, `Insn`, `Agent`). These cover:
  - hit-count buckets and stable branch hashes;
  - decoding the agent's long array;
  - the agent's per-step branch-tuple map;
  - the opcode table;
  - `markNonBranches` and `stopTrace`'s encoding.
- **Inputs** (`AflDictionary`, `ParamGen`, `TypeGen`). These cover:
  - the AFL dictionary line parser;
  - the suggested-value tables;
  - `genMap`;
  - `TypeGen`'s `cat` iterator.
- **Parameter providers** (`ParamProvider`, `ParameterProvider`). These cover:
  - all permutations;
  - even single-parameter change;
  - random single-parameter change;
  - the partitioned provider;
  - fixed-size separation;
  - restarting iterators;
  - feedback forwarding.
- **Persistence** (`PersistFile`). This covers the byte layout of the persisted queue, and its encode/decode round trip.
- **Fuzz loop** (`Fuzzer`). This covers:
  - `Fuzzer.fuzz` as an event trace;
  - the first-run check;
  - the latched future failure;
  - shutdown and close on every exit;
  - `TrackUniqueBranches`.
- **Example target** (`SimpleExample`). This covers `parseNumber` and its parse/render round trip.

State the source updates in place is modelled with classes and arrays:
- queues and generators;
- the tracer state;
- the cat iterator;
- the provider iterators;
- `TrackUniqueBranches`.

Each method's contract ties its result or new state to a specification function. Pure code is modelled with functions and lemmas.

In one place the model follows the code rather than AFL's dictionary format. In AFL's format, an escape `\xHH` stands for the byte `HH`. The model gives the byte `HH - 128`, which is what `AflDictionary.kt:47` computes and what the project's own dictionary test expects.

## Model

| member | source | states |
|---|---|---|
| JavaInts.Wrap32 | agent/src/main/kotlin/jwp/agent/TracerState.kt:28 | the int Java arithmetic leaves is a 32-bit signed value congruent to the exact result, and equals it when it already fits |
| JavaInts.Wrap64 | fuzz/src/main/kotlin/jwp/fuzz/Fuzzer.kt:95 | the long a `+ 1` leaves is a 64-bit signed value congruent to the exact result, and equals it when it fits |
| JavaInts.ArrayHashSnoc | fuzz/src/main/kotlin/jwp/fuzz/ParamProvider.kt:141-155 | `contentHashCode` of an array one longer is 31 times the prefix's hash plus the new element, wrapped to 32 bits |
| Bytes.ByteToInt | fuzz/src/main/kotlin/jwp/fuzz/Extensions.kt:19 | a byte read signed lies in -128 .. 127 |
| Bytes.ShortToInt | fuzz/src/main/kotlin/jwp/fuzz/Extensions.kt:114 | a short read signed lies in -32768 .. 32767 |
| Bytes.ToByteOf | fuzz/src/main/kotlin/jwp/fuzz/Extensions.kt:87 | `toByte()` keeps the low eight bits: any int congruent to b modulo 256 truncates to b |
| Bytes.ShortFromBytes | fuzz/src/main/kotlin/jwp/fuzz/Extensions.kt:115 | `Short.fromBytes(b0, b1)` has b0 as its low byte and b1 as its high byte |
| Bytes.ShortFromOwnBytes | fuzz/src/main/kotlin/jwp/fuzz/Extensions.kt:108-115 | a short rebuilt from its own two bytes is itself |
| Bytes.ShortToBytes | fuzz/src/main/kotlin/jwp/fuzz/Extensions.kt:113 | `toByteArray()` of a short is two bytes that read back as the short |
| Bytes.ShortEndianSwapped | fuzz/src/main/kotlin/jwp/fuzz/Extensions.kt:112 | swapping a short's byte order exchanges its two bytes |
| Bytes.ShortEndianSwappedInvolution | fuzz/src/main/kotlin/jwp/fuzz/Extensions.kt:112 | swapping a short's byte order twice gives it back |
| Bytes.IntFromBytes | fuzz/src/main/kotlin/jwp/fuzz/Extensions.kt:96-100 | `Int.fromBytes(b0, b1, b2, b3)` has bytes b0 .. b3 from low to high |
| Bytes.IntFromOwnBytes | fuzz/src/main/kotlin/jwp/fuzz/Extensions.kt:87-100 | an int rebuilt from its own four bytes is itself |
| Bytes.IntToBytes | fuzz/src/main/kotlin/jwp/fuzz/Extensions.kt:94 | `toByteArray()` of an int is four bytes that read back as the int |
| Bytes.IntEndianSwapped | fuzz/src/main/kotlin/jwp/fuzz/Extensions.kt:93 | swapping an int's byte order reverses its four bytes |
| Bytes.IntEndianSwappedInvolution | fuzz/src/main/kotlin/jwp/fuzz/Extensions.kt:93 | swapping an int's byte order twice gives it back |
| Bytes.GetShortBe | fuzz/src/main/kotlin/jwp/fuzz/Extensions.kt:55-56 | reading a short big-endian is reading it little-endian and swapping |
| Bytes.GetIntBe | fuzz/src/main/kotlin/jwp/fuzz/Extensions.kt:53-54 | reading an int big-endian is reading it little-endian and swapping |
| Bytes.PutShortLe | fuzz/src/main/kotlin/jwp/fuzz/Extensions.kt:74-77 | `putShortLe` changes only the two bytes at the index, and they read back little-endian as the short |
| Bytes.PutShortBe | fuzz/src/main/kotlin/jwp/fuzz/Extensions.kt:70-73 | `putShortBe` changes only the two bytes at the index, and they read back big-endian as the short |
| Bytes.PutIntLe | fuzz/src/main/kotlin/jwp/fuzz/Extensions.kt:64-69 | `putIntLe` changes only the four bytes at the index, and they read back little-endian as the int |
| Bytes.PutIntBe | fuzz/src/main/kotlin/jwp/fuzz/Extensions.kt:58-63 | `putIntBe` changes only the four bytes at the index, and they read back big-endian as the int |
| Bytes.PutIntBeIsSwappedLe | fuzz/src/main/kotlin/jwp/fuzz/Extensions.kt:58-69 | writing an int big-endian is writing its byte-swapped value little-endian |
| Bytes.PutShortBeIsSwappedLe | fuzz/src/main/kotlin/jwp/fuzz/Extensions.kt:70-77 | writing a short big-endian is writing its byte-swapped value little-endian |
| Bytes.PutShortLeInPlace | fuzz/src/main/kotlin/jwp/fuzz/Extensions.kt:74-77 | the in-place writes leave the array equal to `PutShortLe` of its old contents |
| Bytes.PutShortBeInPlace | fuzz/src/main/kotlin/jwp/fuzz/Extensions.kt:70-73 | the in-place writes leave the array equal to `PutShortBe` of its old contents |
| Bytes.PutIntLeInPlace | fuzz/src/main/kotlin/jwp/fuzz/Extensions.kt:64-69 | the in-place writes leave the array equal to `PutIntLe` of its old contents |
| Bytes.PutIntBeInPlace | fuzz/src/main/kotlin/jwp/fuzz/Extensions.kt:58-63 | the in-place writes leave the array equal to `PutIntBe` of its old contents |
| Bytes.CopyOf | fuzz/src/main/kotlin/jwp/fuzz/Extensions.kt:22 | `copyOf()` is a fresh array holding the same bytes |
| Bytes.FlipBitOfByteBits | fuzz/src/main/kotlin/jwp/fuzz/Extensions.kt:18 | `Byte.flipBit(bit)` changes exactly bit `bit` of the byte |
| Bytes.FlipBitAtBits | fuzz/src/main/kotlin/jwp/fuzz/Extensions.kt:23-24 | `ByteArray.flipBit(bitIndex)` changes exactly bit `bitIndex` of the array (bit `bitIndex % 8` of byte `bitIndex / 8`) |
| Bytes.FlipBitAtTwice | fuzz/src/main/kotlin/jwp/fuzz/Extensions.kt:23-24 | flipping the same bit twice gives the array back |
| Bytes.FlipBit | fuzz/src/main/kotlin/jwp/fuzz/Extensions.kt:23-24 | the in-place flip leaves the array equal to `FlipBitAt` of its old contents |
| Bytes.InvByte | fuzz/src/main/kotlin/jwp/fuzz/Extensions.kt:57 | `invByte` complements the one byte and leaves the others |
| Bytes.FlipRunBits | fuzz/src/main/kotlin/jwp/fuzz/Extensions.kt:26-52 | flipping a run of bits one after another changes exactly the bits of the run |
| Bytes.SameBitsSameBytes | fuzz/src/main/kotlin/jwp/fuzz/Extensions.kt:21 | byte arrays of the same length with the same bits are equal |
| Bytes.FlipRunTwice | fuzz/src/main/kotlin/jwp/fuzz/Extensions.kt:26-52 | flipping the same run twice gives the bytes back, which is how the loop restores the array |
| Bytes.CheckConsecutiveBitsFlipped | fuzz/src/main/kotlin/jwp/fuzz/Extensions.kt:26-52 | on success `fn` holds of the array, which is the original with one checked run of 1, 2, 3 or 4 bits flipped; on failure the array is unchanged and no checked run satisfies `fn` |
| Bytes.RunsOfRank | fuzz/src/main/kotlin/jwp/fuzz/Extensions.kt:28-48 | iteration i tries runs starting at bit i (or 0 before the first bit) of length 1 to 4, the 3-bit run only at the end of the array |
| Bytes.FlipNextBit | fuzz/src/main/kotlin/jwp/fuzz/Extensions.kt:34-41 | flipping the bit just past a flipped run extends the run by one |
| Bytes.UnflipLastBit | fuzz/src/main/kotlin/jwp/fuzz/Extensions.kt:43-49 | flipping the last bit of a flipped run back shortens the run by one |
| Bytes.TryRunsAt | fuzz/src/main/kotlin/jwp/fuzz/Extensions.kt:29-49 | one iteration either finds a checked run satisfying `fn` (array left flipped) or restores the array and rules out every run of that iteration |
| Bytes.TryLongerRuns | fuzz/src/main/kotlin/jwp/fuzz/Extensions.kt:36-46 | the 3- and 4-bit runs of one iteration, with the 3-bit run checked only when it ends at the last bit |
| Bytes.FlipReachableSymmetric | fuzz/src/main/kotlin/jwp/fuzz/Extensions.kt:26-52 | if one checked run turns s into t, the same run turns t into s |
| Bytes.ZeroByteReachability | fuzz/src/test/kotlin/jwp/fuzz/ByteUtilTest.kt:27-33 | the byte 0 reaches 7 by flipping bits 0-2 and never reaches 5 |
| Bytes.ByteCouldHaveBitFlippedTo | fuzz/src/main/kotlin/jwp/fuzz/Extensions.kt:16-17 | `Byte.couldHaveBitFlippedTo(y)` is true exactly when y is the byte or one checked run of its bits away |
| Bytes.ShortCouldHaveBitFlippedTo | fuzz/src/main/kotlin/jwp/fuzz/Extensions.kt:110-111 | `Short.couldHaveBitFlippedTo(y)` is true exactly when y's little-endian bytes are x's or one checked run away |
| Bytes.IntCouldHaveBitFlippedTo | fuzz/src/main/kotlin/jwp/fuzz/Extensions.kt:91-92 | `Int.couldHaveBitFlippedTo(y)` is true exactly when y's little-endian bytes are x's or one checked run away |
| Bytes.IntBytesOfRead | fuzz/src/main/kotlin/jwp/fuzz/Extensions.kt:54-94 | four bytes are the little-endian bytes of the int they read as |
| Bytes.NotAFlipCandidate | fuzz/src/main/kotlin/jwp/fuzz/Extensions.kt:26-52 | a change confined to a window of bytes that no checked run reaches inside the window is not a 1-, 2- or 4-bit run flip of the whole array |
| Bytes.Removed | fuzz/src/main/kotlin/jwp/fuzz/Extensions.kt:78-84 | the result drops `amount` bytes at `start`: the bytes before are kept, those after move down by `amount` |
| Bytes.Overwritten | fuzz/src/main/kotlin/jwp/fuzz/ByteArrayParamGen.kt:237-239 | the bytes of the block replace those at `index`, the rest are kept and the length is unchanged |
| Bytes.Remove | fuzz/src/main/kotlin/jwp/fuzz/Extensions.kt:78-84 | `remove` returns a fresh array equal to `Removed` of the input |
| FlipStages.RunCount | fuzz/src/main/kotlin/jwp/fuzz/ByteArrayParamGen.kt:94-100 | a flip stage yields one candidate per start position where the run fits: units - n + 1 of them |
| FlipStages.FlipBitsStage | fuzz/src/main/kotlin/jwp/fuzz/ByteArrayParamGen.kt:93-97 | `stageFlipBits(buf, n)` yields one candidate per start bit that fits |
| FlipStages.FlipBytesStage | fuzz/src/main/kotlin/jwp/fuzz/ByteArrayParamGen.kt:99-103 | `stageFlipBytes(buf, n)` yields one candidate per start byte that fits |
| FlipStages.StageFlipBits | fuzz/src/main/kotlin/jwp/fuzz/ByteArrayParamGen.kt:93-97 | the loop over start bits yields exactly `FlipBitsStage`, each candidate a fresh copy |
| FlipStages.FlippedCopy | fuzz/src/main/kotlin/jwp/fuzz/ByteArrayParamGen.kt:94-96 | one candidate is the seed copied with bits k .. k + n - 1 flipped one after another |
| FlipStages.StageFlipBytes | fuzz/src/main/kotlin/jwp/fuzz/ByteArrayParamGen.kt:99-103 | the loop over start bytes yields exactly `FlipBytesStage` |
| FlipStages.InvertedCopy | fuzz/src/main/kotlin/jwp/fuzz/ByteArrayParamGen.kt:100-102 | one candidate is the seed copied with bytes k .. k + n - 1 inverted |
| FlipStages.FlipBitsStageBits | fuzz/src/main/kotlin/jwp/fuzz/ByteArrayParamGen.kt:93-97 | candidate k of the bit stage differs from the seed in exactly bits k .. k + n - 1 |
| FlipStages.InvRunBytes | fuzz/src/main/kotlin/jwp/fuzz/ByteArrayParamGen.kt:101 | an inverted run complements exactly the bytes of the run and keeps the others |
| FlipStages.FlipBytesStageBytes | fuzz/src/main/kotlin/jwp/fuzz/ByteArrayParamGen.kt:99-103 | candidate k of the byte stage complements exactly bytes k .. k + n - 1 |
| FlipStages.InvertedByteIsEightFlippedBits | fuzz/src/main/kotlin/jwp/fuzz/ByteArrayParamGen.kt:74-77 | candidate k of the one-byte stage equals candidate 8k of an eight-bit run flip: inverting a byte flips its eight bits |
| ValueStages.Width | fuzz/src/main/kotlin/jwp/fuzz/ByteArrayParamGen.kt:105-231 | the arithmetic and interesting stages write fields of 1, 2 or 4 bytes |
| ValueStages.ArithDeltas | fuzz/src/main/kotlin/jwp/fuzz/ByteArrayParamGen.kt:21 | `arithValsToAdd` has 2·arithMax entries, and they are exactly the non-zero values in -arithMax .. arithMax |
| ValueStages.CouldBeInteresting16In32Check | fuzz/src/main/kotlin/jwp/fuzz/ByteArrayParamGen.kt:204-218 | the in-place loop over byte offsets 0-2 returns true exactly when some table short, written little- or big-endian at some offset, turns orig's bytes into v's |
| ValueStages.TryShortsAt | fuzz/src/main/kotlin/jwp/fuzz/ByteArrayParamGen.kt:210-213 | one offset: true exactly when some table short written there in either order gives v's bytes; only the two bytes at the offset change |
| ValueStages.TryShort | fuzz/src/main/kotlin/jwp/fuzz/ByteArrayParamGen.kt:211-212 | one table short: true exactly when the little- or the big-endian write gives v's bytes |
| ValueStages.IndexCount | fuzz/src/main/kotlin/jwp/fuzz/ByteArrayParamGen.kt:106-219 | each stage visits the indices where its field fits; `stageArith16` visits index 0 only |
| ValueStages.TryArith8 | fuzz/src/main/kotlin/jwp/fuzz/ByteArrayParamGen.kt:107-110 | the candidates of `stageArith8` at one index and delta: the byte plus the delta, kept unless a bit flip reaches it |
| ValueStages.TryArith16 | fuzz/src/main/kotlin/jwp/fuzz/ByteArrayParamGen.kt:119-127 | the little-endian then the big-endian candidate of `stageArith16` at one index and delta |
| ValueStages.TryArith16Le | fuzz/src/main/kotlin/jwp/fuzz/ByteArrayParamGen.kt:122-124 | the little-endian short plus the delta, kept when both bytes change and no bit flip reaches it |
| ValueStages.TryArith16Be | fuzz/src/main/kotlin/jwp/fuzz/ByteArrayParamGen.kt:125-127 | the big-endian short plus the delta, kept when both bytes change and no bit flip reaches its swapped value |
| ValueStages.TryArith32 | fuzz/src/main/kotlin/jwp/fuzz/ByteArrayParamGen.kt:139-147 | the little-endian then the big-endian candidate of `stageArith32` at one index and delta |
| ValueStages.TryArith32Le | fuzz/src/main/kotlin/jwp/fuzz/ByteArrayParamGen.kt:142-144 | the little-endian int plus the delta, kept when more than two bytes change and no bit flip reaches it |
| ValueStages.TryArith32Be | fuzz/src/main/kotlin/jwp/fuzz/ByteArrayParamGen.kt:145-147 | the big-endian int plus the delta, kept when more than two bytes change and no bit flip reaches its swapped value |
| ValueStages.TryInteresting8 | fuzz/src/main/kotlin/jwp/fuzz/ByteArrayParamGen.kt:153-158 | a table byte at one index, kept unless it is within arithMax of the old byte or a bit flip reaches it |
| ValueStages.TryInteresting16 | fuzz/src/main/kotlin/jwp/fuzz/ByteArrayParamGen.kt:172-180 | the little-endian then the big-endian candidate of `stageInteresting16` for one table short |
| ValueStages.TryInteresting16Le | fuzz/src/main/kotlin/jwp/fuzz/ByteArrayParamGen.kt:172-175 | the table short little-endian, kept unless arithmetic, an interesting byte or a bit flip could reach it |
| ValueStages.TryInteresting16Be | fuzz/src/main/kotlin/jwp/fuzz/ByteArrayParamGen.kt:176-180 | the table short big-endian, kept unless arithmetic, an interesting byte or a bit flip could reach its swapped value |
| ValueStages.TryInteresting32 | fuzz/src/main/kotlin/jwp/fuzz/ByteArrayParamGen.kt:220-229 | the little-endian then the big-endian candidate of `stageInteresting32` for one table int |
| ValueStages.TryInteresting32Le | fuzz/src/main/kotlin/jwp/fuzz/ByteArrayParamGen.kt:220-223 | the table int little-endian, kept unless arithmetic, an interesting byte or short, or a bit flip could reach it |
| ValueStages.TryInteresting32Be | fuzz/src/main/kotlin/jwp/fuzz/ByteArrayParamGen.kt:225-229 | the big-endian candidate, as written or corrected, with the same four filters on the swapped int |
| ValueStages.TryItem | fuzz/src/main/kotlin/jwp/fuzz/ByteArrayParamGen.kt:105-231 | dispatches one stage's candidates at one index for one item |
| ValueStages.UptoSnoc | fuzz/src/main/kotlin/jwp/fuzz/ByteArrayParamGen.kt:106-219 | the candidates up to index i + 1 are those up to i followed by those at i |
| ValueStages.RunStage | fuzz/src/main/kotlin/jwp/fuzz/ByteArrayParamGen.kt:106-230 | the outer loop yields the candidates of every visited index, index after index |
| ValueStages.RunIndex | fuzz/src/main/kotlin/jwp/fuzz/ByteArrayParamGen.kt:108-219 | the inner loop yields each item's candidates at one index, item after item |
| ValueStages.StageArith8 | fuzz/src/main/kotlin/jwp/fuzz/ByteArrayParamGen.kt:105-113 | `stageArith8` yields exactly `StageOutput(Arith8)` |
| ValueStages.StageArith16AsWritten | fuzz/src/main/kotlin/jwp/fuzz/ByteArrayParamGen.kt:115-130 | as written, `stageArith16` fails exactly on seeds shorter than two bytes (index 0 is read unconditionally), and otherwise yields the index-0 candidates |
| ValueStages.StageArith16 | fuzz/src/main/kotlin/jwp/fuzz/ByteArrayParamGen.kt:115-130 | corrected, `stageArith16` yields the index-0 candidates when the seed holds a short and nothing otherwise |
| ValueStages.StageArith32 | fuzz/src/main/kotlin/jwp/fuzz/ByteArrayParamGen.kt:132-150 | `stageArith32` yields exactly `StageOutput(Arith32)` |
| ValueStages.StageInteresting8 | fuzz/src/main/kotlin/jwp/fuzz/ByteArrayParamGen.kt:152-160 | `stageInteresting8` yields exactly `StageOutput(Interesting8)` |
| ValueStages.StageInteresting16 | fuzz/src/main/kotlin/jwp/fuzz/ByteArrayParamGen.kt:162-182 | `stageInteresting16` yields exactly `StageOutput(Interesting16)` |
| ValueStages.StageInteresting32AsWritten | fuzz/src/main/kotlin/jwp/fuzz/ByteArrayParamGen.kt:184-231 | `stageInteresting32` as written, storing the swapped int big-endian |
| ValueStages.StageInteresting32 | fuzz/src/main/kotlin/jwp/fuzz/ByteArrayParamGen.kt:184-231 | `stageInteresting32` corrected to store the int itself big-endian |
| StageProperties.CandidateShape | fuzz/src/main/kotlin/jwp/fuzz/ByteArrayParamGen.kt:105-231 | every candidate of a corrected value stage changes only the bytes of its field, and no checked bit run within the field reaches the new bytes |
| StageProperties.AtIndexShape | fuzz/src/main/kotlin/jwp/fuzz/ByteArrayParamGen.kt:108-219 | every candidate at one index has that shape |
| StageProperties.InConcat | fuzz/src/main/kotlin/jwp/fuzz/ByteArrayParamGen.kt:106-219 | every candidate of the outer loop comes from one of the visited indices |
| StageProperties.StageCandidatesAreNotBitFlips | fuzz/src/main/kotlin/jwp/fuzz/ByteArrayParamGen.kt:110-221 | no candidate of a corrected arithmetic or interesting stage is the seed or a candidate of the 1-, 2- or 4-bit flip stages, which is what the `couldHaveBitFlippedTo` filters are for |
| StageProperties.ShapeIsNotBitFlip | fuzz/src/main/kotlin/jwp/fuzz/ByteArrayParamGen.kt:93-97 | a candidate of that shape is neither the seed nor in the n-bit flip stage for n = 1, 2, 4 |
| StageProperties.Interesting32BeAsWrittenIsLe | fuzz/src/main/kotlin/jwp/fuzz/ByteArrayParamGen.kt:225-229 | as written, a kept big-endian candidate is the little-endian candidate again |
| StageProperties.ZeroIntFilters | fuzz/src/main/kotlin/jwp/fuzz/ByteArrayParamGen.kt:219-229 | on four zero bytes, an int whose bytes 0 and 2 are odd and whose top byte is set is out of reach of arithmetic, an interesting byte or short, and a bit flip |
| StageProperties.Interesting32MaxLe | fuzz/src/main/kotlin/jwp/fuzz/ByteArrayParamGen.kt:219-223 | on four zero bytes the little-endian candidate for 2147483647 is kept, as FF FF FF 7F |
| StageProperties.Interesting32MaxBe | fuzz/src/main/kotlin/jwp/fuzz/ByteArrayParamGen.kt:225-229 | on four zero bytes the big-endian candidate for 2147483647 is kept, as FF FF FF 7F as written and 7F FF FF FF corrected |
| StageProperties.ZeroIntLe | fuzz/src/main/kotlin/jwp/fuzz/ByteArrayParamGen.kt:219-223 | on four zero bytes, a table int whose bytes 0 and 2 are odd and whose top byte is set passes all four filters and is written little-endian |
| StageProperties.ZeroIntBe | fuzz/src/main/kotlin/jwp/fuzz/ByteArrayParamGen.kt:225-229 | on four zero bytes, a table int whose swapped form is such an int passes all four filters and is written big-endian, swapped as written or itself when corrected |
| StageProperties.Interesting32MaxExample | fuzz/src/main/kotlin/jwp/fuzz/ByteArrayParamGen.kt:219-229 | on four zero bytes and the table int 2147483647, as written both candidates are FF FF FF 7F; corrected, the second is 7F FF FF FF |
| StageProperties.AtIndexAsWrittenIsLe | fuzz/src/main/kotlin/jwp/fuzz/ByteArrayParamGen.kt:218-229 | as written, every candidate at an index is some table int written little-endian there |
| StageProperties.Interesting32StageAsWrittenExample | fuzz/src/main/kotlin/jwp/fuzz/ByteArrayParamGen.kt:218-230 | as written, `stageInteresting32` on four zero bytes never yields 7F FF FF FF |
| StageProperties.Interesting32StageCorrectedExample | fuzz/src/main/kotlin/jwp/fuzz/ByteArrayParamGen.kt:218-230 | corrected, `stageInteresting32` on four zero bytes yields 7F FF FF FF |
| StageProperties.Interesting32BeCorrected | fuzz/src/main/kotlin/jwp/fuzz/ByteArrayParamGen.kt:225-229 | corrected, the big-endian candidate reads back big-endian as the table int and changes only its four bytes |
| DictionaryStage.SortedDictionary | fuzz/src/main/kotlin/jwp/fuzz/ByteArrayParamGen.kt:15 | `userDictionary` is sorted by size, is a permutation of the configured entries, and keeps entries of equal size in their configured order |
| DictionaryStage.StageDictionary | fuzz/src/main/kotlin/jwp/fuzz/ByteArrayParamGen.kt:233-242 | the loops yield exactly `DictionaryStageOutput` |
| DictionaryStage.PlaceEntries | fuzz/src/main/kotlin/jwp/fuzz/ByteArrayParamGen.kt:236-240 | at one index, each entry that ends before the last byte is written over a fresh copy, entry after entry |
| DictionaryStage.OverwrittenCopy | fuzz/src/main/kotlin/jwp/fuzz/ByteArrayParamGen.kt:237-239 | the copy equals the seed with the entry written at the index |
| DictionaryStage.EntriesAtMembers | fuzz/src/main/kotlin/jwp/fuzz/ByteArrayParamGen.kt:236-240 | the candidates at one index are exactly the placements of fitting entries there |
| DictionaryStage.IndicesUptoMembers | fuzz/src/main/kotlin/jwp/fuzz/ByteArrayParamGen.kt:235-241 | the candidates of the first count indices are exactly the placements at those indices |
| DictionaryStage.DictionaryStageMembers | fuzz/src/main/kotlin/jwp/fuzz/ByteArrayParamGen.kt:233-242 | the stage yields exactly the seed overwritten by some entry at some index where `index + entry.size < buf.size`; an empty dictionary yields nothing |
| DictionaryStage.DictionaryKeepsLastByte | fuzz/src/main/kotlin/jwp/fuzz/ByteArrayParamGen.kt:237 | every candidate keeps the seed's length and its last byte |
| StageDisjointness.Arith16NotArith8 | fuzz/src/test/kotlin/jwp/fuzz/ByteArrayParamGenTest.kt:46-50 | on any seed no `stageArith16` candidate is a `stageArith8` candidate, since it changes both bytes of a short and arith8 changes one |
| StageDisjointness.Arith32NotArith8 | fuzz/src/test/kotlin/jwp/fuzz/ByteArrayParamGenTest.kt:53-58 | on any seed no `stageArith32` candidate is a `stageArith8` candidate, since it changes more than two bytes |
| StageDisjointness.Arith32NotArith16 | fuzz/src/test/kotlin/jwp/fuzz/ByteArrayParamGenTest.kt:53-58 | on any seed no `stageArith32` candidate is a `stageArith16` candidate, since it changes more than two bytes of an int and arith16 two |
| StageDisjointness.Interesting8NotArith16 | fuzz/src/test/kotlin/jwp/fuzz/ByteArrayParamGenTest.kt:61-67 | on any seed no `stageInteresting8` candidate is a `stageArith16` candidate, since it changes one byte |
| StageDisjointness.Interesting8NotArith32 | fuzz/src/test/kotlin/jwp/fuzz/ByteArrayParamGenTest.kt:61-67 | on any seed no `stageInteresting8` candidate is a `stageArith32` candidate, since it changes one byte |
| StageDisjointness.Interesting16NotArith32 | fuzz/src/test/kotlin/jwp/fuzz/ByteArrayParamGenTest.kt:70-77 | on any seed no `stageInteresting16` candidate is a `stageArith32` candidate, since it changes at most two bytes |
| StageDisjointness.Interesting8NotArith8 | fuzz/src/test/kotlin/jwp/fuzz/ByteArrayParamGenTest.kt:61-67 | on the test's seed of zero bytes no `stageInteresting8` candidate is a `stageArith8` candidate, for any bound |
| StageDisjointness.Interesting16NotArith8 | fuzz/src/test/kotlin/jwp/fuzz/ByteArrayParamGenTest.kt:70-77 | on zero bytes no `stageInteresting16` candidate is a `stageArith8` candidate, since a kept table short changes both bytes |
| StageDisjointness.Interesting16NotInteresting8 | fuzz/src/test/kotlin/jwp/fuzz/ByteArrayParamGenTest.kt:70-77 | on zero bytes no `stageInteresting16` candidate is a `stageInteresting8` candidate |
| StageDisjointness.Interesting16NotArith16 | fuzz/src/test/kotlin/jwp/fuzz/ByteArrayParamGenTest.kt:70-77 | on zero bytes with an arithmetic bound of at most 128 (the default is 35) no `stageInteresting16` candidate is a `stageArith16` candidate |
| StageDisjointness.Interesting32NotArith8 | fuzz/src/test/kotlin/jwp/fuzz/ByteArrayParamGenTest.kt:80-88 | on zero bytes no candidate of `stageInteresting32`, as written or corrected, is a `stageArith8` candidate |
| StageDisjointness.Interesting32NotInteresting8 | fuzz/src/test/kotlin/jwp/fuzz/ByteArrayParamGenTest.kt:80-88 | on zero bytes no candidate of either `stageInteresting32` is a `stageInteresting8` candidate |
| StageDisjointness.Interesting32NotArith16 | fuzz/src/test/kotlin/jwp/fuzz/ByteArrayParamGenTest.kt:80-88 | on zero bytes no candidate of either `stageInteresting32` is a `stageArith16` candidate |
| StageDisjointness.Interesting32NotArith32 | fuzz/src/test/kotlin/jwp/fuzz/ByteArrayParamGenTest.kt:80-88 | on zero bytes with a bound of at most 128 no candidate of either `stageInteresting32` is a `stageArith32` candidate |
| StageDisjointness.Interesting32NotInteresting16 | fuzz/src/test/kotlin/jwp/fuzz/ByteArrayParamGenTest.kt:80-88 | on zero bytes no candidate of either `stageInteresting32` is a `stageInteresting16` candidate |
| StageDisjointness.Arith8Interesting8Repeat | fuzz/src/main/kotlin/jwp/fuzz/ByteArrayParamGen.kt:152-160 | off a zero seed the 8-bit stages can repeat each other: on the byte 7F both yield 80 under the default bound |
| StageDisjointness.Arith16Interesting16Repeat | fuzz/src/main/kotlin/jwp/fuzz/ByteArrayParamGen.kt:162-182 | with a bound of 129 the 16-bit stages repeat each other on two zero bytes: both yield FF 7F |
| ParamGen.TablesFitTheirTypes | fuzz/src/main/kotlin/jwp/fuzz/ParamGen.kt:16-23 | every entry of the interesting byte, short, int and long tables lies in the range of its Java type |
| ParamGen.AllByte | fuzz/src/main/kotlin/jwp/fuzz/ParamGen.kt:13 | `allByte` is the 256 values -128 .. 127 in ascending order |
| ParamGen.AllByteCoversBytes | fuzz/src/main/kotlin/jwp/fuzz/ParamGen.kt:13 | `allByte` lists every byte value exactly once, strictly ascending |
| ParamGen.SimpleRange | fuzz/src/main/kotlin/jwp/fuzz/ParamGen.kt:31 | `suggestedIntSimpleRange` is the 71 values -35 .. 35 in ascending order |
| ParamGen.NarrowedToBytes | fuzz/src/main/kotlin/jwp/fuzz/ParamGen.kt:36 | `map(Int::toByte)` narrows each value to a byte, keeping the order |
| ParamGen.SuggestedLists | fuzz/src/main/kotlin/jwp/fuzz/ParamGen.kt:36-39 | the byte list is the simple range then the byte table (80 values); the short, int and long lists extend the narrower list by their own tables (90, 98, 100 values) |
| ParamGen.SuggestedValuesFit | fuzz/src/main/kotlin/jwp/fuzz/ParamGen.kt:36-39 | every suggested value lies in the range of its type |
| ParamGen.Integral | fuzz/src/main/kotlin/jwp/fuzz/ParamGen.kt:36-39 | the integer lists become parameter values one for one, in order |
| ParamGen.Suggested | fuzz/src/main/kotlin/jwp/fuzz/ParamGen.kt:89-93 | an unknown class is an error; byte arrays and strings get their generators |
| ParamGen.SuggestedLookup | fuzz/src/main/kotlin/jwp/fuzz/ParamGen.kt:43-93 | `suggested` fails exactly for unknown classes and the two char types (whose generator is `TODO()`), and a boxed type suggests null followed by its primitive's values |
| ParamGen.SuggestedIntValues | fuzz/src/main/kotlin/jwp/fuzz/ParamGen.kt:38-55 | the int suggestions are 98 Java ints ending with the eight interesting ints |
| ParamGen.GenMap | fuzz/src/main/kotlin/jwp/fuzz/ParamGen.kt:108-114 | `genMap(fn)` iterates fn of each wrapped value, in order |
| ParamGen.GenMapNotNull | fuzz/src/main/kotlin/jwp/fuzz/ParamGen.kt:116-122 | `genMapNotNull(fn)` iterates no more values than it wraps |
| ParamGen.GenMapNotNullImages | fuzz/src/main/kotlin/jwp/fuzz/ParamGen.kt:116-122 | `genMapNotNull(fn)` yields exactly the non-null images of the wrapped values |
| ParamGen.GenMapNotNullTotal | fuzz/src/main/kotlin/jwp/fuzz/ParamGen.kt:108-122 | when fn never gives null, `genMapNotNull` iterates what `genMap` does |
| JavaRandom.Rand.Draw | fuzz/src/main/kotlin/jwp/fuzz/Extensions.kt:105 | the value of a draw of `nextInt(bound)` lies in 0 .. bound - 1 |
| JavaRandom.Rand.NextInt | fuzz/src/main/kotlin/jwp/fuzz/ByteArrayParamGen.kt:248-269 | `nextInt(bound)` returns the next draw, in 0 .. bound - 1, and consumes one draw |
| JavaRandom.Rand.NextBoolean | fuzz/src/main/kotlin/jwp/fuzz/ByteArrayParamGen.kt:428-495 | `nextBoolean()` returns the next draw's coin and consumes one draw |
| JavaRandom.Rand.RandItem | fuzz/src/main/kotlin/jwp/fuzz/Extensions.kt:105 | `randItem` returns the element at the next draw, which is in the list, and consumes one draw |
| Havoc.TierCount | fuzz/src/main/kotlin/jwp/fuzz/ByteArrayParamGen.kt:256-259 | `rLim` is between 1 and 3, and 1 until ten minutes have passed since the first stage |
| Havoc.ChooseBlockLen | fuzz/src/main/kotlin/jwp/fuzz/ByteArrayParamGen.kt:255-270 | the block length lies in 1 .. limit and never exceeds `havocBlockXLarge`; before ten minutes it is at most `havocBlockSmall` |
| Havoc.Inserted | fuzz/src/main/kotlin/jwp/fuzz/ByteArrayParamGen.kt:473-483 | inserting a block lengthens the array by the block's length |
| Havoc.TweakSize | fuzz/src/main/kotlin/jwp/fuzz/ByteArrayParamGen.kt:440-500 | only `deleteBytes` shrinks and only `cloneOrInsertBytes` grows the array; a non-empty array stays non-empty and one below `maxInput` stays below it |
| Havoc.DrawDifferentByte | fuzz/src/main/kotlin/jwp/fuzz/ByteArrayParamGen.kt:450-458 | `randomByte`'s loop returns a byte different from the old one |
| Havoc.FlipSingleBitTweak | fuzz/src/main/kotlin/jwp/fuzz/ByteArrayParamGen.kt:440 | `flipSingleBit` fails exactly on an empty array (`nextInt(0)`), and otherwise flips the drawn bit and only it |
| Havoc.NewByte | fuzz/src/main/kotlin/jwp/fuzz/ByteArrayParamGen.kt:441-458 | the new byte is the one the tweak's rule allows: a table byte, the old byte minus or plus 1 .. arithMax, or a different random byte |
| Havoc.ByteTweak | fuzz/src/main/kotlin/jwp/fuzz/ByteArrayParamGen.kt:421-424 | `tweakRandomByte` fails exactly on an empty array and otherwise replaces one byte by the tweak's new byte |
| Havoc.NewShort | fuzz/src/main/kotlin/jwp/fuzz/ByteArrayParamGen.kt:442-447 | the new short is a table short, or the old short minus or plus 1 .. arithMax, wrapped |
| Havoc.ShortTweak | fuzz/src/main/kotlin/jwp/fuzz/ByteArrayParamGen.kt:425-431 | with two bytes or more, one short is replaced, little- or big-endian; shorter arrays are left alone |
| Havoc.ShortTweakLe | fuzz/src/main/kotlin/jwp/fuzz/ByteArrayParamGen.kt:428 | the little-endian branch replaces the short at the index by the tweak's new short |
| Havoc.ShortTweakBe | fuzz/src/main/kotlin/jwp/fuzz/ByteArrayParamGen.kt:429 | the big-endian branch replaces the big-endian short at the index |
| Havoc.NewInt | fuzz/src/main/kotlin/jwp/fuzz/ByteArrayParamGen.kt:443-449 | the new int is a table int, or the old int minus or plus 1 .. arithMax, wrapped |
| Havoc.IntTweak | fuzz/src/main/kotlin/jwp/fuzz/ByteArrayParamGen.kt:432-438 | with four bytes or more, one int is replaced, little- or big-endian; shorter arrays are left alone |
| Havoc.IntTweakLe | fuzz/src/main/kotlin/jwp/fuzz/ByteArrayParamGen.kt:435 | the little-endian branch replaces the int at the index |
| Havoc.IntTweakBe | fuzz/src/main/kotlin/jwp/fuzz/ByteArrayParamGen.kt:436 | the big-endian branch replaces the big-endian int at the index |
| Havoc.DeleteBytesTweak | fuzz/src/main/kotlin/jwp/fuzz/ByteArrayParamGen.kt:459-465 | with two bytes or more a block of 1 .. size - 1 bytes is removed into a new array; shorter arrays are returned as they are |
| Havoc.InsertBlock | fuzz/src/main/kotlin/jwp/fuzz/ByteArrayParamGen.kt:473-483 | the new array is the input with the block inserted before `cloneTo` |
| Havoc.CloneOrInsertBytesTweak | fuzz/src/main/kotlin/jwp/fuzz/ByteArrayParamGen.kt:466-486 | fails exactly on an empty array below the size limit; at or above the limit the array is returned as it is; otherwise a cloned stretch or a repeated byte is inserted |
| Havoc.CloneBlock | fuzz/src/main/kotlin/jwp/fuzz/ByteArrayParamGen.kt:468-482 | the insertion point is inside the array and the block, of 1 .. `havocBlockXLarge` bytes, is a stretch of the input or one repeated byte |
| Havoc.WriteBlock | fuzz/src/main/kotlin/jwp/fuzz/ByteArrayParamGen.kt:493-498 | the copy within the array or the fill leaves the array equal to `Overwritten` of the old bytes |
| Havoc.OverwriteBytesTweak | fuzz/src/main/kotlin/jwp/fuzz/ByteArrayParamGen.kt:487-500 | with two bytes or more a block is overwritten in place by a stretch of the input or a repeated byte |
| Havoc.OverwrittenBySelf | fuzz/src/main/kotlin/jwp/fuzz/ByteArrayParamGen.kt:493 | copying a stretch onto itself changes nothing, so skipping `copyFrom == copyTo` is harmless |
| Havoc.ApplyTweak | fuzz/src/main/kotlin/jwp/fuzz/ByteArrayParamGen.kt:504-524 | a tweak fails exactly on an empty array when it draws an index from it, and otherwise gives its outcome, in place or in a new array |
| Havoc.HavocCycle | fuzz/src/main/kotlin/jwp/fuzz/ByteArrayParamGen.kt:247-251 | one cycle never fails on a non-empty seed, and yields a stack of tweak outcomes of a fresh copy |
| Havoc.StageHavoc | fuzz/src/main/kotlin/jwp/fuzz/ByteArrayParamGen.kt:244-253 | `stageHavoc` yields `havocCycles` candidates (none when not positive), each a stack of tweaks applied to the seed; a tweak throws only on an empty seed, and the cycles finished before it have then already been yielded |
| Havoc.StackedSize | fuzz/src/main/kotlin/jwp/fuzz/ByteArrayParamGen.kt:248-250 | a stack of tweaks keeps a non-empty seed non-empty and one below `maxInput` below it |
| Havoc.HavocOutputSize | fuzz/src/main/kotlin/jwp/fuzz/ByteArrayParamGen.kt:244-253 | every havoc candidate of a seed below `maxInput` is below it, and non-empty when the seed is |
| Havoc.StackCountValues | fuzz/src/main/kotlin/jwp/fuzz/ByteArrayParamGen.kt:248 | the stack is 2^(1 + power) tweaks below power 30; from 30 on `BigInteger.toInt()` wraps to a non-positive int and the stack is empty |
| Queue.Score | fuzz/src/main/kotlin/jwp/fuzz/ByteArrayParamGen.kt:320 | a test case's score is null exactly when it has not run, and otherwise its size times its run time |
| Queue.CompareIsKeyOrder | fuzz/src/main/kotlin/jwp/fuzz/ByteArrayParamGen.kt:322-327 | `compareTo` orders cases by score with the cases that have not run last, so sorting by that key is `sorted()` |
| Queue.Hashes | fuzz/src/main/kotlin/jwp/fuzz/ByteArrayParamGen.kt:336 | the hashes a case adds are its branch hashes, none when it has not run |
| Queue.Partition | fuzz/src/main/kotlin/jwp/fuzz/ByteArrayParamGen.kt:333-337 | the two parts of `partition` together hold as many cases as the input |
| Queue.AllHashesCons | fuzz/src/main/kotlin/jwp/fuzz/ByteArrayParamGen.kt:336 | the hashes of a queue are those of its head and of its tail |
| Queue.PartitionPermutation | fuzz/src/main/kotlin/jwp/fuzz/ByteArrayParamGen.kt:334-338 | the favoured and unfavoured cases together are a permutation of the sorted cases |
| Queue.PartitionSorted | fuzz/src/main/kotlin/jwp/fuzz/ByteArrayParamGen.kt:334-338 | both parts keep the score order of the sorted cases |
| Queue.SortedTail | fuzz/src/main/kotlin/jwp/fuzz/ByteArrayParamGen.kt:330 | the tail of a sorted queue is sorted |
| Queue.SortedConsPart | fuzz/src/main/kotlin/jwp/fuzz/ByteArrayParamGen.kt:334-338 | the head of a sorted queue put before a sorted part of its tail keeps the part sorted |
| Queue.PartitionNovelty | fuzz/src/main/kotlin/jwp/fuzz/ByteArrayParamGen.kt:334-337 | every favoured case has run and adds a branch hash that neither the seen set nor the favoured cases before it hold |
| Queue.PartitionCover | fuzz/src/main/kotlin/jwp/fuzz/ByteArrayParamGen.kt:333-337 | the favoured cases cover every branch hash of every case |
| Queue.PartitionPlacement | fuzz/src/main/kotlin/jwp/fuzz/ByteArrayParamGen.kt:334-337 | a case goes to the favoured part when it has run and adds a hash that neither the seen set nor any case before it holds, and to the rest otherwise |
| Queue.CulledPermutation | fuzz/src/main/kotlin/jwp/fuzz/ByteArrayParamGen.kt:330-339 | `culled` is a permutation of its input: no case is lost or duplicated |
| Queue.CulledSpec | fuzz/src/main/kotlin/jwp/fuzz/ByteArrayParamGen.kt:330-339 | `culled` is the favoured cases in score order followed by the rest in score order, the favoured covering every hash; a case is favoured when it has run and adds a hash no case before it in score order holds, and is among the rest otherwise |
| Queue.AllHashesMember | fuzz/src/main/kotlin/jwp/fuzz/ByteArrayParamGen.kt:336 | a hash is in a queue's hashes exactly when some case of the queue holds it |
| Queue.AllHashesPermutation | fuzz/src/main/kotlin/jwp/fuzz/ByteArrayParamGen.kt:330-339 | the hashes of a queue do not depend on its order, so a cull keeps them |
| Queue.QueueEntry.constructor | fuzz/src/main/kotlin/jwp/fuzz/ByteArrayParamGen.kt:294-302 | a new entry holds its bytes and index with all three totals at zero |
| Queue.QueueEntry.ApplyResult | fuzz/src/main/kotlin/jwp/fuzz/ByteArrayParamGen.kt:304-310 | `applyResult` adds the run time, the branch count and one to the three `Long` totals, wrapping |
| Queue.ListBacked.constructor | fuzz/src/main/kotlin/jwp/fuzz/ByteArrayParamGen.kt:370-374 | the queue is the given list, nothing is marked enqueued and numbering starts at the list's size |
| Queue.ListBacked.Enqueue | fuzz/src/main/kotlin/jwp/fuzz/ByteArrayParamGen.kt:376-384 | `enqueue` appends the case at the end and marks the queue for a cull |
| Queue.ListBacked.CullAndDequeue | fuzz/src/main/kotlin/jwp/fuzz/ByteArrayParamGen.kt:386-402 | an empty queue hands out nothing and is unchanged; otherwise the queue is culled when anything was enqueued since the last dequeue, and its head comes out numbered with the counter |
| Queue.ListBacked.Pop | fuzz/src/main/kotlin/jwp/fuzz/ByteArrayParamGen.kt:398 | the head is removed and handed out as a fresh entry with its bytes and the counter, which moves on by one |
| Queue.ListBacked.Cull | fuzz/src/main/kotlin/jwp/fuzz/ByteArrayParamGen.kt:392-396 | the queue is replaced by its cull, a permutation of it |
| Queue.SetBacked.constructor | fuzz/src/main/kotlin/jwp/fuzz/ByteArrayParamGen.kt:347-352 | the seen set starts as the backing set |
| Queue.SetBacked.CheckUniqueAndStore | fuzz/src/main/kotlin/jwp/fuzz/ByteArrayParamGen.kt:353-354 | `checkUniqueAndStore` adds the run's fingerprint and is true exactly when it was not there before |
| Generator.Refs | fuzz/src/main/kotlin/jwp/fuzz/ByteArrayParamGen.kt:90 | every candidate is paired with the same entry, in order |
| Generator.InitialBatchNumbering | fuzz/src/main/kotlin/jwp/fuzz/ByteArrayParamGen.kt:62-64 | the initial entries are numbered below zero and no two share a number |
| Generator.InitialCases | fuzz/src/main/kotlin/jwp/fuzz/ByteArrayParamGen.kt:17-19 | the constructor enqueues each initial value as a case that has not run |
| Generator.EnqueuedBytesAsWritten | fuzz/src/main/kotlin/jwp/fuzz/ByteArrayParamGen.kt:48 | as written, only a parameter that is itself a byte array passes `as? ByteArray` |
| Generator.EnqueuedBytes | fuzz/src/main/kotlin/jwp/fuzz/ByteArrayParamGen.kt:45-48 | the bytes `onResult` is meant to enqueue: those of a bare byte array or of a reference holding bytes |
| Generator.GeneratedCandidatesNeverEnqueuedAsWritten | fuzz/src/main/kotlin/jwp/fuzz/ByteArrayParamGen.kt:45-48 | as written, a candidate the generator handed out never gets back into the queue, whatever trace it reached |
| Generator.EnqueuedBytesAgreeOffReferences | fuzz/src/main/kotlin/jwp/fuzz/ByteArrayParamGen.kt:48 | the two readings agree on every parameter but the generator's own references |
| Generator.ResultCase | fuzz/src/main/kotlin/jwp/fuzz/ByteArrayParamGen.kt:47-51 | a unique result enqueues its bytes, one hash per resolved branch, and its run time |
| Generator.ResultTestCaseAsWritten | fuzz/src/main/kotlin/jwp/fuzz/ByteArrayParamGen.kt:47-51 | as written, a new trace enqueues a case exactly when the parameter is a bare byte array, so never for the generator's own references |
| Generator.ResultTestCase | fuzz/src/main/kotlin/jwp/fuzz/ByteArrayParamGen.kt:47-51 | corrected, a new trace enqueues a case exactly when the parameter holds bytes, a reference's included |
| Generator.TraceOf | fuzz/src/main/kotlin/jwp/fuzz/ByteArrayParamGen.kt:47-49 | a trace keeps its branches and an `Int` fingerprint |
| Generator.FingerprintIgnoresOrder | fuzz/src/main/kotlin/jwp/fuzz/ByteArrayParamGen.kt:47 | two runs whose branches differ only in order share a fingerprint, so the second is not unique |
| Generator.ApplyToEntry | fuzz/src/main/kotlin/jwp/fuzz/ByteArrayParamGen.kt:45 | only a reference carries an entry, and that entry takes the result |
| Generator.CloseFailure | fuzz/src/main/kotlin/jwp/fuzz/ByteArrayParamGen.kt:32-37 | `close()` attempts both closes and fails when either failed, with the cache's failure when both did |
| Generator.ByteArrayParamGen.constructor | fuzz/src/main/kotlin/jwp/fuzz/ByteArrayParamGen.kt:11-29 | the dictionary is sorted shortest first, the cache and the queue are fresh, every initial value is enqueued and all counters start at zero |
| Generator.ByteArrayParamGen.OnResult | fuzz/src/main/kotlin/jwp/fuzz/ByteArrayParamGen.kt:39-52 | `onResult` grows the totals, passes the result to the entry, stores the fingerprint, and enqueues the bytes only when the fingerprint was new and the parameter is a bare byte array |
| Generator.ByteArrayParamGen.OnResultCorrected | fuzz/src/main/kotlin/jwp/fuzz/ByteArrayParamGen.kt:39-52 | corrected `onResult`: the same, but a reference's bytes are enqueued too |
| Generator.ByteArrayParamGen.StoreUnique | fuzz/src/main/kotlin/jwp/fuzz/ByteArrayParamGen.kt:47-51 | the fingerprint is stored and the case, if any, enqueued exactly when it was new |
| Generator.ByteArrayParamGen.InitialValues | fuzz/src/main/kotlin/jwp/fuzz/ByteArrayParamGen.kt:62-64 | `initialValues()` gives a fresh entry per configured value, numbered below zero |
| Generator.ByteArrayParamGen.Stages | fuzz/src/main/kotlin/jwp/fuzz/ByteArrayParamGen.kt:66-91 | `stages` makes the entry the last one, moves the cycle on and takes the start time once; an entry under two bytes yields the candidates up to `stageArith8` and then throws, a longer one yields the fixed stages as written and then havoc |
| Generator.ByteArrayParamGen.StagesCorrected | fuzz/src/main/kotlin/jwp/fuzz/ByteArrayParamGen.kt:66-91 | corrected `stages`: the same updates, then the corrected fixed stages and havoc; it throws only when havoc meets an empty entry, after the fixed stages' candidates and the havoc cycles finished before the throw |
| Generator.ByteArrayParamGen.EntryRun | fuzz/src/main/kotlin/jwp/fuzz/ByteArrayParamGen.kt:73-90 | the fixed stages as written and then havoc over the entry, wrapped as references to it: a seed under two bytes throws after `stageArith8` |
| Generator.ByteArrayParamGen.EntryRunCorrected | fuzz/src/main/kotlin/jwp/fuzz/ByteArrayParamGen.kt:73-90 | the corrected fixed stages and then havoc, wrapped as references to the entry, cut short only when havoc throws on an empty entry |
| Generator.ByteArrayParamGen.HavocRun | fuzz/src/main/kotlin/jwp/fuzz/ByteArrayParamGen.kt:57-58 | havoc over an entry's bytes wrapped as references to it: a full batch of `havocCycles`, or fewer when a tweak throws on an empty entry |
| Generator.ByteArrayParamGen.PrefixRun | fuzz/src/main/kotlin/jwp/fuzz/ByteArrayParamGen.kt:74-80 | the seven stages up to `stageArith8` run one after the other |
| Generator.ByteArrayParamGen.AfterArith16Run | fuzz/src/main/kotlin/jwp/fuzz/ByteArrayParamGen.kt:82-86 | the five stages after `stageArith16` run one after the other, with `stageInteresting32` as written or corrected |
| Generator.ByteArrayParamGen.FixedStageRun | fuzz/src/main/kotlin/jwp/fuzz/ByteArrayParamGen.kt:74-86 | the thirteen stages before havoc as written: a seed under two bytes throws after `stageArith8`, a longer one gets all thirteen |
| Generator.ByteArrayParamGen.FixedStageRunCorrected | fuzz/src/main/kotlin/jwp/fuzz/ByteArrayParamGen.kt:74-86 | the thirteen corrected stages run one after the other |
| Generator.ByteArrayParamGen.NextBatch | fuzz/src/main/kotlin/jwp/fuzz/ByteArrayParamGen.kt:54-60 | each iterator step takes the next queue entry through the stages as written, or else havocs the last entry, or else gives the initial values; it throws on a dequeued entry under two bytes after the candidates up to `stageArith8`, or on a havocked empty entry after the cycles finished before the throw |
| Generator.ByteArrayParamGen.NextBatchCorrected | fuzz/src/main/kotlin/jwp/fuzz/ByteArrayParamGen.kt:54-60 | the same step with the corrected stages, which throws only when havoc meets an empty entry, after the candidates already yielded |
| TraceResult.HitBucket | fuzz/src/main/kotlin/jwp/fuzz/TraceResult.kt:52-59 | `hitBucket` keeps 1, 2 and 3, maps 4..7, 8..15, 16..31 and 32..127 to 4, 8, 16 and 32, and everything else to 128 |
| TraceResult.PowersOfTwo | fuzz/src/main/kotlin/jwp/fuzz/TraceResult.kt:52-59 | every bucket but the first three is a power of two no greater than the count it stands for, within 4..127 |
| TraceResult.HashedFields | fuzz/src/main/kotlin/jwp/fuzz/TraceResult.kt:72-80 | the seven ints hashed are the two class names' and method names' hashes (0 when unresolved), the two locations' hashes and the bucket or 0 |
| TraceResult.StableHashCode | fuzz/src/main/kotlin/jwp/fuzz/TraceResult.kt:72-80 | `stableHashCode` is an `Int`, the content hash of those seven ints |
| TraceResult.StableHashCodeIgnoresHitsWithinBucket | fuzz/src/main/kotlin/jwp/fuzz/TraceResult.kt:72-80 | hit counts sharing a bucket give the same hash, and without hit counts the count never matters |
| TraceResult.StableBranchesHash | fuzz/src/main/kotlin/jwp/fuzz/TraceResult.kt:9-12 | `stableBranchesHash` is an `Int`, the content hash of the branch hashes sorted by the hash with hit counts |
| TraceResult.StableBranchesHashPermutationInvariant | fuzz/src/main/kotlin/jwp/fuzz/TraceResult.kt:9-12 | with hit counts the trace hash does not depend on the order in which the branches were recorded |
| TraceResult.Filtered | fuzz/src/main/kotlin/jwp/fuzz/TraceResult.kt:14-18 | `filtered` keeps exactly the branches satisfying the predicate, in their order |
| TraceResult.FilteredAppend | fuzz/src/main/kotlin/jwp/fuzz/TraceResult.kt:14-18 | filtering distributes over concatenation |
| TraceResult.LongArrayBranches | fuzz/src/main/kotlin/jwp/fuzz/TraceResult.kt:24-28 | `branches()` decodes the 5-long chunks in order, dropping those whose from-method and from-location are both -1, and fails on a length that is not a multiple of five |
| TraceResult.MethodInfo | fuzz/src/main/kotlin/jwp/fuzz/TraceResult.kt:33-36 | a negative method id resolves to no class and no name |
| TraceResult.Resolve | fuzz/src/main/kotlin/jwp/fuzz/TraceResult.kt:30-42 | each decoded branch is kept, in order, with the lookups of both of its methods |
| TracerHelper.BranchLongsToBranches | fuzz/src/main/kotlin/jwp/fuzz/TracerHelper.kt:8-11 | every 5-long chunk becomes a branch, in order, with its hit count truncated to an `Int`; a short last chunk fails |
| TracerHelper.LongArrayBranchesFiltersSentinels | fuzz/src/main/kotlin/jwp/fuzz/TracerHelper.kt:8-11 | the trace decoder's output is this one's with the sentinel chunks removed |
| TracerHelper.NonSentinel | fuzz/src/main/kotlin/jwp/fuzz/TraceResult.kt:26 | the branches kept are exactly those not marked -1, in order |
| TracerState.JumpTuple | agent/src/main/kotlin/jwp/agent/TracerState.kt:21-27 | a step is recorded when the method changes or the location is not the next one, and the tuple's from-method is -1 before the first step |
| TracerState.Stepped | agent/src/main/kotlin/jwp/agent/TracerState.kt:19-32 | after `step` the previous step is the current one, and the count of the recorded tuple grows by one as a wrapping `Int` |
| TracerState.TupleAt | agent/src/main/kotlin/jwp/agent/TracerState.kt:21-27 | the tuple an event records depends only on it and the event before it |
| TracerState.Occurrences | agent/src/main/kotlin/jwp/agent/TracerState.kt:28 | the number of events of a trace that record a tuple |
| TracerState.ReplayCounts | agent/src/main/kotlin/jwp/agent/TracerState.kt:17-32 | after any trace the tracer remembers the last event, and each tuple's count is the number of events that recorded it, as a wrapping `Int`; no other tuple has a count |
| TracerState.FirstEventRecorded | agent/src/main/kotlin/jwp/agent/TracerState.kt:7-27 | the first event of any trace is recorded, coming from method -1 at location -1 |
| TracerState.Tracer.constructor | agent/src/main/kotlin/jwp/agent/TracerState.kt:7-17 | a new tracer has no previous method, location -1 and no tuples |
| TracerState.Tracer.Step | agent/src/main/kotlin/jwp/agent/TracerState.kt:19-32 | `step` records the tuple when the step is a jump, and then remembers the step |
| Insn.FixedSize | agent/src/main/kotlin/jwp/agent/JniHelpers.kt:108 | an instruction's fixed size is none for the two switches and WIDE, and 1 unless its entry gives another |
| Insn.ByOpcode | agent/src/main/kotlin/jwp/agent/JniHelpers.kt:312-314 | `byOpcode` finds the instruction of an opcode exactly when the table has one |
| Insn.ShortJumpsBranchWithSizeThree | agent/src/main/kotlin/jwp/agent/JniHelpers.kt:262-277 | the conditional jumps, GOTO and JSR branch with size three |
| Insn.OtherJumpsBranch | agent/src/main/kotlin/jwp/agent/JniHelpers.kt:278-310 | GOTO_W and JSR_W branch with size five, RET with size two and ATHROW with size one |
| Insn.VariableSizeInstructions | agent/src/main/kotlin/jwp/agent/JniHelpers.kt:279-305 | the two switches are the only branching instructions without a fixed size; WIDE has none and does not branch |
| Insn.ExitsAndInvokesBranch | agent/src/main/kotlin/jwp/agent/JniHelpers.kt:281-295 | the returns branch with size one and the invocations with size three or five |
| Agent.Record | agent/src/main/kotlin/jwp/agent/Agent.kt:89-93 | each counted tuple is written as from-method, from-location, to-method, to-location and the hit count widened to a long |
| Agent.Flattened | agent/src/main/kotlin/jwp/agent/Agent.kt:86-94 | the array holds five longs per tuple, in the map's order |
| Agent.FlattenedAt | agent/src/main/kotlin/jwp/agent/Agent.kt:89-93 | the five longs of the k-th tuple sit at 5k through 5k + 4 |
| Agent.StopTrace | agent/src/main/kotlin/jwp/agent/Agent.kt:86-97 | `stopTrace` fills an array of five longs per counted tuple through a running index, equal to the flattened tuples |
| Agent.DistinctEnumerationSize | agent/src/main/kotlin/jwp/agent/Agent.kt:86-96 | a listing of the map's entries without repeats is as long as the map, so the array is exactly full |
| Agent.StopTraceRoundTrip | agent/src/main/kotlin/jwp/agent/Agent.kt:86-97 | decoding the array gives back every counted tuple with its hit count, in the same order |
| Agent.ReplayCountsAreInts | agent/src/main/kotlin/jwp/agent/Agent.kt:93 | every count a tracer keeps is an `Int`, so widening it and truncating it back changes nothing |
| Agent.UnsignedByte | agent/src/main/kotlin/jwp/agent/Agent.kt:147 | `toInt() and 0xFF` reads a byte as unsigned |
| Agent.Marked | agent/src/main/kotlin/jwp/agent/Agent.kt:139-162 | after marking, each record is kept whole or overwritten with five -1s |
| Agent.ChunkOf | agent/src/main/kotlin/jwp/agent/Agent.kt:139 | long j belongs to the record starting at j - j % 5 |
| Agent.MarkNonBranches | agent/src/main/kotlin/jwp/agent/Agent.kt:119-162 | an empty array is left alone, a length not a multiple of five is rejected, and otherwise every record that is not a branch is overwritten with -1s in place |
| Agent.MarkRecord | agent/src/main/kotlin/jwp/agent/Agent.kt:140-161 | the record at i is judged and, unless it is kept, overwritten with -1s, and no other long changes |
| Agent.JudgeRecord | agent/src/main/kotlin/jwp/agent/Agent.kt:141-155 | a record survives when its methods differ, or its location is in the method and its instruction branches and either has no fixed size or does not go to the next instruction |
| Agent.MarkedRecord | agent/src/main/kotlin/jwp/agent/Agent.kt:139-162 | record k of the marked array is the original one or five -1s |
| Agent.MarkedRecordDecodes | agent/src/main/kotlin/jwp/agent/Agent.kt:139-162 | record k of the marked array decodes to the original branch or to the sentinel |
| Agent.MarkedDecodes | agent/src/main/kotlin/jwp/agent/Agent.kt:139-162 | decoding the marked array gives, in order, the original branch for each record kept and the sentinel for each one blanked |
| Agent.FallThroughIsBlanked | agent/src/main/kotlin/jwp/agent/Agent.kt:149-153 | a same-method record from an IFEQ is kept exactly when it does not go to the next instruction, three bytes on |
| AflDictionary.HexDigit | fuzz/src/main/kotlin/jwp/fuzz/AflDictionary.kt:47 | a hex digit's value is below 16 |
| AflDictionary.HexValue | fuzz/src/main/kotlin/jwp/fuzz/AflDictionary.kt:47 | `toIntOrNull(16)` of two chars, a sign and a digit or two digits, lies in -15..255 |
| AflDictionary.SpanLen | fuzz/src/main/kotlin/jwp/fuzz/AflDictionary.kt:20-31 | `takeWhile` from i takes the longest run of chars that satisfy the predicate |
| AflDictionary.LeadingSpace | fuzz/src/main/kotlin/jwp/fuzz/AflDictionary.kt:14 | the leading whitespace is the longest whitespace prefix |
| AflDictionary.TrailingSpace | fuzz/src/main/kotlin/jwp/fuzz/AflDictionary.kt:14 | the trailing whitespace is the longest whitespace suffix |
| AflDictionary.Trim | fuzz/src/main/kotlin/jwp/fuzz/AflDictionary.kt:14 | `trim()` gives an infix of the line that neither starts nor ends with whitespace |
| AflDictionary.PrependAppend | fuzz/src/main/kotlin/jwp/fuzz/AflDictionary.kt:35-56 | bytes appended one at a time come out in order |
| AflDictionary.NextStep | fuzz/src/main/kotlin/jwp/fuzz/AflDictionary.kt:37-55 | one turn of the value loop that takes a byte consumes between one char and what is left |
| AflDictionary.Level | fuzz/src/main/kotlin/jwp/fuzz/AflDictionary.kt:23-29 | a level is read only after an `@`, from its digits, and the cursor stays within the line |
| AflDictionary.Values | fuzz/src/main/kotlin/jwp/fuzz/AflDictionary.kt:8 | `values` is the entries' values, in order |
| AflDictionary.ReadValue | fuzz/src/main/kotlin/jwp/fuzz/AflDictionary.kt:35-56 | the cursor loop from the opening quote reads the value up to the closing quote, with its escapes and errors |
| AflDictionary.ParseLine | fuzz/src/main/kotlin/jwp/fuzz/AflDictionary.kt:13-58 | one line is trimmed, then skipped when blank or a comment, rejected, or read as an entry |
| AflDictionary.ParseEntry | fuzz/src/main/kotlin/jwp/fuzz/AflDictionary.kt:18-58 | after the label, the level, the separators, the opening quote and the value are read, and an empty value is rejected |
| AflDictionary.ParseValue | fuzz/src/main/kotlin/jwp/fuzz/AflDictionary.kt:31-58 | the separators, the opening quote and the value read by the loop make the entry |
| AflDictionary.Read | fuzz/src/main/kotlin/jwp/fuzz/AflDictionary.kt:11-59 | `read` goes over the lines in order, stopping at the first error |
| AflDictionary.ReadSpecPrefixError | fuzz/src/main/kotlin/jwp/fuzz/AflDictionary.kt:11-59 | an error in the first k lines is the error of the whole read |
| AflDictionary.ReadSpecEntries | fuzz/src/main/kotlin/jwp/fuzz/AflDictionary.kt:11-59 | every entry read has a non-empty value and there are never more entries than lines |
| AflDictionary.ReadSkipsComment | fuzz/src/main/kotlin/jwp/fuzz/AflDictionary.kt:16 | blank and comment lines add nothing, wherever they are |
| AflDictionary.NextStepIgnoresRest | fuzz/src/main/kotlin/jwp/fuzz/AflDictionary.kt:37-55 | a step that closes or takes a byte looks at no char past its own |
| AflDictionary.QuotedIgnoresRest | fuzz/src/main/kotlin/jwp/fuzz/AflDictionary.kt:53 | whatever follows the closing quote is ignored |
| AflDictionary.HexChar | fuzz/src/main/kotlin/jwp/fuzz/AflDictionary.kt:47 | each value from 0 to 15 has a hex digit |
| AflDictionary.EscapedByte | fuzz/src/main/kotlin/jwp/fuzz/AflDictionary.kt:44-48 | a `\xHH` escape is four chars long |
| AflDictionary.Escaped | fuzz/src/main/kotlin/jwp/fuzz/AflDictionary.kt:44-48 | a value written with one escape per byte is four chars per byte long |
| AflDictionary.ByteOffsetCancels | fuzz/src/main/kotlin/jwp/fuzz/AflDictionary.kt:47 | the escape of a byte written as that byte plus 128 reads back as the byte, since 128 is subtracted |
| AflDictionary.EscapedByteStep | fuzz/src/main/kotlin/jwp/fuzz/AflDictionary.kt:41-49 | one escape is one step that takes its byte |
| AflDictionary.EscapedRoundTrip | fuzz/src/main/kotlin/jwp/fuzz/AflDictionary.kt:35-56 | reading an escaped value up to its closing quote gives the bytes back |
| AflDictionary.SpanLenIs | fuzz/src/main/kotlin/jwp/fuzz/AflDictionary.kt:20-31 | a run of n chars satisfying the predicate, ended by the end or by one that does not, is what `takeWhile` takes |
| AflDictionary.TrimmedAlready | fuzz/src/main/kotlin/jwp/fuzz/AflDictionary.kt:14 | a line without surrounding whitespace is its own trimmed form |
| AflDictionary.HexEscapeExample | fuzz/src/main/kotlin/jwp/fuzz/AflDictionary.kt:44-48 | `"!\xf9\x04"` reads as 0x21, 0x79 and 0x84, each escape giving its hex value minus 128 |
| TypeGen.SameListsAsParamGen | fuzz/src/main/kotlin/jwp/fuzz/TypeGen.kt:65-73 | the suggested byte, short, int and long lists hold the same values, in the same order, as `ParamGen`'s |
| TypeGen.SuggestedAgainstParamGen | fuzz/src/main/kotlin/jwp/fuzz/TypeGen.kt:8-33 | the lookup agrees with `ParamGen.suggested` on primitives, puts a boxed list's null last instead of first, and has no entry for byte arrays and strings |
| TypeGen.CatOf | fuzz/src/main/kotlin/jwp/fuzz/TypeGen.kt:84-86 | `cat` concatenates unless both sides take feedback, and then builds a combined iterable starting on its first part |
| TypeGen.Cat.constructor | fuzz/src/main/kotlin/jwp/fuzz/TypeGen.kt:86-87 | a combined iterable starts on its first part |
| TypeGen.Cat.OnResult | fuzz/src/main/kotlin/jwp/fuzz/TypeGen.kt:89-92 | a result goes to the first part while it is being iterated and to the second after, each only if it takes feedback |
| TypeGen.Cat.Iterator | fuzz/src/main/kotlin/jwp/fuzz/TypeGen.kt:94-95 | a new iterator starts over on the first part but does not reset `first`, so after one full pass later iterators yield the first part alone |
| TypeGen.Cat.IteratorCorrected | fuzz/src/main/kotlin/jwp/fuzz/TypeGen.kt:94-106 | as intended, a new iterator resets the shared `first` and yields the first part and then the second |
| TypeGen.CatIterator.constructor | fuzz/src/main/kotlin/jwp/fuzz/TypeGen.kt:95 | a new iterator is over the first part |
| TypeGen.CatIterator.CheckNext | fuzz/src/main/kotlin/jwp/fuzz/TypeGen.kt:97-102 | at the end of the first part the iterator switches to the second for good, and what is left to yield does not change |
| TypeGen.CatIterator.HasNext | fuzz/src/main/kotlin/jwp/fuzz/TypeGen.kt:104 | `hasNext()` is true exactly when something is left to yield |
| TypeGen.CatIterator.Next | fuzz/src/main/kotlin/jwp/fuzz/TypeGen.kt:105 | `next()` yields the first of what is left |
| TypeGen.Drain | fuzz/src/main/kotlin/jwp/fuzz/TypeGen.kt:94-106 | a loop over a fresh iterator yields both parts on the first pass and the first part alone afterwards |
| TypeGen.IterateTwiceAsWritten | fuzz/src/main/kotlin/jwp/fuzz/TypeGen.kt:87-102 | two loops over the same combined iterable: the second sees the first part alone |
| TypeGen.IterateTwiceCorrected | fuzz/src/main/kotlin/jwp/fuzz/TypeGen.kt:94-106 | with the intended iterator every pass yields both parts |
| TypeGen.DrainCorrected | fuzz/src/main/kotlin/jwp/fuzz/TypeGen.kt:94-106 | a loop over the intended iterator yields both parts in order |
| PersistFile.Word | fuzz/src/main/kotlin/jwp/fuzz/PersistFile.kt:46-52 | a 32-bit word is written as four bytes, most significant first |
| PersistFile.IntBytes | fuzz/src/main/kotlin/jwp/fuzz/PersistFile.kt:46-51 | `putInt` writes the four bytes of a Java int |
| PersistFile.LongBytes | fuzz/src/main/kotlin/jwp/fuzz/PersistFile.kt:52 | `putLong` writes the eight bytes of a Java long, high word first |
| PersistFile.Unsigned | fuzz/src/main/kotlin/jwp/fuzz/PersistFile.kt:49 | a case's bytes as the buffer holds them, one cell per byte |
| PersistFile.ToBytes | fuzz/src/main/kotlin/jwp/fuzz/PersistFile.kt:24 | the cells read back into a `ByteArray`, one byte per cell |
| PersistFile.IntsBytes | fuzz/src/main/kotlin/jwp/fuzz/PersistFile.kt:51 | each hash is written in four bytes, in order |
| PersistFile.EncodeCase | fuzz/src/main/kotlin/jwp/fuzz/PersistFile.kt:48-52 | one case takes 16 bytes plus its bytes plus four per hash |
| PersistFile.HashesAndTime | fuzz/src/main/kotlin/jwp/fuzz/PersistFile.kt:50-52 | the part after a case's bytes takes 12 bytes plus four per hash |
| PersistFile.ReloadedAll | fuzz/src/main/kotlin/jwp/fuzz/PersistFile.kt:22-30 | each case of a list is reloaded on its own, in order |
| PersistFile.ReadInts | fuzz/src/main/kotlin/jwp/fuzz/PersistFile.kt:26 | n ints are read when and only when 4n bytes are left |
| PersistFile.ReadBuffer.constructor | fuzz/src/main/kotlin/jwp/fuzz/PersistFile.kt:20 | a flipped buffer is read from its start |
| PersistFile.ReadBuffer.GetInt | fuzz/src/main/kotlin/jwp/fuzz/PersistFile.kt:21-26 | `getInt()` reads the int at the cursor and moves on four, or fails on underflow and leaves the cursor |
| PersistFile.ReadBuffer.GetLong | fuzz/src/main/kotlin/jwp/fuzz/PersistFile.kt:28 | `getLong()` reads the long at the cursor and moves on eight, or fails on underflow and leaves the cursor |
| PersistFile.ReadBuffer.Get | fuzz/src/main/kotlin/jwp/fuzz/PersistFile.kt:24 | `get(dst)` copies the next n bytes and moves on n, or fails on underflow and leaves the cursor |
| PersistFile.WriteBuffer.constructor | fuzz/src/main/kotlin/jwp/fuzz/PersistFile.kt:45 | `clear()` leaves the buffer empty with its capacity |
| PersistFile.WriteBuffer.Put | fuzz/src/main/kotlin/jwp/fuzz/PersistFile.kt:46-52 | a put succeeds exactly when the bytes fit, appends them, and writes nothing on overflow |
| PersistFile.WriteQueue | fuzz/src/main/kotlin/jwp/fuzz/PersistFile.kt:44-56 | `writeQueue` hands the file the encoded queue, or nothing when the buffer overflows |
| PersistFile.WriteCase | fuzz/src/main/kotlin/jwp/fuzz/PersistFile.kt:47-53 | one case is appended whole when it fits, and the write fails exactly when it does not |
| PersistFile.WriteHashes | fuzz/src/main/kotlin/jwp/fuzz/PersistFile.kt:51 | the hashes are appended as ints when they fit |
| PersistFile.EncodeCasesSnoc | fuzz/src/main/kotlin/jwp/fuzz/PersistFile.kt:47-53 | the encoding of a list is the encodings of its cases, one after the other |
| PersistFile.EncodeCasesGrow | fuzz/src/main/kotlin/jwp/fuzz/PersistFile.kt:47-53 | a longer prefix of the cases never encodes to fewer bytes |
| PersistFile.ReadCase | fuzz/src/main/kotlin/jwp/fuzz/PersistFile.kt:23-29 | one case is read from the cursor: its size, its bytes, its hash count and hashes, and its time |
| PersistFile.ReadHashesAndTime | fuzz/src/main/kotlin/jwp/fuzz/PersistFile.kt:25-28 | a positive hash count is followed by that many hashes, and a count of zero or less means none |
| PersistFile.ReadTime | fuzz/src/main/kotlin/jwp/fuzz/PersistFile.kt:28 | a negative time is read as null |
| PersistFile.ReadHashes | fuzz/src/main/kotlin/jwp/fuzz/PersistFile.kt:26 | the hashes are read one int at a time, and the cursor never passes the limit |
| PersistFile.ReadQueue | fuzz/src/main/kotlin/jwp/fuzz/PersistFile.kt:20-30 | the flipped buffer is decoded as a count followed by that many cases |
| PersistFile.ReadNext | fuzz/src/main/kotlin/jwp/fuzz/PersistFile.kt:22-30 | each turn of the `mapTo` loop reads the next case, or fails the whole read |
| PersistFile.RepeatSnoc | fuzz/src/main/kotlin/jwp/fuzz/PersistFile.kt:22 | one turn more is the earlier turns followed by one turn from where they end |
| PersistFile.RepeatStop | fuzz/src/main/kotlin/jwp/fuzz/PersistFile.kt:22 | a turn that fails fails the whole read with its message |
| PersistFile.Load | fuzz/src/main/kotlin/jwp/fuzz/PersistFile.kt:15-32 | a missing file loads as an empty list; otherwise the file is read into the buffer, flipped and decoded |
| PersistFile.InputQueue.constructor | fuzz/src/main/kotlin/jwp/fuzz/PersistFile.kt:10-15 | the queue holds its in-memory list, its buffer's capacity and its file |
| PersistFile.InputQueue.Enqueue | fuzz/src/main/kotlin/jwp/fuzz/PersistFile.kt:34-36 | `enqueue` appends to the in-memory queue and marks it for a cull |
| PersistFile.InputQueue.CullAndDequeue | fuzz/src/main/kotlin/jwp/fuzz/PersistFile.kt:37 | `cullAndDequeue` is the in-memory queue's |
| PersistFile.InputQueue.OnQueueMutated | fuzz/src/main/kotlin/jwp/fuzz/PersistFile.kt:67 | the current queue is written to the file, and an overflow leaves the file as it was |
| PersistFile.Open | fuzz/src/main/kotlin/jwp/fuzz/PersistFile.kt:10-32 | construction fails exactly when loading fails, and otherwise the in-memory queue is the loaded list, numbered from its size |
| PersistFile.ToBytesUnsigned | fuzz/src/main/kotlin/jwp/fuzz/PersistFile.kt:24-49 | a byte put into the buffer and read back is the same byte |
| PersistFile.Digits | fuzz/src/main/kotlin/jwp/fuzz/PersistFile.kt:46 | a word is the sum of its four bytes' places |
| PersistFile.WordAtWord | fuzz/src/main/kotlin/jwp/fuzz/PersistFile.kt:21-46 | a word written reads back as itself |
| PersistFile.ReadIntAt | fuzz/src/main/kotlin/jwp/fuzz/PersistFile.kt:21-46 | an int written reads back as itself |
| PersistFile.Signed32Mod | fuzz/src/main/kotlin/jwp/fuzz/PersistFile.kt:21 | an int's unsigned 32-bit pattern reads back as the int |
| PersistFile.Signed64Mod | fuzz/src/main/kotlin/jwp/fuzz/PersistFile.kt:28-52 | a long's unsigned 64-bit pattern, split into two words, reads back as the long |
| PersistFile.ReadLongAt | fuzz/src/main/kotlin/jwp/fuzz/PersistFile.kt:28-52 | a long written reads back as itself |
| PersistFile.ReadIntsAt | fuzz/src/main/kotlin/jwp/fuzz/PersistFile.kt:26-51 | hashes written read back as themselves |
| PersistFile.DecodeCaseAt | fuzz/src/main/kotlin/jwp/fuzz/PersistFile.kt:23-52 | a stored case, wherever it is, decodes to its reloaded form and ends where its encoding ends |
| PersistFile.DecodeHashesAt | fuzz/src/main/kotlin/jwp/fuzz/PersistFile.kt:25-52 | a case's stored hash count, hashes and time decode to its reloaded hashes and time |
| PersistFile.DecodeCasesAt | fuzz/src/main/kotlin/jwp/fuzz/PersistFile.kt:22-53 | stored cases decode, one after the other, to their reloaded forms |
| PersistFile.DecodeEncode | fuzz/src/main/kotlin/jwp/fuzz/PersistFile.kt:20-54 | decoding what `writeQueue` writes gives back the queue, with empty hash lists and negative times as null |
| PersistFile.WriteThenLoad | fuzz/src/main/kotlin/jwp/fuzz/PersistFile.kt:15-56 | a file written by `writeQueue` loads as the queue it came from, reloaded |
| PersistFile.ReloadedStable | fuzz/src/main/kotlin/jwp/fuzz/PersistFile.kt:25-28 | reloading is idempotent: a loaded queue written and loaded again is unchanged |
| ParameterProvider.Partitioned | fuzz/src/main/kotlin/jwp/fuzz/ParameterProvider.kt:53-78 | `partitioned` gives what the partition pass gives for the predicate's value of each generator |
| ParameterProvider.EmptyPartitionTwinsDiffer | fuzz/src/main/kotlin/jwp/fuzz/ParameterProvider.kt:60 | with no generators `partitioned` fails its requirement, while the other provider's version hands them to the true provider |
| ParameterProvider.SeparateFixedAndUnfixedSize | fuzz/src/main/kotlin/jwp/fuzz/ParameterProvider.kt:37-51 | a generator is fixed when it is a collection of at most 500 values and fewer than five came before it; the counter is read once per generator, in order |
| ParameterProvider.WithFeedbackOnResult | fuzz/src/main/kotlin/jwp/fuzz/ParameterProvider.kt:86-90 | `onResult` reaches the generators that take feedback, each with its own index, in order |
| ParameterProvider.AlwaysChangeEachParamEvenly | fuzz/src/main/kotlin/jwp/fuzz/ParameterProvider.kt:95-112 | `alwaysChangeEachParamEvenly` gives the even pass of the other provider |
| ParameterProvider.AllPermutations | fuzz/src/main/kotlin/jwp/fuzz/ParameterProvider.kt:114-129 | `allPermutations` gives the other provider's cartesian product |
| ParameterProvider.RandomSingleParamChange | fuzz/src/main/kotlin/jwp/fuzz/ParameterProvider.kt:131-161 | `randomSingleParamChange` gives the other provider's random pass for the same draws |
| ParameterProvider.SuggestedShapes | fuzz/src/main/kotlin/jwp/fuzz/ParameterProvider.kt:15-25 | both providers `suggested` uses yield tuples that fit the generators they are given |
| ParameterProvider.SeparateWithAndWithoutFeedback | fuzz/src/main/kotlin/jwp/fuzz/ParameterProvider.kt:27-35 | the partition by `is TypeGen.WithFeedback`, with `onResult` reaching the feedback generators |
| ParameterProvider.Suggested | fuzz/src/main/kotlin/jwp/fuzz/ParameterProvider.kt:15-25 | `suggested`'s tuples, and the generator indices its `onResult` reaches |
| ParameterProvider.SuggestedFeedbackOnly | fuzz/src/main/kotlin/jwp/fuzz/ParameterProvider.kt:15-62 | generators that all take feedback change one random slot at a time |
| ParameterProvider.SuggestedSmallFixed | fuzz/src/main/kotlin/jwp/fuzz/ParameterProvider.kt:18-51 | up to five small collections without feedback give their cartesian product |
| ParameterProvider.SuggestedUnfixed | fuzz/src/main/kotlin/jwp/fuzz/ParameterProvider.kt:18-51 | generators without feedback that are not small collections change one random slot at a time |
| ParameterProvider.SuggestedMixedFeedbackFails | fuzz/src/main/kotlin/jwp/fuzz/ParameterProvider.kt:15-78 | a feedback generator beside one without feedback makes the first tuple fail |
| ParameterProvider.EmptySuggestedTwinsDiffer | fuzz/src/main/kotlin/jwp/fuzz/ParameterProvider.kt:60 | with no generators `suggested` fails at the call, while the other provider's version yields nothing |
| Fuzzer.Fuzz | fuzz/src/main/kotlin/jwp/fuzz/Fuzzer.kt:22-52 | `fuzz` produces the events and the outcome of the loop over the param sets followed by the `finally` block |
| Fuzzer.Submit | fuzz/src/main/kotlin/jwp/fuzz/Fuzzer.kt:43-45 | the rest of an iteration: the handler's `postSubmission`, `onResult` when the provider takes feedback, and the failure `whenComplete` latches |
| Fuzzer.RunStep | fuzz/src/main/kotlin/jwp/fuzz/Fuzzer.kt:28-46 | an iteration that passes the first-run check contributes its events and then the rest of the run |
| Fuzzer.RunNoCleanup | fuzz/src/main/kotlin/jwp/fuzz/Fuzzer.kt:28-46 | the loop itself never shuts the invoker down or closes the provider |
| Fuzzer.CleanupLast | fuzz/src/main/kotlin/jwp/fuzz/Fuzzer.kt:47-51 | on every way out, finished or thrown, the invoker is shut down once and then the provider closed, last |
| Fuzzer.RunStops | fuzz/src/main/kotlin/jwp/fuzz/Fuzzer.kt:29 | no param set is invoked at or after the iteration that found the stop flag set |
| Fuzzer.StopHonoured | fuzz/src/main/kotlin/jwp/fuzz/Fuzzer.kt:29 | once the stop flag is set, `fuzz` invokes no later param set |
| Fuzzer.RunDispatchesAll | fuzz/src/main/kotlin/jwp/fuzz/Fuzzer.kt:28-46 | a run that meets neither the stop flag nor a failure invokes every param set, in order |
| Fuzzer.FinishedDispatchesAll | fuzz/src/main/kotlin/jwp/fuzz/Fuzzer.kt:28-46 | a `fuzz` that finishes has invoked every param set |
| Fuzzer.RunFirstRunFailedLater | fuzz/src/main/kotlin/jwp/fuzz/Fuzzer.kt:34-42 | after the first iteration no `FirstRunFailed` can be thrown |
| Fuzzer.FirstRunFailedIff | fuzz/src/main/kotlin/jwp/fuzz/Fuzzer.kt:34-42 | `fuzz` throws `FirstRunFailed` exactly when the first method call fails with a `WrongMethodTypeException`, and then stops after that one call |
| Fuzzer.FeedbackOrderAppend | fuzz/src/main/kotlin/jwp/fuzz/Fuzzer.kt:43-44 | the order of feedback holds across consecutive iterations |
| Fuzzer.RunOnResult | fuzz/src/main/kotlin/jwp/fuzz/Fuzzer.kt:43-44 | `onResult` reaches the provider only when it takes feedback, and right after the handler's `postSubmission` for the same call |
| Fuzzer.IterationFeedbackOrder | fuzz/src/main/kotlin/jwp/fuzz/Fuzzer.kt:31-44 | within one iteration `onResult` follows the `postSubmission`, or the call when there is no handler |
| Fuzzer.OnResultAfterPostSubmission | fuzz/src/main/kotlin/jwp/fuzz/Fuzzer.kt:43-44 | over the whole run, every `onResult` follows its own `postSubmission` |
| Fuzzer.RunLatched | fuzz/src/main/kotlin/jwp/fuzz/Fuzzer.kt:30-45 | with `stopOnFutureFailure`, a failed future is rethrown at the top of the next iteration unless the stop flag ends the loop first, and the next call is never made |
| Fuzzer.FutureFailureRethrown | fuzz/src/main/kotlin/jwp/fuzz/Fuzzer.kt:30-45 | a failed future's exception is what `fuzz` throws, and the next param set is not invoked |
| Fuzzer.RunUnlatched | fuzz/src/main/kotlin/jwp/fuzz/Fuzzer.kt:45 | without `stopOnFutureFailure` nothing is latched and later iterations never throw |
| Fuzzer.OnlyFirstRunThrows | fuzz/src/main/kotlin/jwp/fuzz/Fuzzer.kt:34-51 | a failed first run is followed only by the shutdown and the close |
| Fuzzer.Hashes | fuzz/src/main/kotlin/jwp/fuzz/Fuzzer.kt:92-94 | each result's fingerprint is taken with or without hit counts, as configured |
| Fuzzer.Elements | fuzz/src/main/kotlin/jwp/fuzz/Fuzzer.kt:95 | the fingerprints as a set |
| Fuzzer.UniqueCount | fuzz/src/main/kotlin/jwp/fuzz/Fuzzer.kt:95 | the backing set grows by exactly one fingerprint per result passed to `onUnique` |
| Fuzzer.TrackedAdd | fuzz/src/main/kotlin/jwp/fuzz/Fuzzer.kt:95 | `backingSet.add` of the fingerprint, with `onUnique` exactly when it was new, keeps the count |
| Fuzzer.TrackUniqueBranches.constructor | fuzz/src/main/kotlin/jwp/fuzz/Fuzzer.kt:80-86 | the handler starts with its backing set and no executions |
| Fuzzer.TrackUniqueBranches.PostSubmission | fuzz/src/main/kotlin/jwp/fuzz/Fuzzer.kt:89-97 | on a normal result the count goes up by one as a long and `onUnique` runs exactly when the fingerprint is new; an exceptional future changes nothing |
| Fuzzer.TrackUniqueBranches.OnUnique | fuzz/src/main/kotlin/jwp/fuzz/Fuzzer.kt:99 | `onUnique` is recorded and changes nothing else |
| Fuzzer.TrackUniqueBranches.CountsUnique | fuzz/src/main/kotlin/jwp/fuzz/Fuzzer.kt:89-99 | as many fingerprints are new to the backing set as results were passed to `onUnique` |
| SimpleExample.RunEnd | examples/simple/src/main/kotlin/jwp/examples/simple/Main.kt:65-68 | the digit loop stops at the end of the longest run of digits |
| SimpleExample.ParseNumber | examples/simple/src/main/kotlin/jwp/examples/simple/Main.kt:57-81 | `parseNumber` returns or throws exactly what the whole-string reading of the number gives |
| SimpleExample.ReadDigits | examples/simple/src/main/kotlin/jwp/examples/simple/Main.kt:64-76 | each digit loop collects the digits from the index and stops at the end of their run |
| SimpleExample.RunEndAt | examples/simple/src/main/kotlin/jwp/examples/simple/Main.kt:65-68 | a run of digits followed by a non-digit or the end is the run the loop reads |
| SimpleExample.ParseRender | examples/simple/src/main/kotlin/jwp/examples/simple/Main.kt:57-81 | every number with digits, written with or without a '+' when it is not negative, parses back to itself |
| SimpleExample.ParseFraction | examples/simple/src/main/kotlin/jwp/examples/simple/Main.kt:70-80 | digits ending at a point followed only by a non-empty run of digits parse with that fraction |
| SimpleExample.Pieces | examples/simple/src/main/kotlin/jwp/examples/simple/Main.kt:57-81 | the sign, the digits and the fraction can be cut out of the written number again |
| SimpleExample.ParseSound | examples/simple/src/main/kotlin/jwp/examples/simple/Main.kt:57-81 | whatever `parseNumber` accepts is a number written out, with its digits, and with a '+' exactly when the string starts with one |
| SimpleExample.RenderedWithFraction | examples/simple/src/main/kotlin/jwp/examples/simple/Main.kt:70-80 | a string cut at its point is the number with its fraction written out |
| ParamProvider.IndicesWhere | fuzz/src/main/kotlin/jwp/fuzz/ParamProvider.kt:75 | each side of `withIndex().partition` holds exactly the indices whose flag is its own, ascending |
| ParamProvider.IndicesSplit | fuzz/src/main/kotlin/jwp/fuzz/ParamProvider.kt:75 | the two sides together hold every index exactly once |
| ParamProvider.Select | fuzz/src/main/kotlin/jwp/fuzz/ParamProvider.kt:75 | the generators at a side's indices, in order |
| ParamProvider.OnResult | fuzz/src/main/kotlin/jwp/fuzz/ParamProvider.kt:17-19 | `onResult` reaches exactly the generators that take feedback, in order, each with its own index |
| ParamProvider.Close | fuzz/src/main/kotlin/jwp/fuzz/ParamProvider.kt:20 | `close` closes exactly the generators that are `Closeable`, in order |
| ParamProvider.PosAfterStep | fuzz/src/main/kotlin/jwp/fuzz/ParamProvider.kt:171-177 | after k calls the next one reads value k mod L, and it restarts the pass exactly when k is a positive multiple of L |
| ParamProvider.InfiniteRestartingIterable.constructor | fuzz/src/main/kotlin/jwp/fuzz/ParamProvider.kt:165-166 | a new restarting iterable has not completed a pass |
| ParamProvider.InfiniteRestartingIterable.Iterator | fuzz/src/main/kotlin/jwp/fuzz/ParamProvider.kt:167-169 | `iterator()` fails its requirement exactly on an empty source, and otherwise starts at the beginning |
| ParamProvider.RestartingIterator.constructor | fuzz/src/main/kotlin/jwp/fuzz/ParamProvider.kt:168 | the iterator starts at the first value |
| ParamProvider.RestartingIterator.Next | fuzz/src/main/kotlin/jwp/fuzz/ParamProvider.kt:170-177 | `next()` returns the value at the position modulo the source's length, and marks the source completed when it restarts |
| ParamProvider.WriteBack | fuzz/src/main/kotlin/jwp/fuzz/ParamProvider.kt:87-88 | writing a tuple back fails exactly when it is longer than its side's index list, and otherwise sets those indices and no other |
| ParamProvider.Delegate | fuzz/src/main/kotlin/jwp/fuzz/ParamProvider.kt:76-77 | a consumer taking at most `limit` tuples gets the prefix of the pass, or its exception once it takes one |
| ParamProvider.MergeRound | fuzz/src/main/kotlin/jwp/fuzz/ParamProvider.kt:87-89 | one round writes the next tuple of each side at its indices and yields a copy of the whole array |
| ParamProvider.MergeLoop | fuzz/src/main/kotlin/jwp/fuzz/ParamProvider.kt:78-91 | the merging loop fails exactly when a side is empty or its tuples are too long, and otherwise yields rounds until both have restarted, or forever |
| ParamProvider.PartitionIndices | fuzz/src/main/kotlin/jwp/fuzz/ParamProvider.kt:75 | the two index lists are duplicate-free, disjoint and together as long as the generators |
| ParamProvider.PartitionedAsWritten | fuzz/src/main/kotlin/jwp/fuzz/ParamProvider.kt:74-92 | `Partitioned.iterator()` delegates when one side is empty and otherwise merges both providers, each handed all the generators |
| ParamProvider.MergeProviders | fuzz/src/main/kotlin/jwp/fuzz/ParamProvider.kt:78-91 | the merge starts lazily: nothing fails until a tuple is taken, then each provider's failure surfaces |
| ParamProvider.PartitionedCorrected | fuzz/src/main/kotlin/jwp/fuzz/ParamProvider.kt:74-92 | with each provider handed its own side's generators, the merge yields their tuples at their indices |
| ParamProvider.MixedPartitionFails | fuzz/src/main/kotlin/jwp/fuzz/ParamProvider.kt:79-88 | as written, with both sides non-empty every provider's tuple is too long for its side, so the first tuple fails |
| ParamProvider.FixedFlags | fuzz/src/main/kotlin/jwp/fuzz/ParamProvider.kt:56-63 | the predicate runs once per generator, in order, with `seenFixed` starting at zero |
| ParamProvider.FixedFlagsPointwise | fuzz/src/main/kotlin/jwp/fuzz/ParamProvider.kt:59-61 | a generator is fixed exactly when it is a collection of at most 500 values and fewer than five before it are fixed |
| ParamProvider.FixedFlagsCount | fuzz/src/main/kotlin/jwp/fuzz/ParamProvider.kt:59-61 | exactly the smaller of the number of candidates and five are fixed |
| ParamProvider.SeparateFixedAndUnfixedSize | fuzz/src/main/kotlin/jwp/fuzz/ParamProvider.kt:56-64 | `SeparateFixedAndUnfixedSize.iterator()` is the partition by the fixed flags |
| ParamProvider.AllFixed | fuzz/src/main/kotlin/jwp/fuzz/ParamProvider.kt:59-62 | at most five candidates are all fixed |
| ParamProvider.NoneFixed | fuzz/src/main/kotlin/jwp/fuzz/ParamProvider.kt:59-62 | when no generator is a candidate, none is fixed |
| ParamProvider.SeparateAllFixed | fuzz/src/main/kotlin/jwp/fuzz/ParamProvider.kt:56-76 | a few small collections all go to the fixed-size provider |
| ParamProvider.SeparateNoneFixed | fuzz/src/main/kotlin/jwp/fuzz/ParamProvider.kt:56-77 | generators that are not small collections all go to the unfixed-size provider |
| ParamProvider.MaxLenIsMax | fuzz/src/main/kotlin/jwp/fuzz/ParamProvider.kt:103-110 | the round that completes is the length of the longest generator |
| ParamProvider.EvenTuples | fuzz/src/main/kotlin/jwp/fuzz/ParamProvider.kt:111 | round k holds every generator at its value k modulo its length |
| ParamProvider.FoldStep | fuzz/src/main/kotlin/jwp/fuzz/ParamProvider.kt:103-108 | the fold restarts an iterator exactly when it is exhausted, and marks it cycled from round L on |
| ParamProvider.EvenFold | fuzz/src/main/kotlin/jwp/fuzz/ParamProvider.kt:103-109 | the fold of round k restarts each exhausted iterator, and the round is complete exactly when k reaches the longest generator's length |
| ParamProvider.EvenNext | fuzz/src/main/kotlin/jwp/fuzz/ParamProvider.kt:111 | `iters.map { it.next() }` fails exactly when a generator is empty, and otherwise is round k's tuple |
| ParamProvider.EvenStart | fuzz/src/main/kotlin/jwp/fuzz/ParamProvider.kt:100-101 | every iterator starts at its first value and none has cycled |
| ParamProvider.EvenRound | fuzz/src/main/kotlin/jwp/fuzz/ParamProvider.kt:102-112 | a round stops when complete and asked to, fails on an empty generator, and otherwise yields round k's tuple |
| ParamProvider.EvenSingleParamChange | fuzz/src/main/kotlin/jwp/fuzz/ParamProvider.kt:99-113 | `EvenSingleParamChange.iterator()` gives the even pass |
| ParamProvider.EvenStateNext | fuzz/src/main/kotlin/jwp/fuzz/ParamProvider.kt:103-111 | after a round the arrays are in the next round's state |
| ParamProvider.EvenSpecOk | fuzz/src/main/kotlin/jwp/fuzz/ParamProvider.kt:99-113 | rounds taken without a failure are the pass's tuples |
| ParamProvider.EvenSpecFail | fuzz/src/main/kotlin/jwp/fuzz/ParamProvider.kt:111 | a failure in the first round with a tuple to take is the pass's failure |
| ParamProvider.EvenPassCoversEveryValue | fuzz/src/main/kotlin/jwp/fuzz/ParamProvider.kt:99-113 | the pass fails exactly on an empty generator, and otherwise every value of every generator appears, value v of generator i in round v |
| ParamProvider.WithPrefixAppend | fuzz/src/main/kotlin/jwp/fuzz/ParamProvider.kt:123-127 | a prefix distributes over the concatenation of tuple lists |
| ParamProvider.WithPrefixPrepend | fuzz/src/main/kotlin/jwp/fuzz/ParamProvider.kt:124-126 | setting one more slot of the working set prepends its value to the later tuples |
| ParamProvider.ApplyPermutation | fuzz/src/main/kotlin/jwp/fuzz/ParamProvider.kt:121-128 | `applyPermutation(index)` yields the working set's first slots in front of every tuple of the later generators' product, and leaves those slots alone |
| ParamProvider.AllPermutations | fuzz/src/main/kotlin/jwp/fuzz/ParamProvider.kt:119 | `AllPermutations.iterator()` yields the cartesian product of the generators |
| ParamProvider.TuplesShape | fuzz/src/main/kotlin/jwp/fuzz/ParamProvider.kt:121-128 | every tuple of the product has one value per generator |
| ParamProvider.TuplesCount | fuzz/src/main/kotlin/jwp/fuzz/ParamProvider.kt:121-128 | the product has as many tuples as the generators' lengths multiply to |
| ParamProvider.ExpandIndex | fuzz/src/main/kotlin/jwp/fuzz/ParamProvider.kt:123-127 | tuple a * n + b of one more generator is its value a in front of tuple b of the rest |
| ParamProvider.TuplesIndex | fuzz/src/main/kotlin/jwp/fuzz/ParamProvider.kt:121-128 | every way of picking one value per generator is in the product, at its mixed-radix position, the last generator varying fastest |
| ParamProvider.AllPermutationsShape | fuzz/src/main/kotlin/jwp/fuzz/ParamProvider.kt:119-128 | the product fits the generators it was given |
| ParamProvider.EvenPassShape | fuzz/src/main/kotlin/jwp/fuzz/ParamProvider.kt:99-113 | the even pass fits the generators it was given |
| ParamProvider.AllPermutationsExample | fuzz/src/main/kotlin/jwp/fuzz/ParamProvider.kt:119-128 | the permutations of [1, 2], ["4"] and [6, 7, 8] come in the order the recursion yields them |
| ParamProvider.IterNextSpec | fuzz/src/main/kotlin/jwp/fuzz/ParamProvider.kt:142-148 | `iterNext` keeps the arrays' shape and leaves the seen set and the draws alone |
| ParamProvider.IterNextValid | fuzz/src/main/kotlin/jwp/fuzz/ParamProvider.kt:142-148 | `iterNext` keeps each value the one at its iterator's position |
| ParamProvider.IterNextExact | fuzz/src/main/kotlin/jwp/fuzz/ParamProvider.kt:142-148 | `iterNext` keeps the index vector naming the values' positions once it does |
| ParamProvider.AddSeen | fuzz/src/main/kotlin/jwp/fuzz/ParamProvider.kt:155-156 | a new hash is added, and the set is cleared once it reaches `hashSetMaxBeforeReset` |
| ParamProvider.SeenGrows | fuzz/src/main/kotlin/jwp/fuzz/ParamProvider.kt:155-156 | below the bound a new hash grows the set by one |
| ParamProvider.Retry | fuzz/src/main/kotlin/jwp/fuzz/ParamProvider.kt:152-159 | a successful inner loop leaves the arrays in shape |
| ParamProvider.RetryUnfold | fuzz/src/main/kotlin/jwp/fuzz/ParamProvider.kt:152-158 | one try draws a generator, steps it, and ends the loop exactly when the index vector's hash is new |
| ParamProvider.RetrySome | fuzz/src/main/kotlin/jwp/fuzz/ParamProvider.kt:152-158 | a try that succeeds drew at least once and added a hash that was not seen |
| ParamProvider.RetryValid | fuzz/src/main/kotlin/jwp/fuzz/ParamProvider.kt:152-158 | a successful inner loop keeps the state valid |
| ParamProvider.RetryExact | fuzz/src/main/kotlin/jwp/fuzz/ParamProvider.kt:152-158 | a successful inner loop keeps the index vector naming the positions |
| ParamProvider.Run | fuzz/src/main/kotlin/jwp/fuzz/ParamProvider.kt:150-161 | a consumer taking at most `limit` tuples sees at most that many states, starting with the first; with no generators the first draw throws |
| ParamProvider.StartAsWritten | fuzz/src/main/kotlin/jwp/fuzz/ParamProvider.kt:141-149 | as written, the start counts each first value at index 1 and only the all-zero vector is seen |
| ParamProvider.StartCorrected | fuzz/src/main/kotlin/jwp/fuzz/ParamProvider.kt:141-149 | the intended start names the first values at index 0, and their vector is the one seen |
| ParamProvider.IterNext | fuzz/src/main/kotlin/jwp/fuzz/ParamProvider.kt:142-148 | `iterNext` on the three arrays leaves them as the specification says |
| ParamProvider.RandomStart | fuzz/src/main/kotlin/jwp/fuzz/ParamProvider.kt:139-149 | the arrays before the main loop hold each generator's first value, and building them fails exactly on an empty generator |
| ParamProvider.RetryDraw | fuzz/src/main/kotlin/jwp/fuzz/ParamProvider.kt:153-155 | one try draws a generator index, steps its iterator and hashes the new index vector |
| ParamProvider.RetryLoop | fuzz/src/main/kotlin/jwp/fuzz/ParamProvider.kt:152-159 | the inner `for` loop's result is that of the try specification |
| ParamProvider.RandomStep | fuzz/src/main/kotlin/jwp/fuzz/ParamProvider.kt:150-160 | one yield of the main loop, then the inner loop, then the rest of the run from where it leaves the arrays |
| ParamProvider.RandomLoop | fuzz/src/main/kotlin/jwp/fuzz/ParamProvider.kt:150-161 | the main loop yields the values of each state of the run |
| ParamProvider.RandomSingleParamChange | fuzz/src/main/kotlin/jwp/fuzz/ParamProvider.kt:137-162 | `RandomSingleParamChange.iterator()` yields the random pass from the as-written start, for the draws of its random source |
| ParamProvider.RandomSingleParamChangeCorrected | fuzz/src/main/kotlin/jwp/fuzz/ParamProvider.kt:137-162 | with the corrected start the iterator yields the corrected random pass |
| ParamProvider.RunStep | fuzz/src/main/kotlin/jwp/fuzz/ParamProvider.kt:150-157 | a successful inner loop puts the state in front of the run from the next one |
| ParamProvider.RunEnd | fuzz/src/main/kotlin/jwp/fuzz/ParamProvider.kt:159-160 | a run whose inner loop finds only seen hashes ends after its first state |
| ParamProvider.RunValid | fuzz/src/main/kotlin/jwp/fuzz/ParamProvider.kt:150-161 | every state of a run from a valid state is valid |
| ParamProvider.RunExact | fuzz/src/main/kotlin/jwp/fuzz/ParamProvider.kt:150-161 | every state of a run from an exact state is exact |
| ParamProvider.RunDistinct | fuzz/src/main/kotlin/jwp/fuzz/ParamProvider.kt:150-161 | while the seen set is not cleared, the index vectors' hashes of a run are pairwise different |
| ParamProvider.ValidExactIndexed | fuzz/src/main/kotlin/jwp/fuzz/ParamProvider.kt:142-148 | a valid state whose index vector names its positions holds the values the vector names |
| ParamProvider.RandomCorrectedIndexed | fuzz/src/main/kotlin/jwp/fuzz/ParamProvider.kt:137-162 | in the corrected run each tuple holds the values its index vector names, and no vector comes back while the seen set is not cleared |
| ParamProvider.RandomCorrectedNoRepeats | fuzz/src/main/kotlin/jwp/fuzz/ParamProvider.kt:137-162 | with generators that list no value twice and a limit below the seen-set size, the corrected iterator never yields the same tuple twice |
| ParamProvider.HashOfOne | fuzz/src/main/kotlin/jwp/fuzz/ParamProvider.kt:141-155 | the content hash of a one-element index vector is 31 plus the element |
| ParamProvider.IterNextOneGen | fuzz/src/main/kotlin/jwp/fuzz/ParamProvider.kt:142-148 | with one generator [a, b], `iterNext` wraps from b to a at index 0, and steps from a to b incrementing the index |
| ParamProvider.OneGenCycleEnds | fuzz/src/main/kotlin/jwp/fuzz/ParamProvider.kt:152-160 | once [0] and [1] are seen, every try from an exact state repeats a seen vector, so the loop quits |
| ParamProvider.OneGenAsWrittenFirst | fuzz/src/main/kotlin/jwp/fuzz/ParamProvider.kt:141-155 | as written, the first try from a reaches b with the index vector [2], which is new |
| ParamProvider.OneGenAsWrittenSecond | fuzz/src/main/kotlin/jwp/fuzz/ParamProvider.kt:143-155 | as written, the second try wraps to a with [0], seen, then reaches b again with [1], which is new |
| ParamProvider.OneGenAsWrittenRun | fuzz/src/main/kotlin/jwp/fuzz/ParamProvider.kt:137-162 | as written, one generator [a, b] yields [a], [b] and [b] again |
| ParamProvider.OneGenCorrectedRun | fuzz/src/main/kotlin/jwp/fuzz/ParamProvider.kt:137-162 | from the corrected start one generator [a, b] yields [a] and [b], and nothing more |
| ParamProvider.RandomAsWrittenRepeats | fuzz/src/main/kotlin/jwp/fuzz/ParamProvider.kt:137-162 | as written, `RandomSingleParamChange` over one generator [a, b] yields [b] twice |
| ParamProvider.RandomCorrectedOnce | fuzz/src/main/kotlin/jwp/fuzz/ParamProvider.kt:137-162 | corrected, it yields [a] and [b] once each |
| ParamProvider.ByteArrayFlags | fuzz/src/main/kotlin/jwp/fuzz/ParamProvider.kt:32 | the predicate is true exactly of the byte-array generators |
| ParamProvider.RandomPassShape | fuzz/src/main/kotlin/jwp/fuzz/ParamProvider.kt:137-162 | the tuples of a random pass hold one value per generator |
| ParamProvider.SuggestedShapes | fuzz/src/main/kotlin/jwp/fuzz/ParamProvider.kt:34-41 | both providers `Suggested` uses yield tuples that fit the generators they are given |
| ParamProvider.Suggested | fuzz/src/main/kotlin/jwp/fuzz/ParamProvider.kt:29-45 | `Suggested.iterator()` gives the partition by byte-array generators, even changes for those and fixed or random changes for the rest |
| ParamProvider.PartitionAllTrue | fuzz/src/main/kotlin/jwp/fuzz/ParamProvider.kt:76 | a predicate true of every generator hands them all to the true provider |
| ParamProvider.PartitionAllFalse | fuzz/src/main/kotlin/jwp/fuzz/ParamProvider.kt:77 | a predicate false of every generator, of at least one, hands them all to the false provider |
| ParamProvider.SuggestedByteArraysOnly | fuzz/src/main/kotlin/jwp/fuzz/ParamProvider.kt:32-76 | byte arrays alone change evenly, one round per value of the longest |
| ParamProvider.SuggestedSmallFixed | fuzz/src/main/kotlin/jwp/fuzz/ParamProvider.kt:35-62 | up to five small collections, none a byte array, give their cartesian product |
| ParamProvider.SuggestedUnfixed | fuzz/src/main/kotlin/jwp/fuzz/ParamProvider.kt:35-62 | generators that are neither byte arrays nor small collections change one random slot at a time |
| ParamProvider.SuggestedMixedFails | fuzz/src/main/kotlin/jwp/fuzz/ParamProvider.kt:29-88 | a byte-array generator beside any other makes the first tuple fail |
| ParamProvider.SuggestedMixedSizesFail | fuzz/src/main/kotlin/jwp/fuzz/ParamProvider.kt:36-88 | mixed fixed and unfixed generators fail as well |
| ParamProvider.FirstFixedMixed | fuzz/src/main/kotlin/jwp/fuzz/ParamProvider.kt:59-62 | a candidate among the first five is fixed, so beside a non-candidate both sides are non-empty |
| Sorting.SortBySortedPermutation | fuzz/src/main/kotlin/jwp/fuzz/ByteArrayParamGen.kt:330 | the sort orders by key and is a permutation of its input |
| Sorting.InsertStable | fuzz/src/main/kotlin/jwp/fuzz/ByteArrayParamGen.kt:15 | an inserted element comes after every element of its own key, and the elements of each key keep their order |
| Sorting.SortByStable | fuzz/src/main/kotlin/jwp/fuzz/ByteArrayParamGen.kt:330 | the sort is stable, as `sorted()` and `sortedBy` are: the elements of each key come out in their input order |
| Sorting.InsertSorted | fuzz/src/main/kotlin/jwp/fuzz/ByteArrayParamGen.kt:15 | inserting after every element with a key not greater keeps the order sorted |
| Sorting.Insert | fuzz/src/main/kotlin/jwp/fuzz/ByteArrayParamGen.kt:15 | insertion adds exactly the one element |
| Sorting.KeysPermutation | fuzz/src/main/kotlin/jwp/fuzz/TraceResult.kt:11 | permuting the elements permutes their keys |
| Sorting.SortedUnique | fuzz/src/main/kotlin/jwp/fuzz/TraceResult.kt:11 | two sorted integer sequences with the same elements are equal |
| Sorting.SortedKeysPermutationInvariant | fuzz/src/main/kotlin/jwp/fuzz/TraceResult.kt:11-12 | the sorted keys do not depend on the order of the input, so neither do the hashes taken in that order |
| JavaInts.Wrap8 | fuzz/src/main/kotlin/jwp/fuzz/Extensions.kt:87-90 | `Int.toByte()` is congruent to the int modulo 2^8, signed, and keeps an int that fits |
| JavaInts.ArrayHash | fuzz/src/main/kotlin/jwp/fuzz/TraceResult.kt:12 | `contentHashCode` of an int array is an `Int` |
| JavaInts.LongHash | fuzz/src/main/kotlin/jwp/fuzz/TraceResult.kt:75-78 | `Long.hashCode` is an `Int` |
| JavaRandom.Rand.constructor | fuzz/src/main/kotlin/jwp/fuzz/ByteArrayParamGen.kt:279 | the configured `Random` starts with no draws taken, its draws given by a source |
| Bytes.FlipBitAt | fuzz/src/main/kotlin/jwp/fuzz/Extensions.kt:23-24 | flipping one bit of an array keeps its length |
| Bytes.FlipRun | fuzz/src/main/kotlin/jwp/fuzz/ByteArrayParamGen.kt:93-97 | flipping a run of bits keeps the length |
| Bytes.FlipRunChangesByte | fuzz/src/main/kotlin/jwp/fuzz/Extensions.kt:26-52 | flipping a run changes the byte holding each of its bits |
| Bytes.WindowOfFlippedBit | fuzz/src/main/kotlin/jwp/fuzz/Extensions.kt:26-52 | a bit of a window cut out of a flipped array is the array's bit, flipped when inside the run |
| FlipStages.FlipNext | fuzz/src/main/kotlin/jwp/fuzz/ByteArrayParamGen.kt:93-97 | one step of the loop flips the bit after those already flipped |
| FlipStages.InvRun | fuzz/src/main/kotlin/jwp/fuzz/ByteArrayParamGen.kt:99-103 | inverting a run of bytes keeps the length |
| FlipStages.ComplementBits | fuzz/src/main/kotlin/jwp/fuzz/Extensions.kt:57 | every bit of an inverted byte is the complement of the original |
| ValueStages.RestoreShort | fuzz/src/main/kotlin/jwp/fuzz/ByteArrayParamGen.kt:204-218 | putting back the two bytes saved before a pass gives back the bytes as they were |
| ValueStages.PutShortOverwrites | fuzz/src/main/kotlin/jwp/fuzz/Extensions.kt:58-77 | a short written over a buffer replaces whatever was at its two bytes |

## Left out

- Concurrency is not modelled. This covers `synchronized` blocks, locks, concurrent sets, `CompletableFuture` chaining and the executor. Every operation runs sequentially, and an invoker future is already complete when the fuzz loop looks at it.
- The race on `TrackUniqueBranches.totalExecutions` is not modelled: the count is a plain field that the handler increments.
- The `fuzzFor` timer in `Fuzzer.kt` is left out. The stop flag the loop reads is a function of the dispatch index.
- `java.util.Random` is an oracle. The value of the i-th draw is an input function, and a draw counter advances. The random seed and the generator's arithmetic are not modelled.
- Wall-clock time is a parameter. This covers `System.currentTimeMillis` for the havoc block tiers and `startMs`, and `System.nanoTime` for queue entries.
- Method invocation through method handles, and its timing, are not modelled. The fuzz loop receives each dispatch's completion as an input.
- JVMTI and JNI calls are abstracted. The method's bytecode is an input function, and so are the method-name and declaring-class lookups, `Class.name` and the agent's native array.
- `String.hashCode` is an uninterpreted input. The trace hashes take the hash of each resolved method and class name as given.
- Hash-map and hash-set iteration orders are inputs. This covers the tracer's `branchTuples` map and the queue's backing sets.
- `methodInfoMap` in `TraceResult.kt` is memoisation only, so the model resolves each method on demand.
- Float and double values are not modelled. This covers the float and double suggested tables in `ParamGen.kt` and `TypeGen.kt`, and `QueueEntry.calculateScore`, which is an unimplemented `TODO()` returning a `Double`.
- Charset decoding in `suggestedCharBuffer` and `suggestedString` is not modelled.
- `BigInteger` statistics are modelled as unbounded integers.
- Kotlin's Unicode character classes `isDigit`, `isLetterOrDigit` and `isWhitespace` are limited to ASCII.
- A lazy Kotlin sequence or iterable is modelled as the finite sequence of the first `limit` elements a consumer takes. Eager and lazy construction are therefore not told apart.
- A parameter provider's tuples are modelled as values. The source yields one shared `vals` array each time; that aliasing, and a consumer seeing later changes through it, are not modelled.
- `PersistFile`'s file channel, its write executor, the asynchronous writes and the `DiscardOldestPolicy` are left out.
- The file's bytes are an input, read by a single read that fills the buffer. A missing file is `None`.
- The exception `close()` can throw inside `finally` is left out.
- `PersistFile.InputQueue.OnQueueMutated`: the hook is kept as a method that writes the queue, although in the source `ListBacked` never declares or calls `onQueueMutated`. The override at `PersistFile.kt:67` therefore never runs there.
- An exception thrown while the iterator builds a batch is modelled as a `threw` result beside the candidates yielded before it. What the fuzz loop then does with the exception is not modelled.
- `ExecutionResult` carries no `nanoTime` in the source, yet `ByteArrayParamGen.kt:41` reads it. The model takes the run's nano time as an input to `onResult`.
- `Havoc.NewByte`, `Havoc.ByteTweak`, `Generator.ByteArrayParamGen.Stages`, `Generator.ByteArrayParamGen.StagesCorrected`, `Generator.ByteArrayParamGen.NextBatch` and `Generator.ByteArrayParamGen.NextBatchCorrected` require `DrawsVary(rand)`. This says the random source does not settle on one byte value forever. Without it the `randomByte` retry loop need not end, so the model covers only the terminating runs.
- The havoc and generator members require `ValidConfig`. This asks for positive limits and block sizes ordered small ≤ medium ≤ large ≤ extra large, which the default `Config` meets. A configuration that breaks these makes the source throw or loop, which is not modelled.
- TracerState.JumpTuple: the jump test before it reads the Long addition `previousLocation + 1` as unbounded. In the source a location of `Long.MAX_VALUE` would wrap to `Long.MIN_VALUE`. JVMTI locations are bytecode indices, far below that bound.
- TracerState.Stepped: the same unbounded reading of `previousLocation + 1` decides whether a step is a jump.
- StageDisjointness.Interesting8NotArith8, StageDisjointness.Interesting16NotArith8, StageDisjointness.Interesting16NotInteresting8, StageDisjointness.Interesting32NotArith8, StageDisjointness.Interesting32NotInteresting8, StageDisjointness.Interesting32NotArith16 and StageDisjointness.Interesting32NotInteresting16 hold for a seed of zero bytes, the seed of the unit tests, and not for every seed. `StageDisjointness.Arith8Interesting8Repeat` shows why: on the byte 7F both 8-bit stages yield 80.
- StageDisjointness.Interesting16NotArith16 and StageDisjointness.Interesting32NotArith32 also need an arithmetic bound of at most 128; the default is 35. `StageDisjointness.Arith16Interesting16Repeat` shows that at 129 both 16-bit stages yield FF 7F.
- StageProperties.StageCandidatesAreNotBitFlips: it compares the value stages with the bit-flip stages, as the unit tests do, but leaves out `stageInteresting32` as written. There the big-endian filter checks the swapped int while the bytes written are the little-endian ones, so the shape argument does not carry over. The byte-flip and dictionary stages are not compared with the others, and the tests do not compare them either.
- `ByteArrayProvider.kt` is not part of this model. It is a superseded draft whose constructor calls `TODO()`.
- The JVMTI tracer classes, the JNI wrappers, `TracingMethodInvoker.kt`, the Chronicle- and MapDB-backed queues, the HTML-sanitizer and CSV example mains, and the test fixtures are not part of this model.

## Findings

| source | as written | input that shows it | evidently intended | confidence | as-written member | corrected member |
|---|---|---|---|---|---|---|
| fuzz/src/main/kotlin/jwp/fuzz/ByteArrayParamGen.kt:225-229 | the big-endian candidate of `stageInteresting32` stores `int.endianSwapped()` big-endian, which writes the same bytes as the little-endian candidate | four zero bytes and the table int 2147483647 give FF FF FF 7F twice; corrected, the second candidate is 7F FF FF FF | store the int itself big-endian | not executed | StageProperties.Interesting32StageAsWrittenExample | StageProperties.Interesting32StageCorrectedExample |
| fuzz/src/main/kotlin/jwp/fuzz/ByteArrayParamGen.kt:115-130 | `stageArith16` reads the short at index 0 without checking the length, so it throws on a seed shorter than two bytes | a one-byte value in `Config.initialValues` (`ByteArrayParamGen.kt:274`), which the constructor enqueues (`ByteArrayParamGen.kt:17-18`), or a persisted one-byte test case | yield no 16-bit candidates for a seed that holds no short | not executed | ValueStages.StageArith16AsWritten | ValueStages.StageArith16 |
| fuzz/src/main/kotlin/jwp/fuzz/ParamProvider.kt:74-92 | `Partitioned` hands both providers the full generator list, so each tuple is as long as all the generators and writing it back at one side's indices runs past that side | one byte-array generator and one other generator under the default `suggested` partition | hand each provider only its own side's generators | not executed | ParamProvider.MixedPartitionFails | ParamProvider.PartitionedCorrected |
| fuzz/src/main/kotlin/jwp/fuzz/ByteArrayParamGen.kt:45-48 | `onResult` enqueues a parameter only when it is a bare `ByteArray`. The invoker passes back the `EntryParamRef` the generator handed out, so the generator's own candidates never re-enter the queue | any candidate from a stage that reaches a new trace | enqueue the bytes an `EntryParamRef` holds | not executed | Generator.ByteArrayParamGen.OnResult | Generator.ByteArrayParamGen.OnResultCorrected |
| fuzz/src/main/kotlin/jwp/fuzz/TypeGen.kt:87-102 | the `cat` iterable keeps `first` in the iterable, not the iterator, and never resets it | iterating the same `a cat b` twice: the second pass yields the first part alone | a new iterator resets the shared `first` as it starts, so every pass yields both parts and `onResult` follows the latest iterator | not executed | TypeGen.IterateTwiceAsWritten | TypeGen.IterateTwiceCorrected |
| fuzz/src/main/kotlin/jwp/fuzz/ParamProvider.kt:141-149 | `RandomSingleParamChange` marks the all-zero index vector as seen, then takes the first values through `iterNext`, which counts each at index 1. A restart later counts the first value at index 0, so the same tuple is taken for a new vector | one generator over [a, b] yields [a], [b] and [b] again | count the first values at index 0, so that each vector names the values yielded and a repeated tuple is caught | not executed | ParamProvider.RandomAsWrittenRepeats | ParamProvider.RandomCorrectedOnce |
