/**
 * Kotlin's fixed-width Byte, Short and Int values (as bit vectors) and the
 * byte-array utilities of the fuzzer built on them: little- and big-endian
 * get/put, endian swapping, bit and byte flips, block removal and the
 * "could a bit-flip stage have produced this?" check.
 */
module Bytes {

  /** Kotlin's signed reading of a byte. */
  function ByteToInt(b: bv8): (r: int)
    ensures -0x80 <= r < 0x80
  {
    if b as int < 0x80 then b as int else b as int - 0x100
  }

  /** Kotlin's signed reading of a short. */
  function ShortToInt(s: bv16): (r: int)
    ensures -0x8000 <= r < 0x8000
  {
    if s as int < 0x8000 then s as int else s as int - 0x1_0000
  }

  /** `Int.toByte()`, `toShort()` and the 32-bit truncation of a wider value: keep the low bits. */
  function ToByte(x: int): bv8 { (x % 0x100) as bv8 }
  function ToShort(x: int): bv16 { (x % 0x1_0000) as bv16 }
  function ToInt(x: int): bv32 { (x % 0x1_0000_0000) as bv32 }

  /** A truncation whose low eight bits are those of b is b. */
  lemma ToByteOf(x: int, b: bv8)
    requires x % 0x100 == b as int
    ensures ToByte(x) == b
  {
    calc {
      ToByte(x);
      (x % 0x100) as bv8;
      (b as int) as bv8;
    }
  }

  // ---------------------------------------------------------------- shorts

  function ShortByte0(s: bv16): bv8 { (s & 0xFF) as bv8 }
  function ShortByte1(s: bv16): bv8 { (s >> 8) as bv8 }

  /** `Short.fromBytes(byte0, byte1)`: byte0 is the low byte. */
  function ShortFromBytes(b0: bv8, b1: bv8): (r: bv16)
    ensures ShortByte0(r) == b0 && ShortByte1(r) == b1
  {
    (b1 as bv16 << 8) | b0 as bv16
  }

  lemma ShortFromOwnBytes(s: bv16)
    ensures ShortFromBytes(ShortByte0(s), ShortByte1(s)) == s
  {
  }

  /** `Short.toByteArray()`, little-endian. */
  function ShortToBytes(s: bv16): (r: seq<bv8>)
    ensures |r| == 2 && ShortFromBytes(r[0], r[1]) == s
  {
    ShortFromOwnBytes(s);
    [ShortByte0(s), ShortByte1(s)]
  }

  function ShortEndianSwapped(s: bv16): (r: bv16)
    ensures ShortByte0(r) == ShortByte1(s) && ShortByte1(r) == ShortByte0(s)
  {
    ShortFromBytes(ShortByte1(s), ShortByte0(s))
  }

  lemma ShortEndianSwappedInvolution(s: bv16)
    ensures ShortEndianSwapped(ShortEndianSwapped(s)) == s
  {
  }

  // ------------------------------------------------------------------ ints

  function IntByte0(x: bv32): bv8 { (x & 0xFF) as bv8 }
  function IntByte1(x: bv32): bv8 { ((x >> 8) & 0xFF) as bv8 }
  function IntByte2(x: bv32): bv8 { ((x >> 16) & 0xFF) as bv8 }
  function IntByte3(x: bv32): bv8 { (x >> 24) as bv8 }

  /** `Int.fromBytes(byte0, byte1, byte2, byte3)`: byte0 is the low byte. */
  function IntFromBytes(b0: bv8, b1: bv8, b2: bv8, b3: bv8): (r: bv32)
    ensures IntByte0(r) == b0 && IntByte1(r) == b1 && IntByte2(r) == b2 && IntByte3(r) == b3
  {
    (b3 as bv32 << 24) | (b2 as bv32 << 16) | (b1 as bv32 << 8) | b0 as bv32
  }

  lemma IntFromOwnBytes(x: bv32)
    ensures IntFromBytes(IntByte0(x), IntByte1(x), IntByte2(x), IntByte3(x)) == x
  {
  }

  /** `Int.toByteArray()`, little-endian. */
  function IntToBytes(x: bv32): (r: seq<bv8>)
    ensures |r| == 4 && IntFromBytes(r[0], r[1], r[2], r[3]) == x
  {
    IntFromOwnBytes(x);
    [IntByte0(x), IntByte1(x), IntByte2(x), IntByte3(x)]
  }

  function IntEndianSwapped(x: bv32): (r: bv32)
    ensures IntByte0(r) == IntByte3(x) && IntByte1(r) == IntByte2(x)
    ensures IntByte2(r) == IntByte1(x) && IntByte3(r) == IntByte0(x)
  {
    IntFromBytes(IntByte3(x), IntByte2(x), IntByte1(x), IntByte0(x))
  }

  lemma IntEndianSwappedInvolution(x: bv32)
    ensures IntEndianSwapped(IntEndianSwapped(x)) == x
  {
  }

  // ------------------------------------------------------ get/put on bytes

  function GetShortLe(s: seq<bv8>, i: int): bv16
    requires 0 <= i && i + 2 <= |s|
  {
    ShortFromBytes(s[i], s[i + 1])
  }

  function GetShortBe(s: seq<bv8>, i: int): (r: bv16)
    requires 0 <= i && i + 2 <= |s|
    ensures r == ShortEndianSwapped(GetShortLe(s, i))
  {
    ShortFromBytes(s[i + 1], s[i])
  }

  function GetIntLe(s: seq<bv8>, i: int): bv32
    requires 0 <= i && i + 4 <= |s|
  {
    IntFromBytes(s[i], s[i + 1], s[i + 2], s[i + 3])
  }

  function GetIntBe(s: seq<bv8>, i: int): (r: bv32)
    requires 0 <= i && i + 4 <= |s|
    ensures r == IntEndianSwapped(GetIntLe(s, i))
  {
    IntFromBytes(s[i + 3], s[i + 2], s[i + 1], s[i])
  }

  /** The two bytes are written at i and i+1 and nothing else changes. */
  predicate OnlyChangedIn(s: seq<bv8>, r: seq<bv8>, lo: int, hi: int)
  {
    |r| == |s| && forall k :: 0 <= k < |s| && !(lo <= k < hi) ==> r[k] == s[k]
  }

  function PutShortLe(s: seq<bv8>, i: int, v: bv16): (r: seq<bv8>)
    requires 0 <= i && i + 2 <= |s|
    ensures OnlyChangedIn(s, r, i, i + 2) && GetShortLe(r, i) == v
  {
    ShortFromOwnBytes(v);
    s[i := ShortByte0(v)][i + 1 := ShortByte1(v)]
  }

  function PutShortBe(s: seq<bv8>, i: int, v: bv16): (r: seq<bv8>)
    requires 0 <= i && i + 2 <= |s|
    ensures OnlyChangedIn(s, r, i, i + 2) && GetShortBe(r, i) == v
  {
    ShortFromOwnBytes(v);
    s[i := ShortByte1(v)][i + 1 := ShortByte0(v)]
  }

  function PutIntLe(s: seq<bv8>, i: int, v: bv32): (r: seq<bv8>)
    requires 0 <= i && i + 4 <= |s|
    ensures OnlyChangedIn(s, r, i, i + 4) && GetIntLe(r, i) == v
  {
    IntFromOwnBytes(v);
    s[i := IntByte0(v)][i + 1 := IntByte1(v)][i + 2 := IntByte2(v)][i + 3 := IntByte3(v)]
  }

  function PutIntBe(s: seq<bv8>, i: int, v: bv32): (r: seq<bv8>)
    requires 0 <= i && i + 4 <= |s|
    ensures OnlyChangedIn(s, r, i, i + 4) && GetIntBe(r, i) == v
  {
    IntFromOwnBytes(v);
    s[i := IntByte3(v)][i + 1 := IntByte2(v)][i + 2 := IntByte1(v)][i + 3 := IntByte0(v)]
  }

  /** Writing big-endian is writing the swapped value little-endian. */
  lemma PutIntBeIsSwappedLe(s: seq<bv8>, i: int, v: bv32)
    requires 0 <= i && i + 4 <= |s|
    ensures PutIntBe(s, i, v) == PutIntLe(s, i, IntEndianSwapped(v))
  {
  }

  // The in-place array versions used by the stages and the havoc tweaks.

  method PutShortLeInPlace(a: array<bv8>, i: int, v: bv16)
    requires 0 <= i && i + 2 <= a.Length
    modifies a
    ensures a[..] == PutShortLe(old(a[..]), i, v)
  {
    a[i] := ShortByte0(v);
    a[i + 1] := ShortByte1(v);
  }

  method PutShortBeInPlace(a: array<bv8>, i: int, v: bv16)
    requires 0 <= i && i + 2 <= a.Length
    modifies a
    ensures a[..] == PutShortBe(old(a[..]), i, v)
  {
    a[i] := ShortByte1(v);
    a[i + 1] := ShortByte0(v);
  }

  method PutIntLeInPlace(a: array<bv8>, i: int, v: bv32)
    requires 0 <= i && i + 4 <= a.Length
    modifies a
    ensures a[..] == PutIntLe(old(a[..]), i, v)
  {
    a[i] := IntByte0(v);
    a[i + 1] := IntByte1(v);
    a[i + 2] := IntByte2(v);
    a[i + 3] := IntByte3(v);
  }

  method PutIntBeInPlace(a: array<bv8>, i: int, v: bv32)
    requires 0 <= i && i + 4 <= a.Length
    modifies a
    ensures a[..] == PutIntBe(old(a[..]), i, v)
  {
    a[i] := IntByte3(v);
    a[i + 1] := IntByte2(v);
    a[i + 2] := IntByte1(v);
    a[i + 3] := IntByte0(v);
  }

  /** `ByteArray.copyOf()`: a fresh array holding the bytes. */
  method CopyOf(s: seq<bv8>) returns (a: array<bv8>)
    ensures fresh(a) && a[..] == s
  {
    a := new bv8[|s|](i requires 0 <= i < |s| => s[i]);
  }

  // ------------------------------------------------------- bits and flips

  /** Bit k (0 = least significant) of a byte. */
  predicate ByteBit(b: bv8, k: nat)
    requires k < 8
  {
    (b >> k) & 1 == 1
  }

  /** Bit j of a byte array, numbered as `ByteArray.flipBit` numbers them: bit j % 8 of byte j / 8. */
  predicate BitOf(s: seq<bv8>, j: nat)
    requires j < 8 * |s|
  {
    ByteBit(s[j / 8], j % 8)
  }

  /**
   * `Byte.flipBit(bit)`: XOR with `1 shl bit`, then truncate to a byte.  The
   * JVM masks a shift count to its low five bits, so a count whose masked
   * value is 8 or more leaves the byte as it was.
   */
  function FlipBitOfByte(b: bv8, bit: int): (r: bv8)
  {
    var sh := bit % 32;
    if sh < 8 then b ^ ((1 as bv8) << sh) else b
  }

  /** Flipping bit `bit` of a byte changes that bit and no other. */
  lemma FlipBitOfByteBits(b: bv8, bit: nat, k: nat)
    requires bit < 8 && k < 8
    ensures ByteBit(FlipBitOfByte(b, bit), k) == (ByteBit(b, k) != (k == bit))
  {
    var m: bv8 := (1 as bv8) << (bit % 32);
    assert FlipBitOfByte(b, bit) == b ^ m;
    assert ((b ^ m) >> k) & 1 == ((b >> k) & 1) ^ ((m >> k) & 1);
    assert (m >> k) & 1 == if k == bit then 1 else 0;
  }

  /** `ByteArray.flipBit(bitIndex)` as a value. */
  function FlipBitAt(s: seq<bv8>, j: nat): (r: seq<bv8>)
    requires j < 8 * |s|
    ensures |r| == |s|
  {
    s[j / 8 := FlipBitOfByte(s[j / 8], j % 8)]
  }

  /** Flipping bit j changes bit j of the array and no other bit. */
  lemma FlipBitAtBits(s: seq<bv8>, j: nat, k: nat)
    requires j < 8 * |s| && k < 8 * |s|
    ensures BitOf(FlipBitAt(s, j), k) == (BitOf(s, k) != (k == j))
  {
    if j / 8 == k / 8 {
      assert k == j <==> k % 8 == j % 8;
      FlipBitOfByteBits(s[j / 8], j % 8, k % 8);
    }
  }

  lemma FlipBitAtTwice(s: seq<bv8>, j: nat)
    requires j < 8 * |s|
    ensures FlipBitAt(FlipBitAt(s, j), j) == s
  {
    var b := s[j / 8];
    var sh := (j % 8) % 32;
    assert (b ^ ((1 as bv8) << sh)) ^ ((1 as bv8) << sh) == b;
  }

  /** `ByteArray.flipBit(bitIndex)`, in place. */
  method FlipBit(a: array<bv8>, bitIndex: nat)
    requires bitIndex < 8 * a.Length
    modifies a
    ensures a[..] == FlipBitAt(old(a[..]), bitIndex)
  {
    a[bitIndex / 8] := FlipBitOfByte(a[bitIndex / 8], bitIndex % 8);
  }

  /** `ByteArray.invByte(byteIndex)`, in place: complements one byte. */
  method InvByte(a: array<bv8>, i: int)
    requires 0 <= i < a.Length
    modifies a
    ensures a[..] == old(a[..])[i := !old(a[i])]
  {
    a[i] := !a[i];
  }

  /** The bits start .. start+len-1 flipped, one after the other in increasing order. */
  function FlipRun(s: seq<bv8>, start: nat, len: int): (r: seq<bv8>)
    requires len <= 0 || start + len <= 8 * |s|
    ensures |r| == |s|
    decreases len
  {
    if len <= 0 then s else FlipBitAt(FlipRun(s, start, len - 1), start + len - 1)
  }

  /** A run flip changes exactly the bits of the run. */
  lemma {:induction false} FlipRunBits(s: seq<bv8>, start: nat, len: int, k: nat)
    requires len <= 0 || start + len <= 8 * |s|
    requires k < 8 * |s|
    ensures BitOf(FlipRun(s, start, len), k) == (BitOf(s, k) != (start <= k < start + len))
    decreases len
  {
    if len > 0 {
      var t := FlipRun(s, start, len - 1);
      FlipRunBits(s, start, len - 1, k);
      FlipBitAtBits(t, start + len - 1, k);
      assert FlipRun(s, start, len) == FlipBitAt(t, start + len - 1);
    }
  }

  /** Byte arrays of the same length with the same bits are equal. */
  lemma SameBitsSameBytes(s: seq<bv8>, t: seq<bv8>)
    requires |s| == |t|
    requires forall j: nat :: j < 8 * |s| ==> BitOf(s, j) == BitOf(t, j)
    ensures s == t
  {
    forall i | 0 <= i < |s|
      ensures s[i] == t[i]
    {
      forall k: nat | k < 8
        ensures ByteBit(s[i], k) == ByteBit(t[i], k)
      {
        assert BitOf(s, 8 * i + k) == BitOf(t, 8 * i + k);
      }
      SameByteBits(s[i], t[i]);
    }
  }

  lemma SameByteBits(b: bv8, c: bv8)
    requires forall k: nat :: k < 8 ==> ByteBit(b, k) == ByteBit(c, k)
    ensures b == c
  {
    assert ByteBit(b, 0) == ByteBit(c, 0) && ByteBit(b, 1) == ByteBit(c, 1);
    assert ByteBit(b, 2) == ByteBit(c, 2) && ByteBit(b, 3) == ByteBit(c, 3);
    assert ByteBit(b, 4) == ByteBit(c, 4) && ByteBit(b, 5) == ByteBit(c, 5);
    assert ByteBit(b, 6) == ByteBit(c, 6) && ByteBit(b, 7) == ByteBit(c, 7);
  }

  /** Flipping the same run twice gives back the original bytes. */
  lemma FlipRunTwice(s: seq<bv8>, start: nat, len: int)
    requires len <= 0 || start + len <= 8 * |s|
    ensures FlipRun(FlipRun(s, start, len), start, len) == s
  {
    var t := FlipRun(s, start, len);
    forall j: nat | j < 8 * |s|
      ensures BitOf(FlipRun(t, start, len), j) == BitOf(s, j)
    {
      FlipRunBits(t, start, len, j);
      FlipRunBits(s, start, len, j);
    }
    SameBitsSameBytes(FlipRun(t, start, len), s);
  }

  // ------------------------------------- the consecutive-bit-flip patterns

  /**
   * The runs `checkConsecutiveBitsFlipped` tries over `bitCount` bits: every
   * single bit, every adjacent pair, every run of four, and runs of three only
   * at the first and at the last three bits.
   */
  predicate IsCheckedRun(bitCount: int, start: nat, len: int)
  {
    (len == 1 && start < bitCount)
    || (len == 2 && start + 2 <= bitCount)
    || (len == 4 && start + 4 <= bitCount)
    || (len == 3 && 3 <= bitCount && (start == 0 || start == bitCount - 3))
  }

  /** The loop iteration (from -1) in which a run is tried. */
  function Rank(start: nat, len: int): int
  {
    if start == 0 && (len == 1 || len == 3) then -1 else start
  }

  /**
   * `ByteArray.checkConsecutiveBitsFlipped(fn)`: tries each checked run in
   * turn on the array itself.  On success the array is left with that run
   * flipped; on failure no run satisfies `fn` and the array is restored.
   */
  method CheckConsecutiveBitsFlipped(a: array<bv8>, fn: seq<bv8> -> bool) returns (found: bool)
    modifies a
    ensures found ==> fn(a[..]) && exists start: nat, len: int :: RunFlipsTo(old(a[..]), start, len, a[..])
    ensures !found ==> a[..] == old(a[..]) && forall start: nat, len: int ::
      IsCheckedRun(8 * a.Length, start, len) ==> !fn(FlipRun(old(a[..]), start, len))
  {
    var bitCount := a.Length * 8;
    ghost var orig := a[..];
    var i := -1;
    while i < bitCount
      invariant -1 <= i <= bitCount
      invariant a[..] == orig
      invariant forall start: nat, len: int ::
        IsCheckedRun(bitCount, start, len) && Rank(start, len) < i ==> !fn(FlipRun(orig, start, len))
    {
      found := TryRunsAt(a, i, fn);
      if found { return; }
      i := i + 1;
    }
    return false;
  }

  /** The runs tried in iteration i, by how many bits past the first one they reach. */
  lemma RunsOfRank(bitCount: int, i: int, start: nat, len: int)
    requires -1 <= i && IsCheckedRun(bitCount, start, len) && Rank(start, len) == i
    ensures start == (if i >= 0 then i else 0)
    ensures i >= 0 ==> (len == 1 || (len == 2 && i < bitCount - 1)
      || (len == 3 && i == bitCount - 3) || (len == 4 && i < bitCount - 3))
    ensures i < 0 ==> (len == 1 && 0 < bitCount) || (len == 3 && 2 < bitCount)
  {
  }

  /** Flips `bit`, the bit just past a run already flipped in place, so the run grows by one. */
  method FlipNextBit(a: array<bv8>, bit: nat, ghost orig: seq<bv8>, ghost start: nat, ghost len: nat)
    requires |orig| == a.Length && bit == start + len && bit < 8 * a.Length
    requires a[..] == FlipRun(orig, start, len)
    modifies a
    ensures a[..] == FlipRun(orig, start, len + 1)
  {
    FlipBit(a, bit);
  }

  /** Flips `bit`, the last bit of a run flipped in place, back again. */
  method UnflipLastBit(a: array<bv8>, bit: nat, ghost orig: seq<bv8>, ghost start: nat, ghost len: nat)
    requires |orig| == a.Length && bit == start + len && bit < 8 * a.Length
    requires a[..] == FlipRun(orig, start, len + 1)
    modifies a
    ensures a[..] == FlipRun(orig, start, len)
  {
    FlipBit(a, bit);
    FlipBitAtTwice(FlipRun(orig, start, len), bit);
  }

  /** One iteration of the loop above: the runs of rank i, flipped and restored in place. */
  method TryRunsAt(a: array<bv8>, i: int, fn: seq<bv8> -> bool) returns (found: bool)
    requires -1 <= i < 8 * a.Length
    modifies a
    ensures found ==> fn(a[..]) && exists start: nat, len: int :: RunFlipsTo(old(a[..]), start, len, a[..])
    ensures !found ==> a[..] == old(a[..]) && forall start: nat, len: int ::
      IsCheckedRun(8 * a.Length, start, len) && Rank(start, len) == i ==> !fn(FlipRun(old(a[..]), start, len))
  {
    var bitCount := a.Length * 8;
    ghost var orig := a[..];
    ghost var st: nat := if i >= 0 then i else 0;
    ghost var base: nat := if i >= 0 then 1 else 0;
    if i >= 0 {
      FlipNextBit(a, i, orig, st, 0);
      assert RunFlipsTo(orig, st, 1, a[..]);
      if fn(a[..]) { return true; }
    }
    if i < bitCount - 1 {
      FlipNextBit(a, i + 1, orig, st, base);
      assert RunFlipsTo(orig, st, base + 1, a[..]);
      if fn(a[..]) { return true; }
      if i < bitCount - 2 {
        found := TryLongerRuns(a, i, fn, orig, st, base);
        if found { return; }
      }
      UnflipLastBit(a, i + 1, orig, st, base);
    }
    if i >= 0 {
      UnflipLastBit(a, i, orig, st, 0);
    }
    forall start: nat, len: int | IsCheckedRun(bitCount, start, len) && Rank(start, len) == i
      ensures !fn(FlipRun(orig, start, len))
    {
      RunsOfRank(bitCount, i, start, len);
    }
    return false;
  }

  /** The runs of rank i that reach bits i + 2 and i + 3, tried on top of the run up to bit i + 1. */
  method TryLongerRuns(a: array<bv8>, i: int, fn: seq<bv8> -> bool, ghost orig: seq<bv8>, ghost st: nat, ghost base: nat)
      returns (found: bool)
    requires -1 <= i < 8 * a.Length - 2 && |orig| == a.Length
    requires st == (if i >= 0 then i else 0) && base == (if i >= 0 then 1 else 0)
    requires a[..] == FlipRun(orig, st, base + 1)
    modifies a
    ensures found ==> fn(a[..]) && exists start: nat, len: int :: RunFlipsTo(orig, start, len, a[..])
    ensures !found ==> a[..] == old(a[..])
    ensures !found && i == 8 * a.Length - 3 ==> !fn(FlipRun(orig, st, base + 2))
    ensures !found && i < 8 * a.Length - 3 ==> !fn(FlipRun(orig, st, base + 3))
  {
    var bitCount := a.Length * 8;
    FlipNextBit(a, i + 2, orig, st, base + 1);
    if i == bitCount - 3 {
      assert RunFlipsTo(orig, st, base + 2, a[..]);
      if fn(a[..]) { return true; }
    }
    if i < bitCount - 3 {
      FlipNextBit(a, i + 3, orig, st, base + 2);
      assert RunFlipsTo(orig, st, base + 3, a[..]);
      if fn(a[..]) { return true; }
      UnflipLastBit(a, i + 3, orig, st, base + 2);
    }
    UnflipLastBit(a, i + 2, orig, st, base + 1);
    return false;
  }

  // ------------------------------------------------ couldHaveBitFlippedTo

  /** `target` equals `orig`, or is `orig` with one checked run of bits flipped. */
  ghost predicate FlipReachable(orig: seq<bv8>, target: seq<bv8>)
  {
    target == orig || exists start: nat, len: int :: RunFlipsTo(orig, start, len, target)
  }

  /** Flipping the checked run start .. start + len - 1 of orig gives target. */
  ghost predicate RunFlipsTo(orig: seq<bv8>, start: nat, len: int, target: seq<bv8>)
  {
    IsCheckedRun(8 * |orig|, start, len) && FlipRun(orig, start, len) == target
  }

  /** Reachability by one checked run is symmetric, since flipping a run twice undoes it. */
  lemma FlipReachableSymmetric(s: seq<bv8>, t: seq<bv8>)
    requires FlipReachable(s, t)
    ensures FlipReachable(t, s)
  {
    if t != s {
      var start: nat, len: int :| RunFlipsTo(s, start, len, t);
      FlipRunTwice(s, start, len);
      assert RunFlipsTo(t, start, len, s);
    }
  }

  /** Two values from the unit test of the byte utilities: 0 reaches 7 (bits 0-2), never 5. */
  lemma ZeroByteReachability()
    ensures FlipReachable([0], [7])
    ensures !FlipReachable([0], [5])
  {
    assert FlipRun([0], 0, 3) == [7];
    assert RunFlipsTo([0], 0, 3, [7]);
    if FlipReachable([0], [5]) {
      var start: nat, len: int :| RunFlipsTo([0], start, len, [5]);
      FlipRunBits([0], start, len, 0);
      FlipRunBits([0], start, len, 1);
      FlipRunBits([0], start, len, 2);
    }
  }

  /** `Byte.couldHaveBitFlippedTo(new)`, for the single candidate every caller passes. */
  method ByteCouldHaveBitFlippedTo(x: bv8, y: bv8) returns (r: bool)
    ensures r == FlipReachable([x], [y])
  {
    if y == x { return true; }
    var a := new bv8[1];
    a[0] := x;
    assert a[..] == [x];
    r := CheckConsecutiveBitsFlipped(a, t => |t| == 1 && t[0] == y);
    if r {
      ghost var start: nat, len: int :| RunFlipsTo([x], start, len, a[..]);
      assert a[..] == [y];
      assert RunFlipsTo([x], start, len, [y]);
    }
  }

  /** `Short.couldHaveBitFlippedTo(new)`: the little-endian bytes are flipped and read back. */
  method ShortCouldHaveBitFlippedTo(x: bv16, y: bv16) returns (r: bool)
    ensures r == FlipReachable(ShortToBytes(x), ShortToBytes(y))
  {
    if y == x { return true; }
    var a := new bv8[2];
    a[0], a[1] := ShortByte0(x), ShortByte1(x);
    assert a[..] == ShortToBytes(x);
    r := CheckConsecutiveBitsFlipped(a, t => |t| == 2 && GetShortLe(t, 0) == y);
    if r {
      ghost var start: nat, len: int :| RunFlipsTo(ShortToBytes(x), start, len, a[..]);
      assert a[..] == ShortToBytes(y);
      assert RunFlipsTo(ShortToBytes(x), start, len, ShortToBytes(y));
    }
    assert ShortToBytes(y) != ShortToBytes(x);
  }

  /** Four bytes are the little-endian bytes of the int they read as. */
  lemma IntBytesOfRead(t: seq<bv8>)
    requires |t| == 4
    ensures IntToBytes(GetIntLe(t, 0)) == t
  {
    var x := GetIntLe(t, 0);
    assert IntByte0(x) == t[0] && IntByte1(x) == t[1] && IntByte2(x) == t[2] && IntByte3(x) == t[3];
  }

  /** `Int.couldHaveBitFlippedTo(new)`: the little-endian bytes are flipped and read back. */
  method IntCouldHaveBitFlippedTo(x: bv32, y: bv32) returns (r: bool)
    ensures r == FlipReachable(IntToBytes(x), IntToBytes(y))
  {
    if y == x { return true; }
    var a := new bv8[4];
    a[0], a[1], a[2], a[3] := IntByte0(x), IntByte1(x), IntByte2(x), IntByte3(x);
    assert a[..] == IntToBytes(x);
    r := CheckConsecutiveBitsFlipped(a, t => |t| == 4 && GetIntLe(t, 0) == y);
    if r {
      ghost var start: nat, len: int :| RunFlipsTo(IntToBytes(x), start, len, a[..]);
      IntBytesOfRead(a[..]);
      assert RunFlipsTo(IntToBytes(x), start, len, IntToBytes(y));
    }
    assert IntToBytes(y) != IntToBytes(x);
  }

  /** Bit j of a window of whole bytes is bit 8i + j of the array. */
  lemma WindowBit(s: seq<bv8>, i: int, w: int, j: nat)
    requires 0 <= i && i + w <= |s| && j < 8 * w
    ensures BitOf(s[i..i + w], j) == BitOf(s, 8 * i + j)
  {
    var q, r := j / 8, j % 8;
    assert 8 * i + j == 8 * (i + q) + r;
    assert (8 * i + j) / 8 == i + q && (8 * i + j) % 8 == r;
  }

  /** Flipping a run changes the byte holding the run's bit k. */
  lemma FlipRunChangesByte(s: seq<bv8>, start: nat, len: int, k: nat)
    requires start + len <= 8 * |s| && start <= k < start + len
    ensures FlipRun(s, start, len)[k / 8] != s[k / 8]
  {
    FlipRunBits(s, start, len, k);
  }

  /** A run whose flip changes only bytes i .. i + w - 1 lies within those bytes. */
  lemma RunInWindow(buf: seq<bv8>, i: int, w: int, k: nat, n: int)
    requires 0 <= i && 1 <= w && i + w <= |buf| && 1 <= n && k + n <= 8 * |buf|
    requires OnlyChangedIn(buf, FlipRun(buf, k, n), i, i + w)
    ensures 8 * i <= k && k + n <= 8 * (i + w)
  {
    FlipRunChangesByte(buf, k, n, k);
    FlipRunChangesByte(buf, k, n, k + n - 1);
    assert i <= k / 8 && (k + n - 1) / 8 < i + w;
  }

  /** Bit j of a window with a run flipped, in terms of the whole array's bits. */
  lemma FlippedWindowBit(buf: seq<bv8>, i: int, w: int, kw: nat, n: int, j: nat)
    requires 0 <= i && i + w <= |buf| && 0 <= n && kw + n <= 8 * w && j < 8 * w
    ensures BitOf(FlipRun(buf[i..i + w], kw, n), j) == (BitOf(buf, 8 * i + j) != (kw <= j < kw + n))
  {
    FlipRunBits(buf[i..i + w], kw, n, j);
    WindowBit(buf, i, w, j);
  }

  /** Bit j of a window cut out of an array with a run flipped, in terms of the array's bits. */
  lemma WindowOfFlippedBit(buf: seq<bv8>, c: seq<bv8>, i: int, w: int, k: nat, n: int, j: nat)
    requires 0 <= i && i + w <= |buf| && 0 <= n && k + n <= 8 * |buf| && j < 8 * w
    requires c == FlipRun(buf, k, n)
    ensures BitOf(c[i..i + w], j) == (BitOf(buf, 8 * i + j) != (k <= 8 * i + j < k + n))
  {
    FlipRunBits(buf, k, n, 8 * i + j);
    WindowBit(c, i, w, j);
  }

  /**
   * A change confined to the bytes i .. i + w - 1 that no checked run reaches
   * within those bytes is not a run of 1, 2 or 4 flipped bits anywhere in
   * the array: such a run would have to lie inside the window.
   */
  lemma NotAFlipCandidate(buf: seq<bv8>, c: seq<bv8>, i: int, w: int, k: nat, n: int)
    requires 0 <= i && 1 <= w && i + w <= |buf| && OnlyChangedIn(buf, c, i, i + w)
    requires !FlipReachable(buf[i..i + w], c[i..i + w])
    requires (n == 1 || n == 2 || n == 4) && k + n <= 8 * |buf|
    ensures c != FlipRun(buf, k, n)
  {
    if c == FlipRun(buf, k, n) {
      RunInWindow(buf, i, w, k, n);
      var kw: nat := k - 8 * i;
      var lo, hi := buf[i..i + w], c[i..i + w];
      forall j: nat | j < 8 * w
        ensures BitOf(FlipRun(lo, kw, n), j) == BitOf(hi, j)
      {
        FlippedWindowBit(buf, i, w, kw, n, j);
        WindowOfFlippedBit(buf, c, i, w, k, n, j);
      }
      SameBitsSameBytes(FlipRun(lo, kw, n), hi);
      assert RunFlipsTo(lo, kw, n, hi);
      assert false;
    }
  }

  /** The two bytes at i are the little-endian bytes of the short read there. */
  lemma ShortWindow(s: seq<bv8>, i: int)
    requires 0 <= i && i + 2 <= |s|
    ensures s[i..i + 2] == ShortToBytes(GetShortLe(s, i))
  {
  }

  /** The four bytes at i are the little-endian bytes of the int read there. */
  lemma IntWindow(s: seq<bv8>, i: int)
    requires 0 <= i && i + 4 <= |s|
    ensures s[i..i + 4] == IntToBytes(GetIntLe(s, i))
  {
    IntBytesOfRead(s[i..i + 4]);
  }

  /** Writing a short big-endian is writing the swapped short little-endian. */
  lemma PutShortBeIsSwappedLe(s: seq<bv8>, i: int, v: bv16)
    requires 0 <= i && i + 2 <= |s|
    ensures PutShortBe(s, i, v) == PutShortLe(s, i, ShortEndianSwapped(v))
  {
  }

  // ------------------------------------------------------------- removal

  /** The bytes of `s` without the `amount` bytes from `start`. */
  function Removed(s: seq<bv8>, start: int, amount: int): (r: seq<bv8>)
    requires 0 <= start <= |s| && 0 <= start + amount && start <= |s| - amount
    ensures |r| == |s| - amount
    ensures forall k :: 0 <= k < start ==> r[k] == s[k]
    ensures forall k :: start <= k < |r| ==> r[k] == s[k + amount]
  {
    s[..start] + s[start + amount..]
  }

  /** `s` with `block` written over it from `index` on. */
  function Overwritten(s: seq<bv8>, index: int, block: seq<bv8>): (r: seq<bv8>)
    requires 0 <= index && index + |block| <= |s|
    ensures |r| == |s|
    ensures forall k :: 0 <= k < |s| ==> r[k] == if index <= k < index + |block| then block[k - index] else s[k]
  {
    s[..index] + block + s[index + |block|..]
  }

  /**
   * `ByteArray.remove(start, amount)`: `require(amount < size)`, then two
   * `System.arraycopy` calls into a new array, whose bounds checks are the
   * remaining preconditions.
   */
  method Remove(a: array<bv8>, start: int, amount: int) returns (r: array<bv8>)
    requires amount < a.Length
    requires 0 <= start <= a.Length && 0 <= start + amount && start <= a.Length - amount
    ensures fresh(r) && r[..] == Removed(a[..], start, amount)
  {
    ghost var spec := Removed(a[..], start, amount);
    r := new bv8[a.Length - amount];
    var k := 0;
    while k < start
      invariant 0 <= k <= start
      invariant forall j :: 0 <= j < k ==> r[j] == spec[j]
    {
      r[k] := a[k];
      k := k + 1;
    }
    while k < r.Length
      invariant start <= k <= r.Length
      invariant forall j :: 0 <= j < k ==> r[j] == spec[j]
    {
      r[k] := a[k + amount];
      k := k + 1;
    }
    assert r[..] == spec;
  }
}
