/**
 * The first deterministic mutation stages: every run of 1, 2 or 4
 * consecutive bits flipped, and every run of 1, 2 or 4 consecutive bytes
 * inverted, each candidate a fresh copy of the seed.
 */
module FlipStages {
  import opened Bytes

  /** How many candidates a flip stage yields: one per start position that fits. */
  function RunCount(units: int, consecutive: int): (n: nat)
    ensures units >= consecutive >= 1 ==> n == units - consecutive + 1
  {
    if units - (consecutive - 1) > 0 then units - (consecutive - 1) else 0
  }

  /** `stageFlipBits(buf, n)`: candidate k has bits k .. k + n - 1 flipped. */
  function FlipBitsStage(buf: seq<bv8>, consecutive: int): (r: seq<seq<bv8>>)
    ensures |r| == RunCount(8 * |buf|, consecutive)
  {
    seq(RunCount(8 * |buf|, consecutive), k requires 0 <= k < RunCount(8 * |buf|, consecutive) =>
      FlipRun(buf, k, consecutive))
  }

  /** The bytes start .. start + len - 1 inverted, one after the other. */
  function InvRun(s: seq<bv8>, start: nat, len: int): (r: seq<bv8>)
    requires len <= 0 || start + len <= |s|
    ensures |r| == |s|
    decreases len
  {
    if len <= 0 then s
    else
      var t := InvRun(s, start, len - 1);
      t[start + len - 1 := !t[start + len - 1]]
  }

  /** `stageFlipBytes(buf, n)`: candidate k has bytes k .. k + n - 1 inverted. */
  function FlipBytesStage(buf: seq<bv8>, consecutive: int): (r: seq<seq<bv8>>)
    ensures |r| == RunCount(|buf|, consecutive)
  {
    seq(RunCount(|buf|, consecutive), k requires 0 <= k < RunCount(|buf|, consecutive) =>
      InvRun(buf, k, consecutive))
  }

  /** `stageFlipBits`: a fresh copy per start bit, with the run flipped bit by bit. */
  method StageFlipBits(buf: seq<bv8>, consecutive: int) returns (out: seq<seq<bv8>>)
    ensures out == FlipBitsStage(buf, consecutive)
  {
    ghost var spec := FlipBitsStage(buf, consecutive);
    out := [];
    var bitIndex := 0;
    while bitIndex < |buf| * 8 - (consecutive - 1)
      invariant 0 <= bitIndex <= |spec|
      invariant out == spec[..bitIndex]
    {
      var candidate := FlippedCopy(buf, bitIndex, consecutive);
      out := out + [candidate];
      bitIndex := bitIndex + 1;
    }
  }

  /** One candidate of `stageFlipBits`: a copy of the seed with the run flipped bit by bit. */
  method FlippedCopy(buf: seq<bv8>, bitIndex: nat, consecutive: int) returns (r: seq<bv8>)
    requires consecutive <= 0 || bitIndex + consecutive <= 8 * |buf|
    ensures r == FlipRun(buf, bitIndex, consecutive)
  {
    var a := CopyOf(buf);
    var offset := 0;
    while offset < consecutive
      invariant 0 <= offset && (offset <= consecutive || offset == 0)
      invariant a[..] == FlipRun(buf, bitIndex, offset)
    {
      FlipNext(a, buf, bitIndex, offset);
      offset := offset + 1;
    }
    r := a[..];
  }

  /** One step of the run: flips the bit after those already flipped. */
  method FlipNext(a: array<bv8>, ghost buf: seq<bv8>, bitIndex: nat, offset: nat)
    requires bitIndex + offset < 8 * |buf| && a[..] == FlipRun(buf, bitIndex, offset)
    modifies a
    ensures a[..] == FlipRun(buf, bitIndex, offset + 1)
  {
    FlipBit(a, bitIndex + offset);
  }

  /** `stageFlipBytes`: a fresh copy per start byte, with the run inverted byte by byte. */
  method StageFlipBytes(buf: seq<bv8>, consecutive: int) returns (out: seq<seq<bv8>>)
    ensures out == FlipBytesStage(buf, consecutive)
  {
    ghost var spec := FlipBytesStage(buf, consecutive);
    out := [];
    var byteIndex := 0;
    while byteIndex < |buf| - (consecutive - 1)
      invariant 0 <= byteIndex <= |spec|
      invariant out == spec[..byteIndex]
    {
      var candidate := InvertedCopy(buf, byteIndex, consecutive);
      out := out + [candidate];
      byteIndex := byteIndex + 1;
    }
  }

  /** One candidate of `stageFlipBytes`: a copy of the seed with the run inverted byte by byte. */
  method InvertedCopy(buf: seq<bv8>, byteIndex: nat, consecutive: int) returns (r: seq<bv8>)
    requires consecutive <= 0 || byteIndex + consecutive <= |buf|
    ensures r == InvRun(buf, byteIndex, consecutive)
  {
    var a := CopyOf(buf);
    var offset := 0;
    while offset < consecutive
      invariant 0 <= offset && (offset <= consecutive || offset == 0)
      invariant a[..] == InvRun(buf, byteIndex, offset)
    {
      InvByte(a, byteIndex + offset);
      offset := offset + 1;
    }
    r := a[..];
  }

  /** Candidate k of the bit stage differs from the seed in exactly bits k .. k + n - 1. */
  lemma FlipBitsStageBits(buf: seq<bv8>, consecutive: int, k: int, j: nat)
    requires 0 <= k < |FlipBitsStage(buf, consecutive)| && j < 8 * |buf|
    ensures BitOf(FlipBitsStage(buf, consecutive)[k], j) == (BitOf(buf, j) != (k <= j < k + consecutive))
  {
    FlipRunBits(buf, k, consecutive, j);
  }

  /** An inverted run complements exactly the bytes of the run. */
  lemma {:induction false} InvRunBytes(s: seq<bv8>, start: nat, len: int, j: int)
    requires len <= 0 || start + len <= |s|
    requires 0 <= j < |s|
    ensures InvRun(s, start, len)[j] == if start <= j < start + len then !s[j] else s[j]
    decreases len
  {
    if len > 0 {
      InvRunBytes(s, start, len - 1, j);
    }
  }

  /** Candidate k of the byte stage differs from the seed in exactly bytes k .. k + n - 1, each complemented. */
  lemma FlipBytesStageBytes(buf: seq<bv8>, consecutive: int, k: int, j: int)
    requires 0 <= k < |FlipBytesStage(buf, consecutive)| && 0 <= j < |buf|
    ensures FlipBytesStage(buf, consecutive)[k][j] == if k <= j < k + consecutive then !buf[j] else buf[j]
  {
    InvRunBytes(buf, k, consecutive, j);
  }

  lemma ComplementBits(b: bv8, k: nat)
    requires k < 8
    ensures ByteBit(!b, k) == !ByteBit(b, k)
  {
  }

  /**
   * Inverting a byte is flipping its eight bits: candidate k of the one-byte
   * stage is candidate 8k of the eight-bit run flip.
   */
  lemma InvertedByteIsEightFlippedBits(buf: seq<bv8>, k: int)
    requires 0 <= k < |buf|
    ensures InvRun(buf, k, 1) == FlipRun(buf, 8 * k, 8)
  {
    var inv, flipped := InvRun(buf, k, 1), FlipRun(buf, 8 * k, 8);
    forall j: nat | j < 8 * |buf|
      ensures BitOf(inv, j) == BitOf(flipped, j)
    {
      FlipRunBits(buf, 8 * k, 8, j);
      InvRunBytes(buf, k, 1, j / 8);
      ComplementBits(buf[j / 8], j % 8);
    }
    SameBitsSameBytes(inv, flipped);
  }
}
