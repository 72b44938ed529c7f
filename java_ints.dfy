/**
 * Java's 32- and 64-bit two's-complement integers on unbounded `int`s, and
 * the JDK hash functions the fingerprints are built from.
 */
module JavaInts {
  const INT_MIN: int := -0x8000_0000
  const INT_MAX: int := 0x7FFF_FFFF
  const LONG_MIN: int := -0x8000_0000_0000_0000
  const LONG_MAX: int := 0x7FFF_FFFF_FFFF_FFFF

  predicate IsInt(x: int) { INT_MIN <= x <= INT_MAX }
  predicate IsLong(x: int) { LONG_MIN <= x <= LONG_MAX }

  predicate IsByte(x: int) { -0x80 <= x < 0x80 }
  predicate IsShort(x: int) { -0x8000 <= x < 0x8000 }

  /** `Int.toByte()` on the value: x modulo 2^8, read signed. */
  function Wrap8(x: int): (r: int)
    ensures IsByte(r) && (x - r) % 0x100 == 0
    ensures IsByte(x) ==> r == x
  {
    (x + 0x80) % 0x100 - 0x80
  }

  /** The `int` that Java arithmetic leaves for the mathematical value x: x modulo 2^32, read signed. */
  function Wrap32(x: int): (r: int)
    ensures IsInt(r) && (x - r) % 0x1_0000_0000 == 0
    ensures IsInt(x) ==> r == x
  {
    (x + 0x8000_0000) % 0x1_0000_0000 - 0x8000_0000
  }

  /** The `long` that Java arithmetic leaves for the mathematical value x. */
  function Wrap64(x: int): (r: int)
    ensures IsLong(r) && (x - r) % 0x1_0000_0000_0000_0000 == 0
    ensures IsLong(x) ==> r == x
  {
    (x + 0x8000_0000_0000_0000) % 0x1_0000_0000_0000_0000 - 0x8000_0000_0000_0000
  }

  /** `Arrays.hashCode(int[])` (Kotlin's `contentHashCode`): h = 1, then h = 31 * h + x for each x, wrapping. */
  function ArrayHash(xs: seq<int>): (r: int)
    ensures IsInt(r)
    decreases |xs|
  {
    if xs == [] then 1 else Wrap32(31 * ArrayHash(xs[..|xs| - 1]) + xs[|xs| - 1])
  }

  /** Hashing an array one element longer extends the hash of its prefix. */
  lemma ArrayHashSnoc(xs: seq<int>, x: int)
    ensures ArrayHash(xs + [x]) == Wrap32(31 * ArrayHash(xs) + x)
  {
    assert (xs + [x])[..|xs|] == xs;
  }

  /**
   * `Long.hashCode(v)`: the int formed by the low 32 bits of v XOR (v >>> 32).
   */
  function LongHash(v: int): (r: int)
    requires IsLong(v)
    ensures IsInt(r)
  {
    var u := (v % 0x1_0000_0000_0000_0000) as bv64;
    var h := ((u ^ (u >> 32)) & 0xFFFF_FFFF) as int;
    Wrap32(h)
  }
}
