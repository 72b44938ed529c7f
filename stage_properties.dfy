/**
 * What the filters of the arithmetic and interesting-value stages achieve:
 * every candidate changes one field of the seed, in a way no run of 1, 2 or
 * 4 flipped bits produces, so the deterministic stages do not repeat the
 * bit-flip stages' work.  The as-written 32-bit interesting stage is the
 * exception, and the last lemmas show why.
 */
module StageProperties {
  import opened Bytes
  import opened ValueStages
  import FlipStages

  /**
   * A candidate that differs from the seed only in the `w` bytes at index,
   * where no checked run of flipped bits turns the old field into the new.
   */
  ghost predicate NoFlipShape(buf: seq<bv8>, c: seq<bv8>, index: int, w: int)
  {
    0 <= index && 1 <= w && index + w <= |buf| && OnlyChangedIn(buf, c, index, index + w)
    && !FlipReachable(buf[index..index + w], c[index..index + w])
  }

  lemma ByteShape(buf: seq<bv8>, index: int, v: bv8)
    requires 0 <= index < |buf| && !ByteReach(buf[index], v)
    ensures NoFlipShape(buf, buf[index := v], index, 1)
  {
    assert buf[index..index + 1] == [buf[index]];
    assert buf[index := v][index..index + 1] == [v];
  }

  lemma ShortShape(buf: seq<bv8>, index: int, v: bv16)
    requires 0 <= index && index + 2 <= |buf| && !ShortReach(GetShortLe(buf, index), v)
    ensures NoFlipShape(buf, PutShortLe(buf, index, v), index, 2)
  {
    ShortWindow(buf, index);
    ShortWindow(PutShortLe(buf, index, v), index);
  }

  lemma IntShape(buf: seq<bv8>, index: int, v: bv32)
    requires 0 <= index && index + 4 <= |buf| && !IntReach(GetIntLe(buf, index), v)
    ensures NoFlipShape(buf, PutIntLe(buf, index, v), index, 4)
  {
    IntWindow(buf, index);
    IntWindow(PutIntLe(buf, index, v), index);
  }

  lemma Arith8Shape(buf: seq<bv8>, index: int, d: int, c: seq<bv8>)
    requires 0 <= index < |buf| && c in Arith8Candidates(buf, index, d)
    ensures NoFlipShape(buf, c, index, 1)
  {
    ByteShape(buf, index, ToByte(ByteToInt(buf[index]) + d));
  }

  lemma Arith16Shape(buf: seq<bv8>, index: int, d: int, c: seq<bv8>)
    requires 0 <= index && index + 2 <= |buf| && c in Arith16Candidates(buf, index, d)
    ensures NoFlipShape(buf, c, index, 2)
  {
    if c in Arith16Le(buf, index, d) {
      ShortShape(buf, index, ToShort(ShortToInt(GetShortLe(buf, index)) + d));
    } else {
      var newBe := ToShort(ShortToInt(GetShortBe(buf, index)) + d);
      PutShortBeIsSwappedLe(buf, index, newBe);
      ShortShape(buf, index, ShortEndianSwapped(newBe));
    }
  }

  lemma Arith32Shape(buf: seq<bv8>, index: int, d: int, c: seq<bv8>)
    requires 0 <= index && index + 4 <= |buf| && c in Arith32Candidates(buf, index, d)
    ensures NoFlipShape(buf, c, index, 4)
  {
    if c in Arith32Le(buf, index, ToInt(d)) {
      Arith32LeShape(buf, index, ToInt(d), c);
    } else {
      Arith32BeShape(buf, index, ToInt(d), c);
    }
  }

  lemma Arith32LeShape(buf: seq<bv8>, index: int, delta: bv32, c: seq<bv8>)
    requires 0 <= index && index + 4 <= |buf| && c in Arith32Le(buf, index, delta)
    ensures NoFlipShape(buf, c, index, 4)
  {
    var newLe := GetIntLe(buf, index) + delta;
    assert c == PutIntLe(buf, index, newLe) && !IntReach(GetIntLe(buf, index), newLe);
    IntShape(buf, index, newLe);
  }

  lemma Arith32BeShape(buf: seq<bv8>, index: int, delta: bv32, c: seq<bv8>)
    requires 0 <= index && index + 4 <= |buf| && c in Arith32Be(buf, index, delta)
    ensures NoFlipShape(buf, c, index, 4)
  {
    var newBe := GetIntBe(buf, index) + delta;
    assert c == PutIntBe(buf, index, newBe) && !IntReach(GetIntLe(buf, index), IntEndianSwapped(newBe));
    PutIntBeIsSwappedLe(buf, index, newBe);
    IntShape(buf, index, IntEndianSwapped(newBe));
  }

  lemma Interesting8Shape(buf: seq<bv8>, index: int, arithMax: int, v: int, c: seq<bv8>)
    requires 0 <= index < |buf| && c in Interesting8Candidates(buf, index, arithMax, v)
    ensures NoFlipShape(buf, c, index, 1)
  {
    ByteShape(buf, index, ToByte(v));
  }

  lemma Interesting16Shape(buf: seq<bv8>, index: int, arithMax: int, v: int, c: seq<bv8>)
    requires 0 <= index && index + 2 <= |buf| && c in Interesting16Candidates(buf, index, arithMax, v)
    ensures NoFlipShape(buf, c, index, 2)
  {
    if c in Interesting16Le(buf, index, arithMax, v) {
      ShortShape(buf, index, ToShort(v));
    } else {
      PutShortBeIsSwappedLe(buf, index, ToShort(v));
      ShortShape(buf, index, ShortEndianSwapped(ToShort(v)));
    }
  }

  lemma Interesting32Shape(buf: seq<bv8>, index: int, arithMax: int, v: int, c: seq<bv8>)
    requires 0 <= index && index + 4 <= |buf| && c in Interesting32Candidates(buf, index, arithMax, v, false)
    ensures NoFlipShape(buf, c, index, 4)
  {
    if c in Interesting32Le(buf, index, arithMax, v) {
      IntShape(buf, index, ToInt(v));
    } else {
      PutIntBeIsSwappedLe(buf, index, ToInt(v));
      IntShape(buf, index, IntEndianSwapped(ToInt(v)));
    }
  }

  /** Every candidate of a corrected stage at one index for one item has the shape. */
  lemma CandidateShape(stage: Stage, arithMax: int, buf: seq<bv8>, index: int, item: int, c: seq<bv8>)
    requires stage != Interesting32AsWritten && ValidIndex(stage, buf, index)
    requires c in Candidates(stage, arithMax, buf, index, item)
    ensures NoFlipShape(buf, c, index, Width(stage))
  {
    match stage
    case Arith8 => Arith8Shape(buf, index, item, c);
    case Arith16 => Arith16Shape(buf, index, item, c);
    case Arith32 => Arith32Shape(buf, index, item, c);
    case Interesting8 => Interesting8Shape(buf, index, arithMax, item, c);
    case Interesting16 => Interesting16Shape(buf, index, arithMax, item, c);
    case Interesting32 => Interesting32Shape(buf, index, arithMax, item, c);
  }

  lemma {:induction false} AtIndexShape(stage: Stage, arithMax: int, buf: seq<bv8>, index: int, items: seq<int>, c: seq<bv8>)
    requires stage != Interesting32AsWritten && ValidIndex(stage, buf, index)
    requires c in AtIndex(stage, arithMax, buf, index, items)
    ensures NoFlipShape(buf, c, index, Width(stage))
    decreases |items|
  {
    var n := |items| - 1;
    if c in AtIndex(stage, arithMax, buf, index, items[..n]) {
      AtIndexShape(stage, arithMax, buf, index, items[..n], c);
    } else {
      CandidateShape(stage, arithMax, buf, index, items[n], c);
    }
  }

  /** Every element of a concatenation comes from one of its parts. */
  lemma {:induction false} InConcat<T>(f: nat -> seq<T>, count: nat, c: T) returns (i: nat)
    requires c in Concat(f, count)
    ensures i < count && c in f(i)
    decreases count
  {
    if c in Concat(f, count - 1) {
      i := InConcat(f, count - 1, c);
    } else {
      i := count - 1;
    }
  }

  /**
   * No candidate of the corrected arithmetic and interesting stages is the
   * seed itself or a candidate of the 1-, 2- or 4-bit flip stages.
   */
  lemma StageCandidatesAreNotBitFlips(stage: Stage, arithMax: int, buf: seq<bv8>, c: seq<bv8>)
    requires stage != Interesting32AsWritten && c in StageOutput(stage, arithMax, buf)
    ensures c != buf
    ensures c !in FlipStages.FlipBitsStage(buf, 1)
    ensures c !in FlipStages.FlipBitsStage(buf, 2)
    ensures c !in FlipStages.FlipBitsStage(buf, 4)
  {
    var index := InConcat(IndexCandidates(stage, arithMax, buf, Items(stage, arithMax)), IndexCount(stage, buf), c);
    AtIndexShape(stage, arithMax, buf, index, Items(stage, arithMax), c);
    ShapeIsNotBitFlip(buf, c, index, Width(stage), 1);
    ShapeIsNotBitFlip(buf, c, index, Width(stage), 2);
    ShapeIsNotBitFlip(buf, c, index, Width(stage), 4);
  }

  /** A candidate of the shape is not the seed, and not a candidate of the n-bit flip stage. */
  lemma ShapeIsNotBitFlip(buf: seq<bv8>, c: seq<bv8>, index: int, w: int, n: int)
    requires NoFlipShape(buf, c, index, w) && (n == 1 || n == 2 || n == 4)
    ensures c != buf && c !in FlipStages.FlipBitsStage(buf, n)
  {
    var stageN := FlipStages.FlipBitsStage(buf, n);
    if c in stageN {
      var k :| 0 <= k < |stageN| && stageN[k] == c;
      NotAFlipCandidate(buf, c, index, w, k, n);
    }
  }

  // --------------------------------------- the as-written 32-bit stage

  /**
   * As written, the big-endian candidate of `stageInteresting32` stores the
   * swapped int big-endian, which is the int itself little-endian: whenever
   * it is kept it is the little-endian candidate again.
   */
  lemma Interesting32BeAsWrittenIsLe(buf: seq<bv8>, index: int, arithMax: int, v: int, c: seq<bv8>)
    requires 0 <= index && index + 4 <= |buf|
    requires c in Interesting32Be(buf, index, arithMax, v, true)
    ensures c == PutIntLe(buf, index, ToInt(v))
  {
    PutIntBeIsSwappedLe(buf, index, IntEndianSwapped(ToInt(v)));
    IntEndianSwappedInvolution(ToInt(v));
  }

  /** No checked run of at most four bits reaches, from four zero bytes, an int whose bytes 0 and 2 are odd. */
  lemma ZeroIntUnreachable(v: bv32)
    requires IntByte0(v) & 1 == 1 && IntByte2(v) & 1 == 1
    ensures !IntReach(0, v)
  {
    var z, t := IntToBytes(0), IntToBytes(v);
    assert z == [0, 0, 0, 0];
    assert BitOf(t, 0) && BitOf(t, 16);
    assert t != z by { assert t[0] != z[0]; }
    assert !BitOf(z, 0) && !BitOf(z, 16);
    if exists start: nat, len: int :: RunFlipsTo(z, start, len, t) {
      var start: nat, len: int :| RunFlipsTo(z, start, len, t);
      FlipRunBits(z, start, len, 0);
      FlipRunBits(z, start, len, 16);
    }
  }

  /** No table short written into four zero bytes, at any offset and in either order, gives an int with no zero byte at either end. */
  lemma ZeroIntNotInteresting16(v: bv32)
    requires IntByte0(v) != 0 && IntByte3(v) != 0
    ensures !CouldBeInteresting16In32(0, v)
  {
    var z := IntToBytes(0);
    assert z == [0, 0, 0, 0];
    forall i, j | 0 <= i < 3 && 0 <= j < |ParamGen.INTERESTING_SHORT|
      ensures !Interesting16Hit(0, v, i, ParamGen.INTERESTING_SHORT[j])
    {
      var sv := ToShort(ParamGen.INTERESTING_SHORT[j]);
      var k := if i == 0 then 3 else 0;
      assert PutShortLe(z, i, sv)[k] == 0 && PutShortBe(z, i, sv)[k] == 0;
      assert IntToBytes(v)[k] != 0;
    }
  }

  /** No arith step on a byte or a short of four zero bytes changes both byte 0 and byte 2. */
  lemma ZeroIntNotArith(v: bv32, arithMax: int)
    requires IntByte0(v) != 0 && IntByte2(v) != 0
    ensures !CouldBeArith32(0, v, arithMax)
  {
    var z, t := IntToBytes(0), IntToBytes(v);
    assert z == [0, 0, 0, 0];
    forall p | 0 <= p < 4 ensures !ByteArith(z, t, p, arithMax) && !(p < 3 && ShortArith(z, t, p, arithMax)) {
      var q := if p == 0 then 2 else 0;
      assert z[q] != t[q];
    }
  }

  /** No table byte written into four zero bytes changes both byte 0 and byte 2. */
  lemma ZeroIntNotInteresting8(v: bv32)
    requires IntByte0(v) != 0 && IntByte2(v) != 0
    ensures !CouldBeInteresting8In32(0, v)
  {
    assert IntByte0(0) == 0 && IntByte1(0) == 0 && IntByte2(0) == 0 && IntByte3(0) == 0;
  }

  /** Four zero bytes read as zero in either order. */
  lemma ZeroIntRead()
    ensures GetIntLe([0, 0, 0, 0], 0) == 0 && GetIntBe([0, 0, 0, 0], 0) == 0
  {
    assert IntToBytes(0) == [0, 0, 0, 0];
    assert IntEndianSwapped(0) == 0 by { assert IntToBytes(0) == [0, 0, 0, 0]; }
  }

  /** An int whose bytes 0 and 2 are odd and whose byte 3 is non-zero passes every filter on four zero bytes. */
  predicate PassesOnZero(t: bv32)
  {
    IntByte0(t) & 1 == 1 && IntByte2(t) & 1 == 1 && IntByte3(t) != 0
  }

  lemma ZeroIntFilters(t: bv32, arithMax: int)
    requires PassesOnZero(t)
    ensures !CouldBeArith32(0, t, arithMax) && !CouldBeInteresting8In32(0, t)
    ensures !CouldBeInteresting16In32(0, t) && !IntReach(0, t)
  {
    ZeroIntUnreachable(t);
    ZeroIntNotInteresting16(t);
    ZeroIntNotArith(t, arithMax);
    ZeroIntNotInteresting8(t);
  }

  /** On four zero bytes, the little-endian candidate of such an int is written. */
  lemma ZeroIntLe(x: int, arithMax: int)
    requires PassesOnZero(ToInt(x))
    ensures Interesting32Le([0, 0, 0, 0], 0, arithMax, x) == [PutIntLe([0, 0, 0, 0], 0, ToInt(x))]
  {
    ZeroIntRead();
    ZeroIntFilters(ToInt(x), arithMax);
  }

  /** On four zero bytes, the big-endian candidate of an int whose swapped form passes is written. */
  lemma ZeroIntBe(x: int, arithMax: int, asWritten: bool)
    requires PassesOnZero(IntEndianSwapped(ToInt(x)))
    ensures Interesting32Be([0, 0, 0, 0], 0, arithMax, x, asWritten)
         == [PutIntBe([0, 0, 0, 0], 0, if asWritten then IntEndianSwapped(ToInt(x)) else ToInt(x))]
  {
    ZeroIntRead();
    ZeroIntFilters(IntEndianSwapped(ToInt(x)), arithMax);
  }

  /** The bytes of 2147483647, low byte first. */
  lemma MaxIntBytes()
    ensures IntToBytes(ToInt(0x7FFF_FFFF)) == [0xFF, 0xFF, 0xFF, 0x7F]
  {
    assert ToInt(0x7FFF_FFFF) == 0x7FFF_FFFF;
  }

  /** Writing 2147483647 or its swapped form into four zero bytes. */
  lemma MaxIntWrites()
    ensures PutIntLe([0, 0, 0, 0], 0, ToInt(0x7FFF_FFFF)) == [0xFF, 0xFF, 0xFF, 0x7F]
    ensures PutIntBe([0, 0, 0, 0], 0, IntEndianSwapped(ToInt(0x7FFF_FFFF))) == [0xFF, 0xFF, 0xFF, 0x7F]
    ensures PutIntBe([0, 0, 0, 0], 0, ToInt(0x7FFF_FFFF)) == [0x7F, 0xFF, 0xFF, 0xFF]
  {
    MaxIntBytes();
  }

  /** On four zero bytes, the little-endian candidate for 2147483647 passes every filter. */
  lemma Interesting32MaxLe()
    ensures Interesting32Le([0, 0, 0, 0], 0, 35, 0x7FFF_FFFF) == [[0xFF, 0xFF, 0xFF, 0x7F]]
  {
    MaxIntBytes();
    ZeroIntLe(0x7FFF_FFFF, 35);
    MaxIntWrites();
  }

  /** On four zero bytes, the big-endian candidate for 2147483647 passes every filter; only the written value differs. */
  lemma Interesting32MaxBe(asWritten: bool)
    ensures Interesting32Be([0, 0, 0, 0], 0, 35, 0x7FFF_FFFF, asWritten)
         == if asWritten then [[0xFF, 0xFF, 0xFF, 0x7F]] else [[0x7F, 0xFF, 0xFF, 0xFF]]
  {
    MaxIntBytes();
    ZeroIntBe(0x7FFF_FFFF, 35, asWritten);
    MaxIntWrites();
  }

  /**
   * The candidates for the table int 2147483647 (0x7FFFFFFF) at index 0 of
   * four zero bytes: every filter lets both through.  As written both are
   * FF FF FF 7F; corrected, the second is 7F FF FF FF.
   */
  lemma Interesting32MaxExample()
    ensures Interesting32Candidates([0, 0, 0, 0], 0, 35, 0x7FFF_FFFF, true) == [[0xFF, 0xFF, 0xFF, 0x7F], [0xFF, 0xFF, 0xFF, 0x7F]]
    ensures Interesting32Candidates([0, 0, 0, 0], 0, 35, 0x7FFF_FFFF, false) == [[0xFF, 0xFF, 0xFF, 0x7F], [0x7F, 0xFF, 0xFF, 0xFF]]
  {
    Interesting32MaxLe();
    Interesting32MaxBe(true);
    Interesting32MaxBe(false);
  }

  /** Every candidate of the as-written 32-bit stage at one index is a table int written little-endian there. */
  lemma {:induction false} AtIndexAsWrittenIsLe(buf: seq<bv8>, index: int, arithMax: int, items: seq<int>, c: seq<bv8>)
    requires ValidIndex(Interesting32AsWritten, buf, index)
    requires c in AtIndex(Interesting32AsWritten, arithMax, buf, index, items)
    ensures exists v :: v in items && c == PutIntLe(buf, index, ToInt(v))
    decreases |items|
  {
    var n := |items| - 1;
    if c in AtIndex(Interesting32AsWritten, arithMax, buf, index, items[..n]) {
      AtIndexAsWrittenIsLe(buf, index, arithMax, items[..n], c);
      var v :| v in items[..n] && c == PutIntLe(buf, index, ToInt(v));
      assert v in items;
    } else if c in Interesting32Le(buf, index, arithMax, items[n]) {
      assert c == PutIntLe(buf, index, ToInt(items[n]));
    } else {
      Interesting32BeAsWrittenIsLe(buf, index, arithMax, items[n], c);
    }
  }

  /** A truncation whose low 32 bits are those of t is t. */
  lemma ToIntOf(x: int, t: bv32)
    requires x % 0x1_0000_0000 == t as int
    ensures ToInt(x) == t
  {
    calc {
      ToInt(x);
      (x % 0x1_0000_0000) as bv32;
      (t as int) as bv32;
    }
  }

  /** No table int has 7F as its low byte. */
  lemma TableIntsLowByte()
    ensures forall v :: v in ParamGen.INTERESTING_INT ==> IntByte0(ToInt(v)) != 0x7F
  {
    var items := ParamGen.INTERESTING_INT;
    ToIntOf(items[0], 0x8000_0000);
    ToIntOf(items[1], 0xFA00_00FA);
    ToIntOf(items[2], 0xFFFF_7FFF);
    ToIntOf(items[3], 0x0000_8000);
    ToIntOf(items[4], 0x0000_FFFF);
    ToIntOf(items[5], 0x0001_0000);
    ToIntOf(items[6], 0x05FF_FF05);
    ToIntOf(items[7], 0x7FFF_FFFF);
  }

  /** On four zero bytes the as-written stage never yields 7F FF FF FF, the big-endian form of 2147483647. */
  lemma Interesting32StageAsWrittenExample()
    ensures [0x7F, 0xFF, 0xFF, 0xFF] !in StageOutput(Interesting32AsWritten, 35, [0, 0, 0, 0])
  {
    var z: seq<bv8> := [0, 0, 0, 0];
    var c: seq<bv8> := [0x7F, 0xFF, 0xFF, 0xFF];
    var items := ParamGen.INTERESTING_INT;
    assert IndexCount(Interesting32AsWritten, z) == 1;
    UptoSnoc(Interesting32AsWritten, 35, z, items, 0);
    if c in StageOutput(Interesting32AsWritten, 35, z) {
      AtIndexAsWrittenIsLe(z, 0, 35, items, c);
      var v :| v in items && c == PutIntLe(z, 0, ToInt(v));
      TableIntsLowByte();
    }
  }

  /** On four zero bytes the corrected stage yields 7F FF FF FF, the big-endian form of 2147483647. */
  lemma Interesting32StageCorrectedExample()
    ensures [0x7F, 0xFF, 0xFF, 0xFF] in StageOutput(Interesting32, 35, [0, 0, 0, 0])
  {
    var z: seq<bv8> := [0, 0, 0, 0];
    var items := ParamGen.INTERESTING_INT;
    assert IndexCount(Interesting32, z) == 1;
    UptoSnoc(Interesting32, 35, z, items, 0);
    Interesting32MaxBe(false);
    assert items[7] == 0x7FFF_FFFF;
    assert items[..8] == items;
    AtIndexSnoc(Interesting32, 35, z, 0, items, 7);
  }

  /**
   * Corrected, the big-endian candidate carries the int's big-endian bytes:
   * read back big-endian it is the int.
   */
  lemma Interesting32BeCorrected(buf: seq<bv8>, index: int, arithMax: int, v: int, c: seq<bv8>)
    requires 0 <= index && index + 4 <= |buf|
    requires c in Interesting32Be(buf, index, arithMax, v, false)
    ensures GetIntBe(c, index) == ToInt(v) && OnlyChangedIn(buf, c, index, index + 4)
  {
  }
}
