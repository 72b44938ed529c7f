/**
 * The arithmetic and interesting-value stages do not repeat one another.
 * Where two stages change a different number of bytes this holds for every
 * seed.  Where they can write the same number of bytes it rests on the
 * values written, and is proved for a seed of zero bytes (the seed the unit
 * tests of the stages use), with the arithmetic bound at most 128 where the
 * tables' values would otherwise come within reach of an arithmetic step.
 * The last lemmas show that both hypotheses are needed: on the byte 7F
 * the two 8-bit stages yield the same candidate, and with a bound of 129
 * so do the two 16-bit stages on zero bytes.
 */
module StageDisjointness {
  import opened Bytes
  import opened ValueStages
  import ParamGen
  import StageProperties

  // ----------------------------------------------------------- footprints

  predicate AllZero(buf: seq<bv8>)
  {
    forall k :: 0 <= k < |buf| ==> buf[k] == 0
  }

  /** c differs from buf in the byte at i and nowhere else. */
  predicate OneByteChanged(buf: seq<bv8>, c: seq<bv8>, i: int)
  {
    0 <= i < |buf| && OnlyChangedIn(buf, c, i, i + 1) && c[i] != buf[i]
  }

  /** c differs from buf in both bytes at i and nowhere else. */
  predicate BothBytesChanged(buf: seq<bv8>, c: seq<bv8>, i: int)
  {
    0 <= i && i + 2 <= |buf| && OnlyChangedIn(buf, c, i, i + 2) && c[i] != buf[i] && c[i + 1] != buf[i + 1]
  }

  /** How many of the four bytes at i differ. */
  function ChangedOfFour(buf: seq<bv8>, c: seq<bv8>, i: int): (n: int)
    requires 0 <= i && i + 4 <= |buf| && |c| == |buf|
    ensures 0 <= n <= 4
  {
    (if c[i] != buf[i] then 1 else 0) + (if c[i + 1] != buf[i + 1] then 1 else 0)
    + (if c[i + 2] != buf[i + 2] then 1 else 0) + (if c[i + 3] != buf[i + 3] then 1 else 0)
  }

  /** c differs from buf in more than two of the four bytes at i and nowhere else. */
  predicate MostOfFourChanged(buf: seq<bv8>, c: seq<bv8>, i: int)
  {
    0 <= i && i + 4 <= |buf| && OnlyChangedIn(buf, c, i, i + 4) && ChangedOfFour(buf, c, i) > 2
  }

  // ----------------------------------------- the filters on zero bytes

  /** A short of the 16-bit table, as it is or byte-swapped. */
  ghost predicate TableShort(s: bv16)
  {
    exists v :: v in ParamGen.INTERESTING_SHORT && (s == ToShort(v) || s == ShortEndianSwapped(ToShort(v)))
  }

  /** An int of the 32-bit table, as it is or byte-swapped. */
  ghost predicate TableInt(t: bv32)
  {
    exists v :: v in ParamGen.INTERESTING_INT && (t == ToInt(v) || t == IntEndianSwapped(ToInt(v)))
  }

  /** Every filter of the 16-bit interesting stage lets s through over two zero bytes. */
  ghost predicate Kept16(s: bv16, arithMax: int)
  {
    !CouldBeArith16(0, s, arithMax) && !CouldBeInteresting8In16(0, s) && !ShortReach(0, s)
  }

  /** Every filter of the 32-bit interesting stage lets t through over four zero bytes. */
  ghost predicate Kept32(t: bv32, arithMax: int)
  {
    !CouldBeArith32(0, t, arithMax) && !CouldBeInteresting8In32(0, t)
    && !CouldBeInteresting16In32(0, t) && !IntReach(0, t)
  }

  // ------------------------------------------------ what each stage does

  /**
   * What a candidate of the stage at index looks like: the bytes it
   * changes, what the stage's filters guarantee about it, and on a zero
   * seed the value it writes.
   */
  ghost predicate StageFact(stage: Stage, arithMax: int, buf: seq<bv8>, index: int, c: seq<bv8>)
    requires ValidIndex(stage, buf, index)
  {
    match stage
    case Arith8 =>
      OneByteChanged(buf, c, index)
      && (AllZero(buf) ==> 1 <= arithMax && InArithRange(0, ByteToInt(c[index]), arithMax))
    case Arith16 =>
      BothBytesChanged(buf, c, index)
      && (AllZero(buf) ==>
            exists d :: d != 0 && -arithMax <= d <= arithMax
              && (GetShortLe(c, index) == ToShort(d) || GetShortBe(c, index) == ToShort(d)))
    case Arith32 =>
      MostOfFourChanged(buf, c, index)
      && (AllZero(buf) ==>
            exists d :: d != 0 && -arithMax <= d <= arithMax
              && (GetIntLe(c, index) == ToInt(d) || GetIntBe(c, index) == ToInt(d)))
    case Interesting8 =>
      OneByteChanged(buf, c, index) && !CouldBeArith8(buf[index], c[index], arithMax)
    case Interesting16 =>
      OnlyChangedIn(buf, c, index, index + 2)
      && (AllZero(buf) ==> TableShort(GetShortLe(c, index)) && Kept16(GetShortLe(c, index), arithMax))
    case Interesting32 =>
      OnlyChangedIn(buf, c, index, index + 4)
      && (AllZero(buf) ==> TableInt(GetIntLe(c, index)) && Kept32(GetIntLe(c, index), arithMax))
    case Interesting32AsWritten =>
      OnlyChangedIn(buf, c, index, index + 4)
      && (AllZero(buf) ==>
            TableInt(GetIntLe(c, index))
            && (Kept32(GetIntLe(c, index), arithMax) || Kept32(IntEndianSwapped(GetIntLe(c, index)), arithMax)))
  }

  lemma ZeroShortReads(buf: seq<bv8>, i: int)
    requires AllZero(buf) && 0 <= i && i + 2 <= |buf|
    ensures GetShortLe(buf, i) == 0 && GetShortBe(buf, i) == 0
  {
    assert buf[i] == 0 && buf[i + 1] == 0;
  }

  lemma ZeroIntReads(buf: seq<bv8>, i: int)
    requires AllZero(buf) && 0 <= i && i + 4 <= |buf|
    ensures GetIntLe(buf, i) == 0 && GetIntBe(buf, i) == 0
  {
    assert buf[i] == 0 && buf[i + 1] == 0 && buf[i + 2] == 0 && buf[i + 3] == 0;
  }

  /** The byte whose value is y, counted up from zero. */
  ghost function ByteOfNat(y: nat): (b: bv8)
    requires y < 0x100
    ensures b as int == y
  {
    if y == 0 then 0 else ByteOfNat(y - 1) + 1
  }

  lemma ToByteValue(x: int)
    ensures ToByte(x) as int == x % 0x100
  {
    ToByteOf(x, ByteOfNat(x % 0x100));
  }

  /** A byte moved from zero by at most arithMax reads, signed, within arithMax of zero. */
  lemma ByteOfDelta(d: int, arithMax: int)
    requires -arithMax <= d <= arithMax
    ensures InArithRange(0, ByteToInt(ToByte(d)), arithMax)
  {
    ToByteValue(d);
  }

  lemma Arith8Fact(buf: seq<bv8>, index: int, arithMax: int, d: int, c: seq<bv8>)
    requires 0 <= index < |buf| && d != 0 && -arithMax <= d <= arithMax
    requires c in Arith8Candidates(buf, index, d)
    ensures StageFact(Arith8, arithMax, buf, index, c)
  {
    var x := ToByte(ByteToInt(buf[index]) + d);
    assert c == buf[index := x] && !ByteReach(buf[index], x);
    if AllZero(buf) {
      assert ByteToInt(buf[index]) == 0;
      ByteOfDelta(d, arithMax);
    }
  }

  lemma Arith16Fact(buf: seq<bv8>, index: int, arithMax: int, d: int, c: seq<bv8>)
    requires 0 <= index && index + 2 <= |buf| && d != 0 && -arithMax <= d <= arithMax
    requires c in Arith16Candidates(buf, index, d)
    ensures StageFact(Arith16, arithMax, buf, index, c)
  {
    if c in Arith16Le(buf, index, d) {
      var newLe := ToShort(ShortToInt(GetShortLe(buf, index)) + d);
      assert c == PutShortLe(buf, index, newLe) && AffectsBothBytes(GetShortLe(buf, index), newLe);
      if AllZero(buf) {
        ZeroShortReads(buf, index);
        assert GetShortLe(c, index) == ToShort(d);
      }
    } else {
      var newBe := ToShort(ShortToInt(GetShortBe(buf, index)) + d);
      assert c == PutShortBe(buf, index, newBe) && AffectsBothBytes(GetShortBe(buf, index), newBe);
      if AllZero(buf) {
        ZeroShortReads(buf, index);
        assert GetShortBe(c, index) == ToShort(d);
      }
    }
  }

  lemma Arith32Fact(buf: seq<bv8>, index: int, arithMax: int, d: int, c: seq<bv8>)
    requires 0 <= index && index + 4 <= |buf| && d != 0 && -arithMax <= d <= arithMax
    requires c in Arith32Candidates(buf, index, d)
    ensures StageFact(Arith32, arithMax, buf, index, c)
  {
    if c in Arith32Le(buf, index, ToInt(d)) {
      Arith32LeFact(buf, index, ToInt(d), c);
    } else {
      Arith32BeFact(buf, index, ToInt(d), c);
    }
  }

  lemma Arith32LeKept(buf: seq<bv8>, index: int, delta: bv32, c: seq<bv8>)
    requires 0 <= index && index + 4 <= |buf| && c in Arith32Le(buf, index, delta)
    ensures c == PutIntLe(buf, index, GetIntLe(buf, index) + delta)
    ensures AffectsMoreThanTwoBytes(GetIntLe(buf, index), GetIntLe(buf, index) + delta)
  {
    var flipped := IntReach(GetIntLe(buf, index), GetIntLe(buf, index) + delta);
    assert c in Arith32LeFor(buf, index, delta, flipped);
  }

  lemma Arith32LeFact(buf: seq<bv8>, index: int, delta: bv32, c: seq<bv8>)
    requires 0 <= index && index + 4 <= |buf| && c in Arith32Le(buf, index, delta)
    ensures MostOfFourChanged(buf, c, index) && (AllZero(buf) ==> GetIntLe(c, index) == delta)
  {
    Arith32LeKept(buf, index, delta, c);
    IntWriteChanges(buf, index, GetIntLe(buf, index) + delta);
    if AllZero(buf) {
      ZeroIntReads(buf, index);
      ZeroPlus(delta);
    }
  }

  lemma Arith32BeKept(buf: seq<bv8>, index: int, delta: bv32, c: seq<bv8>)
    requires 0 <= index && index + 4 <= |buf| && c in Arith32Be(buf, index, delta)
    ensures c == PutIntBe(buf, index, GetIntBe(buf, index) + delta)
    ensures AffectsMoreThanTwoBytes(GetIntBe(buf, index), GetIntBe(buf, index) + delta)
  {
    var flipped := IntReach(GetIntLe(buf, index), IntEndianSwapped(GetIntBe(buf, index) + delta));
    assert c in Arith32BeFor(buf, index, delta, flipped);
  }

  lemma Arith32BeFact(buf: seq<bv8>, index: int, delta: bv32, c: seq<bv8>)
    requires 0 <= index && index + 4 <= |buf| && c in Arith32Be(buf, index, delta)
    ensures MostOfFourChanged(buf, c, index) && (AllZero(buf) ==> GetIntBe(c, index) == delta)
  {
    Arith32BeKept(buf, index, delta, c);
    IntWriteBeChanges(buf, index, GetIntBe(buf, index) + delta);
    if AllZero(buf) {
      ZeroIntReads(buf, index);
      ZeroPlus(delta);
    }
  }

  lemma ZeroPlus(delta: bv32)
    ensures 0 + delta == delta
  {
  }

  /** Writing an int that differs from the old one in more than two bytes changes more than two bytes. */
  lemma IntWriteChanges(buf: seq<bv8>, index: int, v: bv32)
    requires 0 <= index && index + 4 <= |buf| && AffectsMoreThanTwoBytes(GetIntLe(buf, index), v)
    ensures MostOfFourChanged(buf, PutIntLe(buf, index, v), index)
  {
    var c, orig := PutIntLe(buf, index, v), GetIntLe(buf, index);
    assert c[index] == IntByte0(v) && c[index + 1] == IntByte1(v);
    assert c[index + 2] == IntByte2(v) && c[index + 3] == IntByte3(v);
    assert buf[index] == IntByte0(orig) && buf[index + 1] == IntByte1(orig);
    assert buf[index + 2] == IntByte2(orig) && buf[index + 3] == IntByte3(orig);
  }

  lemma IntWriteBeChanges(buf: seq<bv8>, index: int, v: bv32)
    requires 0 <= index && index + 4 <= |buf| && AffectsMoreThanTwoBytes(GetIntBe(buf, index), v)
    ensures MostOfFourChanged(buf, PutIntBe(buf, index, v), index)
  {
    var c, orig := PutIntBe(buf, index, v), GetIntBe(buf, index);
    assert c[index] == IntByte3(v) && c[index + 1] == IntByte2(v);
    assert c[index + 2] == IntByte1(v) && c[index + 3] == IntByte0(v);
    assert buf[index] == IntByte3(orig) && buf[index + 1] == IntByte2(orig);
    assert buf[index + 2] == IntByte1(orig) && buf[index + 3] == IntByte0(orig);
  }

  lemma Interesting8Fact(buf: seq<bv8>, index: int, arithMax: int, v: int, c: seq<bv8>)
    requires 0 <= index < |buf| && c in Interesting8Candidates(buf, index, arithMax, v)
    ensures StageFact(Interesting8, arithMax, buf, index, c)
  {
    assert c == buf[index := ToByte(v)] && !ByteReach(buf[index], ToByte(v));
  }

  lemma Interesting16Fact(buf: seq<bv8>, index: int, arithMax: int, v: int, c: seq<bv8>)
    requires 0 <= index && index + 2 <= |buf| && v in ParamGen.INTERESTING_SHORT
    requires c in Interesting16Candidates(buf, index, arithMax, v)
    ensures StageFact(Interesting16, arithMax, buf, index, c)
  {
    var short := ToShort(v);
    if c in Interesting16Le(buf, index, arithMax, v) {
      assert c == PutShortLe(buf, index, short);
      if AllZero(buf) {
        ZeroShortReads(buf, index);
      }
    } else {
      PutShortBeIsSwappedLe(buf, index, short);
      assert GetShortLe(c, index) == ShortEndianSwapped(short);
      if AllZero(buf) {
        ZeroShortReads(buf, index);
      }
    }
  }

  lemma Interesting32Fact(buf: seq<bv8>, index: int, arithMax: int, v: int, asWritten: bool, c: seq<bv8>)
    requires 0 <= index && index + 4 <= |buf| && v in ParamGen.INTERESTING_INT
    requires c in Interesting32Candidates(buf, index, arithMax, v, asWritten)
    ensures StageFact(if asWritten then Interesting32AsWritten else Interesting32, arithMax, buf, index, c)
  {
    var i32 := ToInt(v);
    var intBe := IntEndianSwapped(i32);
    if c in Interesting32Le(buf, index, arithMax, v) {
      assert c == PutIntLe(buf, index, i32);
      if AllZero(buf) {
        ZeroIntReads(buf, index);
      }
    } else {
      var w := if asWritten then intBe else i32;
      PutIntBeIsSwappedLe(buf, index, w);
      IntEndianSwappedInvolution(i32);
      assert GetIntLe(c, index) == IntEndianSwapped(w);
      if AllZero(buf) {
        ZeroIntReads(buf, index);
      }
    }
  }

  /** Every candidate of a stage at one index for one of its items has the stage's fact. */
  lemma CandidateFact(stage: Stage, arithMax: int, buf: seq<bv8>, index: int, item: int, c: seq<bv8>)
    requires ValidIndex(stage, buf, index) && item in Items(stage, arithMax)
    requires c in Candidates(stage, arithMax, buf, index, item)
    ensures StageFact(stage, arithMax, buf, index, c)
  {
    match stage
    case Arith8 => Arith8Fact(buf, index, arithMax, item, c);
    case Arith16 => Arith16Fact(buf, index, arithMax, item, c);
    case Arith32 => Arith32Fact(buf, index, arithMax, item, c);
    case Interesting8 => Interesting8Fact(buf, index, arithMax, item, c);
    case Interesting16 => Interesting16Fact(buf, index, arithMax, item, c);
    case Interesting32 => Interesting32Fact(buf, index, arithMax, item, false, c);
    case Interesting32AsWritten => Interesting32Fact(buf, index, arithMax, item, true, c);
  }

  lemma {:induction false} AtIndexFact(stage: Stage, arithMax: int, buf: seq<bv8>, index: int, items: seq<int>, c: seq<bv8>)
    requires ValidIndex(stage, buf, index) && forall x :: x in items ==> x in Items(stage, arithMax)
    requires c in AtIndex(stage, arithMax, buf, index, items)
    ensures StageFact(stage, arithMax, buf, index, c)
    decreases |items|
  {
    var n := |items| - 1;
    if c in AtIndex(stage, arithMax, buf, index, items[..n]) {
      AtIndexFact(stage, arithMax, buf, index, items[..n], c);
    } else {
      CandidateFact(stage, arithMax, buf, index, items[n], c);
    }
  }

  /** Every candidate a stage yields has the stage's fact at some index. */
  lemma StageFactOf(stage: Stage, arithMax: int, buf: seq<bv8>, c: seq<bv8>) returns (index: int)
    requires c in StageOutput(stage, arithMax, buf)
    ensures ValidIndex(stage, buf, index) && StageFact(stage, arithMax, buf, index, c)
  {
    var items := Items(stage, arithMax);
    var i := StageProperties.InConcat(IndexCandidates(stage, arithMax, buf, items), IndexCount(stage, buf), c);
    index := i;
    AtIndexFact(stage, arithMax, buf, index, items, c);
  }

  // ------------------------------------------- footprints that exclude

  /** Two changed bytes are more than one. */
  lemma TwoChangedNotOne(buf: seq<bv8>, c: seq<bv8>, k1: int, k2: int, j: int)
    requires 0 <= k1 < k2 < |buf| && |c| == |buf| && c[k1] != buf[k1] && c[k2] != buf[k2]
    ensures !OneByteChanged(buf, c, j)
  {
  }

  /** Two changed bytes with one between them do not fit in a two-byte window. */
  lemma SpreadNotInTwo(buf: seq<bv8>, c: seq<bv8>, k1: int, k2: int, j: int)
    requires 0 <= k1 && k1 + 2 <= k2 < |buf| && |c| == |buf| && c[k1] != buf[k1] && c[k2] != buf[k2]
    ensures !OnlyChangedIn(buf, c, j, j + 2)
  {
  }

  /** Three changed bytes do not fit in a window of one or two bytes. */
  lemma MostNotInTwo(buf: seq<bv8>, c: seq<bv8>, i: int, j: int)
    requires MostOfFourChanged(buf, c, i)
    ensures !OnlyChangedIn(buf, c, j, j + 2) && !OnlyChangedIn(buf, c, j, j + 1)
  {
  }

  // ------------------------------------------ the table values kept on zero

  /** The table bytes the 8-bit filters of the wider stages use. */
  lemma TableBytes()
    ensures ToByte(-128) == 0x80 && ToByte(-1) == 0xFF && ToByte(1) == 1 && ToByte(16) == 0x10
    ensures -128 in ParamGen.INTERESTING_BYTE && -1 in ParamGen.INTERESTING_BYTE
    ensures 1 in ParamGen.INTERESTING_BYTE && 16 in ParamGen.INTERESTING_BYTE
  {
    ToByteOf(-128, 0x80);
    ToByteOf(-1, 0xFF);
    ToByteOf(1, 1);
    ToByteOf(16, 0x10);
  }

  /** A truncation whose low 16 bits are those of s is s. */
  lemma ToShortOf(x: int, s: bv16)
    requires x % 0x1_0000 == s as int
    ensures ToShort(x) == s
  {
    calc {
      ToShort(x);
      (x % 0x1_0000) as bv16;
      (s as int) as bv16;
    }
  }

  /** The table shorts as 16-bit values. */
  lemma TableShortValuesLow()
    ensures ToShort(-32768) == 0x8000 && ToShort(-129) == 0xFF7F && ToShort(128) == 0x0080
    ensures ToShort(255) == 0x00FF && ToShort(256) == 0x0100
  {
    ToShortOf(-32768, 0x8000);
    ToShortOf(-129, 0xFF7F);
    ToShortOf(128, 0x0080);
    ToShortOf(255, 0x00FF);
    ToShortOf(256, 0x0100);
  }

  lemma TableShortValuesHigh()
    ensures ToShort(512) == 0x0200 && ToShort(1000) == 0x03E8 && ToShort(1024) == 0x0400
    ensures ToShort(4096) == 0x1000 && ToShort(32767) == 0x7FFF
  {
    ToShortOf(512, 0x0200);
    ToShortOf(1000, 0x03E8);
    ToShortOf(1024, 0x0400);
    ToShortOf(4096, 0x1000);
    ToShortOf(32767, 0x7FFF);
  }

  /** The twenty shorts the 16-bit stage tries: each table short, as it is and byte-swapped. */
  lemma TableShortCases(s: bv16)
    requires TableShort(s)
    ensures s == 0x8000 || s == 0xFF7F || s == 0x0080 || s == 0x00FF || s == 0x0100
         || s == 0x0200 || s == 0x03E8 || s == 0x0400 || s == 0x1000 || s == 0x7FFF
         || s == 0x0080 || s == 0x7FFF || s == 0x8000 || s == 0xFF00 || s == 0x0001
         || s == 0x0002 || s == 0xE803 || s == 0x0004 || s == 0x0010 || s == 0xFF7F
  {
    var v :| v in ParamGen.INTERESTING_SHORT && (s == ToShort(v) || s == ShortEndianSwapped(ToShort(v)));
    assert v == -32768 || v == -129 || v == 128 || v == 255 || v == 256
        || v == 512 || v == 1000 || v == 1024 || v == 4096 || v == 32767;
    TableShortValuesLow();
    TableShortValuesHigh();
    ShortSwaps();
    if v == -32768 {
    } else if v == -129 {
    } else if v == 128 {
    } else if v == 255 {
    } else if v == 256 {
    } else if v == 512 {
    } else if v == 1000 {
    } else if v == 1024 {
    } else if v == 4096 {
    }
  }

  lemma ShortSwaps()
    ensures ShortEndianSwapped(0x8000) == 0x0080 && ShortEndianSwapped(0xFF7F) == 0x7FFF
    ensures ShortEndianSwapped(0x0080) == 0x8000 && ShortEndianSwapped(0x00FF) == 0xFF00
    ensures ShortEndianSwapped(0x0100) == 0x0001 && ShortEndianSwapped(0x0200) == 0x0002
    ensures ShortEndianSwapped(0x03E8) == 0xE803 && ShortEndianSwapped(0x0400) == 0x0004
    ensures ShortEndianSwapped(0x1000) == 0x0010 && ShortEndianSwapped(0x7FFF) == 0xFF7F
  {
  }

  /** A table short with a zero byte is a table byte or a single bit, so the 16-bit stage drops it over zero bytes. */
  lemma ZeroByteShortDropped(s: bv16)
    requires s == 0x8000 || s == 0x0080 || s == 0x00FF || s == 0xFF00 || s == 0x0100 || s == 0x0001
          || s == 0x1000 || s == 0x0010 || s == 0x0200 || s == 0x0002 || s == 0x0400 || s == 0x0004
    ensures CouldBeInteresting8In16(0, s) || ShortReach(0, s)
  {
    TableBytes();
    if s == 0x0002 || s == 0x0004 || s == 0x0200 || s == 0x0400 {
      var k := if s == 0x0002 then 1 else if s == 0x0004 then 2 else if s == 0x0200 then 9 else 10;
      assert ShortToBytes(0) == [0, 0];
      assert FlipRun([0, 0], k, 1) == ShortToBytes(s);
      assert RunFlipsTo(ShortToBytes(0), k, 1, ShortToBytes(s));
    }
  }

  /** The four shorts of the table the 16-bit stage keeps over two zero bytes. */
  predicate KeptShortValue(s: bv16)
  {
    s == 0xFF7F || s == 0x7FFF || s == 0x03E8 || s == 0xE803
  }

  /** Over two zero bytes the 16-bit stage keeps only -129, 32767 and 1000, in either byte order. */
  lemma KeptTableShort(s: bv16, arithMax: int)
    requires TableShort(s) && Kept16(s, arithMax)
    ensures KeptShortValue(s)
  {
    TableShortCases(s);
    if ShortByte0(s) == 0 || ShortByte1(s) == 0 {
      ZeroByteShortDropped(s);
    }
  }

  /** The table ints as 32-bit values. */
  lemma TableIntValuesLow()
    ensures ToInt(-0x8000_0000) == 0x8000_0000 && ToInt(-100663046) == 0xFA00_00FA
    ensures ToInt(-32769) == 0xFFFF_7FFF && ToInt(32768) == 0x0000_8000
  {
    StageProperties.ToIntOf(-0x8000_0000, 0x8000_0000);
    StageProperties.ToIntOf(-100663046, 0xFA00_00FA);
    StageProperties.ToIntOf(-32769, 0xFFFF_7FFF);
    StageProperties.ToIntOf(32768, 0x0000_8000);
  }

  lemma TableIntValuesHigh()
    ensures ToInt(65535) == 0x0000_FFFF && ToInt(65536) == 0x0001_0000
    ensures ToInt(100663045) == 0x05FF_FF05 && ToInt(0x7FFF_FFFF) == 0x7FFF_FFFF
  {
    StageProperties.ToIntOf(65535, 0x0000_FFFF);
    StageProperties.ToIntOf(65536, 0x0001_0000);
    StageProperties.ToIntOf(100663045, 0x05FF_FF05);
    StageProperties.ToIntOf(0x7FFF_FFFF, 0x7FFF_FFFF);
  }

  /** The sixteen ints the 32-bit stage tries: each table int, as it is and byte-swapped. */
  lemma TableIntCases(t: bv32)
    requires TableInt(t)
    ensures t == 0x8000_0000 || t == 0xFA00_00FA || t == 0xFFFF_7FFF || t == 0x0000_8000
         || t == 0x0000_FFFF || t == 0x0001_0000 || t == 0x05FF_FF05 || t == 0x7FFF_FFFF
         || t == 0x0000_0080 || t == 0xFF7F_FFFF || t == 0x0080_0000 || t == 0xFFFF_0000
         || t == 0x0000_0100 || t == 0xFFFF_FF7F
  {
    var v :| v in ParamGen.INTERESTING_INT && (t == ToInt(v) || t == IntEndianSwapped(ToInt(v)));
    assert v == -0x8000_0000 || v == -100663046 || v == -32769 || v == 32768
        || v == 65535 || v == 65536 || v == 100663045 || v == 0x7FFF_FFFF;
    TableIntValuesLow();
    TableIntValuesHigh();
    IntSwaps();
    if v == -0x8000_0000 {
    } else if v == -100663046 {
    } else if v == -32769 {
    } else if v == 32768 {
    } else if v == 65535 {
    } else if v == 65536 {
    } else if v == 100663045 {
    }
  }

  lemma IntSwaps()
    ensures IntEndianSwapped(0x8000_0000) == 0x0000_0080 && IntEndianSwapped(0xFA00_00FA) == 0xFA00_00FA
    ensures IntEndianSwapped(0xFFFF_7FFF) == 0xFF7F_FFFF && IntEndianSwapped(0x0000_8000) == 0x0080_0000
    ensures IntEndianSwapped(0x0000_FFFF) == 0xFFFF_0000 && IntEndianSwapped(0x0001_0000) == 0x0000_0100
    ensures IntEndianSwapped(0x05FF_FF05) == 0x05FF_FF05 && IntEndianSwapped(0x7FFF_FFFF) == 0xFFFF_FF7F
  {
  }

  /** The six ints of the table, either byte order, with non-zero end bytes. */
  predicate WideIntValue(t: bv32)
  {
    t == 0xFA00_00FA || t == 0xFFFF_7FFF || t == 0xFF7F_FFFF || t == 0x05FF_FF05
    || t == 0x7FFF_FFFF || t == 0xFFFF_FF7F
  }

  /** The ints the 32-bit stage keeps over four zero bytes: 65535 in either order only when no arith step is tried. */
  predicate KeptIntValue(t: bv32, arithMax: int)
  {
    WideIntValue(t) || (arithMax <= 0 && (t == 0x0000_FFFF || t == 0xFFFF_0000))
  }

  /** A table int with a single non-zero byte is a table byte written into zero bytes. */
  lemma NarrowIntDropped(t: bv32)
    requires t == 0x8000_0000 || t == 0x0000_0080 || t == 0x0000_8000 || t == 0x0080_0000
          || t == 0x0001_0000 || t == 0x0000_0100
    ensures CouldBeInteresting8In32(0, t)
  {
    TableBytes();
  }

  /** 65535 in either order is the short -1 written into zero bytes, an arith step once one is tried. */
  lemma FullShortIntDropped(t: bv32, arithMax: int)
    requires 1 <= arithMax && (t == 0x0000_FFFF || t == 0xFFFF_0000)
    ensures CouldBeArith32(0, t, arithMax)
  {
    var o, n := IntToBytes(0), IntToBytes(t);
    assert o == [0, 0, 0, 0];
    var p := if t == 0x0000_FFFF then 0 else 2;
    assert n == if p == 0 then [0xFF, 0xFF, 0, 0] else [0, 0, 0xFF, 0xFF];
    assert ShortToInt(GetShortLe(n, p)) == -1 && ShortToInt(GetShortLe(o, p)) == 0;
    assert ShortArith(o, n, p, arithMax);
  }

  lemma KeptTableInt(t: bv32, arithMax: int)
    requires TableInt(t) && Kept32(t, arithMax)
    ensures KeptIntValue(t, arithMax)
  {
    TableIntCases(t);
    if IntByte0(t) == 0 || IntByte3(t) == 0 {
      if t == 0x0000_FFFF || t == 0xFFFF_0000 {
        if 1 <= arithMax {
          FullShortIntDropped(t, arithMax);
        }
      } else {
        NarrowIntDropped(t);
      }
    }
  }

  /** Byte-swapping a kept int gives a kept int. */
  lemma KeptIntSwapped(t: bv32, arithMax: int)
    requires KeptIntValue(IntEndianSwapped(t), arithMax)
    ensures KeptIntValue(t, arithMax)
  {
    IntEndianSwappedInvolution(t);
  }

  /** What every candidate of either 32-bit stage writes over zero bytes. */
  lemma Interesting32Kept(stage: Stage, arithMax: int, buf: seq<bv8>, j: int, c: seq<bv8>)
    requires stage == Interesting32 || stage == Interesting32AsWritten
    requires AllZero(buf) && ValidIndex(stage, buf, j) && StageFact(stage, arithMax, buf, j, c)
    ensures OnlyChangedIn(buf, c, j, j + 4) && KeptIntValue(GetIntLe(c, j), arithMax)
  {
    var t := GetIntLe(c, j);
    if stage == Interesting32AsWritten && !Kept32(t, arithMax) {
      var v :| v in ParamGen.INTERESTING_INT && (t == ToInt(v) || t == IntEndianSwapped(ToInt(v)));
      IntEndianSwappedInvolution(ToInt(v));
      assert TableInt(IntEndianSwapped(t));
      KeptTableInt(IntEndianSwapped(t), arithMax);
      KeptIntSwapped(t, arithMax);
    } else {
      KeptTableInt(t, arithMax);
    }
  }

  /** The bytes a kept int puts in the window: both ends non-zero, or 65535 in either order. */
  lemma KeptIntBytes(c: seq<bv8>, j: int, arithMax: int)
    requires 0 <= j && j + 4 <= |c| && KeptIntValue(GetIntLe(c, j), arithMax)
    ensures WideIntValue(GetIntLe(c, j)) ==> c[j] != 0 && c[j + 3] != 0
    ensures !WideIntValue(GetIntLe(c, j)) ==>
      arithMax <= 0 && c[j] == c[j + 1] && c[j + 2] == c[j + 3]
      && ((c[j] == 0xFF && c[j + 2] == 0) || (c[j] == 0 && c[j + 2] == 0xFF))
  {
    var t := GetIntLe(c, j);
    assert IntByte0(t) == c[j] && IntByte1(t) == c[j + 1] && IntByte2(t) == c[j + 2] && IntByte3(t) == c[j + 3];
  }

  /** Byte-swapping keeps an int among the six with non-zero end bytes. */
  lemma WideIntSwapped(t: bv32)
    requires WideIntValue(t)
    ensures WideIntValue(IntEndianSwapped(t))
  {
    IntSwaps();
    assert IntEndianSwapped(0xFF7F_FFFF) == 0xFFFF_7FFF && IntEndianSwapped(0xFFFF_FF7F) == 0x7FFF_FFFF;
  }

  /** Where the only non-zero bytes are two adjacent FF bytes, no two bytes read as a kept short. */
  lemma FullShortNotKept(buf: seq<bv8>, c: seq<bv8>, i: int, j: int)
    requires AllZero(buf) && 0 <= j && j + 4 <= |buf| && OnlyChangedIn(buf, c, j, j + 4)
    requires c[j] == c[j + 1] && c[j + 2] == c[j + 3]
    requires (c[j] == 0xFF && c[j + 2] == 0) || (c[j] == 0 && c[j + 2] == 0xFF)
    requires 0 <= i && i + 2 <= |c|
    ensures !KeptShortValue(GetShortLe(c, i))
  {
    assert ShortByte0(GetShortLe(c, i)) == c[i] && ShortByte1(GetShortLe(c, i)) == c[i + 1];
  }

  /** On zero bytes an arith16 candidate means at least one step was tried. */
  lemma Arith16Tried(arithMax: int, buf: seq<bv8>, i: int, c: seq<bv8>)
    requires AllZero(buf) && ValidIndex(Arith16, buf, i) && StageFact(Arith16, arithMax, buf, i, c)
    ensures 1 <= arithMax && BothBytesChanged(buf, c, i)
  {
  }

  /** On zero bytes an arith32 candidate reads, in one byte order, as the step taken. */
  lemma Arith32Step(arithMax: int, buf: seq<bv8>, i: int, c: seq<bv8>) returns (d: int)
    requires AllZero(buf) && ValidIndex(Arith32, buf, i) && StageFact(Arith32, arithMax, buf, i, c)
    ensures d != 0 && -arithMax <= d <= arithMax && MostOfFourChanged(buf, c, i)
    ensures GetIntLe(c, i) == ToInt(d) || GetIntBe(c, i) == ToInt(d)
  {
    d :| d != 0 && -arithMax <= d <= arithMax && (GetIntLe(c, i) == ToInt(d) || GetIntBe(c, i) == ToInt(d));
  }

  /** Both ends of a four-byte window changed, and nothing outside another four-byte window: the windows are one. */
  lemma SameWindow(buf: seq<bv8>, c: seq<bv8>, i: int, j: int)
    requires 0 <= j && j + 4 <= |buf| && OnlyChangedIn(buf, c, i, i + 4)
    requires c[j] != buf[j] && c[j + 3] != buf[j + 3]
    ensures i == j
  {
  }

  /** A step of at most 128 from zero never reads as a kept short, in either order. */
  lemma SmallShortsNotKept(d: int)
    requires -128 <= d <= 128
    ensures !KeptShortValue(ToShort(d))
  {
  }

  /** A step of at most 128 from zero never reads as a kept int with non-zero end bytes. */
  lemma SmallIntsNotKept(d: int)
    requires -128 <= d <= 128
    ensures !WideIntValue(ToInt(d))
  {
  }

  // ------------------------------------------------- pairs on every seed

  /** arith16 never yields a candidate of arith8: it changes two bytes, arith8 one. */
  lemma Arith16NotArith8(arithMax: int, buf: seq<bv8>, c: seq<bv8>)
    requires c in StageOutput(Arith16, arithMax, buf)
    ensures c !in StageOutput(Arith8, arithMax, buf)
  {
    var i := StageFactOf(Arith16, arithMax, buf, c);
    if c in StageOutput(Arith8, arithMax, buf) {
      var j := StageFactOf(Arith8, arithMax, buf, c);
      TwoChangedNotOne(buf, c, i, i + 1, j);
    }
  }

  /** arith32 never yields a candidate of arith8: it changes at least three bytes. */
  lemma Arith32NotArith8(arithMax: int, buf: seq<bv8>, c: seq<bv8>)
    requires c in StageOutput(Arith32, arithMax, buf)
    ensures c !in StageOutput(Arith8, arithMax, buf)
  {
    var i := StageFactOf(Arith32, arithMax, buf, c);
    if c in StageOutput(Arith8, arithMax, buf) {
      var j := StageFactOf(Arith8, arithMax, buf, c);
      MostNotInTwo(buf, c, i, j);
    }
  }

  /** arith32 never yields a candidate of arith16: it changes at least three bytes, arith16 two. */
  lemma Arith32NotArith16(arithMax: int, buf: seq<bv8>, c: seq<bv8>)
    requires c in StageOutput(Arith32, arithMax, buf)
    ensures c !in StageOutput(Arith16, arithMax, buf)
  {
    var i := StageFactOf(Arith32, arithMax, buf, c);
    if c in StageOutput(Arith16, arithMax, buf) {
      var j := StageFactOf(Arith16, arithMax, buf, c);
      MostNotInTwo(buf, c, i, j);
    }
  }

  /** interesting8 never yields a candidate of arith16: it changes one byte. */
  lemma Interesting8NotArith16(arithMax: int, buf: seq<bv8>, c: seq<bv8>)
    requires c in StageOutput(Interesting8, arithMax, buf)
    ensures c !in StageOutput(Arith16, arithMax, buf)
  {
    var i := StageFactOf(Interesting8, arithMax, buf, c);
    if c in StageOutput(Arith16, arithMax, buf) {
      var j := StageFactOf(Arith16, arithMax, buf, c);
      TwoChangedNotOne(buf, c, j, j + 1, i);
    }
  }

  /** interesting8 never yields a candidate of arith32: it changes one byte. */
  lemma Interesting8NotArith32(arithMax: int, buf: seq<bv8>, c: seq<bv8>)
    requires c in StageOutput(Interesting8, arithMax, buf)
    ensures c !in StageOutput(Arith32, arithMax, buf)
  {
    var i := StageFactOf(Interesting8, arithMax, buf, c);
    if c in StageOutput(Arith32, arithMax, buf) {
      var j := StageFactOf(Arith32, arithMax, buf, c);
      MostNotInTwo(buf, c, j, i);
    }
  }

  /** interesting16 never yields a candidate of arith32: it changes at most two bytes. */
  lemma Interesting16NotArith32(arithMax: int, buf: seq<bv8>, c: seq<bv8>)
    requires c in StageOutput(Interesting16, arithMax, buf)
    ensures c !in StageOutput(Arith32, arithMax, buf)
  {
    var i := StageFactOf(Interesting16, arithMax, buf, c);
    if c in StageOutput(Arith32, arithMax, buf) {
      var j := StageFactOf(Arith32, arithMax, buf, c);
      MostNotInTwo(buf, c, j, i);
    }
  }

  // ------------------------------------------------ pairs on a zero seed

  /** On zero bytes interesting8 never yields a candidate of arith8: its byte is out of arith range. */
  lemma Interesting8NotArith8(arithMax: int, buf: seq<bv8>, c: seq<bv8>)
    requires AllZero(buf) && c in StageOutput(Interesting8, arithMax, buf)
    ensures c !in StageOutput(Arith8, arithMax, buf)
  {
    var i := StageFactOf(Interesting8, arithMax, buf, c);
    assert ByteToInt(buf[i]) == 0;
    if c in StageOutput(Arith8, arithMax, buf) {
      var j := StageFactOf(Arith8, arithMax, buf, c);
    }
  }

  /** On zero bytes interesting16 never yields a candidate of arith8: both its bytes are non-zero. */
  lemma Interesting16NotArith8(arithMax: int, buf: seq<bv8>, c: seq<bv8>)
    requires AllZero(buf) && c in StageOutput(Interesting16, arithMax, buf)
    ensures c !in StageOutput(Arith8, arithMax, buf)
  {
    var i := StageFactOf(Interesting16, arithMax, buf, c);
    KeptTableShort(GetShortLe(c, i), arithMax);
    if c in StageOutput(Arith8, arithMax, buf) {
      var j := StageFactOf(Arith8, arithMax, buf, c);
      TwoChangedNotOne(buf, c, i, i + 1, j);
    }
  }

  /** On zero bytes interesting16 never yields a candidate of interesting8: both its bytes are non-zero. */
  lemma Interesting16NotInteresting8(arithMax: int, buf: seq<bv8>, c: seq<bv8>)
    requires AllZero(buf) && c in StageOutput(Interesting16, arithMax, buf)
    ensures c !in StageOutput(Interesting8, arithMax, buf)
  {
    var i := StageFactOf(Interesting16, arithMax, buf, c);
    KeptTableShort(GetShortLe(c, i), arithMax);
    if c in StageOutput(Interesting8, arithMax, buf) {
      var j := StageFactOf(Interesting8, arithMax, buf, c);
      TwoChangedNotOne(buf, c, i, i + 1, j);
    }
  }

  /** On zero bytes, with steps of at most 128, interesting16 never yields a candidate of arith16. */
  lemma Interesting16NotArith16(arithMax: int, buf: seq<bv8>, c: seq<bv8>)
    requires AllZero(buf) && arithMax <= 128 && c in StageOutput(Interesting16, arithMax, buf)
    ensures c !in StageOutput(Arith16, arithMax, buf)
  {
    var i := StageFactOf(Interesting16, arithMax, buf, c);
    KeptTableShort(GetShortLe(c, i), arithMax);
    if c in StageOutput(Arith16, arithMax, buf) {
      var j := StageFactOf(Arith16, arithMax, buf, c);
      var d :| d != 0 && -arithMax <= d <= arithMax
        && (GetShortLe(c, j) == ToShort(d) || GetShortBe(c, j) == ToShort(d));
      assert j == i;
      SmallShortsNotKept(d);
    }
  }

  /** On zero bytes neither 32-bit stage yields a candidate of arith8: it changes two bytes or more. */
  lemma Interesting32NotArith8(stage: Stage, arithMax: int, buf: seq<bv8>, c: seq<bv8>)
    requires stage == Interesting32 || stage == Interesting32AsWritten
    requires AllZero(buf) && c in StageOutput(stage, arithMax, buf)
    ensures c !in StageOutput(Arith8, arithMax, buf)
  {
    var j := StageFactOf(stage, arithMax, buf, c);
    Interesting32Kept(stage, arithMax, buf, j, c);
    KeptIntNotOneByte(buf, c, j, arithMax);
    if c in StageOutput(Arith8, arithMax, buf) {
      var i := StageFactOf(Arith8, arithMax, buf, c);
    }
  }

  /** A kept table int written over zero bytes changes two bytes or more. */
  lemma KeptIntNotOneByte(buf: seq<bv8>, c: seq<bv8>, j: int, arithMax: int)
    requires AllZero(buf) && 0 <= j && j + 4 <= |buf| && |c| == |buf|
    requires KeptIntValue(GetIntLe(c, j), arithMax)
    ensures forall i :: !OneByteChanged(buf, c, i)
  {
    KeptIntBytes(c, j, arithMax);
    var k := if GetIntLe(c, j) == 0xFFFF_0000 then j + 2 else j;
    var k' := if WideIntValue(GetIntLe(c, j)) then j + 3 else k + 1;
    forall i
      ensures !OneByteChanged(buf, c, i)
    {
      TwoChangedNotOne(buf, c, k, k', i);
    }
  }

  /** On zero bytes neither 32-bit stage yields a candidate of interesting8. */
  lemma Interesting32NotInteresting8(stage: Stage, arithMax: int, buf: seq<bv8>, c: seq<bv8>)
    requires stage == Interesting32 || stage == Interesting32AsWritten
    requires AllZero(buf) && c in StageOutput(stage, arithMax, buf)
    ensures c !in StageOutput(Interesting8, arithMax, buf)
  {
    var j := StageFactOf(stage, arithMax, buf, c);
    Interesting32Kept(stage, arithMax, buf, j, c);
    if c in StageOutput(Interesting8, arithMax, buf) {
      var i := StageFactOf(Interesting8, arithMax, buf, c);
      var k := if GetIntLe(c, j) == 0xFFFF_0000 then j + 2 else j;
      var k' := if WideIntValue(GetIntLe(c, j)) then j + 3 else k + 1;
      TwoChangedNotOne(buf, c, k, k', i);
    }
  }

  /** On zero bytes neither 32-bit stage yields a candidate of arith16: its end bytes are both non-zero. */
  lemma Interesting32NotArith16(stage: Stage, arithMax: int, buf: seq<bv8>, c: seq<bv8>)
    requires stage == Interesting32 || stage == Interesting32AsWritten
    requires AllZero(buf) && c in StageOutput(stage, arithMax, buf)
    ensures c !in StageOutput(Arith16, arithMax, buf)
  {
    var j := StageFactOf(stage, arithMax, buf, c);
    Interesting32Kept(stage, arithMax, buf, j, c);
    KeptIntBytes(c, j, arithMax);
    if c in StageOutput(Arith16, arithMax, buf) {
      var i := StageFactOf(Arith16, arithMax, buf, c);
      Arith16Tried(arithMax, buf, i, c);
      SpreadNotInTwo(buf, c, j, j + 3, i);
    }
  }

  /** On zero bytes, with steps of at most 128, neither 32-bit stage yields a candidate of arith32. */
  lemma Interesting32NotArith32(stage: Stage, arithMax: int, buf: seq<bv8>, c: seq<bv8>)
    requires stage == Interesting32 || stage == Interesting32AsWritten
    requires AllZero(buf) && arithMax <= 128 && c in StageOutput(stage, arithMax, buf)
    ensures c !in StageOutput(Arith32, arithMax, buf)
  {
    var j := StageFactOf(stage, arithMax, buf, c);
    Interesting32Kept(stage, arithMax, buf, j, c);
    KeptIntBytes(c, j, arithMax);
    if c in StageOutput(Arith32, arithMax, buf) {
      var i := StageFactOf(Arith32, arithMax, buf, c);
      var d := Arith32Step(arithMax, buf, i, c);
      SameWindow(buf, c, i, j);
      WideIntSwapped(GetIntLe(c, i));
      SmallIntsNotKept(d);
    }
  }

  /** On zero bytes neither 32-bit stage yields a candidate of interesting16. */
  lemma Interesting32NotInteresting16(stage: Stage, arithMax: int, buf: seq<bv8>, c: seq<bv8>)
    requires stage == Interesting32 || stage == Interesting32AsWritten
    requires AllZero(buf) && c in StageOutput(stage, arithMax, buf)
    ensures c !in StageOutput(Interesting16, arithMax, buf)
  {
    var j := StageFactOf(stage, arithMax, buf, c);
    Interesting32Kept(stage, arithMax, buf, j, c);
    if c in StageOutput(Interesting16, arithMax, buf) {
      var i := StageFactOf(Interesting16, arithMax, buf, c);
      KeptTableShort(GetShortLe(c, i), arithMax);
      KeptIntBytes(c, j, arithMax);
      if WideIntValue(GetIntLe(c, j)) {
        SpreadNotInTwo(buf, c, j, j + 3, i);
      } else {
        FullShortNotKept(buf, c, i, j);
      }
    }
  }

  // ------------------------------------------------ where repeats get through

  /** Every candidate for one of the items is a candidate at that index. */
  lemma {:induction false} AtIndexHas(stage: Stage, arithMax: int, buf: seq<bv8>, index: int, items: seq<int>, item: int, c: seq<bv8>)
    requires ValidIndex(stage, buf, index) && item in items
    requires c in Candidates(stage, arithMax, buf, index, item)
    ensures c in AtIndex(stage, arithMax, buf, index, items)
    decreases |items|
  {
    var n := |items| - 1;
    if items[n] != item {
      assert item in items[..n] by {
        var k :| 0 <= k < |items| && items[k] == item;
        assert items[..n][k] == item;
      }
      AtIndexHas(stage, arithMax, buf, index, items[..n], item, c);
    }
  }

  /** On a seed with one index to visit, every candidate of a stage item there is yielded. */
  lemma InStageAtZero(stage: Stage, arithMax: int, buf: seq<bv8>, item: int, c: seq<bv8>)
    requires IndexCount(stage, buf) == 1 && item in Items(stage, arithMax)
    requires c in Candidates(stage, arithMax, buf, 0, item)
    ensures c in StageOutput(stage, arithMax, buf)
  {
    AtIndexHas(stage, arithMax, buf, 0, Items(stage, arithMax), item, c);
    UptoSnoc(stage, arithMax, buf, Items(stage, arithMax), 0);
  }

  /** 7F and 80 differ in bits 0 and 7, too far apart for one checked run. */
  lemma SignFlipUnreachable()
    ensures !ByteReach(0x7F, 0x80)
  {
    if FlipReachable([0x7F], [0x80]) {
      var start: nat, len: int :| RunFlipsTo([0x7F], start, len, [0x80]);
      FlipRunBits([0x7F], start, len, 0);
      FlipRunBits([0x7F], start, len, 7);
    }
  }

  /** 0 and 32767 differ in bits 0 and 14, too far apart for one checked run. */
  lemma ShortMaxUnreachable()
    ensures !ShortReach(0, 0x7FFF)
  {
    var z, t := ShortToBytes(0), ShortToBytes(0x7FFF);
    assert z == [0, 0] && t == [0xFF, 0x7F];
    if FlipReachable(z, t) {
      var start: nat, len: int :| RunFlipsTo(z, start, len, t);
      FlipRunBits(z, start, len, 0);
      FlipRunBits(z, start, len, 14);
    }
  }

  /**
   * Off a zero seed the 8-bit stages repeat each other: on the byte 7F,
   * arith8 adds 1 and wraps to 80, and interesting8 writes -128, also 80,
   * which its arith filter lets through because it compares signed values
   * (127 and -128) and not the wrapped step.
   */
  lemma Arith8Interesting8Repeat()
    ensures [0x80] in StageOutput(Arith8, 35, [0x7F])
    ensures [0x80] in StageOutput(Interesting8, 35, [0x7F])
  {
    var seed: seq<bv8> := [0x7F];
    SignFlipUnreachable();
    assert ToByte(ByteToInt(0x7F) + 1) == 0x80 && ToByte(-128) == 0x80;
    assert seed[0 := 0x80] == [0x80];
    assert Arith8Candidates(seed, 0, 1) == Arith8For(seed, 0, 1, false);
    assert Candidates(Arith8, 35, seed, 0, 1) == [[0x80]];
    InStageAtZero(Arith8, 35, seed, 1, [0x80]);
    assert Candidates(Interesting8, 35, seed, 0, -128) == [[0x80]];
    InStageAtZero(Interesting8, 35, seed, -128, [0x80]);
  }

  /**
   * Past a bound of 128 the 16-bit stages repeat each other on zero bytes:
   * with arithMax 129, arith16 steps the big-endian short by -129 to FF 7F,
   * and interesting16 writes the table short -129 big-endian, also FF 7F,
   * which its arith filter lets through because it reads the value
   * byte-swapped, as 32767.
   */
  lemma Arith16Interesting16Repeat()
    ensures [0xFF, 0x7F] in StageOutput(Arith16, 129, [0, 0])
    ensures [0xFF, 0x7F] in StageOutput(Interesting16, 129, [0, 0])
  {
    Arith16Yields();
    Interesting16Yields();
  }

  /** The facts both halves of the 16-bit repeat read off two zero bytes and the short -129. */
  lemma MinusOneTwentyNine()
    ensures ToShort(-129) == 0xFF7F && !ShortReach(0, 0x7FFF)
    ensures GetShortLe([0, 0], 0) == 0 && GetShortBe([0, 0], 0) == 0
    ensures ShortEndianSwapped(0xFF7F) == 0x7FFF && ShortEndianSwapped(0) == 0
    ensures PutShortBe([0, 0], 0, 0xFF7F) == [0xFF, 0x7F]
  {
    ShortMaxUnreachable();
    ToShortOf(-129, 0xFF7F);
  }

  lemma Arith16Yields()
    ensures [0xFF, 0x7F] in StageOutput(Arith16, 129, [0, 0])
  {
    MinusOneTwentyNine();
    assert Arith16Be([0, 0], 0, -129) == [[0xFF, 0x7F]];
    InStageAtZero(Arith16, 129, [0, 0], -129, [0xFF, 0x7F]);
  }

  lemma Interesting16Yields()
    ensures [0xFF, 0x7F] in StageOutput(Interesting16, 129, [0, 0])
  {
    MinusOneTwentyNine();
    assert Interesting16Be([0, 0], 0, 129, -129) == [[0xFF, 0x7F]];
    InStageAtZero(Interesting16, 129, [0, 0], -129, [0xFF, 0x7F]);
  }
}
