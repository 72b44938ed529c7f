/**
 * The arithmetic and interesting-value stages.  Each one walks the seed
 * index by index and, at each index, goes through a list of items (deltas
 * or table values), writing a 1-, 2- or 4-byte field into a fresh copy of
 * the seed.  A candidate is dropped when an earlier stage would already have
 * produced it: by a run of flipped bits, by a smaller arithmetic step, or by
 * a narrower interesting value.  Module StageDisjointness proves what those
 * filters achieve.
 */
module ValueStages {
  import opened Wrappers
  import opened Bytes
  import ParamGen

  datatype Stage = Arith8 | Arith16 | Arith32 | Interesting8 | Interesting16 | Interesting32
                 | Interesting32AsWritten

  /** The width in bytes of the field a stage writes. */
  function Width(stage: Stage): (w: nat)
    ensures w == 1 || w == 2 || w == 4
  {
    match stage
    case Arith8 | Interesting8 => 1
    case Arith16 | Interesting16 => 2
    case _ => 4
  }

  /** A field of the stage's width fits at index. */
  predicate ValidIndex(stage: Stage, buf: seq<bv8>, index: int)
  {
    0 <= index && index + Width(stage) <= |buf|
  }

  /** `arithValsToAdd`: 1, -1, 2, -2, ..., arithMax, -arithMax. */
  function ArithDeltas(arithMax: int): (r: seq<int>)
    ensures |r| == if arithMax > 0 then 2 * arithMax else 0
    ensures forall d :: d in r <==> d != 0 && -arithMax <= d <= arithMax
    decreases arithMax
  {
    if arithMax <= 0 then [] else ArithDeltas(arithMax - 1) + [arithMax, -arithMax]
  }

  /** The items a stage tries at every index, in order. */
  function Items(stage: Stage, arithMax: int): seq<int>
  {
    match stage
    case Arith8 | Arith16 | Arith32 => ArithDeltas(arithMax)
    case Interesting8 => ParamGen.INTERESTING_BYTE
    case Interesting16 => ParamGen.INTERESTING_SHORT
    case _ => ParamGen.INTERESTING_INT
  }

  // ------------------------------------------------------------- filters

  /** `orig.couldHaveBitFlippedTo(new)` for each width. */
  ghost predicate ByteReach(orig: bv8, v: bv8) { FlipReachable([orig], [v]) }
  ghost predicate ShortReach(orig: bv16, v: bv16) { FlipReachable(ShortToBytes(orig), ShortToBytes(v)) }
  ghost predicate IntReach(orig: bv32, v: bv32) { FlipReachable(IntToBytes(orig), IntToBytes(v)) }

  /** Both bytes of the short differ. */
  predicate AffectsBothBytes(orig: bv16, v: bv16)
  {
    ShortByte0(orig) != ShortByte0(v) && ShortByte1(orig) != ShortByte1(v)
  }

  /** More than two of the four bytes differ. */
  predicate AffectsMoreThanTwoBytes(orig: bv32, v: bv32)
  {
    (if IntByte0(orig) != IntByte0(v) then 1 else 0) + (if IntByte1(orig) != IntByte1(v) then 1 else 0)
    + (if IntByte2(orig) != IntByte2(v) then 1 else 0) + (if IntByte3(orig) != IntByte3(v) then 1 else 0) > 2
  }

  /** v lies in [orig - arithMax, orig + arithMax] as plain integers. */
  predicate InArithRange(orig: int, v: int, arithMax: int)
  {
    orig - arithMax <= v <= orig + arithMax
  }

  /** `couldBeArith` of the 8-bit stage: the signed byte is within arithMax. */
  predicate CouldBeArith8(orig: bv8, v: bv8, arithMax: int)
  {
    InArithRange(ByteToInt(orig), ByteToInt(v), arithMax)
  }

  /** `couldBeArith` of the 16-bit stage: within arithMax of orig or of orig byte-swapped, signed. */
  predicate CouldBeArith16(orig: bv16, v: bv16, arithMax: int)
  {
    InArithRange(ShortToInt(orig), ShortToInt(v), arithMax)
    || InArithRange(ShortToInt(ShortEndianSwapped(orig)), ShortToInt(v), arithMax)
  }

  /** `couldBeInteresting8` of the 16-bit stage: one byte kept and the other set to a table byte. */
  predicate CouldBeInteresting8In16(orig: bv16, v: bv16)
  {
    exists b :: b in ParamGen.INTERESTING_BYTE &&
      ((ShortByte0(orig) == ShortByte0(v) && ToByte(b) == ShortByte1(v))
       || (ToByte(b) == ShortByte0(v) && ShortByte1(orig) == ShortByte1(v)))
  }

  /** `byteArith(p)`: byte p moved by at most arithMax (signed) and every other byte kept. */
  predicate ByteArith(o: seq<bv8>, n: seq<bv8>, p: int, arithMax: int)
    requires |o| == 4 && |n| == 4
  {
    forall q :: 0 <= q < 4 ==>
      (q == p && InArithRange(ByteToInt(o[q]), ByteToInt(n[q]), arithMax)) || o[q] == n[q]
  }

  /** `shortArith(p)`: the little-endian short at p moved by at most arithMax and the bytes outside it kept. */
  predicate ShortArith(o: seq<bv8>, n: seq<bv8>, p: int, arithMax: int)
    requires |o| == 4 && |n| == 4
  {
    forall q :: 0 <= q < 4 ==>
      q == p + 1
      || (q == p && q < 3 && InArithRange(ShortToInt(GetShortLe(o, q)), ShortToInt(GetShortLe(n, q)), arithMax))
      || o[q] == n[q]
  }

  /** `couldBeArith` of the 32-bit stage, on the little-endian bytes of both ints. */
  predicate CouldBeArith32(orig: bv32, v: bv32, arithMax: int)
  {
    var o, n := IntToBytes(orig), IntToBytes(v);
    exists p :: 0 <= p < 4 && (ByteArith(o, n, p, arithMax) || (p < 3 && ShortArith(o, n, p, arithMax)))
  }

  /** `couldBeInteresting8` of the 32-bit stage: one byte set to a table byte, the other three kept. */
  predicate CouldBeInteresting8In32(orig: bv32, v: bv32)
  {
    exists b :: b in ParamGen.INTERESTING_BYTE &&
      ((ToByte(b) == IntByte0(v) && IntByte1(orig) == IntByte1(v) && IntByte2(orig) == IntByte2(v) && IntByte3(orig) == IntByte3(v))
       || (IntByte0(orig) == IntByte0(v) && ToByte(b) == IntByte1(v) && IntByte2(orig) == IntByte2(v) && IntByte3(orig) == IntByte3(v))
       || (IntByte0(orig) == IntByte0(v) && IntByte1(orig) == IntByte1(v) && ToByte(b) == IntByte2(v) && IntByte3(orig) == IntByte3(v))
       || (IntByte0(orig) == IntByte0(v) && IntByte1(orig) == IntByte1(v) && IntByte2(orig) == IntByte2(v) && ToByte(b) == IntByte3(v)))
  }

  /** Writing table short s at byte i of orig's bytes, in either byte order, gives v's bytes. */
  predicate Interesting16Hit(orig: bv32, v: bv32, i: int, s: int)
    requires 0 <= i < 3
  {
    PutShortLe(IntToBytes(orig), i, ToShort(s)) == IntToBytes(v)
    || PutShortBe(IntToBytes(orig), i, ToShort(s)) == IntToBytes(v)
  }

  /** `couldBeInteresting16` of the 32-bit stage. */
  predicate CouldBeInteresting16In32(orig: bv32, v: bv32)
  {
    exists i, j :: 0 <= i < 3 && 0 <= j < |ParamGen.INTERESTING_SHORT| && Interesting16Hit(orig, v, i, ParamGen.INTERESTING_SHORT[j])
  }

  /** A short written over a buffer replaces whatever was at its two bytes. */
  lemma PutShortOverwrites(s: seq<bv8>, t: seq<bv8>, i: int, v: bv16)
    requires 0 <= i && i + 2 <= |s| && OnlyChangedIn(s, t, i, i + 2)
    ensures PutShortLe(t, i, v) == PutShortLe(s, i, v)
    ensures PutShortBe(t, i, v) == PutShortBe(s, i, v)
  {
  }

  /**
   * `couldBeInteresting16`: writes every table short into a copy of orig's
   * bytes at 0, 1 and 2, first little- then big-endian, comparing after each
   * write, and restores the two bytes before moving on.
   */
  method CouldBeInteresting16In32Check(orig: bv32, v: bv32) returns (r: bool)
    ensures r == CouldBeInteresting16In32(orig, v)
  {
    ghost var o := IntToBytes(orig);
    var a := new bv8[4];
    a[0], a[1], a[2], a[3] := IntByte0(orig), IntByte1(orig), IntByte2(orig), IntByte3(orig);
    assert a[..] == o;
    var i := 0;
    while i < 3
      invariant 0 <= i <= 3
      invariant a[..] == o
      invariant forall i', j :: 0 <= i' < i && 0 <= j < |ParamGen.INTERESTING_SHORT| ==>
        !Interesting16Hit(orig, v, i', ParamGen.INTERESTING_SHORT[j])
    {
      var pre1, pre2 := a[i], a[i + 1];
      var hit := TryShortsAt(a, orig, v, i);
      if hit { return true; }
      RestoreShort(a, i, pre1, pre2, o);
      i := i + 1;
    }
    return false;
  }

  /** Puts back the two bytes saved before a pass, which undoes it. */
  method RestoreShort(a: array<bv8>, i: int, b0: bv8, b1: bv8, ghost o: seq<bv8>)
    requires 0 <= i && i + 2 <= a.Length && OnlyChangedIn(o, a[..], i, i + 2)
    requires o[i] == b0 && o[i + 1] == b1
    modifies a
    ensures a[..] == o
  {
    a[i] := b0;
    a[i + 1] := b1;
    assert forall k :: 0 <= k < |o| ==> a[k] == o[k];
  }

  /** One pass of `couldBeInteresting16` at byte i, which leaves bytes i and i + 1 overwritten. */
  method TryShortsAt(a: array<bv8>, orig: bv32, v: bv32, i: int) returns (hit: bool)
    requires 0 <= i < 3 && a[..] == IntToBytes(orig)
    modifies a
    ensures hit ==> exists j :: 0 <= j < |ParamGen.INTERESTING_SHORT| && Interesting16Hit(orig, v, i, ParamGen.INTERESTING_SHORT[j])
    ensures !hit ==> forall j :: 0 <= j < |ParamGen.INTERESTING_SHORT| ==> !Interesting16Hit(orig, v, i, ParamGen.INTERESTING_SHORT[j])
    ensures OnlyChangedIn(IntToBytes(orig), a[..], i, i + 2)
  {
    var table := ParamGen.INTERESTING_SHORT;
    hit := false;
    var j := 0;
    while j < |table|
      invariant 0 <= j <= |table|
      invariant OnlyChangedIn(IntToBytes(orig), a[..], i, i + 2)
      invariant forall j' :: 0 <= j' < j ==> !Interesting16Hit(orig, v, i, table[j'])
    {
      hit := TryShort(a, orig, v, i, table[j]);
      if hit { return; }
      j := j + 1;
    }
  }

  /** Writes one table short at byte i, little- then big-endian, comparing with v after each write. */
  method TryShort(a: array<bv8>, orig: bv32, v: bv32, i: int, s: int) returns (hit: bool)
    requires 0 <= i < 3 && a.Length == 4 && OnlyChangedIn(IntToBytes(orig), a[..], i, i + 2)
    modifies a
    ensures hit == Interesting16Hit(orig, v, i, s)
    ensures OnlyChangedIn(IntToBytes(orig), a[..], i, i + 2)
  {
    ghost var o := IntToBytes(orig);
    var short := ToShort(s);
    PutShortOverwrites(o, a[..], i, short);
    PutShortLeInPlace(a, i, short);
    if a[..] == IntToBytes(v) {
      return true;
    }
    PutShortOverwrites(o, a[..], i, short);
    PutShortBeInPlace(a, i, short);
    hit := a[..] == IntToBytes(v);
  }

  // ------------------------------------------------ candidates per item
  //
  // Each candidate is described twice: a compiled function that takes the
  // outcome of the (ghost) reachability checks as arguments, and a ghost
  // function that supplies the checks themselves.

  /** `stageArith8` at one index and delta: the byte plus the delta, wrapped. */
  function Arith8For(buf: seq<bv8>, index: int, d: int, flipped: bool): seq<seq<bv8>>
    requires 0 <= index < |buf|
  {
    if !flipped then [buf[index := ToByte(ByteToInt(buf[index]) + d)]] else []
  }

  ghost function Arith8Candidates(buf: seq<bv8>, index: int, d: int): seq<seq<bv8>>
    requires 0 <= index < |buf|
  {
    Arith8For(buf, index, d, ByteReach(buf[index], ToByte(ByteToInt(buf[index]) + d)))
  }

  /** `stageArith16` at one index and delta: the little-endian candidate, then the big-endian one. */
  ghost function Arith16Candidates(buf: seq<bv8>, index: int, d: int): seq<seq<bv8>>
    requires 0 <= index && index + 2 <= |buf|
  {
    Arith16Le(buf, index, d) + Arith16Be(buf, index, d)
  }

  /** The little-endian short plus the delta, kept when both bytes change and no bit flip reaches it. */
  function Arith16LeFor(buf: seq<bv8>, index: int, d: int, flipped: bool): seq<seq<bv8>>
    requires 0 <= index && index + 2 <= |buf|
  {
    var origLe := GetShortLe(buf, index);
    var newLe := ToShort(ShortToInt(origLe) + d);
    if AffectsBothBytes(origLe, newLe) && !flipped then [PutShortLe(buf, index, newLe)] else []
  }

  ghost function Arith16Le(buf: seq<bv8>, index: int, d: int): seq<seq<bv8>>
    requires 0 <= index && index + 2 <= |buf|
  {
    Arith16LeFor(buf, index, d, ShortReach(GetShortLe(buf, index), ToShort(ShortToInt(GetShortLe(buf, index)) + d)))
  }

  /** The big-endian short plus the delta, written back big-endian; the flip check reads it little-endian. */
  function Arith16BeFor(buf: seq<bv8>, index: int, d: int, flipped: bool): seq<seq<bv8>>
    requires 0 <= index && index + 2 <= |buf|
  {
    var origBe := GetShortBe(buf, index);
    var newBe := ToShort(ShortToInt(origBe) + d);
    if AffectsBothBytes(origBe, newBe) && !flipped then [PutShortBe(buf, index, newBe)] else []
  }

  ghost function Arith16Be(buf: seq<bv8>, index: int, d: int): seq<seq<bv8>>
    requires 0 <= index && index + 2 <= |buf|
  {
    Arith16BeFor(buf, index, d,
      ShortReach(GetShortLe(buf, index), ShortEndianSwapped(ToShort(ShortToInt(GetShortBe(buf, index)) + d))))
  }

  /** `stageArith32` at one index and delta; the int addition wraps. */
  ghost function Arith32Candidates(buf: seq<bv8>, index: int, d: int): seq<seq<bv8>>
    requires 0 <= index && index + 4 <= |buf|
  {
    Arith32Le(buf, index, ToInt(d)) + Arith32Be(buf, index, ToInt(d))
  }

  /** The little-endian int plus the delta, kept when more than two bytes change and no bit flip reaches it. */
  function Arith32LeFor(buf: seq<bv8>, index: int, delta: bv32, flipped: bool): seq<seq<bv8>>
    requires 0 <= index && index + 4 <= |buf|
  {
    var origLe := GetIntLe(buf, index);
    var newLe := origLe + delta;
    if AffectsMoreThanTwoBytes(origLe, newLe) && !flipped then [PutIntLe(buf, index, newLe)] else []
  }

  ghost function Arith32Le(buf: seq<bv8>, index: int, delta: bv32): seq<seq<bv8>>
    requires 0 <= index && index + 4 <= |buf|
  {
    Arith32LeFor(buf, index, delta, IntReach(GetIntLe(buf, index), GetIntLe(buf, index) + delta))
  }

  /** The big-endian int plus the delta, written back big-endian; the flip check reads it little-endian. */
  function Arith32BeFor(buf: seq<bv8>, index: int, delta: bv32, flipped: bool): seq<seq<bv8>>
    requires 0 <= index && index + 4 <= |buf|
  {
    var origBe := GetIntBe(buf, index);
    var newBe := origBe + delta;
    if AffectsMoreThanTwoBytes(origBe, newBe) && !flipped then [PutIntBe(buf, index, newBe)] else []
  }

  ghost function Arith32Be(buf: seq<bv8>, index: int, delta: bv32): seq<seq<bv8>>
    requires 0 <= index && index + 4 <= |buf|
  {
    Arith32BeFor(buf, index, delta, IntReach(GetIntLe(buf, index), IntEndianSwapped(GetIntBe(buf, index) + delta)))
  }

  /** `stageInteresting8` at one index and table byte. */
  function Interesting8For(buf: seq<bv8>, index: int, arithMax: int, v: int, flipped: bool): seq<seq<bv8>>
    requires 0 <= index < |buf|
  {
    if !CouldBeArith8(buf[index], ToByte(v), arithMax) && !flipped then [buf[index := ToByte(v)]] else []
  }

  ghost function Interesting8Candidates(buf: seq<bv8>, index: int, arithMax: int, v: int): seq<seq<bv8>>
    requires 0 <= index < |buf|
  {
    Interesting8For(buf, index, arithMax, v, ByteReach(buf[index], ToByte(v)))
  }

  /** `stageInteresting16` at one index and table short: little-endian, then big-endian. */
  ghost function Interesting16Candidates(buf: seq<bv8>, index: int, arithMax: int, v: int): seq<seq<bv8>>
    requires 0 <= index && index + 2 <= |buf|
  {
    Interesting16Le(buf, index, arithMax, v) + Interesting16Be(buf, index, arithMax, v)
  }

  function Interesting16LeFor(buf: seq<bv8>, index: int, arithMax: int, v: int, flipped: bool): seq<seq<bv8>>
    requires 0 <= index && index + 2 <= |buf|
  {
    var short := ToShort(v);
    var origLe := GetShortLe(buf, index);
    if !CouldBeArith16(origLe, short, arithMax) && !CouldBeInteresting8In16(origLe, short) && !flipped
    then [PutShortLe(buf, index, short)] else []
  }

  ghost function Interesting16Le(buf: seq<bv8>, index: int, arithMax: int, v: int): seq<seq<bv8>>
    requires 0 <= index && index + 2 <= |buf|
  {
    Interesting16LeFor(buf, index, arithMax, v, ShortReach(GetShortLe(buf, index), ToShort(v)))
  }

  /** The filters see the swapped short against the big-endian reading; the short is written big-endian. */
  function Interesting16BeFor(buf: seq<bv8>, index: int, arithMax: int, v: int, flipped: bool): seq<seq<bv8>>
    requires 0 <= index && index + 2 <= |buf|
  {
    var short := ToShort(v);
    var origBe := GetShortBe(buf, index);
    var shortBe := ShortEndianSwapped(short);
    if !CouldBeArith16(origBe, shortBe, arithMax) && !CouldBeInteresting8In16(origBe, shortBe) && !flipped
    then [PutShortBe(buf, index, short)] else []
  }

  ghost function Interesting16Be(buf: seq<bv8>, index: int, arithMax: int, v: int): seq<seq<bv8>>
    requires 0 <= index && index + 2 <= |buf|
  {
    Interesting16BeFor(buf, index, arithMax, v, ShortReach(GetShortLe(buf, index), ShortEndianSwapped(ToShort(v))))
  }

  /** `stageInteresting32` at one index and table int: little-endian, then big-endian. */
  ghost function Interesting32Candidates(buf: seq<bv8>, index: int, arithMax: int, v: int, asWritten: bool): seq<seq<bv8>>
    requires 0 <= index && index + 4 <= |buf|
  {
    Interesting32Le(buf, index, arithMax, v) + Interesting32Be(buf, index, arithMax, v, asWritten)
  }

  function Interesting32LeFor(buf: seq<bv8>, index: int, arithMax: int, v: int, interesting16: bool, flipped: bool): seq<seq<bv8>>
    requires 0 <= index && index + 4 <= |buf|
  {
    var i32 := ToInt(v);
    var origLe := GetIntLe(buf, index);
    if !CouldBeArith32(origLe, i32, arithMax) && !CouldBeInteresting8In32(origLe, i32) && !interesting16 && !flipped
    then [PutIntLe(buf, index, i32)] else []
  }

  ghost function Interesting32Le(buf: seq<bv8>, index: int, arithMax: int, v: int): seq<seq<bv8>>
    requires 0 <= index && index + 4 <= |buf|
  {
    Interesting32LeFor(buf, index, arithMax, v,
      CouldBeInteresting16In32(GetIntLe(buf, index), ToInt(v)), IntReach(GetIntLe(buf, index), ToInt(v)))
  }

  /**
   * The big-endian candidate is filtered as the swapped int.  As written it
   * is then stored big-endian in its swapped form, which is the little-endian
   * candidate again; the corrected stage stores the int itself big-endian,
   * whose little-endian reading is the swapped int the filters saw.
   */
  function Interesting32BeFor(buf: seq<bv8>, index: int, arithMax: int, v: int, asWritten: bool,
                              interesting16: bool, flipped: bool): seq<seq<bv8>>
    requires 0 <= index && index + 4 <= |buf|
  {
    var i32 := ToInt(v);
    var origLe, origBe := GetIntLe(buf, index), GetIntBe(buf, index);
    var intBe := IntEndianSwapped(i32);
    if !CouldBeArith32(origBe, intBe, arithMax) && !CouldBeInteresting8In32(origLe, intBe) && !interesting16 && !flipped
    then [PutIntBe(buf, index, if asWritten then intBe else i32)] else []
  }

  ghost function Interesting32Be(buf: seq<bv8>, index: int, arithMax: int, v: int, asWritten: bool): seq<seq<bv8>>
    requires 0 <= index && index + 4 <= |buf|
  {
    Interesting32BeFor(buf, index, arithMax, v, asWritten,
      CouldBeInteresting16In32(GetIntLe(buf, index), IntEndianSwapped(ToInt(v))),
      IntReach(GetIntLe(buf, index), IntEndianSwapped(ToInt(v))))
  }

  /** The candidates a stage yields at one index for one item. */
  ghost function Candidates(stage: Stage, arithMax: int, buf: seq<bv8>, index: int, item: int): seq<seq<bv8>>
    requires ValidIndex(stage, buf, index)
  {
    match stage
    case Arith8 => Arith8Candidates(buf, index, item)
    case Arith16 => Arith16Candidates(buf, index, item)
    case Arith32 => Arith32Candidates(buf, index, item)
    case Interesting8 => Interesting8Candidates(buf, index, arithMax, item)
    case Interesting16 => Interesting16Candidates(buf, index, arithMax, item)
    case Interesting32 => Interesting32Candidates(buf, index, arithMax, item, false)
    case Interesting32AsWritten => Interesting32Candidates(buf, index, arithMax, item, true)
  }

  /** The candidates at one index, item after item. */
  ghost function AtIndex(stage: Stage, arithMax: int, buf: seq<bv8>, index: int, items: seq<int>): seq<seq<bv8>>
    requires ValidIndex(stage, buf, index)
    decreases |items|
  {
    if items == [] then []
    else AtIndex(stage, arithMax, buf, index, items[..|items| - 1])
         + Candidates(stage, arithMax, buf, index, items[|items| - 1])
  }

  /** f(0) + f(1) + ... + f(count - 1). */
  ghost function Concat<T>(f: nat -> seq<T>, count: nat): seq<T>
  {
    if count == 0 then [] else Concat(f, count - 1) + f(count - 1)
  }

  /** The candidates at each index where the stage's field fits. */
  ghost function IndexCandidates(stage: Stage, arithMax: int, buf: seq<bv8>, items: seq<int>): nat -> seq<seq<bv8>>
  {
    (i: nat) => if ValidIndex(stage, buf, i) then AtIndex(stage, arithMax, buf, i, items) else []
  }

  /** The candidates at indices 0 .. count - 1, index after index. */
  ghost function Upto(stage: Stage, arithMax: int, buf: seq<bv8>, items: seq<int>, count: nat): seq<seq<bv8>>
    requires count == 0 || ValidIndex(stage, buf, count - 1)
  {
    Concat(IndexCandidates(stage, arithMax, buf, items), count)
  }

  /**
   * The indices a stage visits: every index where its field fits, except the
   * 16-bit arithmetic stage, which looks at index 0 only (and, corrected, only
   * when the seed has two bytes to read there).
   */
  function IndexCount(stage: Stage, buf: seq<bv8>): (n: nat)
    ensures n == 0 || ValidIndex(stage, buf, n - 1)
  {
    match stage
    case Arith8 | Interesting8 => |buf|
    case Arith16 => if |buf| >= 2 then 1 else 0
    case Interesting16 => if |buf| >= 1 then |buf| - 1 else 0
    case _ => if |buf| >= 3 then |buf| - 3 else 0
  }

  /** Everything a stage yields for a seed. */
  ghost function StageOutput(stage: Stage, arithMax: int, buf: seq<bv8>): seq<seq<bv8>>
  {
    Upto(stage, arithMax, buf, Items(stage, arithMax), IndexCount(stage, buf))
  }

  // ------------------------------------------------------------ methods

  // The per-item steps.  Each runs the bit-flip check (and, for 32-bit
  // interesting values, the 16-bit substitution check) and then builds the
  // candidates from the outcome.

  method TryArith8(buf: seq<bv8>, index: int, d: int) returns (out: seq<seq<bv8>>)
    requires 0 <= index < |buf|
    ensures out == Arith8Candidates(buf, index, d)
  {
    var flipped := ByteCouldHaveBitFlippedTo(buf[index], ToByte(ByteToInt(buf[index]) + d));
    out := Arith8For(buf, index, d, flipped);
  }

  method TryArith16(buf: seq<bv8>, index: int, d: int) returns (out: seq<seq<bv8>>)
    requires 0 <= index && index + 2 <= |buf|
    ensures out == Arith16Candidates(buf, index, d)
  {
    var le := TryArith16Le(buf, index, d);
    var be := TryArith16Be(buf, index, d);
    out := le + be;
  }

  method TryArith16Le(buf: seq<bv8>, index: int, d: int) returns (out: seq<seq<bv8>>)
    requires 0 <= index && index + 2 <= |buf|
    ensures out == Arith16Le(buf, index, d)
  {
    var flipped := ShortCouldHaveBitFlippedTo(GetShortLe(buf, index), ToShort(ShortToInt(GetShortLe(buf, index)) + d));
    out := Arith16LeFor(buf, index, d, flipped);
  }

  method TryArith16Be(buf: seq<bv8>, index: int, d: int) returns (out: seq<seq<bv8>>)
    requires 0 <= index && index + 2 <= |buf|
    ensures out == Arith16Be(buf, index, d)
  {
    var flipped := ShortCouldHaveBitFlippedTo(GetShortLe(buf, index),
                                              ShortEndianSwapped(ToShort(ShortToInt(GetShortBe(buf, index)) + d)));
    out := Arith16BeFor(buf, index, d, flipped);
  }

  method TryArith32(buf: seq<bv8>, index: int, d: int) returns (out: seq<seq<bv8>>)
    requires 0 <= index && index + 4 <= |buf|
    ensures out == Arith32Candidates(buf, index, d)
  {
    var le := TryArith32Le(buf, index, ToInt(d));
    var be := TryArith32Be(buf, index, ToInt(d));
    out := le + be;
  }

  method TryArith32Le(buf: seq<bv8>, index: int, delta: bv32) returns (out: seq<seq<bv8>>)
    requires 0 <= index && index + 4 <= |buf|
    ensures out == Arith32Le(buf, index, delta)
  {
    var flipped := IntCouldHaveBitFlippedTo(GetIntLe(buf, index), GetIntLe(buf, index) + delta);
    out := Arith32LeFor(buf, index, delta, flipped);
  }

  method TryArith32Be(buf: seq<bv8>, index: int, delta: bv32) returns (out: seq<seq<bv8>>)
    requires 0 <= index && index + 4 <= |buf|
    ensures out == Arith32Be(buf, index, delta)
  {
    var flipped := IntCouldHaveBitFlippedTo(GetIntLe(buf, index), IntEndianSwapped(GetIntBe(buf, index) + delta));
    out := Arith32BeFor(buf, index, delta, flipped);
  }

  method TryInteresting8(buf: seq<bv8>, index: int, arithMax: int, v: int) returns (out: seq<seq<bv8>>)
    requires 0 <= index < |buf|
    ensures out == Interesting8Candidates(buf, index, arithMax, v)
  {
    var flipped := ByteCouldHaveBitFlippedTo(buf[index], ToByte(v));
    out := Interesting8For(buf, index, arithMax, v, flipped);
  }

  method TryInteresting16(buf: seq<bv8>, index: int, arithMax: int, v: int) returns (out: seq<seq<bv8>>)
    requires 0 <= index && index + 2 <= |buf|
    ensures out == Interesting16Candidates(buf, index, arithMax, v)
  {
    var le := TryInteresting16Le(buf, index, arithMax, v);
    var be := TryInteresting16Be(buf, index, arithMax, v);
    out := le + be;
  }

  method TryInteresting16Le(buf: seq<bv8>, index: int, arithMax: int, v: int) returns (out: seq<seq<bv8>>)
    requires 0 <= index && index + 2 <= |buf|
    ensures out == Interesting16Le(buf, index, arithMax, v)
  {
    var flipped := ShortCouldHaveBitFlippedTo(GetShortLe(buf, index), ToShort(v));
    out := Interesting16LeFor(buf, index, arithMax, v, flipped);
  }

  method TryInteresting16Be(buf: seq<bv8>, index: int, arithMax: int, v: int) returns (out: seq<seq<bv8>>)
    requires 0 <= index && index + 2 <= |buf|
    ensures out == Interesting16Be(buf, index, arithMax, v)
  {
    var flipped := ShortCouldHaveBitFlippedTo(GetShortLe(buf, index), ShortEndianSwapped(ToShort(v)));
    out := Interesting16BeFor(buf, index, arithMax, v, flipped);
  }

  method TryInteresting32(buf: seq<bv8>, index: int, arithMax: int, v: int, asWritten: bool) returns (out: seq<seq<bv8>>)
    requires 0 <= index && index + 4 <= |buf|
    ensures out == Interesting32Candidates(buf, index, arithMax, v, asWritten)
  {
    var le := TryInteresting32Le(buf, index, arithMax, v);
    var be := TryInteresting32Be(buf, index, arithMax, v, asWritten);
    out := le + be;
  }

  method TryInteresting32Le(buf: seq<bv8>, index: int, arithMax: int, v: int) returns (out: seq<seq<bv8>>)
    requires 0 <= index && index + 4 <= |buf|
    ensures out == Interesting32Le(buf, index, arithMax, v)
  {
    var interesting16 := CouldBeInteresting16In32Check(GetIntLe(buf, index), ToInt(v));
    var flipped := IntCouldHaveBitFlippedTo(GetIntLe(buf, index), ToInt(v));
    out := Interesting32LeFor(buf, index, arithMax, v, interesting16, flipped);
  }

  method TryInteresting32Be(buf: seq<bv8>, index: int, arithMax: int, v: int, asWritten: bool) returns (out: seq<seq<bv8>>)
    requires 0 <= index && index + 4 <= |buf|
    ensures out == Interesting32Be(buf, index, arithMax, v, asWritten)
  {
    var interesting16 := CouldBeInteresting16In32Check(GetIntLe(buf, index), IntEndianSwapped(ToInt(v)));
    var flipped := IntCouldHaveBitFlippedTo(GetIntLe(buf, index), IntEndianSwapped(ToInt(v)));
    out := Interesting32BeFor(buf, index, arithMax, v, asWritten, interesting16, flipped);
  }

  /** The candidates of one stage at one index for one item. */
  method TryItem(stage: Stage, arithMax: int, buf: seq<bv8>, index: int, item: int) returns (out: seq<seq<bv8>>)
    requires ValidIndex(stage, buf, index)
    ensures out == Candidates(stage, arithMax, buf, index, item)
  {
    match stage
    case Arith8 => out := TryArith8(buf, index, item);
    case Arith16 => out := TryArith16(buf, index, item);
    case Arith32 => out := TryArith32(buf, index, item);
    case Interesting8 => out := TryInteresting8(buf, index, arithMax, item);
    case Interesting16 => out := TryInteresting16(buf, index, arithMax, item);
    case Interesting32 => out := TryInteresting32(buf, index, arithMax, item, false);
    case Interesting32AsWritten => out := TryInteresting32(buf, index, arithMax, item, true);
  }

  lemma AtIndexSnoc(stage: Stage, arithMax: int, buf: seq<bv8>, index: int, items: seq<int>, j: int)
    requires ValidIndex(stage, buf, index) && 0 <= j < |items|
    ensures AtIndex(stage, arithMax, buf, index, items[..j + 1])
         == AtIndex(stage, arithMax, buf, index, items[..j]) + Candidates(stage, arithMax, buf, index, items[j])
  {
    assert items[..j + 1][..j] == items[..j];
  }

  /** The candidates up to one more index are those up to it and then its own. */
  lemma UptoSnoc(stage: Stage, arithMax: int, buf: seq<bv8>, items: seq<int>, index: nat)
    requires ValidIndex(stage, buf, index)
    ensures Upto(stage, arithMax, buf, items, index + 1)
         == Upto(stage, arithMax, buf, items, index) + AtIndex(stage, arithMax, buf, index, items)
  {
    assert IndexCandidates(stage, arithMax, buf, items)(index) == AtIndex(stage, arithMax, buf, index, items);
  }

  /** The stage loop: for each index below count, every item in order. */
  method RunStage(stage: Stage, arithMax: int, buf: seq<bv8>, items: seq<int>, count: nat) returns (out: seq<seq<bv8>>)
    requires count == 0 || ValidIndex(stage, buf, count - 1)
    ensures out == Upto(stage, arithMax, buf, items, count)
  {
    out := [];
    var index := 0;
    while index < count
      invariant 0 <= index <= count
      invariant out == Upto(stage, arithMax, buf, items, index)
    {
      var c := RunIndex(stage, arithMax, buf, index, items);
      UptoSnoc(stage, arithMax, buf, items, index);
      out := out + c;
      index := index + 1;
    }
  }

  /** The inner loop at one index: each item's candidates, appended in item order. */
  method RunIndex(stage: Stage, arithMax: int, buf: seq<bv8>, index: int, items: seq<int>) returns (out: seq<seq<bv8>>)
    requires ValidIndex(stage, buf, index)
    ensures out == AtIndex(stage, arithMax, buf, index, items)
  {
    out := [];
    var j := 0;
    while j < |items|
      invariant 0 <= j <= |items|
      invariant out == AtIndex(stage, arithMax, buf, index, items[..j])
    {
      var c := TryItem(stage, arithMax, buf, index, items[j]);
      AtIndexSnoc(stage, arithMax, buf, index, items, j);
      out := out + c;
      j := j + 1;
    }
    assert items[..|items|] == items;
  }

  method StageArith8(buf: seq<bv8>, arithMax: int) returns (out: seq<seq<bv8>>)
    ensures out == StageOutput(Arith8, arithMax, buf)
  {
    out := RunStage(Arith8, arithMax, buf, ArithDeltas(arithMax), |buf|);
  }

  /** `stageArith16` as written: index 0 is read whatever the seed's length, which throws below two bytes. */
  method StageArith16AsWritten(buf: seq<bv8>, arithMax: int) returns (out: Option<seq<seq<bv8>>>)
    ensures out.None? <==> |buf| < 2
    ensures out.Some? ==> out.value == Upto(Arith16, arithMax, buf, ArithDeltas(arithMax), 1)
  {
    if |buf| < 2 { return None; }
    var r := RunStage(Arith16, arithMax, buf, ArithDeltas(arithMax), 1);
    out := Some(r);
  }

  /** `stageArith16`, corrected to yield nothing for a seed too short to hold a short. */
  method StageArith16(buf: seq<bv8>, arithMax: int) returns (out: seq<seq<bv8>>)
    ensures out == StageOutput(Arith16, arithMax, buf)
  {
    out := RunStage(Arith16, arithMax, buf, ArithDeltas(arithMax), if |buf| >= 2 then 1 else 0);
  }

  method StageArith32(buf: seq<bv8>, arithMax: int) returns (out: seq<seq<bv8>>)
    ensures out == StageOutput(Arith32, arithMax, buf)
  {
    out := RunStage(Arith32, arithMax, buf, ArithDeltas(arithMax), IndexCount(Arith32, buf));
  }

  method StageInteresting8(buf: seq<bv8>, arithMax: int) returns (out: seq<seq<bv8>>)
    ensures out == StageOutput(Interesting8, arithMax, buf)
  {
    out := RunStage(Interesting8, arithMax, buf, ParamGen.INTERESTING_BYTE, |buf|);
  }

  method StageInteresting16(buf: seq<bv8>, arithMax: int) returns (out: seq<seq<bv8>>)
    ensures out == StageOutput(Interesting16, arithMax, buf)
  {
    out := RunStage(Interesting16, arithMax, buf, ParamGen.INTERESTING_SHORT, IndexCount(Interesting16, buf));
  }

  /** `stageInteresting32` as written, with the swapped int stored big-endian. */
  method StageInteresting32AsWritten(buf: seq<bv8>, arithMax: int) returns (out: seq<seq<bv8>>)
    ensures out == StageOutput(Interesting32AsWritten, arithMax, buf)
  {
    out := RunStage(Interesting32AsWritten, arithMax, buf, ParamGen.INTERESTING_INT, IndexCount(Interesting32AsWritten, buf));
  }

  /** `stageInteresting32`, corrected to store the int itself big-endian. */
  method StageInteresting32(buf: seq<bv8>, arithMax: int) returns (out: seq<seq<bv8>>)
    ensures out == StageOutput(Interesting32, arithMax, buf)
  {
    out := RunStage(Interesting32, arithMax, buf, ParamGen.INTERESTING_INT, IndexCount(Interesting32, buf));
  }
}
