/**
 * The randomised havoc stage: each of `havocCycles` candidates is a fresh
 * copy of the seed put through a random stack of tweaks, each tweak picked at
 * random from the configured list.  Random draws come from the `Rand`
 * oracle; the clock reading that `chooseBlockLen` compares with the start of
 * fuzzing is a parameter.
 */
module Havoc {
  import opened Wrappers
  import opened Bytes
  import opened JavaRandom
  import JavaInts
  import ParamGen

  datatype Tweak =
    | FlipSingleBit
    | InterestingByte | InterestingShort | InterestingInt
    | SubtractFromByte | AddToByte
    | SubtractFromShort | AddToShort
    | SubtractFromInt | AddToInt
    | RandomByte
    | DeleteBytes
    | CloneOrInsertBytes
    | OverwriteRandomOrFixedBytes

  /** `Havoc.suggestedTweaks`, in order; `deleteBytes` is listed twice, doubling its odds. */
  const SUGGESTED_TWEAKS: seq<Tweak> := [
    FlipSingleBit, InterestingByte, InterestingShort, InterestingInt,
    SubtractFromByte, AddToByte, SubtractFromShort, AddToShort, SubtractFromInt, AddToInt,
    RandomByte, DeleteBytes, DeleteBytes, CloneOrInsertBytes, OverwriteRandomOrFixedBytes]

  /** `ByteArrayParamGen.Config`, without the cache and queue factories and the random source. */
  datatype Config = Config(
    initialValues: seq<seq<bv8>>,
    dictionary: seq<seq<bv8>>,
    havocTweaks: seq<Tweak>,
    arithMax: int,
    havocCycles: int,
    havocStackPower: int,
    havocBlockSmall: int,
    havocBlockMedium: int,
    havocBlockLarge: int,
    havocBlockXLarge: int,
    maxInput: int)

  /** The defaults: one initial value, the bytes of "test". */
  const DEFAULT_CONFIG: Config := Config(
    [[0x74, 0x65, 0x73, 0x74]], [], SUGGESTED_TWEAKS,
    35, 1024, 7, 32, 128, 1500, 32768, 1024 * 1024)

  /**
   * What the havoc code needs of the configuration so that no `nextInt` it
   * makes gets a bound below one: a positive arithMax and stack power, a
   * non-empty tweak list and ordered block sizes starting at one or more.
   */
  predicate ValidConfig(conf: Config)
  {
    conf.arithMax >= 1 && conf.havocStackPower >= 1 && |conf.havocTweaks| >= 1
    && 1 <= conf.havocBlockSmall <= conf.havocBlockMedium <= conf.havocBlockLarge <= conf.havocBlockXLarge
  }

  // ------------------------------------------------------ chooseBlockLen

  /** The generator's `startMs` and `queueCycle`, and the clock reading `chooseBlockLen` makes. */
  datatype Progress = Progress(startMs: int, queueCycle: nat, nowMs: int)

  /** The generator sets `startMs` together with the first increment of `queueCycle`. */
  predicate ValidProgress(p: Progress)
  {
    p.startMs > 0 ==> p.queueCycle >= 1
  }

  predicate Over10Min(p: Progress)
  {
    p.startMs > 0 && p.nowMs - p.startMs > 10 * 60 * 1000
  }

  function Min(x: int, y: int): int { if x <= y then x else y }

  /** `rLim`: how many size tiers are open; only the smallest before ten minutes have passed. */
  function TierCount(p: Progress): (r: int)
    requires ValidProgress(p)
    ensures 1 <= r <= 3
    ensures !Over10Min(p) ==> r == 1
  {
    if Over10Min(p) then Min(p.queueCycle, 3) else 1
  }

  /**
   * `chooseBlockLen(limit)`: a tier's range, its lower end reset to 1 when
   * it is not below the limit, its upper end capped at the limit.
   */
  method ChooseBlockLen(rand: Rand, conf: Config, p: Progress, limit: int) returns (len: int)
    requires ValidConfig(conf) && ValidProgress(p) && limit >= 1
    modifies rand
    ensures 1 <= len <= limit && len <= conf.havocBlockXLarge
    ensures !Over10Min(p) ==> len <= conf.havocBlockSmall
  {
    var tier := rand.NextInt(TierCount(p));
    var minValue, maxValue;
    if tier == 0 {
      minValue, maxValue := 1, conf.havocBlockSmall;
    } else if tier == 1 {
      minValue, maxValue := conf.havocBlockSmall, conf.havocBlockMedium;
    } else {
      var huge := rand.NextInt(10);
      if huge == 0 {
        minValue, maxValue := conf.havocBlockLarge, conf.havocBlockXLarge;
      } else {
        minValue, maxValue := conf.havocBlockMedium, conf.havocBlockLarge;
      }
    }
    if minValue >= limit {
      minValue := 1;
    }
    var extra := rand.NextInt(Min(maxValue, limit) - minValue + 1);
    len := minValue + extra;
  }

  // ------------------------------------------------- what a tweak may do

  function ByteMinus(b: bv8, k: int): bv8 { ToByte(ByteToInt(b) - k) }
  function BytePlus(b: bv8, k: int): bv8 { ToByte(ByteToInt(b) + k) }
  function ShortMinus(s: bv16, k: int): bv16 { ToShort(ShortToInt(s) - k) }
  function ShortPlus(s: bv16, k: int): bv16 { ToShort(ShortToInt(s) + k) }
  function IntMinus(x: bv32, k: int): bv32 { x - ToInt(k) }
  function IntPlus(x: bv32, k: int): bv32 { x + ToInt(k) }

  /** The values a byte tweak may store where the byte `orig` was. */
  ghost predicate ByteChoice(t: Tweak, conf: Config, orig: bv8, v: bv8)
  {
    match t
    case InterestingByte =>
      exists j :: 0 <= j < |ParamGen.INTERESTING_BYTE| && v == ToByte(ParamGen.INTERESTING_BYTE[j])
    case SubtractFromByte => exists k :: 1 <= k <= conf.arithMax && v == ByteMinus(orig, k)
    case AddToByte => exists k :: 1 <= k <= conf.arithMax && v == BytePlus(orig, k)
    case RandomByte => v != orig
    case _ => false
  }

  ghost predicate ShortChoice(t: Tweak, conf: Config, orig: bv16, v: bv16)
  {
    match t
    case InterestingShort =>
      exists j :: 0 <= j < |ParamGen.INTERESTING_SHORT| && v == ToShort(ParamGen.INTERESTING_SHORT[j])
    case SubtractFromShort => exists k :: 1 <= k <= conf.arithMax && v == ShortMinus(orig, k)
    case AddToShort => exists k :: 1 <= k <= conf.arithMax && v == ShortPlus(orig, k)
    case _ => false
  }

  ghost predicate IntChoice(t: Tweak, conf: Config, orig: bv32, v: bv32)
  {
    match t
    case InterestingInt =>
      exists j :: 0 <= j < |ParamGen.INTERESTING_INT| && v == ToInt(ParamGen.INTERESTING_INT[j])
    case SubtractFromInt => exists k :: 1 <= k <= conf.arithMax && v == IntMinus(orig, k)
    case AddToInt => exists k :: 1 <= k <= conf.arithMax && v == IntPlus(orig, k)
    case _ => false
  }

  /** One byte replaced by a value the tweak may choose for it; the length is kept. */
  ghost predicate ByteTweaked(t: Tweak, conf: Config, s: seq<bv8>, r: seq<bv8>)
  {
    |r| == |s| && exists i :: 0 <= i < |s| && r == s[i := r[i]] && ByteChoice(t, conf, s[i], r[i])
  }

  /** The short at i, read and written little-endian, replaced by a value the tweak may choose. */
  ghost predicate ShortLeAt(t: Tweak, conf: Config, s: seq<bv8>, r: seq<bv8>, i: int)
    requires 0 <= i && i + 2 <= |s| == |r|
  {
    r == PutShortLe(s, i, GetShortLe(r, i)) && ShortChoice(t, conf, GetShortLe(s, i), GetShortLe(r, i))
  }

  ghost predicate ShortBeAt(t: Tweak, conf: Config, s: seq<bv8>, r: seq<bv8>, i: int)
    requires 0 <= i && i + 2 <= |s| == |r|
  {
    r == PutShortBe(s, i, GetShortBe(r, i)) && ShortChoice(t, conf, GetShortBe(s, i), GetShortBe(r, i))
  }

  ghost predicate IntLeAt(t: Tweak, conf: Config, s: seq<bv8>, r: seq<bv8>, i: int)
    requires 0 <= i && i + 4 <= |s| == |r|
  {
    r == PutIntLe(s, i, GetIntLe(r, i)) && IntChoice(t, conf, GetIntLe(s, i), GetIntLe(r, i))
  }

  ghost predicate IntBeAt(t: Tweak, conf: Config, s: seq<bv8>, r: seq<bv8>, i: int)
    requires 0 <= i && i + 4 <= |s| == |r|
  {
    r == PutIntBe(s, i, GetIntBe(r, i)) && IntChoice(t, conf, GetIntBe(s, i), GetIntBe(r, i))
  }

  /** Under two bytes nothing changes; otherwise one short, read and written in one byte order, is replaced. */
  ghost predicate ShortTweaked(t: Tweak, conf: Config, s: seq<bv8>, r: seq<bv8>)
  {
    if |s| < 2 then r == s
    else |r| == |s| && exists i :: 0 <= i < |s| - 1 && (ShortLeAt(t, conf, s, r, i) || ShortBeAt(t, conf, s, r, i))
  }

  ghost predicate IntTweaked(t: Tweak, conf: Config, s: seq<bv8>, r: seq<bv8>)
  {
    if |s| < 4 then r == s
    else |r| == |s| && exists i :: 0 <= i < |s| - 3 && (IntLeAt(t, conf, s, r, i) || IntBeAt(t, conf, s, r, i))
  }

  ghost predicate BitFlipped(s: seq<bv8>, r: seq<bv8>)
  {
    exists j: nat :: j < 8 * |s| && r == FlipBitAt(s, j)
  }

  /** Under two bytes nothing changes; otherwise a block of 1 .. size - 1 bytes is removed. */
  ghost predicate BytesDeleted(s: seq<bv8>, r: seq<bv8>)
  {
    if |s| < 2 then r == s
    else exists from, len :: 1 <= len <= |s| - 1 && 0 <= from <= |s| - len && r == Removed(s, from, len)
  }

  function Slice(s: seq<bv8>, from: int, len: int): seq<bv8>
    requires 0 <= from && 0 <= len && from + len <= |s|
  {
    s[from..from + len]
  }

  /** The block repeats one byte. */
  predicate Uniform(block: seq<bv8>)
  {
    forall k :: 0 <= k < |block| ==> block[k] == block[0]
  }

  /** The block is a copy of some stretch of s. */
  ghost predicate SliceOf(block: seq<bv8>, s: seq<bv8>)
  {
    exists from :: 0 <= from && from + |block| <= |s| && block == Slice(s, from, |block|)
  }

  function Inserted(s: seq<bv8>, to: int, block: seq<bv8>): (r: seq<bv8>)
    requires 0 <= to <= |s|
    ensures |r| == |s| + |block|
  {
    s[..to] + block + s[to..]
  }

  /**
   * At or past the size limit nothing changes; otherwise a block of 1 ..
   * havocBlockXLarge bytes is inserted before some byte: a copy of a stretch
   * of the input, or one byte repeated.
   */
  ghost predicate BytesInserted(conf: Config, s: seq<bv8>, r: seq<bv8>)
  {
    if |s| + conf.havocBlockXLarge >= conf.maxInput then r == s
    else exists to, block :: InsertedAt(conf, s, r, to, block)
  }

  ghost predicate InsertedAt(conf: Config, s: seq<bv8>, r: seq<bv8>, to: int, block: seq<bv8>)
  {
    0 <= to < |s| && r == Inserted(s, to, block) && 1 <= |block| <= conf.havocBlockXLarge
    && ((|block| <= |s| && SliceOf(block, s)) || Uniform(block))
  }

  /** Under two bytes nothing changes; otherwise 1 .. size - 1 bytes are overwritten by a copied stretch or one repeated byte. */
  ghost predicate BytesOverwritten(s: seq<bv8>, r: seq<bv8>)
  {
    if |s| < 2 then r == s
    else exists to, block :: OverwrittenAt(s, r, to, block)
  }

  ghost predicate OverwrittenAt(s: seq<bv8>, r: seq<bv8>, to: int, block: seq<bv8>)
  {
    0 <= to && 1 <= |block| <= |s| - 1 && to + |block| <= |s|
    && r == Overwritten(s, to, block) && (SliceOf(block, s) || Uniform(block))
  }

  /** What applying tweak t to s may give. */
  ghost predicate TweakOutcome(t: Tweak, conf: Config, s: seq<bv8>, r: seq<bv8>)
  {
    match t
    case FlipSingleBit => BitFlipped(s, r)
    case InterestingByte | SubtractFromByte | AddToByte | RandomByte => ByteTweaked(t, conf, s, r)
    case InterestingShort | SubtractFromShort | AddToShort => ShortTweaked(t, conf, s, r)
    case InterestingInt | SubtractFromInt | AddToInt => IntTweaked(t, conf, s, r)
    case DeleteBytes => BytesDeleted(s, r)
    case CloneOrInsertBytes => BytesInserted(conf, s, r)
    case OverwriteRandomOrFixedBytes => BytesOverwritten(s, r)
  }

  /** The tweaks that draw `nextInt(size)` unguarded and so throw on an empty array. */
  predicate ThrowsOnEmpty(t: Tweak, conf: Config)
  {
    t.FlipSingleBit? || t.InterestingByte? || t.SubtractFromByte? || t.AddToByte? || t.RandomByte?
    || (t.CloneOrInsertBytes? && conf.havocBlockXLarge < conf.maxInput)
  }

  /**
   * Sizes: only `deleteBytes` shrinks and only `cloneOrInsertBytes` grows the
   * array; a non-empty array stays non-empty, and an array below maxInput
   * stays below it.
   */
  lemma TweakSize(t: Tweak, conf: Config, s: seq<bv8>, r: seq<bv8>)
    requires TweakOutcome(t, conf, s, r)
    ensures |s| >= 1 ==> |r| >= 1
    ensures |s| < conf.maxInput ==> |r| < conf.maxInput
    ensures t.DeleteBytes? ==> |r| <= |s|
    ensures t.CloneOrInsertBytes? ==> |r| >= |s|
    ensures !t.DeleteBytes? && !t.CloneOrInsertBytes? ==> |r| == |s|
  {
    match t
    case FlipSingleBit =>
      var j: nat :| j < 8 * |s| && r == FlipBitAt(s, j);
    case DeleteBytes =>
      if |s| >= 2 {
        var from, len :| 1 <= len <= |s| - 1 && 0 <= from <= |s| - len && r == Removed(s, from, len);
      }
    case CloneOrInsertBytes =>
      if |s| + conf.havocBlockXLarge < conf.maxInput {
        var to, block :| InsertedAt(conf, s, r, to, block);
      }
    case OverwriteRandomOrFixedBytes =>
      if |s| >= 2 {
        var to, block :| OverwrittenAt(s, r, to, block);
      }
    case _ =>
  }

  // ------------------------------------------------------------- tweaks

  /** The byte `(nextInt(256) - 128).toByte()` the i-th draw gives. */
  function DrawnByte(rand: Rand, i: nat): bv8
  {
    ToByte(rand.Draw(i, 256) - 128)
  }

  ghost predicate VariesAfter(rand: Rand, c: nat)
  {
    exists k: nat, k': nat :: c <= k && c <= k' && DrawnByte(rand, k) != DrawnByte(rand, k')
  }

  /**
   * The random source does not settle on one byte value: after any number of
   * draws two later draws still give different bytes.  Without this the
   * `randomByte` tweak's retry loop need not end.
   */
  ghost predicate DrawsVary(rand: Rand)
  {
    forall c: nat :: VariesAfter(rand, c)
  }

  /** `randomByte`'s loop: draw bytes until one differs from `orig`. */
  method DrawDifferentByte(rand: Rand, orig: bv8) returns (b: bv8)
    requires DrawsVary(rand)
    modifies rand
    ensures b != orig
  {
    assert VariesAfter(rand, rand.calls);
    ghost var k: nat, k': nat :| rand.calls <= k && rand.calls <= k' && DrawnByte(rand, k) != DrawnByte(rand, k');
    ghost var until: nat := if DrawnByte(rand, k) != orig then k else k';
    b := orig;
    while true
      invariant rand.calls <= until
      decreases until - rand.calls
    {
      var d := rand.NextInt(256);
      b := ToByte(d - 128);
      if b != orig {
        return;
      }
    }
  }

  /** `flipSingleBit`: one random bit of the array flipped in place. */
  method FlipSingleBitTweak(rand: Rand, a: array<bv8>) returns (ok: bool)
    modifies rand, a
    ensures ok <==> a.Length >= 1
    ensures ok ==> a[..] == FlipBitAt(old(a[..]), rand.Draw(old(rand.calls), 8 * a.Length))
    ensures ok ==> BitFlipped(old(a[..]), a[..])
  {
    if a.Length == 0 {
      return false;  // nextInt(0) throws
    }
    var bit := rand.NextInt(a.Length * 8);
    FlipBit(a, bit);
    ok := true;
  }

  /** The new byte of a byte tweak. */
  method NewByte(t: Tweak, rand: Rand, conf: Config, orig: bv8) returns (v: bv8)
    requires t.InterestingByte? || t.SubtractFromByte? || t.AddToByte? || t.RandomByte?
    requires ValidConfig(conf) && DrawsVary(rand)
    modifies rand
    ensures ByteChoice(t, conf, orig, v)
  {
    if t.InterestingByte? {
      var j := rand.NextInt(|ParamGen.INTERESTING_BYTE|);
      v := ToByte(ParamGen.INTERESTING_BYTE[j]);
    } else if t.SubtractFromByte? {
      var d := rand.NextInt(conf.arithMax);
      v := ByteMinus(orig, 1 + d);
    } else if t.AddToByte? {
      var d := rand.NextInt(conf.arithMax);
      v := BytePlus(orig, 1 + d);
    } else {
      v := DrawDifferentByte(rand, orig);
    }
  }

  /** `tweakRandomByte`: a random index, its byte replaced in place. */
  method ByteTweak(t: Tweak, rand: Rand, conf: Config, a: array<bv8>) returns (ok: bool)
    requires t.InterestingByte? || t.SubtractFromByte? || t.AddToByte? || t.RandomByte?
    requires ValidConfig(conf) && DrawsVary(rand)
    modifies rand, a
    ensures ok <==> a.Length >= 1
    ensures ok ==> ByteTweaked(t, conf, old(a[..]), a[..])
  {
    if a.Length == 0 {
      return false;  // nextInt(0) throws
    }
    var index := rand.NextInt(a.Length);
    var v := NewByte(t, rand, conf, a[index]);
    a[index] := v;
    ok := true;
    assert a[..] == old(a[..])[index := a[..][index]];
  }

  method NewShort(t: Tweak, rand: Rand, conf: Config, orig: bv16) returns (v: bv16)
    requires t.InterestingShort? || t.SubtractFromShort? || t.AddToShort?
    requires ValidConfig(conf)
    modifies rand
    ensures ShortChoice(t, conf, orig, v)
  {
    if t.InterestingShort? {
      var j := rand.NextInt(|ParamGen.INTERESTING_SHORT|);
      v := ToShort(ParamGen.INTERESTING_SHORT[j]);
    } else if t.SubtractFromShort? {
      var d := rand.NextInt(conf.arithMax);
      v := ShortMinus(orig, 1 + d);
    } else {
      var d := rand.NextInt(conf.arithMax);
      v := ShortPlus(orig, 1 + d);
    }
  }

  /** `tweakRandomShort`: with two bytes or more, a random short replaced in place, little- or big-endian at random. */
  method ShortTweak(t: Tweak, rand: Rand, conf: Config, a: array<bv8>)
    requires t.InterestingShort? || t.SubtractFromShort? || t.AddToShort?
    requires ValidConfig(conf)
    modifies rand, a
    ensures ShortTweaked(t, conf, old(a[..]), a[..])
  {
    if a.Length >= 2 {
      var index := rand.NextInt(a.Length - 1);
      var le := rand.NextBoolean();
      if le {
        ShortTweakLe(t, rand, conf, a, index);
      } else {
        ShortTweakBe(t, rand, conf, a, index);
      }
    }
  }

  method ShortTweakLe(t: Tweak, rand: Rand, conf: Config, a: array<bv8>, index: int)
    requires t.InterestingShort? || t.SubtractFromShort? || t.AddToShort?
    requires ValidConfig(conf) && 0 <= index && index + 2 <= a.Length
    modifies rand, a
    ensures ShortLeAt(t, conf, old(a[..]), a[..], index)
  {
    var v := NewShort(t, rand, conf, GetShortLe(a[..], index));
    PutShortLeInPlace(a, index, v);
  }

  method ShortTweakBe(t: Tweak, rand: Rand, conf: Config, a: array<bv8>, index: int)
    requires t.InterestingShort? || t.SubtractFromShort? || t.AddToShort?
    requires ValidConfig(conf) && 0 <= index && index + 2 <= a.Length
    modifies rand, a
    ensures ShortBeAt(t, conf, old(a[..]), a[..], index)
  {
    var v := NewShort(t, rand, conf, GetShortBe(a[..], index));
    PutShortBeInPlace(a, index, v);
  }

  method NewInt(t: Tweak, rand: Rand, conf: Config, orig: bv32) returns (v: bv32)
    requires t.InterestingInt? || t.SubtractFromInt? || t.AddToInt?
    requires ValidConfig(conf)
    modifies rand
    ensures IntChoice(t, conf, orig, v)
  {
    if t.InterestingInt? {
      var j := rand.NextInt(|ParamGen.INTERESTING_INT|);
      v := ToInt(ParamGen.INTERESTING_INT[j]);
    } else if t.SubtractFromInt? {
      var d := rand.NextInt(conf.arithMax);
      v := IntMinus(orig, 1 + d);
    } else {
      var d := rand.NextInt(conf.arithMax);
      v := IntPlus(orig, 1 + d);
    }
  }

  /** `tweakRandomInt`: with four bytes or more, a random int replaced in place, little- or big-endian at random. */
  method IntTweak(t: Tweak, rand: Rand, conf: Config, a: array<bv8>)
    requires t.InterestingInt? || t.SubtractFromInt? || t.AddToInt?
    requires ValidConfig(conf)
    modifies rand, a
    ensures IntTweaked(t, conf, old(a[..]), a[..])
  {
    if a.Length >= 4 {
      var index := rand.NextInt(a.Length - 3);
      var le := rand.NextBoolean();
      if le {
        IntTweakLe(t, rand, conf, a, index);
      } else {
        IntTweakBe(t, rand, conf, a, index);
      }
    }
  }

  method IntTweakLe(t: Tweak, rand: Rand, conf: Config, a: array<bv8>, index: int)
    requires t.InterestingInt? || t.SubtractFromInt? || t.AddToInt?
    requires ValidConfig(conf) && 0 <= index && index + 4 <= a.Length
    modifies rand, a
    ensures IntLeAt(t, conf, old(a[..]), a[..], index)
  {
    var v := NewInt(t, rand, conf, GetIntLe(a[..], index));
    PutIntLeInPlace(a, index, v);
  }

  method IntTweakBe(t: Tweak, rand: Rand, conf: Config, a: array<bv8>, index: int)
    requires t.InterestingInt? || t.SubtractFromInt? || t.AddToInt?
    requires ValidConfig(conf) && 0 <= index && index + 4 <= a.Length
    modifies rand, a
    ensures IntBeAt(t, conf, old(a[..]), a[..], index)
  {
    var v := NewInt(t, rand, conf, GetIntBe(a[..], index));
    PutIntBeInPlace(a, index, v);
  }

  /** `deleteBytes`: with two bytes or more, a block of `chooseBlockLen(size - 1)` bytes removed into a new array. */
  method DeleteBytesTweak(rand: Rand, conf: Config, p: Progress, a: array<bv8>) returns (r: array<bv8>)
    requires ValidConfig(conf) && ValidProgress(p)
    modifies rand
    ensures r == a || fresh(r)
    ensures BytesDeleted(a[..], r[..])
  {
    if a.Length < 2 {
      return a;
    }
    var delLen := ChooseBlockLen(rand, conf, p, a.Length - 1);
    var delFrom := rand.NextInt(a.Length - delLen + 1);
    r := Remove(a, delFrom, delLen);
  }

  /** The fill byte of `cloneOrInsertBytes` and `overwriteRandomOrFixedBytes`: a random byte or a random byte of the array. */
  method FillByte(rand: Rand, a: array<bv8>) returns (b: bv8)
    requires a.Length >= 1
    modifies rand
  {
    var random := rand.NextBoolean();
    if random {
      var d := rand.NextInt(256);
      b := ToByte(d - 128);
    } else {
      var i := rand.NextInt(a.Length);
      b := a[i];
    }
  }

  /** The three `System.arraycopy`/`fill` steps of `cloneOrInsertBytes`: a new array with the block before byte `to`. */
  method InsertBlock(a: array<bv8>, to: int, block: seq<bv8>) returns (r: array<bv8>)
    requires 0 <= to <= a.Length
    ensures fresh(r) && r[..] == Inserted(a[..], to, block)
  {
    ghost var spec := Inserted(a[..], to, block);
    r := new bv8[a.Length + |block|];
    var k := 0;
    while k < to
      invariant 0 <= k <= to
      invariant forall j :: 0 <= j < k ==> r[j] == spec[j]
    {
      r[k] := a[k];
      k := k + 1;
    }
    while k < to + |block|
      invariant to <= k <= to + |block|
      invariant forall j :: 0 <= j < k ==> r[j] == spec[j]
    {
      r[k] := block[k - to];
      k := k + 1;
    }
    while k < r.Length
      invariant to + |block| <= k <= r.Length
      invariant forall j :: 0 <= j < k ==> r[j] == spec[j]
    {
      r[k] := a[k - |block|];
      k := k + 1;
    }
    assert r[..] == spec;
  }

  /** `cloneOrInsertBytes`: below the size limit, a cloned stretch or a repeated byte inserted into a new array. */
  method CloneOrInsertBytesTweak(rand: Rand, conf: Config, p: Progress, a: array<bv8>) returns (r: Option<array<bv8>>)
    requires ValidConfig(conf) && ValidProgress(p)
    modifies rand
    ensures r.None? <==> a.Length == 0 && a.Length + conf.havocBlockXLarge < conf.maxInput
    ensures r.Some? ==> (r.value == a || fresh(r.value)) && BytesInserted(conf, a[..], r.value[..])
  {
    if a.Length + conf.havocBlockXLarge >= conf.maxInput {
      return Some(a);
    }
    if a.Length == 0 {
      return None;  // chooseBlockLen(0) or nextInt(0) throws
    }
    var cloneTo, block := CloneBlock(rand, conf, p, a);
    var inserted := InsertBlock(a, cloneTo, block);
    assert InsertedAt(conf, a[..], inserted[..], cloneTo, block);
    r := Some(inserted);
  }

  /** The draws of `cloneOrInsertBytes`: where to insert, and a stretch of the input (three times in four) or a repeated byte. */
  method CloneBlock(rand: Rand, conf: Config, p: Progress, a: array<bv8>) returns (cloneTo: int, block: seq<bv8>)
    requires ValidConfig(conf) && ValidProgress(p) && a.Length >= 1
    modifies rand
    ensures 0 <= cloneTo < a.Length && 1 <= |block| <= conf.havocBlockXLarge
    ensures (|block| <= a.Length && SliceOf(block, a[..])) || Uniform(block)
  {
    var pick := rand.NextInt(4);
    var actuallyClone := pick > 0;
    var cloneLen, cloneFrom;
    if actuallyClone {
      cloneLen := ChooseBlockLen(rand, conf, p, a.Length);
      cloneFrom := rand.NextInt(a.Length - cloneLen + 1);
    } else {
      cloneLen := ChooseBlockLen(rand, conf, p, conf.havocBlockXLarge);
      cloneFrom := 0;
    }
    cloneTo := rand.NextInt(a.Length);
    if actuallyClone {
      block := a[cloneFrom..cloneFrom + cloneLen];
      assert block == Slice(a[..], cloneFrom, |block|);
    } else {
      var fill := FillByte(rand, a);
      block := seq(cloneLen, _ => fill);
    }
  }

  /** The `System.arraycopy` within one array, or the `fill`, of `overwriteRandomOrFixedBytes`. */
  method WriteBlock(a: array<bv8>, to: int, block: seq<bv8>)
    requires 0 <= to && to + |block| <= a.Length
    modifies a
    ensures a[..] == Overwritten(old(a[..]), to, block)
  {
    ghost var spec := Overwritten(a[..], to, block);
    var k := 0;
    while k < |block|
      invariant 0 <= k <= |block|
      invariant forall j :: 0 <= j < a.Length ==> a[j] == if to <= j < to + k then spec[j] else old(a[j])
    {
      a[to + k] := block[k];
      k := k + 1;
    }
    assert a[..] == spec;
  }

  /** `overwriteRandomOrFixedBytes`: with two bytes or more, a block overwritten in place by a copied stretch or a repeated byte. */
  method OverwriteBytesTweak(rand: Rand, conf: Config, p: Progress, a: array<bv8>)
    requires ValidConfig(conf) && ValidProgress(p)
    modifies rand, a
    ensures BytesOverwritten(old(a[..]), a[..])
  {
    if a.Length >= 2 {
      var copyLen := ChooseBlockLen(rand, conf, p, a.Length - 1);
      var copyFrom := rand.NextInt(a.Length - copyLen + 1);
      var copyTo := rand.NextInt(a.Length - copyLen + 1);
      var pick := rand.NextInt(4);
      ghost var s := a[..];
      var block;
      if pick > 0 {
        block := a[copyFrom..copyFrom + copyLen];
        assert block == Slice(s, copyFrom, |block|);
        if copyFrom != copyTo {
          WriteBlock(a, copyTo, block);
        } else {
          OverwrittenBySelf(s, copyTo, block);
        }
      } else {
        var fill := FillByte(rand, a);
        block := seq(copyLen, _ => fill);
        WriteBlock(a, copyTo, block);
      }
      assert OverwrittenAt(s, a[..], copyTo, block);
    }
  }

  /** Writing a stretch of s back where it came from changes nothing. */
  lemma OverwrittenBySelf(s: seq<bv8>, to: int, block: seq<bv8>)
    requires 0 <= to && to + |block| <= |s| && block == s[to..to + |block|]
    ensures Overwritten(s, to, block) == s
  {
    var r := Overwritten(s, to, block);
    assert forall k :: 0 <= k < |s| ==> r[k] == s[k];
  }

  /** `tweak.tweak(gen, bytes)`: in place or into a new array; `None` where the tweak throws. */
  method ApplyTweak(t: Tweak, rand: Rand, conf: Config, p: Progress, a: array<bv8>) returns (r: Option<array<bv8>>)
    requires ValidConfig(conf) && ValidProgress(p) && DrawsVary(rand)
    modifies rand, a
    ensures r.None? <==> a.Length == 0 && ThrowsOnEmpty(t, conf)
    ensures r.Some? ==> (r.value == a || fresh(r.value)) && TweakOutcome(t, conf, old(a[..]), r.value[..])
  {
    match t
    case FlipSingleBit =>
      var ok := FlipSingleBitTweak(rand, a);
      r := if ok then Some(a) else None;
    case InterestingByte | SubtractFromByte | AddToByte | RandomByte =>
      var ok := ByteTweak(t, rand, conf, a);
      r := if ok then Some(a) else None;
    case InterestingShort | SubtractFromShort | AddToShort =>
      ShortTweak(t, rand, conf, a);
      r := Some(a);
    case InterestingInt | SubtractFromInt | AddToInt =>
      IntTweak(t, rand, conf, a);
      r := Some(a);
    case DeleteBytes =>
      var deleted := DeleteBytesTweak(rand, conf, p, a);
      r := Some(deleted);
    case CloneOrInsertBytes =>
      r := CloneOrInsertBytesTweak(rand, conf, p, a);
    case OverwriteRandomOrFixedBytes =>
      OverwriteBytesTweak(rand, conf, p, a);
      r := Some(a);
  }

  // -------------------------------------------------------- the stage

  function Pow2(n: nat): (r: nat)
    ensures r >= 1
  {
    if n == 0 then 1 else 2 * Pow2(n - 1)
  }

  /**
   * How many tweaks a cycle stacks for the draw `power`: `2.toBigInteger()
   * .pow(1 + power).toInt()`, a `0 until n` loop, so a wrapped negative
   * count stacks none.
   */
  function StackCount(power: nat): nat
  {
    var n := JavaInts.Wrap32(Pow2(1 + power));
    if n > 0 then n else 0
  }

  /** s becomes t through n tweaks from the configured list. */
  ghost predicate Stacked(conf: Config, s: seq<bv8>, t: seq<bv8>, n: nat)
    decreases n, 1
  {
    if n == 0 then t == s
    else exists m: seq<bv8>, k :: StackedStep(conf, s, m, t, n, k)
  }

  /** m is the result of n - 1 tweaks, and tweak k of the list takes it to t. */
  ghost predicate StackedStep(conf: Config, s: seq<bv8>, m: seq<bv8>, t: seq<bv8>, n: nat, k: int)
    requires n >= 1
    decreases n, 0
  {
    0 <= k < |conf.havocTweaks| && Stacked(conf, s, m, n - 1) && TweakOutcome(conf.havocTweaks[k], conf, m, t)
  }

  /** A havoc candidate: the seed through a stack of StackCount(power) tweaks, power below havocStackPower. */
  ghost predicate HavocOutput(conf: Config, buf: seq<bv8>, c: seq<bv8>)
  {
    exists power: nat :: power < conf.havocStackPower && Stacked(conf, buf, c, StackCount(power))
  }

  /** One cycle of `stageHavoc`: a fresh copy of the seed through the stack of tweaks. */
  method HavocCycle(rand: Rand, conf: Config, p: Progress, buf: seq<bv8>) returns (r: Option<seq<bv8>>)
    requires ValidConfig(conf) && ValidProgress(p) && DrawsVary(rand)
    modifies rand
    ensures |buf| >= 1 ==> r.Some?
    ensures r.Some? ==> HavocOutput(conf, buf, r.value)
  {
    var bytes := CopyOf(buf);
    var power := rand.NextInt(conf.havocStackPower);
    var count := StackCount(power);
    var i := 0;
    while i < count
      invariant 0 <= i <= count
      invariant fresh(bytes)
      invariant |buf| >= 1 ==> bytes.Length >= 1
      invariant Stacked(conf, buf, bytes[..], i)
    {
      ghost var drawn := rand.calls;
      var t := rand.RandItem(conf.havocTweaks);
      ghost var k := rand.Draw(drawn, |conf.havocTweaks|);
      ghost var before := bytes[..];
      var next := ApplyTweak(t, rand, conf, p, bytes);
      if next.None? {
        return None;
      }
      bytes := next.value;
      assert StackedStep(conf, buf, before, bytes[..], i + 1, k);
      TweakSize(t, conf, before, bytes[..]);
      i := i + 1;
    }
    r := Some(bytes[..]);
  }

  /**
   * `stageHavoc(buf)`: `havocCycles` candidates (none when it is not
   * positive), each a fresh copy of the seed through a stack of tweaks.
   * The candidates are yielded one by one, so when a tweak throws, which
   * only an empty seed can make happen, the cycles finished before it have
   * already been handed out: `threw` reports the throw and `out` holds them.
   */
  method StageHavoc(rand: Rand, conf: Config, p: Progress, buf: seq<bv8>) returns (out: seq<seq<bv8>>, threw: bool)
    requires ValidConfig(conf) && ValidProgress(p) && DrawsVary(rand)
    modifies rand
    ensures |buf| >= 1 ==> !threw
    ensures threw ==> |buf| == 0 && |out| < conf.havocCycles
    ensures !threw ==> |out| == if conf.havocCycles > 0 then conf.havocCycles else 0
    ensures forall c :: c in out ==> HavocOutput(conf, buf, c)
  {
    var cycles: seq<seq<bv8>> := [];
    var stageCur := 0;
    while stageCur < conf.havocCycles
      invariant 0 <= stageCur && (stageCur <= conf.havocCycles || stageCur == 0)
      invariant |cycles| == stageCur
      invariant forall c :: c in cycles ==> HavocOutput(conf, buf, c)
    {
      var one := HavocCycle(rand, conf, p, buf);
      if one.None? {
        return cycles, true;
      }
      cycles := cycles + [one.value];
      stageCur := stageCur + 1;
    }
    out, threw := cycles, false;
  }

  /** A stack of tweaks keeps a non-empty seed non-empty and a seed below maxInput below it. */
  lemma {:induction false} StackedSize(conf: Config, s: seq<bv8>, t: seq<bv8>, n: nat)
    requires Stacked(conf, s, t, n)
    ensures |s| >= 1 ==> |t| >= 1
    ensures |s| < conf.maxInput ==> |t| < conf.maxInput
    decreases n
  {
    if n > 0 {
      var m, k :| StackedStep(conf, s, m, t, n, k);
      StackedSize(conf, s, m, n - 1);
      TweakSize(conf.havocTweaks[k], conf, m, t);
    }
  }

  /** Every havoc candidate of a seed below maxInput is below maxInput, and non-empty when the seed is. */
  lemma HavocOutputSize(conf: Config, buf: seq<bv8>, c: seq<bv8>)
    requires HavocOutput(conf, buf, c)
    ensures |buf| >= 1 ==> |c| >= 1
    ensures |buf| < conf.maxInput ==> |c| < conf.maxInput
  {
    var power: nat :| power < conf.havocStackPower && Stacked(conf, buf, c, StackCount(power));
    StackedSize(conf, buf, c, StackCount(power));
  }

  /** Below a power of 30 the stack is 2^(1 + power) tweaks; from 30 on the count wraps to a non-positive `int` and the stack is empty. */
  lemma StackCountValues(power: nat)
    ensures power < 30 ==> 2 <= StackCount(power) == Pow2(1 + power) <= 0x4000_0000
    ensures power >= 30 ==> StackCount(power) == 0
  {
    Pow2Values();
    if power < 30 {
      Pow2Le(1 + power, 30);
    } else if power > 30 {
      Pow2Add(32, power - 31);
    }
  }

  lemma {:induction false} Pow2Le(m: nat, n: nat)
    requires m <= n
    ensures Pow2(m) <= Pow2(n)
    decreases n
  {
    if m < n {
      Pow2Le(m, n - 1);
    }
  }

  lemma {:induction false} Pow2Add(m: nat, n: nat)
    ensures Pow2(m + n) == Pow2(m) * Pow2(n)
    decreases n
  {
    if n > 0 {
      Pow2Add(m, n - 1);
      var x, y := Pow2(m), Pow2(n - 1);
      assert Pow2(m + n) == 2 * Pow2(m + n - 1) == 2 * (x * y);
      assert x * Pow2(n) == x * (2 * y) == 2 * (x * y);
    }
  }

  lemma Pow2Values()
    ensures Pow2(30) == 0x4000_0000 && Pow2(31) == 0x8000_0000 && Pow2(32) == 0x1_0000_0000
  {
    assert Pow2(2) == 4;
    Pow2Add(2, 2);
    assert Pow2(4) == 16;
    Pow2Add(4, 4);
    assert Pow2(8) == 256;
    Pow2Add(8, 8);
    assert Pow2(16) == 0x1_0000;
    Pow2Add(16, 16);
    assert Pow2(32) == 2 * Pow2(31) && Pow2(31) == 2 * Pow2(30);
  }
}
