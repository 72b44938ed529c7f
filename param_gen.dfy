/**
 * The fixed value tables of the parameter generators: the "interesting"
 * integers AFL substitutes, the suggested values per primitive type, and the
 * lookup from a parameter class to its suggested generator.
 */
module ParamGen {
  import opened Wrappers
  import opened JavaInts

  /** `interestingByte`, in order. */
  const INTERESTING_BYTE: seq<int> := [-128, -1, 0, 1, 16, 32, 64, 100, 127]

  /** `interestingShort`, in order. */
  const INTERESTING_SHORT: seq<int> := [-32768, -129, 128, 255, 256, 512, 1000, 1024, 4096, 32767]

  /** `interestingInt`, in order; the ends are `Int.MIN_VALUE` and `Int.MAX_VALUE`. */
  const INTERESTING_INT: seq<int> := [INT_MIN, -100663046, -32769, 32768, 65535, 65536, 100663045, INT_MAX]

  /** `interestingLong`: `Long.MIN_VALUE` and `Long.MAX_VALUE`. */
  const INTERESTING_LONG: seq<int> := [LONG_MIN, LONG_MAX]

  /** Each table holds values of its own Java type, so no entry is changed by the cast to it. */
  lemma TablesFitTheirTypes()
    ensures forall v :: v in INTERESTING_BYTE ==> IsByte(v)
    ensures forall v :: v in INTERESTING_SHORT ==> IsShort(v)
    ensures forall v :: v in INTERESTING_INT ==> IsInt(v)
    ensures forall v :: v in INTERESTING_LONG ==> IsLong(v)
  {
  }

  /** `allBool`. */
  const ALL_BOOL: seq<bool> := [true, false]

  /** `allByte`: the ints -128 through 127, ascending. */
  function AllByte(): (r: seq<int>)
    ensures |r| == 256
    ensures forall k :: 0 <= k < 256 ==> r[k] == k - 128
  {
    seq(256, k => k - 128)
  }

  /** `allByte` lists every byte value, each exactly once. */
  lemma AllByteCoversBytes()
    ensures forall v :: IsByte(v) <==> v in AllByte()
    ensures forall i, j :: 0 <= i < j < |AllByte()| ==> AllByte()[i] < AllByte()[j]
  {
    var r := AllByte();
    forall v | IsByte(v)
      ensures v in r
    {
      assert r[v + 128] == v;
    }
  }

  /** `suggestedIntSimpleRange`: -35 through 35, ascending. */
  function SimpleRange(): (r: seq<int>)
    ensures |r| == 71
    ensures forall k :: 0 <= k < 71 ==> r[k] == k - 35
  {
    seq(71, k => k - 35)
  }

  /** `xs.map(Int::toByte)`. */
  function NarrowedToBytes(xs: seq<int>): (r: seq<int>)
    ensures |r| == |xs| && forall k :: 0 <= k < |xs| ==> r[k] == Wrap8(xs[k])
  {
    seq(|xs|, k requires 0 <= k < |xs| => Wrap8(xs[k]))
  }

  /** `suggestedByte`: the simple range as bytes, then the interesting bytes. */
  function SuggestedByte(): seq<int>
  {
    NarrowedToBytes(SimpleRange()) + INTERESTING_BYTE
  }

  /** `suggestedShort`: the suggested bytes widened, then the interesting shorts. */
  function SuggestedShort(): seq<int>
  {
    SuggestedByte() + INTERESTING_SHORT
  }

  /** `suggestedInt`: the suggested shorts widened, then the interesting ints. */
  function SuggestedInt(): seq<int>
  {
    SuggestedShort() + INTERESTING_INT
  }

  /** `suggestedLong`: the suggested ints widened, then the interesting longs. */
  function SuggestedLong(): seq<int>
  {
    SuggestedInt() + INTERESTING_LONG
  }

  /**
   * The suggested integer lists: the byte list is the simple range unchanged
   * (every value already fits a byte) followed by the byte table, and each
   * wider list extends the narrower one by its own table.
   */
  lemma SuggestedLists()
    ensures SuggestedByte() == SimpleRange() + INTERESTING_BYTE
    ensures SuggestedShort()[..|SuggestedByte()|] == SuggestedByte()
    ensures SuggestedInt()[..|SuggestedShort()|] == SuggestedShort()
    ensures SuggestedLong()[..|SuggestedInt()|] == SuggestedInt()
    ensures |SuggestedByte()| == 80 && |SuggestedShort()| == 90 && |SuggestedInt()| == 98 && |SuggestedLong()| == 100
  {
    var range := SimpleRange();
    forall k | 0 <= k < 71
      ensures NarrowedToBytes(range)[k] == range[k]
    {
      assert IsByte(range[k]);
    }
    assert NarrowedToBytes(range) == range;
  }

  /** Every suggested value lies in the range of its type. */
  lemma SuggestedValuesFit()
    ensures forall v :: v in SuggestedByte() ==> IsByte(v)
    ensures forall v :: v in SuggestedShort() ==> IsShort(v)
    ensures forall v :: v in SuggestedInt() ==> IsInt(v)
    ensures forall v :: v in SuggestedLong() ==> IsLong(v)
  {
    SuggestedLists();
    TablesFitTheirTypes();
  }

  // ------------------------------------------------------ the class lookup

  /** The primitive types the suggestion map knows. */
  datatype Primitive = BooleanType | ByteType | CharType | ShortType | IntType | LongType | FloatType | DoubleType

  /** A parameter class: a primitive, its boxed form, the two configurable classes, or anything else. */
  datatype ParamClass =
    | PrimitiveClass(p: Primitive)
    | BoxedClass(p: Primitive)
    | ByteArrayClass
    | StringClass
    | OtherClass(name: string)

  /** A suggested value; floating-point suggestions are kept only as their count. */
  datatype Value = Null | BoolValue(b: bool) | IntegralValue(v: int)

  /** What `suggested(cls)` returns. */
  datatype Suggestion =
    | Values(values: seq<Value>)
    | FloatingPointValues(count: nat)
    | ByteArrayGenerator
    | StringGenerator

  function Integral(xs: seq<int>): (r: seq<Value>)
    ensures |r| == |xs| && forall k :: 0 <= k < |xs| ==> r[k] == IntegralValue(xs[k])
  {
    seq(|xs|, k requires 0 <= k < |xs| => IntegralValue(xs[k]))
  }

  /**
   * The fixed-class entries for a primitive.  `suggestedChar` is an unfinished
   * `TODO()` and throws when invoked.  The float list is the 71 simple-range
   * values and six interesting floats; the double list widens it and adds six
   * interesting doubles.
   */
  function SuggestedPrimitive(p: Primitive): Result<Suggestion, string>
  {
    match p
    case BooleanType => Ok(Values([BoolValue(true), BoolValue(false)]))
    case ByteType => Ok(Values(Integral(SuggestedByte())))
    case CharType => Err("An operation is not implemented")
    case ShortType => Ok(Values(Integral(SuggestedShort())))
    case IntType => Ok(Values(Integral(SuggestedInt())))
    case LongType => Ok(Values(Integral(SuggestedLong())))
    case FloatType => Ok(FloatingPointValues(71 + 6))
    case DoubleType => Ok(FloatingPointValues(71 + 6 + 6))
  }

  /**
   * `suggested(cls)`: the fixed-class map first (a boxed type is its primitive
   * list with a leading null), then the configurable classes, else an error.
   */
  function Suggested(cls: ParamClass): (r: Result<Suggestion, string>)
    ensures cls.OtherClass? ==> r.Err?
    ensures cls.ByteArrayClass? ==> r == Ok(ByteArrayGenerator)
    ensures cls.StringClass? ==> r == Ok(StringGenerator)
  {
    match cls
    case PrimitiveClass(p) => SuggestedPrimitive(p)
    case BoxedClass(p) =>
      (match SuggestedPrimitive(p)
       case Ok(Values(vs)) => Ok(Values([Null] + vs))
       case Ok(FloatingPointValues(n)) => Ok(FloatingPointValues(1 + n))
       case other => other)
    case ByteArrayClass => Ok(ByteArrayGenerator)
    case StringClass => Ok(StringGenerator)
    case OtherClass(name) => Err("No suggested param gen found for class " + name)
  }

  /**
   * Only the char types and unknown classes fail; a boxed type suggests null
   * first and then exactly its primitive's values.
   */
  lemma SuggestedLookup(cls: ParamClass)
    ensures Suggested(cls).Err? <==> cls.OtherClass? || cls == PrimitiveClass(CharType) || cls == BoxedClass(CharType)
    ensures cls.BoxedClass? && SuggestedPrimitive(cls.p).Ok? && SuggestedPrimitive(cls.p).value.Values? ==>
      Suggested(cls) == Ok(Values([Null] + SuggestedPrimitive(cls.p).value.values))
  {
  }

  /** The int suggestions are 98 values, each a Java int, ending with the interesting ints. */
  lemma SuggestedIntValues()
    ensures Suggested(PrimitiveClass(IntType)).Ok?
    ensures var vs := Suggested(PrimitiveClass(IntType)).value.values;
      && |vs| == 98
      && (forall k :: 0 <= k < 98 ==> vs[k].IntegralValue? && IsInt(vs[k].v))
      && (forall k :: 0 <= k < |INTERESTING_INT| ==> vs[90 + k] == IntegralValue(INTERESTING_INT[k]))
  {
    SuggestedValuesFit();
    SuggestedLists();
    var xs := SuggestedInt();
    assert forall k :: 0 <= k < 98 ==> xs[k] in xs;
  }

  // ------------------------------------------------------ mapped generators

  /** What `genMap(fn)` iterates: each value of the wrapped generator mapped by fn, lazily and in order. */
  function GenMap<T, R>(items: seq<T>, fn: T -> R): (r: seq<R>)
    ensures |r| == |items|
    ensures forall k :: 0 <= k < |items| ==> r[k] == fn(items[k])
  {
    if items == [] then [] else [fn(items[0])] + GenMap(items[1..], fn)
  }

  /** What `genMapNotNull(fn)` iterates: the non-null images, in order. */
  function GenMapNotNull<T, R>(items: seq<T>, fn: T -> Option<R>): (r: seq<R>)
    ensures |r| <= |items|
  {
    if items == [] then []
    else
      var rest := GenMapNotNull(items[1..], fn);
      match fn(items[0])
      case Some(v) => [v] + rest
      case None => rest
  }

  /** `genMapNotNull` yields exactly the non-null images of the wrapped values. */
  lemma {:induction false} GenMapNotNullImages<T, R>(items: seq<T>, fn: T -> Option<R>)
    ensures forall v :: v in GenMapNotNull(items, fn) ==> exists k :: 0 <= k < |items| && fn(items[k]) == Some(v)
    ensures forall k :: 0 <= k < |items| && fn(items[k]).Some? ==> fn(items[k]).value in GenMapNotNull(items, fn)
  {
    if items != [] {
      GenMapNotNullImages(items[1..], fn);
      forall k | 0 <= k < |items| && fn(items[k]).Some?
        ensures fn(items[k]).value in GenMapNotNull(items, fn)
      {
        if k > 0 {
          assert items[1..][k - 1] == items[k];
        }
      }
      forall v | v in GenMapNotNull(items, fn)
        ensures exists k :: 0 <= k < |items| && fn(items[k]) == Some(v)
      {
        if fn(items[0]) == Some(v) {
        } else {
          var k :| 0 <= k < |items[1..]| && fn(items[1..][k]) == Some(v);
          assert fn(items[k + 1]) == Some(v);
        }
      }
    }
  }

  /** When the map never gives null, `genMapNotNull` is `genMap`. */
  lemma {:induction false} GenMapNotNullTotal<T, R>(items: seq<T>, fn: T -> Option<R>, g: T -> R)
    requires forall x :: fn(x) == Some(g(x))
    ensures GenMapNotNull(items, fn) == GenMap(items, g)
  {
    if items != [] {
      GenMapNotNullTotal(items[1..], fn, g);
    }
  }
}
