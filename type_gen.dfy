/**
 * `TypeGen`, the older value-generator API: the same integer tables as
 * `ParamGen` held as ints, a class lookup whose boxed lists end with null,
 * and the `cat` combinator that chains two iterables and routes feedback to
 * the side currently being iterated.
 */
module TypeGen {
  import opened Wrappers
  import opened JavaInts
  import ParamGen

  // ------------------------------------------------------ the tables

  /** `suggestedByte`: -35 through 35, then the interesting bytes, all as ints. */
  function SuggestedByte(): seq<int>
  {
    ParamGen.SimpleRange() + ParamGen.INTERESTING_BYTE
  }

  /** `suggestedShort`: the suggested bytes, then the interesting shorts. */
  function SuggestedShort(): seq<int>
  {
    SuggestedByte() + ParamGen.INTERESTING_SHORT
  }

  /** `suggestedInt`: the suggested shorts, then the interesting ints. */
  function SuggestedInt(): seq<int>
  {
    SuggestedShort() + ParamGen.INTERESTING_INT
  }

  /** `suggestedLong`: the suggested ints widened, then the interesting longs. */
  function SuggestedLong(): seq<int>
  {
    SuggestedInt() + ParamGen.INTERESTING_LONG
  }

  /** The lists hold the same values, in the same order, as the `ParamGen` ones. */
  lemma SameListsAsParamGen()
    ensures SuggestedByte() == ParamGen.SuggestedByte()
    ensures SuggestedShort() == ParamGen.SuggestedShort()
    ensures SuggestedInt() == ParamGen.SuggestedInt()
    ensures SuggestedLong() == ParamGen.SuggestedLong()
  {
    ParamGen.SuggestedLists();
  }

  /** A primitive's list; `suggestedChar` is an unfinished `TODO()` and throws. */
  function SuggestedPrimitive(p: ParamGen.Primitive): Result<ParamGen.Suggestion, string>
  {
    match p
    case BooleanType => Ok(ParamGen.Values([ParamGen.BoolValue(true), ParamGen.BoolValue(false)]))
    case ByteType => Ok(ParamGen.Values(ParamGen.Integral(SuggestedByte())))
    case CharType => Err("An operation is not implemented")
    case ShortType => Ok(ParamGen.Values(ParamGen.Integral(SuggestedShort())))
    case IntType => Ok(ParamGen.Values(ParamGen.Integral(SuggestedInt())))
    case LongType => Ok(ParamGen.Values(ParamGen.Integral(SuggestedLong())))
    case FloatType => Ok(ParamGen.FloatingPointValues(71 + 6))
    case DoubleType => Ok(ParamGen.FloatingPointValues(71 + 6 + 6))
  }

  /**
   * `suggested(cls)`: the fixed-class map only; a boxed type is its primitive
   * list `cat nullGen`, a plain concatenation ending with one null.
   */
  function Suggested(cls: ParamGen.ParamClass): Result<ParamGen.Suggestion, string>
  {
    match cls
    case PrimitiveClass(p) => SuggestedPrimitive(p)
    case BoxedClass(p) =>
      (match SuggestedPrimitive(p)
       case Ok(Values(vs)) => Ok(ParamGen.Values(vs + [ParamGen.Null]))
       case Ok(FloatingPointValues(n)) => Ok(ParamGen.FloatingPointValues(n + 1))
       case other => other)
    case _ => Err("No supported type gen for class")
  }

  /**
   * The lookup agrees with `ParamGen.suggested` on primitives, puts the null
   * of a boxed list last instead of first, and has no entry for byte arrays
   * and strings.
   */
  lemma SuggestedAgainstParamGen(cls: ParamGen.ParamClass)
    ensures cls.PrimitiveClass? ==> Suggested(cls) == ParamGen.Suggested(cls)
    ensures cls.BoxedClass? && ParamGen.Suggested(cls).Ok? && ParamGen.Suggested(cls).value.Values? ==>
      var vs := ParamGen.Suggested(cls).value.values;
      vs != [] && Suggested(cls) == Ok(ParamGen.Values(vs[1..] + [vs[0]]))
    ensures Suggested(cls).Err? <==> ParamGen.Suggested(cls).Err? || cls == ParamGen.ByteArrayClass || cls == ParamGen.StringClass
  {
    SameListsAsParamGen();
    if cls.BoxedClass? && ParamGen.Suggested(cls).Ok? && ParamGen.Suggested(cls).value.Values? {
      var vs := ParamGen.Suggested(cls).value.values;
      assert vs[1..] == SuggestedPrimitive(cls.p).value.values;
    }
  }

  // ------------------------------------------------------ cat

  /**
   * An iterable taking part in `cat`: its values, whether it is a
   * `WithFeedbackIterable`, and whether it implements `WithFeedback`.
   */
  datatype Source<T> = Source(items: seq<T>, feedbackIterable: bool, withFeedback: bool)

  /** Where `onResult` sends a result: to the first iterable, to the second, or nowhere. */
  datatype Route = ToOrig | ToOther | Dropped

  /** What `cat` returns: a plain list, or the combined iterable object. */
  datatype CatResult<T> = Concatenated(items: seq<T>) | Combined(gen: Cat<T>)

  /** `orig cat other`. */
  method CatOf<T>(orig: Source<T>, other: Source<T>) returns (r: CatResult<T>)
    ensures r.Concatenated? <==> !orig.feedbackIterable || !other.feedbackIterable
    ensures r.Concatenated? ==> r.items == orig.items + other.items
    ensures r.Combined? ==> fresh(r.gen) && r.gen.orig == orig && r.gen.other == other && r.gen.first
  {
    if !orig.feedbackIterable || !other.feedbackIterable {
      return Concatenated(orig.items + other.items);
    }
    var gen := new Cat(orig, other);
    r := Combined(gen);
  }

  /** The object `cat` builds when both sides are `WithFeedbackIterable`. */
  class Cat<T> {
    const orig: Source<T>
    const other: Source<T>
    /** Shared by every iterator of this object: true until one of them has run off the end of `orig`. */
    var first: bool

    constructor (orig: Source<T>, other: Source<T>)
      ensures this.orig == orig && this.other == other && first
    {
      this.orig := orig;
      this.other := other;
      first := true;
    }

    /** `onResult`: to `orig` while the first part is being iterated, to `other` after, each only if it takes feedback. */
    method OnResult() returns (route: Route)
      ensures route == ToOrig <==> first && orig.withFeedback
      ensures route == ToOther <==> !first && other.withFeedback
    {
      if first && orig.withFeedback {
        route := ToOrig;
      } else if !first && other.withFeedback {
        route := ToOther;
      } else {
        route := Dropped;
      }
    }

    /**
     * `iterator()`: a new iterator over `orig`.  It does not reset `first`,
     * so once one iterator has moved on to `other`, every later iterator
     * yields `orig` alone.
     */
    method Iterator() returns (it: CatIterator<T>)
      ensures fresh(it) && it.owner == this
      ensures it.Yields() == if first then orig.items + other.items else orig.items
    {
      it := new CatIterator(this);
    }

    /** `iterator()` as intended: each iterator resets the shared `first`, starts over on `orig` and then goes on to `other`. */
    method IteratorCorrected() returns (it: CatIterator<T>)
      modifies this
      ensures fresh(it) && it.owner == this && first
      ensures it.Yields() == orig.items + other.items
    {
      first := true;
      it := new CatIterator(this);
    }
  }

  /** The iterator of a `Cat` object. */
  class CatIterator<T> {
    const owner: Cat<T>
    /** What the current underlying iterator, over `orig` or `other`, has left. */
    var currIter: seq<T>

    constructor (owner: Cat<T>)
      ensures this.owner == owner && currIter == owner.orig.items
    {
      this.owner := owner;
      currIter := owner.orig.items;
    }

    /** The values this iterator has yet to yield. */
    ghost function Yields(): seq<T>
      reads this, owner
    {
      if owner.first then currIter + owner.other.items else currIter
    }

    /** `checkNext`: at the end of `orig`, switch to `other` for good. */
    method CheckNext()
      modifies this, owner
      ensures Yields() == old(Yields())
      ensures owner.first ==> currIter != []
      ensures old(owner.first) && old(currIter) == [] ==> !owner.first && currIter == owner.other.items
      ensures !old(owner.first) || old(currIter) != [] ==> currIter == old(currIter) && owner.first == old(owner.first)
    {
      if owner.first && currIter == [] {
        owner.first := false;
        currIter := owner.other.items;
      }
    }

    /** `hasNext()`. */
    method HasNext() returns (b: bool)
      modifies this, owner
      ensures b <==> Yields() != []
      ensures Yields() == old(Yields())
      ensures !b ==> !owner.first
    {
      CheckNext();
      b := currIter != [];
    }

    /** `next()`; the underlying iterator throws once nothing is left. */
    method Next() returns (x: T)
      requires Yields() != []
      modifies this, owner
      ensures x == old(Yields())[0] && Yields() == old(Yields())[1..]
    {
      CheckNext();
      x := currIter[0];
      currIter := currIter[1..];
    }
  }

  /** A `for` loop over a fresh iterator of `cat`: what it yields, in order. */
  method Drain<T>(cat: Cat<T>) returns (out: seq<T>)
    modifies cat
    ensures out == if old(cat.first) then cat.orig.items + cat.other.items else cat.orig.items
    ensures !cat.first
  {
    var it := cat.Iterator();
    ghost var all := it.Yields();
    out := [];
    var more := it.HasNext();
    while more
      invariant it.owner == cat
      invariant out + it.Yields() == all
      invariant more <==> it.Yields() != []
      invariant !more ==> !cat.first
      decreases |it.Yields()|
    {
      var x := it.Next();
      out := out + [x];
      more := it.HasNext();
    }
  }

  /** Two `for` loops over the same `cat` object: the second sees `orig` alone. */
  method IterateTwiceAsWritten<T>(orig: Source<T>, other: Source<T>) returns (firstPass: seq<T>, secondPass: seq<T>)
    ensures firstPass == orig.items + other.items
    ensures secondPass == orig.items
  {
    var cat := new Cat(orig, other);
    firstPass := Drain(cat);
    secondPass := Drain(cat);
  }

  /** The intended behaviour: every pass yields `orig` then `other`. */
  method IterateTwiceCorrected<T>(orig: Source<T>, other: Source<T>) returns (firstPass: seq<T>, secondPass: seq<T>)
    ensures firstPass == orig.items + other.items
    ensures secondPass == orig.items + other.items
  {
    var cat := new Cat(orig, other);
    firstPass := DrainCorrected(cat);
    secondPass := DrainCorrected(cat);
  }

  /** A `for` loop over an iterator from `IteratorCorrected`. */
  method DrainCorrected<T>(cat: Cat<T>) returns (out: seq<T>)
    modifies cat
    ensures out == cat.orig.items + cat.other.items
  {
    var it := cat.IteratorCorrected();
    ghost var all := it.Yields();
    out := [];
    var more := it.HasNext();
    while more
      invariant it.owner == cat
      invariant out + it.Yields() == all
      invariant more <==> it.Yields() != []
      decreases |it.Yields()|
    {
      var x := it.Next();
      out := out + [x];
      more := it.HasNext();
    }
    assert it.Yields() == [];
    assert out == all;
  }
}
