/**
 * `java.util.Random` as an oracle.  The value behind the i-th draw is an
 * arbitrary fixed integer; each `nextInt` or `nextBoolean` call takes the
 * next draw and reduces it to the requested range.
 */
module JavaRandom {

  class Rand {
    /** The raw value behind the i-th draw. */
    const source: nat -> int
    /** How many draws have been taken so far. */
    var calls: nat

    constructor (source: nat -> int)
      ensures this.source == source && calls == 0
    {
      this.source := source;
      calls := 0;
    }

    /** What the i-th draw gives for `nextInt(bound)`. */
    function Draw(i: nat, bound: int): (r: int)
      requires bound > 0
      ensures 0 <= r < bound
    {
      source(i) % bound
    }

    /** `nextInt(bound)`: the JDK throws unless the bound is positive. */
    method NextInt(bound: int) returns (r: int)
      requires bound > 0
      modifies this
      ensures r == Draw(old(calls), bound) && 0 <= r < bound
      ensures calls == old(calls) + 1
    {
      r := Draw(calls, bound);
      calls := calls + 1;
    }

    /** `nextBoolean()`. */
    method NextBoolean() returns (b: bool)
      modifies this
      ensures b == (Draw(old(calls), 2) == 1)
      ensures calls == old(calls) + 1
    {
      b := Draw(calls, 2) == 1;
      calls := calls + 1;
    }

    /** `list.randItem(rand)`: `list[nextInt(list.size)]`. */
    method RandItem<T>(list: seq<T>) returns (x: T)
      requires |list| > 0
      modifies this
      ensures x == list[Draw(old(calls), |list|)] && x in list
      ensures calls == old(calls) + 1
    {
      var i := NextInt(|list|);
      x := list[i];
    }
  }
}
