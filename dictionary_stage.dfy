/**
 * The dictionary stage: every user dictionary entry written over the seed at
 * every index where it fits, all entries at one index before the next index.
 */
module DictionaryStage {
  import opened Bytes
  import Sorting

  function EntrySize(entry: seq<bv8>): int { |entry| }

  /**
   * `userDictionary`: the configured entries sorted shortest first; entries
   * of equal length keep their configured order.
   */
  function SortedDictionary(dictionary: seq<seq<bv8>>): (r: seq<seq<bv8>>)
    ensures Sorting.SortedBy(r, EntrySize)
    ensures multiset(r) == multiset(dictionary)
    ensures forall n :: Sorting.WithKey(r, EntrySize, n) == Sorting.WithKey(dictionary, EntrySize, n)
  {
    Sorting.SortBySortedPermutation(dictionary, EntrySize);
    forall n
      ensures Sorting.WithKey(Sorting.SortBy(dictionary, EntrySize), EntrySize, n) == Sorting.WithKey(dictionary, EntrySize, n)
    {
      Sorting.SortByStable(dictionary, EntrySize, n);
    }
    Sorting.SortBy(dictionary, EntrySize)
  }

  /** The candidates for the entries at one index, in dictionary order; an entry must end before the last byte. */
  function EntriesAt(buf: seq<bv8>, index: nat, entries: seq<seq<bv8>>): seq<seq<bv8>>
    decreases |entries|
  {
    if entries == [] then []
    else
      var n := |entries| - 1;
      EntriesAt(buf, index, entries[..n])
      + if index + |entries[n]| < |buf| then [Overwritten(buf, index, entries[n])] else []
  }

  /** The candidates for the indices below `count`, index by index. */
  function IndicesUpto(buf: seq<bv8>, entries: seq<seq<bv8>>, count: nat): seq<seq<bv8>>
  {
    if count == 0 then [] else IndicesUpto(buf, entries, count - 1) + EntriesAt(buf, count - 1, entries)
  }

  /** `stageDictionary(buf, sortedDictionary)`. */
  function DictionaryStageOutput(buf: seq<bv8>, sortedDictionary: seq<seq<bv8>>): seq<seq<bv8>>
  {
    if sortedDictionary == [] then [] else IndicesUpto(buf, sortedDictionary, |buf|)
  }

  /** `stageDictionary`: a fresh copy per index and fitting entry. */
  method StageDictionary(buf: seq<bv8>, sortedDictionary: seq<seq<bv8>>) returns (out: seq<seq<bv8>>)
    ensures out == DictionaryStageOutput(buf, sortedDictionary)
  {
    out := [];
    if sortedDictionary != [] {
      var index := 0;
      while index < |buf|
        invariant 0 <= index <= |buf|
        invariant out == IndicesUpto(buf, sortedDictionary, index)
      {
        var atIndex := PlaceEntries(buf, index, sortedDictionary);
        out := out + atIndex;
        index := index + 1;
      }
    }
  }

  /** The inner `forEach` over the entries at one index. */
  method PlaceEntries(buf: seq<bv8>, index: nat, entries: seq<seq<bv8>>) returns (out: seq<seq<bv8>>)
    ensures out == EntriesAt(buf, index, entries)
  {
    out := [];
    var j := 0;
    while j < |entries|
      invariant 0 <= j <= |entries|
      invariant out == EntriesAt(buf, index, entries[..j])
    {
      var entry := entries[j];
      assert entries[..j + 1][..j] == entries[..j];
      if index + |entry| < |buf| {
        var candidate := OverwrittenCopy(buf, index, entry);
        out := out + [candidate];
      }
      j := j + 1;
    }
    assert entries[..|entries|] == entries;
  }

  /** `buf.copyOf().apply { for (i in 0 until entry.size) set(index + i, entry[i]) }`. */
  method OverwrittenCopy(buf: seq<bv8>, index: nat, entry: seq<bv8>) returns (r: seq<bv8>)
    requires index + |entry| <= |buf|
    ensures r == Overwritten(buf, index, entry)
  {
    var a := CopyOf(buf);
    var i := 0;
    while i < |entry|
      invariant 0 <= i <= |entry| && a.Length == |buf|
      invariant forall k :: 0 <= k < |buf| ==> a[k] == if index <= k < index + i then entry[k - index] else buf[k]
    {
      a[index + i] := entry[i];
      i := i + 1;
    }
    r := a[..];
  }

  /** Entry j of the dictionary, written at index, is a candidate of the stage. */
  predicate PlacedAt(buf: seq<bv8>, entries: seq<seq<bv8>>, c: seq<bv8>, index: int, j: int)
  {
    0 <= index && 0 <= j < |entries| && index + |entries[j]| < |buf|
    && c == Overwritten(buf, index, entries[j])
  }

  lemma {:induction false} EntriesAtMembers(buf: seq<bv8>, index: nat, entries: seq<seq<bv8>>, c: seq<bv8>)
    ensures c in EntriesAt(buf, index, entries) <==> exists j :: PlacedAt(buf, entries, c, index, j)
    decreases |entries|
  {
    if entries != [] {
      var n := |entries| - 1;
      var init := entries[..n];
      EntriesAtMembers(buf, index, init, c);
      if c in EntriesAt(buf, index, entries) && !(c in EntriesAt(buf, index, init)) {
        assert PlacedAt(buf, entries, c, index, n);
      }
      if exists j :: PlacedAt(buf, entries, c, index, j) {
        var j :| PlacedAt(buf, entries, c, index, j);
        if j < n {
          assert PlacedAt(buf, init, c, index, j);
        }
      }
      forall j | PlacedAt(buf, init, c, index, j)
        ensures PlacedAt(buf, entries, c, index, j)
      {
      }
    }
  }

  lemma {:induction false} IndicesUptoMembers(buf: seq<bv8>, entries: seq<seq<bv8>>, count: nat, c: seq<bv8>)
    ensures c in IndicesUpto(buf, entries, count) <==> exists index, j :: index < count && PlacedAt(buf, entries, c, index, j)
    decreases count
  {
    if count > 0 {
      IndicesUptoMembers(buf, entries, count - 1, c);
      EntriesAtMembers(buf, count - 1, entries, c);
      if exists index, j :: index < count && PlacedAt(buf, entries, c, index, j) {
        var index, j :| index < count && PlacedAt(buf, entries, c, index, j);
        if index < count - 1 {
          assert index < count - 1 && PlacedAt(buf, entries, c, index, j);
        } else {
          assert PlacedAt(buf, entries, c, count - 1, j);
        }
      }
    }
  }

  /**
   * The stage yields exactly the seed overwritten by some dictionary entry at
   * some index where the entry ends strictly before the seed's last byte; an
   * empty dictionary yields nothing.
   */
  lemma DictionaryStageMembers(buf: seq<bv8>, sortedDictionary: seq<seq<bv8>>, c: seq<bv8>)
    ensures c in DictionaryStageOutput(buf, sortedDictionary)
      <==> exists index, j :: PlacedAt(buf, sortedDictionary, c, index, j)
  {
    if sortedDictionary != [] {
      IndicesUptoMembers(buf, sortedDictionary, |buf|, c);
      if exists index, j :: PlacedAt(buf, sortedDictionary, c, index, j) {
        var index, j :| PlacedAt(buf, sortedDictionary, c, index, j);
        assert index < |buf| && PlacedAt(buf, sortedDictionary, c, index, j);
      }
    }
  }

  /**
   * Because an entry must end before the last byte, every candidate keeps the
   * seed's length and its last byte; an entry as long as the seed is never used.
   */
  lemma DictionaryKeepsLastByte(buf: seq<bv8>, sortedDictionary: seq<seq<bv8>>, c: seq<bv8>)
    requires c in DictionaryStageOutput(buf, sortedDictionary)
    ensures |c| == |buf| && c[|buf| - 1] == buf[|buf| - 1]
  {
    DictionaryStageMembers(buf, sortedDictionary, c);
    var index, j :| PlacedAt(buf, sortedDictionary, c, index, j);
  }
}
