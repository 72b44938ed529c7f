/**
 * `PersistFile.ByteArrayInputQueue`: an input queue kept in memory by
 * `ListBacked` and saved to a file in one `ByteBuffer` (big-endian, the
 * buffer's default order).  The layout is a 4-byte case count, then per
 * case a 4-byte length and the bytes, a 4-byte hash count (0 for none) and
 * each hash in 4 bytes, and an 8-byte nano time (-1 for none).  The file is
 * an input here: `None` when it does not exist, otherwise its bytes.
 */
module PersistFile {
  import opened Wrappers
  import JavaInts
  import Queue

  /** The default `writeBuffer`: `ByteBuffer.allocateDirect(300000)`. */
  const BUFFER_SIZE: nat := 300000

  const UNDERFLOW := "BufferUnderflowException"
  const OVERFLOW := "BufferOverflowException"
  const NEGATIVE_SIZE := "NegativeArraySizeException"
  const ILLEGAL_CAPACITY := "IllegalArgumentException: Illegal Capacity"
  const NOT_LARGE_ENOUGH := "IllegalArgumentException: Buffer not large enough"

  // ------------------------------------------------------ big-endian numbers

  /** A cell of the buffer: the unsigned value of the byte it holds. */
  type Byte = b: int | 0 <= b < 0x100

  /** A 32-bit word, most significant byte first. */
  function Word(w: nat): (r: seq<Byte>)
    requires w < 0x1_0000_0000
    ensures |r| == 4
  {
    [w / 0x100_0000, w / 0x1_0000 % 0x100, w / 0x100 % 0x100, w % 0x100]
  }

  /** The word stored at p. */
  function WordAt(d: seq<Byte>, p: nat): nat
    requires p + 4 <= |d|
  {
    d[p] as int * 0x100_0000 + d[p + 1] as int * 0x1_0000 + d[p + 2] as int * 0x100 + d[p + 3] as int
  }

  /** `putInt`: the 4 bytes of a Java int. */
  function IntBytes(x: int): (r: seq<Byte>)
    ensures |r| == 4
  {
    Word(x % 0x1_0000_0000)
  }

  /** `putLong`: the 8 bytes of a Java long, high word first. */
  function LongBytes(x: int): (r: seq<Byte>)
    ensures |r| == 8
  {
    var u := x % 0x1_0000_0000_0000_0000;
    Word(u / 0x1_0000_0000) + Word(u % 0x1_0000_0000)
  }

  /** An unsigned 32-bit value read as a Java int. */
  function Signed32(u: nat): int
  {
    if u < 0x8000_0000 then u else u - 0x1_0000_0000
  }

  /** An unsigned 64-bit value read as a Java long. */
  function Signed64(u: nat): int
  {
    if u < 0x8000_0000_0000_0000 then u else u - 0x1_0000_0000_0000_0000
  }

  /** A case's bytes as the buffer holds them. */
  function Unsigned(bs: seq<bv8>): (r: seq<Byte>)
    ensures |r| == |bs|
  {
    seq(|bs|, k requires 0 <= k < |bs| => bs[k] as int)
  }

  /** Buffer cells copied out into a `ByteArray`. */
  function ToBytes(xs: seq<Byte>): (r: seq<bv8>)
    ensures |r| == |xs|
  {
    seq(|xs|, k requires 0 <= k < |xs| => ByteOf(xs[k]))
  }

  /** The byte holding n, built bit by bit. */
  function ByteOf(n: nat): bv8
    requires n < 0x100
    decreases n
  {
    if n == 0 then 0 else (ByteOf(n / 2) << 1) | (if n % 2 == 1 then 1 else 0)
  }

  // ------------------------------------------------------ the layout

  /** Each int in 4 bytes, in order. */
  function IntsBytes(xs: seq<int>): (r: seq<Byte>)
    ensures |r| == 4 * |xs|
  {
    if xs == [] then [] else IntsBytes(xs[..|xs| - 1]) + IntBytes(xs[|xs| - 1])
  }

  /** How many hashes are stored: `branchHashes?.size ?: 0`. */
  function HashCount(c: Queue.TestCase): nat
  {
    if c.branchHashes.Some? then |c.branchHashes.value| else 0
  }

  function HashList(c: Queue.TestCase): seq<int>
  {
    if c.branchHashes.Some? then c.branchHashes.value else []
  }

  /** The time stored for a case: `nanoTime ?: -1`. */
  function TimeOf(c: Queue.TestCase): int
  {
    if c.nanoTime.Some? then c.nanoTime.value else -1
  }

  /** The bytes `writeQueue` puts for one case. */
  function EncodeCase(c: Queue.TestCase): (r: seq<Byte>)
    ensures |r| == 16 + |c.bytes| + 4 * HashCount(c)
  {
    IntBytes(|c.bytes|) + (Unsigned(c.bytes) + HashesAndTime(c))
  }

  /** The part of a case after its bytes. */
  function HashesAndTime(c: Queue.TestCase): (r: seq<Byte>)
    ensures |r| == 12 + 4 * HashCount(c)
  {
    IntBytes(HashCount(c)) + (IntsBytes(HashList(c)) + LongBytes(TimeOf(c)))
  }

  function EncodeCases(cs: seq<Queue.TestCase>): seq<Byte>
  {
    if cs == [] then [] else EncodeCase(cs[0]) + EncodeCases(cs[1..])
  }

  /** The bytes `writeQueue` puts for the whole queue. */
  function EncodeQueue(cs: seq<Queue.TestCase>): seq<Byte>
  {
    IntBytes(|cs|) + EncodeCases(cs)
  }

  /** A case the layout can hold: its sizes, hashes and time fit their Java types. */
  predicate Storable(c: Queue.TestCase)
  {
    |c.bytes| <= JavaInts.INT_MAX && HashCount(c) <= JavaInts.INT_MAX &&
    (forall h :: h in HashList(c) ==> JavaInts.IsInt(h)) &&
    (c.nanoTime.Some? ==> JavaInts.IsLong(c.nanoTime.value))
  }

  /**
   * What loading makes of a stored case: no hashes and an empty hash list
   * both load as null, and a negative time loads as null.
   */
  function Reloaded(c: Queue.TestCase): Queue.TestCase
  {
    Queue.TestCase(c.bytes,
                   if HashCount(c) > 0 then c.branchHashes else None,
                   if c.nanoTime.Some? && c.nanoTime.value >= 0 then c.nanoTime else None)
  }

  function ReloadedAll(cs: seq<Queue.TestCase>): (r: seq<Queue.TestCase>)
    ensures |r| == |cs| && forall k :: 0 <= k < |cs| ==> r[k] == Reloaded(cs[k])
  {
    seq(|cs|, k requires 0 <= k < |cs| => Reloaded(cs[k]))
  }

  // ------------------------------------------------------ decoding

  /** The int stored at p. */
  function IntAt(d: seq<Byte>, p: nat): int
    requires p + 4 <= |d|
  {
    Signed32(WordAt(d, p))
  }

  /** The long stored at p. */
  function LongAt(d: seq<Byte>, p: nat): int
    requires p + 8 <= |d|
  {
    Signed64(WordAt(d, p) * 0x1_0000_0000 + WordAt(d, p + 4))
  }

  /** `getInt` at p, or an underflow. */
  function ReadInt(d: seq<Byte>, p: nat): Option<int>
  {
    if p + 4 <= |d| then Some(IntAt(d, p)) else None
  }

  function ReadLong(d: seq<Byte>, p: nat): Option<int>
  {
    if p + 8 <= |d| then Some(LongAt(d, p)) else None
  }

  /** n ints from p on. */
  function ReadInts(d: seq<Byte>, p: nat, n: nat): (r: Option<seq<int>>)
    ensures r.Some? <==> p + 4 * n <= |d|
    ensures r.Some? ==> |r.value| == n
  {
    if p + 4 * n <= |d| then Some(seq(n, k requires 0 <= k < n => IntAt(d, p + 4 * k))) else None
  }

  /**
   * One case from p on, and where the next starts: the byte count (a
   * negative one fails the array allocation), then the bytes.
   */
  function DecodeCase(d: seq<Byte>, p: nat): Result<(Queue.TestCase, nat), string>
  {
    var size := ReadInt(d, p);
    if size.None? then Err(UNDERFLOW)
    else if size.value < 0 then Err(NEGATIVE_SIZE)
    else if p + 4 + size.value > |d| then Err(UNDERFLOW)
    else DecodeHashes(d, ToBytes(d[p + 4..p + 4 + size.value]), p + 4 + size.value)
  }

  /** The rest of a case from q on: the hash count, and the hashes only when it is positive. */
  function DecodeHashes(d: seq<Byte>, bytes: seq<bv8>, q: nat): Result<(Queue.TestCase, nat), string>
  {
    var count := ReadInt(d, q);
    if count.None? then Err(UNDERFLOW)
    else if count.value <= 0 then DecodeTime(d, bytes, None, q + 4)
    else
      var hashes := ReadInts(d, q + 4, count.value);
      if hashes.None? then Err(UNDERFLOW)
      else DecodeTime(d, bytes, hashes, q + 4 + 4 * count.value)
  }

  /** The end of a case from q on: the time, kept when it is not negative. */
  function DecodeTime(d: seq<Byte>, bytes: seq<bv8>, hashes: Option<seq<int>>, q: nat): Result<(Queue.TestCase, nat), string>
  {
    var time := ReadLong(d, q);
    if time.None? then Err(UNDERFLOW)
    else Ok((Queue.TestCase(bytes, hashes, if time.value >= 0 then Some(time.value) else None), q + 8))
  }

  /** A decoded case without where it ends. */
  function Outcome(r: Result<(Queue.TestCase, nat), string>): Result<Queue.TestCase, string>
  {
    if r.Ok? then Ok(r.value.0) else Err(r.error)
  }

  /** The cases decoded so far put in front of what the rest decodes to. */
  function Prepend(done: seq<Queue.TestCase>, r: Result<(seq<Queue.TestCase>, nat), string>): Result<(seq<Queue.TestCase>, nat), string>
  {
    if r.Err? then r else Ok((done + r.value.0, r.value.1))
  }

  /** count turns of a case decoder from p, each starting where the one before ended. */
  function Repeat(step: nat -> Result<(Queue.TestCase, nat), string>, p: nat, count: nat): Result<(seq<Queue.TestCase>, nat), string>
    decreases count
  {
    if count == 0 then Ok(([], p))
    else
      var first := step(p);
      if first.Err? then Err(first.error)
      else Prepend([first.value.0], Repeat(step, first.value.1, count - 1))
  }

  function CaseDecoder(d: seq<Byte>): nat -> Result<(Queue.TestCase, nat), string>
  {
    (q: nat) => DecodeCase(d, q)
  }

  /** count cases from p on. */
  function DecodeCases(d: seq<Byte>, p: nat, count: nat): Result<(seq<Queue.TestCase>, nat), string>
  {
    Repeat(CaseDecoder(d), p, count)
  }

  /** The buffer's contents as the init block reads them: the count (a negative one fails `ArrayList(len)`), then the cases. */
  function DecodeQueue(d: seq<Byte>): Result<seq<Queue.TestCase>, string>
  {
    var len := ReadInt(d, 0);
    if len.None? then Err(UNDERFLOW)
    else if len.value < 0 then Err(ILLEGAL_CAPACITY)
    else
      var r := DecodeCases(d, 4, len.value);
      if r.Err? then Err(r.error) else Ok(r.value.0)
  }

  /**
   * The queue the init block starts from: empty for a missing file; an
   * empty file makes the read return -1 and fails the `require`; otherwise
   * one read fills the buffer with at most its capacity.
   */
  function LoadSpec(file: Option<seq<Byte>>, capacity: nat): Result<seq<Queue.TestCase>, string>
  {
    if file.None? then Ok([])
    else if file.value == [] then Err(NOT_LARGE_ENOUGH)
    else DecodeQueue(file.value[..if |file.value| < capacity then |file.value| else capacity])
  }

  // ------------------------------------------------------ the buffer

  /** A `ByteBuffer` being read after `flip()`: its contents up to the limit and its cursor. */
  class ReadBuffer {
    const data: seq<Byte>
    var position: nat

    constructor (data: seq<Byte>)
      ensures this.data == data && position == 0
    {
      this.data := data;
      position := 0;
    }

    /** `getInt()`: an underflow leaves the cursor where it was. */
    method GetInt() returns (r: Option<int>)
      modifies this
      ensures r == ReadInt(data, old(position))
      ensures position == if r.Some? then old(position) + 4 else old(position)
    {
      if position + 4 > |data| {
        return None;
      }
      r := Some(IntAt(data, position));
      position := position + 4;
    }

    method GetLong() returns (r: Option<int>)
      modifies this
      ensures r == ReadLong(data, old(position))
      ensures position == if r.Some? then old(position) + 8 else old(position)
    {
      if position + 8 > |data| {
        return None;
      }
      r := Some(LongAt(data, position));
      position := position + 8;
    }

    /** `get(dst)` into an array of n bytes. */
    method Get(n: nat) returns (r: Option<seq<Byte>>)
      modifies this
      ensures old(position) + n <= |data| ==> r == Some(data[old(position)..old(position) + n]) && position == old(position) + n
      ensures old(position) + n > |data| ==> r.None? && position == old(position)
    {
      if position + n > |data| {
        return None;
      }
      r := Some(data[position..position + n]);
      position := position + n;
    }
  }

  /** A `ByteBuffer` being written: what has been put and its capacity. */
  class WriteBuffer {
    const capacity: nat
    var data: seq<Byte>

    /** `clear()`. */
    constructor (capacity: nat)
      ensures this.capacity == capacity && data == []
    {
      this.capacity := capacity;
      data := [];
    }

    /** A relative put: an overflow throws and writes nothing. */
    method Put(bs: seq<Byte>) returns (ok: bool)
      modifies this
      ensures ok <==> |old(data)| + |bs| <= capacity
      ensures data == if ok then old(data) + bs else old(data)
    {
      if |data| + |bs| > capacity {
        return false;
      }
      data := data + bs;
      ok := true;
    }
  }

  // ------------------------------------------------------ writing

  /**
   * `writeQueue`'s body: the bytes it hands to the file, or `None` when the
   * buffer overflows, which throws before anything reaches the file.
   */
  method WriteQueue(list: seq<Queue.TestCase>, capacity: nat) returns (r: Option<seq<Byte>>)
    ensures r.Some? <==> |EncodeQueue(list)| <= capacity
    ensures r.Some? ==> r.value == EncodeQueue(list)
  {
    var buf := new WriteBuffer(capacity);
    var ok := buf.Put(IntBytes(|list|));
    if !ok {
      return None;
    }
    var i := 0;
    while i < |list|
      invariant 0 <= i <= |list|
      invariant buf.data == IntBytes(|list|) + EncodeCases(list[..i]) && buf.capacity == capacity
      invariant |buf.data| <= capacity
    {
      ghost var before := buf.data;
      EncodeCasesStep(list, i);
      ok := WriteCase(buf, list[i]);
      if !ok {
        EncodeCasesGrow(list, i + 1);
        return None;
      }
      Concat3(IntBytes(|list|), EncodeCases(list[..i]), EncodeCase(list[i]));
      i := i + 1;
    }
    assert list[..i] == list;
    r := Some(buf.data);
  }

  /** One case of the `forEach`. */
  method WriteCase(buf: WriteBuffer, c: Queue.TestCase) returns (ok: bool)
    modifies buf
    ensures ok <==> |old(buf.data)| + |EncodeCase(c)| <= buf.capacity
    ensures ok ==> buf.data == old(buf.data) + EncodeCase(c)
  {
    ghost var start := buf.data;
    ok := buf.Put(IntBytes(|c.bytes|));
    if !ok {
      return;
    }
    ok := buf.Put(Unsigned(c.bytes));
    if !ok {
      return;
    }
    ok := buf.Put(IntBytes(HashCount(c)));
    if !ok {
      return;
    }
    ok := WriteHashes(buf, HashList(c));
    if !ok {
      return;
    }
    ok := buf.Put(LongBytes(if c.nanoTime.Some? then c.nanoTime.value else -1));
    Concat5(start, IntBytes(|c.bytes|), Unsigned(c.bytes), IntBytes(HashCount(c)), IntsBytes(HashList(c)), LongBytes(TimeOf(c)));
  }

  lemma Concat3<T>(a: seq<T>, b: seq<T>, c: seq<T>)
    ensures a + b + c == a + (b + c)
  {
  }

  lemma Concat5<T>(s: seq<T>, a: seq<T>, b: seq<T>, c: seq<T>, d: seq<T>, e: seq<T>)
    ensures s + a + b + c + d + e == s + (a + (b + (c + (d + e))))
  {
  }

  /** The inner `forEach`: each hash as an int. */
  method WriteHashes(buf: WriteBuffer, hashes: seq<int>) returns (ok: bool)
    modifies buf
    ensures ok <==> |old(buf.data)| + 4 * |hashes| <= buf.capacity
    ensures ok ==> buf.data == old(buf.data) + IntsBytes(hashes)
  {
    ghost var start := buf.data;
    var j := 0;
    while j < |hashes|
      invariant 0 <= j <= |hashes|
      invariant buf.data == start + IntsBytes(hashes[..j])
    {
      assert hashes[..j + 1][..j] == hashes[..j];
      ok := buf.Put(IntBytes(hashes[j]));
      if !ok {
        return;
      }
      j := j + 1;
    }
    assert hashes[..j] == hashes;
    ok := |buf.data| <= buf.capacity;
  }

  lemma EncodeCasesStep(list: seq<Queue.TestCase>, i: nat)
    requires i < |list|
    ensures EncodeCases(list[..i + 1]) == EncodeCases(list[..i]) + EncodeCase(list[i])
  {
    assert list[..i + 1] == list[..i] + [list[i]];
    EncodeCasesSnoc(list[..i], list[i]);
  }

  lemma {:induction false} EncodeCasesSnoc(cs: seq<Queue.TestCase>, c: Queue.TestCase)
    ensures EncodeCases(cs + [c]) == EncodeCases(cs) + EncodeCase(c)
    decreases |cs|
  {
    if cs == [] {
      assert EncodeCases([c]) == EncodeCase(c) + EncodeCases([]);
    } else {
      assert (cs + [c])[1..] == cs[1..] + [c];
      EncodeCasesSnoc(cs[1..], c);
      Concat3(EncodeCase(cs[0]), EncodeCases(cs[1..]), EncodeCase(c));
    }
  }

  /** Encoding a longer prefix of the cases gives at least as many bytes. */
  lemma {:induction false} EncodeCasesGrow(list: seq<Queue.TestCase>, i: nat)
    requires i <= |list|
    ensures |EncodeCases(list[..i])| <= |EncodeCases(list)|
    decreases |list| - i
  {
    if i < |list| {
      EncodeCasesGrow(list, i + 1);
      EncodeCasesStep(list, i);
    } else {
      assert list[..i] == list;
    }
  }

  // ------------------------------------------------------ reading

  /** The init block's `mapTo` body: one `TestCase` read from the cursor. */
  method ReadCase(buf: ReadBuffer) returns (r: Result<Queue.TestCase, string>)
    modifies buf
    ensures var spec := DecodeCase(buf.data, old(buf.position));
      r == Outcome(spec) && (r.Ok? ==> buf.position == spec.value.1)
  {
    var size := buf.GetInt();
    if size.None? {
      return Err(UNDERFLOW);
    }
    if size.value < 0 {
      return Err(NEGATIVE_SIZE);
    }
    var bytes := buf.Get(size.value);
    if bytes.None? {
      return Err(UNDERFLOW);
    }
    r := ReadHashesAndTime(buf, ToBytes(bytes.value));
  }

  /** The hash count and the hashes of a case. */
  method ReadHashesAndTime(buf: ReadBuffer, bytes: seq<bv8>) returns (r: Result<Queue.TestCase, string>)
    modifies buf
    ensures var spec := DecodeHashes(buf.data, bytes, old(buf.position));
      r == Outcome(spec) && (r.Ok? ==> buf.position == spec.value.1)
  {
    var count := buf.GetInt();
    if count.None? {
      return Err(UNDERFLOW);
    }
    var branchHashes: Option<seq<int>> := None;
    if count.value > 0 {
      var hashes := ReadHashes(buf, count.value);
      if hashes.None? {
        return Err(UNDERFLOW);
      }
      branchHashes := hashes;
    }
    r := ReadTime(buf, bytes, branchHashes);
  }

  /** The time of a case, and the case. */
  method ReadTime(buf: ReadBuffer, bytes: seq<bv8>, hashes: Option<seq<int>>) returns (r: Result<Queue.TestCase, string>)
    modifies buf
    ensures var spec := DecodeTime(buf.data, bytes, hashes, old(buf.position));
      r == Outcome(spec) && (r.Ok? ==> buf.position == spec.value.1)
  {
    var time := buf.GetLong();
    if time.None? {
      return Err(UNDERFLOW);
    }
    r := Ok(Queue.TestCase(bytes, hashes, if time.value >= 0 then Some(time.value) else None));
  }

  /** `(0 until size).map { writeBuffer.int }`; the cursor never passes the limit. */
  method ReadHashes(buf: ReadBuffer, n: nat) returns (r: Option<seq<int>>)
    requires buf.position <= |buf.data|
    modifies buf
    ensures r == ReadInts(buf.data, old(buf.position), n)
    ensures r.Some? ==> buf.position == old(buf.position) + 4 * n
  {
    ghost var p := buf.position;
    var hashes: seq<int> := [];
    var j := 0;
    while j < n
      invariant 0 <= j <= n
      invariant buf.position == p + 4 * j && p + 4 * j <= |buf.data|
      invariant |hashes| == j && forall k :: 0 <= k < j ==> hashes[k] == IntAt(buf.data, p + 4 * k)
    {
      var h := buf.GetInt();
      if h.None? {
        assert p + 4 * n > |buf.data|;
        return None;
      }
      hashes := hashes + [h.value];
      j := j + 1;
    }
    assert hashes == seq(n, k requires 0 <= k < n => IntAt(buf.data, p + 4 * k));
    r := Some(hashes);
  }

  /** The init block's `(0 until len).mapTo(ArrayList(len)) { ... }` over a flipped buffer. */
  method ReadQueue(buf: ReadBuffer) returns (r: Result<seq<Queue.TestCase>, string>)
    requires buf.position == 0
    modifies buf
    ensures r == DecodeQueue(buf.data)
  {
    var len := buf.GetInt();
    if len.None? {
      return Err(UNDERFLOW);
    }
    var n := len.value;
    if n < 0 {
      return Err(ILLEGAL_CAPACITY);
    }
    ghost var d := buf.data;
    var out: seq<Queue.TestCase> := [];
    var i := 0;
    while i < n
      invariant 0 <= i <= n
      invariant DecodeCases(d, 4, i) == Ok((out, buf.position))
    {
      var c := ReadNext(buf, out, i, n);
      if c.Err? {
        return Err(c.error);
      }
      out := out + [c.value];
      i := i + 1;
    }
    r := Ok(out);
  }

  /** One turn of the `mapTo` loop: the i cases in done have been read and case i of n is next. */
  method ReadNext(buf: ReadBuffer, ghost done: seq<Queue.TestCase>, ghost i: nat, ghost n: nat) returns (c: Result<Queue.TestCase, string>)
    requires i < n && DecodeCases(buf.data, 4, i) == Ok((done, buf.position))
    modifies buf
    ensures c.Err? ==> DecodeCases(buf.data, 4, n) == Err(c.error)
    ensures c.Ok? ==> DecodeCases(buf.data, 4, i + 1) == Ok((done + [c.value], buf.position))
  {
    ghost var q := buf.position;
    RepeatSnoc(CaseDecoder(buf.data), 4, i, done, q);
    c := ReadCase(buf);
    if c.Err? {
      RepeatStop(CaseDecoder(buf.data), 4, i, n, done, q);
    }
  }

  /** One turn more than i is the i turns, then one turn from where they end. */
  lemma {:induction false} RepeatSnoc(step: nat -> Result<(Queue.TestCase, nat), string>, p: nat, i: nat, xs: seq<Queue.TestCase>, q: nat)
    requires Repeat(step, p, i) == Ok((xs, q))
    ensures var next := step(q);
      Repeat(step, p, i + 1) == if next.Err? then Err(next.error) else Ok((xs + [next.value.0], next.value.1))
    decreases i
  {
    var next := step(q);
    if i > 0 {
      var first := step(p);
      var rest := Repeat(step, first.value.1, i - 1);
      RepeatSnoc(step, first.value.1, i - 1, rest.value.0, q);
      if next.Ok? {
        assert [first.value.0] + (rest.value.0 + [next.value.0]) == xs + [next.value.0];
      }
    } else if next.Ok? {
      assert [next.value.0] + [] == xs + [next.value.0];
    }
  }

  /** A turn that fails after the first i fails the whole count of n > i turns, with its message. */
  lemma {:induction false} RepeatStop(step: nat -> Result<(Queue.TestCase, nat), string>, p: nat, i: nat, n: nat, xs: seq<Queue.TestCase>, q: nat)
    requires i < n && Repeat(step, p, i) == Ok((xs, q)) && step(q).Err?
    ensures Repeat(step, p, n) == Err(step(q).error)
    decreases i
  {
    if i > 0 {
      var first := step(p);
      var rest := Repeat(step, first.value.1, i - 1);
      RepeatStop(step, first.value.1, i - 1, n - 1, rest.value.0, q);
    }
  }

  /**
   * The init block: a missing file is an empty list; otherwise the file is
   * read into the buffer, which is flipped and decoded.
   */
  method Load(file: Option<seq<Byte>>, capacity: nat) returns (r: Result<seq<Queue.TestCase>, string>)
    ensures r == LoadSpec(file, capacity)
  {
    if file.None? {
      return Ok([]);
    }
    if |file.value| == 0 {
      return Err(NOT_LARGE_ENOUGH);
    }
    var n := if |file.value| < capacity then |file.value| else capacity;
    var buf := new ReadBuffer(file.value[..n]);
    r := ReadQueue(buf);
  }

  // ------------------------------------------------------ the queue

  /** `PersistFile.ByteArrayInputQueue` with synchronous writes: the in-memory queue and the file's contents. */
  class InputQueue {
    const inMemory: Queue.ListBacked
    const capacity: nat
    var file: Option<seq<Byte>>

    constructor (inMemory: Queue.ListBacked, capacity: nat, file: Option<seq<Byte>>)
      ensures this.inMemory == inMemory && this.capacity == capacity && this.file == file
    {
      this.inMemory := inMemory;
      this.capacity := capacity;
      this.file := file;
    }

    /** `enqueue`, delegated to the in-memory queue. */
    method Enqueue(testCase: Queue.TestCase)
      modifies inMemory
      ensures inMemory.queue == old(inMemory.queue) + [testCase]
      ensures inMemory.enqueuedSinceLastDequeued && inMemory.queueCounter == old(inMemory.queueCounter)
    {
      inMemory.Enqueue(testCase);
    }

    /** `cullAndDequeue`, delegated: culling and numbering are `ListBacked`'s. */
    method CullAndDequeue() returns (r: Option<Queue.QueueEntry>)
      modifies inMemory
      ensures old(inMemory.queue) == [] ==> r.None? && unchanged(inMemory)
      ensures old(inMemory.queue) != [] ==>
        var q := if old(inMemory.enqueuedSinceLastDequeued) then Queue.Culled(old(inMemory.queue)) else old(inMemory.queue);
        && r.Some? && fresh(r.value)
        && r.value.bytes == q[0].bytes && r.value.dequeuedIndex == old(inMemory.queueCounter)
        && inMemory.queue == q[1..]
        && inMemory.queueCounter == JavaInts.Wrap64(old(inMemory.queueCounter) + 1)
    {
      r := inMemory.CullAndDequeue();
    }

    /** `onQueueMutated`: the current queue written to the file; an overflow leaves the file as it was. */
    method OnQueueMutated()
      modifies this
      ensures |EncodeQueue(inMemory.queue)| <= capacity ==> file == Some(EncodeQueue(inMemory.queue))
      ensures |EncodeQueue(inMemory.queue)| > capacity ==> file == old(file)
    {
      var written := WriteQueue(inMemory.queue, capacity);
      if written.Some? {
        file := written;
      }
    }
  }

  /**
   * Constructing the queue: the list the init block loads, its numbering
   * starting at the loaded size; a failed load throws from the constructor.
   */
  method Open(file: Option<seq<Byte>>, capacity: nat) returns (r: Result<InputQueue, string>)
    ensures r.Err? <==> LoadSpec(file, capacity).Err?
    ensures r.Ok? ==> fresh(r.value) && fresh(r.value.inMemory) && r.value.file == file
    ensures r.Ok? ==> var list := LoadSpec(file, capacity).value;
      r.value.inMemory.queue == list && r.value.inMemory.queueCounter == |list| && !r.value.inMemory.enqueuedSinceLastDequeued
  {
    var list := Load(file, capacity);
    if list.Err? {
      return Err(list.error);
    }
    var inMemory := new Queue.ListBacked(list.value);
    var q := new InputQueue(inMemory, capacity, file);
    r := Ok(q);
  }

  // ------------------------------------------------------ round trip

  /** piece sits in d at p. */
  predicate At(d: seq<Byte>, p: nat, piece: seq<Byte>)
    decreases |piece|
  {
    if piece == [] then p <= |d| else p < |d| && d[p] == piece[0] && At(d, p + 1, piece[1..])
  }

  lemma {:induction false} AtSplit(d: seq<Byte>, p: nat, a: seq<Byte>, b: seq<Byte>)
    requires At(d, p, a + b)
    ensures At(d, p, a) && At(d, p + |a|, b)
    decreases |a|
  {
    if a == [] {
      assert a + b == b;
    } else {
      assert (a + b)[1..] == a[1..] + b;
      AtSplit(d, p + 1, a[1..], b);
    }
  }

  lemma {:induction false} AtIndex(d: seq<Byte>, p: nat, piece: seq<Byte>, k: nat)
    requires At(d, p, piece) && k < |piece|
    ensures p + k < |d| && d[p + k] == piece[k]
    decreases k
  {
    if k > 0 {
      AtIndex(d, p + 1, piece[1..], k - 1);
    }
  }

  lemma {:induction false} AtEnd(d: seq<Byte>, p: nat, piece: seq<Byte>)
    requires At(d, p, piece)
    ensures p + |piece| <= |d|
    decreases |piece|
  {
    if piece != [] {
      AtEnd(d, p + 1, piece[1..]);
    }
  }

  /** The slice at a piece's place is the piece. */
  lemma AtSlice(d: seq<Byte>, p: nat, piece: seq<Byte>)
    requires At(d, p, piece)
    ensures p + |piece| <= |d| && d[p..p + |piece|] == piece
  {
    AtEnd(d, p, piece);
    forall k | 0 <= k < |piece|
      ensures d[p + k] == piece[k]
    {
      AtIndex(d, p, piece, k);
    }
  }

  /** A sequence sits in itself from its start. */
  lemma {:induction false} AtSuffix(d: seq<Byte>, p: nat)
    requires p <= |d|
    ensures At(d, p, d[p..])
    decreases |d| - p
  {
    if p < |d| {
      assert d[p..][1..] == d[p + 1..];
      AtSuffix(d, p + 1);
    }
  }

  lemma ShiftValue(v: bv8, b: bv8)
    requires v < 0x80 && b < 2
    ensures ((v << 1) | b) as int == 2 * v as int + b as int
  {
  }

  lemma {:induction false} ByteValue(n: nat)
    requires n < 0x100
    ensures ByteOf(n) as int == n
    decreases n
  {
    if n > 0 {
      ByteValue(n / 2);
      ShiftValue(ByteOf(n / 2), if n % 2 == 1 then 1 else 0);
    }
  }

  /** A byte copied into the buffer and back out is the same byte. */
  lemma ToBytesUnsigned(bs: seq<bv8>)
    ensures ToBytes(Unsigned(bs)) == bs
  {
    forall k | 0 <= k < |bs|
      ensures ToBytes(Unsigned(bs))[k] == bs[k]
    {
      ByteValue(bs[k] as int);
    }
  }

  /** A word is the sum of its four bytes' places. */
  lemma Digits(w: int)
    requires 0 <= w < 0x1_0000_0000
    ensures 0 <= w / 0x100_0000 < 0x100
    ensures w == (w / 0x100_0000) * 0x100_0000 + (w / 0x1_0000 % 0x100) * 0x1_0000 + (w / 0x100 % 0x100) * 0x100 + w % 0x100
  {
    var q0, q1, q2 := w / 0x100, w / 0x1_0000, w / 0x100_0000;
    assert q1 == q0 / 0x100 && q2 == q1 / 0x100;
    assert w == q0 * 0x100 + w % 0x100;
    assert q0 == q1 * 0x100 + q0 % 0x100;
    assert q1 == q2 * 0x100 + q1 % 0x100;
  }

  /** A word reads back as itself. */
  lemma WordAtWord(d: seq<Byte>, p: nat, w: nat)
    requires w < 0x1_0000_0000 && At(d, p, Word(w))
    ensures p + 4 <= |d| && WordAt(d, p) == w
  {
    var bs := Word(w);
    AtEnd(d, p, bs);
    AtIndex(d, p, bs, 0);
    AtIndex(d, p, bs, 1);
    AtIndex(d, p, bs, 2);
    AtIndex(d, p, bs, 3);
    Digits(w);
  }

  lemma ReadIntAt(d: seq<Byte>, p: nat, x: int)
    requires At(d, p, IntBytes(x)) && JavaInts.IsInt(x)
    ensures ReadInt(d, p) == Some(x)
  {
    WordAtWord(d, p, x % 0x1_0000_0000);
    Signed32Mod(x);
  }

  /** An int's unsigned 32-bit pattern reads back as the int. */
  lemma Signed32Mod(x: int)
    requires JavaInts.IsInt(x)
    ensures Signed32(x % 0x1_0000_0000) == x
  {
    if x < 0 {
      assert x % 0x1_0000_0000 == x + 0x1_0000_0000;
    }
  }

  /** A long's unsigned 64-bit pattern, split in words, reads back as the long. */
  lemma Signed64Mod(x: int)
    requires JavaInts.IsLong(x)
    ensures var u := x % 0x1_0000_0000_0000_0000;
      Signed64(u / 0x1_0000_0000 * 0x1_0000_0000 + u % 0x1_0000_0000) == x
  {
    var u := x % 0x1_0000_0000_0000_0000;
    assert u / 0x1_0000_0000 * 0x1_0000_0000 + u % 0x1_0000_0000 == u;
    if x < 0 {
      assert u == x + 0x1_0000_0000_0000_0000;
    }
  }

  lemma ReadLongAt(d: seq<Byte>, p: nat, x: int)
    requires At(d, p, LongBytes(x)) && JavaInts.IsLong(x)
    ensures ReadLong(d, p) == Some(x)
  {
    var u := x % 0x1_0000_0000_0000_0000;
    AtSplit(d, p, Word(u / 0x1_0000_0000), Word(u % 0x1_0000_0000));
    WordAtWord(d, p, u / 0x1_0000_0000);
    WordAtWord(d, p + 4, u % 0x1_0000_0000);
    Signed64Mod(x);
  }

  /** Each int of a stored sequence sits at its own offset. */
  lemma {:induction false} IntsBytesAt(d: seq<Byte>, p: nat, xs: seq<int>, k: nat)
    requires At(d, p, IntsBytes(xs)) && k < |xs|
    ensures At(d, p + 4 * k, IntBytes(xs[k]))
    decreases |xs|
  {
    var init := xs[..|xs| - 1];
    AtSplit(d, p, IntsBytes(init), IntBytes(xs[|xs| - 1]));
    if k < |init| {
      IntsBytesAt(d, p, init, k);
    }
  }

  lemma ReadIntsAt(d: seq<Byte>, p: nat, xs: seq<int>)
    requires At(d, p, IntsBytes(xs)) && forall x :: x in xs ==> JavaInts.IsInt(x)
    ensures ReadInts(d, p, |xs|) == Some(xs)
  {
    AtEnd(d, p, IntsBytes(xs));
    forall k | 0 <= k < |xs|
      ensures IntAt(d, p + 4 * k) == xs[k]
    {
      IntsBytesAt(d, p, xs, k);
      ReadIntAt(d, p + 4 * k, xs[k]);
    }
    assert seq(|xs|, k requires 0 <= k < |xs| => IntAt(d, p + 4 * k)) == xs;
  }

  /** Three pieces stored one after the other each sit at their own offset. */
  lemma AtParts3(d: seq<Byte>, p: nat, q: nat, r: nat, a: seq<Byte>, b: seq<Byte>, e: seq<Byte>)
    requires At(d, p, a + (b + e)) && q == p + |a| && r == q + |b|
    ensures At(d, p, a) && At(d, q, b) && At(d, r, e)
  {
    AtSplit(d, p, a, b + e);
    AtSplit(d, p + |a|, b, e);
  }

  /** A storable case, wherever it is stored, decodes to its reloaded form and ends where its encoding ends. */
  lemma DecodeCaseAt(d: seq<Byte>, p: nat, c: Queue.TestCase)
    requires At(d, p, EncodeCase(c)) && Storable(c)
    ensures DecodeCase(d, p) == Ok((Reloaded(c), p + |EncodeCase(c)|))
  {
    CaseParts(d, p, c);
    DecodeHashesAt(d, p + 4 + |c.bytes|, c);
    DecodeCaseOf(d, p, c);
  }

  /** A stored case's size reads back, its bytes sit after the size, and the rest after them. */
  lemma CaseParts(d: seq<Byte>, p: nat, c: Queue.TestCase)
    requires At(d, p, EncodeCase(c)) && Storable(c)
    ensures ReadInt(d, p) == Some(|c.bytes|) && p + 4 + |c.bytes| <= |d| && ToBytes(d[p + 4..p + 4 + |c.bytes|]) == c.bytes
    ensures At(d, p + 4 + |c.bytes|, HashesAndTime(c))
  {
    AtParts3(d, p, p + 4, p + 4 + |c.bytes|, IntBytes(|c.bytes|), Unsigned(c.bytes), HashesAndTime(c));
    ReadIntAt(d, p, |c.bytes|);
    AtSlice(d, p + 4, Unsigned(c.bytes));
    ToBytesUnsigned(c.bytes);
  }

  /** The case read from p is the stored one once its size, bytes and the rest read back. */
  lemma DecodeCaseOf(d: seq<Byte>, p: nat, c: Queue.TestCase)
    requires ReadInt(d, p) == Some(|c.bytes|) && p + 4 + |c.bytes| <= |d| && ToBytes(d[p + 4..p + 4 + |c.bytes|]) == c.bytes
    requires DecodeHashes(d, c.bytes, p + 4 + |c.bytes|) == Ok((Reloaded(c), p + 16 + |c.bytes| + 4 * HashCount(c)))
    ensures DecodeCase(d, p) == Ok((Reloaded(c), p + 16 + |c.bytes| + 4 * HashCount(c)))
  {
  }

  /** The hash count, hashes and time of a storable case decode to its reloaded hashes and time. */
  lemma DecodeHashesAt(d: seq<Byte>, q: nat, c: Queue.TestCase)
    requires Storable(c) && At(d, q, HashesAndTime(c))
    ensures DecodeHashes(d, c.bytes, q) == Ok((Reloaded(c), q + 12 + 4 * HashCount(c)))
  {
    var t := q + 4 + 4 * HashCount(c);
    AtParts3(d, q, q + 4, t, IntBytes(HashCount(c)), IntsBytes(HashList(c)), LongBytes(TimeOf(c)));
    ReadIntAt(d, q, HashCount(c));
    ReadIntsAt(d, q + 4, HashList(c));
    ReadLongAt(d, t, TimeOf(c));
    DecodeTimeOf(d, c, t);
    DecodeHashesOf(d, q, c);
  }

  /** The rest of a case read from q is the stored one once its count, hashes and time read back. */
  lemma DecodeHashesOf(d: seq<Byte>, q: nat, c: Queue.TestCase)
    requires ReadInt(d, q) == Some(HashCount(c))
    requires ReadInts(d, q + 4, HashCount(c)) == Some(HashList(c))
    requires DecodeTime(d, c.bytes, Reloaded(c).branchHashes, q + 4 + 4 * HashCount(c)) == Ok((Reloaded(c), q + 12 + 4 * HashCount(c)))
    ensures DecodeHashes(d, c.bytes, q) == Ok((Reloaded(c), q + 12 + 4 * HashCount(c)))
  {
  }

  lemma DecodeTimeOf(d: seq<Byte>, c: Queue.TestCase, q: nat)
    requires ReadLong(d, q) == Some(TimeOf(c))
    ensures DecodeTime(d, c.bytes, Reloaded(c).branchHashes, q) == Ok((Reloaded(c), q + 8))
  {
  }

  lemma DecodeCasesAt(d: seq<Byte>, p: nat, cs: seq<Queue.TestCase>)
    requires At(d, p, EncodeCases(cs)) && forall k :: 0 <= k < |cs| ==> Storable(cs[k])
    ensures DecodeCases(d, p, |cs|) == Ok((ReloadedAll(cs), p + |EncodeCases(cs)|))
  {
    ChainAt(d, p, cs);
    RepeatChain(CaseDecoder(d), p, cs);
  }

  /** Each of the cases cs, laid out one after the other from p, comes out of step as its reloaded self. */
  ghost predicate Chain(step: nat -> Result<(Queue.TestCase, nat), string>, p: nat, cs: seq<Queue.TestCase>)
    decreases |cs|
  {
    cs == [] || (step(p) == Ok((Reloaded(cs[0]), p + |EncodeCase(cs[0])|)) && Chain(step, p + |EncodeCase(cs[0])|, cs[1..]))
  }

  lemma {:induction false} ChainAt(d: seq<Byte>, p: nat, cs: seq<Queue.TestCase>)
    requires At(d, p, EncodeCases(cs)) && forall k :: 0 <= k < |cs| ==> Storable(cs[k])
    ensures Chain(CaseDecoder(d), p, cs)
    decreases |cs|
  {
    if cs != [] {
      var c, tail := cs[0], cs[1..];
      AtSplit(d, p, EncodeCase(c), EncodeCases(tail));
      DecodeCaseAt(d, p, c);
      ChainAt(d, p + |EncodeCase(c)|, tail);
    }
  }

  lemma {:induction false} RepeatChain(step: nat -> Result<(Queue.TestCase, nat), string>, p: nat, cs: seq<Queue.TestCase>)
    requires Chain(step, p, cs)
    ensures Repeat(step, p, |cs|) == Ok((ReloadedAll(cs), p + |EncodeCases(cs)|))
    decreases |cs|
  {
    if cs != [] {
      var c, tail := cs[0], cs[1..];
      RepeatChain(step, p + |EncodeCase(c)|, tail);
      assert [Reloaded(c)] + ReloadedAll(tail) == ReloadedAll(cs);
    } else {
      assert ReloadedAll(cs) == [];
    }
  }

  /** Decoding what `writeQueue` writes gives back the queue, with empty hash lists and negative times as null. */
  lemma DecodeEncode(cs: seq<Queue.TestCase>)
    requires |cs| <= JavaInts.INT_MAX && forall k :: 0 <= k < |cs| ==> Storable(cs[k])
    ensures DecodeQueue(EncodeQueue(cs)) == Ok(ReloadedAll(cs))
  {
    var d := EncodeQueue(cs);
    AtSuffix(d, 0);
    assert d[0..] == d;
    AtSplit(d, 0, IntBytes(|cs|), EncodeCases(cs));
    ReadIntAt(d, 0, |cs|);
    DecodeCasesAt(d, 4, cs);
  }

  /** A file written by `writeQueue` loads as the queue it was written from, reloaded. */
  lemma WriteThenLoad(cs: seq<Queue.TestCase>, capacity: nat)
    requires |cs| <= JavaInts.INT_MAX && forall k :: 0 <= k < |cs| ==> Storable(cs[k])
    requires |EncodeQueue(cs)| <= capacity
    ensures LoadSpec(Some(EncodeQueue(cs)), capacity) == Ok(ReloadedAll(cs))
  {
    var d := EncodeQueue(cs);
    assert d[..|d|] == d;
    DecodeEncode(cs);
  }

  /** Reloading is idempotent: a loaded queue written and loaded again is unchanged. */
  lemma ReloadedStable(cs: seq<Queue.TestCase>)
    ensures ReloadedAll(ReloadedAll(cs)) == ReloadedAll(cs)
  {
    forall k | 0 <= k < |cs|
      ensures Reloaded(Reloaded(cs[k])) == Reloaded(cs[k])
    {
    }
  }
}
