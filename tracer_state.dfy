/**
 * The per-thread state of the native tracer. Every single-step event reports
 * the method and bytecode location about to run; a step that does not simply
 * continue at the next location of the same method is a jump, and the tracer
 * counts how often each (from, to) pair was taken.
 */
module TracerState {
  import opened Wrappers
  import opened JavaInts

  /** A jump from a location of one method to a location of another (or the same). */
  datatype BranchTuple = BranchTuple(fromMethodId: int, fromLocation: int, toMethodId: int, toLocation: int)

  /** The tracer's fields as a value: the last step seen and the hit count of every jump. */
  datatype Snapshot = Snapshot(previousMethodId: Option<int>, previousLocation: int,
                               branchTuples: map<BranchTuple, int>)

  /** One single-step event. */
  datatype Event = Event(methodId: int, location: int)

  const INITIAL: Snapshot := Snapshot(None, -1, map[])

  /** A step is a jump unless it stays in the previous method at the very next location. */
  predicate IsJump(previousMethodId: Option<int>, previousLocation: int, methodId: int, location: int)
  {
    previousMethodId != Some(methodId) || previousLocation + 1 != location
  }

  /** The tuple recorded for a jump; there is no previous method before the first step. */
  function JumpTuple(previousMethodId: Option<int>, previousLocation: int, methodId: int, location: int): (t: BranchTuple)
    ensures t.toMethodId == methodId && t.toLocation == location
    ensures t.fromLocation == previousLocation
    ensures t.fromMethodId == (if previousMethodId.Some? then previousMethodId.value else -1)
  {
    BranchTuple(if previousMethodId.Some? then previousMethodId.value else -1, previousLocation, methodId, location)
  }

  /** The hit count of t, zero when it was never recorded. */
  function CountOf(m: map<BranchTuple, int>, t: BranchTuple): int
  {
    if t in m then m[t] else 0
  }

  /** The state after one step, as `step` leaves it; the count is a Java `Int` and wraps. */
  function Stepped(s: Snapshot, e: Event): (r: Snapshot)
    ensures r.previousMethodId == Some(e.methodId) && r.previousLocation == e.location
    ensures !IsJump(s.previousMethodId, s.previousLocation, e.methodId, e.location) ==>
              r.branchTuples == s.branchTuples
    ensures IsJump(s.previousMethodId, s.previousLocation, e.methodId, e.location) ==>
              var t := JumpTuple(s.previousMethodId, s.previousLocation, e.methodId, e.location);
              && r.branchTuples.Keys == s.branchTuples.Keys + {t}
              && r.branchTuples[t] == Wrap32(CountOf(s.branchTuples, t) + 1)
              && (forall u :: u in s.branchTuples && u != t ==> r.branchTuples[u] == s.branchTuples[u])
  {
    var counts :=
      if IsJump(s.previousMethodId, s.previousLocation, e.methodId, e.location) then
        var t := JumpTuple(s.previousMethodId, s.previousLocation, e.methodId, e.location);
        s.branchTuples[t := Wrap32(CountOf(s.branchTuples, t) + 1)]
      else s.branchTuples;
    Snapshot(Some(e.methodId), e.location, counts)
  }

  /** The state after a whole sequence of events, starting from a fresh tracer. */
  function Replay(events: seq<Event>): Snapshot
  {
    if events == [] then INITIAL else Stepped(Replay(events[..|events| - 1]), events[|events| - 1])
  }

  /** Whether event k of the trace is a jump: the first event always is. */
  predicate JumpAt(events: seq<Event>, k: nat)
    requires k < |events|
  {
    if k == 0 then true
    else IsJump(Some(events[k - 1].methodId), events[k - 1].location, events[k].methodId, events[k].location)
  }

  /** The tuple event k records when it is a jump, read off events k - 1 and k alone. */
  function TupleAt(events: seq<Event>, k: nat): (t: BranchTuple)
    requires k < |events|
    ensures k == 0 ==> t.fromMethodId == -1 && t.fromLocation == -1
  {
    if k == 0 then BranchTuple(-1, -1, events[0].methodId, events[0].location)
    else BranchTuple(events[k - 1].methodId, events[k - 1].location, events[k].methodId, events[k].location)
  }

  /** How many events of the trace record the tuple t. */
  function Occurrences(events: seq<Event>, t: BranchTuple): (n: nat)
    ensures n <= |events|
  {
    if events == [] then 0
    else
      var k := |events| - 1;
      Occurrences(events[..k], t) + (if JumpAt(events, k) && TupleAt(events, k) == t then 1 else 0)
  }

  lemma Wrap32Succ(x: int)
    ensures Wrap32(Wrap32(x) + 1) == Wrap32(x + 1)
  {
    var a, b := Wrap32(Wrap32(x) + 1), Wrap32(x + 1);
    assert (a - b) % 0x1_0000_0000 == 0;
  }

  /**
   * After any trace the tracer remembers the last event, and the count kept for
   * each tuple is the number of events that recorded it (modulo 2^32, read
   * signed); a tuple no event recorded has no entry.
   */
  lemma {:induction false} ReplayCounts(events: seq<Event>, t: BranchTuple)
    ensures events != [] ==> Replay(events).previousMethodId == Some(events[|events| - 1].methodId)
    ensures events != [] ==> Replay(events).previousLocation == events[|events| - 1].location
    ensures t in Replay(events).branchTuples <==> Occurrences(events, t) > 0
    ensures CountOf(Replay(events).branchTuples, t) == Wrap32(Occurrences(events, t))
  {
    if events != [] {
      var k := |events| - 1;
      var prefix := events[..k];
      ReplayCounts(prefix, t);
      var s := Replay(prefix);
      if k > 0 {
        ReplayCounts(prefix, BranchTuple(0, 0, 0, 0));
        assert prefix[k - 1] == events[k - 1];
        assert s.previousMethodId == Some(events[k - 1].methodId);
        assert s.previousLocation == events[k - 1].location;
      }
      assert JumpAt(events, k) == IsJump(s.previousMethodId, s.previousLocation, events[k].methodId, events[k].location);
      assert TupleAt(events, k) == JumpTuple(s.previousMethodId, s.previousLocation, events[k].methodId, events[k].location);
      if JumpAt(events, k) && TupleAt(events, k) == t {
        Wrap32Succ(Occurrences(prefix, t));
      }
    }
  }

  /** The first event of any trace is recorded once, coming from method -1 at location -1. */
  lemma FirstEventRecorded(e: Event)
    ensures Replay([e]).branchTuples == map[BranchTuple(-1, -1, e.methodId, e.location) := 1]
  {
    assert [e][..0] == [];
  }

  /** The tracer object whose `step` the single-step callback calls. */
  class Tracer {
    var previousMethodId: Option<int>
    var previousLocation: int
    var branchTuples: map<BranchTuple, int>

    ghost function State(): Snapshot
      reads this
    {
      Snapshot(previousMethodId, previousLocation, branchTuples)
    }

    constructor()
      ensures State() == INITIAL
    {
      previousMethodId := None;
      previousLocation := -1;
      branchTuples := map[];
    }

    /** Records the step as a jump if it is one, then remembers it as the previous step. */
    method Step(methodId: int, location: int)
      modifies this
      ensures State() == Stepped(old(State()), Event(methodId, location))
    {
      if previousMethodId != Some(methodId) || previousLocation + 1 != location {
        var tuple := BranchTuple(if previousMethodId.Some? then previousMethodId.value else -1,
                                 previousLocation, methodId, location);
        var oldCount := if tuple in branchTuples then branchTuples[tuple] else 0;
        branchTuples := branchTuples[tuple := Wrap32(oldCount + 1)];
      }
      previousMethodId := Some(methodId);
      previousLocation := location;
    }
  }
}
