/** The reorder/dedupe buffer that merges a replayed event log with the live stream
    (apps/server/src/ws.ts). A run of the buffer is the sequence of events that arrived. */
module EventBuffer {

  datatype Event<+P> = Event(sequence: int, payload: P)

  /** The sequence numbers among the arrivals. */
  ghost function Arrived<P>(arrivals: seq<Event<P>>): (s: set<int>)
    ensures forall k :: k in s <==> exists i :: 0 <= i < |arrivals| && arrivals[i].sequence == k
  {
    set i | 0 <= i < |arrivals| :: arrivals[i].sequence
  }

  /** The event that arrived first under a sequence number. */
  ghost function FirstArrival<P>(arrivals: seq<Event<P>>, sequence: int): (e: Event<P>)
    requires sequence in Arrived(arrivals)
    ensures e in arrivals && e.sequence == sequence
  {
    if arrivals[0].sequence == sequence then arrivals[0] else FirstArrival(arrivals[1..], sequence)
  }

  /** `n` is the least number above `from` that is not in `present`. */
  ghost predicate IsFrontier(from: int, present: set<int>, n: int) {
    from < n && n !in present && forall k :: from < k < n ==> k in present
  }

  ghost function Above(from: int, present: set<int>): set<int> { set k | k in present && from < k }

  /** The least missing number above `from`. */
  ghost function Frontier(from: int, present: set<int>): (n: int)
    ensures IsFrontier(from, present, n)
    decreases |Above(from, present)|
  {
    if from + 1 in present then
      AboveShrinks(from, present);
      Frontier(from + 1, present)
    else from + 1
  }

  lemma AboveShrinks(from: int, present: set<int>)
    requires from + 1 in present
    ensures |Above(from + 1, present)| < |Above(from, present)|
  {
    assert Above(from, present) == Above(from + 1, present) + {from + 1};
  }

  lemma FrontierUnique(from: int, present: set<int>, m: int, n: int)
    requires IsFrontier(from, present, m) && IsFrontier(from, present, n)
    ensures m == n
  {}

  /** The first arrivals under `lo .. hi - 1`, in that order. */
  ghost function Segment<P>(arrivals: seq<Event<P>>, lo: int, hi: int): (out: seq<Event<P>>)
    requires lo <= hi
    requires forall k :: lo <= k < hi ==> k in Arrived(arrivals)
    ensures |out| == hi - lo
    ensures forall i :: 0 <= i < |out| ==> out[i] == FirstArrival(arrivals, lo + i)
    decreases hi - lo
  {
    if lo == hi then [] else Segment(arrivals, lo, hi - 1) + [FirstArrival(arrivals, hi - 1)]
  }

  /** What the buffer owes its subscriber after these arrivals: the events `from + 1 .. frontier - 1`. */
  ghost function Output<P>(from: int, arrivals: seq<Event<P>>): (out: seq<Event<P>>)
    ensures |out| == Frontier(from, Arrived(arrivals)) - from - 1
    ensures forall i :: 0 <= i < |out| ==> out[i].sequence == from + 1 + i
  {
    Segment(arrivals, from + 1, Frontier(from, Arrived(arrivals)))
  }

  lemma {:induction false} FirstArrivalAppend<P>(arrivals: seq<Event<P>>, e: Event<P>, sequence: int)
    requires sequence in Arrived(arrivals + [e])
    ensures FirstArrival(arrivals + [e], sequence) ==
            if sequence in Arrived(arrivals) then FirstArrival(arrivals, sequence) else e
  {
    var all := arrivals + [e];
    if arrivals == [] {
      assert all[0] == e;
    } else if all[0].sequence == sequence {
      assert arrivals[0].sequence == sequence;
    } else {
      assert all[1..] == arrivals[1..] + [e];
      ArrivedTail(arrivals, sequence);
      FirstArrivalAppend(arrivals[1..], e, sequence);
    }
  }

  lemma ArrivedTail<P>(arrivals: seq<Event<P>>, sequence: int)
    requires arrivals != [] && arrivals[0].sequence != sequence
    ensures sequence in Arrived(arrivals) <==> sequence in Arrived(arrivals[1..])
  {
    if sequence in Arrived(arrivals) {
      var i :| 0 <= i < |arrivals| && arrivals[i].sequence == sequence;
      assert arrivals[1..][i - 1].sequence == sequence;
    }
  }

  lemma ArrivedAppend<P>(arrivals: seq<Event<P>>, e: Event<P>)
    ensures Arrived(arrivals + [e]) == Arrived(arrivals) + {e.sequence}
  {
    var all := arrivals + [e];
    forall k ensures k in Arrived(all) <==> k in Arrived(arrivals) + {e.sequence} {
      if k in Arrived(arrivals) {
        var i :| 0 <= i < |arrivals| && arrivals[i].sequence == k;
        assert all[i].sequence == k;
      }
      assert all[|arrivals|] == e;
    }
  }

  /** One more arrival never retracts or reorders what was emitted. */
  lemma OutputGrows<P>(from: int, arrivals: seq<Event<P>>, e: Event<P>)
    ensures Output(from, arrivals) <= Output(from, arrivals + [e])
  {
    ArrivedAppend(arrivals, e);
    var before, after := Output(from, arrivals), Output(from, arrivals + [e]);
    var m, n := Frontier(from, Arrived(arrivals)), Frontier(from, Arrived(arrivals + [e]));
    assert n < m ==> n in Arrived(arrivals);
    forall i | 0 <= i < |before| ensures before[i] == after[i] {
      FirstArrivalAppend(arrivals, e, from + 1 + i);
    }
  }

  /** A source that always carries the same event under a sequence number. */
  ghost predicate DrawnFrom<P>(arrivals: seq<Event<P>>, log: map<int, Event<P>>) {
    forall e :: e in arrivals ==> e.sequence in log && log[e.sequence] == e
  }

  /** The output depends only on which sequence numbers arrived: not on order, not on duplicates. */
  lemma OutputDependsOnlyOnArrivedSet<P>(from: int, a: seq<Event<P>>, b: seq<Event<P>>, log: map<int, Event<P>>)
    requires DrawnFrom(a, log) && DrawnFrom(b, log)
    requires Arrived(a) == Arrived(b)
    ensures Output(from, a) == Output(from, b)
  {
    forall i | 0 <= i < |Output(from, a)| ensures Output(from, a)[i] == Output(from, b)[i] {
      assert FirstArrival(a, from + 1 + i) in a;
      assert FirstArrival(b, from + 1 + i) in b;
    }
  }

  /** An event is delivered exactly when it and every earlier event above `from` have arrived, so
      one event that neither the replay nor the live stream carries withholds all later ones. */
  lemma DeliveredIffCovered<P>(from: int, arrivals: seq<Event<P>>, s: int)
    ensures (exists e :: e in Output(from, arrivals) && e.sequence == s) <==>
            (from < s && forall k :: from < k <= s ==> k in Arrived(arrivals))
  {
    var out := Output(from, arrivals);
    var next := Frontier(from, Arrived(arrivals));
    if from < s && forall k :: from < k <= s ==> k in Arrived(arrivals) {
      assert s < next;
      assert out[s - from - 1] in out && out[s - from - 1].sequence == s;
    }
    if e :| e in out && e.sequence == s {
      var i :| 0 <= i < |out| && out[i] == e;
      assert s == from + 1 + i;
    }
  }

  /** The drain loop: take the expected event out of the pending map while it is there. */
  method Drain<P(==)>(nextSequence: int, pending: map<int, Event<P>>, ghost arrivals: seq<Event<P>>)
    returns (emit: seq<Event<P>>, expected: int, rest: map<int, Event<P>>)
    requires pending == Waiting(arrivals, nextSequence)
    ensures nextSequence <= expected && expected !in Arrived(arrivals)
    ensures forall k :: nextSequence <= k < expected ==> k in Arrived(arrivals)
    ensures rest == Waiting(arrivals, expected)
    ensures emit == Segment(arrivals, nextSequence, expected)
  {
    emit, expected, rest := [], nextSequence, pending;
    while expected in rest
      invariant nextSequence <= expected
      invariant forall k :: nextSequence <= k < expected ==> k in Arrived(arrivals)
      invariant rest == Waiting(arrivals, expected)
      invariant emit == Segment(arrivals, nextSequence, expected)
      decreases rest.Keys
    {
      emit := emit + [rest[expected]];
      rest := rest - {expected};
      expected := expected + 1;
    }
  }

  /** The `SequenceState` cell of one subscription. */
  class SequenceBuffer<P(==)> {
    const from: int
    var nextSequence: int
    var pendingBySequence: map<int, Event<P>>
    ghost var arrivals: seq<Event<P>>

    ghost predicate Valid()
      reads this
    {
      && nextSequence == Frontier(from, Arrived(arrivals))
      && pendingBySequence == Waiting(arrivals, nextSequence)
    }

    constructor (fromSequenceExclusive: int)
      ensures Valid() && from == fromSequenceExclusive && arrivals == []
    {
      from := fromSequenceExclusive;
      nextSequence := fromSequenceExclusive + 1;
      pendingBySequence := map[];
      arrivals := [];
    }

    /** One `Ref.modify`: file the event, then drain everything that has become contiguous. */
    method Accept(event: Event<P>) returns (emit: seq<Event<P>>)
      requires Valid()
      modifies this
      ensures Valid()
      ensures arrivals == old(arrivals) + [event]
      ensures Output(from, arrivals) == Output(from, old(arrivals)) + emit
    {
      ghost var was := arrivals;
      arrivals := was + [event];
      ArrivedAppend(was, event);
      if event.sequence < nextSequence || event.sequence in pendingBySequence {
        IgnoredArrival(from, was, event);
        return [];
      }
      var updatedPending := pendingBySequence[event.sequence := event];
      FiledArrival(from, was, event);
      var expected;
      emit, expected, updatedPending := Drain(nextSequence, updatedPending, arrivals);
      forall k | from < k < expected ensures k in Arrived(arrivals) {
        assert k < nextSequence ==> k in Arrived(was);
      }
      DrainedArrival(from, was, event, expected);
      nextSequence, pendingBySequence := expected, updatedPending;
    }
  }

  /** The events held back: the first arrivals at or after `next`. */
  ghost function Waiting<P>(arrivals: seq<Event<P>>, next: int): map<int, Event<P>> {
    map k | k in Arrived(arrivals) && next <= k :: FirstArrival(arrivals, k)
  }

  lemma IgnoredArrival<P>(from: int, was: seq<Event<P>>, event: Event<P>)
    requires event.sequence < Frontier(from, Arrived(was)) || event.sequence in Arrived(was)
    ensures Frontier(from, Arrived(was + [event])) == Frontier(from, Arrived(was))
    ensures Waiting(was + [event], Frontier(from, Arrived(was))) == Waiting(was, Frontier(from, Arrived(was)))
    ensures Output(from, was + [event]) == Output(from, was)
  {
    ArrivedAppend(was, event);
    var next := Frontier(from, Arrived(was));
    FrontierUnique(from, Arrived(was + [event]), next, Frontier(from, Arrived(was + [event])));
    forall k | k in Arrived(was) && next <= k
      ensures FirstArrival(was + [event], k) == FirstArrival(was, k)
    {
      FirstArrivalAppend(was, event, k);
    }
    OutputGrows(from, was, event);
  }

  lemma FiledArrival<P>(from: int, was: seq<Event<P>>, event: Event<P>)
    requires Frontier(from, Arrived(was)) <= event.sequence && event.sequence !in Arrived(was)
    ensures var next := Frontier(from, Arrived(was));
            Waiting(was, next)[event.sequence := event] == Waiting(was + [event], next)
  {
    ArrivedAppend(was, event);
    forall k | k in Arrived(was + [event])
      ensures FirstArrival(was + [event], k) ==
              if k in Arrived(was) then FirstArrival(was, k) else event
    {
      FirstArrivalAppend(was, event, k);
    }
  }

  lemma DrainedArrival<P>(from: int, was: seq<Event<P>>, event: Event<P>, expected: int)
    requires IsFrontier(from, Arrived(was + [event]), expected)
    requires Frontier(from, Arrived(was)) <= expected
    ensures Frontier(from, Arrived(was + [event])) == expected
    ensures Output(from, was + [event]) ==
            Output(from, was) + Segment(was + [event], Frontier(from, Arrived(was)), expected)
  {
    FrontierUnique(from, Arrived(was + [event]), expected, Frontier(from, Arrived(was + [event])));
    OutputGrows(from, was, event);
  }

  /** The stream a subscriber sees: every arrival goes through the buffer, batches are flattened.
      Whatever the merge order of replay and live, the result is `Output`. */
  method Relay<P(==)>(fromSequenceExclusive: int, source: seq<Event<P>>) returns (delivered: seq<Event<P>>)
    ensures delivered == Output(fromSequenceExclusive, source)
  {
    var buffer := new SequenceBuffer<P>(fromSequenceExclusive);
    delivered := [];
    for i := 0 to |source|
      invariant buffer.Valid() && buffer.from == fromSequenceExclusive
      invariant buffer.arrivals == source[..i]
      invariant delivered == Output(fromSequenceExclusive, source[..i])
      invariant fresh(buffer)
    {
      assert source[..i + 1] == source[..i] + [source[i]];
      var emit := buffer.Accept(source[i]);
      delivered := delivered + emit;
    }
    assert source[..|source|] == source;
  }
}
