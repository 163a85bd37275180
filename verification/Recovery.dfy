/** The client's recovery coordinator (apps/web/src/orchestrationRecovery.ts): which domain events
    may be applied live, and which call for a snapshot or a replay. */
module Recovery {
  import opened Text
  import opened EventBuffer

  type DomainEvent = Event<string>

  datatype Reason = Bootstrap | SequenceGap | Resubscribe | ReplayFailed

  datatype PhaseKind = SnapshotPhase | ReplayPhase

  datatype Phase = Phase(kind: PhaseKind, reason: Reason)

  datatype Action = Ignore | Defer | Recover | Apply

  datatype Completion = Completion(replayMadeProgress: bool, shouldReplay: bool)

  datatype State = State(
    latestSequence: int,
    highestObservedSequence: int,
    bootstrapped: bool,
    pendingReplay: bool,
    inFlight: Option<Phase>,
    replayStartSequence: Option<int>)

  const INITIAL := State(0, 0, false, false, None, None)

  function Max(a: int, b: int): int { if a >= b then a else b }

  // ----- The batch that is applied: newer than the frontier, in sequence order.

  function Newer(latest: int, events: seq<DomainEvent>): seq<DomainEvent> {
    if events == [] then []
    else (if events[0].sequence > latest then [events[0]] else []) + Newer(latest, events[1..])
  }

  predicate Ascending(events: seq<DomainEvent>) {
    forall i, j :: 0 <= i < j < |events| ==> events[i].sequence <= events[j].sequence
  }

  function Insert(e: DomainEvent, sorted: seq<DomainEvent>): seq<DomainEvent> {
    if sorted == [] || e.sequence <= sorted[0].sequence then [e] + sorted
    else [sorted[0]] + Insert(e, sorted[1..])
  }

  lemma {:induction false} InsertIsPermutation(e: DomainEvent, sorted: seq<DomainEvent>)
    ensures multiset(Insert(e, sorted)) == multiset{e} + multiset(sorted)
  {
    if !(sorted == [] || e.sequence <= sorted[0].sequence) {
      InsertIsPermutation(e, sorted[1..]);
      assert sorted == [sorted[0]] + sorted[1..];
    }
  }

  lemma {:induction false} InsertKeepsOrder(e: DomainEvent, sorted: seq<DomainEvent>)
    requires Ascending(sorted)
    ensures Ascending(Insert(e, sorted))
    ensures Insert(e, sorted)[0] == e || (sorted != [] && Insert(e, sorted)[0] == sorted[0])
  {
    if !(sorted == [] || e.sequence <= sorted[0].sequence) {
      InsertKeepsOrder(e, sorted[1..]);
    }
  }

  /** The stable `toSorted` by sequence. */
  function SortBySequence(events: seq<DomainEvent>): (r: seq<DomainEvent>)
    ensures Ascending(r) && multiset(r) == multiset(events)
  {
    if events == [] then []
    else
      var rest := SortBySequence(events[1..]);
      assert events == [events[0]] + events[1..];
      InsertKeepsOrder(events[0], rest);
      InsertIsPermutation(events[0], rest);
      Insert(events[0], rest)
  }

  function NewEvents(latest: int, events: seq<DomainEvent>): seq<DomainEvent> {
    SortBySequence(Newer(latest, events))
  }

  lemma NewerMembers(latest: int, events: seq<DomainEvent>, e: DomainEvent)
    ensures e in Newer(latest, events) <==> e in events && e.sequence > latest
  {}

  lemma NewEventsMembers(latest: int, events: seq<DomainEvent>, e: DomainEvent)
    ensures e in NewEvents(latest, events) <==> e in events && e.sequence > latest
  {
    NewerMembers(latest, events, e);
    var newer := Newer(latest, events);
    assert e in multiset(newer) <==> e in newer;
    assert e in multiset(SortBySequence(newer)) <==> e in SortBySequence(newer);
  }

  // ----- The coordinator's transitions.

  function Observe(st: State, sequence: int): State {
    st.(highestObservedSequence := Max(st.highestObservedSequence, sequence))
  }

  function Classify(st: State, sequence: int): (Action, State) {
    var seen := Observe(st, sequence);
    if sequence <= seen.latestSequence then (Ignore, seen)
    else if !seen.bootstrapped || seen.inFlight.Some? then (Defer, seen.(pendingReplay := true))
    else if sequence != seen.latestSequence + 1 then (Recover, seen.(pendingReplay := true))
    else (Apply, seen)
  }

  function Mark(st: State, events: seq<DomainEvent>): (seq<DomainEvent>, State) {
    var next := NewEvents(st.latestSequence, events);
    if next == [] then ([], st)
    else
      var latest := next[|next| - 1].sequence;
      (next, Observe(st.(latestSequence := latest), latest))
  }

  function BeginSnapshot(st: State, reason: Reason): (bool, State) {
    if st.inFlight.Some? then (false, st.(pendingReplay := true))
    else (true, st.(inFlight := Some(Phase(SnapshotPhase, reason))))
  }

  function ReplayNeeded(st: State): bool {
    st.pendingReplay || st.highestObservedSequence > st.latestSequence
  }

  function CompleteSnapshot(st: State, snapshotSequence: int): (bool, State) {
    var latest := Max(st.latestSequence, snapshotSequence);
    var done := Observe(st.(latestSequence := latest, bootstrapped := true, inFlight := None), latest);
    (ReplayNeeded(done), done.(pendingReplay := false))
  }

  function FailSnapshot(st: State): State { st.(inFlight := None) }

  function BeginReplay(st: State, reason: Reason): (bool, State) {
    if !st.bootstrapped || st.inFlight.Some? then (false, st.(pendingReplay := true))
    else (true, st.(pendingReplay := false, replayStartSequence := Some(st.latestSequence),
                    inFlight := Some(Phase(ReplayPhase, reason))))
  }

  function CompleteReplay(st: State): (Completion, State) {
    var progress := st.replayStartSequence.Some? && st.latestSequence > st.replayStartSequence.value;
    (Completion(progress, ReplayNeeded(st)),
     st.(replayStartSequence := None, inFlight := None, pendingReplay := false))
  }

  function FailReplay(st: State): State {
    st.(replayStartSequence := None, bootstrapped := false, inFlight := None)
  }

  /** `createOrchestrationRecoveryCoordinator`: the closure variables and the methods over them. */
  class Coordinator {
    var latestSequence: int
    var highestObservedSequence: int
    var bootstrapped: bool
    var pendingReplay: bool
    var inFlight: Option<Phase>
    var replayStartSequence: Option<int>

    constructor ()
      ensures GetState() == INITIAL
    {
      latestSequence, highestObservedSequence := 0, 0;
      bootstrapped, pendingReplay := false, false;
      inFlight, replayStartSequence := None, None;
    }

    function GetState(): State
      reads this
    {
      State(latestSequence, highestObservedSequence, bootstrapped, pendingReplay, inFlight, replayStartSequence)
    }

    method ObserveSequence(sequence: int)
      modifies this`highestObservedSequence
      ensures GetState() == Observe(old(GetState()), sequence)
    {
      highestObservedSequence := Max(highestObservedSequence, sequence);
    }

    method ResolveReplayNeedAfterRecovery() returns (shouldReplay: bool)
      modifies this`pendingReplay
      ensures shouldReplay == ReplayNeeded(old(GetState()))
      ensures GetState() == old(GetState()).(pendingReplay := false)
    {
      var observedAhead := highestObservedSequence > latestSequence;
      shouldReplay := pendingReplay || observedAhead;
      pendingReplay := false;
    }

    method ClassifyDomainEvent(sequence: int) returns (action: Action)
      modifies this
      ensures (action, GetState()) == Classify(old(GetState()), sequence)
    {
      ObserveSequence(sequence);
      if sequence <= latestSequence { return Ignore; }
      if !bootstrapped || inFlight.Some? {
        pendingReplay := true;
        return Defer;
      }
      if sequence != latestSequence + 1 {
        pendingReplay := true;
        return Recover;
      }
      return Apply;
    }

    method MarkEventBatchApplied(events: seq<DomainEvent>) returns (nextEvents: seq<DomainEvent>)
      modifies this
      ensures (nextEvents, GetState()) == Mark(old(GetState()), events)
    {
      nextEvents := NewEvents(latestSequence, events);
      if |nextEvents| == 0 { return []; }
      latestSequence := nextEvents[|nextEvents| - 1].sequence;
      highestObservedSequence := Max(highestObservedSequence, latestSequence);
    }

    method BeginSnapshotRecovery(reason: Reason) returns (started: bool)
      modifies this
      ensures (started, GetState()) == BeginSnapshot(old(GetState()), reason)
    {
      if inFlight.Some? && inFlight.value.kind == SnapshotPhase {
        pendingReplay := true;
        return false;
      }
      if inFlight.Some? && inFlight.value.kind == ReplayPhase {
        pendingReplay := true;
        return false;
      }
      inFlight := Some(Phase(SnapshotPhase, reason));
      return true;
    }

    method CompleteSnapshotRecovery(snapshotSequence: int) returns (shouldReplay: bool)
      modifies this
      ensures (shouldReplay, GetState()) == CompleteSnapshot(old(GetState()), snapshotSequence)
    {
      latestSequence := Max(latestSequence, snapshotSequence);
      highestObservedSequence := Max(highestObservedSequence, latestSequence);
      bootstrapped := true;
      inFlight := None;
      shouldReplay := ResolveReplayNeedAfterRecovery();
    }

    method FailSnapshotRecovery()
      modifies this
      ensures GetState() == FailSnapshot(old(GetState()))
    {
      inFlight := None;
    }

    method BeginReplayRecovery(reason: Reason) returns (started: bool)
      modifies this
      ensures (started, GetState()) == BeginReplay(old(GetState()), reason)
    {
      if !bootstrapped || (inFlight.Some? && inFlight.value.kind == SnapshotPhase) {
        pendingReplay := true;
        return false;
      }
      if inFlight.Some? && inFlight.value.kind == ReplayPhase {
        pendingReplay := true;
        return false;
      }
      pendingReplay := false;
      replayStartSequence := Some(latestSequence);
      inFlight := Some(Phase(ReplayPhase, reason));
      return true;
    }

    method CompleteReplayRecovery() returns (completion: Completion)
      modifies this
      ensures (completion, GetState()) == CompleteReplay(old(GetState()))
    {
      var replayMadeProgress :=
        replayStartSequence.Some? && latestSequence > replayStartSequence.value;
      replayStartSequence := None;
      inFlight := None;
      var shouldReplay := ResolveReplayNeedAfterRecovery();
      completion := Completion(replayMadeProgress, shouldReplay);
    }

    method FailReplayRecovery()
      modifies this
      ensures GetState() == FailReplay(old(GetState()))
    {
      replayStartSequence := None;
      bootstrapped := false;
      inFlight := None;
    }
  }
}
