/** What holds over every interleaving of the coordinator's calls. */
module RecoveryRuns {
  import opened Text
  import opened EventBuffer
  import opened Recovery

  datatype Step =
    | DoClassify(sequence: int)
    | DoMark(events: seq<DomainEvent>)
    | DoBeginSnapshot(reason: Reason)
    | DoCompleteSnapshot(snapshotSequence: int)
    | DoFailSnapshot
    | DoBeginReplay(reason: Reason)
    | DoCompleteReplay
    | DoFailReplay

  function Next(st: State, step: Step): State {
    match step
    case DoClassify(s) => Classify(st, s).1
    case DoMark(events) => Mark(st, events).1
    case DoBeginSnapshot(reason) => BeginSnapshot(st, reason).1
    case DoCompleteSnapshot(s) => CompleteSnapshot(st, s).1
    case DoFailSnapshot => FailSnapshot(st)
    case DoBeginReplay(reason) => BeginReplay(st, reason).1
    case DoCompleteReplay => CompleteReplay(st).1
    case DoFailReplay => FailReplay(st)
  }

  function Run(st: State, steps: seq<Step>): State {
    if steps == [] then st else Next(Run(st, steps[..|steps| - 1]), steps[|steps| - 1])
  }

  lemma {:induction false} RunSplit(st: State, a: seq<Step>, b: seq<Step>)
    ensures Run(st, a + b) == Run(Run(st, a), b)
  {
    if b == [] {
      assert a + b == a;
    } else {
      assert (a + b)[..|a + b| - 1] == a + b[..|b| - 1];
      RunSplit(st, a, b[..|b| - 1]);
    }
  }

  // ----- An independent account: maxima over the call history, with no state machine in sight.

  function MaxOf(floor: int, events: seq<DomainEvent>): (m: int)
    ensures m >= floor && forall e :: e in events ==> e.sequence <= m
    ensures m == floor || exists e :: e in events && e.sequence == m
    decreases |events|
  {
    if events == [] then floor else MaxOf(Max(floor, events[0].sequence), events[1..])
  }

  /** The largest sequence ever applied, by a batch or by a snapshot (0 before any). */
  function MaxApplied(steps: seq<Step>): int {
    if steps == [] then 0
    else
      var before := MaxApplied(steps[..|steps| - 1]);
      match steps[|steps| - 1]
      case DoMark(events) => MaxOf(before, events)
      case DoCompleteSnapshot(s) => Max(before, s)
      case _ => before
  }

  /** The largest sequence the coordinator was ever told about (0 before any). */
  function MaxSeen(steps: seq<Step>): int {
    if steps == [] then 0
    else
      var before := MaxSeen(steps[..|steps| - 1]);
      match steps[|steps| - 1]
      case DoClassify(s) => Max(before, s)
      case DoMark(events) => MaxOf(before, events)
      case DoCompleteSnapshot(s) => Max(before, s)
      case _ => before
  }

  /** The sequences a call mentions. */
  ghost predicate Mentions(step: Step, sequence: int) {
    match step
    case DoClassify(s) => s == sequence
    case DoMark(events) => exists e :: e in events && e.sequence == sequence
    case DoCompleteSnapshot(s) => s == sequence
    case _ => false
  }

  lemma MaxSeenBoundsMentions(steps: seq<Step>, k: nat, sequence: int)
    requires k < |steps| && Mentions(steps[k], sequence)
    ensures sequence <= MaxSeen(steps)
  {
    if k < |steps| - 1 {
      MaxSeenBoundsMentions(steps[..|steps| - 1], k, sequence);
    }
  }

  /** Marking a batch moves the frontier to the largest sequence in it, and never back. */
  lemma MarkTakesMaximum(st: State, events: seq<DomainEvent>)
    ensures Mark(st, events).1.latestSequence == MaxOf(st.latestSequence, events)
  {
    var latest := st.latestSequence;
    var next := NewEvents(latest, events);
    var m := MaxOf(latest, events);
    if next == [] {
      if m > latest {
        var e :| e in events && e.sequence == m;
        NewEventsMembers(latest, events, e);
        assert false;
      }
    } else {
      var last := next[|next| - 1];
      NewEventsMembers(latest, events, last);
      assert last in events;
      var e :| e in events && e.sequence == m;
      NewEventsMembers(latest, events, e);
      var i :| 0 <= i < |next| && next[i] == e;
      assert i < |next| - 1 ==> next[i].sequence <= last.sequence;
    }
  }

  /** Over every run: `latestSequence` is the maximum ever applied and `highestObservedSequence`
      the maximum ever seen, whatever was begun, completed, failed or refused in between. */
  lemma {:induction false} FrontiersAreMaxima(steps: seq<Step>)
    ensures Run(INITIAL, steps).latestSequence == MaxApplied(steps)
    ensures Run(INITIAL, steps).highestObservedSequence == MaxSeen(steps)
    ensures MaxApplied(steps) <= MaxSeen(steps)
  {
    if steps != [] {
      var front := steps[..|steps| - 1];
      FrontiersAreMaxima(front);
      if steps[|steps| - 1].DoMark? {
        var st, events := Run(INITIAL, front), steps[|steps| - 1].events;
        MarkTakesMaximum(st, events);
        MaxOfTwoFloors(st.latestSequence, st.highestObservedSequence, events);
      }
    }
  }

  lemma MaxOfTwoFloors(low: int, high: int, events: seq<DomainEvent>)
    requires low <= high
    ensures MaxOf(high, events) == Max(high, MaxOf(low, events))
  {}

  /** No step of any run moves either frontier back. */
  lemma {:induction false} FrontiersNeverRegress(st: State, steps: seq<Step>)
    ensures st.latestSequence <= Run(st, steps).latestSequence
    ensures st.highestObservedSequence <= Run(st, steps).highestObservedSequence
  {
    if steps != [] {
      FrontiersNeverRegress(st, steps[..|steps| - 1]);
      if steps[|steps| - 1].DoMark? {
        MarkTakesMaximum(Run(st, steps[..|steps| - 1]), steps[|steps| - 1].events);
      }
    }
  }

  /** The answer a completion gives about needing a (further) replay. */
  function AsksForReplay(st: State, completion: Step): bool
    requires completion.DoCompleteSnapshot? || completion.DoCompleteReplay?
  {
    if completion.DoCompleteReplay? then CompleteReplay(st).0.shouldReplay
    else CompleteSnapshot(st, completion.snapshotSequence).0
  }

  /** A completion that reports "no replay needed" leaves nothing observed but unapplied. */
  lemma NoReplayMeansCaughtUp(steps: seq<Step>, completion: Step, k: nat, sequence: int)
    requires completion.DoCompleteSnapshot? || completion.DoCompleteReplay?
    requires !AsksForReplay(Run(INITIAL, steps), completion)
    requires k < |steps| && Mentions(steps[k], sequence)
    ensures sequence <= Run(INITIAL, steps + [completion]).latestSequence
  {
    FrontiersAreMaxima(steps);
    MaxSeenBoundsMentions(steps, k, sequence);
    assert (steps + [completion])[..|steps|] == steps;
  }

  // ----- `pendingReplay`: a call was turned away since the last reset.

  /** The call was turned away: an event deferred or out of order, or a recovery refused. */
  predicate TurnedAway(st: State, step: Step) {
    match step
    case DoClassify(s) => Classify(st, s).0 in {Defer, Recover}
    case DoBeginSnapshot(reason) => !BeginSnapshot(st, reason).0
    case DoBeginReplay(reason) => !BeginReplay(st, reason).0
    case _ => false
  }

  predicate Resets(st: State, step: Step) {
    step.DoCompleteSnapshot? || step.DoCompleteReplay?
    || (step.DoBeginReplay? && BeginReplay(st, step.reason).0)
  }

  function TurnedAwaySinceReset(steps: seq<Step>): bool {
    if steps == [] then false
    else
      var front := steps[..|steps| - 1];
      var st := Run(INITIAL, front);
      var last := steps[|steps| - 1];
      !Resets(st, last) && (TurnedAway(st, last) || TurnedAwaySinceReset(front))
  }

  lemma PendingAfter(st: State, step: Step)
    ensures Next(st, step).pendingReplay ==
            (!Resets(st, step) && (TurnedAway(st, step) || st.pendingReplay))
  {}

  /** `pendingReplay` remembers exactly whether something was turned away since the last reset. */
  lemma {:induction false} PendingMeansTurnedAway(steps: seq<Step>)
    ensures Run(INITIAL, steps).pendingReplay == TurnedAwaySinceReset(steps)
  {
    if steps != [] {
      var front := steps[..|steps| - 1];
      PendingMeansTurnedAway(front);
      PendingAfter(Run(INITIAL, front), steps[|steps| - 1]);
    }
  }

  /** A completion asks for a replay exactly when something was turned away since the last reset, or
      something observed lies beyond everything applied, the snapshot that just arrived included. */
  lemma ReplayNeededIff(steps: seq<Step>, snapshotSequence: int)
    ensures AsksForReplay(Run(INITIAL, steps), DoCompleteReplay) <==>
            TurnedAwaySinceReset(steps) || MaxSeen(steps) > MaxApplied(steps)
    ensures AsksForReplay(Run(INITIAL, steps), DoCompleteSnapshot(snapshotSequence)) <==>
            TurnedAwaySinceReset(steps) || MaxSeen(steps) > Max(snapshotSequence, MaxApplied(steps))
  {
    FrontiersAreMaxima(steps);
    PendingMeansTurnedAway(steps);
  }

  // ----- `bootstrapped` and `inFlight`: by the calls alone.

  /** A snapshot was completed, and no replay has failed since. */
  ghost predicate SnapshotHolds(steps: seq<Step>) {
    exists k :: 0 <= k < |steps| && steps[k].DoCompleteSnapshot? && forall j :: k < j < |steps| ==> !steps[j].DoFailReplay?
  }

  /** The recovery that was begun and has not ended: a begin counts when nothing is out, for a replay
      also only while a snapshot holds. */
  ghost function Out(steps: seq<Step>): Option<Phase> {
    if steps == [] then None
    else
      var front := steps[..|steps| - 1];
      match steps[|steps| - 1]
      case DoBeginSnapshot(reason) => if Out(front).None? then Some(Phase(SnapshotPhase, reason)) else Out(front)
      case DoBeginReplay(reason) =>
        if Out(front).None? && SnapshotHolds(front) then Some(Phase(ReplayPhase, reason)) else Out(front)
      case DoClassify(_) => Out(front)
      case DoMark(_) => Out(front)
      case _ => None
  }

  lemma OneMoreStep(front: seq<Step>, last: Step)
    ensures SnapshotHolds(front + [last]) <==> last.DoCompleteSnapshot? || (SnapshotHolds(front) && !last.DoFailReplay?)
  {
    var steps := front + [last];
    var n := |front|;
    if k :| 0 <= k < n && front[k].DoCompleteSnapshot? && forall j :: k < j < n ==> !front[j].DoFailReplay? {
      assert steps[k] == front[k];
    }
    if k :| 0 <= k < |steps| && steps[k].DoCompleteSnapshot? && forall j :: k < j < |steps| ==> !steps[j].DoFailReplay? {
      if k < n {
        assert front[k] == steps[k] && !steps[n].DoFailReplay?;
        forall j | k < j < n ensures !front[j].DoFailReplay? { assert front[j] == steps[j]; }
      }
    }
    if last.DoCompleteSnapshot? { assert steps[n] == last; }
  }

  lemma StepModes(st: State, step: Step)
    ensures Next(st, step).bootstrapped <==> step.DoCompleteSnapshot? || (st.bootstrapped && !step.DoFailReplay?)
    ensures Next(st, step).inFlight ==
            match step
            case DoBeginSnapshot(reason) => if st.inFlight.None? then Some(Phase(SnapshotPhase, reason)) else st.inFlight
            case DoBeginReplay(reason) =>
              if st.inFlight.None? && st.bootstrapped then Some(Phase(ReplayPhase, reason)) else st.inFlight
            case DoClassify(_) => st.inFlight
            case DoMark(_) => st.inFlight
            case _ => None
  {}

  /** Over every run: bootstrapped exactly while a snapshot holds, and in flight is what is out. */
  lemma {:induction false} ModesByHistory(steps: seq<Step>)
    ensures Run(INITIAL, steps).bootstrapped <==> SnapshotHolds(steps)
    ensures Run(INITIAL, steps).inFlight == Out(steps)
  {
    hide SnapshotHolds, Next;
    if steps == [] {
      NothingHolds();
    } else {
      var front, last := steps[..|steps| - 1], steps[|steps| - 1];
      ModesByHistory(front);
      assert steps == front + [last];
      OneMoreStep(front, last);
      StepModes(Run(INITIAL, front), last);
    }
  }

  lemma NothingHolds()
    ensures !SnapshotHolds([])
  {}

  // ----- The batch that is handed on.

  /** The events of one sequence number, in order. */
  function WithNumber(events: seq<DomainEvent>, n: int): seq<DomainEvent> {
    if events == [] then []
    else (if events[0].sequence == n then [events[0]] else []) + WithNumber(events[1..], n)
  }

  lemma WithNumberCons(e: DomainEvent, events: seq<DomainEvent>, n: int)
    ensures WithNumber([e] + events, n) == if e.sequence == n then [e] + WithNumber(events, n) else WithNumber(events, n)
  {
    assert ([e] + events)[1..] == events;
  }

  lemma {:induction false} InsertIsStable(e: DomainEvent, sorted: seq<DomainEvent>, n: int)
    ensures WithNumber(Insert(e, sorted), n) == if e.sequence == n then [e] + WithNumber(sorted, n) else WithNumber(sorted, n)
  {
    hide WithNumber;
    if sorted == [] || e.sequence <= sorted[0].sequence {
      WithNumberCons(e, sorted, n);
    } else {
      var rest := sorted[1..];
      InsertIsStable(e, rest, n);
      WithNumberCons(sorted[0], Insert(e, rest), n);
      WithNumberCons(sorted[0], rest, n);
      assert sorted == [sorted[0]] + rest;
    }
  }

  lemma {:induction false} SortIsStable(events: seq<DomainEvent>, n: int)
    ensures WithNumber(SortBySequence(events), n) == WithNumber(events, n)
  {
    hide Insert;
    if events != [] {
      SortIsStable(events[1..], n);
      InsertIsStable(events[0], SortBySequence(events[1..]), n);
    }
  }

  lemma {:induction false} NewerKeeps(latest: int, events: seq<DomainEvent>, n: int)
    ensures WithNumber(Newer(latest, events), n) == if n > latest then WithNumber(events, n) else []
  {
    if events != [] {
      NewerKeeps(latest, events[1..], n);
      var rest := Newer(latest, events[1..]);
      assert ([events[0]] + rest)[1..] == rest;
      assert [] + rest == rest;
    }
  }

  /** Marking hands on every event beyond the frontier, as often as it came, and none other: in ascending
      order, and those of one number in the order in which they came. */
  lemma BatchInOrder(st: State, events: seq<DomainEvent>, n: int)
    ensures var batch := Mark(st, events).0;
            && (forall i, j :: 0 <= i < j < |batch| ==> batch[i].sequence <= batch[j].sequence)
            && WithNumber(batch, n) == if n > st.latestSequence then WithNumber(events, n) else []
  {
    hide SortBySequence, Newer;
    SortIsStable(Newer(st.latestSequence, events), n);
    NewerKeeps(st.latestSequence, events, n);
  }
}
