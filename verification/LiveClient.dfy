/** The client process around the coordinator (apps/web/src/routes/__root.tsx): live events queue for
    a flush, recoveries are requests whose replies arrive later. Ghost fields record the events handed
    to the store, every sequence number it was ever given, and those that it shows: a snapshot replaces
    what the store shows, an applied event adds to it. `asked` is the largest sequence the client had
    heard of when it last requested a snapshot. */
module LiveClient {
  import opened Text
  import opened EventBuffer
  import opened Recovery
  import opened RecoveryRuns

  datatype Request = NoRequest | SnapshotRequest | ReplayRequest(fromExclusive: int)

  datatype Client = Client(
    recovery: State,
    outstanding: Request,
    pending: seq<DomainEvent>,
    applied: seq<DomainEvent>,
    covered: set<int>,
    store: set<int>,
    asked: int)

  const START := Client(INITIAL, NoRequest, [], [], {}, {}, 0)

  datatype Input =
    | Receive(event: DomainEvent)
    | Flush
    | Resubscribed
    | RequestSnapshot(reason: Reason)
    | SnapshotArrived(snapshotSequence: int)
    | SnapshotFailed
    | RunReplay(reason: Reason)
    | ReplayArrived(events: seq<DomainEvent>)
    | ReplayRequestFailed

  function UpTo(n: int): (s: set<int>)
    ensures forall k :: k in s <==> 1 <= k <= n
    decreases n
  {
    if n <= 0 then {} else UpTo(n - 1) + {n}
  }

  /** `events` is the log segment that starts right after `fromExclusive`. */
  ghost predicate Consecutive(fromExclusive: int, events: seq<DomainEvent>) {
    forall i :: 0 <= i < |events| ==> events[i].sequence == fromExclusive + 1 + i
  }

  /** Replies answer the request that is out, and a replay reply is the log after its start. */
  ghost predicate Enabled(c: Client, input: Input) {
    match input
    case Receive(event) => event.sequence >= 1
    case SnapshotArrived(s) => c.outstanding.SnapshotRequest? && s >= 0
    case SnapshotFailed => c.outstanding.SnapshotRequest?
    case ReplayArrived(events) =>
      c.outstanding.ReplayRequest? && Consecutive(c.outstanding.fromExclusive, events)
    case ReplayRequestFailed => c.outstanding.ReplayRequest?
    case _ => true
  }

  ghost function ApplyBatch(c: Client, events: seq<DomainEvent>): Client {
    var (next, recovery) := Mark(c.recovery, events);
    c.(recovery := recovery, applied := c.applied + next, covered := c.covered + Sequences(next),
       store := c.store + Sequences(next))
  }

  ghost function Sequences(events: seq<DomainEvent>): (s: set<int>)
    ensures forall k :: k in s <==> exists e :: e in events && e.sequence == k
  {
    set e | e in events :: e.sequence
  }

  ghost function FlushPending(c: Client): Client { ApplyBatch(c, c.pending).(pending := []) }

  ghost function StartReplay(c: Client, reason: Reason): Client {
    var (started, recovery) := BeginReplay(c.recovery, reason);
    if started then c.(recovery := recovery, outstanding := ReplayRequest(recovery.latestSequence))
    else c.(recovery := recovery)
  }

  ghost function StartSnapshot(c: Client, reason: Reason): Client {
    var (started, recovery) := BeginSnapshot(c.recovery, reason);
    if started
    then c.(recovery := recovery, outstanding := SnapshotRequest, asked := c.recovery.highestObservedSequence)
    else c.(recovery := recovery)
  }

  ghost function Handle(c: Client, input: Input): Client {
    match input
    case Receive(event) =>
      var (action, recovery) := Classify(c.recovery, event.sequence);
      var heard := c.(recovery := recovery);
      (match action
       case Apply => heard.(pending := c.pending + [event])
       case Recover => StartReplay(FlushPending(heard), SequenceGap)
       case _ => heard)
    case Flush => FlushPending(c)
    case Resubscribed => StartReplay(FlushPending(c), Resubscribe)
    case RequestSnapshot(reason) => StartSnapshot(c, reason)
    case SnapshotArrived(s) =>
      var (shouldReplay, recovery) := CompleteSnapshot(c.recovery, s);
      var done := c.(recovery := recovery, outstanding := NoRequest, covered := c.covered + UpTo(s), store := UpTo(s));
      if shouldReplay then StartReplay(done, SequenceGap) else done
    case SnapshotFailed => c.(recovery := FailSnapshot(c.recovery), outstanding := NoRequest)
    case RunReplay(reason) => StartReplay(c, reason)
    case ReplayArrived(events) =>
      var fed := ApplyBatch(c, events);
      fed.(recovery := CompleteReplay(fed.recovery).1, outstanding := NoRequest)
    case ReplayRequestFailed =>
      StartSnapshot(c.(recovery := FailReplay(c.recovery), outstanding := NoRequest), ReplayFailed)
  }

  ghost function HandleAll(c: Client, inputs: seq<Input>): Client {
    if inputs == [] then c else Handle(HandleAll(c, inputs[..|inputs| - 1]), inputs[|inputs| - 1])
  }

  ghost predicate AllEnabled(c: Client, inputs: seq<Input>) {
    inputs == [] ||
    (AllEnabled(c, inputs[..|inputs| - 1])
     && Enabled(HandleAll(c, inputs[..|inputs| - 1]), inputs[|inputs| - 1]))
  }

  // ----- The invariant of every run.

  ghost predicate RequestMatches(c: Client) {
    match c.outstanding
    case NoRequest => c.recovery.inFlight.None?
    case SnapshotRequest => c.recovery.inFlight.Some? && c.recovery.inFlight.value.kind.SnapshotPhase?
    case ReplayRequest(from) =>
      && c.recovery.inFlight.Some? && c.recovery.inFlight.value.kind.ReplayPhase?
      && c.recovery.replayStartSequence == Some(from)
      && 0 <= from <= c.recovery.latestSequence
  }

  ghost predicate Inv(c: Client) {
    && 0 <= c.recovery.latestSequence
    && c.covered == UpTo(c.recovery.latestSequence)
    && (forall e :: e in c.pending ==> 1 <= e.sequence <= c.recovery.latestSequence + 1)
    && RequestMatches(c)
  }

  /** A batch without a hole above the frontier extends the coverage without a hole. */
  ghost predicate GapFree(latest: int, events: seq<DomainEvent>) {
    forall e, k :: e in events && latest < k <= e.sequence ==> k in Sequences(events)
  }

  lemma NewSequencesCover(latest: int, events: seq<DomainEvent>, k: int)
    requires GapFree(latest, events)
    ensures k in Sequences(NewEvents(latest, events)) <==> latest < k <= MaxOf(latest, events)
  {
    var m := MaxOf(latest, events);
    if latest < k <= m {
      var top :| top in events && top.sequence == m;
      assert k in Sequences(events);
      var e :| e in events && e.sequence == k;
      NewEventsMembers(latest, events, e);
    }
    if k in Sequences(NewEvents(latest, events)) {
      var e :| e in NewEvents(latest, events) && e.sequence == k;
      NewEventsMembers(latest, events, e);
    }
  }

  lemma ApplyingGapFreeBatch(c: Client, events: seq<DomainEvent>)
    requires 0 <= c.recovery.latestSequence && c.covered == UpTo(c.recovery.latestSequence)
    requires GapFree(c.recovery.latestSequence, events)
    ensures var fed := ApplyBatch(c, events);
            && fed.recovery.latestSequence >= c.recovery.latestSequence
            && fed.covered == UpTo(fed.recovery.latestSequence)
            && fed.store == c.store + (UpTo(fed.recovery.latestSequence) - UpTo(c.recovery.latestSequence))
            && fed.recovery == c.recovery.(latestSequence := fed.recovery.latestSequence,
                                           highestObservedSequence := fed.recovery.highestObservedSequence)
  {
    var latest := c.recovery.latestSequence;
    MarkTakesMaximum(c.recovery, events);
    var m := MaxOf(latest, events);
    var added := Sequences(NewEvents(latest, events));
    forall k ensures k in UpTo(latest) + added <==> k in UpTo(m) {
      NewSequencesCover(latest, events, k);
    }
    assert UpTo(latest) + added == UpTo(m);
    forall k ensures k in added <==> k in UpTo(m) - UpTo(latest) {
      NewSequencesCover(latest, events, k);
    }
    assert added == UpTo(m) - UpTo(latest);
    assert added == Sequences(Mark(c.recovery, events).0);
  }

  lemma PendingIsGapFree(c: Client)
    requires Inv(c)
    ensures GapFree(c.recovery.latestSequence, c.pending)
  {}

  lemma ReplayReplyIsGapFree(from: int, latest: int, events: seq<DomainEvent>)
    requires from <= latest && Consecutive(from, events)
    ensures GapFree(latest, events)
  {
    forall e, k | e in events && latest < k <= e.sequence ensures k in Sequences(events) {
      var i :| 0 <= i < |events| && events[i] == e;
      assert events[k - from - 1] in events;
    }
  }

  lemma FlushKeepsInv(c: Client)
    requires Inv(c)
    ensures Inv(FlushPending(c)) && FlushPending(c).outstanding == c.outstanding
  {
    PendingIsGapFree(c);
    ApplyingGapFreeBatch(c, c.pending);
  }

  lemma ReceiveKeepsInv(c: Client, event: DomainEvent)
    requires Inv(c) && event.sequence >= 1
    ensures Inv(Handle(c, Receive(event)))
  {
    var heard := c.(recovery := Classify(c.recovery, event.sequence).1);
    FlushKeepsInv(heard);
  }

  lemma SnapshotKeepsInv(c: Client, s: int)
    requires Inv(c) && Enabled(c, SnapshotArrived(s))
    ensures Inv(Handle(c, SnapshotArrived(s)))
  {
    var done := c.(recovery := CompleteSnapshot(c.recovery, s).1, outstanding := NoRequest,
                   covered := c.covered + UpTo(s), store := UpTo(s));
    assert done.covered == UpTo(done.recovery.latestSequence);
    assert Inv(done);
  }

  lemma ReplayReplyKeepsInv(c: Client, events: seq<DomainEvent>)
    requires Inv(c) && Enabled(c, ReplayArrived(events))
    ensures Inv(Handle(c, ReplayArrived(events)))
  {
    ReplayReplyIsGapFree(c.outstanding.fromExclusive, c.recovery.latestSequence, events);
    ApplyingGapFreeBatch(c, events);
  }

  lemma HandleKeepsInv(c: Client, input: Input)
    requires Inv(c) && Enabled(c, input)
    ensures Inv(Handle(c, input))
  {
    match input
    case Receive(event) => ReceiveKeepsInv(c, event);
    case SnapshotArrived(s) => SnapshotKeepsInv(c, s);
    case ReplayArrived(events) => ReplayReplyKeepsInv(c, events);
    case _ => FlushKeepsInv(c);
  }

  /** Over every run of live traffic, flushes, recoveries and failures, the events applied and the
      snapshots installed together cover exactly `1 .. latestSequence`: no hole, nothing beyond. */
  lemma {:induction false} CoverageIsExact(inputs: seq<Input>)
    requires AllEnabled(START, inputs)
    ensures Inv(HandleAll(START, inputs))
    ensures var c := HandleAll(START, inputs); c.covered == UpTo(c.recovery.latestSequence)
  {
    if inputs == [] {
      assert START.covered == UpTo(0);
    } else {
      CoverageIsExact(inputs[..|inputs| - 1]);
      HandleKeepsInv(HandleAll(START, inputs[..|inputs| - 1]), inputs[|inputs| - 1]);
    }
  }

  // ----- What the store shows.

  /** The frontier and the store move together, except when a snapshot arrives. */
  ghost predicate StoreFollows(c: Client, d: Client) {
    && c.recovery.latestSequence <= d.recovery.latestSequence
    && d.store == c.store + (UpTo(d.recovery.latestSequence) - UpTo(c.recovery.latestSequence))
  }

  lemma FlushStoreFollows(c: Client)
    requires Inv(c)
    ensures StoreFollows(c, FlushPending(c))
  {
    PendingIsGapFree(c);
    ApplyingGapFreeBatch(c, c.pending);
  }

  lemma HandleStoreFollows(c: Client, input: Input)
    requires Inv(c) && Enabled(c, input) && !input.SnapshotArrived?
    ensures StoreFollows(c, Handle(c, input))
  {
    match input
    case Receive(event) =>
      var heard := c.(recovery := Classify(c.recovery, event.sequence).1);
      FlushStoreFollows(heard);
    case ReplayArrived(events) =>
      ReplayReplyIsGapFree(c.outstanding.fromExclusive, c.recovery.latestSequence, events);
      ApplyingGapFreeBatch(c, events);
    case _ => FlushStoreFollows(c);
  }

  /** What the last snapshot took away: the events between it and the frontier it arrived at. */
  ghost function Lost(inputs: seq<Input>): set<int> {
    if inputs == [] then {}
    else
      var front, last := inputs[..|inputs| - 1], inputs[|inputs| - 1];
      if last.SnapshotArrived? then UpTo(HandleAll(START, front).recovery.latestSequence) - UpTo(last.snapshotSequence)
      else Lost(front)
  }

  /** The last snapshot to arrive, if any, was behind the frontier at that time. */
  ghost predicate LastSnapshotWasStale(inputs: seq<Input>) {
    inputs != [] &&
    (var front, last := inputs[..|inputs| - 1], inputs[|inputs| - 1];
     if last.SnapshotArrived? then last.snapshotSequence < HandleAll(START, front).recovery.latestSequence
     else LastSnapshotWasStale(front))
  }

  lemma {:induction false} StoreLacksExactlyTheLost(inputs: seq<Input>)
    requires AllEnabled(START, inputs)
    ensures var latest := HandleAll(START, inputs).recovery.latestSequence;
            HandleAll(START, inputs).store == UpTo(latest) - Lost(inputs) && Lost(inputs) <= UpTo(latest)
    ensures Lost(inputs) != {} <==> LastSnapshotWasStale(inputs)
  {
    hide Handle, Enabled;
    if inputs == [] {
      assert START.store == UpTo(0);
    } else {
      var front, last := inputs[..|inputs| - 1], inputs[|inputs| - 1];
      var c := HandleAll(START, front);
      StoreLacksExactlyTheLost(front);
      CoverageIsExact(front);
      if last.SnapshotArrived? {
        SnapshotReplacesStore(c, last.snapshotSequence);
        StaleIffLost(c.recovery.latestSequence, last.snapshotSequence);
      } else {
        HandleStoreFollows(c, last);
      }
    }
  }

  lemma SnapshotReplacesStore(c: Client, s: int)
    requires Inv(c) && Enabled(c, SnapshotArrived(s))
    ensures s >= 0 && Handle(c, SnapshotArrived(s)).store == UpTo(s)
    ensures Handle(c, SnapshotArrived(s)).recovery.latestSequence == Max(c.recovery.latestSequence, s)
  {}

  lemma StaleIffLost(latest: int, s: int)
    requires 0 <= latest && 0 <= s
    ensures UpTo(latest) - UpTo(s) != {} <==> s < latest
    ensures UpTo(s) == UpTo(Max(latest, s)) - (UpTo(latest) - UpTo(s))
    ensures UpTo(latest) - UpTo(s) <= UpTo(Max(latest, s))
  {
    if s < latest { assert latest in UpTo(latest) - UpTo(s); }
  }

  /** Over every run, the store shows all events up to the frontier exactly when the last snapshot to
      arrive was not behind the frontier: a later event or replay does not bring back what such a
      snapshot took away. */
  lemma StoreIsCompleteIff(inputs: seq<Input>)
    requires AllEnabled(START, inputs)
    ensures var c := HandleAll(START, inputs);
            c.store == UpTo(c.recovery.latestSequence) <==> !LastSnapshotWasStale(inputs)
  {
    StoreLacksExactlyTheLost(inputs);
  }

  // ----- A server that publishes an event only after storing it keeps the store complete.

  /** A snapshot has everything that the client had heard of when it asked. */
  ghost predicate Fresh(c: Client, input: Input) {
    input.SnapshotArrived? ==> input.snapshotSequence >= c.asked
  }

  ghost predicate AllFresh(inputs: seq<Input>) {
    inputs == [] ||
    (AllFresh(inputs[..|inputs| - 1]) && Fresh(HandleAll(START, inputs[..|inputs| - 1]), inputs[|inputs| - 1]))
  }

  /** Everything in hand has been heard of, and while a snapshot is out, before it was asked for. */
  ghost predicate HeardFirst(c: Client) {
    var r := c.recovery;
    && r.latestSequence <= r.highestObservedSequence
    && (forall e :: e in c.pending ==> e.sequence <= r.highestObservedSequence)
    && (c.outstanding.SnapshotRequest? ==>
          r.latestSequence <= c.asked && forall e :: e in c.pending ==> e.sequence <= c.asked)
  }

  lemma FlushKeepsHeardFirst(c: Client)
    requires HeardFirst(c)
    ensures HeardFirst(FlushPending(c))
  {
    hide Sequences, NewEvents;
    MarkTakesMaximum(c.recovery, c.pending);
  }

  lemma MarkKeepsOrder(st: State, events: seq<DomainEvent>)
    requires st.latestSequence <= st.highestObservedSequence
    ensures var after := Mark(st, events).1;
            && after.latestSequence <= after.highestObservedSequence
            && st.highestObservedSequence <= after.highestObservedSequence
  {}

  lemma ReceiveKeepsHeardFirst(c: Client, event: DomainEvent)
    requires HeardFirst(c) && Inv(c)
    ensures HeardFirst(Handle(c, Receive(event)))
  {
    hide FlushPending, Mark;
    FlushKeepsHeardFirst(c.(recovery := Classify(c.recovery, event.sequence).1));
  }

  lemma HandleKeepsHeardFirst(c: Client, input: Input)
    requires HeardFirst(c) && Inv(c) && Enabled(c, input)
    ensures HeardFirst(Handle(c, input))
  {
    hide FlushPending, Mark;
    match input
    case Receive(event) => ReceiveKeepsHeardFirst(c, event);
    case ReplayArrived(events) => MarkKeepsOrder(c.recovery, events);
    case _ => FlushKeepsHeardFirst(c);
  }

  lemma {:induction false} HeardFirstAlways(inputs: seq<Input>)
    requires AllEnabled(START, inputs)
    ensures HeardFirst(HandleAll(START, inputs))
  {
    if inputs != [] {
      CoverageIsExact(inputs[..|inputs| - 1]);
      HeardFirstAlways(inputs[..|inputs| - 1]);
      HandleKeepsHeardFirst(HandleAll(START, inputs[..|inputs| - 1]), inputs[|inputs| - 1]);
    }
  }

  lemma {:induction false} FreshIsNotStale(inputs: seq<Input>)
    requires AllEnabled(START, inputs) && AllFresh(inputs)
    ensures !LastSnapshotWasStale(inputs)
  {
    hide HandleAll;
    if inputs != [] {
      FreshIsNotStale(inputs[..|inputs| - 1]);
      HeardFirstAlways(inputs[..|inputs| - 1]);
    }
  }

  /** Over every run in which each snapshot has what the client had heard of when it asked, the store
      shows exactly the events up to the frontier. */
  lemma FreshSnapshotsKeepStoreComplete(inputs: seq<Input>)
    requires AllEnabled(START, inputs) && AllFresh(inputs)
    ensures var c := HandleAll(START, inputs); c.store == UpTo(c.recovery.latestSequence)
  {
    FreshIsNotStale(inputs);
    StoreIsCompleteIff(inputs);
  }

  lemma OneMore(c: Client, inputs: seq<Input>, input: Input)
    ensures HandleAll(c, inputs + [input]) == Handle(HandleAll(c, inputs), input)
    ensures AllEnabled(c, inputs + [input]) <==> AllEnabled(c, inputs) && Enabled(HandleAll(c, inputs), input)
  {
    assert (inputs + [input])[..|inputs|] == inputs;
  }

  const WELCOMED := INITIAL.(bootstrapped := true, highestObservedSequence := 1)

  /** The client that heard the first event after an empty snapshot; then it asks for another one; then
      it flushes the event. */
  ghost function Hearing(event: DomainEvent): Client { START.(recovery := WELCOMED, pending := [event]) }

  ghost function Fetching(event: DomainEvent, reason: Reason): Client {
    Hearing(event).(recovery := WELCOMED.(inFlight := Some(Phase(SnapshotPhase, reason))), outstanding := SnapshotRequest,
                    asked := 1)
  }

  ghost function Showing(event: DomainEvent, reason: Reason): Client {
    Client(Fetching(event, reason).recovery.(latestSequence := 1), SnapshotRequest, [], [event], {1}, {1}, 1)
  }

  lemma FlushesWhileFetching(event: DomainEvent, reason: Reason)
    requires event.sequence == 1
    ensures Handle(Fetching(event, reason), Flush) == Showing(event, reason)
  {
    var c := Fetching(event, reason);
    MarkOne(c.recovery, event);
    hide NewEvents, Mark;
    assert c.applied + [event] == [event];
    assert Sequences([event]) == {1};
    assert c.covered + {1} == {1};
  }

  lemma MarkOne(st: State, event: DomainEvent)
    requires event.sequence == st.latestSequence + 1 == st.highestObservedSequence
    ensures Mark(st, [event]) == ([event], st.(latestSequence := event.sequence))
  {
    assert [event][1..] == [] && Newer(st.latestSequence, [event]) == [event];
    assert SortBySequence([event]) == [event];
  }

  lemma FirstEventHeard(event: DomainEvent, reason: Reason)
    requires event.sequence == 1
    ensures var inputs := [RequestSnapshot(reason), SnapshotArrived(0), Receive(event)];
            AllEnabled(START, inputs) && HandleAll(START, inputs) == Hearing(event)
  {
    var inputs := [RequestSnapshot(reason), SnapshotArrived(0), Receive(event)];
    assert inputs == [] + [RequestSnapshot(reason)] + [SnapshotArrived(0)] + [Receive(event)];
    OneMore(START, [], RequestSnapshot(reason));
    OneMore(START, [] + [RequestSnapshot(reason)], SnapshotArrived(0));
    OneMore(START, [] + [RequestSnapshot(reason)] + [SnapshotArrived(0)], Receive(event));
  }

  /** Without that guarantee the store can lose an event: here the reply is a snapshot from before the
      event that the client had heard when it asked. */
  lemma StaleSnapshotHidesEvent(event: DomainEvent, reason: Reason)
    requires event.sequence == 1
    ensures var inputs := [RequestSnapshot(reason), SnapshotArrived(0), Receive(event)]
                          + [RequestSnapshot(reason)] + [Flush] + [SnapshotArrived(0)];
            var c := HandleAll(START, inputs);
            && AllEnabled(START, inputs) && c.recovery.latestSequence == 1 && c.recovery.inFlight.None?
            && c.applied == [event] && c.store == {}
  {
    var heard := [RequestSnapshot(reason), SnapshotArrived(0), Receive(event)];
    FirstEventHeard(event, reason);
    OneMore(START, heard, RequestSnapshot(reason));
    OneMore(START, heard + [RequestSnapshot(reason)], Flush);
    OneMore(START, heard + [RequestSnapshot(reason)] + [Flush], SnapshotArrived(0));
    hide HandleAll, AllEnabled, FlushPending;
    FlushesWhileFetching(event, reason);
    assert Handle(Hearing(event), RequestSnapshot(reason)) == Fetching(event, reason);
  }

  // ----- Nothing is applied twice.

  ghost predicate StrictlyAscending(events: seq<DomainEvent>) {
    forall i, j :: 0 <= i < j < |events| ==> events[i].sequence < events[j].sequence
  }

  ghost predicate DistinctSequences(events: seq<DomainEvent>) {
    forall i, j :: 0 <= i < j < |events| ==> events[i].sequence != events[j].sequence
  }

  /** `markEventBatchApplied` sorts and filters but does not dedupe: what it hands on is free of
      repeats exactly when the part of the batch above the frontier is. */
  lemma BatchAppliedOnceIff(st: State, events: seq<DomainEvent>)
    ensures StrictlyAscending(Mark(st, events).0) <==> DistinctSequences(Newer(st.latestSequence, events))
  {
    var newer := Newer(st.latestSequence, events);
    SortPreservesDistinctness(newer);
  }

  /** Distinctness as a count: as many different sequences as events. */
  lemma {:induction false} DistinctIffAsManySequences(events: seq<DomainEvent>)
    ensures |Sequences(events)| <= |events|
    ensures DistinctSequences(events) <==> |Sequences(events)| == |events|
  {
    if events != [] {
      var rest := events[1..];
      DistinctIffAsManySequences(rest);
      assert forall e :: e in events <==> e == events[0] || e in rest;
      assert Sequences(events) == {events[0].sequence} + Sequences(rest);
      if DistinctSequences(events) {
        assert events[0].sequence !in Sequences(rest);
      } else if events[0].sequence !in Sequences(rest) {
        var i, j :| 0 <= i < j < |events| && events[i].sequence == events[j].sequence;
        assert events[j] == rest[j - 1];
        assert rest[i - 1].sequence == rest[j - 1].sequence;
      }
    }
  }

  lemma SortPreservesDistinctness(events: seq<DomainEvent>)
    ensures StrictlyAscending(SortBySequence(events)) <==> DistinctSequences(events)
  {
    var sorted := SortBySequence(events);
    DistinctIffAsManySequences(events);
    DistinctIffAsManySequences(sorted);
    assert |sorted| == |multiset(sorted)| == |multiset(events)| == |events|;
    forall e ensures e in sorted <==> e in events {
      assert e in sorted <==> e in multiset(sorted);
      assert e in events <==> e in multiset(events);
    }
    assert Sequences(sorted) == Sequences(events);
    assert StrictlyAscending(sorted) <==> DistinctSequences(sorted);
  }

  /** A live event is not received again before the flush that applies it. */
  ghost predicate NoRepeatBeforeFlush(c: Client, input: Input) {
    input.Receive? ==> forall e :: e in c.pending ==> e.sequence != input.event.sequence
  }

  ghost predicate AllWithoutRepeats(c: Client, inputs: seq<Input>) {
    inputs == [] ||
    (AllWithoutRepeats(c, inputs[..|inputs| - 1])
     && NoRepeatBeforeFlush(HandleAll(c, inputs[..|inputs| - 1]), inputs[|inputs| - 1]))
  }

  ghost predicate AppliedOnce(c: Client) {
    && DistinctSequences(c.pending)
    && StrictlyAscending(c.applied)
    && forall e :: e in c.applied ==> e.sequence <= c.recovery.latestSequence
  }

  lemma {:induction false} NewerIsSubsequence(latest: int, events: seq<DomainEvent>)
    requires DistinctSequences(events)
    ensures DistinctSequences(Newer(latest, events))
  {
    if events != [] {
      NewerIsSubsequence(latest, events[1..]);
      forall e | e in Newer(latest, events[1..]) ensures e.sequence != events[0].sequence {
        NewerMembers(latest, events[1..], e);
        var j :| 0 <= j < |events[1..]| && events[1..][j] == e;
        assert events[j + 1] == e;
      }
    }
  }

  lemma ApplyingDistinctBatch(c: Client, events: seq<DomainEvent>)
    requires AppliedOnce(c) && DistinctSequences(events)
    ensures AppliedOnce(ApplyBatch(c, events))
  {
    hide Sequences, SortBySequence, Newer;
    var latest := c.recovery.latestSequence;
    var next := NewEvents(latest, events);
    NewerIsSubsequence(latest, events);
    BatchAppliedOnceIff(c.recovery, events);
    forall e | e in next ensures e.sequence > latest {
      NewEventsMembers(latest, events, e);
    }
    if next != [] {
      var last := next[|next| - 1];
      assert last in next;
      forall e | e in next ensures e.sequence <= last.sequence {
        var i :| 0 <= i < |next| && next[i] == e;
        assert i < |next| - 1 ==> next[i].sequence < last.sequence;
      }
    }
  }

  lemma FlushKeepsAppliedOnce(c: Client)
    requires AppliedOnce(c)
    ensures AppliedOnce(FlushPending(c))
  {
    ApplyingDistinctBatch(c, c.pending);
  }

  /** Only the frontier, the pending batch and the applied log matter to `AppliedOnce`. */
  lemma AppliedOnceTransfers(c: Client, d: Client)
    requires AppliedOnce(c) && d.pending == c.pending && d.applied == c.applied
    requires d.recovery.latestSequence >= c.recovery.latestSequence
    ensures AppliedOnce(d)
  {}

  lemma ReceiveKeepsAppliedOnce(c: Client, event: DomainEvent)
    requires AppliedOnce(c) && NoRepeatBeforeFlush(c, Receive(event))
    ensures AppliedOnce(Handle(c, Receive(event)))
  {
    var (action, recovery) := Classify(c.recovery, event.sequence);
    var heard := c.(recovery := recovery);
    AppliedOnceTransfers(c, heard);
    if action == Recover {
      FlushKeepsAppliedOnce(heard);
      AppliedOnceTransfers(FlushPending(heard), StartReplay(FlushPending(heard), SequenceGap));
    }
  }

  lemma HandleKeepsAppliedOnce(c: Client, input: Input)
    requires AppliedOnce(c) && Enabled(c, input) && NoRepeatBeforeFlush(c, input)
    ensures AppliedOnce(Handle(c, input))
  {
    match input
    case Receive(event) => ReceiveKeepsAppliedOnce(c, event);
    case Flush => FlushKeepsAppliedOnce(c);
    case Resubscribed =>
      FlushKeepsAppliedOnce(c);
      AppliedOnceTransfers(FlushPending(c), Handle(c, input));
    case ReplayArrived(events) =>
      ConsecutiveIsDistinct(c.outstanding.fromExclusive, events);
      ApplyingDistinctBatch(c, events);
      AppliedOnceTransfers(ApplyBatch(c, events), Handle(c, input));
    case _ => AppliedOnceTransfers(c, Handle(c, input));
  }

  lemma ConsecutiveIsDistinct(from: int, events: seq<DomainEvent>)
    requires Consecutive(from, events)
    ensures DistinctSequences(events)
  {}

  /** Over every run in which no live event repeats before its flush, the events handed to the
      store are strictly ascending: each at most once, and in log order. */
  lemma {:induction false} AppliedAtMostOnceInOrder(inputs: seq<Input>)
    requires AllEnabled(START, inputs) && AllWithoutRepeats(START, inputs)
    ensures AppliedOnce(HandleAll(START, inputs))
  {
    if inputs != [] {
      AppliedAtMostOnceInOrder(inputs[..|inputs| - 1]);
      HandleKeepsAppliedOnce(HandleAll(START, inputs[..|inputs| - 1]), inputs[|inputs| - 1]);
    }
  }

  /** The batch that the input makes the client mark as applied. */
  ghost function BatchOf(c: Client, input: Input): seq<DomainEvent> {
    match input
    case Receive(event) => if Classify(c.recovery, event.sequence).0 == Recover then c.pending else []
    case Flush => c.pending
    case Resubscribed => c.pending
    case ReplayArrived(events) => events
    case _ => []
  }

  /** No batch of the run repeats an event beyond the frontier. */
  ghost predicate NoBatchRepeats(c: Client, inputs: seq<Input>) {
    inputs == [] ||
    (var front, last := inputs[..|inputs| - 1], inputs[|inputs| - 1];
     var before := HandleAll(c, front);
     && NoBatchRepeats(c, front)
     && DistinctSequences(Newer(before.recovery.latestSequence, BatchOf(before, last))))
  }

  ghost predicate AppliedBelow(c: Client) { forall e :: e in c.applied ==> e.sequence <= c.recovery.latestSequence }

  lemma AscendingBlocks(xs: seq<DomainEvent>, ys: seq<DomainEvent>, latest: int)
    requires forall e :: e in xs ==> e.sequence <= latest
    requires forall e :: e in ys ==> e.sequence > latest
    ensures StrictlyAscending(xs + ys) <==> StrictlyAscending(xs) && StrictlyAscending(ys)
  {
    var s := xs + ys;
    if StrictlyAscending(s) {
      forall i, j | 0 <= i < j < |xs| ensures xs[i].sequence < xs[j].sequence { assert s[i] == xs[i] && s[j] == xs[j]; }
      forall i, j | 0 <= i < j < |ys| ensures ys[i].sequence < ys[j].sequence {
        assert s[|xs| + i] == ys[i] && s[|xs| + j] == ys[j];
      }
    }
  }

  lemma BatchAppends(c: Client, events: seq<DomainEvent>)
    requires AppliedBelow(c)
    ensures var fed := ApplyBatch(c, events);
            && AppliedBelow(fed)
            && (StrictlyAscending(fed.applied) <==>
                StrictlyAscending(c.applied) && DistinctSequences(Newer(c.recovery.latestSequence, events)))
  {
    hide Sequences, Newer, SortBySequence;
    var latest, next := c.recovery.latestSequence, NewEvents(c.recovery.latestSequence, events);
    forall e | e in next ensures latest < e.sequence <= MaxOf(latest, events) { NewEventsMembers(latest, events, e); }
    MarkTakesMaximum(c.recovery, events);
    BatchAppliedOnceIff(c.recovery, events);
    AscendingBlocks(c.applied, next, latest);
  }

  lemma HandleAppends(c: Client, input: Input)
    requires AppliedBelow(c)
    ensures var next := Handle(c, input);
            && AppliedBelow(next)
            && (StrictlyAscending(next.applied) <==>
                StrictlyAscending(c.applied) && DistinctSequences(Newer(c.recovery.latestSequence, BatchOf(c, input))))
  {
    hide ApplyBatch, StrictlyAscending, DistinctSequences;
    NothingNewer(c.recovery.latestSequence);
    match input
    case Receive(event) => BatchAppends(c.(recovery := Classify(c.recovery, event.sequence).1), c.pending);
    case ReplayArrived(events) => BatchAppends(c, events);
    case _ => BatchAppends(c, c.pending);
  }

  lemma NothingNewer(latest: int)
    ensures DistinctSequences(Newer(latest, []))
  {}

  /** Over every run, the events handed to the store are strictly ascending exactly when no batch repeats
      an event that is still beyond the frontier when the batch is marked. */
  lemma {:induction false} AppliedAtMostOnceIff(inputs: seq<Input>)
    ensures AppliedBelow(HandleAll(START, inputs))
    ensures StrictlyAscending(HandleAll(START, inputs).applied) <==> NoBatchRepeats(START, inputs)
  {
    hide Handle, StrictlyAscending, DistinctSequences;
    if inputs == [] {
      NothingAscends();
    } else {
      AppliedAtMostOnceIff(inputs[..|inputs| - 1]);
      HandleAppends(HandleAll(START, inputs[..|inputs| - 1]), inputs[|inputs| - 1]);
    }
  }

  lemma NothingAscends()
    ensures StrictlyAscending([])
  {}

  // ----- End to end: the ordered stream into a live client.

  /** Bootstrapped, with no recovery in flight. */
  predicate Idle(st: State) { st.bootstrapped && st.inFlight.None? }

  /** Classify an event and, if the answer is "apply", mark it at once. */
  function TakeLive(st: State, event: DomainEvent): (Action, State) {
    var (action, heard) := Classify(st, event.sequence);
    (action, if action == Apply then Mark(heard, [event]).1 else heard)
  }

  function TakeAll(st: State, events: seq<DomainEvent>): (seq<Action>, State) {
    if events == [] then ([], st)
    else
      var (actions, before) := TakeAll(st, events[..|events| - 1]);
      var (action, after) := TakeLive(before, events[|events| - 1]);
      (actions + [action], after)
  }

  /** Every event at or below the frontier is ignored, every other one applied. */
  predicate AnsweredLive(latest: int, events: seq<DomainEvent>, actions: seq<Action>) {
    |actions| == |events| &&
    forall i :: 0 <= i < |events| ==>
      actions[i] == (if events[i].sequence <= latest then Ignore else Apply)
  }

  lemma TakeLiveInOrder(st: State, event: DomainEvent)
    requires Idle(st) && event.sequence <= st.latestSequence + 1
    ensures var (action, after) := TakeLive(st, event);
            && action == (if event.sequence <= st.latestSequence then Ignore else Apply)
            && Idle(after) && after.pendingReplay == st.pendingReplay
            && after.latestSequence == Max(st.latestSequence, event.sequence)
  {
    MarkTakesMaximum(Classify(st, event.sequence).1, [event]);
  }

  /** A live client at or past the start of a consecutive stream never has to recover, applies
      exactly the events beyond its frontier, and ends at the last event delivered. */
  lemma {:induction false} OrderedStreamNeverForcesRecovery(st: State, from: int, events: seq<DomainEvent>)
    requires Idle(st) && from <= st.latestSequence
    requires Consecutive(from, events)
    ensures var (actions, done) := TakeAll(st, events);
            && AnsweredLive(st.latestSequence, events, actions)
            && Idle(done) && done.pendingReplay == st.pendingReplay
            && done.latestSequence == Max(st.latestSequence, from + |events|)
  {
    if events != [] {
      var n := |events| - 1;
      var front := events[..n];
      OrderedStreamNeverForcesRecovery(st, from, front);
      assert events[n].sequence == from + 1 + n;
      TakeLiveInOrder(TakeAll(st, front).1, events[n]);
      assert forall i :: 0 <= i < n ==> front[i] == events[i];
    }
  }

  /** End to end: whatever arrives at the server buffer, in whatever order and with whatever
      repeats, the client never answers "recover" or "defer" and ends just before the frontier. */
  lemma BufferFeedsLiveClient(st: State, from: int, arrivals: seq<DomainEvent>, events: seq<DomainEvent>)
    requires Idle(st) && from <= st.latestSequence
    requires events == Output(from, arrivals)
    ensures var (actions, done) := TakeAll(st, events);
            && AnsweredLive(st.latestSequence, events, actions)
            && done.latestSequence == Max(st.latestSequence, Frontier(from, Arrived(arrivals)) - 1)
  {
    OutputIsConsecutive(from, arrivals);
    OrderedStreamNeverForcesRecovery(st, from, events);
  }

  lemma OutputIsConsecutive(from: int, arrivals: seq<DomainEvent>)
    ensures Consecutive(from, Output(from, arrivals))
    ensures from + |Output(from, arrivals)| == Frontier(from, Arrived(arrivals)) - 1
  {}

  /** Marking at once matters: an idle client that has not yet flushed answers "recover" to an
      event exactly when the event lies beyond the next one, even if the gap is only unflushed. */
  lemma RecoversIffBeyondNext(c: Client, event: DomainEvent)
    requires Idle(c.recovery)
    ensures Classify(c.recovery, event.sequence).0 == Recover <==>
            event.sequence > c.recovery.latestSequence + 1
  {}

  // ----- Schedules: which mixes of live events and flushes never force a recovery.

  /** The last event of an in-order stream heard so far, or the frontier it started from. */
  function Heard(latest: int, inputs: seq<Input>): int {
    if inputs == [] then latest
    else
      var before, last := Heard(latest, inputs[..|inputs| - 1]), inputs[|inputs| - 1];
      if last.Receive? then Max(before, last.event.sequence) else before
  }

  /** Live events, flushed now and then; each repeats an earlier one or is the next. */
  predicate InOrder(latest: int, inputs: seq<Input>) {
    inputs == [] ||
    (var front, last := inputs[..|inputs| - 1], inputs[|inputs| - 1];
     && InOrder(latest, front)
     && (last.Flush? || (last.Receive? && last.event.sequence <= Heard(latest, front) + 1)))
  }

  /** A new event was heard after the last flush. */
  predicate Waiting(latest: int, inputs: seq<Input>) {
    inputs != [] &&
    (var front, last := inputs[..|inputs| - 1], inputs[|inputs| - 1];
     !last.Flush? && (Waiting(latest, front) || Heard(latest, front) < Heard(latest, inputs)))
  }

  /** No two new events without a flush in between. */
  predicate FlushedBetween(latest: int, inputs: seq<Input>) {
    inputs == [] ||
    (var front, last := inputs[..|inputs| - 1], inputs[|inputs| - 1];
     && FlushedBetween(latest, front)
     && (Waiting(latest, front) ==> Heard(latest, front) == Heard(latest, inputs)))
  }

  ghost predicate AnswersRecover(c: Client, input: Input) {
    input.Receive? && Classify(c.recovery, input.event.sequence).0 == Recover
  }

  ghost predicate NeverRecovers(c: Client, inputs: seq<Input>) {
    inputs == [] ||
    (NeverRecovers(c, inputs[..|inputs| - 1])
     && !AnswersRecover(HandleAll(c, inputs[..|inputs| - 1]), inputs[|inputs| - 1]))
  }

  /** The client is idle, and at most the next event waits for its flush. */
  ghost predicate CaughtUp(c: Client, heard: int, waiting: bool) {
    && Idle(c.recovery)
    && MaxOf(c.recovery.latestSequence, c.pending) == heard
    && heard == c.recovery.latestSequence + if waiting then 1 else 0
  }

  lemma {:induction false} MaxOfSnoc(floor: int, events: seq<DomainEvent>, event: DomainEvent)
    ensures MaxOf(floor, events + [event]) == Max(MaxOf(floor, events), event.sequence)
    decreases |events|
  {
    if events == [] {
      assert [event][1..] == [];
    } else {
      assert (events + [event])[1..] == events[1..] + [event];
      MaxOfSnoc(Max(floor, events[0].sequence), events[1..], event);
    }
  }

  lemma ScheduleFlush(c: Client, heard: int, waiting: bool)
    requires CaughtUp(c, heard, waiting)
    ensures CaughtUp(FlushPending(c), heard, false)
  {
    hide Sequences, NewEvents;
    MarkTakesMaximum(c.recovery, c.pending);
    MarkKeepsMode(c.recovery, c.pending);
  }

  lemma MarkKeepsMode(st: State, events: seq<DomainEvent>)
    ensures Mark(st, events).1.bootstrapped == st.bootstrapped && Mark(st, events).1.inFlight == st.inFlight
  {}

  lemma ScheduleReceive(c: Client, event: DomainEvent, heard: int, waiting: bool)
    requires CaughtUp(c, heard, waiting) && event.sequence <= heard + 1
    ensures AnswersRecover(c, Receive(event)) <==> event.sequence > heard && waiting
    ensures !AnswersRecover(c, Receive(event)) ==>
              CaughtUp(Handle(c, Receive(event)), Max(heard, event.sequence), waiting || event.sequence > heard)
  {
    hide FlushPending, StartReplay, MaxOf;
    MaxOfSnoc(c.recovery.latestSequence, c.pending, event);
  }

  lemma StartsCaughtUp(c: Client)
    requires Idle(c.recovery) && c.pending == []
    ensures CaughtUp(c, c.recovery.latestSequence, false)
  {}

  lemma FlushIsNoEvent(c: Client)
    ensures Handle(c, Flush) == FlushPending(c) && !AnswersRecover(c, Flush)
  {}

  lemma {:induction false} ScheduleOutcome(c: Client, inputs: seq<Input>)
    requires Idle(c.recovery) && c.pending == [] && InOrder(c.recovery.latestSequence, inputs)
    ensures var latest := c.recovery.latestSequence;
            && (NeverRecovers(c, inputs) <==> FlushedBetween(latest, inputs))
            && (NeverRecovers(c, inputs) ==>
                  CaughtUp(HandleAll(c, inputs), Heard(latest, inputs), Waiting(latest, inputs)))
  {
    hide Handle, AnswersRecover, CaughtUp, FlushPending;
    if inputs == [] {
      StartsCaughtUp(c);
    } else {
      var latest, front, last := c.recovery.latestSequence, inputs[..|inputs| - 1], inputs[|inputs| - 1];
      ScheduleOutcome(c, front);
      if NeverRecovers(c, front) {
        var heard, waiting := Heard(latest, front), Waiting(latest, front);
        if last.Receive? {
          ScheduleReceive(HandleAll(c, front), last.event, heard, waiting);
        } else {
          ScheduleFlush(HandleAll(c, front), heard, waiting);
          FlushIsNoEvent(HandleAll(c, front));
        }
      }
    }
  }

  /** An idle client that hears a stream in order, with repeats, never answers "recover" exactly when
      no two new events come without a flush in between; after a flush it has then applied all of it. */
  lemma NeverRecoversIff(c: Client, inputs: seq<Input>)
    requires Idle(c.recovery) && c.pending == [] && InOrder(c.recovery.latestSequence, inputs)
    ensures NeverRecovers(c, inputs) <==> FlushedBetween(c.recovery.latestSequence, inputs)
    ensures NeverRecovers(c, inputs) ==>
              FlushPending(HandleAll(c, inputs)).recovery.latestSequence == Heard(c.recovery.latestSequence, inputs)
  {
    ScheduleOutcome(c, inputs);
    if NeverRecovers(c, inputs) {
      var d := HandleAll(c, inputs);
      MarkTakesMaximum(d.recovery, d.pending);
    }
  }

  /** Two consecutive events force a recovery when the second is heard before the first is flushed,
      and do not when the flush comes in between. */
  lemma BackToBackEventsForceRecovery(c: Client, first: DomainEvent, second: DomainEvent)
    requires Idle(c.recovery) && first.sequence == c.recovery.latestSequence + 1
    requires second.sequence == first.sequence + 1
    ensures var heard := Handle(c, Receive(first));
            && Classify(heard.recovery, second.sequence).0 == Recover
            && Classify(Handle(heard, Flush).recovery, second.sequence).0 != Recover
  {
    hide StartReplay, Sequences, NewEvents;
    var heard := Handle(c, Receive(first));
    assert heard.pending == c.pending + [first];
    MarkTakesMaximum(heard.recovery, heard.pending);
    MarkKeepsMode(heard.recovery, heard.pending);
    assert first in heard.pending;
    hide MaxOf;
    RecoversIffBeyondNext(heard, second);
    RecoversIffBeyondNext(Handle(heard, Flush), second);
  }
}
