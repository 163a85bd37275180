/** Which request the live client has out, and which events wait for their flush, after each input: told by
    the request that was out and the frontiers, for every state that a run can reach. */
module LiveRequests {
  import opened Text
  import opened Recovery
  import opened RecoveryRuns
  import opened LiveClient

  predicate Bootstrapped(c: Client) { c.recovery.bootstrapped && c.outstanding.NoRequest? }

  /** The event leaves a gap behind the frontier, while nothing is out. */
  predicate LeavesGap(c: Client, input: Input) {
    input.Receive? && Bootstrapped(c) && input.event.sequence > c.recovery.latestSequence + 1
  }

  /** The event is the next one, while nothing is out. */
  predicate IsNext(c: Client, input: Input) {
    input.Receive? && Bootstrapped(c) && input.event.sequence == c.recovery.latestSequence + 1
  }

  predicate Flushes(c: Client, input: Input) { input.Flush? || input.Resubscribed? || LeavesGap(c, input) }

  lemma FlushingFields(c: Client)
    ensures var d := FlushPending(c);
            && d.recovery.latestSequence == MaxOf(c.recovery.latestSequence, c.pending)
            && d.recovery.bootstrapped == c.recovery.bootstrapped && d.recovery.inFlight == c.recovery.inFlight
            && d.recovery.pendingReplay == c.recovery.pendingReplay && d.outstanding == c.outstanding && d.pending == []
  {
    MarkTakesMaximum(c.recovery, c.pending);
  }


  /** The events that wait are those that came next since the last flush; a flush moves the frontier to the
      last of them, a reply to what it brings, and nothing else moves it. */
  lemma BatchWaits(c: Client, input: Input)
    requires Inv(c) && Enabled(c, input)
    ensures var d := Handle(c, input);
            && d.pending == (if Flushes(c, input) then [] else if IsNext(c, input) then c.pending + [input.event] else c.pending)
            && d.recovery.latestSequence ==
               (if Flushes(c, input) then MaxOf(c.recovery.latestSequence, c.pending)
                else if input.SnapshotArrived? then Max(c.recovery.latestSequence, input.snapshotSequence)
                else if input.ReplayArrived? then MaxOf(c.recovery.latestSequence, input.events)
                else c.recovery.latestSequence)
  {
    hide UpTo, Mark, ApplyBatch;
    match input
    case Receive(event) => FlushingFields(c.(recovery := Classify(c.recovery, event.sequence).1));
    case ReplayArrived(events) => ApplyingMoves(c, events);
    case _ => FlushingFields(c);
  }

  lemma ApplyingMoves(c: Client, events: seq<DomainEvent>)
    ensures var fed := ApplyBatch(c, events);
            && fed.recovery.latestSequence == MaxOf(c.recovery.latestSequence, events) && fed.pending == c.pending
            && fed.recovery.bootstrapped == c.recovery.bootstrapped && fed.recovery.inFlight == c.recovery.inFlight
  {
    MarkTakesMaximum(c.recovery, events);
  }

  /** With nothing out, a snapshot is asked for on order; a replay is, once bootstrapped, on order, after a
      resubscription, or for an event that leaves a gap, from the frontier reached by flushing. */
  lemma IdleAsks(c: Client, input: Input)
    requires Inv(c) && Enabled(c, input) && c.outstanding.NoRequest?
    ensures Handle(c, input).outstanding ==
            if input.RequestSnapshot? then SnapshotRequest
            else if c.recovery.bootstrapped && input.RunReplay? then ReplayRequest(c.recovery.latestSequence)
            else if c.recovery.bootstrapped && (input.Resubscribed? || LeavesGap(c, input))
            then ReplayRequest(MaxOf(c.recovery.latestSequence, c.pending))
            else NoRequest
  {
    hide UpTo, Mark, ApplyBatch;
    match input
    case Receive(event) => FlushingFields(c.(recovery := Classify(c.recovery, event.sequence).1));
    case _ => FlushingFields(c);
  }

  /** With a request out, only its own end changes it: a snapshot is followed by a replay from the frontier
      if anything was turned away or lies beyond it, a failed replay by a snapshot, all else by nothing. */
  lemma BusyAsks(c: Client, input: Input)
    requires Inv(c) && Enabled(c, input) && !c.outstanding.NoRequest?
    ensures var frontier := Max(c.recovery.latestSequence, if input.SnapshotArrived? then input.snapshotSequence else 0);
            Handle(c, input).outstanding ==
            match input
            case SnapshotArrived(s) =>
              if c.recovery.pendingReplay || c.recovery.highestObservedSequence > frontier then ReplayRequest(frontier) else NoRequest
            case SnapshotFailed => NoRequest
            case ReplayArrived(_) => NoRequest
            case ReplayRequestFailed => SnapshotRequest
            case _ => c.outstanding
  {
    hide UpTo, Mark, ApplyBatch;
    match input
    case Receive(event) => FlushingFields(c.(recovery := Classify(c.recovery, event.sequence).1));
    case ReplayArrived(events) => ApplyingMoves(c, events);
    case _ => FlushingFields(c);
  }

  /** A new event, or an order for a replay, before bootstrapping or with a request out; or an order for a
      snapshot with a request out. */
  predicate TurnedAway(c: Client, input: Input) {
    match input
    case Receive(event) => event.sequence > c.recovery.latestSequence && !Bootstrapped(c)
    case Resubscribed => !Bootstrapped(c)
    case RunReplay(_) => !Bootstrapped(c)
    case RequestSnapshot(_) => !c.outstanding.NoRequest?
    case _ => false
  }

  /** A replay begins, or a request comes back with its reply. */
  predicate Resets(c: Client, input: Input) {
    match input
    case Receive(_) => LeavesGap(c, input)
    case Resubscribed => Bootstrapped(c)
    case RunReplay(_) => Bootstrapped(c)
    case SnapshotArrived(_) => true
    case ReplayArrived(_) => true
    case _ => false
  }

  /** The client is bootstrapped by a snapshot until a replay fails, and remembers that it turned something
      away until the next replay begins or the next reply comes. */
  lemma ModeFollows(c: Client, input: Input)
    requires Inv(c) && Enabled(c, input)
    ensures var d := Handle(c, input).recovery;
            && (d.bootstrapped <==> input.SnapshotArrived? || (c.recovery.bootstrapped && !input.ReplayRequestFailed?))
            && (d.pendingReplay <==> TurnedAway(c, input) || (c.recovery.pendingReplay && !Resets(c, input)))
  {
    hide UpTo, Mark, ApplyBatch;
    match input
    case Receive(event) => FlushingFields(c.(recovery := Classify(c.recovery, event.sequence).1));
    case ReplayArrived(events) => ApplyingMoves(c, events);
    case _ => FlushingFields(c);
  }
}
