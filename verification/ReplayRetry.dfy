/** Bounded retry of replay rounds: `deriveReplayRetryDecision` and the rounds it drives. */
module ReplayRetry {
  import opened Text
  import opened Recovery
  import opened RecoveryRuns

  datatype Tracker = Tracker(attempts: int, latestSequence: int, highestObservedSequence: int)

  datatype Decision = Decision(shouldRetry: bool, delayMs: int, tracker: Option<Tracker>)

  function Pow2(n: nat): (p: nat)
    ensures p >= 1
  {
    if n == 0 then 1 else 2 * Pow2(n - 1)
  }

  predicate SameFrontier(previous: Option<Tracker>, st: State) {
    && previous.Some?
    && previous.value.latestSequence == st.latestSequence
    && previous.value.highestObservedSequence == st.highestObservedSequence
  }

  /** The attempts already spent at the frontier of `st`. */
  function AttemptsAt(previous: Option<Tracker>, st: State): int {
    if SameFrontier(previous, st) then previous.value.attempts else 0
  }

  function Decide(previous: Option<Tracker>, completion: Completion, st: State,
                  baseDelayMs: int, maxNoProgressRetries: int): Decision
    requires previous.Some? ==> previous.value.attempts >= 1
  {
    if !completion.shouldReplay then Decision(false, 0, None)
    else if completion.replayMadeProgress then Decision(true, 0, None)
    else
      var attempts := if SameFrontier(previous, st) then previous.value.attempts + 1 else 1;
      if attempts > maxNoProgressRetries then Decision(false, 0, None)
      else Decision(true, baseDelayMs * Pow2(attempts - 1),
                    Some(Tracker(attempts, st.latestSequence, st.highestObservedSequence)))
  }

  /** A completion without a need, or one too many, ends the chain and forgets it; one without progress
      counts the attempts at the very same frontier, both of its numbers, and starts over at any other. */
  lemma AttemptsCount(previous: Option<Tracker>, completion: Completion, st: State, base: int, max: int)
    requires previous.Some? ==> previous.value.attempts >= 1
    ensures var decision := Decide(previous, completion, st, base, max);
            var before := if previous.Some? && previous.value.latestSequence == st.latestSequence
                             && previous.value.highestObservedSequence == st.highestObservedSequence
                          then previous.value.attempts else 0;
            && (!decision.shouldRetry ==> decision.tracker.None? && decision.delayMs == 0)
            && (decision.shouldRetry <==> completion.shouldReplay && (completion.replayMadeProgress || before + 1 <= max))
            && (decision.shouldRetry && !completion.replayMadeProgress ==>
                  decision.tracker == Some(Tracker(before + 1, st.latestSequence, st.highestObservedSequence)))
  {}

  // ----- Chains of rounds: calls between rounds, an accepted begin, calls in flight, a completion.
  // Whoever begins a round, its completion goes through the same tracker, so the rounds of a chain are
  // any completions in a row that are all answered with "retry".

  datatype Round = Round(between: seq<Step>, reason: Reason, inFlight: seq<Step>)

  /** Between two completions anything may be called, snapshots included, but another completion or a
      failure of a replay. */
  predicate NoReplayEnds(steps: seq<Step>) {
    forall k :: 0 <= k < |steps| ==> !steps[k].DoCompleteReplay? && !steps[k].DoFailReplay?
  }

  /** While a replay is out: live traffic, and begins, which are turned away. */
  predicate WhileReplaying(steps: seq<Step>) {
    forall k :: 0 <= k < |steps| ==>
      steps[k].DoClassify? || steps[k].DoMark? || steps[k].DoBeginSnapshot? || steps[k].DoBeginReplay?
  }

  function RoundCalls(round: Round): seq<Step> {
    round.between + [DoBeginReplay(round.reason)] + round.inFlight
  }

  function Completed(st: State, round: Round): (Completion, State) {
    CompleteReplay(Run(st, RoundCalls(round)))
  }

  /** Every round of the chain begins, completes, and is answered with "retry". */
  ghost predicate RetryChain(st: State, previous: Option<Tracker>, rounds: seq<Round>, base: int, max: nat)
    requires previous.Some? ==> previous.value.attempts >= 1
    decreases |rounds|
  {
    rounds == [] ||
    var (completion, done) := Completed(st, rounds[0]);
    var decision := Decide(previous, completion, done, base, max);
    && NoReplayEnds(rounds[0].between) && WhileReplaying(rounds[0].inFlight)
    && BeginReplay(Run(st, rounds[0].between), rounds[0].reason).0
    && decision.shouldRetry
    && RetryChain(done, decision.tracker, rounds[1..], base, max)
  }

  ghost predicate MentionsAtMost(steps: seq<Step>, bound: int) {
    forall k, s :: 0 <= k < |steps| && Mentions(steps[k], s) ==> s <= bound
  }

  ghost predicate Bounded(rounds: seq<Round>, bound: int) {
    forall k :: 0 <= k < |rounds| ==> MentionsAtMost(rounds[k].between, bound) && MentionsAtMost(rounds[k].inFlight, bound)
  }

  ghost predicate Within(st: State, bound: int) {
    st.latestSequence <= st.highestObservedSequence <= bound
  }

  /** The lexicographic measure (distance of the frontier from the bound, attempts left). */
  function Budget(st: State, previous: Option<Tracker>, bound: int, max: nat): int {
    (2 * bound - st.latestSequence - st.highestObservedSequence) * (max + 1) + max - AttemptsAt(previous, st)
  }

  lemma {:induction false} RunStaysWithin(st: State, steps: seq<Step>, bound: int)
    requires MentionsAtMost(steps, bound) && Within(st, bound)
    ensures Within(Run(st, steps), bound)
  {
    if steps != [] {
      var front, last := steps[..|steps| - 1], steps[|steps| - 1];
      assert steps[|steps| - 1] == last;
      RunStaysWithin(st, front, bound);
      match last
      case DoClassify(s) => assert Mentions(last, s);
      case DoMark(events) =>
        var mid := Run(st, front);
        MarkTakesMaximum(mid, events);
        var m := MaxOf(mid.latestSequence, events);
        if m > mid.latestSequence {
          assert Mentions(last, m);
        }
      case DoCompleteSnapshot(s) => assert Mentions(last, s);
      case _ =>
    }
  }

  lemma {:induction false} ReplayingKeepsStart(st: State, steps: seq<Step>)
    requires st.inFlight.Some? && WhileReplaying(steps)
    ensures Run(st, steps).inFlight == st.inFlight && Run(st, steps).replayStartSequence == st.replayStartSequence
  {
    if steps != [] {
      var front, last := steps[..|steps| - 1], steps[|steps| - 1];
      assert steps[|steps| - 1] == last;
      ReplayingKeepsStart(st, front);
    }
  }

  lemma RoundUnfolds(st: State, round: Round)
    ensures Run(st, RoundCalls(round)) ==
            Run(BeginReplay(Run(st, round.between), round.reason).1, round.inFlight)
  {
    var begin := [DoBeginReplay(round.reason)];
    RunSplit(st, round.between, begin);
    assert begin[..|begin| - 1] == [];
    assert Run(Run(st, round.between), []) == Run(st, round.between);
    RunSplit(st, round.between + begin, round.inFlight);
  }

  /** One round never loses ground, and progress means a strictly later frontier. */
  lemma RoundAdvances(st: State, round: Round)
    requires WhileReplaying(round.inFlight) && BeginReplay(Run(st, round.between), round.reason).0
    ensures var (completion, done) := Completed(st, round);
            && st.latestSequence <= done.latestSequence
            && st.highestObservedSequence <= done.highestObservedSequence
            && (completion.replayMadeProgress ==> st.latestSequence < done.latestSequence)
  {
    RoundUnfolds(st, round);
    FrontiersNeverRegress(st, round.between);
    var begun := BeginReplay(Run(st, round.between), round.reason).1;
    ReplayingKeepsStart(begun, round.inFlight);
    FrontiersNeverRegress(begun, round.inFlight);
  }

  lemma RoundStaysWithin(st: State, round: Round, bound: int)
    requires Within(st, bound) && MentionsAtMost(round.between, bound) && MentionsAtMost(round.inFlight, bound)
    ensures Within(Completed(st, round).1, bound)
  {
    RoundUnfolds(st, round);
    RunStaysWithin(st, round.between, bound);
    RunStaysWithin(BeginReplay(Run(st, round.between), round.reason).1, round.inFlight, bound);
  }

  // ----- Progress by the call history.

  ghost predicate MarksBeyond(steps: seq<Step>, frontier: int) {
    exists k, e :: 0 <= k < |steps| && steps[k].DoMark? && e in steps[k].events && e.sequence > frontier
  }

  lemma MarksMore(front: seq<Step>, last: Step, frontier: int)
    ensures MarksBeyond(front + [last], frontier) <==>
            MarksBeyond(front, frontier) || (last.DoMark? && exists e :: e in last.events && e.sequence > frontier)
  {
    var steps := front + [last];
    if k, e :| 0 <= k < |front| && front[k].DoMark? && e in front[k].events && e.sequence > frontier {
      assert steps[k] == front[k];
    }
    if last.DoMark? { assert steps[|front|] == last; }
  }

  lemma StepAdvances(st: State, step: Step)
    requires WhileReplaying([step])
    ensures Next(st, step).latestSequence == if step.DoMark? then MaxOf(st.latestSequence, step.events) else st.latestSequence
  {
    assert [step][0] == step;
    if step.DoMark? { MarkTakesMaximum(st, step.events); }
  }

  lemma {:induction false} AdvancesIffMarked(st: State, steps: seq<Step>)
    requires WhileReplaying(steps)
    ensures Run(st, steps).latestSequence > st.latestSequence <==> MarksBeyond(steps, st.latestSequence)
  {
    hide Next, MarksBeyond, MaxOf;
    if steps == [] {
      NothingMarked(st.latestSequence);
    } else {
      var front, last := steps[..|steps| - 1], steps[|steps| - 1];
      assert steps == front + [last] && [last][0] == last;
      AdvancesIffMarked(st, front);
      FrontiersNeverRegress(st, front);
      MarksMore(front, last, st.latestSequence);
      StepAdvances(Run(st, front), last);
    }
  }

  lemma NothingMarked(frontier: int)
    ensures !MarksBeyond([], frontier)
  {}

  /** Over every run: a replay that was begun and completes reports progress exactly when more is applied
      than when it was begun, which is exactly when some batch marked while it was out has an event beyond
      the frontier it was begun at; and it reports a need exactly when something was turned away since it
      was begun or observed and not applied. */
  lemma CompletionIff(before: seq<Step>, reason: Reason, inFlight: seq<Step>)
    requires BeginReplay(Run(INITIAL, before), reason).0 && WhileReplaying(inFlight)
    ensures var steps := before + [DoBeginReplay(reason)] + inFlight;
            var completion := CompleteReplay(Run(INITIAL, steps)).0;
            && (completion.replayMadeProgress <==> MaxApplied(steps) > MaxApplied(before))
            && (completion.replayMadeProgress <==> MarksBeyond(inFlight, MaxApplied(before)))
            && (completion.shouldReplay <==> TurnedAwaySinceReset(steps) || MaxSeen(steps) > MaxApplied(steps))
  {
    hide CompleteSnapshot, TurnedAwaySinceReset;
    var round := Round(before, reason, inFlight);
    var steps := RoundCalls(round);
    var begun := BeginReplay(Run(INITIAL, before), reason).1;
    RoundUnfolds(INITIAL, round);
    ReplayingKeepsStart(begun, inFlight);
    AdvancesIffMarked(begun, inFlight);
    FrontiersAreMaxima(before);
    FrontiersAreMaxima(steps);
    ReplayNeededIff(steps, 0);
  }

  /** A round that makes progress and still needs more is retried at once and with all retries left. */
  lemma ProgressIsRetriedAtOnce(st: State, round: Round, previous: Option<Tracker>, base: int, max: nat)
    requires previous.Some? ==> previous.value.attempts >= 1
    requires WhileReplaying(round.inFlight) && BeginReplay(Run(st, round.between), round.reason).0
    requires MarksBeyond(round.inFlight, Run(st, round.between).latestSequence)
    ensures var (completion, done) := Completed(st, round);
            var decision := Decide(previous, completion, done, base, max);
            && decision == (if completion.shouldReplay then Decision(true, 0, None) else Decision(false, 0, None))
            && forall later: State :: AttemptsAt(decision.tracker, later) == 0
  {
    var begun := BeginReplay(Run(st, round.between), round.reason).1;
    RoundUnfolds(st, round);
    ReplayingKeepsStart(begun, round.inFlight);
    AdvancesIffMarked(begun, round.inFlight);
  }

  /** With observed sequences bounded, every chain of retries is finite: each round spends budget. */
  lemma {:induction false} RetryChainsAreFinite(st: State, previous: Option<Tracker>, rounds: seq<Round>,
                                                base: int, max: nat, bound: int)
    requires previous.Some? ==> 1 <= previous.value.attempts <= max
    requires RetryChain(st, previous, rounds, base, max)
    requires Bounded(rounds, bound) && Within(st, bound)
    ensures |rounds| <= Budget(st, previous, bound, max)
    decreases |rounds|
  {
    if rounds == [] {
      ProductNonNegative(2 * bound - st.latestSequence - st.highestObservedSequence, max);
    } else {
      var (completion, done) := Completed(st, rounds[0]);
      var decision := Decide(previous, completion, done, base, max);
      assert MentionsAtMost(rounds[0].between, bound) && MentionsAtMost(rounds[0].inFlight, bound);
      RoundAdvances(st, rounds[0]);
      RoundStaysWithin(st, rounds[0], bound);
      BudgetDrops(st, previous, completion, done, base, max, bound);
      RetryChainsAreFinite(done, decision.tracker, rounds[1..], base, max, bound);
    }
  }

  /** Every granted retry spends budget: distance to the bound first, then attempts left. */
  lemma BudgetDrops(st: State, previous: Option<Tracker>, completion: Completion, done: State,
                    base: int, max: nat, bound: int)
    requires previous.Some? ==> 1 <= previous.value.attempts <= max
    requires st.latestSequence <= done.latestSequence
    requires st.highestObservedSequence <= done.highestObservedSequence
    requires completion.replayMadeProgress ==> st.latestSequence < done.latestSequence
    requires Decide(previous, completion, done, base, max).shouldRetry
    ensures Budget(done, Decide(previous, completion, done, base, max).tracker, bound, max)
            < Budget(st, previous, bound, max)
  {
    var distance := 2 * bound - st.latestSequence - st.highestObservedSequence;
    var left := 2 * bound - done.latestSequence - done.highestObservedSequence;
    if left < distance {
      ProductSteps(left, distance, max);
    }
  }

  lemma ProductNonNegative(a: int, max: nat)
    requires a >= 0
    ensures a * (max + 1) >= 0
  {}

  lemma ProductSteps(a: int, b: int, max: nat)
    requires a < b
    ensures a * (max + 1) + max + 1 <= b * (max + 1)
  {
    var m: int, d := max + 1, b - a - 1;
    ProductNonNegative(d, max);
    assert b * m == (a + 1 + d) * m;
    assert (a + 1 + d) * m == a * m + m + d * m;
  }

  // ----- Rounds that end at the frontier they began at.

  ghost predicate SameFrontiers(a: State, b: State) {
    a.latestSequence == b.latestSequence && a.highestObservedSequence == b.highestObservedSequence
  }

  ghost predicate Stuck(st: State, rounds: seq<Round>)
    decreases |rounds|
  {
    rounds == [] || (SameFrontiers(st, Completed(st, rounds[0]).1) && Stuck(Completed(st, rounds[0]).1, rounds[1..]))
  }

  /** Where a chain leads, and the delay it imposed on the way. */
  datatype Trail = Trail(done: State, tracker: Option<Tracker>, delay: int)

  ghost function Follow(st: State, previous: Option<Tracker>, rounds: seq<Round>, base: int, max: nat): (t: Trail)
    requires previous.Some? ==> previous.value.attempts >= 1
    ensures t.tracker.Some? ==> t.tracker.value.attempts >= 1
    decreases |rounds|
  {
    if rounds == [] then Trail(st, previous, 0)
    else
      var (completion, done) := Completed(st, rounds[0]);
      var decision := Decide(previous, completion, done, base, max);
      var rest := Follow(done, decision.tracker, rounds[1..], base, max);
      rest.(delay := decision.delayMs + rest.delay)
  }

  /** The delays of `count` retries after `a` attempts: `base * 2^a` and so on, doubling. */
  function Backoff(base: int, a: nat, count: nat): int { base * (Pow2(a + count) - Pow2(a)) }

  lemma NoBackoff(base: int, a: nat)
    ensures Backoff(base, a, 0) == 0
  {}

  lemma MoreBackoff(base: int, a: nat, count: nat)
    ensures base * Pow2(a) + Backoff(base, a + 1, count) == Backoff(base, a, count + 1)
  {
    var p: int, q: int := Pow2(a), Pow2(a + 1 + count);
    assert Pow2(a + 1) == 2 * p;
    assert base * p + base * (q - 2 * p) == base * (p + (q - 2 * p));
  }

  lemma StuckStep(st: State, previous: Option<Tracker>, completion: Completion, done: State, base: int, max: nat)
    requires previous.Some? ==> 1 <= previous.value.attempts <= max
    requires SameFrontiers(st, done) && !completion.replayMadeProgress
    requires Decide(previous, completion, done, base, max).shouldRetry
    ensures var a, decision := AttemptsAt(previous, st), Decide(previous, completion, done, base, max);
            && decision.tracker.Some? && decision.tracker.value.attempts == a + 1 <= max && 0 <= a
            && AttemptsAt(decision.tracker, done) == a + 1 && decision.delayMs == base * Pow2(a)
  {}

  /** A chain of rounds that stay at the frontier is no longer than the retries left, its delays add up
      to a power of two, and a further round without progress is retried exactly when one is left. */
  lemma {:induction false} StuckRetriesAreBounded(st: State, previous: Option<Tracker>, rounds: seq<Round>,
                                                  base: int, max: nat)
    requires previous.Some? ==> 1 <= previous.value.attempts <= max
    requires RetryChain(st, previous, rounds, base, max) && Stuck(st, rounds)
    ensures var a, trail := AttemptsAt(previous, st), Follow(st, previous, rounds, base, max);
            && 0 <= a && a + |rounds| <= max
            && trail.delay == Backoff(base, a, |rounds|)
            && (Decide(trail.tracker, Completion(false, true), trail.done, base, max).shouldRetry <==> a + |rounds| < max)
            && AttemptsAt(trail.tracker, trail.done) == a + |rounds|
    decreases |rounds|
  {
    var a := AttemptsAt(previous, st);
    hide Pow2, Backoff;
    if rounds == [] {
      NoBackoff(base, a);
    } else {
      var (completion, done) := Completed(st, rounds[0]);
      var decision := Decide(previous, completion, done, base, max);
      RoundAdvances(st, rounds[0]);
      StuckStep(st, previous, completion, done, base, max);
      hide Completed, Decide, AttemptsAt;
      StuckRetriesAreBounded(done, decision.tracker, rounds[1..], base, max);
      MoreBackoff(base, a, |rounds| - 1);
    }
  }
}
