/** Whether the latest turn still counts as running (apps/web/src/session-logic.ts:1654-1870), a
    decision that depends on the clock. Times are milliseconds. */
module RunningTurn {
  import opened Text

  /** An optional date: missing, present but not a date, or a time. */
  datatype Timestamp = Absent | Invalid | At(ms: int)

  datatype Turn = Turn(
    turnId: string,
    assistantMessageId: Option<string>,
    completedAt: Timestamp,
    startedAt: Timestamp,
    requestedAt: Timestamp)

  datatype Input = Input(
    turn: Option<Turn>,
    settled: bool,
    sessionRunning: bool,
    sessionActiveTurnId: Option<string>,
    streaming: bool,
    hasReply: bool,
    hasWorkLogEntry: bool,
    runningSignalAt: Timestamp,
    continuationSignalAt: Timestamp,
    allowReplyWait: bool)

  const REPLY_WAIT := 5_000
  const CONTINUATION_WINDOW := 15_000
  const STALE_TIMEOUT := 60_000

  /** `a - b > limit`, false when either is not a time. */
  predicate LaterBy(a: Timestamp, b: Timestamp, limit: int) { a.At? && b.At? && a.ms - b.ms > limit }

  function Latest(a: Timestamp, b: Timestamp): Timestamp {
    if !a.At? then b else if !b.At? then a else if a.ms < b.ms then b else a
  }

  predicate RecentContinuation(i: Input, now: Timestamp) {
    && i.turn.Some?
    && LaterBy(i.continuationSignalAt, i.turn.value.completedAt, 0)
    && !LaterBy(now, i.continuationSignalAt, CONTINUATION_WINDOW)
  }

  /** `activeLatestTurn?.completedAt !== null`: also true without a turn. */
  predicate NotOpen(i: Input) { i.turn.Some? ==> !i.turn.value.completedAt.Absent? }

  predicate Stale(i: Input, now: Timestamp) {
    && i.turn.Some? && i.turn.value.completedAt.Absent?
    && !i.streaming && !i.hasReply
    && LaterBy(now, Latest(i.runningSignalAt, Anchor(i.turn.value)), STALE_TIMEOUT)
  }

  function Anchor(t: Turn): Timestamp { if t.startedAt.Absent? then t.requestedAt else t.startedAt }

  predicate ReplyWaitTimedOut(i: Input, now: Timestamp) {
    && i.turn.Some? && i.turn.value.assistantMessageId.Some?
    && !i.hasReply
    && LaterBy(now, i.turn.value.completedAt, REPLY_WAIT)
  }

  predicate IsRunning(i: Input, now: Timestamp) {
    var recent := RecentContinuation(i, now);
    var completed := i.turn.Some? && !i.turn.value.completedAt.Absent?;
    var expectsReply := i.turn.Some? && i.turn.value.assistantMessageId.Some?;
    var completedReply := i.hasReply && !i.streaming && NotOpen(i);
    var settledReply := i.hasReply && !i.settled && NotOpen(i);
    if (completedReply || settledReply) && !recent then false
    else if ReplyWaitTimedOut(i, now) then false
    else if !i.allowReplyWait && completed && !i.streaming && !i.hasReply then false
    else if completed && i.settled && !i.streaming && !recent
            && !(i.allowReplyWait && expectsReply && !i.hasReply && !ReplyWaitTimedOut(i, now)) then false
    else if Stale(i, now) then false
    else
      || (i.sessionRunning && i.sessionActiveTurnId.Some?
          && (!completed || i.turn.value.turnId != i.sessionActiveTurnId.value || expectsReply))
      || i.streaming
      || (!i.settled && i.turn.Some? && (!completed || expectsReply))
      || (i.allowReplyWait && expectsReply && !i.hasReply && (i.hasWorkLogEntry || completed))
      || recent
  }

  /** Time order; no clock at all counts as the beginning of time. */
  predicate NotBefore(later: Timestamp, earlier: Timestamp) {
    !earlier.At? || (later.At? && later.ms >= earlier.ms)
  }

  /** With everything else fixed, what is not running never becomes running again. */
  lemma RunningOnlyStops(i: Input, earlier: Timestamp, later: Timestamp)
    requires NotBefore(later, earlier)
    ensures IsRunning(i, later) ==> IsRunning(i, earlier)
  {
    StopsAreFinal(i, earlier, later);
  }

  lemma StopsAreFinal(i: Input, earlier: Timestamp, later: Timestamp)
    requires NotBefore(later, earlier)
    ensures RecentContinuation(i, later) ==> RecentContinuation(i, earlier)
    ensures ReplyWaitTimedOut(i, earlier) ==> ReplyWaitTimedOut(i, later)
    ensures Stale(i, earlier) ==> Stale(i, later)
  {}

  predicate DifferentTurnActive(i: Input) {
    && i.sessionRunning && i.sessionActiveTurnId.Some? && i.turn.Some?
    && i.turn.value.turnId != i.sessionActiveTurnId.value
  }

  /** Past both deadlines a completed turn without a streaming message runs exactly when the session
      works on a different turn and nothing was or will be said about this one. */
  lemma CompletedTurnRunsIff(i: Input, now: Timestamp)
    requires i.turn.Some? && i.turn.value.completedAt.At? && !i.streaming
    requires LaterBy(now, i.turn.value.completedAt, REPLY_WAIT)
    requires i.continuationSignalAt.At? ==> LaterBy(now, i.continuationSignalAt, CONTINUATION_WINDOW)
    ensures IsRunning(i, now) <==>
            DifferentTurnActive(i) && !i.hasReply && i.turn.value.assistantMessageId.None?
            && !i.settled && i.allowReplyWait
  {
    assert !RecentContinuation(i, now);
    assert ReplyWaitTimedOut(i, now) <==> i.turn.value.assistantMessageId.Some? && !i.hasReply;
  }

  /** Both deadlines are sharp: the turn is still running one instant earlier. */
  lemma DeadlinesAreSharp(turnId: string, messageId: string, completedAt: int)
    ensures var done := Turn(turnId, Some(messageId), At(completedAt), Absent, Absent);
            var waiting := Input(Some(done), true, false, None, false, false, false, Absent, Absent, true);
            var continued := waiting.(hasReply := true, continuationSignalAt := At(completedAt + 1));
            && IsRunning(waiting, At(completedAt + REPLY_WAIT))
            && !IsRunning(waiting, At(completedAt + REPLY_WAIT + 1))
            && IsRunning(continued, At(completedAt + 1 + CONTINUATION_WINDOW))
            && !IsRunning(continued, At(completedAt + 1 + CONTINUATION_WINDOW + 1))
  {}

  /** A completion date that is not a date sets no deadline: whatever the time, the turn runs exactly
      when it streams without an unsettled reply, or is without a reply that may still be waited for,
      and one was announced or the unsettled turn has given way to a different one. */
  lemma UndatedCompletionRunsIff(i: Input, now: Timestamp)
    requires i.turn.Some? && i.turn.value.completedAt.Invalid?
    ensures IsRunning(i, now) <==>
            if i.streaming then !(i.hasReply && !i.settled)
            else && !i.hasReply && i.allowReplyWait
                 && (i.turn.value.assistantMessageId.Some? || (!i.settled && DifferentTurnActive(i)))
  {
    assert !RecentContinuation(i, now) && !ReplyWaitTimedOut(i, now) && !Stale(i, now);
  }

  ghost predicate StoppedFrom(i: Input, t: int) { forall ms: int :: ms >= t ==> !IsRunning(i, At(ms)) }

  /** A completed turn without a stream stops for good at some time exactly when a reply is there or is
      not waited for; or an announced reply has a dated completion; or, with none announced, the turn is
      settled or the session works on no different one. */
  lemma CompletedTurnStopsIff(i: Input)
    requires i.turn.Some? && !i.turn.value.completedAt.Absent? && !i.streaming
    ensures (exists t :: StoppedFrom(i, t)) <==>
            || i.hasReply || !i.allowReplyWait
            || (if i.turn.value.assistantMessageId.Some? then i.turn.value.completedAt.At?
                else i.settled || !DifferentTurnActive(i))
  {
    if i.turn.value.completedAt.At? {
      var c := i.turn.value.completedAt.ms;
      var s := if i.continuationSignalAt.At? then i.continuationSignalAt.ms else c;
      var deadline := (if s < c then c else s) + CONTINUATION_WINDOW + 1;
      var runsOn := DifferentTurnActive(i) && !i.hasReply && i.turn.value.assistantMessageId.None?
                    && !i.settled && i.allowReplyWait;
      forall ms: int | ms >= deadline ensures IsRunning(i, At(ms)) <==> runsOn { CompletedTurnRunsIff(i, At(ms)); }
      EventuallyConstant(i, deadline, runsOn);
    } else {
      var runsOn := !i.hasReply && i.allowReplyWait
                    && (i.turn.value.assistantMessageId.Some? || (!i.settled && DifferentTurnActive(i)));
      forall ms: int | ms >= 0 ensures IsRunning(i, At(ms)) <==> runsOn { UndatedCompletionRunsIff(i, At(ms)); }
      EventuallyConstant(i, 0, runsOn);
    }
  }

  lemma EventuallyConstant(i: Input, from: int, runsOn: bool)
    requires forall ms: int :: ms >= from ==> (IsRunning(i, At(ms)) <==> runsOn)
    ensures (exists t :: StoppedFrom(i, t)) <==> !runsOn
  {
    hide IsRunning;
    if !runsOn {
      assert StoppedFrom(i, from);
    } else {
      forall t ensures !StoppedFrom(i, t) {
        var ms := if t < from then from else t;
        assert IsRunning(i, At(ms));
      }
    }
  }

  /** An open turn runs exactly when it is not stale and something speaks for it; past the last
      signal by a minute without a stream or a reply it is stale, whatever the session says. */
  lemma OpenTurnRunsIff(i: Input, now: Timestamp)
    requires i.turn.Some? && i.turn.value.completedAt.Absent?
    ensures IsRunning(i, now) <==>
            && !Stale(i, now)
            && (|| (i.sessionRunning && i.sessionActiveTurnId.Some?)
                || i.streaming
                || !i.settled
                || (i.allowReplyWait && i.turn.value.assistantMessageId.Some? && !i.hasReply && i.hasWorkLogEntry))
  {}

  /** Without a turn only the session or a stream can run, and a reply ends both unless it is still
      streaming in a settled turn. */
  lemma NoTurnRunsIff(i: Input, now: Timestamp)
    requires i.turn.None?
    ensures IsRunning(i, now) <==>
            && !(i.hasReply && (!i.streaming || !i.settled))
            && (i.streaming || (i.sessionRunning && i.sessionActiveTurnId.Some?))
  {}

  // ----- The whole decision without the clock: how long a turn runs.

  datatype Span = Never | Until(ms: int) | Forever

  predicate Spans(span: Span, ms: int) {
    match span
    case Never => false
    case Until(last) => ms <= last
    case Forever => true
  }

  /** A turn that is not completed, or no turn. */
  function OpenSpan(i: Input): Span {
    if i.turn.None? then
      if (i.streaming || (i.sessionRunning && i.sessionActiveTurnId.Some?)) && !(i.hasReply && (!i.streaming || !i.settled))
      then Forever else Never
    else
      var began := if i.turn.value.startedAt == Absent then i.turn.value.requestedAt else i.turn.value.startedAt;
      var signal := i.runningSignalAt;
      var awaited := i.allowReplyWait && i.turn.value.assistantMessageId.Some? && !i.hasReply && i.hasWorkLogEntry;
      if !((i.sessionRunning && i.sessionActiveTurnId.Some?) || i.streaming || !i.settled || awaited) then Never
      else if i.streaming || i.hasReply || !(began.At? || signal.At?) then Forever
      else Until(60_000 + if !signal.At? || (began.At? && began.ms >= signal.ms) then began.ms else signal.ms)
  }

  /** A completed turn. */
  function CompletedSpan(i: Input): Span
    requires i.turn.Some?
  {
    var completedAt, signal := i.turn.value.completedAt, i.continuationSignalAt;
    var continued := if signal.At? && completedAt.At? && signal.ms > completedAt.ms then Until(signal.ms + 15_000) else Never;
    var replyWait := if completedAt.At? then Until(completedAt.ms + 5_000) else Forever;
    var asked := i.turn.value.assistantMessageId.Some?;
    if i.hasReply then (if i.streaming && i.settled then Forever else continued)
    else if i.streaming then (if asked then replyWait else Forever)
    else if !i.allowReplyWait then Never
    else if asked then replyWait
    else if !i.settled && DifferentTurnActive(i) then Forever
    else continued
  }

  function SpanOf(i: Input): Span { if NotOpen(i) && i.turn.Some? then CompletedSpan(i) else OpenSpan(i) }

  /** Whatever is known about a turn, it runs up to one fixed time, or never, or for good. */
  lemma RunsExactlyUntil(i: Input, ms: int)
    ensures IsRunning(i, At(ms)) <==> Spans(SpanOf(i), ms)
  {}

  /** So it stops at some time exactly when its span is not for good. */
  lemma StopsIff(i: Input)
    ensures (exists t :: StoppedFrom(i, t)) <==> SpanOf(i) != Forever
  {
    var from := if SpanOf(i).Until? then SpanOf(i).ms + 1 else 0;
    forall ms: int | ms >= from ensures IsRunning(i, At(ms)) <==> SpanOf(i) == Forever { RunsExactlyUntil(i, ms); }
    EventuallyConstant(i, from, SpanOf(i) == Forever);
  }

  // ----- The continuation signal. Dates are compared as text here.

  datatype Message = Message(fromAssistant: bool, createdAt: string, completedAt: Option<string>, streaming: bool)

  function MessageSignal(m: Message): string {
    if m.streaming || m.completedAt.None? then m.createdAt else m.completedAt.value
  }

  /** A finished message of the assistant speaks when it was completed, any other when it was created. */
  predicate Speaks(m: Message, at: string) {
    m.fromAssistant && if !m.streaming && m.completedAt.Some? then m.completedAt == Some(at) else m.createdAt == at
  }

  ghost predicate IsSignal(workEntries: seq<string>, messages: seq<Message>, at: string) {
    at in workEntries || exists m :: m in messages && Speaks(m, at)
  }

  /** `latest` is the last of the signals after `completedAt`; `None` when there are none. */
  ghost predicate IsLatestAfter(latest: Option<string>, completedAt: string, signals: iset<string>) {
    if latest.None? then forall at :: at in signals ==> Le(at, completedAt)
    else latest.value in signals && !Le(latest.value, completedAt)
         && forall at :: at in signals && !Le(at, completedAt) ==> Le(at, latest.value)
  }

  ghost function Signals(workEntries: seq<string>, messages: seq<Message>): iset<string> {
    iset at: string | IsSignal(workEntries, messages, at)
  }

  lemma OneMoreSignal(latest: Option<string>, completedAt: string, signals: iset<string>, at: string, more: iset<string>)
    requires IsLatestAfter(latest, completedAt, signals) && more == signals + iset{at}
    ensures IsLatestAfter(if Le(at, completedAt) || (latest.Some? && Le(at, latest.value)) then latest else Some(at),
                          completedAt, more)
  {
    LeTotal(at, at);
    if latest.Some? && !Le(at, latest.value) {
      LeTotal(at, latest.value);
      forall x | x in signals && !Le(x, completedAt) ensures Le(x, at) { LeTransitive(x, latest.value, at); }
    }
  }

  lemma SameSignals(latest: Option<string>, completedAt: string, signals: iset<string>, more: iset<string>)
    requires IsLatestAfter(latest, completedAt, signals) && more == signals
    ensures IsLatestAfter(latest, completedAt, more)
  {}

  lemma WorkSignal(workEntries: seq<string>, at: string)
    ensures Signals(workEntries + [at], []) == Signals(workEntries, []) + iset{at}
  {
    forall x ensures IsSignal(workEntries + [at], [], x) <==> IsSignal(workEntries, [], x) || x == at {}
  }

  lemma MessageSignals(workEntries: seq<string>, messages: seq<Message>, m: Message)
    ensures Signals(workEntries, messages + [m]) ==
            if m.fromAssistant then Signals(workEntries, messages) + iset{MessageSignal(m)}
            else Signals(workEntries, messages)
  {
    assert m in messages + [m];
    forall x ensures IsSignal(workEntries, messages + [m], x) <==>
                     IsSignal(workEntries, messages, x) || (m.fromAssistant && x == MessageSignal(m))
    {
      if IsSignal(workEntries, messages, x) && x !in workEntries {
        var w :| w in messages && Speaks(w, x);
        assert w in messages + [m];
      }
    }
  }

  method DerivePostCompletionContinuationSignalAt(completedAt: Option<string>, workEntries: seq<string>,
                                                  messages: seq<Message>) returns (latest: Option<string>)
    ensures completedAt.None? || completedAt.value == "" ==> latest.None?
    ensures completedAt.Some? && completedAt.value != "" ==>
              IsLatestAfter(latest, completedAt.value, Signals(workEntries, messages))
  {
    latest := None;
    if completedAt.None? || completedAt.value == "" { return; }
    var done := completedAt.value;
    for k := 0 to |workEntries|
      invariant IsLatestAfter(latest, done, Signals(workEntries[..k], []))
    {
      hide IsLatestAfter, IsSignal;
      var at := workEntries[k];
      assert workEntries[..k + 1] == workEntries[..k] + [at];
      WorkSignal(workEntries[..k], at);
      OneMoreSignal(latest, done, Signals(workEntries[..k], []), at, Signals(workEntries[..k + 1], []));
      if Le(at, done) { continue; }
      if latest.None? || !Le(at, latest.value) { latest := Some(at); }
    }
    assert workEntries[..|workEntries|] == workEntries;
    for k := 0 to |messages|
      invariant IsLatestAfter(latest, done, Signals(workEntries, messages[..k]))
    {
      hide IsLatestAfter, IsSignal;
      var message := messages[k];
      assert messages[..k + 1] == messages[..k] + [message];
      MessageSignals(workEntries, messages[..k], message);
      if !message.fromAssistant {
        SameSignals(latest, done, Signals(workEntries, messages[..k]), Signals(workEntries, messages[..k + 1]));
        continue;
      }
      var at := MessageSignal(message);
      OneMoreSignal(latest, done, Signals(workEntries, messages[..k]), at, Signals(workEntries, messages[..k + 1]));
      if Le(at, done) { continue; }
      if latest.None? || !Le(at, latest.value) { latest := Some(at); }
    }
    assert messages[..|messages|] == messages;
  }

  /** The signal is determined by the set of signals, whatever order they come in. */
  lemma LatestIsUnique(a: Option<string>, b: Option<string>, completedAt: string, signals: iset<string>)
    requires IsLatestAfter(a, completedAt, signals) && IsLatestAfter(b, completedAt, signals)
    ensures a == b
  {
    if a.Some? && b.Some? { LeAntisymmetric(a.value, b.value); }
  }
}
