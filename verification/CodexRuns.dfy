/** What holds over every run of a Codex session. */
module CodexRuns {
  import opened Text
  import opened Decimal
  import opened CodexSession

  datatype Input =
    | Send(methodName: string, sendWritable: bool)
    | Response(id: RpcId, error: Option<string>, result: string)
    | Timeout(requestNumber: nat)
    | ServerRequest(rpcId: RpcId, askedMethod: string, params: Params, freshId: string)
    | Notification(topic: string, params: Params)
    | Decide(requestId: string, decision: string, decideWritable: bool)
    | AnswerInput(inputId: string, answers: seq<Answer>, answerWritable: bool)
    | StopRequested
    | Exited(clean: bool, message: string)

  /** Timers run only while their request is pending; drawn ids are fresh. */
  predicate Enabled(c: Context, input: Input) {
    match input
    case Timeout(n) => NatText(n) in c.requests.pending && c.requests.pending[NatText(n)].id == n
    case ServerRequest(_, _, _, id) => id !in c.replies.approvalsSeen && id !in c.replies.inputsSeen
    case _ => true
  }

  function Apply(c: Context, input: Input): Context {
    match input
    case Send(methodName, writable) => SendRequest(c, methodName, writable)
    case Response(id, error, result) => HandleResponse(c, id, error, result)
    case Timeout(n) => FireTimeout(c, n)
    case ServerRequest(id, methodName, params, requestId) => HandleServerRequest(c, id, methodName, params, requestId)
    case Notification(topic, params) => HandleNotification(c, topic, params)
    case Decide(id, decision, writable) => RespondToRequest(c, id, decision, writable).1
    case AnswerInput(id, answers, writable) => RespondToUserInput(c, id, answers, writable).1
    case StopRequested => Stop(c)
    case Exited(clean, message) => ProcessExit(c, clean, message)
  }

  predicate AllEnabled(c: Context, inputs: seq<Input>)
    decreases |inputs|
  {
    inputs == [] || (Enabled(c, inputs[0]) && AllEnabled(Apply(c, inputs[0]), inputs[1..]))
  }

  function Run(c: Context, inputs: seq<Input>): Context
    decreases |inputs|
  {
    if inputs == [] then c else Run(Apply(c, inputs[0]), inputs[1..])
  }

  // ----- Request correlation.

  /** Pending requests are filed under their own ids, and only issued ones. */
  ghost predicate Filed(q: Requests) {
    && q.nextRequestId >= 1
    && forall k :: k in q.pending ==> 1 <= q.pending[k].id < q.nextRequestId && k == NatText(q.pending[k].id)
  }

  /** Every id ever issued is pending or settled, never both, and no promise was settled twice. */
  ghost predicate Correlated(q: Requests) {
    && Filed(q)
    && (forall id :: id in q.settled ==> 1 <= id < q.nextRequestId)
    && (forall id: nat :: 1 <= id < q.nextRequestId ==> (id in q.settled <==> NatText(id) !in q.pending))
    && q.settledAgain == {}
  }

  lemma NatTextInjective(a: nat, b: nat)
    requires NatText(a) == NatText(b)
    ensures a == b
  {
    NatRoundTrip(a);
    NatRoundTrip(b);
  }

  lemma IssueKeepsCorrelation(q: Requests, methodName: string)
    requires Correlated(q)
    ensures Correlated(Issue(q, methodName))
    ensures NatText(q.nextRequestId) !in q.pending && q.nextRequestId !in q.settled
  {
    var n := q.nextRequestId;
    forall id: nat | id != n ensures NatText(id) != NatText(n) {
      if NatText(id) == NatText(n) { NatTextInjective(id, n); }
    }
  }

  /** Sending keeps the correspondence exactly when the write succeeds: a failed write settles the
      promise but leaves the request pending until its timer. */
  lemma SendKeepsCorrelationIff(c: Context, methodName: string, writable: bool)
    requires Correlated(c.requests)
    ensures Correlated(SendRequest(c, methodName, writable).requests) <==> writable
  {
    var n := c.requests.nextRequestId;
    IssueKeepsCorrelation(c.requests, methodName);
    var sent := SendRequest(c, methodName, writable).requests;
    assert 1 <= n < sent.nextRequestId && NatText(n) in sent.pending;
  }

  /** Taking one pending request out and settling it. */
  lemma RemovalKeepsCorrelation(q: Requests, id: nat, outcome: Outcome)
    requires Correlated(q) && 1 <= id < q.nextRequestId && NatText(id) in q.pending
    ensures Correlated(Settle(q.(pending := q.pending - {NatText(id)}), id, outcome))
  {
    forall other: nat | other != id ensures NatText(other) != NatText(id) {
      if NatText(other) == NatText(id) { NatTextInjective(other, id); }
    }
  }

  lemma {:induction false} RejectFromSettlesAll(q: Requests, from: nat)
    requires 1 <= from
    requires forall id: nat :: from <= id < q.nextRequestId && NatText(id) in q.pending ==> id !in q.settled
    ensures var r := RejectFrom(q, from);
            && r.pending == q.pending && r.nextRequestId == q.nextRequestId && r.settledAgain == q.settledAgain
            && forall id :: id in r.settled <==>
                 id in q.settled || (from <= id < q.nextRequestId && NatText(id) in q.pending)
    decreases q.nextRequestId - from
  {
    if from < q.nextRequestId {
      RejectFromSettlesAll(if NatText(from) in q.pending then Settle(q, from, SessionStopped) else q, from + 1);
    }
  }

  lemma StopKeepsCorrelation(q: Requests)
    requires Correlated(q)
    ensures Correlated(RejectFrom(q, 1).(pending := map[]))
  {
    RejectFromSettlesAll(q, 1);
  }

  lemma ApplyKeepsCorrelation(c: Context, input: Input)
    requires Correlated(c.requests) && Enabled(c, input) && SendWorks(input)
    ensures Correlated(Apply(c, input).requests)
  {
    var q := c.requests;
    match input
    case Send(methodName, writable) => SendKeepsCorrelationIff(c, methodName, writable);
    case Response(id, error, result) =>
      if KeyOf(id) in q.pending { RemovalKeepsCorrelation(q, q.pending[KeyOf(id)].id, OutcomeOf(error, result)); }
    case Timeout(n) => RemovalKeepsCorrelation(q, n, TimedOut);
    case StopRequested => StopKeepsCorrelation(q);
    case _ =>
  }

  predicate SendWorks(input: Input) { input.Send? ==> input.sendWritable }

  /** Some request is pending although settled, or was settled a second time. */
  ghost predicate Broken(q: Requests) {
    q.settledAgain != {} || exists k :: k in q.pending && q.pending[k].id in q.settled
  }

  lemma SendFiles(q: Requests, methodName: string)
    requires Filed(q)
    ensures Filed(Issue(q, methodName))
    ensures Broken(q) ==> Broken(Issue(q, methodName))
  {
    var n := q.nextRequestId;
    forall k | k in q.pending ensures k != NatText(n) {
      if NatText(q.pending[k].id) == NatText(n) { NatTextInjective(q.pending[k].id, n); }
    }
    if k :| k in q.pending && q.pending[k].id in q.settled {
      assert k in Issue(q, methodName).pending && Issue(q, methodName).pending[k] == q.pending[k];
    }
  }

  /** Settling what a pending request left settled shows as a second settlement. */
  lemma RemovalKeepsBroken(q: Requests, key: string, outcome: Outcome)
    requires Filed(q) && Broken(q) && key in q.pending
    ensures var after := Settle(q.(pending := q.pending - {key}), q.pending[key].id, outcome);
            Filed(after) && Broken(after)
  {
    var after := Settle(q.(pending := q.pending - {key}), q.pending[key].id, outcome);
    if q.settledAgain != {} {
      var x :| x in q.settledAgain;
      assert x in after.settledAgain;
    } else {
      var k :| k in q.pending && q.pending[k].id in q.settled;
      if k == key {
        assert q.pending[key].id in after.settledAgain;
      } else {
        assert k in after.pending && after.pending[k].id in after.settled;
      }
    }
  }

  lemma {:induction false} RejectFromRepeats(q: Requests, from: nat)
    ensures RejectFrom(q, from).nextRequestId == q.nextRequestId
    ensures q.settledAgain <= RejectFrom(q, from).settledAgain
    ensures forall id :: id in q.settled ==> id in RejectFrom(q, from).settled
    ensures forall id :: from <= id < q.nextRequestId && NatText(id) in q.pending && id in q.settled ==>
              id in RejectFrom(q, from).settledAgain
    decreases q.nextRequestId - from
  {
    if from < q.nextRequestId {
      RejectFromRepeats(if NatText(from) in q.pending then Settle(q, from, SessionStopped) else q, from + 1);
    }
  }

  lemma StopKeepsBroken(q: Requests)
    requires Filed(q) && Broken(q)
    ensures var after := RejectFrom(q, 1).(pending := map[]);
            Filed(after) && Broken(after)
  {
    RejectFromRepeats(q, 1);
    if q.settledAgain != {} {
      var x :| x in q.settledAgain;
      assert x in RejectFrom(q, 1).settledAgain;
    } else {
      var k :| k in q.pending && q.pending[k].id in q.settled;
      assert q.pending[k].id in RejectFrom(q, 1).settledAgain;
    }
  }

  /** No step repairs what is broken. */
  lemma ApplyKeepsBroken(c: Context, input: Input)
    requires Filed(c.requests) && Broken(c.requests) && Enabled(c, input)
    ensures Filed(Apply(c, input).requests) && Broken(Apply(c, input).requests)
  {
    hide Broken, RejectFrom;
    var q := c.requests;
    match input
    case Send(methodName, writable) =>
      SendFiles(q, methodName);
      if !writable { FailedWriteBreaks(q, methodName); }
    case Response(id, error, result) =>
      if KeyOf(id) in q.pending { RemovalKeepsBroken(q, KeyOf(id), OutcomeOf(error, result)); }
    case Timeout(n) => RemovalKeepsBroken(q, NatText(n), TimedOut);
    case StopRequested => StopKeepsBroken(q);
    case _ =>
  }

  lemma FailedWriteBreaks(q: Requests, methodName: string)
    requires Filed(q)
    ensures var after := Settle(Issue(q, methodName), q.nextRequestId, WriteFailed);
            Filed(after) && Broken(after)
  {
    SendFiles(q, methodName);
    var after := Settle(Issue(q, methodName), q.nextRequestId, WriteFailed);
    assert after.pending[NatText(q.nextRequestId)].id in after.settled;
  }

  lemma CorrelatedIsNotBroken(q: Requests)
    requires Correlated(q)
    ensures Filed(q) && !Broken(q)
  {
    forall k | k in q.pending ensures q.pending[k].id !in q.settled {
      assert NatText(q.pending[k].id) in q.pending;
    }
  }

  lemma {:induction false} BrokenStaysBroken(c: Context, inputs: seq<Input>)
    requires Filed(c.requests) && Broken(c.requests) && AllEnabled(c, inputs)
    ensures !Correlated(Run(c, inputs).requests)
    decreases |inputs|
  {
    hide Correlated, Broken, Filed, Enabled;
    if inputs == [] {
      if Correlated(c.requests) { CorrelatedIsNotBroken(c.requests); }
    } else {
      ApplyKeepsBroken(c, inputs[0]);
      BrokenStaysBroken(Apply(c, inputs[0]), inputs[1..]);
    }
  }

  lemma {:induction false} CorrelationFrom(c: Context, inputs: seq<Input>)
    requires Correlated(c.requests) && AllEnabled(c, inputs)
    ensures Correlated(Run(c, inputs).requests) <==> forall input :: input in inputs ==> SendWorks(input)
    decreases |inputs|
  {
    hide Correlated, Enabled, Apply, Filed, Broken;
    if inputs != [] {
      assert forall input :: input in inputs <==> input == inputs[0] || input in inputs[1..];
      if SendWorks(inputs[0]) {
        ApplyKeepsCorrelation(c, inputs[0]);
        CorrelationFrom(Apply(c, inputs[0]), inputs[1..]);
      } else {
        CorrelatedIsNotBroken(c.requests);
        FailedSendBreaks(c, inputs[0]);
        BrokenStaysBroken(Apply(c, inputs[0]), inputs[1..]);
      }
    }
  }

  lemma FailedSendBreaks(c: Context, input: Input)
    requires Filed(c.requests) && !SendWorks(input)
    ensures Filed(Apply(c, input).requests) && Broken(Apply(c, input).requests)
  {
    FailedWriteBreaks(c.requests, input.methodName);
  }

  /** Over every run: each id ever issued is either pending or settled, never both, and no request is
      settled twice, exactly when every request of the run could be written. */
  lemma RequestsStayCorrelatedIff(inputs: seq<Input>)
    requires AllEnabled(START, inputs)
    ensures Correlated(Run(START, inputs).requests) <==> forall input :: input in inputs ==> SendWorks(input)
  {
    CorrelationFrom(START, inputs);
  }

  /** Why a request may be settled: its own response, its timer, a stop, or a failed write of its own. */
  predicate MaySettle(c: Context, input: Input, id: nat) {
    match input
    case Response(rpcId, _, _) => KeyOf(rpcId) == NatText(id) && NatText(id) in c.requests.pending
    case Timeout(n) => n == id
    case StopRequested => c.open && NatText(id) in c.requests.pending
    case Send(_, writable) => !writable && id == c.requests.nextRequestId
    case _ => false
  }

  /** A request is settled exactly when one of its own causes occurs, and stays settled. */
  lemma SettledOnlyByOwnCause(c: Context, input: Input, id: nat)
    requires Correlated(c.requests) && Enabled(c, input)
    ensures id in Apply(c, input).requests.settled && id !in c.requests.settled <==> MaySettle(c, input, id)
    ensures id in c.requests.settled ==> id in Apply(c, input).requests.settled
  {
    var q := c.requests;
    match input
    case Response(rpcId, error, result) => ResponseSettles(q, KeyOf(rpcId), OutcomeOf(error, result), id);
    case StopRequested =>
      RejectFromSettlesAll(q, 1);
      if NatText(id) in q.pending { NatTextInjective(q.pending[NatText(id)].id, id); }
    case _ =>
  }

  lemma ResponseSettles(q: Requests, key: string, outcome: Outcome, id: nat)
    requires Correlated(q)
    ensures var r := Respond(q, key, outcome);
            && (id in r.settled && id !in q.settled <==> key == NatText(id) && key in q.pending)
            && (id in q.settled ==> id in r.settled)
  {
    if key in q.pending && key == NatText(id) {
      NatTextInjective(q.pending[key].id, id);
    }
  }

  /** Late, duplicate and unknown responses, and only those, change nothing at all. */
  lemma StrayResponseChangesNothing(c: Context, id: RpcId, error: Option<string>, result: string)
    ensures HandleResponse(c, id, error, result) == c <==> KeyOf(id) !in c.requests.pending
  {
    if KeyOf(id) in c.requests.pending {
      assert KeyOf(id) !in HandleResponse(c, id, error, result).requests.pending;
    }
  }

  // ----- Replies to the server: approvals and questions.

  /** The message replies to the approval, or to the question, of that id. */
  predicate RepliesTo(out: Outgoing, question: bool, requestId: string) {
    if question then out.AnswersOut? && out.requestId == requestId
    else out.DecisionOut? && out.requestId == requestId
  }

  predicate IsReply(out: Outgoing, question: bool) { if question then out.AnswersOut? else out.DecisionOut? }

  function ReplyCount(written: seq<Outgoing>, question: bool, requestId: string): nat {
    if written == [] then 0
    else
      var n := |written| - 1;
      ReplyCount(written[..n], question, requestId) + if RepliesTo(written[n], question, requestId) then 1 else 0
  }

  lemma OneMoreWritten(written: seq<Outgoing>, out: Outgoing, question: bool, requestId: string)
    ensures ReplyCount(written + [out], question, requestId) ==
            ReplyCount(written, question, requestId) + if RepliesTo(out, question, requestId) then 1 else 0
  {
    assert (written + [out])[..|written|] == written;
  }

  /** The approvals, or the questions, that await a reply and all that ever came in. */
  datatype Ledger = Ledger(pending: map<string, PendingReply>, seen: map<string, RpcId>)

  function LedgerOf(r: Replies, question: bool): Ledger {
    if question then Ledger(r.pendingUserInputs, r.inputsSeen) else Ledger(r.pendingApprovals, r.approvalsSeen)
  }

  /** Replies are sent at most once, and only under the JSON-RPC id the request arrived with. */
  ghost predicate Sound(l: Ledger, written: seq<Outgoing>, question: bool) {
    && (forall k :: k in l.pending ==>
          k in l.seen && l.pending[k].jsonRpcId == l.seen[k] && ReplyCount(written, question, k) == 0)
    && (forall k :: ReplyCount(written, question, k) <= if k in l.seen then 1 else 0)
    && (forall out :: out in written && IsReply(out, question) ==>
          out.requestId in l.seen && out.rpcId == l.seen[out.requestId])
  }

  /** Each is pending or replied to. */
  ghost predicate Complete(l: Ledger, written: seq<Outgoing>, question: bool) {
    forall k :: k in l.seen ==> (k in l.pending <==> ReplyCount(written, question, k) == 0)
  }

  /** Writing anything else changes nothing. */
  lemma OtherWrites(l: Ledger, written: seq<Outgoing>, out: Outgoing, question: bool)
    requires Sound(l, written, question) && !IsReply(out, question)
    ensures Sound(l, written + [out], question)
    ensures Complete(l, written, question) ==> Complete(l, written + [out], question)
  {
    forall k ensures ReplyCount(written + [out], question, k) == ReplyCount(written, question, k) {
      OneMoreWritten(written, out, question, k);
    }
    assert forall x :: x in written + [out] ==> x in written || x == out;
  }

  /** Taking one out, and then replying to it. */
  lemma Replying(l: Ledger, written: seq<Outgoing>, out: Outgoing, question: bool, requestId: string)
    requires Sound(l, written, question) && requestId in l.pending
    requires RepliesTo(out, question, requestId) && out.rpcId == l.pending[requestId].jsonRpcId
    ensures var after := l.(pending := l.pending - {requestId});
            && Sound(after, written, question)
            && Sound(after, written + [out], question)
            && (Complete(l, written, question) ==> Complete(after, written + [out], question))
  {
    forall k ensures ReplyCount(written + [out], question, k) ==
                     ReplyCount(written, question, k) + if k == requestId then 1 else 0
    {
      OneMoreWritten(written, out, question, k);
    }
    assert forall x :: x in written + [out] ==> x in written || x == out;
  }

  lemma Tracking(l: Ledger, written: seq<Outgoing>, reply: PendingReply, question: bool, requestId: string)
    requires Sound(l, written, question) && requestId !in l.seen
    ensures var after := Ledger(l.pending[requestId := reply], l.seen[requestId := reply.jsonRpcId]);
            && Sound(after, written, question)
            && (Complete(l, written, question) ==> Complete(after, written, question))
  {
    assert ReplyCount(written, question, requestId) == 0;
  }

  lemma Forgetting(l: Ledger, written: seq<Outgoing>, question: bool)
    requires Sound(l, written, question)
    ensures Sound(l.(pending := map[]), written, question)
  {}

  ghost predicate SoundIn(c: Context, question: bool) { Sound(LedgerOf(c.replies, question), c.written, question) }

  ghost predicate CompleteIn(c: Context, question: bool) { Complete(LedgerOf(c.replies, question), c.written, question) }

  /** The input is no reply of that kind, or one that is sent. */
  predicate ReplyWorks(input: Input, question: bool) {
    match input
    case Decide(_, _, writable) => question || writable
    case AnswerInput(_, answers, writable) => !question || (writable && ConvertAnswers(answers).Some?)
    case _ => true
  }

  lemma RequestKeepsReplies(c: Context, id: RpcId, methodName: string, p: Params, requestId: string, question: bool)
    requires SoundIn(c, question) && requestId !in LedgerOf(c.replies, question).seen
    ensures var d := HandleServerRequest(c, id, methodName, p, requestId);
            d.stopping == c.stopping && SoundIn(d, question) && (CompleteIn(c, question) ==> CompleteIn(d, question))
  {
    hide Sound, Complete, ChildParentTurn, RequestKindFor;
    var turn := OrElse(ChildParentTurn(c.collabReceiverTurns, p), RouteTurn(p));
    var l := LedgerOf(c.replies, question);
    Tracking(l, c.written, PendingReply(id, turn, RouteItem(p)), question, requestId);
    OtherWrites(l, c.written, ErrorOut(id, METHOD_NOT_FOUND), question);
  }

  lemma DecideKeepsReplies(c: Context, id: string, decision: string, writable: bool, question: bool)
    requires SoundIn(c, question)
    ensures var d := RespondToRequest(c, id, decision, writable).1;
            && d.stopping == c.stopping
            && SoundIn(d, question)
            && (CompleteIn(c, question) && (question || writable) ==> CompleteIn(d, question))
  {
    hide Sound, Complete;
    if id in c.replies.pendingApprovals {
      var l, out := LedgerOf(c.replies, question), DecisionOut(c.replies.pendingApprovals[id].jsonRpcId, decision, id);
      if question { OtherWrites(l, c.written, out, true); } else { Replying(l, c.written, out, false, id); }
    }
  }

  lemma AnswerKeepsReplies(c: Context, id: string, answers: seq<Answer>, writable: bool, question: bool)
    requires SoundIn(c, question)
    ensures var d := RespondToUserInput(c, id, answers, writable).1;
            && d.stopping == c.stopping
            && SoundIn(d, question)
            && (CompleteIn(c, question) && (!question || (writable && ConvertAnswers(answers).Some?)) ==>
                  CompleteIn(d, question))
  {
    hide Sound, Complete, ConvertAnswers;
    if id in c.replies.pendingUserInputs {
      var converted := if ConvertAnswers(answers).Some? then ConvertAnswers(answers).value else [];
      var l, out := LedgerOf(c.replies, question), AnswersOut(c.replies.pendingUserInputs[id].jsonRpcId, converted, id);
      if question { Replying(l, c.written, out, true, id); } else { OtherWrites(l, c.written, out, false); }
    }
  }

  lemma ApplyKeepsReplies(c: Context, input: Input, question: bool)
    requires SoundIn(c, question) && Enabled(c, input)
    ensures SoundIn(Apply(c, input), question)
    ensures !Apply(c, input).stopping && ReplyWorks(input, question) && CompleteIn(c, question) ==>
            !c.stopping && CompleteIn(Apply(c, input), question)
    ensures c.stopping ==> Apply(c, input).stopping
  {
    hide Sound, Complete, HandleServerRequest, RespondToRequest, RespondToUserInput, HandleNotification;
    var l := LedgerOf(c.replies, question);
    match input
    case Send(methodName, writable) => OtherWrites(l, c.written, RequestOut(c.requests.nextRequestId, methodName), question);
    case ServerRequest(id, methodName, p, requestId) => RequestKeepsReplies(c, id, methodName, p, requestId, question);
    case Notification(topic, p) => NotificationsReplyNothing(c, topic, p);
    case Decide(id, decision, writable) => DecideKeepsReplies(c, id, decision, writable, question);
    case AnswerInput(id, answers, writable) => AnswerKeepsReplies(c, id, answers, writable, question);
    case StopRequested => Forgetting(l, c.written, question);
    case _ =>
  }

  lemma NotificationsReplyNothing(c: Context, topic: string, p: Params)
    ensures var d := HandleNotification(c, topic, p);
            d.replies == c.replies && d.written == c.written && d.stopping == c.stopping
  {}

  lemma {:induction false} RepliesFrom(c: Context, inputs: seq<Input>, question: bool)
    requires SoundIn(c, question) && AllEnabled(c, inputs)
    ensures var d := Run(c, inputs);
            && SoundIn(d, question)
            && (!d.stopping ==> !c.stopping)
            && (!d.stopping && (forall input :: input in inputs ==> ReplyWorks(input, question)) && CompleteIn(c, question) ==>
                  CompleteIn(d, question))
    decreases |inputs|
  {
    hide SoundIn, CompleteIn, Enabled, Apply, ReplyWorks;
    if inputs != [] {
      assert inputs[0] in inputs;
      assert forall input :: input in inputs[1..] ==> input in inputs;
      ApplyKeepsReplies(c, inputs[0], question);
      RepliesFrom(Apply(c, inputs[0]), inputs[1..], question);
    }
  }

  /** Over every run an approval is decided at most once, and only under the id it arrived with; if each
      decision can be written, until the session is stopped exactly one of "pending" and "decided once"
      holds of each. */
  lemma ApprovalsAreAnsweredOnce(inputs: seq<Input>, d: Context)
    requires AllEnabled(START, inputs) && d == Run(START, inputs)
    ensures SoundIn(d, false)
    ensures (forall input :: input in inputs ==> ReplyWorks(input, false)) && !d.stopping ==> CompleteIn(d, false)
  {
    RepliesFrom(START, inputs, false);
  }

  /** The same of the questions put to the user; an answer that does not convert loses its question. */
  lemma QuestionsAreAnsweredOnce(inputs: seq<Input>, d: Context)
    requires AllEnabled(START, inputs) && d == Run(START, inputs)
    ensures SoundIn(d, true)
    ensures (forall input :: input in inputs ==> ReplyWorks(input, true)) && !d.stopping ==> CompleteIn(d, true)
  {
    RepliesFrom(START, inputs, true);
  }

  // ----- User input: answered at most once, and lost exactly when the answer cannot be sent.

  ghost predicate Convertible(answers: seq<Answer>) { forall a :: a in answers ==> !a.Unusable? }

  lemma ConvertsIff(answers: seq<Answer>)
    ensures ConvertAnswers(answers).Some? <==> Convertible(answers)
  {
    if answers != [] {
      ConvertsIff(answers[1..]);
      assert forall a :: a in answers <==> a == answers[0] || a in answers[1..];
    }
  }

  /** Whatever the answers, the entry is gone afterwards; a reply under the arrival id is written
      exactly when every answer converts and the write succeeds. */
  lemma InputAnsweredIff(c: Context, requestId: string, answers: seq<Answer>, writable: bool)
    requires Usable(c) && requestId in c.replies.pendingUserInputs
    ensures var (ok, d) := RespondToUserInput(c, requestId, answers, writable);
            && requestId !in d.replies.pendingUserInputs
            && (ok <==> Convertible(answers) && writable)
            && (ok <==> exists converted ::
                  d.written == c.written + [AnswersOut(c.replies.pendingUserInputs[requestId].jsonRpcId, converted, requestId)])
            && (!ok ==> d.written == c.written)
            && !RespondToUserInput(d, requestId, answers, writable).0
  {
    ConvertsIff(answers);
    var (ok, d) := RespondToUserInput(c, requestId, answers, writable);
    if ok {
      assert d.written == c.written + [AnswersOut(c.replies.pendingUserInputs[requestId].jsonRpcId,
                                                 ConvertAnswers(answers).value, requestId)];
    }
  }

  /** A request of any other kind is answered on the spot with "method not found" under its own id;
      approvals and questions are recorded and not answered yet. */
  lemma UnsupportedRequestsAreRefused(c: Context, id: RpcId, methodName: string, p: Params, requestId: string)
    ensures var d := HandleServerRequest(c, id, methodName, p, requestId);
            if RequestKindFor(methodName).Some? then
              d.written == c.written && d.replies.pendingUserInputs == c.replies.pendingUserInputs
              && requestId in d.replies.pendingApprovals && d.replies.pendingApprovals[requestId].jsonRpcId == id
            else if AsksUser(methodName) then
              d.written == c.written && d.replies.pendingApprovals == c.replies.pendingApprovals
              && requestId in d.replies.pendingUserInputs && d.replies.pendingUserInputs[requestId].jsonRpcId == id
            else d.written == c.written + [ErrorOut(id, -32601)] && d.replies == c.replies
  {}

  predicate IsApproval(methodName: string) {
    methodName in {"item/commandExecution/requestApproval", "item/fileRead/requestApproval", "item/fileChange/requestApproval"}
  }

  predicate IsQuestion(methodName: string) { methodName == "item/tool/requestUserInput" }

  /** The ids of the requests of a run that are neither approvals nor questions. */
  function Unsupported(inputs: seq<Input>): seq<RpcId>
    decreases |inputs|
  {
    if inputs == [] then []
    else
      var first := inputs[0];
      (if first.ServerRequest? && !IsApproval(first.askedMethod) && !IsQuestion(first.askedMethod)
       then [first.rpcId] else []) + Unsupported(inputs[1..])
  }

  /** The ids under which "method not found" was sent. */
  function RefusedIds(written: seq<Outgoing>): seq<RpcId> {
    if written == [] then []
    else
      var n := |written| - 1;
      RefusedIds(written[..n]) 
      + if written[n].ErrorOut? && written[n].code == METHOD_NOT_FOUND then [written[n].rpcId] else []
  }

  lemma RefusedAppend(written: seq<Outgoing>, out: Outgoing)
    ensures RefusedIds(written + [out]) ==
            RefusedIds(written) + if out.ErrorOut? && out.code == METHOD_NOT_FOUND then [out.rpcId] else []
  {
    assert (written + [out])[..|written|] == written;
  }

  lemma ApplyRefuses(c: Context, input: Input)
    ensures RefusedIds(Apply(c, input).written) == RefusedIds(c.written) + Unsupported([input])
  {
    hide RefusedIds, HandleNotification;
    assert [input][1..] == [];
    var d := Apply(c, input);
    if input.Notification? {
      NotificationsReplyNothing(c, input.topic, input.params);
    } else if d.written != c.written {
      var out := d.written[|c.written|];
      assert d.written == c.written + [out];
      RefusedAppend(c.written, out);
    }
    assert RefusedIds(c.written) + [] == RefusedIds(c.written);
  }

  lemma {:induction false} RefusalsFrom(c: Context, inputs: seq<Input>)
    ensures RefusedIds(Run(c, inputs).written) == RefusedIds(c.written) + Unsupported(inputs)
    decreases |inputs|
  {
    hide RefusedIds, Apply;
    if inputs != [] {
      ApplyRefuses(c, inputs[0]);
      RefusalsFrom(Apply(c, inputs[0]), inputs[1..]);
      assert [inputs[0]][1..] == [];
      assert Unsupported(inputs) == Unsupported([inputs[0]]) + Unsupported(inputs[1..]);
    } else {
      assert RefusedIds(c.written) + [] == RefusedIds(c.written);
    }
  }

  /** Over every run, every request of another kind is refused with "method not found" under its own id,
      once and in order of arrival, and nothing else is. */
  lemma RefusalsMatchRequests(inputs: seq<Input>)
    ensures RefusedIds(Run(START, inputs).written) == Unsupported(inputs)
  {
    RefusalsFrom(START, inputs);
  }

  // ----- Child conversations.

  datatype Note = Note(topic: string, params: Params)

  function Notify(c: Context, notes: seq<Note>): Context
    decreases |notes|
  {
    if notes == [] then c else Notify(HandleNotification(c, notes[0].topic, notes[0].params), notes[1..])
  }

  /** The notification belongs to a child conversation and carries no collab tool call. */
  predicate ChildNoise(collab: map<string, string>, p: Params) {
    ChildParentTurn(collab, p).Some? && !CarriesCollabItem(p)
  }

  /** The trace without child noise, judged as the session goes. */
  function Erase(collab: map<string, string>, notes: seq<Note>): seq<Note>
    decreases |notes|
  {
    if notes == [] then []
    else if ChildNoise(collab, notes[0].params) then Erase(collab, notes[1..])
    else
      var next := HandleNotification(START.(collabReceiverTurns := collab), notes[0].topic, notes[0].params);
      [notes[0]] + Erase(next.collabReceiverTurns, notes[1..])
  }

  /** Everything but the events passed on to listeners. */
  function Silent(c: Context): Context { c.(events := []) }

  lemma NoiseIsSilent(c: Context, methodName: string, p: Params)
    requires ChildNoise(c.collabReceiverTurns, p)
    ensures Silent(HandleNotification(c, methodName, p)) == Silent(c)
  {
    assert TopicOf(methodName) == ThreadStarted ==> SuppressedForChild(methodName);
  }

  lemma NotificationReadsCollabOnly(c: Context, d: Context, methodName: string, p: Params)
    requires Silent(c) == Silent(d)
    ensures Silent(HandleNotification(c, methodName, p)) == Silent(HandleNotification(d, methodName, p))
    ensures HandleNotification(c, methodName, p).collabReceiverTurns ==
            HandleNotification(START.(collabReceiverTurns := c.collabReceiverTurns), methodName, p).collabReceiverTurns
  {
    assert c == d.(events := c.events);
  }

  /** Erasing child noise from any trace leaves the session unchanged: its status, active turn,
      resume cursor, last error, bookkeeping and collab map. */
  lemma {:induction false} ChildNoiseIsErasable(c: Context, d: Context, notes: seq<Note>)
    requires Silent(c) == Silent(d)
    ensures Silent(Notify(c, notes)) == Silent(Notify(d, Erase(c.collabReceiverTurns, notes)))
    decreases |notes|
  {
    if notes != [] {
      var topic, p := notes[0].topic, notes[0].params;
      var c' := HandleNotification(c, topic, p);
      if ChildNoise(c.collabReceiverTurns, p) {
        NoiseIsSilent(c, topic, p);
        assert c'.collabReceiverTurns == Silent(c').collabReceiverTurns == c.collabReceiverTurns;
        ChildNoiseIsErasable(c', d, notes[1..]);
      } else {
        var d' := HandleNotification(d, topic, p);
        NotificationReadsCollabOnly(c, d, topic, p);
        ChildNoiseIsErasable(c', d', notes[1..]);
        var rest := Erase(c'.collabReceiverTurns, notes[1..]);
        assert ([notes[0]] + rest)[1..] == rest;
        assert Erase(c.collabReceiverTurns, notes) == [notes[0]] + rest;
      }
    }
  }

  /** A child notification never touches the session itself, whatever it carries. */
  lemma ChildNeverTouchesSession(c: Context, methodName: string, p: Params)
    requires ChildParentTurn(RememberCollabReceiverTurns(c.collabReceiverTurns, p), p).Some?
    ensures HandleNotification(c, methodName, p).session == c.session
  {
    assert TopicOf(methodName) == ThreadStarted ==> SuppressedForChild(methodName);
  }
}
