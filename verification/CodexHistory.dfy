/** A Codex session told by its history alone: which turn a child conversation belongs to, what the
    session's status, turn, cursor and error are, what became of requests, and what was written. */
module CodexHistory {
  import opened Text
  import opened Decimal
  import opened CodexSession
  import opened CodexRuns

  lemma {:induction false} RunOneMore(c: Context, inputs: seq<Input>, input: Input)
    ensures Run(c, inputs + [input]) == Apply(Run(c, inputs), input)
    decreases |inputs|
  {
    hide Apply;
    if inputs == [] {
      assert ([] + [input])[1..] == [];
    } else {
      assert (inputs + [input])[1..] == inputs[1..] + [input];
      RunOneMore(Apply(c, inputs[0]), inputs[1..], input);
    }
  }

  lemma RunLast(inputs: seq<Input>)
    requires inputs != []
    ensures Run(START, inputs) == Apply(Run(START, inputs[..|inputs| - 1]), inputs[|inputs| - 1])
  {
    assert inputs[..|inputs| - 1] + [inputs[|inputs| - 1]] == inputs;
    RunOneMore(START, inputs[..|inputs| - 1], inputs[|inputs| - 1]);
  }

  // ----- Child conversations.

  /** The conversation a message is about, "" for none. */
  function Conversation(p: Params): string {
    if p.threadId.Some? then p.threadId.value
    else if p.threadObjectId.Some? then p.threadObjectId.value
    else if p.conversationId.Some? then p.conversationId.value
    else ""
  }

  /** An id that is not blank, trimmed. */
  function Named(id: Option<string>): Option<string> {
    if id == None || Trim(id.value) == "" then None else Some(Trim(id.value))
  }

  function TurnNamed(p: Params): Option<string> { Named(if p.turnId.Some? then p.turnId else p.turnObjectId) }

  /** The turn that the conversation is a child of after these inputs: the one it was last enlisted for,
      unless a turn of the session's own was completed since. */
  function Parent(inputs: seq<Input>, conversation: string): Option<string>
    decreases |inputs|, 0
  {
    if inputs == [] then None
    else
      var front, last := inputs[..|inputs| - 1], inputs[|inputs| - 1];
      if !last.Notification? then Parent(front, conversation)
      else if last.topic == "turn/completed" && Own(front, last.params) then None
      else ParentWith(front, last.params, conversation)
  }

  /** A collab tool call of a named turn enlists its receivers before the message itself is judged. */
  function ParentWith(inputs: seq<Input>, p: Params, conversation: string): Option<string>
    decreases |inputs|, 1
  {
    if p.itemType == Some("collabAgentToolCall") && conversation in p.receiverThreadIds && TurnNamed(p).Some?
    then TurnNamed(p) else Parent(inputs, conversation)
  }

  /** The message is about no child conversation. */
  predicate Own(inputs: seq<Input>, p: Params)
    decreases |inputs|, 2
  {
    Conversation(p) == "" || ParentWith(inputs, p, Conversation(p)).None?
  }

  function At(m: map<string, string>, key: string): Option<string> { if key in m then Some(m[key]) else None }

  lemma {:induction false} RememberAllAt(collab: map<string, string>, receivers: seq<string>, turn: string, key: string)
    ensures At(RememberAll(collab, receivers, turn), key) == if key in receivers then Some(turn) else At(collab, key)
    decreases |receivers|
  {
    if receivers != [] {
      RememberAllAt(collab[receivers[0] := turn], receivers[1..], turn, key);
    }
  }

  lemma RememberedAt(collab: map<string, string>, p: Params, key: string)
    ensures At(RememberCollabReceiverTurns(collab, p), key) ==
            if p.itemType == Some("collabAgentToolCall") && key in p.receiverThreadIds && TurnNamed(p).Some?
            then TurnNamed(p) else At(collab, key)
  {
    if RouteTurn(p).Some? { RememberAllAt(collab, p.receiverThreadIds, RouteTurn(p).value, key); }
  }

  /** A notification is taken for a child's exactly when it is not the session's own by the history. */
  lemma OwnByHistory(inputs: seq<Input>, p: Params)
    requires forall key :: At(Run(START, inputs).collabReceiverTurns, key) == Parent(inputs, key)
    ensures var collab := RememberCollabReceiverTurns(Run(START, inputs).collabReceiverTurns, p);
            && (forall key :: At(collab, key) == ParentWith(inputs, p, key))
            && ChildParentTurn(collab, p) ==
               (if Conversation(p) == "" then None else ParentWith(inputs, p, Conversation(p)))
            && (ChildParentTurn(collab, p).None? <==> Own(inputs, p))
  {
    hide RememberCollabReceiverTurns, Run, Parent;
    var collab := RememberCollabReceiverTurns(Run(START, inputs).collabReceiverTurns, p);
    forall key ensures At(collab, key) == ParentWith(inputs, p, key) {
      RememberedAt(Run(START, inputs).collabReceiverTurns, p, key);
    }
    assert At(collab, Conversation(p)) == ParentWith(inputs, p, Conversation(p));
  }

  /** Over every run, the collab map says of each conversation what the history says. */
  lemma {:induction false} CollabByHistory(inputs: seq<Input>, key: string)
    ensures At(Run(START, inputs).collabReceiverTurns, key) == Parent(inputs, key)
    decreases |inputs|
  {
    hide Run, RememberCollabReceiverTurns, NotifiedSession, ParentWith, Own;
    if inputs == [] {
      StartHasNoChildren(key);
    } else {
      var front, last := inputs[..|inputs| - 1], inputs[|inputs| - 1];
      RunLast(inputs);
      forall k ensures At(Run(START, front).collabReceiverTurns, k) == Parent(front, k) { CollabByHistory(front, k); }
      if last.Notification? { OwnByHistory(front, last.params); }
    }
  }

  lemma StartHasNoChildren(key: string)
    ensures At(Run(START, []).collabReceiverTurns, key) == None && Parent([], key) == None
  {}

  // ----- The session record.

  /** What an input may mean for the session. */
  datatype Change =
    | Started(turn: Option<string>)
    | Completed(failed: bool, error: Option<string>)
    | Reported(willRetry: bool, error: Option<string>)
    | Stopped
    | Gone(error: Option<string>)

  predicate Ends(input: Input) { input.StopRequested? || input.Exited? }

  predicate Ended(inputs: seq<Input>) { exists input :: input in inputs && Ends(input) }

  /** The session was ended by a stop, not by its process. */
  predicate StoppedFirst(inputs: seq<Input>) {
    inputs != [] &&
    (var front, last := inputs[..|inputs| - 1], inputs[|inputs| - 1];
     if Ended(front) then StoppedFirst(front) else last.StopRequested?)
  }

  /** Turns and errors count when they are the session's own, a stop while the session is open, an exit
      unless it was stopped. */
  function ChangeOf(inputs: seq<Input>, input: Input): Option<Change> {
    match input
    case Notification(topic, p) =>
      if !Own(inputs, p) then None
      else if topic == "turn/started" then Some(Started(Named(p.turnObjectId)))
      else if topic == "turn/completed" then Some(Completed(p.turnStatus == Some("failed"), p.turnError))
      else if topic == "error" then Some(Reported(p.willRetry, p.errorMessage))
      else None
    case StopRequested => if Ended(inputs) then None else Some(Stopped)
    case Exited(clean, message) => if StoppedFirst(inputs) then None else Some(Gone(if clean then None else Some(message)))
    case _ => None
  }

  function Changes(inputs: seq<Input>): seq<Change> {
    if inputs == [] then []
    else
      var front := inputs[..|inputs| - 1];
      var change := ChangeOf(front, inputs[|inputs| - 1]);
      Changes(front) + if change.Some? then [change.value] else []
  }

  /** The ids of the threads that the session itself started. */
  function Threads(inputs: seq<Input>): seq<string> {
    if inputs == [] then []
    else
      var front, last := inputs[..|inputs| - 1], inputs[|inputs| - 1];
      Threads(front)
      + if last.Notification? && last.topic == "thread/started" && Own(front, last.params) && Named(last.params.threadObjectId).Some?
        then [Named(last.params.threadObjectId).value] else []
  }

  function ErrorOf(change: Change): Option<string> {
    match change
    case Completed(_, error) => error
    case Reported(_, error) => error
    case Gone(error) => error
    case _ => None
  }

  ghost predicate StatusAgrees(status: Status, h: seq<Change>) {
    && (status == Connecting <==> h == [])
    && (h != [] ==>
          var last := h[|h| - 1];
          && (status == RunningStatus <==> last.Started? || (last.Reported? && last.willRetry))
          && (status == ErrorStatus <==> (last.Completed? && last.failed) || (last.Reported? && !last.willRetry))
          && (status == ReadyStatus <==> last.Completed? && !last.failed)
          && (status == Closed <==> last.Stopped? || last.Gone?))
  }

  /** The turn last started, unless something but a report came after it. */
  ghost predicate TurnAgrees(turn: Option<string>, h: seq<Change>) {
    forall t :: turn == Some(t) <==>
      exists k :: 0 <= k < |h| && h[k] == Started(Some(t)) && forall j :: k < j < |h| ==> h[j].Reported?
  }

  /** The last error that was named. */
  ghost predicate ErrorAgrees(error: Option<string>, h: seq<Change>) {
    forall e :: error == Some(e) <==>
      exists k :: 0 <= k < |h| && ErrorOf(h[k]) == Some(e) && forall j :: k < j < |h| ==> ErrorOf(h[j]).None?
  }

  ghost predicate CursorAgrees(cursor: Option<string>, threads: seq<string>) {
    cursor == if threads == [] then None else Some(threads[|threads| - 1])
  }

  ghost predicate Agrees(s: Session, h: seq<Change>, threads: seq<string>) {
    StatusAgrees(s.status, h) && TurnAgrees(s.activeTurnId, h) && ErrorAgrees(s.lastError, h) && CursorAgrees(s.resumeCursor, threads)
  }

  function TurnAfter(turn: Option<string>, change: Change): Option<string> {
    match change
    case Started(t) => t
    case Reported(_, _) => turn
    case _ => None
  }

  lemma OneMoreTurn(turn: Option<string>, h: seq<Change>, change: Change)
    requires TurnAgrees(turn, h)
    ensures TurnAgrees(TurnAfter(turn, change), h + [change])
  {
    var more := h + [change];
    var n := |h|;
    forall t ensures TurnAfter(turn, change) == Some(t) <==>
      exists k :: 0 <= k < |more| && more[k] == Started(Some(t)) && forall j :: k < j < |more| ==> more[j].Reported?
    {
      if change.Reported? && turn == Some(t) {
        var k :| 0 <= k < n && h[k] == Started(Some(t)) && forall j :: k < j < n ==> h[j].Reported?;
        assert more[k] == h[k];
      }
      if k :| 0 <= k < |more| && more[k] == Started(Some(t)) && forall j :: k < j < |more| ==> more[j].Reported? {
        if k < n {
          assert more[n].Reported? && h[k] == more[k];
          forall j | k < j < n ensures h[j].Reported? { assert more[j] == h[j]; }
        }
      }
      if change == Started(Some(t)) { assert more[n] == change; }
    }
  }

  lemma OneMoreError(error: Option<string>, h: seq<Change>, change: Change)
    requires ErrorAgrees(error, h)
    ensures ErrorAgrees(OrElse(ErrorOf(change), error), h + [change])
  {
    var more := h + [change];
    var n := |h|;
    forall e ensures OrElse(ErrorOf(change), error) == Some(e) <==>
      exists k :: 0 <= k < |more| && ErrorOf(more[k]) == Some(e) && forall j :: k < j < |more| ==> ErrorOf(more[j]).None?
    {
      if ErrorOf(change).None? && error == Some(e) {
        var k :| 0 <= k < n && ErrorOf(h[k]) == Some(e) && forall j :: k < j < n ==> ErrorOf(h[j]).None?;
        assert more[k] == h[k];
      }
      if k :| 0 <= k < |more| && ErrorOf(more[k]) == Some(e) && forall j :: k < j < |more| ==> ErrorOf(more[j]).None? {
        if k < n {
          assert ErrorOf(more[n]).None? && h[k] == more[k];
          forall j | k < j < n ensures ErrorOf(h[j]).None? { assert more[j] == h[j]; }
        }
      }
      if ErrorOf(change) == Some(e) { assert more[n] == change; }
    }
  }

  function StatusAfter(change: Change): Status {
    match change
    case Started(_) => RunningStatus
    case Completed(failed, _) => if failed then ErrorStatus else ReadyStatus
    case Reported(willRetry, _) => if willRetry then RunningStatus else ErrorStatus
    case _ => Closed
  }

  lemma OneMoreChange(s: Session, h: seq<Change>, threads: seq<string>, change: Change, after: Session)
    requires Agrees(s, h, threads)
    requires after == s.(status := StatusAfter(change), activeTurnId := TurnAfter(s.activeTurnId, change),
                         lastError := OrElse(ErrorOf(change), s.lastError))
    ensures Agrees(after, h + [change], threads)
  {
    OneMoreTurn(s.activeTurnId, h, change);
    OneMoreError(s.lastError, h, change);
    hide TurnAgrees, ErrorAgrees;
  }

  lemma OneMoreThread(s: Session, h: seq<Change>, threads: seq<string>, id: string)
    requires Agrees(s, h, threads)
    ensures Agrees(s.(resumeCursor := Some(id)), h, threads + [id])
  {
    hide TurnAgrees, ErrorAgrees, StatusAgrees;
  }

  /** What one input does to the session, given what the history says of it. */
  lemma SessionStep(inputs: seq<Input>, input: Input)
    requires var c := Run(START, inputs);
             && (forall key :: At(c.collabReceiverTurns, key) == Parent(inputs, key))
             && (c.open <==> !Ended(inputs)) && (c.stopping <==> StoppedFirst(inputs))
    ensures var s, after := Run(START, inputs).session, Apply(Run(START, inputs), input).session;
            var change := ChangeOf(inputs, input);
            var started := input.Notification? && input.topic == "thread/started" && Own(inputs, input.params);
            after == if change.Some? then s.(status := StatusAfter(change.value), activeTurnId := TurnAfter(s.activeTurnId, change.value),
                                             lastError := OrElse(ErrorOf(change.value), s.lastError))
                     else if started && Named(input.params.threadObjectId).Some?
                     then s.(resumeCursor := Named(input.params.threadObjectId)) else s
  {
    hide Run, Parent, ParentWith, Own, Ended, StoppedFirst, RememberCollabReceiverTurns, ChildParentTurn;
    if input.Notification? { OwnByHistory(inputs, input.params); }
  }

  lemma {:induction false} EndedByHistory(inputs: seq<Input>)
    ensures var c := Run(START, inputs);
            (c.open <==> !Ended(inputs)) && (c.stopping <==> StoppedFirst(inputs)) && (c.stopping ==> !c.open)
    decreases |inputs|
  {
    hide Run, HandleNotification, HandleServerRequest;
    if inputs == [] {
      StartIsOpen();
    } else {
      var front, last := inputs[..|inputs| - 1], inputs[|inputs| - 1];
      EndedByHistory(front);
      RunLast(inputs);
      assert inputs == front + [last];
      assert Ended(inputs) <==> Ended(front) || Ends(last);
      if !Ends(last) { OthersKeepOpen(Run(START, front), last); }
    }
  }

  lemma OthersKeepOpen(c: Context, input: Input)
    requires !Ends(input)
    ensures Apply(c, input).open == c.open && Apply(c, input).stopping == c.stopping
  {}

  lemma StartIsOpen()
    ensures Run(START, []).open && !Run(START, []).stopping
  {}

  lemma StartAgrees()
    ensures Agrees(Run(START, []).session, [], [])
  {}

  /** Over every run the status, the active turn, the last error and the resume cursor are those of the
      history, in which no session record occurs. */
  lemma {:induction false} SessionByHistory(inputs: seq<Input>)
    ensures Agrees(Run(START, inputs).session, Changes(inputs), Threads(inputs))
    decreases |inputs|
  {
    hide Run, Apply, Agrees, ChangeOf, Own, Parent;
    if inputs == [] {
      StartAgrees();
    } else {
      var front, last := inputs[..|inputs| - 1], inputs[|inputs| - 1];
      var s, h, threads := Run(START, front).session, Changes(front), Threads(front);
      SessionByHistory(front);
      RunLast(inputs);
      forall key ensures At(Run(START, front).collabReceiverTurns, key) == Parent(front, key) { CollabByHistory(front, key); }
      EndedByHistory(front);
      SessionStep(front, last);
      if last.Notification? && last.topic == "thread/started" { ThreadIsNoChange(front, last); }
      var change := ChangeOf(front, last);
      if change.Some? {
        OneMoreChange(s, h, threads, change.value, Run(START, inputs).session);
      } else if last.Notification? && last.topic == "thread/started" && Own(front, last.params) && Named(last.params.threadObjectId).Some? {
        OneMoreThread(s, h, threads, Named(last.params.threadObjectId).value);
      }
      assert threads + [] == threads && h + [] == h;
    }
  }

  lemma ThreadIsNoChange(inputs: seq<Input>, input: Input)
    requires input.Notification? && input.topic == "thread/started"
    ensures ChangeOf(inputs, input).None?
  {}

  // ----- What became of the requests.

  /** The ids a response to request `id` may carry: the number, or the same number as text. */
  lemma AnsweringIds(rpcId: RpcId, id: nat)
    ensures KeyOf(rpcId) == NatText(id) <==> rpcId == NumberId(id) || rpcId == TextId(NatText(id))
  {
    if rpcId.NumberId? {
      if rpcId.value < 0 { SignIsNoDigit(rpcId.value, id); }
      if rpcId.value >= 0 && KeyOf(rpcId) == NatText(id) { NatTextInjective(rpcId.value, id); }
    }
  }

  lemma SignIsNoDigit(n: int, id: nat)
    requires n < 0
    ensures IntText(n) != NatText(id)
  {
    assert IntText(n)[0] == '-' && IsDigit(NatText(id)[0]);
  }

  /** The input settles request `id` with the outcome, if anything does. */
  predicate Brings(input: Input, id: nat, outcome: Outcome) {
    match input
    case Response(rpcId, error, result) =>
      && (rpcId == NumberId(id) || rpcId == TextId(NatText(id)))
      && outcome == (if error.Some? && error.value != "" then Failed(error.value) else Resolved(result))
    case Timeout(n) => n == id && outcome == TimedOut
    case StopRequested => outcome == SessionStopped
    case Send(_, writable) => !writable && outcome == WriteFailed
    case _ => false
  }

  lemma {:induction false} RejectedAs(q: Requests, from: nat, id: nat)
    ensures id in RejectFrom(q, from).settled ==>
              RejectFrom(q, from).settled[id] == if id in q.settled then q.settled[id] else SessionStopped
    ensures id in q.settled ==> id in RejectFrom(q, from).settled
    decreases q.nextRequestId - from
  {
    if from < q.nextRequestId {
      RejectedAs(if NatText(from) in q.pending then Settle(q, from, SessionStopped) else q, from + 1, id);
    }
  }

  lemma StepSettles(c: Context, input: Input, id: nat)
    requires Filed(c.requests) && Enabled(c, input)
    ensures var before, after := c.requests.settled, Apply(c, input).requests.settled;
            && (id in before ==> id in after && after[id] == before[id])
            && (id in after && id !in before ==> Brings(input, id, after[id]))
  {
    match input
    case Response(rpcId, error, result) => AnsweringIds(rpcId, id);
    case StopRequested => RejectedAs(c.requests, 1, id);
    case _ =>
  }

  lemma {:induction false} StaysFiled(inputs: seq<Input>)
    requires AllEnabled(START, inputs)
    ensures Filed(Run(START, inputs).requests)
    decreases |inputs|
  {
    hide Run, Apply, Enabled;
    if inputs == [] {
      StartIsFiled();
    } else {
      var front, last := inputs[..|inputs| - 1], inputs[|inputs| - 1];
      EnabledPrefix(START, inputs);
      StaysFiled(front);
      RunLast(inputs);
      StepFiles(Run(START, front), last);
    }
  }

  lemma StartIsFiled()
    ensures Filed(Run(START, []).requests)
  {}

  lemma StepFiles(c: Context, input: Input)
    requires Filed(c.requests)
    ensures Filed(Apply(c, input).requests)
  {
    match input
    case Send(methodName, writable) => SendFiles(c.requests, methodName);
    case StopRequested => RejectFromRepeats(c.requests, 1);
    case _ =>
  }

  lemma {:induction false} EnabledPrefix(c: Context, inputs: seq<Input>)
    requires AllEnabled(c, inputs) && inputs != []
    ensures var n := |inputs| - 1;
            AllEnabled(c, inputs[..n]) && Enabled(Run(c, inputs[..n]), inputs[n])
    decreases |inputs|
  {
    hide Apply, Enabled;
    if |inputs| > 1 {
      EnabledPrefix(Apply(c, inputs[0]), inputs[1..]);
      assert inputs[1..][..|inputs| - 2] == inputs[..|inputs| - 1][1..];
    }
  }

  /** Over every run, a settled request has the outcome of an input of the run that brings it, and none of
      a later one. */
  lemma {:induction false} OutcomesByHistory(inputs: seq<Input>, id: nat)
    requires AllEnabled(START, inputs)
    ensures var settled := Run(START, inputs).requests.settled;
            id in settled ==>
              exists k :: 0 <= k < |inputs| && Brings(inputs[k], id, settled[id])
                          && id !in Run(START, inputs[..k]).requests.settled
    decreases |inputs|
  {
    hide Run, Apply, Enabled, Brings;
    if inputs == [] {
      NothingSettled(id);
    } else {
      var front, last := inputs[..|inputs| - 1], inputs[|inputs| - 1];
      EnabledPrefix(START, inputs);
      StaysFiled(front);
      RunLast(inputs);
      StepSettles(Run(START, front), last, id);
      OutcomesByHistory(front, id);
      var settled := Run(START, front).requests.settled;
      if id in settled {
        var k :| 0 <= k < |front| && Brings(front[k], id, settled[id]) && id !in Run(START, front[..k]).requests.settled;
        assert inputs[k] == front[k] && inputs[..k] == front[..k];
      } else if id in Run(START, inputs).requests.settled {
        assert inputs[..|inputs| - 1] == front;
      }
    }
  }

  lemma NothingSettled(id: nat)
    ensures id !in Run(START, []).requests.settled
  {}

  // ----- What was written.

  /** The answers are passed on as lists of texts, one for each. */
  predicate Converted(answers: seq<Answer>, texts: seq<seq<string>>) {
    && |texts| == |answers|
    && forall k :: 0 <= k < |answers| ==>
         (answers[k] == TextAnswer(if |texts[k]| == 1 then texts[k][0] else "") && |texts[k]| == 1)
         || answers[k] == ListAnswer(texts[k])
  }

  lemma {:induction false} ConvertsTo(answers: seq<Answer>)
    requires ConvertAnswers(answers).Some?
    ensures Converted(answers, ConvertAnswers(answers).value)
  {
    if answers != [] { ConvertsTo(answers[1..]); }
  }

  /** The message goes out because of the input. */
  ghost predicate Sends(input: Input, out: Outgoing) {
    match out
    case RequestOut(_, methodName) => input == Send(methodName, true)
    case DecisionOut(_, decision, requestId) => input == Decide(requestId, decision, true)
    case AnswersOut(_, texts, requestId) =>
      input.AnswerInput? && input.inputId == requestId && input.answerWritable && Converted(input.answers, texts)
    case ErrorOut(rpcId, code) => input.ServerRequest? && input.rpcId == rpcId && code == -32601
  }

  lemma StepSends(c: Context, input: Input)
    ensures c.written <= Apply(c, input).written
    ensures Apply(c, input).written == c.written
            || exists out :: Apply(c, input).written == c.written + [out] && Sends(input, out)
  {
    hide ChildParentTurn, RequestKindFor, ConvertAnswers, HandleNotification;
    match input
    case Send(methodName, writable) => assert Sends(Send(methodName, true), RequestOut(c.requests.nextRequestId, methodName));
    case ServerRequest(id, _, _, _) => assert Sends(input, ErrorOut(id, METHOD_NOT_FOUND));
    case Notification(topic, p) => NotificationsReplyNothing(c, topic, p);
    case Decide(id, decision, writable) =>
      if id in c.replies.pendingApprovals && writable {
        assert Sends(input, DecisionOut(c.replies.pendingApprovals[id].jsonRpcId, decision, id));
      }
    case AnswerInput(id, answers, writable) =>
      if id in c.replies.pendingUserInputs && writable && ConvertAnswers(answers).Some? {
        ConvertsTo(answers);
        assert Sends(input, AnswersOut(c.replies.pendingUserInputs[id].jsonRpcId, ConvertAnswers(answers).value, id));
      }
    case _ =>
  }

  /** Over every run, everything written was sent because of an input of the run: the request with its
      method, the decision as it was made, the answers as they were given, the refusal. */
  lemma {:induction false} WrittenByHistory(inputs: seq<Input>, out: Outgoing)
    requires out in Run(START, inputs).written
    ensures exists input :: input in inputs && Sends(input, out)
    decreases |inputs|
  {
    hide Run, Apply, Sends;
    if inputs == [] {
      NothingWritten();
    } else {
      var front, last := inputs[..|inputs| - 1], inputs[|inputs| - 1];
      RunLast(inputs);
      StepSends(Run(START, front), last);
      if out in Run(START, front).written {
        WrittenByHistory(front, out);
        var input :| input in front && Sends(input, out);
        assert input in inputs;
      } else {
        assert last in inputs;
      }
    }
  }

  lemma NothingWritten()
    ensures Run(START, []).written == []
  {}

  /** The requests of a run that could be written, numbered from one over all that were made. */
  function Sent(inputs: seq<Input>): seq<Outgoing> {
    if inputs == [] then []
    else
      var front, last := inputs[..|inputs| - 1], inputs[|inputs| - 1];
      Sent(front) + if last.Send? && last.sendWritable then [RequestOut(SendCount(front) + 1, last.methodName)] else []
  }

  function SendCount(inputs: seq<Input>): nat {
    if inputs == [] then 0
    else SendCount(inputs[..|inputs| - 1]) + if inputs[|inputs| - 1].Send? then 1 else 0
  }

  function RequestsOut(written: seq<Outgoing>): seq<Outgoing> {
    if written == [] then []
    else
      var n := |written| - 1;
      RequestsOut(written[..n]) + if written[n].RequestOut? then [written[n]] else []
  }

  lemma OneMoreOut(written: seq<Outgoing>, out: Outgoing)
    ensures RequestsOut(written + [out]) == RequestsOut(written) + if out.RequestOut? then [out] else []
  {
    assert (written + [out])[..|written|] == written;
  }

  lemma StepRequests(c: Context, input: Input)
    ensures RequestsOut(Apply(c, input).written) ==
            RequestsOut(c.written)
            + if input.Send? && input.sendWritable then [RequestOut(c.requests.nextRequestId, input.methodName)] else []
    ensures Apply(c, input).requests.nextRequestId == c.requests.nextRequestId + if input.Send? then 1 else 0
  {
    hide RequestsOut, ConvertAnswers, HandleNotification;
    StepSends(c, input);
    assert RequestsOut(c.written) + [] == RequestsOut(c.written);
    if input.Send? {
      OneMoreOut(c.written, RequestOut(c.requests.nextRequestId, input.methodName));
    } else if out :| Apply(c, input).written == c.written + [out] && Sends(input, out) {
      OneMoreOut(c.written, out);
    }
    if input.StopRequested? { RejectFromRepeats(c.requests, 1); }
    if input.Notification? { NotificationsKeepRequests(c, input.topic, input.params); }
  }

  lemma NotificationsKeepRequests(c: Context, topic: string, p: Params)
    ensures HandleNotification(c, topic, p).requests == c.requests && HandleNotification(c, topic, p).written == c.written
  {}

  /** Over every run, the requests written are those that could be, once each, in order, each under the
      number of requests made so far. */
  lemma {:induction false} RequestsByHistory(inputs: seq<Input>)
    ensures RequestsOut(Run(START, inputs).written) == Sent(inputs)
    ensures Run(START, inputs).requests.nextRequestId == SendCount(inputs) + 1
    decreases |inputs|
  {
    hide Run, Apply;
    if inputs == [] {
      NothingWritten();
      FirstNumber();
    } else {
      var front, last := inputs[..|inputs| - 1], inputs[|inputs| - 1];
      RequestsByHistory(front);
      RunLast(inputs);
      StepRequests(Run(START, front), last);
    }
  }

  lemma FirstNumber()
    ensures Run(START, []).requests.nextRequestId == 1
  {}

  // ----- After the end.

  lemma {:induction false} NoEndNoClosing(inputs: seq<Input>)
    requires !Ended(inputs)
    ensures forall change :: change in Changes(inputs) ==> !change.Stopped? && !change.Gone?
  {
    hide Own;
    if inputs != [] {
      var front, last := inputs[..|inputs| - 1], inputs[|inputs| - 1];
      assert forall input :: input in front ==> input in inputs;
      assert last in inputs && !Ends(last);
      NoEndNoClosing(front);
    }
  }

  /** Approvals and questions are answered exactly until a stop or the exit of the process: from then on a
      decision or an answer changes nothing. */
  lemma UsableIff(inputs: seq<Input>, input: Input)
    requires input.Decide? || input.AnswerInput?
    ensures Usable(Run(START, inputs)) <==> !Ended(inputs)
    ensures Ended(inputs) ==> Apply(Run(START, inputs), input) == Run(START, inputs)
  {
    hide Run, Changes, ConvertAnswers, TurnAgrees, ErrorAgrees;
    EndedByHistory(inputs);
    SessionByHistory(inputs);
    if !Ended(inputs) {
      NoEndNoClosing(inputs);
      var h := Changes(inputs);
      if h != [] { assert h[|h| - 1] in h; }
    }
  }

  // ----- What was asked.

  /** The approvals, or the questions, of a run with the JSON-RPC ids they arrived under. */
  function Asked(inputs: seq<Input>, question: bool): map<string, RpcId> {
    if inputs == [] then map[]
    else
      var front, last := inputs[..|inputs| - 1], inputs[|inputs| - 1];
      if last.ServerRequest? && (if question then IsQuestion(last.askedMethod) else IsApproval(last.askedMethod))
      then Asked(front, question)[last.freshId := last.rpcId] else Asked(front, question)
  }

  lemma StepAsks(c: Context, input: Input, question: bool)
    ensures var before, after := LedgerOf(c.replies, question).seen, LedgerOf(Apply(c, input).replies, question).seen;
            after == if input.ServerRequest? && (if question then IsQuestion(input.askedMethod) else IsApproval(input.askedMethod))
                     then before[input.freshId := input.rpcId] else before
  {
    hide ChildParentTurn, ConvertAnswers, HandleNotification;
    if input.Notification? {
      NotificationsReplyNothing(c, input.topic, input.params);
    } else if input.ServerRequest? {
      hide RespondToRequest, RespondToUserInput, SendRequest, HandleResponse, FireTimeout, Stop, ProcessExit;
    } else {
      hide HandleServerRequest;
    }
  }

  /** Over every run, the approvals and questions on record are those that were asked. */
  lemma {:induction false} AskedByHistory(inputs: seq<Input>, question: bool)
    ensures LedgerOf(Run(START, inputs).replies, question).seen == Asked(inputs, question)
    decreases |inputs|
  {
    hide Run, Apply, LedgerOf;
    if inputs == [] {
      NothingAsked(question);
    } else {
      RunLast(inputs);
      AskedByHistory(inputs[..|inputs| - 1], question);
      StepAsks(Run(START, inputs[..|inputs| - 1]), inputs[|inputs| - 1], question);
    }
  }

  lemma NothingAsked(question: bool)
    ensures LedgerOf(Run(START, []).replies, question).seen == map[]
  {}

  /** It was asked, and since then nobody replied and no stop came while the session was there. */
  predicate Awaited(inputs: seq<Input>, id: string, question: bool) {
    inputs != [] &&
    var front, last := inputs[..|inputs| - 1], inputs[|inputs| - 1];
    match last
    case ServerRequest(_, methodName, _, freshId) =>
      (freshId == id && if question then IsQuestion(methodName) else IsApproval(methodName)) || Awaited(front, id, question)
    case Decide(requestId, _, _) => Awaited(front, id, question) && (question || requestId != id || Ended(front))
    case AnswerInput(requestId, _, _) => Awaited(front, id, question) && (!question || requestId != id || Ended(front))
    case StopRequested => Awaited(front, id, question) && Ended(front)
    case _ => Awaited(front, id, question)
  }

  lemma StepAwaits(c: Context, input: Input, id: string, question: bool)
    ensures var before, after := id in LedgerOf(c.replies, question).pending, id in LedgerOf(Apply(c, input).replies, question).pending;
            after <==>
            match input
            case ServerRequest(_, methodName, _, freshId) =>
              (freshId == id && if question then IsQuestion(methodName) else IsApproval(methodName)) || before
            case Decide(requestId, _, _) => before && (question || requestId != id || !Usable(c))
            case AnswerInput(requestId, _, _) => before && (!question || requestId != id || !Usable(c))
            case StopRequested => before && !c.open
            case _ => before
  {
    hide ChildParentTurn, ConvertAnswers, HandleNotification;
    if input.Notification? {
      NotificationsReplyNothing(c, input.topic, input.params);
    } else if input.ServerRequest? {
      hide RespondToRequest, RespondToUserInput, SendRequest, HandleResponse, FireTimeout, Stop, ProcessExit;
    } else {
      hide HandleServerRequest;
    }
  }

  /** Over every run, what is pending is what is awaited: a reply takes its request off, whether or not it
      can be passed on. */
  lemma {:induction false} PendingByHistory(inputs: seq<Input>, id: string, question: bool)
    ensures id in LedgerOf(Run(START, inputs).replies, question).pending <==> Awaited(inputs, id, question)
    decreases |inputs|
  {
    hide Run, Apply, LedgerOf, Ended;
    if inputs == [] {
      NothingAwaited(id, question);
    } else {
      var front, last := inputs[..|inputs| - 1], inputs[|inputs| - 1];
      RunLast(inputs);
      PendingByHistory(front, id, question);
      EndedByHistory(front);
      StepAwaits(Run(START, front), last, id, question);
      if last.Decide? || last.AnswerInput? { UsableIff(front, last); }
    }
  }

  lemma NothingAwaited(id: string, question: bool)
    ensures id !in LedgerOf(Run(START, []).replies, question).pending
  {}

  // ----- What listeners hear.

  function ItemNamed(p: Params): Option<string> { Named(if p.itemId.Some? then p.itemId else p.itemObjectId) }

  /** What a child's notifications keep to themselves. */
  predicate KeptFromListeners(topic: string) {
    topic in {"thread/started", "thread/status/changed", "thread/archived", "thread/unarchived", "thread/closed",
              "thread/compacted", "thread/name/updated", "thread/tokenUsage/updated", "turn/started", "turn/completed",
              "turn/aborted", "turn/plan/updated", "item/plan/delta"}
  }

  /** A child's message is told as one of its parent turn. */
  function TurnTold(inputs: seq<Input>, p: Params): Option<string> {
    if Own(inputs, p) then TurnNamed(p) else ParentWith(inputs, p, Conversation(p))
  }

  /** Over every run, listeners hear every notification but the ones a child keeps to itself, with its own
      turn or its parent's and its item. */
  lemma NotificationHeard(inputs: seq<Input>, topic: string, p: Params)
    ensures var c := Run(START, inputs);
            HandleNotification(c, topic, p).events ==
            c.events + if !Own(inputs, p) && KeptFromListeners(topic) then [] else [Event(topic, TurnTold(inputs, p), ItemNamed(p))]
  {
    hide Run, ParentWith, Own, RememberCollabReceiverTurns, ChildParentTurn;
    forall key ensures At(Run(START, inputs).collabReceiverTurns, key) == Parent(inputs, key) { CollabByHistory(inputs, key); }
    OwnByHistory(inputs, p);
    assert Run(START, inputs).events + [] == Run(START, inputs).events;
    TurnToldIs(inputs, p);
  }

  lemma TurnToldIs(inputs: seq<Input>, p: Params)
    ensures TurnTold(inputs, p) ==
            if Conversation(p) != "" && ParentWith(inputs, p, Conversation(p)).Some? then ParentWith(inputs, p, Conversation(p))
            else TurnNamed(p)
  {}

  /** They hear every request of the server; one that awaits an answer is filed with what they heard. */
  lemma RequestHeard(inputs: seq<Input>, id: RpcId, methodName: string, p: Params, requestId: string)
    ensures var d := HandleServerRequest(Run(START, inputs), id, methodName, p, requestId);
            var parent := if Conversation(p) == "" then None else Parent(inputs, Conversation(p));
            var turn := if parent.Some? then parent else TurnNamed(p);
            && d.events == Run(START, inputs).events + [Event(methodName, turn, ItemNamed(p))]
            && (IsApproval(methodName) ==>
                  requestId in d.replies.pendingApprovals
                  && d.replies.pendingApprovals[requestId] == PendingReply(id, turn, ItemNamed(p)))
            && (IsQuestion(methodName) ==>
                  requestId in d.replies.pendingUserInputs
                  && d.replies.pendingUserInputs[requestId] == PendingReply(id, turn, ItemNamed(p)))
  {
    hide Run;
    CollabByHistory(inputs, Conversation(p));
  }

  /** A decision or an answer that is sent is heard with the turn and the item of its request. */
  lemma ReplyHeard(c: Context, requestId: string, decision: string, answers: seq<Answer>)
    requires Usable(c)
    ensures requestId in c.replies.pendingApprovals ==>
              var request := c.replies.pendingApprovals[requestId];
              RespondToRequest(c, requestId, decision, true).1.events ==
              c.events + [Event("item/requestApproval/decision", request.turnId, request.itemId)]
    ensures requestId in c.replies.pendingUserInputs && ConvertAnswers(answers).Some? ==>
              var request := c.replies.pendingUserInputs[requestId];
              RespondToUserInput(c, requestId, answers, true).1.events ==
              c.events + [Event("item/tool/requestUserInput/answered", request.turnId, request.itemId)]
  {}

  /** Stopping an open session leaves nothing pending: every request that was is settled as stopped, and
      approvals and questions are forgotten. */
  lemma StopLeavesNothing(c: Context, id: nat)
    requires c.open && Filed(c.requests)
    ensures var d := Stop(c);
            && d.requests.pending == map[] && d.replies.pendingApprovals == map[] && d.replies.pendingUserInputs == map[]
            && (NatText(id) in c.requests.pending && id !in c.requests.settled ==>
                  id in d.requests.settled && d.requests.settled[id] == SessionStopped)
  {
    RejectedAs(c.requests, 1, id);
    if NatText(id) in c.requests.pending && id !in c.requests.settled {
      NatTextInjective(c.requests.pending[NatText(id)].id, id);
      RejectedFrom(c.requests, 1, id);
    }
  }

  /** The end is heard, once: as a close after a stop, as an exit when the process went by itself. */
  lemma EndHeard(c: Context, clean: bool, message: string)
    ensures Stop(c).events == c.events + if c.open then [Event("session/closed", None, None)] else []
    ensures ProcessExit(c, clean, message).events == c.events + if c.stopping then [] else [Event("session/exited", None, None)]
  {}

  lemma {:induction false} RejectedFrom(q: Requests, from: nat, id: nat)
    requires from <= id < q.nextRequestId && NatText(id) in q.pending
    ensures id in RejectFrom(q, from).settled
    decreases q.nextRequestId - from
  {
    var next := if NatText(from) in q.pending then Settle(q, from, SessionStopped) else q;
    if from < id { RejectedFrom(next, from + 1, id); } else { RejectedAs(next, from + 1, id); }
  }
}
