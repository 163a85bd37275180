/** The session object of the Codex manager: its fields, updated in place by each message. */
module CodexManager {
  import opened Text
  import opened Decimal
  import opened CodexSession

  class SessionContext {
    var session: Session
    var pending: map<string, PendingRequest>
    var pendingApprovals: map<string, PendingReply>
    var pendingUserInputs: map<string, PendingReply>
    var collabReceiverTurns: map<string, string>
    var nextRequestId: nat
    var stopping: bool
    var open: bool
    var written: seq<Outgoing>
    var events: seq<Event>
    var settled: map<nat, Outcome>
    var settledAgain: set<nat>
    ghost var approvalsSeen: map<string, RpcId>
    ghost var inputsSeen: map<string, RpcId>

    ghost function State(): Context
      reads this
    {
      Context(session, RequestState(), ReplyState(), collabReceiverTurns, stopping, open, written, events)
    }

    ghost function RequestState(): Requests
      reads this
    {
      Requests(pending, nextRequestId, settled, settledAgain)
    }

    ghost function ReplyState(): Replies
      reads this
    {
      Replies(pendingApprovals, pendingUserInputs, approvalsSeen, inputsSeen)
    }

    constructor ()
      ensures State() == START
    {
      session := Session(Connecting, None, None, None);
      pending, pendingApprovals, pendingUserInputs, collabReceiverTurns := map[], map[], map[], map[];
      nextRequestId, stopping, open := 1, false, true;
      written, events, settled, settledAgain := [], [], map[], {};
      approvalsSeen, inputsSeen := map[], map[];
    }

    method SettlePromise(id: nat, outcome: Outcome)
      modifies this`settled, this`settledAgain
      ensures RequestState() == Settle(old(RequestState()), id, outcome)
    {
      if id in settled {
        settledAgain := settledAgain + {id};
      } else {
        settled := settled[id := outcome];
      }
    }

    method SendRequestOut(methodName: string, writable: bool)
      modifies this
      ensures State() == SendRequest(old(State()), methodName, writable)
    {
      var id := nextRequestId;
      nextRequestId := nextRequestId + 1;
      pending := pending[NatText(id) := PendingRequest(id, methodName)];
      if writable {
        written := written + [RequestOut(id, methodName)];
      } else {
        SettlePromise(id, WriteFailed);
      }
    }

    method OnResponse(id: RpcId, error: Option<string>, result: string)
      modifies this
      ensures State() == HandleResponse(old(State()), id, error, result)
    {
      var key := KeyOf(id);
      if key !in pending { return; }
      var request := pending[key];
      pending := pending - {key};
      if error.Some? && error.value != "" {
        SettlePromise(request.id, Failed(error.value));
        return;
      }
      SettlePromise(request.id, Resolved(result));
    }

    method OnTimeout(id: nat)
      modifies this
      ensures State() == FireTimeout(old(State()), id)
    {
      pending := pending - {NatText(id)};
      SettlePromise(id, TimedOut);
    }

    /** The loop of `stopSession` over the pending requests. */
    method RejectPending()
      modifies this`settled, this`settledAgain
      ensures State() == Rejecting(old(State()))
    {
      var id := 1;
      while id < nextRequestId
        invariant id >= 1
        invariant RejectFrom(old(RequestState()), 1) == RejectFrom(RequestState(), id)
        decreases nextRequestId - id
      {
        if NatText(id) in pending { SettlePromise(id, SessionStopped); }
        id := id + 1;
      }
    }

    method ClearPending()
      modifies this`pending, this`pendingApprovals, this`pendingUserInputs
      ensures RequestState() == old(RequestState()).(pending := map[])
      ensures ReplyState() == old(ReplyState()).(pendingApprovals := map[], pendingUserInputs := map[])
    {
      pending, pendingApprovals, pendingUserInputs := map[], map[], map[];
    }

    /** The rest of `stopSession`. */
    method Close()
      modifies this`pending, this`pendingApprovals, this`pendingUserInputs, this`session, this`events, this`open
      ensures State() == Closing(old(State()))
    {
      ClearPending();
      session := session.(status := Closed, activeTurnId := None);
      events := events + [Event("session/closed", None, None)];
      open := false;
    }

    method StopSession()
      modifies this
      ensures State() == Stop(old(State()))
    {
      if !open { return; }
      stopping := true;
      RejectPending();
      Close();
    }

    method OnExit(clean: bool, message: string)
      modifies this
      ensures State() == ProcessExit(old(State()), clean, message)
    {
      if stopping { return; }
      session := session.(status := Closed, activeTurnId := None,
                          lastError := if clean then session.lastError else Some(message));
      events := events + [Event("session/exited", None, None)];
      open := false;
    }

    /** Remembers the request as an approval or a question that somebody else will answer. */
    method TrackRequest(id: RpcId, methodName: string, reply: PendingReply, requestId: string)
      modifies this`pendingApprovals, this`approvalsSeen, this`pendingUserInputs, this`inputsSeen
      ensures ReplyState() ==
              Track(old(ReplyState()), id, RequestKindFor(methodName), AsksUser(methodName), reply, requestId)
    {
      if RequestKindFor(methodName).Some? {
        pendingApprovals := pendingApprovals[requestId := reply];
        approvalsSeen := approvalsSeen[requestId := id];
      }
      if AsksUser(methodName) {
        ApprovalsAreNotQuestions(methodName);
        pendingUserInputs := pendingUserInputs[requestId := reply];
        inputsSeen := inputsSeen[requestId := id];
      }
    }

    method OnServerRequest(id: RpcId, methodName: string, params: Params, requestId: string)
      modifies this
      ensures State() == HandleServerRequest(old(State()), id, methodName, params, requestId)
    {
      var turn := OrElse(ChildParentTurn(collabReceiverTurns, params), RouteTurn(params));
      TrackRequest(id, methodName, PendingReply(id, turn, RouteItem(params)), requestId);
      events := events + [Event(methodName, turn, RouteItem(params))];
      if RequestKindFor(methodName).Some? { return; }
      if AsksUser(methodName) { return; }
      written := written + [ErrorOut(id, METHOD_NOT_FOUND)];
    }

    method Respond(requestId: string, decision: string, writable: bool) returns (ok: bool)
      modifies this
      ensures (ok, State()) == RespondToRequest(old(State()), requestId, decision, writable)
    {
      if !open || session.status == Closed { return false; }
      if requestId !in pendingApprovals { return false; }
      var request := pendingApprovals[requestId];
      pendingApprovals := pendingApprovals - {requestId};
      if !writable { return false; }
      written := written + [DecisionOut(request.jsonRpcId, decision, requestId)];
      events := events + [Event("item/requestApproval/decision", request.turnId, request.itemId)];
      return true;
    }

    method RespondInput(requestId: string, answers: seq<Answer>, writable: bool) returns (ok: bool)
      modifies this
      ensures (ok, State()) == RespondToUserInput(old(State()), requestId, answers, writable)
    {
      if !open || session.status == Closed { return false; }
      if requestId !in pendingUserInputs { return false; }
      var request := pendingUserInputs[requestId];
      pendingUserInputs := pendingUserInputs - {requestId};
      var codexAnswers := ConvertAnswers(answers);
      if codexAnswers.None? { return false; }
      if !writable { return false; }
      written := written + [AnswersOut(request.jsonRpcId, codexAnswers.value, requestId)];
      events := events + [Event("item/tool/requestUserInput/answered", request.turnId, request.itemId)];
      return true;
    }

    method Remember(params: Params)
      modifies this`collabReceiverTurns
      ensures collabReceiverTurns == RememberCollabReceiverTurns(old(collabReceiverTurns), params)
    {
      var parentTurnId := RouteTurn(params);
      if parentTurnId.None? { return; }
      if !CarriesCollabItem(params) { return; }
      var receivers := params.receiverThreadIds;
      for i := 0 to |receivers|
        invariant RememberAll(old(collabReceiverTurns), receivers, parentTurnId.value) ==
                  RememberAll(collabReceiverTurns, receivers[i..], parentTurnId.value)
      {
        collabReceiverTurns := collabReceiverTurns[receivers[i] := parentTurnId.value];
        assert receivers[i..][1..] == receivers[i + 1..];
      }
    }

    method OnNotification(methodName: string, params: Params)
      modifies this
      ensures State() == HandleNotification(old(State()), methodName, params)
    {
      Remember(params);
      var childParentTurnId := ChildParentTurn(collabReceiverTurns, params);
      var isChildConversation := childParentTurnId.Some?;
      if isChildConversation && SuppressedForChild(methodName) { return; }
      events := events + [Event(methodName, OrElse(childParentTurnId, RouteTurn(params)), RouteItem(params))];
      match TopicOf(methodName)
      case ThreadStarted =>
        var providerThreadId := Brand(params.threadObjectId);
        if providerThreadId.Some? { session := session.(resumeCursor := providerThreadId); }
      case TurnStarted =>
        if isChildConversation { return; }
        session := session.(status := RunningStatus, activeTurnId := Brand(params.turnObjectId));
      case TurnCompleted =>
        if isChildConversation { return; }
        collabReceiverTurns := map[];
        session := session.(status := if params.turnStatus == Some("failed") then ErrorStatus else ReadyStatus,
                            activeTurnId := None,
                            lastError := OrElse(params.turnError, session.lastError));
      case ErrorReported =>
        if isChildConversation { return; }
        session := session.(status := if params.willRetry then RunningStatus else ErrorStatus,
                            lastError := OrElse(params.errorMessage, session.lastError));
      case OtherTopic =>
    }
  }
}
