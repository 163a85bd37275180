/** One Codex app-server session (apps/server/src/codexAppServerManager.ts): request correlation,
    approval bookkeeping and child-conversation filtering over JSON-RPC messages. */
module CodexSession {
  import opened Text
  import opened Decimal

  // ----- Messages.

  datatype RpcId = NumberId(value: int) | TextId(text: string)

  /** `String(id)`. */
  function KeyOf(id: RpcId): string {
    match id
    case NumberId(n) => IntText(n)
    case TextId(text) => text
  }

  /** The fields the session reads out of `params`, each absent or present. */
  datatype Params = Params(
    turnId: Option<string>,
    turnObjectId: Option<string>,
    turnStatus: Option<string>,
    turnError: Option<string>,
    itemId: Option<string>,
    itemObjectId: Option<string>,
    itemType: Option<string>,
    receiverThreadIds: seq<string>,
    threadId: Option<string>,
    threadObjectId: Option<string>,
    conversationId: Option<string>,
    errorMessage: Option<string>,
    willRetry: bool)

  datatype Answer = TextAnswer(text: string) | ListAnswer(texts: seq<string>) | Unusable

  datatype Outgoing =
    | RequestOut(id: nat, methodName: string)
    | DecisionOut(rpcId: RpcId, decision: string, requestId: string)
    | AnswersOut(rpcId: RpcId, answers: seq<seq<string>>, requestId: string)
    | ErrorOut(rpcId: RpcId, code: int)

  datatype Outcome = Resolved(result: string) | Failed(message: string) | TimedOut | SessionStopped | WriteFailed

  // ----- The session context.

  datatype Status = Connecting | ReadyStatus | RunningStatus | ErrorStatus | Closed

  datatype Session = Session(
    status: Status,
    activeTurnId: Option<string>,
    resumeCursor: Option<string>,
    lastError: Option<string>)

  datatype PendingRequest = PendingRequest(id: nat, methodName: string)

  datatype RequestKind = CommandKind | FileReadKind | FileChangeKind

  datatype PendingReply = PendingReply(jsonRpcId: RpcId, turnId: Option<string>, itemId: Option<string>)

  datatype Event = Event(methodName: string, turnId: Option<string>, itemId: Option<string>)

  /** The requests this side sent: a promise keeps its first outcome. */
  datatype Requests = Requests(
    pending: map<string, PendingRequest>,
    nextRequestId: nat,
    settled: map<nat, Outcome>,         // what each request's promise came to
    settledAgain: set<nat>)             // promises somebody tried to settle a second time

  /** The requests the other side sent that await an answer, and all that ever came in. */
  datatype Replies = Replies(
    pendingApprovals: map<string, PendingReply>,
    pendingUserInputs: map<string, PendingReply>,
    approvalsSeen: map<string, RpcId>,
    inputsSeen: map<string, RpcId>)

  datatype Context = Context(
    session: Session,
    requests: Requests,
    replies: Replies,
    collabReceiverTurns: map<string, string>,
    stopping: bool,
    open: bool,                         // still in the manager's session map
    written: seq<Outgoing>,
    events: seq<Event>)

  const START := Context(Session(Connecting, None, None, None), Requests(map[], 1, map[], {}),
                         Replies(map[], map[], map[], map[]), map[], false, true, [], [])

  function OrElse<T>(a: Option<T>, b: Option<T>): Option<T> { if a.Some? then a else b }

  /** `brandIfNonEmpty`. */
  function Brand(value: Option<string>): Option<string> {
    if value.Some? && Trim(value.value) != "" then Some(Trim(value.value)) else None
  }

  function RouteTurn(p: Params): Option<string> { Brand(OrElse(p.turnId, p.turnObjectId)) }

  function RouteItem(p: Params): Option<string> { Brand(OrElse(p.itemId, p.itemObjectId)) }

  /** `readProviderConversationId`; the empty id counts as none. */
  function ConversationOf(p: Params): Option<string> {
    var id := OrElse(p.threadId, OrElse(p.threadObjectId, p.conversationId));
    if id == Some("") then None else id
  }

  function ChildParentTurn(collab: map<string, string>, p: Params): Option<string> {
    var conversation := ConversationOf(p);
    if conversation.Some? && conversation.value in collab then Some(collab[conversation.value]) else None
  }

  // ----- Outgoing requests and their settlement.

  function Settle(q: Requests, id: nat, outcome: Outcome): Requests {
    if id in q.settled then q.(settledAgain := q.settledAgain + {id})
    else q.(settled := q.settled[id := outcome])
  }

  function Issue(q: Requests, methodName: string): Requests {
    q.(nextRequestId := q.nextRequestId + 1,
       pending := q.pending[NatText(q.nextRequestId) := PendingRequest(q.nextRequestId, methodName)])
  }

  function SendRequest(c: Context, methodName: string, writable: bool): Context {
    var id := c.requests.nextRequestId;
    var issued := Issue(c.requests, methodName);
    if writable then c.(requests := issued, written := c.written + [RequestOut(id, methodName)])
    else c.(requests := Settle(issued, id, WriteFailed))
  }

  function Respond(q: Requests, key: string, outcome: Outcome): Requests {
    if key !in q.pending then q
    else Settle(q.(pending := q.pending - {key}), q.pending[key].id, outcome)
  }

  function OutcomeOf(error: Option<string>, result: string): Outcome {
    if error.Some? && error.value != "" then Failed(error.value) else Resolved(result)
  }

  function HandleResponse(c: Context, id: RpcId, error: Option<string>, result: string): Context {
    c.(requests := Respond(c.requests, KeyOf(id), OutcomeOf(error, result)))
  }

  /** The timer of request `id` fires; it is cleared when the request leaves `pending`. */
  function Expire(q: Requests, id: nat): Requests {
    Settle(q.(pending := q.pending - {NatText(id)}), id, TimedOut)
  }

  function FireTimeout(c: Context, id: nat): Context { c.(requests := Expire(c.requests, id)) }

  /** Rejects every pending request numbered `id` or later. */
  function RejectFrom(q: Requests, id: nat): Requests
    decreases q.nextRequestId - id
  {
    if id >= q.nextRequestId then q
    else RejectFrom(if NatText(id) in q.pending then Settle(q, id, SessionStopped) else q, id + 1)
  }

  function Rejecting(c: Context): Context { c.(requests := RejectFrom(c.requests, 1)) }

  function Closing(c: Context): Context {
    c.(open := false,
       requests := c.requests.(pending := map[]),
       replies := c.replies.(pendingApprovals := map[], pendingUserInputs := map[]),
       session := c.session.(status := Closed, activeTurnId := None),
       events := c.events + [Event("session/closed", None, None)])
  }

  function Stop(c: Context): Context {
    if !c.open then c else Closing(Rejecting(c.(stopping := true)))
  }

  function ProcessExit(c: Context, clean: bool, message: string): Context {
    if c.stopping then c
    else c.(open := false,
            session := c.session.(status := Closed, activeTurnId := None,
                                  lastError := if clean then c.session.lastError else Some(message)),
            events := c.events + [Event("session/exited", None, None)])
  }

  // ----- Requests from the server.

  const METHOD_NOT_FOUND := -32601

  function RequestKindFor(methodName: string): Option<RequestKind> {
    if methodName == "item/commandExecution/requestApproval" then Some(CommandKind)
    else if methodName == "item/fileRead/requestApproval" then Some(FileReadKind)
    else if methodName == "item/fileChange/requestApproval" then Some(FileChangeKind)
    else None
  }

  predicate AsksUser(methodName: string) { methodName == "item/tool/requestUserInput" }

  /** Remembers a request that somebody else will answer. */
  function Track(r: Replies, id: RpcId, kind: Option<RequestKind>, asksUser: bool, reply: PendingReply,
                 requestId: string): Replies {
    if kind.Some? then
      r.(pendingApprovals := r.pendingApprovals[requestId := reply],
         approvalsSeen := r.approvalsSeen[requestId := id])
    else if asksUser then
      r.(pendingUserInputs := r.pendingUserInputs[requestId := reply],
         inputsSeen := r.inputsSeen[requestId := id])
    else r
  }

  /** `requestId` is the fresh id drawn for the request, if one is drawn. */
  function HandleServerRequest(c: Context, id: RpcId, methodName: string, p: Params, requestId: string): Context {
    var turn := OrElse(ChildParentTurn(c.collabReceiverTurns, p), RouteTurn(p));
    var kind := RequestKindFor(methodName);
    c.(replies := Track(c.replies, id, kind, AsksUser(methodName), PendingReply(id, turn, RouteItem(p)), requestId),
       events := c.events + [Event(methodName, turn, RouteItem(p))],
       written := if kind.Some? || AsksUser(methodName) then c.written
                  else c.written + [ErrorOut(id, METHOD_NOT_FOUND)])
  }

  /** `requireSession` succeeds. */
  predicate Usable(c: Context) { c.open && c.session.status != Closed }

  /** Returns whether the call returned normally rather than throwing. */
  function RespondToRequest(c: Context, requestId: string, decision: string, writable: bool): (bool, Context) {
    if !Usable(c) || requestId !in c.replies.pendingApprovals then (false, c)
    else
      var request := c.replies.pendingApprovals[requestId];
      var taken := c.(replies := c.replies.(pendingApprovals := c.replies.pendingApprovals - {requestId}));
      if !writable then (false, taken)
      else (true, taken.(written := c.written + [DecisionOut(request.jsonRpcId, decision, requestId)],
                         events := c.events + [Event("item/requestApproval/decision", request.turnId, request.itemId)]))
  }

  /** `toCodexUserInputAnswers`: throws when some answer is neither text nor a list. */
  function ConvertAnswers(answers: seq<Answer>): Option<seq<seq<string>>> {
    if answers == [] then Some([])
    else match ConvertAnswers(answers[1..])
      case None => None
      case Some(rest) =>
        match answers[0]
        case TextAnswer(text) => Some([[text]] + rest)
        case ListAnswer(texts) => Some([texts] + rest)
        case Unusable => None
  }

  function RespondToUserInput(c: Context, requestId: string, answers: seq<Answer>, writable: bool): (bool, Context) {
    if !Usable(c) || requestId !in c.replies.pendingUserInputs then (false, c)
    else
      var request := c.replies.pendingUserInputs[requestId];
      var taken := c.(replies := c.replies.(pendingUserInputs := c.replies.pendingUserInputs - {requestId}));
      match ConvertAnswers(answers)
      case None => (false, taken)
      case Some(converted) =>
        if !writable then (false, taken)
        else (true, taken.(written := c.written + [AnswersOut(request.jsonRpcId, converted, requestId)],
                           events := c.events + [Event("item/tool/requestUserInput/answered", request.turnId, request.itemId)]))
  }

  lemma ApprovalsAreNotQuestions(methodName: string)
    requires AsksUser(methodName)
    ensures RequestKindFor(methodName).None?
  {}

  // ----- Notifications from the server.

  predicate CarriesCollabItem(p: Params) { p.itemType == Some("collabAgentToolCall") }

  function RememberAll(collab: map<string, string>, receivers: seq<string>, turn: string): map<string, string>
    decreases |receivers|
  {
    if receivers == [] then collab else RememberAll(collab[receivers[0] := turn], receivers[1..], turn)
  }

  function RememberCollabReceiverTurns(collab: map<string, string>, p: Params): map<string, string> {
    if RouteTurn(p).None? || !CarriesCollabItem(p) then collab
    else RememberAll(collab, p.receiverThreadIds, RouteTurn(p).value)
  }

  predicate SuppressedForChild(methodName: string) {
    || TopicOf(methodName) in {ThreadStarted, TurnStarted, TurnCompleted}
    || methodName in {"thread/status/changed", "thread/archived", "thread/unarchived",
                      "thread/closed", "thread/compacted", "thread/name/updated", "thread/tokenUsage/updated",
                      "turn/aborted", "turn/plan/updated", "item/plan/delta"}
  }

  datatype Topic = ThreadStarted | TurnStarted | TurnCompleted | ErrorReported | OtherTopic

  function TopicOf(methodName: string): Topic {
    if methodName == "thread/started" then ThreadStarted
    else if methodName == "turn/started" then TurnStarted
    else if methodName == "turn/completed" then TurnCompleted
    else if methodName == "error" then ErrorReported
    else OtherTopic
  }

  /** What a notification that gets through does to the session. */
  function NotifiedSession(session: Session, topic: Topic, p: Params, isChild: bool): Session {
    match topic
    case ThreadStarted =>
      if Brand(p.threadObjectId).Some? then session.(resumeCursor := Brand(p.threadObjectId)) else session
    case TurnStarted =>
      if isChild then session
      else session.(status := RunningStatus, activeTurnId := Brand(p.turnObjectId))
    case TurnCompleted =>
      if isChild then session
      else session.(status := if p.turnStatus == Some("failed") then ErrorStatus else ReadyStatus,
                    activeTurnId := None,
                    lastError := OrElse(p.turnError, session.lastError))
    case ErrorReported =>
      if isChild then session
      else session.(status := if p.willRetry then RunningStatus else ErrorStatus,
                    lastError := OrElse(p.errorMessage, session.lastError))
    case OtherTopic => session
  }

  function HandleNotification(c: Context, methodName: string, p: Params): Context {
    var noted := c.(collabReceiverTurns := RememberCollabReceiverTurns(c.collabReceiverTurns, p));
    var parent := ChildParentTurn(noted.collabReceiverTurns, p);
    if parent.Some? && SuppressedForChild(methodName) then noted
    else
      var topic := TopicOf(methodName);
      noted.(events := c.events + [Event(methodName, OrElse(parent, RouteTurn(p)), RouteItem(p))],
             collabReceiverTurns := if topic == TurnCompleted && parent.None? then map[] else noted.collabReceiverTurns,
             session := NotifiedSession(c.session, topic, p, parent.Some?))
  }
}
