/** The startup command gate (apps/server/src/serverRuntimeStartup.ts) as a machine of atomic steps:
    any number of enqueuing callers, one worker, and calls to signal or fail, in any interleaving.
    Every fiber switch the runtime can make between two effects is a step of its own. */
module CommandGate {
  import opened Text

  type CommandId = nat

  datatype Exit = Succeeded(value: int) | CommandFailed(error: int) | StartupFailed(message: string)

  datatype Readiness = Pending | Ready | Failed(message: string)

  /** A deferred cell: settled once, by whoever comes first. */
  datatype Deferred = Unsettled | Open | Rejected(message: string)

  datatype Caller =
    | Running                  // saw "ready": about to run its effect directly
    | Finished(exit: Exit)     // ran directly, or was turned away
    | Queueing                 // saw "pending": about to offer
    | Waiting                  // offered: awaits its result
    | Answered(exit: Exit)     // read its result

  datatype Worker = Taking | Awaiting(id: CommandId) | Settling(id: CommandId, exit: Exit)

  datatype Gate = Gate(
    readiness: Readiness,
    commandReady: Deferred,
    queue: seq<CommandId>,
    worker: Worker,
    callers: map<CommandId, Caller>,
    results: map<CommandId, Exit>,
    // history
    signalled: bool,
    failures: set<string>,
    offered: seq<CommandId>,
    ranQueued: seq<CommandId>,
    ranDirect: seq<CommandId>)

  const INITIAL := Gate(Pending, Unsettled, [], Taking, map[], map[], false, {}, [], [], [])

  datatype Action =
    | SignalSets               // signalCommandReady: Ref.set
    | SignalOpens              // signalCommandReady: Deferred.succeed
    | FailSets(message: string)
    | FailRejects(message: string)
    | Reads(id: CommandId)     // enqueueCommand: Ref.get
    | RunsDirect(id: CommandId, exit: Exit)
    | Offers(id: CommandId)
    | Takes                    // worker: Queue.take
    | Executes(exit: Exit)     // worker: the gate is open, run the effect
    | Rejects                  // worker: the gate was rejected
    | Settles                  // worker: settleQueuedCommand
    | Answers(id: CommandId)   // caller: Deferred.await(result)

  predicate Enabled(g: Gate, a: Action) {
    match a
    case SignalOpens => g.signalled
    case FailRejects(m) => m in g.failures
    case Reads(id) => id !in g.callers
    case RunsDirect(id, _) => id in g.callers && g.callers[id].Running?
    case Offers(id) => id in g.callers && g.callers[id].Queueing?
    case Takes => g.worker.Taking? && g.queue != []
    case Executes(_) => g.worker.Awaiting? && g.commandReady.Open?
    case Rejects => g.worker.Awaiting? && g.commandReady.Rejected?
    case Settles => g.worker.Settling?
    case Answers(id) => id in g.callers && g.callers[id].Waiting? && id in g.results
    case _ => true
  }

  function Step(g: Gate, a: Action): Gate
    requires Enabled(g, a)
  {
    match a
    case SignalSets => g.(readiness := Ready, signalled := true)
    case SignalOpens => if g.commandReady.Unsettled? then g.(commandReady := Open) else g
    case FailSets(m) => g.(readiness := Failed(m), failures := g.failures + {m})
    case FailRejects(m) => if g.commandReady.Unsettled? then g.(commandReady := Rejected(m)) else g
    case Reads(id) =>
      (match g.readiness
       case Ready => g.(callers := g.callers[id := Running])
       case Failed(m) => g.(callers := g.callers[id := Finished(StartupFailed(m))])
       case Pending => g.(callers := g.callers[id := Queueing]))
    case RunsDirect(id, exit) => g.(callers := g.callers[id := Finished(exit)], ranDirect := g.ranDirect + [id])
    case Offers(id) => g.(callers := g.callers[id := Waiting], queue := g.queue + [id], offered := g.offered + [id])
    case Takes => g.(worker := Awaiting(g.queue[0]), queue := g.queue[1..])
    case Executes(exit) => g.(worker := Settling(g.worker.id, exit), ranQueued := g.ranQueued + [g.worker.id])
    case Rejects => g.(worker := Settling(g.worker.id, StartupFailed(g.commandReady.message)))
    case Settles =>
      g.(worker := Taking,
         results := if g.worker.id in g.results then g.results else g.results[g.worker.id := g.worker.exit])
    case Answers(id) => g.(callers := g.callers[id := Answered(g.results[id])])
  }

  /** `makeCommandGate`: the cells of the gate, changed by one atomic step at a time. */
  class CommandGate {
    var commandReadinessState: Readiness
    var commandReady: Deferred
    var commandQueue: seq<CommandId>
    var worker: Worker
    var callers: map<CommandId, Caller>
    var results: map<CommandId, Exit>
    ghost var signalled: bool
    ghost var failures: set<string>
    ghost var offered: seq<CommandId>
    ghost var ranQueued: seq<CommandId>
    ghost var ranDirect: seq<CommandId>

    constructor ()
      ensures State() == INITIAL
    {
      commandReadinessState, commandReady, commandQueue := Pending, Unsettled, [];
      worker, callers, results := Taking, map[], map[];
      signalled, failures, offered, ranQueued, ranDirect := false, {}, [], [], [];
    }

    ghost function State(): Gate
      reads this
    {
      Gate(commandReadinessState, commandReady, commandQueue, worker, callers, results,
           signalled, failures, offered, ranQueued, ranDirect)
    }

    method SignalSetsReady()
      modifies this
      ensures State() == Step(old(State()), SignalSets)
    {
      commandReadinessState, signalled := Ready, true;
    }

    method SignalOpensGate()
      requires signalled
      modifies this
      ensures State() == Step(old(State()), SignalOpens)
    {
      if commandReady.Unsettled? { commandReady := Open; }
    }

    method FailSetsError(message: string)
      modifies this
      ensures State() == Step(old(State()), FailSets(message))
    {
      commandReadinessState, failures := Failed(message), failures + {message};
    }

    method FailRejectsGate(message: string)
      requires message in failures
      modifies this
      ensures State() == Step(old(State()), FailRejects(message))
    {
      if commandReady.Unsettled? { commandReady := Rejected(message); }
    }

    method EnqueueReads(id: CommandId)
      requires Enabled(State(), Reads(id))
      modifies this
      ensures State() == Step(old(State()), Reads(id))
    {
      match commandReadinessState
      case Ready => callers := callers[id := Running];
      case Failed(message) => callers := callers[id := Finished(StartupFailed(message))];
      case Pending => callers := callers[id := Queueing];
    }

    /** `exit` is whatever the command's effect comes to. */
    method EnqueueRunsDirectly(id: CommandId, exit: Exit)
      requires Enabled(State(), RunsDirect(id, exit))
      modifies this
      ensures State() == Step(old(State()), RunsDirect(id, exit))
    {
      callers, ranDirect := callers[id := Finished(exit)], ranDirect + [id];
    }

    method EnqueueOffers(id: CommandId)
      requires Enabled(State(), Offers(id))
      modifies this
      ensures State() == Step(old(State()), Offers(id))
    {
      commandQueue := commandQueue + [id];
      callers, offered := callers[id := Waiting], offered + [id];
    }

    method WorkerTakes()
      requires Enabled(State(), Takes)
      modifies this
      ensures State() == Step(old(State()), Takes)
    {
      worker, commandQueue := Awaiting(commandQueue[0]), commandQueue[1..];
    }

    method WorkerExecutes(exit: Exit)
      requires Enabled(State(), Executes(exit))
      modifies this
      ensures State() == Step(old(State()), Executes(exit))
    {
      ranQueued := ranQueued + [worker.id];
      worker := Settling(worker.id, exit);
    }

    method WorkerRejects()
      requires Enabled(State(), Rejects)
      modifies this
      ensures State() == Step(old(State()), Rejects)
    {
      worker := Settling(worker.id, StartupFailed(commandReady.message));
    }

    method WorkerSettles()
      requires Enabled(State(), Settles)
      modifies this
      ensures State() == Step(old(State()), Settles)
    {
      if worker.id !in results { results := results[worker.id := worker.exit]; }
      worker := Taking;
    }

    method EnqueueAnswers(id: CommandId)
      requires Enabled(State(), Answers(id))
      modifies this
      ensures State() == Step(old(State()), Answers(id))
    {
      callers := callers[id := Answered(results[id])];
    }
  }

  // ----- Runs.

  predicate AllEnabled(g: Gate, actions: seq<Action>)
    decreases |actions|
  {
    actions == [] || (Enabled(g, actions[0]) && AllEnabled(Step(g, actions[0]), actions[1..]))
  }

  function Run(g: Gate, actions: seq<Action>): Gate
    requires AllEnabled(g, actions)
    decreases |actions|
  {
    if actions == [] then g else Run(Step(g, actions[0]), actions[1..])
  }

  // ----- The invariant.

  /** How many offered commands the worker has finished with. */
  function SettledCount(g: Gate): int {
    |g.offered| - |g.queue| - (if g.worker.Taking? then 0 else 1)
  }

  /** How many offered commands are past the gate: settled, or about to be. */
  function PassedCount(g: Gate): int { SettledCount(g) + if g.worker.Settling? then 1 else 0 }

  ghost predicate Distinct(ids: seq<CommandId>) {
    forall i, j :: 0 <= i < j < |ids| ==> ids[i] != ids[j]
  }

  /** The gate's own cells agree with the calls that were made. */
  ghost predicate ControlInv(g: Gate) {
    && (g.readiness.Pending? <==> !g.signalled && g.failures == {})
    && (g.readiness.Ready? ==> g.signalled)
    && (g.readiness.Failed? ==> g.readiness.message in g.failures)
    && (g.commandReady.Open? ==> g.signalled)
    && (g.commandReady.Rejected? ==> g.commandReady.message in g.failures)
  }

  /** The offered commands are, in order: settled, in the worker's hands, queued. */
  ghost predicate QueueInv(g: Gate) {
    && 0 <= SettledCount(g)
    && g.queue == g.offered[|g.offered| - |g.queue|..]
    && (!g.worker.Taking? ==> g.worker.id == g.offered[SettledCount(g)])
    && (forall id :: id in g.results <==> id in g.offered[..SettledCount(g)])
    && Distinct(g.offered)
  }

  /** What ran is what passed an open gate, in offer order; behind a rejected gate nothing runs. */
  ghost predicate EffectInv(g: Gate)
    requires QueueInv(g)
  {
    match g.commandReady
    case Unsettled => PassedCount(g) == 0 && g.ranQueued == []
    case Open => g.ranQueued == g.offered[..PassedCount(g)]
    case Rejected(m) =>
      && g.ranQueued == []
      && (forall id :: id in g.results ==> g.results[id] == StartupFailed(m))
      && (g.worker.Settling? ==> g.worker.exit == StartupFailed(m))
  }

  /** Callers that went through the queue. */
  ghost predicate QueuedCallerInv(g: Gate) {
    && (forall id :: id in g.offered <==> id in g.callers && (g.callers[id].Waiting? || g.callers[id].Answered?))
    && (forall id :: id in g.callers && g.callers[id].Answered? ==>
          id in g.results && g.callers[id].exit == g.results[id])
  }

  /** Callers that saw the gate settled: only after a signal, or with an announced error. */
  ghost predicate DirectCallerInv(g: Gate) {
    && (forall id :: id in g.ranDirect ==> id in g.callers && g.callers[id].Finished?)
    && Distinct(g.ranDirect)
    && (forall id :: id in g.callers && g.callers[id].Running? ==> g.signalled)
    && (forall id :: id in g.callers && g.callers[id].Finished? && id !in g.ranDirect ==>
          g.callers[id].exit.StartupFailed? && g.callers[id].exit.message in g.failures)
    && (g.ranDirect != [] ==> g.signalled)
  }

  ghost predicate Inv(g: Gate) {
    ControlInv(g) && QueueInv(g) && EffectInv(g) && QueuedCallerInv(g) && DirectCallerInv(g)
  }

  lemma OfferKeepsQueue(g: Gate, id: CommandId)
    requires QueueInv(g) && Enabled(g, Offers(id)) && id !in g.offered
    ensures QueueInv(Step(g, Offers(id)))
  {
    var h := Step(g, Offers(id));
    assert h.offered[|h.offered| - |h.queue|..] == g.offered[|g.offered| - |g.queue|..] + [id];
    assert h.offered[..SettledCount(h)] == g.offered[..SettledCount(g)];
  }

  lemma OfferKeepsEffects(g: Gate, id: CommandId)
    requires QueueInv(g) && EffectInv(g) && Enabled(g, Offers(id)) && QueueInv(Step(g, Offers(id)))
    ensures EffectInv(Step(g, Offers(id)))
  {
    var h := Step(g, Offers(id));
    assert h.offered[..PassedCount(h)] == g.offered[..PassedCount(g)];
  }

  lemma OfferKeepsCallers(g: Gate, id: CommandId)
    requires QueuedCallerInv(g) && DirectCallerInv(g) && Enabled(g, Offers(id))
    ensures QueuedCallerInv(Step(g, Offers(id))) && DirectCallerInv(Step(g, Offers(id)))
    ensures id !in g.offered
  {
    hide Distinct;
    assert forall x :: x in g.offered + [id] <==> x in g.offered || x == id;
    assert id !in g.ranDirect;
  }

  lemma OfferKeepsInv(g: Gate, id: CommandId)
    requires Inv(g) && Enabled(g, Offers(id))
    ensures Inv(Step(g, Offers(id)))
  {
    hide QueueInv, EffectInv, QueuedCallerInv, DirectCallerInv;
    OfferKeepsCallers(g, id);
    OfferKeepsQueue(g, id);
    OfferKeepsEffects(g, id);
  }

  lemma TakeKeepsInv(g: Gate)
    requires Inv(g) && Enabled(g, Takes)
    ensures Inv(Step(g, Takes))
  {
    assert g.queue[0] == g.offered[|g.offered| - |g.queue|];
  }

  lemma PassKeepsInv(g: Gate, a: Action)
    requires Inv(g) && Enabled(g, a) && (a.Executes? || a.Rejects?)
    ensures Inv(Step(g, a))
  {
    var n := SettledCount(g);
    assert g.offered[..n + 1] == g.offered[..n] + [g.offered[n]];
  }

  /** The command in the worker's hands is none of the settled ones. */
  lemma HeldIsUnsettled(g: Gate)
    requires QueueInv(g) && g.worker.Settling?
    ensures g.worker.id !in g.results
    ensures var n := SettledCount(g); n < |g.offered| && g.offered[..n + 1] == g.offered[..n] + [g.worker.id]
  {
    var n := SettledCount(g);
    assert g.offered[..n + 1] == g.offered[..n] + [g.offered[n]];
    assert forall i :: 0 <= i < n ==> g.offered[i] != g.offered[n];
  }

  lemma SettleKeepsQueue(g: Gate)
    requires QueueInv(g) && EffectInv(g) && Enabled(g, Settles)
    ensures QueueInv(Step(g, Settles)) && EffectInv(Step(g, Settles)) && g.worker.id !in g.results
  {
    hide Distinct;
    HeldIsUnsettled(g);
  }

  lemma SettleKeepsInv(g: Gate)
    requires Inv(g) && Enabled(g, Settles)
    ensures Inv(Step(g, Settles))
  {
    SettleKeepsQueue(g);
  }

  /** `QueueInv` and `EffectInv` look only at the queue side and the gate cell. */
  lemma QueueFrame(g: Gate, h: Gate)
    requires QueueInv(g) && EffectInv(g)
    requires h.queue == g.queue && h.worker == g.worker && h.results == g.results
    requires h.offered == g.offered && h.ranQueued == g.ranQueued && h.commandReady == g.commandReady
    ensures QueueInv(h) && EffectInv(h)
  {}

  lemma ReadKeepsInv(g: Gate, id: CommandId)
    requires Inv(g) && Enabled(g, Reads(id))
    ensures Inv(Step(g, Reads(id)))
  {
    QueueFrame(g, Step(g, Reads(id)));
    ReadKeepsQueuedCallers(g, id);
    ReadKeepsDirectCallers(g, id);
  }

  lemma ReadKeepsQueuedCallers(g: Gate, id: CommandId)
    requires QueuedCallerInv(g) && Enabled(g, Reads(id))
    ensures QueuedCallerInv(Step(g, Reads(id)))
  {
    assert id !in g.offered;
  }

  lemma ReadKeepsDirectCallers(g: Gate, id: CommandId)
    requires ControlInv(g) && DirectCallerInv(g) && Enabled(g, Reads(id))
    ensures DirectCallerInv(Step(g, Reads(id)))
  {
    assert id !in g.ranDirect;
  }

  lemma DirectKeepsInv(g: Gate, id: CommandId, exit: Exit)
    requires Inv(g) && Enabled(g, RunsDirect(id, exit))
    ensures Inv(Step(g, RunsDirect(id, exit)))
  {
    var h := Step(g, RunsDirect(id, exit));
    QueueFrame(g, h);
    assert QueuedCallerInv(h) by { assert id !in g.offered; }
    assert id !in g.ranDirect;
    assert forall x :: x in h.ranDirect <==> x in g.ranDirect || x == id;
  }

  lemma AnswerKeepsInv(g: Gate, id: CommandId)
    requires Inv(g) && Enabled(g, Answers(id))
    ensures Inv(Step(g, Answers(id)))
  {
    QueueFrame(g, Step(g, Answers(id)));
    AnswerKeepsQueuedCallers(g, id);
    AnswerKeepsDirectCallers(g, id);
  }

  lemma AnswerKeepsQueuedCallers(g: Gate, id: CommandId)
    requires QueuedCallerInv(g) && Enabled(g, Answers(id))
    ensures QueuedCallerInv(Step(g, Answers(id)))
  {}

  lemma AnswerKeepsDirectCallers(g: Gate, id: CommandId)
    requires DirectCallerInv(g) && Enabled(g, Answers(id))
    ensures DirectCallerInv(Step(g, Answers(id)))
  {
    assert id !in g.ranDirect;
  }

  lemma ControlKeepsInv(g: Gate, a: Action)
    requires Inv(g) && Enabled(g, a) && (a.SignalSets? || a.FailSets?)
    ensures Inv(Step(g, a))
  {
    QueueFrame(g, Step(g, a));
    assert QueuedCallerInv(Step(g, a));
  }

  lemma SettlingGateKeepsInv(g: Gate, a: Action)
    requires Inv(g) && Enabled(g, a) && (a.SignalOpens? || a.FailRejects?)
    ensures Inv(Step(g, a))
  {
    if g.commandReady.Unsettled? {
      SettlingGateKeepsQueue(g, a);
      assert QueuedCallerInv(Step(g, a));
    }
  }

  lemma SettlingGateKeepsQueue(g: Gate, a: Action)
    requires QueueInv(g) && EffectInv(g) && Enabled(g, a) && (a.SignalOpens? || a.FailRejects?)
    requires g.commandReady.Unsettled?
    ensures QueueInv(Step(g, a)) && EffectInv(Step(g, a))
  {
    hide QueueInv, EffectInv;
    NewlySettled(g, if a.SignalOpens? then Open else Rejected(a.message));
  }

  /** `QueueInv` does not look at the gate cell. */
  lemma QueueIgnoresCell(g: Gate, h: Gate)
    requires QueueInv(g)
    requires h.queue == g.queue && h.worker == g.worker && h.results == g.results && h.offered == g.offered
    ensures QueueInv(h)
  {}

  lemma NothingPassed(g: Gate)
    requires QueueInv(g) && PassedCount(g) == 0 && g.ranQueued == []
    ensures EffectInv(g)
  {
    hide Distinct;
    assert SettledCount(g) == 0 && g.offered[..0] == [];
    assert forall id :: id !in g.results;
  }

  lemma NewlySettled(g: Gate, cell: Deferred)
    requires QueueInv(g) && EffectInv(g) && g.commandReady.Unsettled?
    ensures QueueInv(g.(commandReady := cell)) && EffectInv(g.(commandReady := cell))
  {
    var h := g.(commandReady := cell);
    QueueIgnoresCell(g, h);
    hide QueueInv;
    NothingPassed(h);
  }

  lemma StepKeepsInv(g: Gate, a: Action)
    requires Inv(g) && Enabled(g, a)
    ensures Inv(Step(g, a))
  {
    match a
    case Offers(id) => OfferKeepsInv(g, id);
    case Takes => TakeKeepsInv(g);
    case Executes(_) => PassKeepsInv(g, a);
    case Rejects => PassKeepsInv(g, a);
    case Settles => SettleKeepsInv(g);
    case Reads(id) => ReadKeepsInv(g, id);
    case RunsDirect(id, exit) => DirectKeepsInv(g, id, exit);
    case Answers(id) => AnswerKeepsInv(g, id);
    case SignalOpens => SettlingGateKeepsInv(g, a);
    case FailRejects(_) => SettlingGateKeepsInv(g, a);
    case _ => ControlKeepsInv(g, a);
  }

  // ----- What holds over every interleaving.

  /** `g` is where some interleaving of steps leads. */
  ghost predicate Reached(g: Gate, actions: seq<Action>) {
    AllEnabled(INITIAL, actions) && g == Run(INITIAL, actions)
  }

  lemma ReachedInv(g: Gate, actions: seq<Action>)
    requires Reached(g, actions)
    ensures Inv(g)
  {
    InitialInv(INITIAL);
    var now, rest := INITIAL, actions;
    while rest != []
      invariant Inv(now) && AllEnabled(now, rest) && Run(now, rest) == g
      decreases |rest|
    {
      hide Inv, Step;
      StepKeepsInv(now, rest[0]);
      now, rest := Step(now, rest[0]), rest[1..];
    }
  }

  lemma InitialInv(g: Gate)
    requires g == INITIAL
    ensures Inv(g)
  {
    assert QueueInv(g);
  }

  lemma {:induction false} SignalledOnlyBySignal(g: Gate, actions: seq<Action>)
    requires AllEnabled(g, actions) && SignalSets !in actions && !g.signalled
    ensures !Run(g, actions).signalled
    decreases |actions|
  {
    if actions != [] {
      assert actions[0] in actions;
      SignalledOnlyBySignal(Step(g, actions[0]), actions[1..]);
    }
  }

  /** No effect, direct or queued, has run while the gate is still pending, nor in any run in which
      nobody signalled readiness. */
  lemma NoEffectBeforeSignal(g: Gate, actions: seq<Action>)
    requires Reached(g, actions)
    requires g.readiness.Pending? || SignalSets !in actions
    ensures g.ranDirect == [] && g.ranQueued == []
  {
    ReachedInv(g, actions);
    if SignalSets !in actions { SignalledOnlyBySignal(INITIAL, actions); }
  }

  lemma {:induction false} OnlySignalSetsSignalled(g: Gate, actions: seq<Action>)
    requires AllEnabled(g, actions) && Run(g, actions).signalled && !g.signalled
    ensures SignalSets in actions
  {
    if SignalSets !in actions { SignalledOnlyBySignal(g, actions); }
  }

  /** Unless a signal opened the gate first, every caller that comes back, queued or not, comes back with
      a startup error that some fail call announced, except for those that saw a signal and ran their
      effect themselves. */
  lemma AfterFailureCallersGetTheError(g: Gate, actions: seq<Action>, id: CommandId)
    requires Reached(g, actions) && !g.commandReady.Open?
    requires id in g.callers && (g.callers[id].Finished? || g.callers[id].Answered?)
    ensures || (g.callers[id].exit.StartupFailed? && g.callers[id].exit.message in g.failures)
            || (g.callers[id].Finished? && id in g.ranDirect && SignalSets in actions)
    ensures g.callers[id].Answered? ==>
              g.commandReady.Rejected? && g.callers[id].exit == StartupFailed(g.commandReady.message)
  {
    ReachedInv(g, actions);
    if g.callers[id].Answered? {
      assert id in g.results && SettledCount(g) > 0;
    } else if id in g.ranDirect {
      OnlySignalSetsSignalled(INITIAL, actions);
    }
  }

  // ----- Failure silences the queue exactly when it settles the gate first.

  lemma {:induction false} RunAppend(g: Gate, xs: seq<Action>, ys: seq<Action>)
    requires AllEnabled(g, xs) && AllEnabled(Run(g, xs), ys)
    ensures AllEnabled(g, xs + ys) && Run(g, xs + ys) == Run(Run(g, xs), ys)
    decreases |xs|
  {
    hide Step, Enabled;
    if xs == [] {
      assert xs + ys == ys;
    } else {
      assert (xs + ys)[1..] == xs[1..] + ys;
      RunAppend(Step(g, xs[0]), xs[1..], ys);
    }
  }

  lemma RunOne(g: Gate, a: Action)
    requires Enabled(g, a)
    ensures AllEnabled(g, [a]) && Run(g, [a]) == Step(g, a)
  {
    hide Step, Enabled;
    assert [a][1..] == [];
    assert AllEnabled(Step(g, a), []);
  }

  lemma RunTwo(g: Gate, a: Action, b: Action)
    requires Enabled(g, a) && Enabled(Step(g, a), b)
    ensures AllEnabled(g, [a, b]) && Run(g, [a, b]) == Step(Step(g, a), b)
  {
    hide Step, Enabled, AllEnabled, Run;
    RunOne(g, a);
    RunOne(Step(g, a), b);
    RunAppend(g, [a], [b]);
    assert [a] + [b] == [a, b];
  }

  lemma ReachedFurther(g: Gate, actions: seq<Action>, more: seq<Action>)
    requires Reached(g, actions) && AllEnabled(g, more)
    ensures Reached(Run(g, more), actions + more)
  {
    RunAppend(INITIAL, actions, more);
  }

  /** No queued effect ran, and whoever was queued and has an answer got this startup error. */
  ghost predicate Silenced(g: Gate, message: string) {
    && g.ranQueued == []
    && (forall id :: id in g.results ==> g.results[id] == StartupFailed(message))
    && (forall id :: id in g.callers && g.callers[id].Answered? ==> g.callers[id].exit == StartupFailed(message))
  }

  /** Once a fail call has settled the gate, no queued effect has run or ever runs, and every queued
      caller gets that startup error, whatever signals and failures follow. */
  lemma RejectedGateStaysSilent(g: Gate, actions: seq<Action>, more: seq<Action>)
    requires Reached(g, actions) && g.commandReady.Rejected? && AllEnabled(g, more)
    ensures Run(g, more).commandReady == g.commandReady
    ensures Silenced(g, g.commandReady.message) && Silenced(Run(g, more), g.commandReady.message)
  {
    ReachedInv(g, actions);
    ReachedFurther(g, actions, more);
    ReachedInv(Run(g, more), actions + more);
    FirstSettlementIsFinal(g, more);
    SilencedBehindRejection(g);
    SilencedBehindRejection(Run(g, more));
  }

  lemma SilencedBehindRejection(g: Gate)
    requires Inv(g) && g.commandReady.Rejected?
    ensures Silenced(g, g.commandReady.message)
  {}

  ghost predicate NeverRunsQueued(g: Gate) {
    forall more :: AllEnabled(g, more) ==> Run(g, more).ranQueued == []
  }

  /** Some command is queued, or a caller is about to queue one. */
  ghost predicate SomethingQueued(g: Gate) {
    g.offered != [] || exists id :: id in g.callers && g.callers[id].Queueing?
  }

  /** With a settled gate, no queued effect ever runs, in any continuation, exactly when the gate was
      settled by a failure or nothing was ever queued. */
  lemma QueueIsSilentIff(g: Gate, actions: seq<Action>)
    requires Reached(g, actions) && !g.commandReady.Unsettled?
    ensures NeverRunsQueued(g) <==> g.commandReady.Rejected? || !SomethingQueued(g)
  {
    ReachedInv(g, actions);
    if g.commandReady.Rejected? {
      forall more | AllEnabled(g, more) ensures Run(g, more).ranQueued == [] {
        RejectedGateStaysSilent(g, actions, more);
      }
    } else if SomethingQueued(g) {
      var more := OpenGateRunsWhatIsQueued(g, actions);
    } else {
      forall more | AllEnabled(g, more) ensures Run(g, more).ranQueued == [] {
        NobodyQueuesLate(g, actions, more);
      }
    }
  }

  /** Behind an open gate nobody starts to queue, so an empty queue stays empty. */
  lemma {:induction false} NobodyQueuesLate(g: Gate, actions: seq<Action>, more: seq<Action>)
    requires Reached(g, actions) && g.commandReady.Open? && !SomethingQueued(g) && AllEnabled(g, more)
    ensures Run(g, more).ranQueued == []
    decreases |more|
  {
    ReachedInv(g, actions);
    if more == [] {
      NothingOfferedNothingRan(g);
    } else {
      hide Inv, Step, Enabled, SomethingQueued;
      RunOne(g, more[0]);
      ReachedFurther(g, actions, [more[0]]);
      NobodyStartsQueueing(g, more[0]);
      NobodyQueuesLate(Step(g, more[0]), actions + [more[0]], more[1..]);
    }
  }

  lemma NothingOfferedNothingRan(g: Gate)
    requires Inv(g) && !SomethingQueued(g)
    ensures g.ranQueued == []
  {}

  lemma NobodyStartsQueueing(g: Gate, a: Action)
    requires Inv(g) && g.commandReady.Open? && !SomethingQueued(g) && Enabled(g, a)
    ensures Step(g, a).commandReady.Open? && !SomethingQueued(Step(g, a))
  {
    hide QueueInv, EffectInv, QueuedCallerInv, DirectCallerInv;
    var h := Step(g, a);
    forall id | id in h.callers ensures !h.callers[id].Queueing? {
      assert id in g.callers ==> !g.callers[id].Queueing?;
    }
  }

  /** Behind an open gate the worker can run the effects of all that is queued. */
  lemma OpenGateRunsWhatIsQueued(g: Gate, actions: seq<Action>) returns (more: seq<Action>)
    requires Reached(g, actions) && g.commandReady.Open? && SomethingQueued(g)
    ensures AllEnabled(g, more)
    ensures g.offered <= Run(g, more).ranQueued && Run(g, more).ranQueued != []
  {
    ReachedInv(g, actions);
    if g.offered != [] {
      more := WorkerDrainsQueue(g);
      EverythingRan(g, Run(g, more));
    } else {
      var id :| id in g.callers && g.callers[id].Queueing?;
      var offered := Step(g, Offers(id));
      StepKeepsInv(g, Offers(id));
      var rest := WorkerDrainsQueue(offered);
      more := [Offers(id)] + rest;
      assert more[1..] == rest;
      EverythingRan(offered, Run(offered, rest));
    }
  }

  lemma EverythingRan(g: Gate, h: Gate)
    requires g.commandReady.Open? && Inv(h) && h.commandReady == g.commandReady
    requires h.worker.Taking? && h.queue == [] && h.offered == g.offered
    ensures h.ranQueued == g.offered
  {
    assert h.offered[..PassedCount(h)] == h.offered;
  }

  /** Queued commands run in offer order, none is skipped and none runs twice; the commands the
      worker has let go of are exactly the settled ones. */
  lemma QueuedRunInOfferOrder(g: Gate, actions: seq<Action>)
    requires Reached(g, actions)
    ensures g.ranQueued <= g.offered && Distinct(g.ranQueued)
    ensures g.commandReady.Open? ==> |g.ranQueued| == PassedCount(g)
    ensures 0 <= SettledCount(g) <= |g.offered|
    ensures forall id :: id in g.results <==> id in g.offered[..SettledCount(g)]
  {
    ReachedInv(g, actions);
  }

  /** No command's effect runs twice, by whatever road. */
  lemma EachEffectRunsAtMostOnce(g: Gate, actions: seq<Action>)
    requires Reached(g, actions)
    ensures Distinct(g.ranQueued + g.ranDirect)
  {
    ReachedInv(g, actions);
    DisjointRuns(g);
  }

  lemma DisjointRuns(g: Gate)
    requires Inv(g)
    ensures Distinct(g.ranQueued + g.ranDirect)
  {
    forall i, j | 0 <= i < |g.ranQueued| && 0 <= j < |g.ranDirect|
      ensures g.ranQueued[i] != g.ranDirect[j]
    {
      assert g.ranQueued[i] in g.offered;
      assert g.ranDirect[j] in g.ranDirect;
    }
  }

  /** A result cell is never settled a second time: the worker always finds it open. */
  lemma ResultsSettleOnce(g: Gate, actions: seq<Action>)
    requires Reached(g, actions) && g.worker.Settling?
    ensures g.worker.id !in g.results
  {
    ReachedInv(g, actions);
    SettleKeepsQueue(g);
  }

  /** The worker cannot get stuck behind a settled gate: from every state of every run some worker
      steps alone settle every command offered so far. */
  lemma {:induction false} WorkerDrainsQueue(g: Gate) returns (actions: seq<Action>)
    requires Inv(g) && !g.commandReady.Unsettled?
    ensures AllEnabled(g, actions)
    ensures forall a :: a in actions ==> a.Takes? || a.Executes? || a.Rejects? || a.Settles?
    ensures var h := Run(g, actions);
            && h.offered == g.offered && h.queue == [] && (forall id :: id in h.offered ==> id in h.results)
            && Inv(h) && h.worker.Taking? && h.commandReady == g.commandReady
    decreases |g.queue|, if g.worker.Taking? then 0 else if g.worker.Settling? then 1 else 2
  {
    if g.worker.Taking? && g.queue == [] {
      actions := [];
      assert g.offered[..SettledCount(g)] == g.offered;
    } else {
      var next := if g.worker.Taking? then Takes
                  else if g.worker.Settling? then Settles
                  else if g.commandReady.Open? then Executes(Succeeded(0))
                  else Rejects;
      StepKeepsInv(g, next);
      var rest := WorkerDrainsQueue(Step(g, next));
      actions := [next] + rest;
      assert actions[1..] == rest;
    }
  }

  /** The first settlement of the gate is final: later signal and fail calls do not change it. */
  lemma {:induction false} FirstSettlementIsFinal(g: Gate, actions: seq<Action>)
    requires AllEnabled(g, actions) && !g.commandReady.Unsettled?
    ensures Run(g, actions).commandReady == g.commandReady
    decreases |actions|
  {
    if actions != [] {
      FirstSettlementIsFinal(Step(g, actions[0]), actions[1..]);
    }
  }

  /** A failure announced after the gate opened splits the callers. It changes nothing for the queue:
      from there the worker can still run every effect that was held or queued, and the gate stays open
      in every continuation; a newcomer is turned away. */
  lemma LateFailureSplitsCallers(g: Gate, actions: seq<Action>, message: string, newcomer: CommandId)
    returns (failed: Gate, more: seq<Action>)
    requires Reached(g, actions) && g.commandReady.Open? && newcomer !in g.callers
    ensures Reached(failed, actions + [FailSets(message), FailRejects(message)])
    ensures failed == g.(readiness := Failed(message), failures := g.failures + {message})
    ensures AllEnabled(failed, more) && Run(failed, more).ranQueued == g.offered
    ensures forall others :: AllEnabled(failed, others) ==> Run(failed, others).commandReady.Open?
    ensures Step(failed, Reads(newcomer)).callers[newcomer] == Finished(StartupFailed(message))
  {
    var fail := [FailSets(message), FailRejects(message)];
    RunTwo(g, FailSets(message), FailRejects(message));
    ReachedFurther(g, actions, fail);
    failed := Run(g, fail);
    ReachedInv(failed, actions + fail);
    more := WorkerDrainsQueue(failed);
    EverythingRan(failed, Run(failed, more));
    forall others | AllEnabled(failed, others) ensures Run(failed, others).commandReady.Open? {
      FirstSettlementIsFinal(failed, others);
    }
  }

  /** A command is queued, the gate opens, startup fails after all. */
  function LateFailureRun(): seq<Action> {
    [Reads(0), Offers(0), SignalSets, SignalOpens] + [FailSets("late"), FailRejects("late")]
  }

  function WorkerRun(): seq<Action> { [Takes, Executes(Succeeded(7))] + [Settles, Answers(0)] }

  /** Such a run exists: a command queued before the signal runs after the later failure, and its caller
      gets the effect's result. */
  lemma QueuedCommandOutlivesFailure()
    ensures AllEnabled(INITIAL, LateFailureRun() + WorkerRun())
    ensures var g := Run(INITIAL, LateFailureRun() + WorkerRun());
            && g.readiness == Failed("late") && g.commandReady.Open?
            && g.ranQueued == [0] && 0 in g.callers && g.callers[0] == Answered(Succeeded(7))
  {
    var queued := INITIAL.(callers := map[0 := Waiting], queue := [0], offered := [0]);
    QueueingOne(queued);
    var open := queued.(readiness := Ready, commandReady := Open, signalled := true);
    OpeningGate(queued, open);
    var late := open.(readiness := Failed("late"), failures := {"late"});
    FailingLate(open, late);
    RunAppend(INITIAL, [Reads(0), Offers(0)], [SignalSets, SignalOpens]);
    assert [Reads(0), Offers(0)] + [SignalSets, SignalOpens] == [Reads(0), Offers(0), SignalSets, SignalOpens];
    RunAppend(INITIAL, [Reads(0), Offers(0), SignalSets, SignalOpens], [FailSets("late"), FailRejects("late")]);
    RunningLate(late);
    RunAppend(INITIAL, LateFailureRun(), WorkerRun());
  }

  lemma QueueingOne(queued: Gate)
    requires queued == INITIAL.(callers := map[0 := Waiting], queue := [0], offered := [0])
    ensures AllEnabled(INITIAL, [Reads(0), Offers(0)]) && Run(INITIAL, [Reads(0), Offers(0)]) == queued
  {
    RunTwo(INITIAL, Reads(0), Offers(0));
  }

  lemma OpeningGate(g: Gate, open: Gate)
    requires g.commandReady.Unsettled?
    requires open == g.(readiness := Ready, commandReady := Open, signalled := true)
    ensures AllEnabled(g, [SignalSets, SignalOpens]) && Run(g, [SignalSets, SignalOpens]) == open
  {
    RunTwo(g, SignalSets, SignalOpens);
  }

  lemma FailingLate(g: Gate, late: Gate)
    requires g.commandReady.Open? && g.failures == {}
    requires late == g.(readiness := Failed("late"), failures := {"late"})
    ensures AllEnabled(g, [FailSets("late"), FailRejects("late")])
    ensures Run(g, [FailSets("late"), FailRejects("late")]) == late
  {
    RunTwo(g, FailSets("late"), FailRejects("late"));
  }

  lemma RunningLate(g: Gate)
    requires g.commandReady.Open? && g.worker.Taking? && g.queue == [0] && g.ranQueued == [] && g.results == map[]
    requires g.callers == map[0 := Waiting]
    ensures AllEnabled(g, WorkerRun())
    ensures var h := Run(g, WorkerRun());
            && h.readiness == g.readiness && h.commandReady == g.commandReady
            && h.ranQueued == [0] && 0 in h.callers && h.callers[0] == Answered(Succeeded(7))
  {
    RunTwo(g, Takes, Executes(Succeeded(7)));
    var ran := Run(g, [Takes, Executes(Succeeded(7))]);
    RunTwo(ran, Settles, Answers(0));
    RunAppend(g, [Takes, Executes(Succeeded(7))], [Settles, Answers(0)]);
  }
}
