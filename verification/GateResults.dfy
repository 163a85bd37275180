/** What a caller of the startup gate gets: what its own effect came to, told by the actions of the run. */
module GateResults {
  import opened Text
  import opened CommandGate

  /** What the effects that the worker ran came to, in order. */
  function Exits(actions: seq<Action>): seq<Exit>
    decreases |actions|
  {
    if actions == [] then []
    else (if actions[0].Executes? then [actions[0].exit] else []) + Exits(actions[1..])
  }

  /** Behind an open gate the command that ran k-th has, or is about to have, the k-th of these exits. */
  ghost predicate ExitInv(g: Gate, exits: seq<Exit>) {
    var n := |g.ranQueued|;
    && |exits| == n
    && (g.commandReady.Open? ==>
          && (g.worker.Settling? ==> n > 0 && g.ranQueued[n - 1] == g.worker.id && exits[n - 1] == g.worker.exit)
          && (forall k :: 0 <= k < n - (if g.worker.Settling? then 1 else 0) ==>
                g.ranQueued[k] in g.results && g.results[g.ranQueued[k]] == exits[k]))
  }

  lemma ExecutingKeepsExits(g: Gate, exit: Exit, exits: seq<Exit>)
    requires ExitInv(g, exits) && Enabled(g, Executes(exit))
    ensures ExitInv(Step(g, Executes(exit)), exits + [exit])
  {}

  lemma SettlingKeepsExits(g: Gate, exits: seq<Exit>)
    requires ExitInv(g, exits) && g.worker.Settling? && g.worker.id !in g.results
    ensures ExitInv(Step(g, Settles), exits)
  {}

  lemma OtherStepsKeepExits(g: Gate, a: Action, exits: seq<Exit>)
    requires ExitInv(g, exits) && Enabled(g, a) && !a.Executes? && !a.Settles?
    requires g.commandReady.Unsettled? ==> g.ranQueued == [] && !g.worker.Settling?
    ensures ExitInv(Step(g, a), exits)
  {}

  lemma HeldBehindGate(g: Gate)
    requires Inv(g)
    ensures g.worker.Settling? ==> g.worker.id !in g.results
    ensures g.commandReady.Unsettled? ==> g.ranQueued == [] && !g.worker.Settling?
  {
    hide QueuedCallerInv, DirectCallerInv, ControlInv;
    if g.worker.Settling? { HeldIsUnsettled(g); }
  }

  lemma StepKeepsExits(g: Gate, a: Action, exits: seq<Exit>)
    requires Inv(g) && ExitInv(g, exits) && Enabled(g, a)
    ensures ExitInv(Step(g, a), exits + if a.Executes? then [a.exit] else [])
  {
    HeldBehindGate(g);
    hide Inv, ExitInv, Step;
    assert exits + [] == exits;
    match a
    case Executes(exit) => ExecutingKeepsExits(g, exit, exits);
    case Settles => SettlingKeepsExits(g, exits);
    case _ => OtherStepsKeepExits(g, a, exits);
  }

  lemma {:induction false} RunKeepsExits(g: Gate, actions: seq<Action>, exits: seq<Exit>)
    requires Inv(g) && ExitInv(g, exits) && AllEnabled(g, actions)
    ensures Inv(Run(g, actions)) && ExitInv(Run(g, actions), exits + Exits(actions))
    decreases |actions|
  {
    hide Inv, ExitInv, Step, Enabled;
    if actions == [] {
      assert exits + [] == exits;
    } else {
      var a := actions[0];
      var more := if a.Executes? then [a.exit] else [];
      StepKeepsInv(g, a);
      StepKeepsExits(g, a, exits);
      RunKeepsExits(Step(g, a), actions[1..], exits + more);
      assert exits + more + Exits(actions[1..]) == exits + (more + Exits(actions[1..]));
    }
  }

  lemma NothingRan()
    ensures Inv(INITIAL) && ExitInv(INITIAL, [])
  {
    InitialInv(INITIAL);
  }

  /** In every reached state behind an open gate, the worker has run as many effects as there are queued
      commands that ran, and the result of each, and every answer read from it, is what its own effect
      came to: a value, a failure, or anything else. */
  lemma QueuedResultsAreOwn(g: Gate, actions: seq<Action>)
    requires Reached(g, actions) && g.commandReady.Open?
    ensures |Exits(actions)| == |g.ranQueued|
    ensures forall id :: id in g.results ==>
              exists k :: 0 <= k < |g.ranQueued| && g.ranQueued[k] == id && g.results[id] == Exits(actions)[k]
    ensures forall id :: id in g.callers && g.callers[id].Answered? ==>
              exists k :: 0 <= k < |g.ranQueued| && g.ranQueued[k] == id && g.callers[id].exit == Exits(actions)[k]
  {
    NothingRan();
    RunKeepsExits(INITIAL, actions, []);
    assert [] + Exits(actions) == Exits(actions);
    forall id | id in g.results
      ensures exists k :: 0 <= k < |g.ranQueued| && g.ranQueued[k] == id && g.results[id] == Exits(actions)[k]
    {
      var k := ResultIndex(g, id);
      hide Inv;
      assert g.ranQueued[k] == id && g.results[id] == Exits(actions)[k];
    }
    AnswersAreResults(g);
    hide Inv, ExitInv;
  }

  lemma ResultIndex(g: Gate, id: CommandId) returns (k: nat)
    requires Inv(g) && g.commandReady.Open? && id in g.results
    ensures k < |g.ranQueued| - (if g.worker.Settling? then 1 else 0) && g.ranQueued[k] == id
  {
    hide QueuedCallerInv, DirectCallerInv, ControlInv;
    assert id in g.offered[..SettledCount(g)];
    k :| 0 <= k < SettledCount(g) && g.offered[..SettledCount(g)][k] == id;
  }

  lemma AnswersAreResults(g: Gate)
    requires Inv(g)
    ensures forall id :: id in g.callers && g.callers[id].Answered? ==> id in g.results && g.callers[id].exit == g.results[id]
  {}

  // ----- Commands that ran directly.

  ghost predicate RanDirectly(g: Gate, id: CommandId, exit: Exit) {
    id in g.ranDirect && id in g.callers && g.callers[id] == Finished(exit)
  }

  lemma StepRunsDirectly(g: Gate, a: Action, id: CommandId, exit: Exit)
    requires Inv(g) && Enabled(g, a)
    ensures RanDirectly(Step(g, a), id, exit) <==> RanDirectly(g, id, exit) || a == RunsDirect(id, exit)
  {
    hide QueueInv, EffectInv, ControlInv;
  }

  lemma {:induction false} RunRunsDirectly(g: Gate, actions: seq<Action>, id: CommandId, exit: Exit)
    requires Inv(g) && AllEnabled(g, actions)
    ensures RanDirectly(Run(g, actions), id, exit) <==> RanDirectly(g, id, exit) || RunsDirect(id, exit) in actions
    decreases |actions|
  {
    hide Inv, Step, Enabled, RanDirectly;
    if actions != [] {
      StepKeepsInv(g, actions[0]);
      StepRunsDirectly(g, actions[0], id, exit);
      RunRunsDirectly(Step(g, actions[0]), actions[1..], id, exit);
      assert RunsDirect(id, exit) in actions <==> RunsDirect(id, exit) == actions[0] || RunsDirect(id, exit) in actions[1..];
    }
  }

  /** In every reached state a caller that ran directly came back with this exit exactly when its own
      effect came to it. */
  lemma DirectResultsAreOwn(g: Gate, actions: seq<Action>, id: CommandId, exit: Exit)
    requires Reached(g, actions)
    ensures RanDirectly(g, id, exit) <==> RunsDirect(id, exit) in actions
  {
    NothingRan();
    RunRunsDirectly(INITIAL, actions, id, exit);
  }

  // ----- What newcomers read.

  /** The readiness that the actions leave, the last announcement winning. */
  function Announced(before: Readiness, actions: seq<Action>): Readiness
    decreases |actions|
  {
    if actions == [] then before
    else
      Announced(match actions[0]
                case SignalSets => Ready
                case FailSets(m) => Failed(m)
                case _ => before, actions[1..])
  }

  lemma {:induction false} ReadinessFrom(g: Gate, actions: seq<Action>)
    requires AllEnabled(g, actions)
    ensures Run(g, actions).readiness == Announced(g.readiness, actions)
    decreases |actions|
  {
    if actions != [] { ReadinessFrom(Step(g, actions[0]), actions[1..]); }
  }

  /** In every reached state, a newcomer runs at once after a signal, is turned away with the failure
      after a failure, and queues before either: the last announcement counts. */
  lemma NewcomerByHistory(g: Gate, actions: seq<Action>, id: CommandId)
    requires Reached(g, actions) && id !in g.callers
    ensures Step(g, Reads(id)).callers[id] ==
            match Announced(Pending, actions)
            case Ready => Running
            case Failed(m) => Finished(StartupFailed(m))
            case Pending => Queueing
  {
    ReadinessFrom(INITIAL, actions);
  }
}
