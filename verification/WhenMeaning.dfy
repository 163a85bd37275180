/** What a `when` condition means, told without its evaluator: the clauses of its disjunctive normal
    form, each a set of names that must hold and a set of names that must not. */
module WhenMeaning {
  import opened WhenLanguage
  import opened Dispatch

  datatype Clause = Clause(positive: set<string>, negative: set<string>)

  function Both(xs: set<Clause>, ys: set<Clause>): set<Clause> {
    set x, y | x in xs && y in ys :: Clause(x.positive + y.positive, x.negative + y.negative)
  }

  /** The ways in which the condition comes out as wanted. */
  function Clauses(node: Node, wanted: bool): set<Clause> {
    match node
    case Name(name) => {if wanted then Clause({name}, {}) else Clause({}, {name})}
    case Not(inner) => Clauses(inner, !wanted)
    case And(left, right) =>
      if wanted then Both(Clauses(left, true), Clauses(right, true)) else Clauses(left, false) + Clauses(right, false)
    case Or(left, right) =>
      if wanted then Clauses(left, true) + Clauses(right, true) else Both(Clauses(left, false), Clauses(right, false))
  }

  /** "true" and "false" are fixed, every other name is up to the context. */
  predicate IsTrue(name: string, context: Context) { name == "true" || (name != "false" && context(name)) }

  predicate Holds(clause: Clause, context: Context) {
    && (forall name :: name in clause.positive ==> IsTrue(name, context))
    && (forall name :: name in clause.negative ==> !IsTrue(name, context))
  }

  ghost predicate SomeHolds(clauses: set<Clause>, context: Context) {
    exists clause :: clause in clauses && Holds(clause, context)
  }

  lemma UnionHolds(xs: set<Clause>, ys: set<Clause>, context: Context)
    ensures SomeHolds(xs + ys, context) <==> SomeHolds(xs, context) || SomeHolds(ys, context)
  {
    if x :| x in xs && Holds(x, context) { assert x in xs + ys; }
    if y :| y in ys && Holds(y, context) { assert y in xs + ys; }
  }

  lemma BothHold(xs: set<Clause>, ys: set<Clause>, context: Context)
    ensures SomeHolds(Both(xs, ys), context) <==> SomeHolds(xs, context) && SomeHolds(ys, context)
  {
    if SomeHolds(xs, context) && SomeHolds(ys, context) {
      var x :| x in xs && Holds(x, context);
      var y :| y in ys && Holds(y, context);
      var both := Clause(x.positive + y.positive, x.negative + y.negative);
      assert both in Both(xs, ys) && Holds(both, context);
    }
    if both :| both in Both(xs, ys) && Holds(both, context) {
      var x, y :| x in xs && y in ys && both == Clause(x.positive + y.positive, x.negative + y.negative);
      assert Holds(x, context) && Holds(y, context);
    }
  }

  /** A condition comes out as wanted exactly when all the literals of one of its clauses hold. */
  lemma {:induction false} EvaluatesIffClauseHolds(node: Node, context: Context, wanted: bool)
    ensures Evaluate(node, context) == wanted <==> SomeHolds(Clauses(node, wanted), context)
  {
    hide SomeHolds, Both;
    match node
    case Name(name) => OneLiteral(name, context, wanted);
    case Not(inner) => EvaluatesIffClauseHolds(inner, context, !wanted);
    case And(left, right) =>
      EvaluatesIffClauseHolds(left, context, wanted);
      EvaluatesIffClauseHolds(right, context, wanted);
      UnionHolds(Clauses(left, wanted), Clauses(right, wanted), context);
      BothHold(Clauses(left, wanted), Clauses(right, wanted), context);
    case Or(left, right) =>
      EvaluatesIffClauseHolds(left, context, wanted);
      EvaluatesIffClauseHolds(right, context, wanted);
      UnionHolds(Clauses(left, wanted), Clauses(right, wanted), context);
      BothHold(Clauses(left, wanted), Clauses(right, wanted), context);
  }

  lemma OneLiteral(name: string, context: Context, wanted: bool)
    ensures SomeHolds({if wanted then Clause({name}, {}) else Clause({}, {name})}, context) <==> IsTrue(name, context) == wanted
  {
    var clause := if wanted then Clause({name}, {}) else Clause({}, {name});
    assert Holds(clause, context) <==> IsTrue(name, context) == wanted;
    assert clause in {clause};
  }
}
