/** The recursive-descent parser over a token list. `ParseOr` and its companions say what each
    method of the imperative parser returns; the grammar theorem says what that is. */
module WhenParser {
  import opened Text
  import opened WhenLanguage

  datatype Parsed = Reject | Accept(node: Node, next: nat)

  function ParsePrimary(tokens: seq<Token>, index: nat, depth: nat, max: nat): (r: Parsed)
    ensures r.Accept? ==> index < r.next <= |tokens|
    decreases |tokens| - index, 0
  {
    if depth > max || index >= |tokens| then Reject
    else match tokens[index]
      case Identifier(name) => Accept(Name(name), index + 1)
      case LParen =>
        (match ParseOr(tokens, index + 1, depth + 1, max)
         case Reject => Reject
         case Accept(node, next) =>
           if next < |tokens| && tokens[next] == RParen then Accept(node, next + 1) else Reject)
      case _ => Reject
  }

  function CountNots(tokens: seq<Token>, index: nat): (n: nat)
    ensures index <= |tokens| ==> index + n <= |tokens|
    decreases |tokens| - index
  {
    if index < |tokens| && tokens[index] == NotTok then 1 + CountNots(tokens, index + 1) else 0
  }

  function Wrap(node: Node, nots: nat): Node {
    if nots == 0 then node else Not(Wrap(node, nots - 1))
  }

  function ParseUnary(tokens: seq<Token>, index: nat, depth: nat, max: nat): (r: Parsed)
    ensures r.Accept? ==> index < r.next <= |tokens|
    decreases |tokens| - index, 1
  {
    var nots := CountNots(tokens, index);
    if nots > max then Reject
    else match ParsePrimary(tokens, index + nots, depth, max)
      case Reject => Reject
      case Accept(node, next) => Accept(Wrap(node, nots), next)
  }

  function AndRest(tokens: seq<Token>, index: nat, left: Node, depth: nat, max: nat): (r: Parsed)
    requires index <= |tokens|
    ensures r.Accept? ==> index <= r.next <= |tokens|
    ensures r.Accept? && r.next < |tokens| ==> tokens[r.next] != AndTok
    decreases |tokens| - index, 2
  {
    if index < |tokens| && tokens[index] == AndTok then
      match ParseUnary(tokens, index + 1, depth, max)
      case Reject => Reject
      case Accept(right, next) => AndRest(tokens, next, And(left, right), depth, max)
    else Accept(left, index)
  }

  function ParseAnd(tokens: seq<Token>, index: nat, depth: nat, max: nat): (r: Parsed)
    ensures r.Accept? ==> index < r.next <= |tokens|
    ensures r.Accept? && r.next < |tokens| ==> tokens[r.next] != AndTok
    decreases |tokens| - index, 3
  {
    match ParseUnary(tokens, index, depth, max)
    case Reject => Reject
    case Accept(left, next) => AndRest(tokens, next, left, depth, max)
  }

  function OrRest(tokens: seq<Token>, index: nat, left: Node, depth: nat, max: nat): (r: Parsed)
    requires index <= |tokens|
    ensures r.Accept? ==> index <= r.next <= |tokens|
    decreases |tokens| - index, 4
  {
    if index < |tokens| && tokens[index] == OrTok then
      match ParseAnd(tokens, index + 1, depth, max)
      case Reject => Reject
      case Accept(right, next) => OrRest(tokens, next, Or(left, right), depth, max)
    else Accept(left, index)
  }

  function ParseOr(tokens: seq<Token>, index: nat, depth: nat, max: nat): (r: Parsed)
    ensures r.Accept? ==> index < r.next <= |tokens|
    decreases |tokens| - index, 5
  {
    match ParseAnd(tokens, index, depth, max)
    case Reject => Reject
    case Accept(left, next) => OrRest(tokens, next, left, depth, max)
  }

  /** `parseOr(0)` must consume every token. */
  function ParseTokens(tokens: seq<Token>, max: nat): Option<Node> {
    match ParseOr(tokens, 0, 0, max)
    case Reject => None
    case Accept(node, next) => if next == |tokens| then Some(node) else None
  }

  /** The outcome of a parser method against what was expected of it. */
  ghost predicate Agrees(expected: Parsed, node: Option<Node>, index: nat) {
    match expected
    case Reject => node.None?
    case Accept(n, next) => node == Some(n) && index == next
  }

  /** The closure of `parseKeybindingWhenExpression`: the token list and a mutable `index`. */
  class Parser {
    const tokens: seq<Token>
    const maxDepth: nat
    var index: nat

    constructor (tokens: seq<Token>, maxDepth: nat)
      ensures this.tokens == tokens && this.maxDepth == maxDepth && index == 0
    {
      this.tokens, this.maxDepth, index := tokens, maxDepth, 0;
    }

    method Primary(depth: nat) returns (node: Option<Node>)
      requires index <= |tokens|
      modifies this`index
      ensures old(index) <= index <= |tokens|
      ensures Agrees(ParsePrimary(tokens, old(index), depth, maxDepth), node, index)
      decreases |tokens| - index, 0
    {
      if depth > maxDepth { return None; }
      if index == |tokens| { return None; }
      match tokens[index]
      case Identifier(value) =>
        index := index + 1;
        return Some(Name(value));
      case LParen =>
        index := index + 1;
        var expression := Or(depth + 1);
        if expression.None? || index == |tokens| || tokens[index] != RParen { return None; }
        index := index + 1;
        return expression;
      case _ => return None;
    }

    method Unary(depth: nat) returns (node: Option<Node>)
      requires index <= |tokens|
      modifies this`index
      ensures old(index) <= index <= |tokens|
      ensures Agrees(ParseUnary(tokens, old(index), depth, maxDepth), node, index)
      decreases |tokens| - index, 1
    {
      var notCount := 0;
      while index < |tokens| && tokens[index] == NotTok
        invariant old(index) <= index <= |tokens| && index == old(index) + notCount
        invariant CountNots(tokens, old(index)) == notCount + CountNots(tokens, index)
        invariant notCount <= maxDepth
        decreases |tokens| - index
      {
        index := index + 1;
        notCount := notCount + 1;
        if notCount > maxDepth { return None; }
      }
      node := Primary(depth);
      if node.None? { return None; }
      ghost var inner := node.value;
      ghost var nots := notCount;
      while notCount > 0
        invariant notCount <= nots
        invariant node == Some(Wrap(inner, nots - notCount))
      {
        node := Some(Not(node.value));
        notCount := notCount - 1;
      }
    }

    method And(depth: nat) returns (node: Option<Node>)
      requires index <= |tokens|
      modifies this`index
      ensures old(index) <= index <= |tokens|
      ensures Agrees(ParseAnd(tokens, old(index), depth, maxDepth), node, index)
      decreases |tokens| - index, 3
    {
      var left := Unary(depth);
      if left.None? { return None; }
      while index < |tokens| && tokens[index] == AndTok
        invariant old(index) < index <= |tokens| && left.Some?
        invariant ParseAnd(tokens, old(index), depth, maxDepth) ==
                  AndRest(tokens, index, left.value, depth, maxDepth)
        decreases |tokens| - index
      {
        index := index + 1;
        var right := Unary(depth);
        if right.None? { return None; }
        left := Some(WhenLanguage.And(left.value, right.value));
      }
      return left;
    }

    method Or(depth: nat) returns (node: Option<Node>)
      requires index <= |tokens|
      modifies this`index
      ensures old(index) <= index <= |tokens|
      ensures Agrees(ParseOr(tokens, old(index), depth, maxDepth), node, index)
      decreases |tokens| - index, 5
    {
      var left := And(depth);
      if left.None? { return None; }
      while index < |tokens| && tokens[index] == OrTok
        invariant old(index) < index <= |tokens| && left.Some?
        invariant ParseOr(tokens, old(index), depth, maxDepth) ==
                  OrRest(tokens, index, left.value, depth, maxDepth)
        decreases |tokens| - index
      {
        index := index + 1;
        var right := And(depth);
        if right.None? { return None; }
        left := Some(WhenLanguage.Or(left.value, right.value));
      }
      return left;
    }
  }

  method ParseAll(tokens: seq<Token>, maxDepth: nat) returns (ast: Option<Node>)
    ensures ast == ParseTokens(tokens, maxDepth)
  {
    var parser := new Parser(tokens, maxDepth);
    ast := parser.Or(0);
    if ast.None? || parser.index != |tokens| { return None; }
  }

  // ----- The parser accepts exactly the grammar. Completeness: every phrase within the limits is parsed.

  /** `phrase` occurs in `tokens` at `index`. */
  predicate At(tokens: seq<Token>, index: nat, phrase: seq<Token>) {
    index + |phrase| <= |tokens| && tokens[index..index + |phrase|] == phrase
  }

  lemma AtSplit(tokens: seq<Token>, index: nat, a: seq<Token>, b: seq<Token>)
    requires At(tokens, index, a + b)
    ensures At(tokens, index, a) && At(tokens, index + |a|, b)
  {
    var all := tokens[index..index + |a + b|];
    assert all[..|a|] == a && all[|a|..] == b;
  }

  lemma AtToken(tokens: seq<Token>, index: nat, token: Token)
    requires At(tokens, index, [token])
    ensures index < |tokens| && tokens[index] == token
  {
    assert tokens[index] == tokens[index..index + 1][0];
  }

  lemma {:induction false} PrimaryComplete(tokens: seq<Token>, index: nat, e: Primary, depth: nat, max: nat)
    requires At(tokens, index, PrimaryText(e)) && PrimaryFits(e, depth, max)
    ensures ParsePrimary(tokens, index, depth, max) == Accept(PrimaryTree(e), index + |PrimaryText(e)|)
    decreases e
  {
    match e
    case Word(name) => assert tokens[index] == PrimaryText(e)[0];
    case Group(body) =>
      AtSplit(tokens, index, [LParen] + OrText(body), [RParen]);
      AtSplit(tokens, index, [LParen], OrText(body));
      var close := index + 1 + |OrText(body)|;
      assert tokens[index] == tokens[index..index + 1][0];
      assert tokens[close] == tokens[close..close + 1][0];
      OrComplete(tokens, index + 1, body, depth + 1, max);
  }

  lemma {:induction false} NotsComplete(tokens: seq<Token>, index: nat, e: Unary)
    requires At(tokens, index, UnaryText(e))
    ensures CountNots(tokens, index) == NotCount(e)
    ensures UnaryTree(e) == Wrap(PrimaryTree(PrimaryOf(e)), NotCount(e))
    ensures |UnaryText(e)| == NotCount(e) + |PrimaryText(PrimaryOf(e))|
    ensures At(tokens, index + NotCount(e), PrimaryText(PrimaryOf(e)))
    decreases e
  {
    match e
    case Plain(p) => assert tokens[index] == tokens[index..index + |PrimaryText(p)|][0];
    case Negated(u) =>
      AtSplit(tokens, index, [NotTok], UnaryText(u));
      assert tokens[index] == tokens[index..index + 1][0];
      NotsComplete(tokens, index + 1, u);
  }

  lemma {:induction false} InnerFitsPrimary(e: Unary, depth: nat, max: nat)
    requires InnerFits(e, depth, max)
    ensures PrimaryFits(PrimaryOf(e), depth, max)
    ensures PrimaryOf(e) < e
  {
    if e.Negated? { InnerFitsPrimary(e.inner, depth, max); }
  }

  lemma {:induction false} UnaryComplete(tokens: seq<Token>, index: nat, e: Unary, depth: nat, max: nat)
    requires At(tokens, index, UnaryText(e)) && UnaryFits(e, depth, max)
    ensures ParseUnary(tokens, index, depth, max) == Accept(UnaryTree(e), index + |UnaryText(e)|)
    decreases e
  {
    NotsComplete(tokens, index, e);
    InnerFitsPrimary(e, depth, max);
    PrimaryComplete(tokens, index + NotCount(e), PrimaryOf(e), depth, max);
  }

  lemma {:induction false} AndComplete(tokens: seq<Token>, index: nat, e: AndChain, depth: nat, max: nat)
    requires At(tokens, index, AndText(e)) && AndFits(e, depth, max)
    ensures ParseAnd(tokens, index, depth, max) ==
            AndRest(tokens, index + |AndText(e)|, AndTree(e), depth, max)
    decreases e
  {
    hide At, ParseUnary, UnaryText, UnaryTree, UnaryFits;
    match e
    case OneUnary(u) => UnaryComplete(tokens, index, u, depth, max);
    case MoreAnd(init, u) =>
      AtSplit(tokens, index, AndText(init) + [AndTok], UnaryText(u));
      AtSplit(tokens, index, AndText(init), [AndTok]);
      var op := index + |AndText(init)|;
      AtToken(tokens, op, AndTok);
      AndComplete(tokens, index, init, depth, max);
      UnaryComplete(tokens, op + 1, u, depth, max);
  }

  lemma {:induction false} OrComplete(tokens: seq<Token>, index: nat, e: OrChain, depth: nat, max: nat)
    requires At(tokens, index, OrText(e)) && OrFits(e, depth, max)
    requires var next := index + |OrText(e)|; next < |tokens| ==> tokens[next] != AndTok
    ensures ParseOr(tokens, index, depth, max) ==
            OrRest(tokens, index + |OrText(e)|, OrTree(e), depth, max)
    decreases e
  {
    hide At, ParseUnary, AndText, AndTree, AndFits;
    match e
    case OneAnd(a) => AndComplete(tokens, index, a, depth, max);
    case MoreOr(init, a) =>
      AtSplit(tokens, index, OrText(init) + [OrTok], AndText(a));
      AtSplit(tokens, index, OrText(init), [OrTok]);
      var op := index + |OrText(init)|;
      AtToken(tokens, op, OrTok);
      OrComplete(tokens, index, init, depth, max);
      AndComplete(tokens, op + 1, a, depth, max);
  }

  // ----- Soundness: whatever is parsed is a phrase within the limits, read as the grammar reads it.

  function Prefixed(p: Primary, nots: nat): Unary {
    if nots == 0 then Plain(p) else Negated(Prefixed(p, nots - 1))
  }

  lemma {:induction false} PrefixedShape(p: Primary, nots: nat, depth: nat, max: nat)
    ensures UnaryTree(Prefixed(p, nots)) == Wrap(PrimaryTree(p), nots)
    ensures NotCount(Prefixed(p, nots)) == nots
    ensures InnerFits(Prefixed(p, nots), depth, max) == PrimaryFits(p, depth, max)
    ensures UnaryText(Prefixed(p, nots)) == seq(nots, _ => NotTok) + PrimaryText(p)
  {
    if nots > 0 {
      PrefixedShape(p, nots - 1, depth, max);
      assert seq<Token>(nots, _ => NotTok) == [NotTok] + seq<Token>(nots - 1, _ => NotTok);
    }
  }

  lemma {:induction false} CountedNots(tokens: seq<Token>, index: nat)
    requires index <= |tokens|
    ensures tokens[index..index + CountNots(tokens, index)] == seq(CountNots(tokens, index), _ => NotTok)
    decreases |tokens| - index
  {
    if index < |tokens| && tokens[index] == NotTok {
      CountedNots(tokens, index + 1);
      var n := CountNots(tokens, index);
      assert tokens[index..index + n] == [NotTok] + tokens[index + 1..index + n];
    }
  }

  lemma {:induction false} PrimarySound(tokens: seq<Token>, index: nat, depth: nat, max: nat) returns (e: Primary)
    requires ParsePrimary(tokens, index, depth, max).Accept?
    ensures var r := ParsePrimary(tokens, index, depth, max);
            PrimaryTree(e) == r.node && PrimaryText(e) == tokens[index..r.next] && PrimaryFits(e, depth, max)
    decreases |tokens| - index, 0
  {
    match tokens[index]
    case Identifier(name) => e := Word(name);
    case LParen =>
      var body := OrSound(tokens, index + 1, depth + 1, max);
      var close := ParseOr(tokens, index + 1, depth + 1, max).next;
      assert tokens[index..close + 1] == [LParen] + tokens[index + 1..close] + [RParen];
      e := Group(body);
    case _ =>
  }

  lemma {:induction false} UnarySound(tokens: seq<Token>, index: nat, depth: nat, max: nat) returns (e: Unary)
    requires index <= |tokens| && ParseUnary(tokens, index, depth, max).Accept?
    ensures var r := ParseUnary(tokens, index, depth, max);
            UnaryTree(e) == r.node && UnaryText(e) == tokens[index..r.next] && UnaryFits(e, depth, max)
    decreases |tokens| - index, 1
  {
    var nots := CountNots(tokens, index);
    var p := PrimarySound(tokens, index + nots, depth, max);
    var next := ParseUnary(tokens, index, depth, max).next;
    PrefixedShape(p, nots, depth, max);
    CountedNots(tokens, index);
    assert tokens[index..next] == tokens[index..index + nots] + tokens[index + nots..next];
    e := Prefixed(p, nots);
  }

  lemma {:induction false} AndRestSound(tokens: seq<Token>, start: nat, index: nat, left: AndChain, depth: nat, max: nat)
    returns (e: AndChain)
    requires start <= index <= |tokens| && AndText(left) == tokens[start..index] && AndFits(left, depth, max)
    requires AndRest(tokens, index, AndTree(left), depth, max).Accept?
    ensures var r := AndRest(tokens, index, AndTree(left), depth, max);
            AndTree(e) == r.node && AndText(e) == tokens[start..r.next] && AndFits(e, depth, max)
    decreases |tokens| - index, 2
  {
    if index < |tokens| && tokens[index] == AndTok {
      var u := UnarySound(tokens, index + 1, depth, max);
      var next := ParseUnary(tokens, index + 1, depth, max).next;
      assert tokens[start..next] == tokens[start..index] + [AndTok] + tokens[index + 1..next];
      e := AndRestSound(tokens, start, next, MoreAnd(left, u), depth, max);
    } else {
      e := left;
    }
  }

  lemma {:induction false} AndSound(tokens: seq<Token>, index: nat, depth: nat, max: nat) returns (e: AndChain)
    requires index <= |tokens| && ParseAnd(tokens, index, depth, max).Accept?
    ensures var r := ParseAnd(tokens, index, depth, max);
            AndTree(e) == r.node && AndText(e) == tokens[index..r.next] && AndFits(e, depth, max)
    decreases |tokens| - index, 3
  {
    var u := UnarySound(tokens, index, depth, max);
    e := AndRestSound(tokens, index, ParseUnary(tokens, index, depth, max).next, OneUnary(u), depth, max);
  }

  lemma {:induction false} OrRestSound(tokens: seq<Token>, start: nat, index: nat, left: OrChain, depth: nat, max: nat)
    returns (e: OrChain)
    requires start <= index <= |tokens| && OrText(left) == tokens[start..index] && OrFits(left, depth, max)
    requires OrRest(tokens, index, OrTree(left), depth, max).Accept?
    ensures var r := OrRest(tokens, index, OrTree(left), depth, max);
            OrTree(e) == r.node && OrText(e) == tokens[start..r.next] && OrFits(e, depth, max)
    decreases |tokens| - index, 4
  {
    if index < |tokens| && tokens[index] == OrTok {
      var a := AndSound(tokens, index + 1, depth, max);
      var next := ParseAnd(tokens, index + 1, depth, max).next;
      assert tokens[start..next] == tokens[start..index] + [OrTok] + tokens[index + 1..next];
      e := OrRestSound(tokens, start, next, MoreOr(left, a), depth, max);
    } else {
      e := left;
    }
  }

  lemma {:induction false} OrSound(tokens: seq<Token>, index: nat, depth: nat, max: nat) returns (e: OrChain)
    requires index <= |tokens| && ParseOr(tokens, index, depth, max).Accept?
    ensures var r := ParseOr(tokens, index, depth, max);
            OrTree(e) == r.node && OrText(e) == tokens[index..r.next] && OrFits(e, depth, max)
    decreases |tokens| - index, 5
  {
    var a := AndSound(tokens, index, depth, max);
    e := OrRestSound(tokens, index, ParseAnd(tokens, index, depth, max).next, OneAnd(a), depth, max);
  }

  /** The parser accepts a token list as `node` exactly when the list is, in full, a phrase of the
      grammar within the limits that denotes `node`: `!` binds tighter than `&&`, `&&` tighter than
      `||`, and chains associate to the left. */
  lemma ParserMeetsGrammar(tokens: seq<Token>, max: nat, node: Node)
    ensures ParseTokens(tokens, max) == Some(node) <==>
            exists e :: OrText(e) == tokens && OrTree(e) == node && OrFits(e, 0, max)
  {
    if ParseTokens(tokens, max) == Some(node) {
      var e := OrSound(tokens, 0, 0, max);
      assert tokens[0..|tokens|] == tokens;
      assert OrText(e) == tokens && OrTree(e) == node && OrFits(e, 0, max);
    }
    if e :| OrText(e) == tokens && OrTree(e) == node && OrFits(e, 0, max) {
      assert tokens[0..|tokens|] == tokens;
      OrComplete(tokens, 0, e, 0, max);
    }
  }
}
