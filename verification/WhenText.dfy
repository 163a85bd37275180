/** Text to tokens and trees to text: the tokenizer, the printer `encodeWhenAst`, and the exact
    condition under which printed text is read back. */
module WhenText {
  import opened Text
  import opened WhenLanguage
  import opened WhenParser

  /** The longest identifier tail at the front of `s`. */
  function IdentRun(s: string): (n: nat)
    ensures n <= |s|
    ensures forall k :: 0 <= k < n ==> IdentPart(s[k])
    ensures n < |s| ==> !IdentPart(s[n])
  {
    if s != "" && IdentPart(s[0]) then 1 + IdentRun(s[1..]) else 0
  }

  function Prepend(token: Token, rest: Option<seq<Token>>): Option<seq<Token>> {
    if rest.None? then None else Some([token] + rest.value)
  }

  /** The tokens of an expression; `None` at a character no token starts with. */
  function Lex(s: string): Option<seq<Token>> {
    if s == "" then Some([])
    else if IsSpace(s[0]) then Lex(s[1..])
    else if "&&" <= s then Prepend(AndTok, Lex(s[2..]))
    else if "||" <= s then Prepend(OrTok, Lex(s[2..]))
    else if s[0] == '!' then Prepend(NotTok, Lex(s[1..]))
    else if s[0] == '(' then Prepend(LParen, Lex(s[1..]))
    else if s[0] == ')' then Prepend(RParen, Lex(s[1..]))
    else if !IdentStart(s[0]) then None
    else Prepend(Identifier(s[..IdentRun(s)]), Lex(s[IdentRun(s)..]))
  }

  function Concat(front: seq<Token>, rest: Option<seq<Token>>): Option<seq<Token>> {
    if rest.None? then None else Some(front + rest.value)
  }

  lemma ConcatEnds(front: seq<Token>, token: Token, rest: Option<seq<Token>>)
    ensures Concat([], rest) == rest
    ensures Concat(front, Some([])) == Some(front)
    ensures Concat(front, Prepend(token, rest)) == Concat(front + [token], rest)
  {
    if rest.Some? {
      assert [] + rest.value == rest.value;
      assert front + ([token] + rest.value) == front + [token] + rest.value;
    }
    assert front + [] == front;
  }

  method ScanIdentifier(expression: string, index: nat) returns (end: nat)
    requires index < |expression| && IdentStart(expression[index])
    ensures end == index + IdentRun(expression[index..]) && index < end <= |expression|
  {
    end := index;
    while end < |expression| && IdentPart(expression[end])
      invariant index <= end <= |expression|
      invariant IdentRun(expression[index..]) == end - index + IdentRun(expression[end..])
    {
      assert expression[end..][1..] == expression[end + 1..];
      end := end + 1;
    }
  }

  /** `tokenizeWhenExpression`. */
  method Tokenize(expression: string) returns (result: Option<seq<Token>>)
    ensures result == Lex(expression)
  {
    var tokens := [];
    var index := 0;
    assert expression[0..] == expression;
    ConcatEnds(tokens, NotTok, Lex(expression));
    while index < |expression|
      invariant index <= |expression|
      invariant Lex(expression) == Concat(tokens, Lex(expression[index..]))
    {
      var rest := expression[index..];
      var current := rest[0];
      assert rest[1..] == expression[index + 1..];
      if IsSpace(current) {
        index := index + 1;
      } else if "&&" <= rest {
        assert rest[2..] == expression[index + 2..];
        ConcatEnds(tokens, AndTok, Lex(rest[2..]));
        tokens := tokens + [AndTok];
        index := index + 2;
      } else if "||" <= rest {
        assert rest[2..] == expression[index + 2..];
        ConcatEnds(tokens, OrTok, Lex(rest[2..]));
        tokens := tokens + [OrTok];
        index := index + 2;
      } else if current == '!' {
        ConcatEnds(tokens, NotTok, Lex(rest[1..]));
        tokens := tokens + [NotTok];
        index := index + 1;
      } else if current == '(' {
        ConcatEnds(tokens, LParen, Lex(rest[1..]));
        tokens := tokens + [LParen];
        index := index + 1;
      } else if current == ')' {
        ConcatEnds(tokens, RParen, Lex(rest[1..]));
        tokens := tokens + [RParen];
        index := index + 1;
      } else if !IdentStart(current) {
        return None;
      } else {
        var end := ScanIdentifier(expression, index);
        assert rest[IdentRun(rest)..] == expression[end..];
        assert rest[..IdentRun(rest)] == expression[index..end];
        ConcatEnds(tokens, Identifier(expression[index..end]), Lex(expression[end..]));
        tokens := tokens + [Identifier(expression[index..end])];
        index := end;
      }
    }
    assert expression[|expression|..] == "";
    ConcatEnds(tokens, NotTok, Some([]));
    return Some(tokens);
  }

  /** What `parseKeybindingWhenExpression` returns. */
  function ParseWhen(expression: string, max: nat): Option<Node> {
    match Lex(expression)
    case None => None
    case Some(tokens) => if tokens == [] then None else ParseTokens(tokens, max)
  }

  method ParseKeybindingWhenExpression(expression: string, maxDepth: nat) returns (ast: Option<Node>)
    ensures ast == ParseWhen(expression, maxDepth)
  {
    var tokens := Tokenize(expression);
    if tokens.None? || |tokens.value| == 0 { return None; }
    ast := ParseAll(tokens.value, maxDepth);
  }

  /** `encodeWhenAst`. */
  function Print(node: Node): string {
    match node
    case Name(name) => name
    case Not(inner) => "!(" + Print(inner) + ")"
    case And(left, right) => "(" + Print(left) + " && " + Print(right) + ")"
    case Or(left, right) => "(" + Print(left) + " || " + Print(right) + ")"
  }

  ghost predicate ValidNames(node: Node) {
    match node
    case Name(name) => ValidIdentifier(name)
    case Not(inner) => ValidNames(inner)
    case And(left, right) => ValidNames(left) && ValidNames(right)
    case Or(left, right) => ValidNames(left) && ValidNames(right)
  }

  /** How deep parentheses nest in the printed form. */
  function PrintedNesting(node: Node): nat {
    match node
    case Name(_) => 0
    case Not(inner) => 1 + PrintedNesting(inner)
    case And(left, right) => 1 + Larger(PrintedNesting(left), PrintedNesting(right))
    case Or(left, right) => 1 + Larger(PrintedNesting(left), PrintedNesting(right))
  }

  function Larger(a: nat, b: nat): nat { if a >= b then a else b }

  // ----- The printed form is a phrase of the grammar denoting the tree it came from.

  function Grouped(body: OrChain): Unary { Plain(Group(body)) }

  function Single(u: Unary): OrChain { OneAnd(OneUnary(u)) }

  function AndPair(left: Unary, right: Unary): OrChain { OneAnd(MoreAnd(OneUnary(left), right)) }

  function OrPair(left: Unary, right: Unary): OrChain {
    MoreOr(OneAnd(OneUnary(left)), OneUnary(right))
  }

  function PrintedUnary(node: Node): Unary {
    match node
    case Name(name) => Plain(Word(name))
    case Not(inner) => Negated(Grouped(Single(PrintedUnary(inner))))
    case And(left, right) => Grouped(AndPair(PrintedUnary(left), PrintedUnary(right)))
    case Or(left, right) => Grouped(OrPair(PrintedUnary(left), PrintedUnary(right)))
  }

  lemma GroupedShape(body: OrChain, depth: nat, max: nat)
    ensures UnaryText(Grouped(body)) == [LParen] + OrText(body) + [RParen]
    ensures UnaryTree(Grouped(body)) == OrTree(body)
    ensures UnaryFits(Grouped(body), depth, max) <==> depth <= max && OrFits(body, depth + 1, max)
    ensures UnaryFits(Negated(Grouped(body)), depth, max) <==>
            1 <= max && depth <= max && OrFits(body, depth + 1, max)
    ensures UnaryText(Negated(Grouped(body))) == [NotTok] + UnaryText(Grouped(body))
  {
    assert NotCount(Grouped(body)) == 0 && NotCount(Negated(Grouped(body))) == 1;
    assert InnerFits(Negated(Grouped(body)), depth, max) == InnerFits(Grouped(body), depth, max);
  }

  lemma SingleShape(u: Unary, depth: nat, max: nat)
    ensures OrText(Single(u)) == UnaryText(u) && OrTree(Single(u)) == UnaryTree(u)
    ensures OrFits(Single(u), depth, max) <==> UnaryFits(u, depth, max)
  {
    assert AndText(OneUnary(u)) == UnaryText(u);
    assert AndTree(OneUnary(u)) == UnaryTree(u);
    assert AndFits(OneUnary(u), depth, max) == UnaryFits(u, depth, max);
  }

  lemma PairShape(l: Unary, r: Unary, depth: nat, max: nat)
    ensures OrText(AndPair(l, r)) == UnaryText(l) + [AndTok] + UnaryText(r)
    ensures OrText(OrPair(l, r)) == UnaryText(l) + [OrTok] + UnaryText(r)
    ensures OrTree(AndPair(l, r)) == And(UnaryTree(l), UnaryTree(r))
    ensures OrTree(OrPair(l, r)) == Or(UnaryTree(l), UnaryTree(r))
    ensures OrFits(AndPair(l, r), depth, max) <==> UnaryFits(l, depth, max) && UnaryFits(r, depth, max)
    ensures OrFits(OrPair(l, r), depth, max) <==> UnaryFits(l, depth, max) && UnaryFits(r, depth, max)
  {
    SingleShape(l, depth, max);
    SingleShape(r, depth, max);
    assert AndText(MoreAnd(OneUnary(l), r)) == UnaryText(l) + [AndTok] + UnaryText(r);
    assert AndTree(MoreAnd(OneUnary(l), r)) == And(UnaryTree(l), UnaryTree(r));
    assert AndFits(MoreAnd(OneUnary(l), r), depth, max) == (UnaryFits(l, depth, max) && UnaryFits(r, depth, max));
  }

  /** The tokens of printed text, level by level. */
  lemma PrintedTokens(node: Node)
    ensures match node
            case Name(name) => UnaryText(PrintedUnary(node)) == [Identifier(name)]
            case Not(inner) =>
              UnaryText(PrintedUnary(node)) == [NotTok] + ([LParen] + UnaryText(PrintedUnary(inner)) + [RParen])
            case And(left, right) =>
              UnaryText(PrintedUnary(node)) ==
              [LParen] + (UnaryText(PrintedUnary(left)) + [AndTok] + UnaryText(PrintedUnary(right))) + [RParen]
            case Or(left, right) =>
              UnaryText(PrintedUnary(node)) ==
              [LParen] + (UnaryText(PrintedUnary(left)) + [OrTok] + UnaryText(PrintedUnary(right))) + [RParen]
  {
    match node
    case Name(name) => assert PrimaryText(Word(name)) == [Identifier(name)];
    case Not(inner) =>
      SingleShape(PrintedUnary(inner), 0, 0);
      GroupedShape(Single(PrintedUnary(inner)), 0, 0);
    case And(left, right) =>
      PairShape(PrintedUnary(left), PrintedUnary(right), 0, 0);
      GroupedShape(AndPair(PrintedUnary(left), PrintedUnary(right)), 0, 0);
    case Or(left, right) =>
      PairShape(PrintedUnary(left), PrintedUnary(right), 0, 0);
      GroupedShape(OrPair(PrintedUnary(left), PrintedUnary(right)), 0, 0);
  }

  function Phrase(node: Node): OrChain { Single(PrintedUnary(node)) }

  lemma {:induction false} PhraseDenotes(node: Node)
    ensures UnaryTree(PrintedUnary(node)) == node
  {
    match node
    case Name(name) => assert PrimaryTree(Word(name)) == Name(name);
    case Not(inner) =>
      PhraseDenotes(inner);
      SingleShape(PrintedUnary(inner), 0, 0);
      GroupedShape(Single(PrintedUnary(inner)), 0, 0);
    case And(left, right) =>
      PhraseDenotes(left);
      PhraseDenotes(right);
      PairShape(PrintedUnary(left), PrintedUnary(right), 0, 0);
      GroupedShape(AndPair(PrintedUnary(left), PrintedUnary(right)), 0, 0);
    case Or(left, right) =>
      PhraseDenotes(left);
      PhraseDenotes(right);
      PairShape(PrintedUnary(left), PrintedUnary(right), 0, 0);
      GroupedShape(OrPair(PrintedUnary(left), PrintedUnary(right)), 0, 0);
  }

  lemma {:induction false} PhraseFitsIff(node: Node, depth: nat, max: nat)
    ensures UnaryFits(PrintedUnary(node), depth, max) <==> depth + PrintedNesting(node) <= max
  {
    match node
    case Name(name) => assert PrimaryFits(Word(name), depth, max) <==> depth <= max;
    case Not(inner) =>
      PhraseFitsIff(inner, depth + 1, max);
      SingleShape(PrintedUnary(inner), depth + 1, max);
      GroupedShape(Single(PrintedUnary(inner)), depth, max);
    case And(left, right) =>
      PhraseFitsIff(left, depth + 1, max);
      PhraseFitsIff(right, depth + 1, max);
      PairShape(PrintedUnary(left), PrintedUnary(right), depth + 1, max);
      GroupedShape(AndPair(PrintedUnary(left), PrintedUnary(right)), depth, max);
    case Or(left, right) =>
      PhraseFitsIff(left, depth + 1, max);
      PhraseFitsIff(right, depth + 1, max);
      PairShape(PrintedUnary(left), PrintedUnary(right), depth + 1, max);
      GroupedShape(OrPair(PrintedUnary(left), PrintedUnary(right)), depth, max);
  }

  /** The text after an identifier must not extend it. */
  predicate Stops(rest: string) { rest == "" || !IdentPart(rest[0]) }

  lemma {:induction false} IdentRunStops(name: string, rest: string)
    requires (forall k :: 0 <= k < |name| ==> IdentPart(name[k])) && Stops(rest)
    ensures IdentRun(name + rest) == |name|
  {
    if name == "" {
      assert name + rest == rest;
    } else {
      IdentRunStops(name[1..], rest);
      assert (name + rest)[1..] == name[1..] + rest;
    }
  }

  lemma LexName(name: string, rest: string)
    requires ValidIdentifier(name) && Stops(rest)
    ensures Lex(name + rest) == Concat([Identifier(name)], Lex(rest))
  {
    IdentRunStops(name, rest);
    var s := name + rest;
    assert s[0] == name[0];
    assert s[..|name|] == name && s[|name|..] == rest;
  }

  lemma LexOne(c: char, token: Token, rest: string)
    requires (c, token) in {('!', NotTok), ('(', LParen), (')', RParen)}
    ensures Lex([c] + rest) == Concat([token], Lex(rest))
  {
    assert ([c] + rest)[1..] == rest;
  }

  lemma LexOperator(op: string, token: Token, rest: string)
    requires (op, token) in {(" && ", AndTok), (" || ", OrTok)}
    ensures Lex(op + rest) == Concat([token], Lex(rest))
  {
    var s := op + rest;
    var t := s[1..];
    assert t == op[1..] + rest;
    assert t[..2] == op[1..3];
    assert t[2..] == [' '] + rest;
    assert t[2..][1..] == rest;
    assert Lex(s) == Lex(t) && Lex(t[2..]) == Lex(rest);
  }

  lemma ConcatConcat(a: seq<Token>, b: seq<Token>, rest: Option<seq<Token>>)
    ensures Concat(a, Concat(b, rest)) == Concat(a + b, rest)
  {
    if rest.Some? { assert a + (b + rest.value) == a + b + rest.value; }
  }

  lemma ConcatBinary(l: seq<Token>, token: Token, r: seq<Token>, rest: Option<seq<Token>>)
    ensures Concat([LParen], Concat(l, Concat([token], Concat(r, Concat([RParen], rest))))) ==
            Concat([LParen] + (l + [token] + r) + [RParen], rest)
  {
    if rest.Some? {
      var v := rest.value;
      assert [LParen] + (l + ([token] + (r + ([RParen] + v)))) == [LParen] + (l + [token] + r) + [RParen] + v;
    }
  }

  lemma ConcatNegated(body: seq<Token>, rest: Option<seq<Token>>)
    ensures Concat([NotTok], Concat([LParen], Concat(body, Concat([RParen], rest)))) ==
            Concat([NotTok] + ([LParen] + body + [RParen]), rest)
  {
    if rest.Some? {
      var v := rest.value;
      assert [NotTok] + ([LParen] + (body + ([RParen] + v))) == [NotTok] + ([LParen] + body + [RParen]) + v;
    }
  }

  lemma LexBinary(node: Node, left: Node, right: Node, op: string, token: Token, rest: string)
    requires node == And(left, right) || node == Or(left, right)
    requires (op, token) in {(" && ", AndTok), (" || ", OrTok)}
    requires ValidNames(left) && ValidNames(right) && Stops(rest)
    ensures Lex("(" + Print(left) + op + Print(right) + ")" + rest) ==
            Concat([LParen] + (UnaryText(PrintedUnary(left)) + [token] + UnaryText(PrintedUnary(right))) + [RParen], Lex(rest))
    decreases node, 0
  {
    hide Lex, Print, PrintedUnary, UnaryText, Concat, ValidNames;
    var l, r := UnaryText(PrintedUnary(left)), UnaryText(PrintedUnary(right));
    var tail4 := ")" + rest;
    var tail3 := Print(right) + tail4;
    var tail2 := op + tail3;
    var tail1 := Print(left) + tail2;
    assert "(" + Print(left) + op + Print(right) + ")" + rest == "(" + tail1;
    LexOne('(', LParen, tail1);
    LexPrinted(left, tail2);
    LexOperator(op, token, tail3);
    LexPrinted(right, tail4);
    LexOne(')', RParen, rest);
    ConcatBinary(l, token, r, Lex(rest));
  }

  /** Tokenizing printed text gives back the tokens of its phrase. */
  lemma {:induction false} LexPrinted(node: Node, rest: string)
    requires ValidNames(node) && Stops(rest)
    ensures Lex(Print(node) + rest) == Concat(UnaryText(PrintedUnary(node)), Lex(rest))
    decreases node, 1
  {
    PrintedTokens(node);
    match node
    case Name(name) => LexName(name, rest);
    case Not(inner) =>
      var body := UnaryText(PrintedUnary(inner));
      var tail2 := ")" + rest;
      var tail1 := Print(inner) + tail2;
      assert Print(node) + rest == "!" + ("(" + tail1);
      LexOne('!', NotTok, "(" + tail1);
      LexOne('(', LParen, tail1);
      LexPrinted(inner, tail2);
      LexOne(')', RParen, rest);
      ConcatNegated(body, Lex(rest));
    case And(left, right) => LexBinary(node, left, right, " && ", AndTok, rest);
    case Or(left, right) => LexBinary(node, left, right, " || ", OrTok, rest);
  }

  lemma {:induction false} UnaryTextNonEmpty(e: Unary)
    ensures UnaryText(e) != []
  {
    match e
    case Plain(p) => assert PrimaryText(p) != [];
    case Negated(u) =>
  }

  /** `tokens` at `index` read "( l op r )". */
  lemma BinaryLayout(tokens: seq<Token>, index: nat, l: seq<Token>, op: Token, r: seq<Token>)
    requires At(tokens, index, [LParen] + (l + [op] + r) + [RParen])
    ensures tokens[index] == LParen && At(tokens, index + 1, l)
    ensures tokens[index + 1 + |l|] == op && At(tokens, index + 2 + |l|, r)
  {
    AtSplit(tokens, index, [LParen] + (l + [op] + r), [RParen]);
    AtSplit(tokens, index, [LParen], l + [op] + r);
    AtSplit(tokens, index + 1, l + [op], r);
    AtSplit(tokens, index + 1, l, [op]);
    var mid := index + 1 + |l|;
    assert tokens[index] == tokens[index..index + 1][0];
    assert tokens[mid] == tokens[mid..mid + 1][0];
  }

  lemma GroupRejected(tokens: seq<Token>, index: nat, depth: nat, max: nat)
    requires var open := index + CountNots(tokens, index);
             && open < |tokens| && tokens[open] == LParen
             && ParseOr(tokens, open + 1, depth + 1, max) == Reject
    ensures ParseUnary(tokens, index, depth, max) == Reject
  {}

  lemma PairRejected(tokens: seq<Token>, index: nat, left: Node, mid: nat, depth: nat, max: nat)
    requires mid < |tokens| && tokens[mid] in {AndTok, OrTok}
    requires || ParseUnary(tokens, index, depth, max) == Reject
             || (&& ParseUnary(tokens, index, depth, max) == Accept(left, mid)
                 && ParseUnary(tokens, mid + 1, depth, max) == Reject)
    ensures ParseOr(tokens, index, depth, max) == Reject
  {
    if ParseUnary(tokens, index, depth, max).Accept? {
      if tokens[mid] == OrTok {
        assert AndRest(tokens, mid, left, depth, max) == Accept(left, mid);
        assert ParseAnd(tokens, mid + 1, depth, max) == Reject;
        assert OrRest(tokens, mid, left, depth, max) == Reject;
      } else {
        assert AndRest(tokens, mid, left, depth, max) == Reject;
      }
    }
  }

  lemma FirstOperandRejected(tokens: seq<Token>, index: nat, depth: nat, max: nat)
    requires ParseUnary(tokens, index, depth, max) == Reject
    ensures ParseOr(tokens, index, depth, max) == Reject
  {
    hide ParseUnary;
    assert ParseAnd(tokens, index, depth, max) == Reject;
  }

  lemma {:induction false} TooDeepIsRejected(tokens: seq<Token>, index: nat, node: Node, depth: nat, max: nat)
    requires At(tokens, index, UnaryText(PrintedUnary(node)))
    requires depth + PrintedNesting(node) > max
    ensures ParseUnary(tokens, index, depth, max) == Reject
    decreases node, 1
  {
    hide At, ParseOr;
    NotsComplete(tokens, index, PrintedUnary(node));
    PrintedTokens(node);
    match node
    case Name(_) =>
    case Not(inner) =>
      TooDeepNot(tokens, index, node, inner, depth, max);
    case And(left, right) => TooDeepPair(tokens, index, node, left, right, AndTok, depth, max);
    case Or(left, right) => TooDeepPair(tokens, index, node, left, right, OrTok, depth, max);
  }

  lemma {:induction false} TooDeepNot(tokens: seq<Token>, index: nat, node: Node, inner: Node, depth: nat, max: nat)
    requires node == Not(inner) && CountNots(tokens, index) == 1
    requires At(tokens, index, [NotTok] + ([LParen] + UnaryText(PrintedUnary(inner)) + [RParen]))
    requires depth + 1 + PrintedNesting(inner) > max
    ensures ParseUnary(tokens, index, depth, max) == Reject
    decreases node, 0, 1
  {
    hide At, ParseOr, ParseUnary, PrintedUnary, UnaryText, PrintedNesting;
    var body := UnaryText(PrintedUnary(inner));
    AtSplit(tokens, index, [NotTok], [LParen] + body + [RParen]);
    AtSplit(tokens, index + 1, [LParen] + body, [RParen]);
    AtSplit(tokens, index + 1, [LParen], body);
    AtToken(tokens, index + 1, LParen);
    TooDeepIsRejected(tokens, index + 2, inner, depth + 1, max);
    FirstOperandRejected(tokens, index + 2, depth + 1, max);
    GroupRejected(tokens, index, depth, max);
  }

  lemma {:induction false} TooDeepPair(tokens: seq<Token>, index: nat, node: Node, left: Node, right: Node,
                                       op: Token, depth: nat, max: nat)
    requires node == And(left, right) || node == Or(left, right)
    requires op in {AndTok, OrTok} && CountNots(tokens, index) == 0
    requires var l, r := UnaryText(PrintedUnary(left)), UnaryText(PrintedUnary(right));
             At(tokens, index, [LParen] + (l + [op] + r) + [RParen])
    requires depth + 1 + Larger(PrintedNesting(left), PrintedNesting(right)) > max
    ensures ParseUnary(tokens, index, depth, max) == Reject
    decreases node, 0, 1
  {
    hide At, ParseOr, ParseUnary, PrintedUnary, UnaryText, PrintedNesting;
    var l, r := UnaryText(PrintedUnary(left)), UnaryText(PrintedUnary(right));
    BinaryLayout(tokens, index, l, op, r);
    LeftOrRightRejected(tokens, index + 1, node, left, right, depth + 1, max);
    PairRejected(tokens, index + 1, left, index + 1 + |l|, depth + 1, max);
    GroupRejected(tokens, index, depth, max);
  }

  /** One operand of a printed pair is too deep: it is rejected, after a left operand that fits. */
  lemma {:induction false} LeftOrRightRejected(tokens: seq<Token>, index: nat, node: Node, left: Node, right: Node, depth: nat, max: nat)
    requires node == And(left, right) || node == Or(left, right)
    requires At(tokens, index, UnaryText(PrintedUnary(left)))
    requires At(tokens, index + |UnaryText(PrintedUnary(left))| + 1, UnaryText(PrintedUnary(right)))
    requires depth + Larger(PrintedNesting(left), PrintedNesting(right)) > max
    ensures var mid := index + |UnaryText(PrintedUnary(left))|;
            || ParseUnary(tokens, index, depth, max) == Reject
            || (&& ParseUnary(tokens, index, depth, max) == Accept(left, mid)
                && ParseUnary(tokens, mid + 1, depth, max) == Reject)
    decreases node, 0, 0
  {
    hide At, ParseUnary, PrintedUnary, UnaryText;
    if depth + PrintedNesting(left) > max {
      TooDeepIsRejected(tokens, index, left, depth, max);
    } else {
      PhraseFitsIff(left, depth, max);
      PhraseDenotes(left);
      UnaryComplete(tokens, index, PrintedUnary(left), depth, max);
      TooDeepIsRejected(tokens, index + |UnaryText(PrintedUnary(left))| + 1, right, depth, max);
    }
  }

  /** Printing a tree with valid names and parsing the text returns the tree when its printed
      nesting is within the limit, and nothing when it is not. */
  lemma PrintThenParse(node: Node, max: nat)
    requires ValidNames(node)
    ensures ParseWhen(Print(node), max) == if PrintedNesting(node) <= max then Some(node) else None
  {
    var tokens := UnaryText(PrintedUnary(node));
    SingleShape(PrintedUnary(node), 0, max);
    assert Print(node) + "" == Print(node);
    LexPrinted(node, "");
    ConcatEnds(tokens, NotTok, Some([]));
    UnaryTextNonEmpty(PrintedUnary(node));
    PhraseDenotes(node);
    PhraseFitsIff(node, 0, max);
    if PrintedNesting(node) <= max {
      assert OrText(Phrase(node)) == tokens && OrTree(Phrase(node)) == node && OrFits(Phrase(node), 0, max);
      ParserMeetsGrammar(tokens, max, node);
    } else {
      assert tokens[0..|tokens|] == tokens;
      TooDeepIsRejected(tokens, 0, node, 0, max);
      FirstOperandRejected(tokens, 0, 0, max);
    }
  }

  // ----- What the parser itself returns: names are always valid, nesting need not be.

  ghost predicate TokensValid(tokens: seq<Token>) {
    forall k :: 0 <= k < |tokens| && tokens[k].Identifier? ==> ValidIdentifier(tokens[k].value)
  }

  lemma {:induction false} LexGivesValidNames(s: string)
    requires Lex(s).Some?
    ensures TokensValid(Lex(s).value)
    decreases |s|
  {
    if s == "" {
    } else if IsSpace(s[0]) {
      LexGivesValidNames(s[1..]);
    } else if "&&" <= s || "||" <= s {
      LexGivesValidNames(s[2..]);
    } else if s[0] in {'!', '(', ')'} {
      LexGivesValidNames(s[1..]);
    } else {
      LexGivesValidNames(s[IdentRun(s)..]);
    }
  }

  lemma {:induction false} OrNamesValid(e: OrChain)
    requires TokensValid(OrText(e))
    ensures ValidNames(OrTree(e))
    decreases e
  {
    match e
    case OneAnd(a) => AndNamesValid(a);
    case MoreOr(init, a) =>
      PartsValid(OrText(init) + [OrTok], AndText(a));
      PartsValid(OrText(init), [OrTok]);
      OrNamesValid(init);
      AndNamesValid(a);
  }

  lemma {:induction false} AndNamesValid(e: AndChain)
    requires TokensValid(AndText(e))
    ensures ValidNames(AndTree(e))
    decreases e
  {
    match e
    case OneUnary(u) => UnaryNamesValid(u);
    case MoreAnd(init, u) =>
      PartsValid(AndText(init) + [AndTok], UnaryText(u));
      PartsValid(AndText(init), [AndTok]);
      AndNamesValid(init);
      UnaryNamesValid(u);
  }

  lemma {:induction false} UnaryNamesValid(e: Unary)
    requires TokensValid(UnaryText(e))
    ensures ValidNames(UnaryTree(e))
    decreases e
  {
    match e
    case Plain(Word(name)) => assert PrimaryText(Word(name))[0] == Identifier(name);
    case Plain(Group(body)) =>
      GroupedShape(body, 0, 0);
      PartsValid([LParen] + OrText(body), [RParen]);
      PartsValid([LParen], OrText(body));
      OrNamesValid(body);
    case Negated(u) =>
      PartsValid([NotTok], UnaryText(u));
      UnaryNamesValid(u);
  }

  lemma PartsValid(a: seq<Token>, b: seq<Token>)
    requires TokensValid(a + b)
    ensures TokensValid(a) && TokensValid(b)
  {
    forall k | 0 <= k < |a| ensures (a + b)[k] == a[k] {}
    forall k | 0 <= k < |b| ensures (a + b)[|a| + k] == b[k] {}
  }

  /** Printing a parsed `when` clause and parsing the print keeps its tree exactly when the tree prints
      within the limit; otherwise the print is rejected. */
  lemma ReparsesIff(expression: string, max: nat)
    requires ParseWhen(expression, max).Some?
    ensures var node := ParseWhen(expression, max).value;
            ParseWhen(Print(node), max) == if PrintedNesting(node) <= max then Some(node) else None
  {
    ParsedNamesAreValid(expression, max);
    PrintThenParse(ParseWhen(expression, max).value, max);
  }

  lemma ParsedNamesAreValid(expression: string, max: nat)
    requires ParseWhen(expression, max).Some?
    ensures ValidNames(ParseWhen(expression, max).value)
  {
    var node := ParseWhen(expression, max).value;
    var tokens := Lex(expression).value;
    ParserMeetsGrammar(tokens, max, node);
    var e :| OrText(e) == tokens && OrTree(e) == node && OrFits(e, 0, max);
    LexGivesValidNames(expression);
    OrNamesValid(e);
  }

  /** What is printed is not blank and has no space around it. */
  lemma PrintIsTrimmed(node: Node)
    requires ValidNames(node)
    ensures Print(node) != "" && Trimmed(Print(node))
  {
    match node
    case Name(name) => assert IdentPart(name[|name| - 1]);
    case _ =>
  }

  /** `a && a && ... && a`: `n + 1` names. */
  function ChainText(n: nat): string {
    if n == 0 then "a" else ChainText(n - 1) + " && a"
  }

  function ChainPhrase(n: nat): AndChain {
    if n == 0 then OneUnary(Plain(Word("a"))) else MoreAnd(ChainPhrase(n - 1), Plain(Word("a")))
  }

  lemma {:induction false} ChainLexes(n: nat, rest: string)
    requires Stops(rest)
    ensures Lex(ChainText(n) + rest) == Concat(AndText(ChainPhrase(n)), Lex(rest))
  {
    hide Lex;
    if n == 0 {
      LexName("a", rest);
    } else {
      var tail := "a" + rest;
      assert ChainText(n) + rest == ChainText(n - 1) + (" && " + tail);
      ChainLexes(n - 1, " && " + tail);
      LexOperator(" && ", AndTok, tail);
      LexName("a", rest);
      var front := AndText(ChainPhrase(n - 1));
      ConcatConcat([AndTok], [Identifier("a")], Lex(rest));
      ConcatConcat(front, [AndTok] + [Identifier("a")], Lex(rest));
      assert AndText(ChainPhrase(n)) == front + ([AndTok] + [Identifier("a")]);
    }
  }

  lemma {:induction false} ChainShape(n: nat, max: nat)
    ensures AndFits(ChainPhrase(n), 0, max) && PrintedNesting(AndTree(ChainPhrase(n))) == n
    ensures AndText(ChainPhrase(n)) != []
  {
    if n > 0 { ChainShape(n - 1, max); }
  }

  lemma ChainParses(n: nat, max: nat)
    ensures ParseWhen(ChainText(n), max) == Some(AndTree(ChainPhrase(n)))
  {
    hide Lex, ParseTokens, AndFits, ChainText, ChainPhrase, AndText, AndTree;
    assert ChainText(n) + "" == ChainText(n);
    ChainLexes(n, "");
    ChainShape(n, max);
    var tokens, e := AndText(ChainPhrase(n)), OneAnd(ChainPhrase(n));
    LexNothing();
    ConcatEnds(tokens, NotTok, Some([]));
    assert OrText(e) == tokens && OrTree(e) == AndTree(ChainPhrase(n)) && OrFits(e, 0, max);
    ParserMeetsGrammar(tokens, max, OrTree(e));
  }

  lemma LexNothing()
    ensures Lex("") == Some([])
  {}

  /** A flat chain always parses, whatever its length; once longer than the limit, what it prints
      as no longer does. */
  lemma LongChainsDoNotReparse(n: nat, max: nat)
    ensures var parsed := ParseWhen(ChainText(n), max);
            && parsed.Some?
            && (ParseWhen(Print(parsed.value), max) == parsed <==> n <= max)
  {
    hide ParseWhen, Print, ChainText, ChainPhrase, AndTree;
    ChainParses(n, max);
    ChainShape(n, max);
    ReparsesIff(ChainText(n), max);
  }

  /** `!!...!(!a)`: `n` negations of a group. */
  function NotsText(n: nat): string {
    if n == 0 then "(!a)" else "!" + NotsText(n - 1)
  }

  function NotsPhrase(n: nat): Unary {
    if n == 0 then Grouped(Single(Negated(Plain(Word("a"))))) else Negated(NotsPhrase(n - 1))
  }

  lemma GroupLexes()
    ensures Lex("(!a)") == Some([LParen, NotTok, Identifier("a"), RParen])
  {
    hide Lex;
    assert "(!a)" == ['('] + "!a)" && "!a)" == ['!'] + "a)" && "a)" == "a" + ")" && ")" == [')'] + "";
    LexOne('(', LParen, "!a)");
    LexOne('!', NotTok, "a)");
    LexName("a", ")");
    LexOne(')', RParen, "");
    LexNothing();
    assert [RParen] + [] == [RParen] && [Identifier("a")] + [RParen] == [Identifier("a"), RParen];
    assert [NotTok] + [Identifier("a"), RParen] == [NotTok, Identifier("a"), RParen];
    assert [LParen] + [NotTok, Identifier("a"), RParen] == [LParen, NotTok, Identifier("a"), RParen];
  }

  lemma {:induction false} NotsLex(n: nat)
    ensures Lex(NotsText(n)) == Some(UnaryText(NotsPhrase(n)))
  {
    hide Lex;
    if n == 0 {
      GroupLexes();
      assert UnaryText(NotsPhrase(0)) == [LParen, NotTok, Identifier("a"), RParen];
    } else {
      NotsLex(n - 1);
      LexOne('!', NotTok, NotsText(n - 1));
    }
  }

  lemma {:induction false} NotsShape(n: nat, max: nat)
    requires max > 0
    ensures InnerFits(NotsPhrase(n), 0, max) && NotCount(NotsPhrase(n)) == n
    ensures PrintedNesting(UnaryTree(NotsPhrase(n))) == n + 1
    ensures |Print(UnaryTree(NotsPhrase(n)))| == 3 * n + 4
    ensures |NotsText(n)| == n + 4 && Trimmed(NotsText(n))
  {
    if n == 0 {
      var inner := Negated(Plain(Word("a")));
      SingleShape(inner, 1, max);
      GroupedShape(Single(inner), 0, max);
      assert UnaryTree(inner) == Not(Name("a")) && UnaryFits(inner, 1, max);
    } else {
      NotsShape(n - 1, max);
    }
  }

  lemma NotsParse(n: nat, max: nat)
    requires n <= max && max > 0
    ensures ParseWhen(NotsText(n), max) == Some(UnaryTree(NotsPhrase(n)))
  {
    hide Lex, ParseTokens, NotsText, NotsPhrase, Print;
    NotsLex(n);
    NotsShape(n, max);
    UnaryTextNonEmpty(NotsPhrase(n));
    var u := NotsPhrase(n);
    var e := Single(u);
    SingleShape(u, 0, max);
    assert OrText(e) == UnaryText(u) && OrTree(e) == UnaryTree(u) && OrFits(e, 0, max);
    ParserMeetsGrammar(UnaryText(u), max, UnaryTree(u));
  }

  /** Every level of nesting costs at least three characters. */
  lemma {:induction false} NestingCosts(node: Node)
    requires ValidNames(node)
    ensures |Print(node)| >= 3 * PrintedNesting(node) + 1
  {
    match node
    case Name(_) =>
    case Not(inner) => NestingCosts(inner);
    case And(left, right) =>
      NestingCosts(left);
      NestingCosts(right);
    case Or(left, right) =>
      NestingCosts(left);
      NestingCosts(right);
  }

  predicate NameStart(c: char) { 'a' <= c <= 'z' || 'A' <= c <= 'Z' || c == '_' }

  predicate NamePart(c: char) { NameStart(c) || '0' <= c <= '9' || c == '.' || c == '-' }

  /** A text is a condition of one name, its own, exactly when it has the letters of one. */
  lemma NameParsesIff(s: string, max: nat)
    ensures ParseWhen(s, max) == Some(Name(s)) <==> s != "" && NameStart(s[0]) && forall c :: c in s ==> NamePart(c)
  {
    hide ParseWhen;
    NameLetters(s);
    if ParseWhen(s, max) == Some(Name(s)) { ParsedNamesAreValid(s, max); }
    if ValidIdentifier(s) { PrintThenParse(Name(s), max); }
  }

  lemma NameLetters(s: string)
    ensures ValidIdentifier(s) <==> s != "" && NameStart(s[0]) && forall c :: c in s ==> NamePart(c)
  {
    if s != "" && NameStart(s[0]) && forall c :: c in s ==> NamePart(c) {
      forall k | 0 <= k < |s| ensures IdentPart(s[k]) { assert NamePart(s[k]); }
    }
  }

  /** Space between tokens, of any kind and amount, makes no difference. */
  lemma SpaceIsSkipped(c: char, s: string)
    requires c in {' ', '\t', '\n', '\r'}
    ensures Lex([c] + s) == Lex(s)
  {
    var t := [c] + s;
    assert t[0] == c && t[1..] == s && IsSpace(t[0]);
    assert Lex(t) == Lex(t[1..]);
  }
}
