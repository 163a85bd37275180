/** The `when` language of the server's keybindings (apps/server/src/keybindings.ts): tokens, syntax
    trees, and the grammar with its two nesting limits as a language of concrete syntax trees. */
module WhenLanguage {
  import opened Text

  datatype Token = Identifier(value: string) | NotTok | AndTok | OrTok | LParen | RParen

  datatype Node =
    | Name(name: string)
    | Not(node: Node)
    | And(left: Node, right: Node)
    | Or(left: Node, right: Node)

  predicate IdentStart(c: char) { IsLetter(c) || c == '_' }

  predicate IdentPart(c: char) { IdentStart(c) || IsDigit(c) || c == '.' || c == '-' }

  predicate ValidIdentifier(s: string) {
    s != "" && IdentStart(s[0]) && forall k :: 0 <= k < |s| ==> IdentPart(s[k])
  }

  // ----- Concrete syntax: left-associative chains of `||` over `&&` over `!` over primaries.

  datatype OrChain = OneAnd(only: AndChain) | MoreOr(init: OrChain, last: AndChain)
  datatype AndChain = OneUnary(only: Unary) | MoreAnd(init: AndChain, last: Unary)
  datatype Unary = Plain(primary: Primary) | Negated(inner: Unary)
  datatype Primary = Word(name: string) | Group(body: OrChain)

  function OrText(e: OrChain): seq<Token> {
    match e
    case OneAnd(a) => AndText(a)
    case MoreOr(init, a) => OrText(init) + [OrTok] + AndText(a)
  }

  function AndText(e: AndChain): seq<Token> {
    match e
    case OneUnary(u) => UnaryText(u)
    case MoreAnd(init, u) => AndText(init) + [AndTok] + UnaryText(u)
  }

  function UnaryText(e: Unary): seq<Token> {
    match e
    case Plain(p) => PrimaryText(p)
    case Negated(u) => [NotTok] + UnaryText(u)
  }

  function PrimaryText(e: Primary): seq<Token> {
    match e
    case Word(name) => [Identifier(name)]
    case Group(body) => [LParen] + OrText(body) + [RParen]
  }

  /** The syntax tree a phrase denotes. */
  function OrTree(e: OrChain): Node {
    match e
    case OneAnd(a) => AndTree(a)
    case MoreOr(init, a) => Or(OrTree(init), AndTree(a))
  }

  function AndTree(e: AndChain): Node {
    match e
    case OneUnary(u) => UnaryTree(u)
    case MoreAnd(init, u) => And(AndTree(init), UnaryTree(u))
  }

  function UnaryTree(e: Unary): Node {
    match e
    case Plain(p) => PrimaryTree(p)
    case Negated(u) => Not(UnaryTree(u))
  }

  function PrimaryTree(e: Primary): Node {
    match e
    case Word(name) => Name(name)
    case Group(body) => OrTree(body)
  }

  /** The leading `!`s of a unary phrase. */
  function NotCount(e: Unary): nat {
    match e
    case Plain(_) => 0
    case Negated(u) => 1 + NotCount(u)
  }

  function PrimaryOf(e: Unary): Primary {
    match e
    case Plain(p) => p
    case Negated(u) => PrimaryOf(u)
  }

  /** The phrase stays within the limits: parentheses nest at most `max` deep counting from `depth`,
      and no run of `!` is longer than `max`. */
  predicate OrFits(e: OrChain, depth: nat, max: nat) {
    match e
    case OneAnd(a) => AndFits(a, depth, max)
    case MoreOr(init, a) => OrFits(init, depth, max) && AndFits(a, depth, max)
  }

  predicate AndFits(e: AndChain, depth: nat, max: nat) {
    match e
    case OneUnary(u) => UnaryFits(u, depth, max)
    case MoreAnd(init, u) => AndFits(init, depth, max) && UnaryFits(u, depth, max)
  }

  predicate UnaryFits(e: Unary, depth: nat, max: nat)
    decreases e, 1
  {
    NotCount(e) <= max && InnerFits(e, depth, max)
  }

  predicate InnerFits(e: Unary, depth: nat, max: nat)
    decreases e, 0
  {
    match e
    case Plain(p) => PrimaryFits(p, depth, max)
    case Negated(u) => InnerFits(u, depth, max)
  }

  predicate PrimaryFits(e: Primary, depth: nat, max: nat) {
    depth <= max && (e.Group? ==> OrFits(e.body, depth + 1, max))
  }
}
