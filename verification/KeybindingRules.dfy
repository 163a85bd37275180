/** Compiling keybinding rules, and the codec `ResolvedKeybindingFromConfig` between a rule's text and its
    compiled form. The server stores the text: see `KeybindingStore`. */
module KeybindingRules {
  import opened Text
  import opened WhenLanguage
  import opened WhenText
  import opened Shortcut

  datatype Rule = Rule(key: string, command: string, when: Option<string>)

  datatype ResolvedRule = ResolvedRule(command: string, shortcut: KeybindingShortcut, whenAst: Option<Node>)

  function Compile(rule: Rule, maxDepth: nat): Option<ResolvedRule> {
    match ParseShortcut(rule.key)
    case None => None
    case Some(shortcut) =>
      match rule.when
      case None => Some(ResolvedRule(rule.command, shortcut, None))
      case Some(text) =>
        match ParseWhen(text, maxDepth)
        case None => None
        case Some(ast) => Some(ResolvedRule(rule.command, shortcut, Some(ast)))
  }

  method CompileResolvedKeybindingRule(rule: Rule, maxDepth: nat) returns (resolved: Option<ResolvedRule>)
    ensures resolved == Compile(rule, maxDepth)
  {
    var shortcut := ParseKeybindingShortcut(rule.key);
    if shortcut.None? { return None; }
    if rule.when.Some? {
      var whenAst := ParseKeybindingWhenExpression(rule.when.value, maxDepth);
      if whenAst.None? { return None; }
      return Some(ResolvedRule(rule.command, shortcut.value, whenAst));
    }
    return Some(ResolvedRule(rule.command, shortcut.value, None));
  }

  // ----- The schemas around it (packages/contracts/src/keybindings.ts:58-124).

  /** The limits of the schemas: the lengths of the two texts and the nesting of a condition.
      `strict` says whether a trimming text schema refuses surrounding space in a decoded value. */
  datatype Limits = Limits(maxKey: nat, maxWhen: nat, maxDepth: nat, strict: bool)

  /** Reading a text: it is trimmed, then its length is checked. */
  function ReadText(text: string, max: nat): Option<string> {
    if 1 <= |Trim(text)| <= max then Some(Trim(text)) else None
  }

  /** Checking a text that is already decoded. */
  predicate AdmitsText(text: string, max: nat, strict: bool) {
    1 <= |text| <= max && (strict ==> Trimmed(text))
  }

  predicate AdmitsNode(node: Node) {
    match node
    case Name(name) => name != ""
    case Not(inner) => AdmitsNode(inner)
    case And(left, right) => AdmitsNode(left) && AdmitsNode(right)
    case Or(left, right) => AdmitsNode(left) && AdmitsNode(right)
  }

  predicate AdmitsResolved(resolved: ResolvedRule, limits: Limits) {
    && AdmitsText(resolved.shortcut.key, limits.maxKey, limits.strict)
    && (resolved.whenAst.Some? ==> AdmitsNode(resolved.whenAst.value))
  }

  /** Decoding with `KeybindingRule`: read both texts. */
  function ReadRule(raw: Rule, limits: Limits): Option<Rule> {
    var key := ReadText(raw.key, limits.maxKey);
    var when := if raw.when.Some? then ReadText(raw.when.value, limits.maxWhen) else None;
    if key.None? || (raw.when.Some? && when.None?) then None else Some(Rule(key.value, raw.command, when))
  }

  /** Decoding with `ResolvedKeybindingFromConfig`: read both texts, compile, check the result. */
  function DecodeRule(raw: Rule, limits: Limits): Option<ResolvedRule> {
    match ReadRule(raw, limits)
    case None => None
    case Some(rule) =>
      match Compile(rule, limits.maxDepth)
      case None => None
      case Some(resolved) => if AdmitsResolved(resolved, limits) then Some(resolved) else None
  }

  function PrintWhen(resolved: ResolvedRule): Option<string> {
    if resolved.whenAst.Some? then Some(Print(resolved.whenAst.value)) else None
  }

  /** Encoding with `ResolvedKeybindingFromConfig`: check, write both texts, check them. */
  function EncodeRule(resolved: ResolvedRule, limits: Limits): Option<Rule> {
    if !AdmitsResolved(resolved, limits) then None
    else match Encode(resolved.shortcut)
      case None => None
      case Some(key) =>
        var when := PrintWhen(resolved);
        if AdmitsText(key, limits.maxKey, limits.strict)
           && (when.Some? ==> AdmitsText(when.value, limits.maxWhen, limits.strict))
        then Some(Rule(key, resolved.command, when))
        else None
  }

  /** The loop of `compileResolvedKeybindingsConfig` keeps what decodes. */
  function CompileConfig(config: seq<Rule>, limits: Limits): (compiled: seq<ResolvedRule>)
    ensures forall b :: b in compiled ==> exists r :: r in config && DecodeRule(r, limits) == Some(b)
  {
    if config == [] then []
    else
      var front, last := config[..|config| - 1], DecodeRule(config[|config| - 1], limits);
      assert config == front + [config[|config| - 1]];
      CompileConfig(front, limits) + if last.Some? then [last.value] else []
  }

  method CompileResolvedKeybindingsConfig(config: seq<Rule>, limits: Limits) returns (compiled: seq<ResolvedRule>)
    ensures compiled == CompileConfig(config, limits)
  {
    compiled := [];
    for i := 0 to |config|
      invariant compiled == CompileConfig(config[..i], limits)
    {
      assert config[..i + 1][..i] == config[..i];
      var result := DecodeRule(config[i], limits);
      if result.Some? { compiled := compiled + [result.value]; }
    }
    assert config[..|config|] == config;
  }

  // ----- What reading a rule gives reads again as itself.

  /** A rule that was read has trimmed texts within the limits, so it reads as itself and decodes like
      the raw rule it came from. */
  lemma ReadRuleIsStable(raw: Rule, limits: Limits)
    requires ReadRule(raw, limits).Some?
    ensures var rule := ReadRule(raw, limits).value;
            ReadRule(rule, limits) == Some(rule) && DecodeRule(rule, limits) == DecodeRule(raw, limits)
  {
    TrimIsTrimmed(raw.key);
    TrimIsTrimmed(Trim(raw.key));
    if raw.when.Some? {
      TrimIsTrimmed(raw.when.value);
      TrimIsTrimmed(Trim(raw.when.value));
    }
  }

  // ----- Encoding and decoding again.

  /** A trimmed text that passes its check is read as itself. */
  lemma ReadsBack(text: string, max: nat)
    requires text != "" && Trimmed(text)
    ensures ReadText(text, max) == if |text| <= max then Some(text) else None
  {
    TrimIsTrimmed(text);
  }

  /** A compiled rule writes to trimmed texts, which compile back to it exactly within the depth limit. */
  lemma CompiledRuleRewrites(rule: Rule, maxDepth: nat)
    requires Compile(rule, maxDepth).Some?
    ensures var resolved := Compile(rule, maxDepth).value;
            var key, when := Encode(resolved.shortcut), PrintWhen(resolved);
            && key.Some? && key.value != "" && Trimmed(key.value)
            && (when.Some? ==> when.value != "" && Trimmed(when.value))
            && Compile(Rule(key.value, resolved.command, when), maxDepth) ==
               if resolved.whenAst.Some? && PrintedNesting(resolved.whenAst.value) > maxDepth
               then None else Some(resolved)
  {
    ParsedKeyIsCanonical(rule.key);
    EncodingIsTrimmed(ParseShortcut(rule.key).value);
    ParsedShortcutReparses(rule.key);
    if rule.when.Some? {
      ParsedNamesAreValid(rule.when.value, maxDepth);
      PrintIsTrimmed(ParseWhen(rule.when.value, maxDepth).value);
      ReparsesIff(rule.when.value, maxDepth);
    }
  }

  predicate FitsLimits(resolved: ResolvedRule, limits: Limits)
    requires Encode(resolved.shortcut).Some?
  {
    && |Encode(resolved.shortcut).value| <= limits.maxKey
    && (resolved.whenAst.Some? ==> |Print(resolved.whenAst.value)| <= limits.maxWhen)
  }

  /** A rule that was decoded can be encoded exactly when both of its written texts are within their
      length limits; what was encoded decodes as the same rule exactly when the condition also prints
      within the depth limit, and is dropped as invalid otherwise. */
  lemma EncodedRuleDecodesIff(raw: Rule, limits: Limits)
    requires DecodeRule(raw, limits).Some?
    ensures var resolved := DecodeRule(raw, limits).value;
            var encoded := EncodeRule(resolved, limits);
            && Encode(resolved.shortcut).Some?
            && (encoded.Some? <==> FitsLimits(resolved, limits))
            && (encoded.Some? ==>
                  DecodeRule(encoded.value, limits) ==
                  if resolved.whenAst.Some? && PrintedNesting(resolved.whenAst.value) > limits.maxDepth
                  then None else Some(resolved))
  {
    hide Compile, Encode, Print, Trim, Trimmed, AdmitsNode, PrintedNesting;
    CompiledRuleRewrites(ReadRule(raw, limits).value, limits.maxDepth);
    var resolved := DecodeRule(raw, limits).value;
    ReadsBack(Encode(resolved.shortcut).value, limits.maxKey);
    if resolved.whenAst.Some? { ReadsBack(PrintWhen(resolved).value, limits.maxWhen); }
  }

  lemma {:induction false} ChainLengths(n: nat)
    ensures |ChainText(n)| == 5 * n + 1
    ensures |Print(AndTree(ChainPhrase(n)))| == 7 * n + 1
    ensures AdmitsNode(AndTree(ChainPhrase(n)))
    ensures Trimmed(ChainText(n))
  {
    if n > 0 { ChainLengths(n - 1); }
  }

  lemma PlainLetter()
    ensures var s := KeybindingShortcut("a", false, false, false, false, false);
            Encode(s) == Some("a") && ParseShortcut("a") == Some(s)
  {
    var s := KeybindingShortcut("a", false, false, false, false, false);
    assert Modifiers(s) + ["a"] == ["a"];
    assert CanonicalKey("a");
    CanonicalRoundTrip(s);
  }

  /** A condition short enough to be read may be too long to be encoded: each further name of a flat
      chain costs five characters to read and seven to write. */
  lemma LongConditionCannotBeEncoded(command: string, n: nat, limits: Limits)
    requires limits.maxKey >= 1 && 5 * n + 1 <= limits.maxWhen < 7 * n + 1
    ensures var raw := Rule("a", command, Some(ChainText(n)));
            DecodeRule(raw, limits).Some? && EncodeRule(DecodeRule(raw, limits).value, limits).None?
  {
    hide Encode, Print, ParseShortcut, ParseWhen, ChainText, ChainPhrase;
    var raw := Rule("a", command, Some(ChainText(n)));
    PlainLetter();
    ChainLengths(n);
    ChainParses(n, limits.maxDepth);
    ReadsBack("a", limits.maxKey);
    ReadsBack(ChainText(n), limits.maxWhen);
    EncodedRuleDecodesIff(raw, limits);
  }

  // ----- For which limits the codec is a round trip.

  /** Every rule that was decoded and encoded decodes as the same rule. */
  ghost predicate CodecRoundTrips(limits: Limits) {
    forall raw :: DecodeRule(raw, limits).Some? ==>
      var resolved := DecodeRule(raw, limits).value;
      var encoded := EncodeRule(resolved, limits);
      encoded.Some? ==> DecodeRule(encoded.value, limits) == Some(resolved)
  }

  lemma {:induction false} NotsAreAdmitted(n: nat)
    ensures AdmitsNode(UnaryTree(NotsPhrase(n)))
  {
    if n > 0 {
      NotsAreAdmitted(n - 1);
    } else {
      assert UnaryTree(NotsPhrase(0)) == Not(Name("a")) by {
        SingleShape(Negated(Plain(Word("a"))), 0, 0);
        GroupedShape(Single(Negated(Plain(Word("a")))), 0, 0);
      }
    }
  }

  /** A condition with as many `!` as allowed before a group nests one level deeper once it is encoded. */
  lemma NotsOutgrowTheLimit(command: string, limits: Limits)
    requires limits.maxKey > 0 && limits.maxDepth > 0 && limits.maxWhen >= 3 * limits.maxDepth + 4
    ensures var raw := Rule("a", command, Some(NotsText(limits.maxDepth)));
            && DecodeRule(raw, limits).Some?
            && EncodeRule(DecodeRule(raw, limits).value, limits).Some?
            && DecodeRule(EncodeRule(DecodeRule(raw, limits).value, limits).value, limits).None?
  {
    hide Encode, Print, ParseShortcut, ParseWhen, NotsText, NotsPhrase, PrintedNesting;
    var n := limits.maxDepth;
    var raw := Rule("a", command, Some(NotsText(n)));
    PlainLetter();
    NotsShape(n, n);
    NotsAreAdmitted(n);
    NotsParse(n, n);
    ReadsBack("a", limits.maxKey);
    ReadsBack(NotsText(n), limits.maxWhen);
    EncodedRuleDecodesIff(raw, limits);
  }

  /** The codec is a round trip on what it encodes exactly when a condition that is short enough cannot
      nest too deeply: three characters a level. */
  lemma CodecRoundTripsIff(limits: Limits)
    requires limits.maxKey > 0 && limits.maxDepth > 0
    ensures CodecRoundTrips(limits) <==> limits.maxWhen < 3 * limits.maxDepth + 4
  {
    hide DecodeRule, EncodeRule;
    if limits.maxWhen >= 3 * limits.maxDepth + 4 {
      NotsOutgrowTheLimit("", limits);
    } else {
      forall raw | DecodeRule(raw, limits).Some? && EncodeRule(DecodeRule(raw, limits).value, limits).Some?
        ensures var resolved := DecodeRule(raw, limits).value;
                DecodeRule(EncodeRule(resolved, limits).value, limits) == Some(resolved)
      {
        EncodedRuleDecodesIff(raw, limits);
        ConditionIsShallow(raw, limits);
      }
    }
  }

  lemma ConditionIsShallow(raw: Rule, limits: Limits)
    requires DecodeRule(raw, limits).Some?
    ensures var whenAst := DecodeRule(raw, limits).value.whenAst;
            whenAst.Some? ==> |Print(whenAst.value)| >= 3 * PrintedNesting(whenAst.value) + 1
  {
    if raw.when.Some? {
      var when := ReadText(raw.when.value, limits.maxWhen).value;
      ParsedNamesAreValid(when, limits.maxDepth);
      NestingCosts(ParseWhen(when, limits.maxDepth).value);
    }
  }

  /** With the limits of the source it is not. */
  lemma SourceLimitsBreakRoundTrip(strict: bool)
    ensures !CodecRoundTrips(Limits(64, 256, 64, strict))
  {
    CodecRoundTripsIff(Limits(64, 256, 64, strict));
  }
}
