/** What a keybinding rule in the file needs to be taken, and which of the user's rules stand in for a
    default, told by the shortcuts and conditions the texts stand for. */
module RuleMeaning {
  import opened Text
  import opened WhenLanguage
  import opened WhenText
  import opened Shortcut
  import opened KeybindingRules
  import opened KeybindingStore

  // ----- Which rules decode.

  /** `text` is what is written between space and space, and is not too long. */
  ghost predicate Written(raw: string, text: string, max: nat) {
    && text != "" && Trimmed(text) && |text| <= max
    && exists before, after :: AllSpace(before) && AllSpace(after) && raw == before + (text + after)
  }

  lemma ReadsWritten(raw: string, max: nat, text: string)
    ensures ReadText(raw, max) == Some(text) <==> Written(raw, text, max)
  {
    hide Trim;
    if text != "" { TrimFinds(raw, text); }
  }

  /** The key gives the shortcut, whose key is a word within the limit; a strict schema refuses the space bar. */
  ghost predicate GivesShortcut(raw: Rule, shortcut: KeybindingShortcut, limits: Limits) {
    && (exists key :: Written(raw.key, key, limits.maxKey) && ParseShortcut(key) == Some(shortcut))
    && |shortcut.key| <= limits.maxKey && (limits.strict ==> shortcut.key != " ")
  }

  ghost predicate GivesCondition(raw: Rule, condition: Option<Node>, limits: Limits) {
    if raw.when.None? then condition.None?
    else condition.Some? && exists when :: Written(raw.when.value, when, limits.maxWhen) && ParseWhen(when, limits.maxDepth) == condition
  }

  lemma {:induction false} ValidIsAdmitted(node: Node)
    requires ValidNames(node)
    ensures AdmitsNode(node)
  {
    match node
    case Name(name) =>
    case Not(inner) => ValidIsAdmitted(inner);
    case And(left, right) => ValidIsAdmitted(left); ValidIsAdmitted(right);
    case Or(left, right) => ValidIsAdmitted(left); ValidIsAdmitted(right);
  }

  lemma CanonicalIsAdmitted(key: string, limits: Limits)
    requires CanonicalKey(key)
    ensures AdmitsText(key, limits.maxKey, limits.strict) <==> |key| <= limits.maxKey && (limits.strict ==> key != " ")
  {}

  /** A rule decodes exactly to its command with the shortcut and the condition that its texts give. */
  lemma RuleDecodesIff(raw: Rule, limits: Limits, resolved: ResolvedRule)
    ensures DecodeRule(raw, limits) == Some(resolved) <==>
            && resolved.command == raw.command
            && GivesShortcut(raw, resolved.shortcut, limits)
            && GivesCondition(raw, resolved.whenAst, limits)
  {
    hide ReadText, ParseShortcut, ParseWhen, AdmitsText, AdmitsNode, Written, CanonicalKey;
    forall text ensures ReadText(raw.key, limits.maxKey) == Some(text) <==> Written(raw.key, text, limits.maxKey) {
      ReadsWritten(raw.key, limits.maxKey, text);
    }
    if raw.when.Some? {
      forall text ensures ReadText(raw.when.value, limits.maxWhen) == Some(text) <==> Written(raw.when.value, text, limits.maxWhen) {
        ReadsWritten(raw.when.value, limits.maxWhen, text);
      }
    }
    forall key | ParseShortcut(key).Some?
      ensures var k := ParseShortcut(key).value.key;
              AdmitsText(k, limits.maxKey, limits.strict) <==> |k| <= limits.maxKey && (limits.strict ==> k != " ")
    {
      ParsedKeyIsCanonical(key);
      CanonicalIsAdmitted(ParseShortcut(key).value.key, limits);
    }
    forall when | ParseWhen(when, limits.maxDepth).Some? ensures AdmitsNode(ParseWhen(when, limits.maxDepth).value) {
      ParsedNamesAreValid(when, limits.maxDepth);
      ValidIsAdmitted(ParseWhen(when, limits.maxDepth).value);
    }
  }

  function NamesIn(node: Node): set<string> {
    match node
    case Name(name) => {name}
    case Not(inner) => NamesIn(inner)
    case And(left, right) => NamesIn(left) + NamesIn(right)
    case Or(left, right) => NamesIn(left) + NamesIn(right)
  }

  /** A condition is admitted exactly when none of its names is empty. */
  lemma {:induction false} AdmittedIff(node: Node)
    ensures AdmitsNode(node) <==> "" !in NamesIn(node)
  {
    match node
    case Name(name) =>
    case Not(inner) => AdmittedIff(inner);
    case And(left, right) => AdmittedIff(left); AdmittedIff(right);
    case Or(left, right) => AdmittedIff(left); AdmittedIff(right);
  }

  // ----- Which entries load.

  /** The issues are the positions of the entries that are not taken. */
  lemma {:induction false} RefusedIff(entries: seq<Option<Rule>>, limits: Limits, issue: Issue)
    ensures issue in Refused(entries, limits) <==>
            issue.InvalidEntry? && issue.index < |entries| && Load(entries[issue.index], limits).None?
  {
    hide Load;
    if entries != [] { RefusedIff(entries[..|entries| - 1], limits, issue); }
  }

  lemma {:induction false} LoadedAppend(xs: seq<Option<Rule>>, ys: seq<Option<Rule>>, limits: Limits)
    ensures Loaded(xs + ys, limits) == Loaded(xs, limits) + Loaded(ys, limits)
    decreases |ys|
  {
    hide Load;
    if ys == [] {
      assert xs + ys == xs;
    } else {
      var n := |ys| - 1;
      assert (xs + ys)[..|xs| + n] == xs + ys[..n];
      LoadedAppend(xs, ys[..n], limits);
    }
  }

  lemma LoadIff(entry: Rule, limits: Limits, rule: Rule)
    ensures Load(Some(entry), limits) == Some(rule) <==> ReadRule(entry, limits) == Some(rule) && DecodeRule(entry, limits).Some?
  {
    if ReadRule(entry, limits).Some? { ReadRuleIsStable(entry, limits); }
  }

  lemma ReadRuleIff(entry: Rule, limits: Limits, rule: Rule)
    ensures ReadRule(entry, limits) == Some(rule) <==>
            && Written(entry.key, rule.key, limits.maxKey) && rule.command == entry.command
            && (if entry.when.None? then rule.when.None?
                else rule.when.Some? && Written(entry.when.value, rule.when.value, limits.maxWhen))
  {
    hide ReadText, Written;
    ReadsWritten(entry.key, limits.maxKey, rule.key);
    if entry.when.Some? && rule.when.Some? { ReadsWritten(entry.when.value, limits.maxWhen, rule.when.value); }
  }

  /** An entry alone loads exactly when it is a rule that decodes, as that rule without space around its texts. */
  lemma OneEntryLoads(entry: Option<Rule>, limits: Limits, rule: Rule)
    ensures Loaded([entry], limits) == [rule] <==>
            && entry.Some? && DecodeRule(entry.value, limits).Some?
            && Written(entry.value.key, rule.key, limits.maxKey) && rule.command == entry.value.command
            && (if entry.value.when.None? then rule.when.None?
                else rule.when.Some? && Written(entry.value.when.value, rule.when.value, limits.maxWhen))
    ensures |Loaded([entry], limits)| <= 1
  {
    hide ReadRule, DecodeRule, Written, Load, Loaded;
    LoadedOne(entry, limits);
    if entry.Some? {
      LoadIff(entry.value, limits, rule);
      ReadRuleIff(entry.value, limits, rule);
    } else {
      NoRuleLoads(limits);
    }
  }

  lemma LoadedOne(entry: Option<Rule>, limits: Limits)
    ensures Loaded([entry], limits) == if Load(entry, limits).Some? then [Load(entry, limits).value] else []
  {
    hide Load;
    assert [entry][..0] == [] && Loaded([], limits) == [];
  }

  lemma NoRuleLoads(limits: Limits)
    ensures Load(None, limits).None?
  {}

  // ----- Which defaults are covered.

  lemma {:induction false} NoNulLexed(s: string)
    requires Lex(s).Some?
    ensures '\U{0000}' !in s
    decreases |s|
  {
    if s != "" {
      if IsSpace(s[0]) {
        NoNulLexed(s[1..]);
        assert s == [s[0]] + s[1..];
      } else if "&&" <= s || "||" <= s {
        NoNulLexed(s[2..]);
        assert s == [s[0], s[1]] + s[2..];
      } else if s[0] in {'!', '(', ')'} {
        NoNulLexed(s[1..]);
        assert s == [s[0]] + s[1..];
      } else {
        NoNulLexed(s[IdentRun(s)..]);
        assert s == s[..IdentRun(s)] + s[IdentRun(s)..];
      }
    }
  }

  lemma SeparatorInside(a: string, b: string, c: string, d: string, sep: char)
    requires a + [sep] + b == c + [sep] + d && |a| < |c|
    ensures sep in b
  {
    assert (a + [sep] + b)[|c|] == b[|c| - |a| - 1];
  }

  /** Two texts of a key, a separator and a condition without one agree in both parts. */
  lemma LastSeparates(a: string, b: string, c: string, d: string, sep: char)
    requires sep !in b && sep !in d && a + [sep] + b == c + [sep] + d
    ensures a == c && b == d
  {
    var s := a + [sep] + b;
    if |a| < |c| { SeparatorInside(a, b, c, d, sep); }
    if |c| < |a| { SeparatorInside(c, d, a, b, sep); }
    assert a == s[..|a|] && c == s[..|c|] && b == s[|a| + 1..] && d == s[|c| + 1..];
  }

  lemma SettledTexts(rule: Rule, limits: Limits)
    requires Settled(rule, limits)
    ensures ParseShortcut(rule.key).Some?
    ensures rule.when.Some? ==> rule.when.value != "" && '\U{0000}' !in rule.when.value
  {
    hide ParseShortcut, Trim, AdmitsResolved;
    if rule.when.Some? { NoNulLexed(rule.when.value); }
  }

  lemma ContextIs(rule: Rule, limits: Limits)
    requires Settled(rule, limits)
    ensures var shortcut := ParseShortcut(rule.key);
            && shortcut.Some? && Encode(shortcut.value).Some? && ParseShortcut(Encode(shortcut.value).value) == shortcut
            && ContextOf(rule) == Some(Encode(shortcut.value).value + ['\U{0000}'] + if rule.when.Some? then rule.when.value else "")
  {
    SettledTexts(rule, limits);
    hide ParseShortcut, Encode, Settled;
    ParsedShortcutReparses(rule.key);
    EncodingIsNotEmpty(rule.key);
  }

  /** Two rules in use have the same context exactly when they have the same shortcut and the same condition. */
  lemma SameContextIff(a: Rule, b: Rule, limits: Limits)
    requires Settled(a, limits) && Settled(b, limits)
    ensures SameContext(a, b) <==> ParseShortcut(a.key) == ParseShortcut(b.key) && a.when == b.when
  {
    hide ParseShortcut, Encode, Settled, ContextOf;
    ContextIs(a, limits);
    ContextIs(b, limits);
    SettledTexts(a, limits);
    SettledTexts(b, limits);
    if SameContext(a, b) {
      LastSeparates(Encode(ParseShortcut(a.key).value).value, if a.when.Some? then a.when.value else "",
                    Encode(ParseShortcut(b.key).value).value, if b.when.Some? then b.when.value else "", '\U{0000}');
    }
  }

  lemma EncodingIsNotEmpty(key: string)
    requires ParseShortcut(key).Some?
    ensures Encode(ParseShortcut(key).value).Some? && Encode(ParseShortcut(key).value).value != ""
  {
    ParsedShortcutReparses(key);
    ParsedKeyIsCanonical(key);
    EncodingIsTrimmed(ParseShortcut(key).value);
  }

  /** A default is covered exactly by a rule of its command, or of its shortcut and condition. */
  lemma CoveredIff(d: Rule, custom: seq<Rule>, limits: Limits)
    requires Settled(d, limits) && AllSettled(custom, limits)
    ensures Covered(d, custom) <==>
            exists e :: e in custom && (e.command == d.command || (ParseShortcut(e.key) == ParseShortcut(d.key) && e.when == d.when))
  {
    hide Settled, ParseShortcut, SameContext;
    forall e | e in custom ensures SameContext(e, d) <==> ParseShortcut(e.key) == ParseShortcut(d.key) && e.when == d.when {
      SameContextIff(e, d, limits);
    }
  }

  lemma {:induction false} MissingAppend(xs: seq<Rule>, ys: seq<Rule>, custom: seq<Rule>)
    ensures MissingDefaults(xs + ys, custom) == MissingDefaults(xs, custom) + MissingDefaults(ys, custom)
    decreases |ys|
  {
    hide Covered;
    if ys == [] {
      assert xs + ys == xs;
    } else {
      var n := |ys| - 1;
      assert (xs + ys)[..|xs| + n] == xs + ys[..n];
      MissingAppend(xs, ys[..n], custom);
    }
  }
}
