/** The web client's keybinding dispatcher (apps/web/src/keybindings.ts): the backward scan that
    resolves a key event to a command, and the one that finds the shortcut to display. */
module Dispatch {
  import opened Text
  import opened WhenLanguage
  import opened Shortcut
  import opened KeybindingRules

  datatype KeyEvent = KeyEvent(
    key: string,
    code: Option<string>,
    metaKey: bool,
    ctrlKey: bool,
    shiftKey: bool,
    altKey: bool)

  /** The truth value of every context name, absent ones included. */
  type Context = string -> bool

  /** `EVENT_CODE_KEY_ALIASES`: keys also meant by a physical key. */
  function Alias(code: Option<string>): Option<string> {
    if code.None? then None
    else if code.value == "BracketLeft" then Some("[")
    else if code.value == "BracketRight" then Some("]")
    else if |code.value| == 6 && code.value[..5] == "Digit" && IsDigit(code.value[5]) then Some(code.value[5..])
    else None
  }

  function NormalizeEventKey(key: string): string {
    if Lower(key) == "esc" then "escape" else Lower(key)
  }

  function EventKeys(event: KeyEvent): set<string> {
    {NormalizeEventKey(event.key)} + if Alias(event.code).Some? then {Alias(event.code).value} else {}
  }

  function ExpectedMeta(s: KeybindingShortcut, mac: bool): bool { s.metaKey || (s.modKey && mac) }

  function ExpectedCtrl(s: KeybindingShortcut, mac: bool): bool { s.ctrlKey || (s.modKey && !mac) }

  function Matches(event: KeyEvent, s: KeybindingShortcut, mac: bool): bool {
    && event.metaKey == ExpectedMeta(s, mac)
    && event.ctrlKey == ExpectedCtrl(s, mac)
    && event.shiftKey == s.shiftKey
    && event.altKey == s.altKey
    && s.key in EventKeys(event)
  }

  function Evaluate(node: Node, context: Context): bool {
    match node
    case Name(name) => if name == "true" then true else if name == "false" then false else context(name)
    case Not(inner) => !Evaluate(inner, context)
    case And(left, right) => Evaluate(left, context) && Evaluate(right, context)
    case Or(left, right) => Evaluate(left, context) || Evaluate(right, context)
  }

  function Active(rule: ResolvedRule, context: Context): bool {
    rule.whenAst.None? || Evaluate(rule.whenAst.value, context)
  }

  /** A separator and the flag's name or nothing. */
  function Field(name: string, on: bool): string { if on then "|" + name else "|" }

  function ConflictSuffix(meta: bool, ctrl: bool, shift: bool, alt: bool): string {
    Field("meta", meta) + Field("ctrl", ctrl) + Field("shift", shift) + Field("alt", alt)
  }

  /** `shortcutConflictKey`: the fields joined with `|`. */
  function ConflictKey(s: KeybindingShortcut, mac: bool): string {
    s.key + ConflictSuffix(ExpectedMeta(s, mac), ExpectedCtrl(s, mac), s.shiftKey, s.altKey)
  }

  // ----- The two scans.

  function Resolve(event: KeyEvent, bindings: seq<ResolvedRule>, context: Context, mac: bool): Option<string> {
    if bindings == [] then None
    else
      var last := bindings[|bindings| - 1];
      if Active(last, context) && Matches(event, last.shortcut, mac) then Some(last.command)
      else Resolve(event, bindings[..|bindings| - 1], context, mac)
  }

  method ResolveShortcutCommand(event: KeyEvent, keybindings: seq<ResolvedRule>, context: Context, mac: bool)
    returns (command: Option<string>)
    ensures command == Resolve(event, keybindings, context, mac)
  {
    var index := |keybindings| - 1;
    assert keybindings[..|keybindings|] == keybindings;
    while index >= 0
      invariant -1 <= index < |keybindings|
      invariant Resolve(event, keybindings, context, mac) ==
                Resolve(event, keybindings[..index + 1], context, mac)
    {
      var binding := keybindings[index];
      assert keybindings[..index + 1][..index] == keybindings[..index];
      if Active(binding, context) && Matches(event, binding.shortcut, mac) {
        return Some(binding.command);
      }
      index := index - 1;
    }
    return None;
  }

  function Effective(bindings: seq<ResolvedRule>, command: string, context: Context, mac: bool,
                     claimed: set<string>): Option<KeybindingShortcut> {
    if bindings == [] then None
    else
      var last := bindings[|bindings| - 1];
      var rest := bindings[..|bindings| - 1];
      var conflictKey := ConflictKey(last.shortcut, mac);
      if !Active(last, context) || conflictKey in claimed then Effective(rest, command, context, mac, claimed)
      else if last.command == command then Some(last.shortcut)
      else Effective(rest, command, context, mac, claimed + {conflictKey})
  }

  method FindEffectiveShortcutForCommand(keybindings: seq<ResolvedRule>, command: string, context: Context, mac: bool)
    returns (shortcut: Option<KeybindingShortcut>)
    ensures shortcut == Effective(keybindings, command, context, mac, {})
  {
    var claimedShortcuts: set<string> := {};
    var index := |keybindings| - 1;
    assert keybindings[..|keybindings|] == keybindings;
    while index >= 0
      invariant -1 <= index < |keybindings|
      invariant Effective(keybindings, command, context, mac, {}) ==
                Effective(keybindings[..index + 1], command, context, mac, claimedShortcuts)
    {
      var binding := keybindings[index];
      assert keybindings[..index + 1][..index] == keybindings[..index];
      index := index - 1;
      if !Active(binding, context) { continue; }
      var conflictKey := ConflictKey(binding.shortcut, mac);
      if conflictKey in claimedShortcuts { continue; }
      claimedShortcuts := claimedShortcuts + {conflictKey};
      if binding.command == command { return Some(binding.shortcut); }
    }
    return None;
  }

  // ----- Conflict keys identify what a shortcut matches.

  function Pipes(s: string): nat {
    if s == "" then 0 else (if s[0] == '|' then 1 else 0) + Pipes(s[1..])
  }

  lemma {:induction false} PipesAppend(a: string, b: string)
    ensures Pipes(a + b) == Pipes(a) + Pipes(b)
  {
    if a == "" {
      assert a + b == b;
    } else {
      assert (a + b)[1..] == a[1..] + b;
      PipesAppend(a[1..], b);
    }
  }

  lemma FieldPipes(name: string, on: bool)
    requires '|' !in name
    ensures Pipes(Field(name, on)) == 1
  {
    NoPipes(name);
    assert ("|" + name)[1..] == name;
  }

  lemma NoPipes(s: string)
    requires '|' !in s
    ensures Pipes(s) == 0
  {}

  lemma SuffixPipes(meta: bool, ctrl: bool, shift: bool, alt: bool)
    ensures Pipes(ConflictSuffix(meta, ctrl, shift, alt)) == 4
  {
    FieldPipes("meta", meta);
    FieldPipes("ctrl", ctrl);
    FieldPipes("shift", shift);
    FieldPipes("alt", alt);
    PipesAppendFour(Field("meta", meta), Field("ctrl", ctrl), Field("shift", shift), Field("alt", alt));
  }

  lemma PipesAppendFour(a: string, b: string, c: string, d: string)
    ensures Pipes(a + b + c + d) == Pipes(a) + Pipes(b) + Pipes(c) + Pipes(d)
  {
    PipesAppend(a, b);
    PipesAppend(a + b, c);
    PipesAppend(a + b + c, d);
  }

  lemma LeadingPipe(s: string)
    requires s != "" && s[0] == '|'
    ensures Pipes(s) >= 1
  {}

  /** The four flag fields end a conflict key, whatever `|`s the key itself contains. */
  lemma SplitAtSuffix(k1: string, s1: string, k2: string, s2: string)
    requires k1 + s1 == k2 + s2 && |s1| <= |s2|
    requires Pipes(s1) == Pipes(s2) && s1 != "" && s2 != "" && s2[0] == '|'
    ensures k1 == k2 && s1 == s2
  {
    var whole := k1 + s1;
    var extra := |s2| - |s1|;
    assert s1 == whole[|whole| - |s1|..] && s2 == whole[|whole| - |s2|..];
    assert s2 == s2[..extra] + s1;
    if extra > 0 { LeadingPipe(s2[..extra]); }
    PipesAppend(s2[..extra], s1);
    assert k1 == whole[..|whole| - |s1|] && k2 == whole[..|whole| - |s2|];
  }

  lemma SuffixInjective(m1: bool, c1: bool, s1: bool, a1: bool, m2: bool, c2: bool, s2: bool, a2: bool)
    requires ConflictSuffix(m1, c1, s1, a1) == ConflictSuffix(m2, c2, s2, a2)
    ensures m1 == m2 && c1 == c2 && s1 == s2 && a1 == a2
  {
    var x, y := ConflictSuffix(m1, c1, s1, a1), ConflictSuffix(m2, c2, s2, a2);
    assert x[1] == (if m1 then 'm' else '|') && y[1] == (if m2 then 'm' else '|');
    var i := if m1 then 6 else 2;
    assert x[i] == (if c1 then 'c' else '|') && y[i] == (if c2 then 'c' else '|');
    var j := i + if c1 then 5 else 1;
    assert x[j] == (if s1 then 's' else '|') && y[j] == (if s2 then 's' else '|');
  }

  lemma SameConflictKeyParts(k1: string, m1: bool, c1: bool, s1: bool, a1: bool,
                             k2: string, m2: bool, c2: bool, s2: bool, a2: bool)
    requires k1 + ConflictSuffix(m1, c1, s1, a1) == k2 + ConflictSuffix(m2, c2, s2, a2)
    ensures k1 == k2 && m1 == m2 && c1 == c2 && s1 == s2 && a1 == a2
  {
    var x, y := ConflictSuffix(m1, c1, s1, a1), ConflictSuffix(m2, c2, s2, a2);
    SuffixPipes(m1, c1, s1, a1);
    SuffixPipes(m2, c2, s2, a2);
    assert x[0] == '|' && y[0] == '|';
    if |x| <= |y| { SplitAtSuffix(k1, x, k2, y); } else { SplitAtSuffix(k2, y, k1, x); }
    SuffixInjective(m1, c1, s1, a1, m2, c2, s2, a2);
  }

  /** The event means one key only: it has no physical-key alias, or the alias is what was typed. */
  predicate MeansOneKey(event: KeyEvent) { EventKeys(event) == {NormalizeEventKey(event.key)} }

  lemma MeansOneKeyIff(event: KeyEvent)
    ensures MeansOneKey(event) <==>
            Alias(event.code).None? || Alias(event.code).value == NormalizeEventKey(event.key)
  {
    if Alias(event.code).Some? {
      assert Alias(event.code).value in EventKeys(event);
    }
  }

  /** What such an event would be called in the language of conflict keys. */
  function EventConflictKey(event: KeyEvent): string {
    NormalizeEventKey(event.key) + ConflictSuffix(event.metaKey, event.ctrlKey, event.shiftKey, event.altKey)
  }

  /** An event that means one key matches a shortcut exactly when their conflict keys agree. */
  lemma MatchesIffSameConflictKey(event: KeyEvent, s: KeybindingShortcut, mac: bool)
    requires MeansOneKey(event)
    ensures Matches(event, s, mac) <==> EventConflictKey(event) == ConflictKey(s, mac)
  {
    if EventConflictKey(event) == ConflictKey(s, mac) {
      SameConflictKeyParts(NormalizeEventKey(event.key), event.metaKey, event.ctrlKey, event.shiftKey, event.altKey,
                           s.key, ExpectedMeta(s, mac), ExpectedCtrl(s, mac), s.shiftKey, s.altKey);
    }
  }

  // ----- What is displayed is what a key press does.

  /** A key that some event produces as what was typed. */
  predicate Pressable(key: string) { NormalizeEventKey(key) == key }

  /** Pressing exactly the displayed shortcut. */
  function Press(s: KeybindingShortcut, mac: bool): KeyEvent {
    KeyEvent(s.key, None, ExpectedMeta(s, mac), ExpectedCtrl(s, mac), s.shiftKey, s.altKey)
  }

  lemma {:induction false} EffectiveIsUnclaimed(bindings: seq<ResolvedRule>, command: string, context: Context,
                                               mac: bool, claimed: set<string>, event: KeyEvent)
    requires MeansOneKey(event)
    requires var found := Effective(bindings, command, context, mac, claimed);
             found.Some? && EventConflictKey(event) == ConflictKey(found.value, mac)
    ensures Resolve(event, bindings, context, mac) == Some(command)
    ensures EventConflictKey(event) !in claimed
  {
    var last := bindings[|bindings| - 1];
    var rest := bindings[..|bindings| - 1];
    var conflictKey := ConflictKey(last.shortcut, mac);
    MatchesIffSameConflictKey(event, last.shortcut, mac);
    if !Active(last, context) || conflictKey in claimed {
      EffectiveIsUnclaimed(rest, command, context, mac, claimed, event);
    } else if last.command != command {
      EffectiveIsUnclaimed(rest, command, context, mac, claimed + {conflictKey}, event);
    }
  }

  lemma {:induction false} NothingEffective(bindings: seq<ResolvedRule>, command: string, context: Context,
                                            mac: bool, claimed: set<string>, event: KeyEvent)
    requires MeansOneKey(event)
    requires Effective(bindings, command, context, mac, claimed).None?
    requires EventConflictKey(event) !in claimed
    ensures Resolve(event, bindings, context, mac) != Some(command)
  {
    if bindings != [] {
      var last := bindings[|bindings| - 1];
      var rest := bindings[..|bindings| - 1];
      var conflictKey := ConflictKey(last.shortcut, mac);
      MatchesIffSameConflictKey(event, last.shortcut, mac);
      if !Active(last, context) || conflictKey in claimed {
        NothingEffective(rest, command, context, mac, claimed, event);
      } else if EventConflictKey(event) != conflictKey {
        NothingEffective(rest, command, context, mac, claimed + {conflictKey}, event);
      }
    }
  }

  /** Whatever event matches a displayed shortcut runs the command it is displayed for. */
  ghost predicate DisplayLaw(event: KeyEvent, context: Context) {
    forall bindings: seq<ResolvedRule>, command: string, mac: bool
      :: var found := Effective(bindings, command, context, mac, {});
         found.Some? && Matches(event, found.value, mac) ==> Resolve(event, bindings, context, mac) == Some(command)
  }

  lemma DisplayedShortcutResolves(bindings: seq<ResolvedRule>, command: string, context: Context, mac: bool,
                                  event: KeyEvent)
    requires MeansOneKey(event)
    requires Effective(bindings, command, context, mac, {}).Some?
    requires Matches(event, Effective(bindings, command, context, mac, {}).value, mac)
    ensures Resolve(event, bindings, context, mac) == Some(command)
  {
    MatchesIffSameConflictKey(event, Effective(bindings, command, context, mac, {}).value, mac);
    EffectiveIsUnclaimed(bindings, command, context, mac, {}, event);
  }

  /** A shortcut that the event itself spells, with `key` for its key. */
  function Spelled(event: KeyEvent, key: string): KeybindingShortcut {
    KeybindingShortcut(key, event.metaKey, event.ctrlKey, event.shiftKey, event.altKey, false)
  }

  /** An event that means two keys breaks the law in every context: bind one key and then, to another
      command, the other. */
  lemma TwoKeysBreakTheLaw(event: KeyEvent, context: Context, alias: string)
    requires Alias(event.code) == Some(alias) && alias != NormalizeEventKey(event.key)
    ensures var first := ResolvedRule("first", Spelled(event, alias), None);
            var second := ResolvedRule("second", Spelled(event, NormalizeEventKey(event.key)), None);
            && Effective([first, second], "first", context, false, {}) == Some(first.shortcut)
            && Matches(event, first.shortcut, false)
            && Resolve(event, [first, second], context, false) == Some("second")
  {
    var typed := NormalizeEventKey(event.key);
    var first := ResolvedRule("first", Spelled(event, alias), None);
    var second := ResolvedRule("second", Spelled(event, typed), None);
    if ConflictKey(first.shortcut, false) == ConflictKey(second.shortcut, false) {
      SameConflictKeyParts(alias, event.metaKey, event.ctrlKey, event.shiftKey, event.altKey,
                           typed, event.metaKey, event.ctrlKey, event.shiftKey, event.altKey);
      assert false;
    }
    hide ConflictKey;
    assert [first, second][..1] == [first];
    assert Effective([first], "first", context, false, {} + {ConflictKey(second.shortcut, false)}) == Some(first.shortcut);
  }

  /** The law holds of an event, for all bindings, commands and platforms, exactly when the event
      means one key. */
  lemma DisplayLawIff(event: KeyEvent, context: Context)
    ensures DisplayLaw(event, context) <==> MeansOneKey(event)
  {
    MeansOneKeyIff(event);
    if MeansOneKey(event) {
      forall bindings: seq<ResolvedRule>, command: string, mac: bool |
        Effective(bindings, command, context, mac, {}).Some?
        && Matches(event, Effective(bindings, command, context, mac, {}).value, mac)
        ensures Resolve(event, bindings, context, mac) == Some(command)
      {
        DisplayedShortcutResolves(bindings, command, context, mac, event);
      }
    } else {
      var alias := Alias(event.code).value;
      TwoKeysBreakTheLaw(event, context, alias);
      var bindings := [ResolvedRule("first", Spelled(event, alias), None),
                       ResolvedRule("second", Spelled(event, NormalizeEventKey(event.key)), None)];
      assert Resolve(event, bindings, context, false) != Some("first");
    }
  }

  ghost predicate Reachable(bindings: seq<ResolvedRule>, command: string, context: Context, mac: bool) {
    exists event: KeyEvent :: MeansOneKey(event) && Resolve(event, bindings, context, mac) == Some(command)
  }

  ghost predicate AllPressable(bindings: seq<ResolvedRule>) {
    forall rule :: rule in bindings ==> Pressable(rule.shortcut.key)
  }

  lemma {:induction false} EffectiveComesFromBindings(bindings: seq<ResolvedRule>, command: string, context: Context,
                                                     mac: bool, claimed: set<string>)
    requires Effective(bindings, command, context, mac, claimed).Some?
    ensures exists rule :: rule in bindings && rule.shortcut == Effective(bindings, command, context, mac, claimed).value
  {
    var last := bindings[|bindings| - 1];
    var rest := bindings[..|bindings| - 1];
    var conflictKey := ConflictKey(last.shortcut, mac);
    if !Active(last, context) || conflictKey in claimed {
      EffectiveComesFromBindings(rest, command, context, mac, claimed);
    } else if last.command != command {
      EffectiveComesFromBindings(rest, command, context, mac, claimed + {conflictKey});
    } else {
      assert last in bindings;
    }
  }

  /** With pressable keys, a shortcut is displayed for a command exactly when some event that means one
      key runs it; pressing the displayed one does. */
  lemma DisplayedIffReachable(bindings: seq<ResolvedRule>, command: string, context: Context, mac: bool)
    requires AllPressable(bindings)
    ensures Effective(bindings, command, context, mac, {}).Some? <==> Reachable(bindings, command, context, mac)
    ensures var found := Effective(bindings, command, context, mac, {});
            found.Some? ==> Resolve(Press(found.value, mac), bindings, context, mac) == Some(command)
  {
    var found := Effective(bindings, command, context, mac, {});
    if found.Some? {
      EffectiveComesFromBindings(bindings, command, context, mac, {});
      var event := Press(found.value, mac);
      EffectiveIsUnclaimed(bindings, command, context, mac, {}, event);
      assert MeansOneKey(event) && Resolve(event, bindings, context, mac) == Some(command);
    } else if Reachable(bindings, command, context, mac) {
      var event: KeyEvent :| MeansOneKey(event) && Resolve(event, bindings, context, mac) == Some(command);
      NothingEffective(bindings, command, context, mac, {}, event);
    }
  }

  /** The bindings whose keys can be typed. */
  function PressableOnly(bindings: seq<ResolvedRule>): (r: seq<ResolvedRule>)
    ensures forall rule :: rule in r ==> Pressable(rule.shortcut.key)
  {
    if bindings == [] then []
    else
      var last := bindings[|bindings| - 1];
      PressableOnly(bindings[..|bindings| - 1]) + if Pressable(last.shortcut.key) then [last] else []
  }

  lemma LowerTwice(key: string)
    ensures NormalizeEventKey(NormalizeEventKey(key)) == NormalizeEventKey(key)
  {
    LowerFixesLowerText(key);
    LowerFixesLowerText(Lower(key));
  }

  lemma UnpressableNeverMatches(event: KeyEvent, s: KeybindingShortcut, mac: bool)
    requires MeansOneKey(event) && !Pressable(s.key)
    ensures !Matches(event, s, mac)
  {
    LowerTwice(event.key);
  }

  lemma ResolveOneMore(event: KeyEvent, front: seq<ResolvedRule>, last: ResolvedRule, context: Context, mac: bool)
    ensures Resolve(event, front + [last], context, mac) ==
            if Active(last, context) && Matches(event, last.shortcut, mac) then Some(last.command)
            else Resolve(event, front, context, mac)
  {
    hide Active, Matches;
    assert (front + [last])[..|front|] == front;
  }

  lemma {:induction false} UnpressableNeverRuns(event: KeyEvent, bindings: seq<ResolvedRule>, context: Context, mac: bool)
    requires MeansOneKey(event)
    ensures Resolve(event, PressableOnly(bindings), context, mac) == Resolve(event, bindings, context, mac)
  {
    hide Active, Matches, Resolve, MeansOneKey, Pressable;
    if bindings != [] {
      var front, last := bindings[..|bindings| - 1], bindings[|bindings| - 1];
      assert bindings == front + [last];
      UnpressableNeverRuns(event, front, context, mac);
      ResolveOneMore(event, front, last, context, mac);
      if Pressable(last.shortcut.key) {
        ResolveOneMore(event, PressableOnly(front), last, context, mac);
      } else {
        UnpressableNeverMatches(event, last.shortcut, mac);
        assert PressableOnly(bindings) == PressableOnly(front);
      }
    }
  }

  /** For all bindings: a command is reachable exactly when a shortcut would be displayed for it with
      the untypeable bindings left out. */
  lemma ReachableIffDisplayed(bindings: seq<ResolvedRule>, command: string, context: Context, mac: bool)
    ensures Reachable(bindings, command, context, mac) <==>
            Effective(PressableOnly(bindings), command, context, mac, {}).Some?
  {
    DisplayedIffReachable(PressableOnly(bindings), command, context, mac);
    forall event: KeyEvent | MeansOneKey(event)
      ensures Resolve(event, PressableOnly(bindings), context, mac) == Resolve(event, bindings, context, mac)
    {
      UnpressableNeverRuns(event, bindings, context, mac);
    }
  }

  /** With an untypeable binding the display can be in vain. No compiled configuration contains this
      one, since compiled keys are pressable. */
  lemma UnpressableKeyIsDisplayedInVain(context: Context, mac: bool, event: KeyEvent)
    requires MeansOneKey(event)
    ensures var bindings := [ResolvedRule("panel.close", KeybindingShortcut("esc", false, false, false, false, false), None)];
            && Effective(bindings, "panel.close", context, mac, {}).Some?
            && Resolve(event, bindings, context, mac).None?
  {
    assert NormalizeEventKey(event.key) != "esc";
  }

  /** Keys compiled by the server are always pressable, so its configurations meet the law outright. */
  lemma CompiledKeysArePressable(value: string)
    requires ParseShortcut(value).Some?
    ensures Pressable(ParseShortcut(value).value.key)
  {
    ParsedKeyIsCanonical(value);
    var key := ParseShortcut(value).value.key;
    LowerFixesLowerText(key);
    assert IsLowerText(" ") && IsLowerText("+");
  }

  lemma DecodedKeyIsPressable(raw: Rule, limits: Limits)
    requires DecodeRule(raw, limits).Some?
    ensures Pressable(DecodeRule(raw, limits).value.shortcut.key)
  {
    CompiledKeysArePressable(ReadText(raw.key, limits.maxKey).value);
  }

  /** For every configuration the server compiles: displayed exactly when reachable. */
  lemma CompiledConfigDisplaysWhatItRuns(config: seq<Rule>, limits: Limits, command: string, context: Context, mac: bool)
    ensures var bindings := CompileConfig(config, limits);
            Effective(bindings, command, context, mac, {}).Some? <==> Reachable(bindings, command, context, mac)
  {
    hide DecodeRule;
    var bindings := CompileConfig(config, limits);
    forall b | b in bindings ensures Pressable(b.shortcut.key) {
      var r :| r in config && DecodeRule(r, limits) == Some(b);
      DecodedKeyIsPressable(r, limits);
    }
    DisplayedIffReachable(bindings, command, context, mac);
  }

  /** The ordinary case: Shift+1 typed as "!" runs the later "!" binding even though "1" with shift is
      what is displayed for the earlier command. */
  lemma AliasedPressMayRunAnother(context: Context)
    ensures var first := ResolvedRule("first", KeybindingShortcut("1", false, false, true, false, false), None);
            var second := ResolvedRule("second", KeybindingShortcut("!", false, false, true, false, false), None);
            var event := KeyEvent("!", Some("Digit1"), false, false, true, false);
            && Effective([first, second], "first", context, false, {}) == Some(first.shortcut)
            && Matches(event, first.shortcut, false)
            && Resolve(event, [first, second], context, false) == Some("second")
  {
    hide Effective, Resolve, Matches;
    assert "Digit1"[..5] == "Digit" && "Digit1"[5..] == "1";
    assert Lower("!") == "!";
    TwoKeysBreakTheLaw(KeyEvent("!", Some("Digit1"), false, false, true, false), context, "1");
  }
}
