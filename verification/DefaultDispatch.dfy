/** End to end: the default keybindings of the server, compiled there and dispatched in the client. */
module DefaultDispatch {
  import opened Text
  import opened WhenLanguage
  import opened Shortcut
  import opened KeybindingRules
  import opened KeybindingDefaults
  import opened Dispatch

  // ----- Which binding a key event picks.

  ghost predicate Picks(bindings: seq<ResolvedRule>, k: nat, event: KeyEvent, context: Context, mac: bool)
    requires k < |bindings|
  {
    && Active(bindings[k], context) && Matches(event, bindings[k].shortcut, mac)
    && forall j :: k < j < |bindings| ==> !(Active(bindings[j], context) && Matches(event, bindings[j].shortcut, mac))
  }

  /** The last active binding that matches, if there is one. */
  lemma {:induction false} ResolvesToLast(bindings: seq<ResolvedRule>, event: KeyEvent, context: Context, mac: bool)
    ensures forall k :: 0 <= k < |bindings| && Picks(bindings, k, event, context, mac) ==>
              Resolve(event, bindings, context, mac) == Some(bindings[k].command)
    ensures (forall k :: 0 <= k < |bindings| ==> !Picks(bindings, k, event, context, mac)) ==>
              Resolve(event, bindings, context, mac) == None
  {
    hide Active, Matches;
    if bindings != [] {
      var n := |bindings| - 1;
      ResolvesToLast(bindings[..n], event, context, mac);
      if Active(bindings[n], context) && Matches(event, bindings[n].shortcut, mac) {
        assert Picks(bindings, n, event, context, mac);
      } else {
        forall k | 0 <= k < n ensures Picks(bindings, k, event, context, mac) <==> Picks(bindings[..n], k, event, context, mac) {}
      }
    }
  }

  // ----- The compiled defaults.

  function BindingOf(d: Default): ResolvedRule {
    ResolvedRule(d.command, KeybindingShortcut([d.key], false, false, d.shift, false, true),
                 match d.focus
                 case Anywhere => None
                 case InTerminal => Some(Name("terminalFocus"))
                 case OutsideTerminal => Some(Not(Name("terminalFocus"))))
  }

  function Bindings(table: seq<Default>): (bindings: seq<ResolvedRule>)
    ensures |bindings| == |table| && forall k :: 0 <= k < |table| ==> bindings[k] == BindingOf(table[k])
  {
    seq(|table|, (k: nat) requires k < |table| => BindingOf(table[k]))
  }

  lemma DefaultCompiles(d: Default, limits: Limits)
    requires limits.maxKey >= 11 && limits.maxWhen >= 14 && limits.maxDepth > 0
    ensures DecodeRule(RuleOf(d), limits) == Some(BindingOf(d))
  {
    hide ParseShortcut, WhenText.ParseWhen, Trim, KeyOf;
    KeyParses(d);
    ReadsBack(KeyOf(d), limits.maxKey);
    if d.focus != Anywhere {
      WhenParses(d.focus, limits.maxDepth);
      ReadsBack(WhenOf(d.focus).value, limits.maxWhen);
    }
  }

  lemma {:induction false} DefaultsCompile(table: seq<Default>, limits: Limits)
    requires limits.maxKey >= 11 && limits.maxWhen >= 14 && limits.maxDepth > 0
    ensures CompileConfig(Rules(table), limits) == Bindings(table)
  {
    hide DecodeRule, RuleOf, BindingOf;
    if table != [] {
      var n := |table| - 1;
      DefaultsCompile(table[..n], limits);
      DefaultCompiles(table[n], limits);
      assert Rules(table)[..n] == Rules(table[..n]);
      assert Bindings(table) == Bindings(table[..n]) + [BindingOf(table[n])];
    }
  }

  // ----- What the defaults do.

  /** The event means the default: `mod` is Command on a Mac and Control elsewhere. */
  predicate Means(event: KeyEvent, mac: bool, d: Default) {
    && event.metaKey == mac && event.ctrlKey == !mac && !event.altKey && event.shiftKey == d.shift
    && [d.key] in EventKeys(event)
  }

  /** The default applies whether or not the terminal has the focus, or where it does or does not. */
  predicate Applies(focus: Focus, terminalFocus: bool) {
    match focus
    case Anywhere => true
    case InTerminal => terminalFocus
    case OutsideTerminal => !terminalFocus
  }

  lemma DefaultIsActive(d: Default, context: Context)
    ensures Active(BindingOf(d), context) <==> Applies(d.focus, context("terminalFocus"))
  {}

  lemma DefaultMatches(d: Default, event: KeyEvent, mac: bool)
    ensures Matches(event, BindingOf(d).shortcut, mac) <==> Means(event, mac, d)
  {}

  ghost predicate Runs(d: Default, event: KeyEvent, terminalFocus: bool, mac: bool) {
    Means(event, mac, d) && Applies(d.focus, terminalFocus)
  }

  /** With such defaults alone a key event runs the last default that it means and that applies. */
  lemma DefaultRuns(table: seq<Default>, k: nat, event: KeyEvent, context: Context, mac: bool, limits: Limits)
    requires limits.maxKey >= 11 && limits.maxWhen >= 14 && limits.maxDepth > 0
    requires k < |table| && Runs(table[k], event, context("terminalFocus"), mac)
    requires forall j :: k < j < |table| ==> !Runs(table[j], event, context("terminalFocus"), mac)
    ensures Resolve(event, CompileConfig(Rules(table), limits), context, mac) == Some(table[k].command)
  {
    hide Active, Matches, Means, Applies, BindingOf, CompileConfig, Rules, Resolve;
    DefaultsCompile(table, limits);
    var bindings := Bindings(table);
    forall j | 0 <= j < |table|
      ensures Active(bindings[j], context) && Matches(event, bindings[j].shortcut, mac) <==>
              Runs(table[j], event, context("terminalFocus"), mac)
    {
      DefaultIsActive(table[j], context);
      DefaultMatches(table[j], event, mac);
    }
    assert Picks(bindings, k, event, context, mac);
    CommandOf(table[k]);
    ResolvesToLast(bindings, event, context, mac);
  }

  lemma CommandOf(d: Default)
    ensures BindingOf(d).command == d.command
  {}

  /** Where the table has the keys `d` and `[`. */
  ghost predicate HasDefaults(table: seq<Default>) {
    && |table| == 21
    && table[1] == Default(false, 'd', "terminal.split", InTerminal)
    && table[4] == Default(false, 'd', "diff.toggle", OutsideTerminal)
    && table[10] == Default(true, '[', "thread.previous", Anywhere)
    && (forall j :: 1 < j < 21 && j != 4 ==> table[j].key != 'd')
    && table[11] == Default(true, ']', "thread.next", Anywhere)
    && (forall j :: 10 < j < 21 ==> table[j].key != '[')
    && (forall j :: 11 < j < 21 ==> table[j].key != ']')
  }

  lemma TableHasDefaults()
    ensures HasDefaults(Table())
  {}

  /** Nine digits come last; the other keys without shift are letters. */
  ghost predicate HasDigits(table: seq<Default>) {
    && |table| == 21
    && (forall j :: 0 <= j < 12 ==> table[j].shift || IsLower(table[j].key))
    && (forall j :: 12 <= j < 21 ==> table[j].key == Digit(j) && table[j].focus == Anywhere && !table[j].shift)
  }

  function Digit(j: int): char
    requires 12 <= j < 21
  {
    '1' + (j - 12) as char
  }

  lemma TableHasDigits()
    ensures HasDigits(Table())
    ensures forall j :: 12 <= j < 21 ==> Table()[j].command == "thread.jump." + [Digit(j)]
  {}

  function ModD(code: Option<string>, mac: bool): KeyEvent { KeyEvent("d", code, mac, !mac, false, false) }

  lemma ModDMeans(code: Option<string>, mac: bool, d: Default)
    ensures Means(ModD(code, mac), mac, d) <==> !d.shift && (d.key == 'd' || Alias(code) == Some([d.key]))
  {
    assert Lower("d") == "d";
    assert [d.key] == "d" <==> d.key == 'd';
  }

  /** The digit of the physical key, when it is one that a default is about. */
  function JumpOf(code: Option<string>): Option<char> {
    if Alias(code).Some? && |Alias(code).value| == 1 && '1' <= Alias(code).value[0] <= '9' then Some(Alias(code).value[0]) else None
  }

  lemma AliasIsOneKey(code: Option<string>, key: char)
    ensures Alias(code) == Some([key]) ==> !IsLower(key)
    ensures '1' <= key <= '9' ==> (Alias(code) == Some([key]) <==> JumpOf(code) == Some(key))
  {
    assert Alias(code) == Some([key]) ==> Alias(code).value[0] == key;
    assert JumpOf(code).Some? ==> Alias(code).value == [Alias(code).value[0]];
  }

  lemma ModDMeansIn(table: seq<Default>, code: Option<string>, mac: bool, j: nat)
    requires HasDefaults(table) && HasDigits(table) && j < 21
    ensures Means(ModD(code, mac), mac, table[j]) <==>
            if j < 12 then !table[j].shift && table[j].key == 'd' else JumpOf(code) == Some(Digit(j))
  {
    hide Means, ModD, Alias, JumpOf;
    ModDMeans(code, mac, table[j]);
    AliasIsOneKey(code, table[j].key);
  }

  /** The default that mod+D runs. */
  function ModDIndex(code: Option<string>, terminalFocus: bool): nat {
    if JumpOf(code).Some? then 12 + (JumpOf(code).value - '1') as nat else if terminalFocus then 1 else 4
  }

  lemma ModDRunsIn(table: seq<Default>, code: Option<string>, context: Context, mac: bool, limits: Limits)
    requires HasDefaults(table) && HasDigits(table)
    requires limits.maxKey >= 11 && limits.maxWhen >= 14 && limits.maxDepth > 0
    ensures ModDIndex(code, context("terminalFocus")) < 21
    ensures Resolve(ModD(code, mac), CompileConfig(Rules(table), limits), context, mac) ==
            Some(table[ModDIndex(code, context("terminalFocus"))].command)
  {
    var k := ModDIndex(code, context("terminalFocus"));
    assert JumpOf(code).Some? ==> Digit(k) == JumpOf(code).value;
    hide Resolve, CompileConfig, Rules, Means, Alias, ModD, JumpOf;
    forall j | 0 <= j < 21
      ensures Means(ModD(code, mac), mac, table[j]) <==>
              if j < 12 then !table[j].shift && table[j].key == 'd' else JumpOf(code) == Some(Digit(j))
    {
      ModDMeansIn(table, code, mac, j);
    }
    DefaultRuns(table, k, ModD(code, mac), context, mac, limits);
  }

  /** Mod+D runs `terminal.split` exactly with the focus in the terminal, and `diff.toggle` exactly without,
      unless D was typed with the physical key of a digit from one to nine: that runs the jump to its thread. */
  lemma ModDRuns(code: Option<string>, context: Context, mac: bool, strict: bool)
    ensures var s := SourceSettings(strict);
            Resolve(ModD(code, mac), CompileConfig(s.defaults, s.limits), context, mac) ==
            Some(if JumpOf(code).Some? then "thread.jump." + [JumpOf(code).value]
                 else if context("terminalFocus") then "terminal.split" else "diff.toggle")
  {
    TableHasDefaults();
    TableHasDigits();
    assert JumpOf(code).Some? ==> Digit(ModDIndex(code, false)) == JumpOf(code).value;
    hide Resolve, CompileConfig, Rules, JumpOf, HasDigits, Table;
    ModDRunsIn(Table(), code, context, mac, SourceSettings(strict).limits);
    ModDCommand(Table(), code, context("terminalFocus"));
  }

  lemma ModDCommand(table: seq<Default>, code: Option<string>, terminalFocus: bool)
    requires HasDefaults(table) && forall j :: 12 <= j < 21 ==> table[j].command == "thread.jump." + [Digit(j)]
    ensures table[ModDIndex(code, terminalFocus)].command ==
            if JumpOf(code).Some? then "thread.jump." + [JumpOf(code).value]
            else if terminalFocus then "terminal.split" else "diff.toggle"
  {
    assert JumpOf(code).Some? ==> Digit(ModDIndex(code, false)) == JumpOf(code).value;
  }

  /** Shift with a bracket key, which types a brace. */
  function ModShiftBracket(right: bool, mac: bool): KeyEvent {
    if right then KeyEvent("}", Some("BracketRight"), mac, !mac, true, false)
    else KeyEvent("{", Some("BracketLeft"), mac, !mac, true, false)
  }

  lemma ModShiftBracketMeans(right: bool, mac: bool, d: Default)
    ensures Means(ModShiftBracket(right, mac), mac, d) <==> d.shift && d.key == if right then ']' else '['
  {
    assert Lower("{") == "{" && Lower("}") == "}";
    var typed, bracket := if right then "}" else "{", if right then "]" else "[";
    assert EventKeys(ModShiftBracket(right, mac)) == {typed, bracket};
    assert [d.key] == bracket <==> d.key == bracket[0];
    assert [d.key] != typed by { assert [d.key][0] != typed[0]; }
  }

  lemma BracketRunsIn(table: seq<Default>, right: bool, context: Context, mac: bool, limits: Limits)
    requires HasDefaults(table) && limits.maxKey >= 11 && limits.maxWhen >= 14 && limits.maxDepth > 0
    ensures Resolve(ModShiftBracket(right, mac), CompileConfig(Rules(table), limits), context, mac) ==
            Some(if right then "thread.next" else "thread.previous")
  {
    hide Resolve, CompileConfig, Rules, Means, ModShiftBracket;
    var key := if right then ']' else '[';
    forall d ensures Means(ModShiftBracket(right, mac), mac, d) <==> d.shift && d.key == key {
      ModShiftBracketMeans(right, mac, d);
    }
    DefaultRuns(table, if right then 11 else 10, ModShiftBracket(right, mac), context, mac, limits);
  }

  /** A physical bracket key runs the default for the bracket, whatever it types with shift. */
  lemma ModShiftBracketRuns(right: bool, context: Context, mac: bool, strict: bool)
    ensures var s := SourceSettings(strict);
            Resolve(ModShiftBracket(right, mac), CompileConfig(s.defaults, s.limits), context, mac) ==
            Some(if right then "thread.next" else "thread.previous")
  {
    hide Resolve, CompileConfig, Rules, HasDefaults;
    TableHasDefaults();
    BracketRunsIn(Table(), right, context, mac, SourceSettings(strict).limits);
  }

  // ----- Physical keys.

  /** The physical keys that also count as what is printed on them. */
  function Printed(): set<(string, string)> {
    {("BracketLeft", "["), ("BracketRight", "]"),
     ("Digit0", "0"), ("Digit1", "1"), ("Digit2", "2"), ("Digit3", "3"), ("Digit4", "4"),
     ("Digit5", "5"), ("Digit6", "6"), ("Digit7", "7"), ("Digit8", "8"), ("Digit9", "9")}
  }

  lemma DigitCode(code: string, digit: char)
    requires IsDigit(digit)
    ensures code == "Digit" + [digit] <==> |code| == 6 && code[..5] == "Digit" && code[5] == digit
  {
    if |code| == 6 && code[..5] == "Digit" { assert code == code[..5] + [code[5]]; }
  }

  /** Two brackets and ten digits. */
  lemma AliasIff(code: string, key: string)
    ensures Alias(Some(code)) == Some(key) <==> (code, key) in Printed()
  {
    forall digit | IsDigit(digit)
      ensures code == "Digit" + [digit] <==> |code| == 6 && code[..5] == "Digit" && code[5] == digit
    {
      DigitCode(code, digit);
    }
    assert "Digit" + "0" == "Digit0" && "Digit" + "1" == "Digit1" && "Digit" + "2" == "Digit2" && "Digit" + "3" == "Digit3";
    assert "Digit" + "4" == "Digit4" && "Digit" + "5" == "Digit5" && "Digit" + "6" == "Digit6" && "Digit" + "7" == "Digit7";
    assert "Digit" + "8" == "Digit8" && "Digit" + "9" == "Digit9";
  }
}
