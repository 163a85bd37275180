/** The default keybindings of the server (apps/server/src/keybindings.ts:58-74) with the limits of the
    schemas: every default loads as itself, so what holds of valid settings holds of these. */
module KeybindingDefaults {
  import opened Text
  import opened WhenLanguage
  import opened WhenParser
  import opened WhenText
  import opened Shortcut
  import opened KeybindingRules
  import opened KeybindingStore

  datatype Focus = Anywhere | InTerminal | OutsideTerminal

  predicate IsPlain(c: char) { IsLower(c) || IsDigit(c) || c == '[' || c == ']' }

  type PlainChar = c: char | IsPlain(c) witness 'a'

  /** `mod`, perhaps `shift`, and one character. */
  datatype Default = Default(shift: bool, key: PlainChar, command: string, focus: Focus)

  function Table(): seq<Default> {
    [Default(false, 'j', "terminal.toggle", Anywhere),
     Default(false, 'd', "terminal.split", InTerminal),
     Default(false, 'n', "terminal.new", InTerminal),
     Default(false, 'w', "terminal.close", InTerminal),
     Default(false, 'd', "diff.toggle", OutsideTerminal),
     Default(false, 'k', "commandPalette.toggle", OutsideTerminal),
     Default(false, 'n', "chat.new", OutsideTerminal),
     Default(true, 'o', "chat.new", OutsideTerminal),
     Default(true, 'n', "chat.newLocal", OutsideTerminal),
     Default(false, 'o', "editor.openFavorite", Anywhere),
     Default(true, '[', "thread.previous", Anywhere),
     Default(true, ']', "thread.next", Anywhere),
     Default(false, '1', "thread.jump.1", Anywhere),
     Default(false, '2', "thread.jump.2", Anywhere),
     Default(false, '3', "thread.jump.3", Anywhere),
     Default(false, '4', "thread.jump.4", Anywhere),
     Default(false, '5', "thread.jump.5", Anywhere),
     Default(false, '6', "thread.jump.6", Anywhere),
     Default(false, '7', "thread.jump.7", Anywhere),
     Default(false, '8', "thread.jump.8", Anywhere),
     Default(false, '9', "thread.jump.9", Anywhere)]
  }

  function KeyOf(d: Default): string { (if d.shift then "mod+shift+" else "mod+") + [d.key] }

  function WhenOf(focus: Focus): Option<string> {
    match focus
    case Anywhere => None
    case InTerminal => Some("terminalFocus")
    case OutsideTerminal => Some("!terminalFocus")
  }

  function RuleOf(d: Default): Rule { Rule(KeyOf(d), d.command, WhenOf(d.focus)) }

  function Rules(table: seq<Default>): (rules: seq<Rule>)
    ensures forall r :: r in rules ==> exists d :: d in table && r == RuleOf(d)
  {
    seq(|table|, (k: nat) requires k < |table| => RuleOf(table[k]))
  }

  function SourceSettings(strict: bool): Settings { Settings(Rules(Table()), Limits(64, 256, 64, strict), 256) }

  lemma KeyParses(d: Default)
    ensures ParseShortcut(KeyOf(d)) == Some(KeybindingShortcut([d.key], false, false, d.shift, false, true))
    ensures Trimmed(KeyOf(d)) && 1 <= |KeyOf(d)| <= 11
  {
    hide ParseShortcut;
    var s := KeybindingShortcut([d.key], false, false, d.shift, false, true);
    assert PlainKey([d.key]);
    var key := [d.key];
    if d.shift {
      assert Modifiers(s) + [KeyText(key)] == ["mod", "shift", key];
      assert ["mod", "shift", key][1..] == ["shift", key] && ["shift", key][1..] == [key];
      assert Join([key], "+") == key && Join(["shift", key], "+") == "shift" + "+" + key;
      assert Join(["mod", "shift", key], "+") == "mod" + "+" + ("shift" + "+" + key);
      assert "mod" + "+" + ("shift" + "+" + key) == KeyOf(d);
    } else {
      assert Modifiers(s) + [KeyText(key)] == ["mod", key];
      assert Join(["mod", key], "+") == "mod" + "+" + key by {
        assert ["mod", key][1..] == [key] && Join([key], "+") == key;
      }
      assert "mod" + "+" + key == KeyOf(d);
    }
    assert Encode(s) == Some(KeyOf(d));
    CanonicalRoundTrip(s);
  }

  lemma FocusIsIdentifier()
    ensures ValidIdentifier("terminalFocus")
  {}

  lemma WhenParses(focus: Focus, max: nat)
    requires max > 0 && focus != Anywhere
    ensures var focused := Name("terminalFocus");
            ParseWhen(WhenOf(focus).value, max) == Some(if focus == InTerminal then focused else Not(focused))
  {
    hide Lex, ParseTokens, IdentPart;
    FocusIsIdentifier();
    var name := "terminalFocus";
    if focus == InTerminal {
      PrintThenParse(Name(name), max);
    } else {
      var u := Negated(Plain(Word(name)));
      var tokens := [NotTok, Identifier(name)];
      assert "!terminalFocus" == ['!'] + name && name == name + "";
      LexOne('!', NotTok, name);
      LexName(name, "");
      LexNothing();
      assert [Identifier(name)] + [] == [Identifier(name)] && [NotTok] + [Identifier(name)] == tokens;
      SingleShape(u, 0, max);
      assert UnaryText(u) == tokens && UnaryTree(u) == Not(Name(name)) && UnaryFits(u, 0, max);
      assert OrText(Single(u)) == tokens && OrTree(Single(u)) == Not(Name(name)) && OrFits(Single(u), 0, max);
      ParserMeetsGrammar(tokens, max, Not(Name(name)));
    }
  }

  lemma DefaultSettles(d: Default, limits: Limits)
    requires limits.maxKey >= 11 && limits.maxWhen >= 14 && limits.maxDepth > 0
    ensures Settled(RuleOf(d), limits)
  {
    hide ParseShortcut, ParseWhen, Trim, KeyOf;
    KeyParses(d);
    ReadsBack(KeyOf(d), limits.maxKey);
    if d.focus != Anywhere {
      WhenParses(d.focus, limits.maxDepth);
      ReadsBack(WhenOf(d.focus).value, limits.maxWhen);
    }
  }

  /** The settings of the source are valid. */
  lemma SourceSettingsAreValid(strict: bool)
    ensures Valid(SourceSettings(strict))
  {
    hide Settled, RuleOf, Table;
    var s := SourceSettings(strict);
    forall r | r in s.defaults ensures Settled(r, s.limits) {
      var d :| d in Table() && r == RuleOf(d);
      DefaultSettles(d, s.limits);
    }
  }
}
