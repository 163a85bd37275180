/** Keyboard shortcuts as text (apps/server/src/keybindings.ts): `parseKeybindingShortcut` and
    `encodeShortcut`, and exactly which shortcuts survive being written and parsed. */
module Shortcut {
  import opened Text

  datatype KeybindingShortcut = KeybindingShortcut(
    key: string,
    metaKey: bool,
    ctrlKey: bool,
    shiftKey: bool,
    altKey: bool,
    modKey: bool)

  function NormalizeKeyToken(token: string): string {
    if token == "space" then " " else if token == "esc" then "escape" else token
  }

  function TrimAll(parts: seq<string>): (r: seq<string>)
    ensures |r| == |parts| && forall k :: 0 <= k < |parts| ==> r[k] == Trim(parts[k])
  {
    seq(|parts|, (k: nat) requires k < |parts| => Trim(parts[k]))
  }

  function DropTrailingEmpty(tokens: seq<string>): (r: seq<string>)
    ensures |r| <= |tokens| && r == tokens[..|r|]
    ensures r == [] || r[|r| - 1] != ""
  {
    if tokens != [] && tokens[|tokens| - 1] == "" then DropTrailingEmpty(tokens[..|tokens| - 1]) else tokens
  }

  /** The tokens between `+` signs; trailing empty ones stand for the `+` key itself. */
  function ShortcutTokens(value: string): seq<string> {
    var raw := TrimAll(Split(Lower(value), '+'));
    var tokens := DropTrailingEmpty(raw);
    if |tokens| < |raw| then tokens + ["+"] else tokens
  }

  /** The locals of the token loop. */
  datatype Scan = Scan(key: Option<string>, meta: bool, ctrl: bool, shift: bool, alt: bool, mod: bool)

  const NOTHING := Scan(None, false, false, false, false, false)

  datatype TokenKind = MetaName | CtrlName | ShiftName | AltName | ModName | KeyName

  /** The `switch` over a token. */
  function Kind(token: string): TokenKind {
    if token == "cmd" || token == "meta" then MetaName
    else if token == "ctrl" || token == "control" then CtrlName
    else if token == "shift" then ShiftName
    else if token == "alt" || token == "option" then AltName
    else if token == "mod" then ModName
    else KeyName
  }

  function ScanToken(s: Scan, token: string): Option<Scan> {
    match Kind(token)
    case MetaName => Some(s.(meta := true))
    case CtrlName => Some(s.(ctrl := true))
    case ShiftName => Some(s.(shift := true))
    case AltName => Some(s.(alt := true))
    case ModName => Some(s.(mod := true))
    case KeyName => if s.key.Some? then None else Some(s.(key := Some(NormalizeKeyToken(token))))
  }

  function ScanTokens(s: Scan, tokens: seq<string>): Option<Scan>
    decreases |tokens|
  {
    if tokens == [] then Some(s)
    else match ScanToken(s, tokens[0])
      case None => None
      case Some(next) => ScanTokens(next, tokens[1..])
  }

  function Finish(s: Scan): Option<KeybindingShortcut> {
    if s.key.None? then None
    else Some(KeybindingShortcut(s.key.value, s.meta, s.ctrl, s.shift, s.alt, s.mod))
  }

  /** What `parseKeybindingShortcut` returns. */
  function ParseShortcut(value: string): Option<KeybindingShortcut> {
    var tokens := ShortcutTokens(value);
    if "" in tokens then None
    else match ScanTokens(NOTHING, tokens)
      case None => None
      case Some(s) => Finish(s)
  }

  method ParseKeybindingShortcut(value: string) returns (result: Option<KeybindingShortcut>)
    ensures result == ParseShortcut(value)
  {
    var tokens := Tokenize(value);
    if "" in tokens { return None; }
    var key: Option<string> := None;
    var metaKey, ctrlKey, shiftKey, altKey, modKey := false, false, false, false, false;
    for i := 0 to |tokens|
      invariant ScanTokens(NOTHING, tokens) ==
                ScanTokens(Scan(key, metaKey, ctrlKey, shiftKey, altKey, modKey), tokens[i..])
    {
      var token := tokens[i];
      assert tokens[i..][1..] == tokens[i + 1..];
      match Kind(token) {
        case MetaName => metaKey := true;
        case CtrlName => ctrlKey := true;
        case ShiftName => shiftKey := true;
        case AltName => altKey := true;
        case ModName => modKey := true;
        case KeyName =>
          if key.Some? { return None; }
          key := Some(NormalizeKeyToken(token));
      }
    }
    if key.None? { return None; }
    return Some(KeybindingShortcut(key.value, metaKey, ctrlKey, shiftKey, altKey, modKey));
  }

  method Tokenize(value: string) returns (tokens: seq<string>)
    ensures tokens == ShortcutTokens(value)
  {
    var rawTokens := TrimAll(Split(Lower(value), '+'));
    tokens := rawTokens;
    var trailingEmptyCount := 0;
    while |tokens| > 0 && tokens[|tokens| - 1] == ""
      invariant |tokens| + trailingEmptyCount == |rawTokens|
      invariant DropTrailingEmpty(rawTokens) == DropTrailingEmpty(tokens)
    {
      trailingEmptyCount := trailingEmptyCount + 1;
      tokens := tokens[..|tokens| - 1];
    }
    if trailingEmptyCount > 0 {
      tokens := tokens + ["+"];
    }
  }

  /** The modifier names of a shortcut, in the order they are written. */
  function Modifiers(s: KeybindingShortcut): seq<string> {
    (if s.modKey then ["mod"] else []) + (if s.metaKey then ["meta"] else [])
    + (if s.ctrlKey then ["ctrl"] else []) + (if s.altKey then ["alt"] else [])
    + (if s.shiftKey then ["shift"] else [])
  }

  function KeyText(key: string): string { if key == " " then "space" else key }

  /** What `encodeShortcut` returns. */
  function Encode(s: KeybindingShortcut): Option<string> {
    if s.key == "" || (s.key != "+" && '+' in s.key) then None
    else Some(Join(Modifiers(s) + [KeyText(s.key)], "+"))
  }

  method EncodeShortcut(shortcut: KeybindingShortcut) returns (text: Option<string>)
    ensures text == Encode(shortcut)
  {
    var modifiers: seq<string> := [];
    if shortcut.modKey { modifiers := modifiers + ["mod"]; }
    if shortcut.metaKey { modifiers := modifiers + ["meta"]; }
    if shortcut.ctrlKey { modifiers := modifiers + ["ctrl"]; }
    if shortcut.altKey { modifiers := modifiers + ["alt"]; }
    if shortcut.shiftKey { modifiers := modifiers + ["shift"]; }
    assert modifiers == Modifiers(shortcut);
    if shortcut.key == "" { return None; }
    if shortcut.key != "+" && '+' in shortcut.key { return None; }
    var key := if shortcut.key == " " then "space" else shortcut.key;
    return Some(Join(modifiers + [key], "+"));
  }

  /** The keys a parsed shortcut can have: space, plus, or a trimmed lower-case word that is no
      modifier name, no alias and free of `+`. */
  ghost predicate CanonicalKey(key: string) {
    || key == " "
    || key == "+"
    || PlainKey(key)
  }

  ghost predicate PlainKey(key: string) {
    && key != "" && Trimmed(key) && IsLowerText(key) && '+' !in key
    && Kind(key) == KeyName && key != "space" && key != "esc"
  }

  // ----- Parsed keys are canonical.

  lemma {:induction false} SplitKeepsLower(s: string, sep: char)
    requires IsLowerText(s)
    ensures forall k :: 0 <= k < |Split(s, sep)| ==> IsLowerText(Split(s, sep)[k])
  {
    if s != "" { SplitKeepsLower(s[1..], sep); }
  }

  ghost predicate WordToken(token: string) { Trimmed(token) && IsLowerText(token) && '+' !in token }

  lemma TrimmedWord(part: string)
    requires IsLowerText(part) && '+' !in part
    ensures WordToken(Trim(part))
  {
    TrimIsTrimmed(part);
    forall c | c in Trim(part) ensures c in part { TrimKeepsMembers(part, c); }
  }

  ghost predicate Readable(token: string) { WordToken(token) || token == "+" }

  lemma TokensAreReadable(value: string)
    ensures forall t :: t in ShortcutTokens(value) ==> Readable(t)
  {
    var parts := Split(Lower(value), '+');
    LowerFixesLowerText(value);
    SplitKeepsLower(Lower(value), '+');
    forall t | t in TrimAll(parts) ensures WordToken(t) {
      var k :| 0 <= k < |parts| && TrimAll(parts)[k] == t;
      TrimmedWord(parts[k]);
    }
  }

  lemma NormalizedKeyIsCanonical(token: string)
    requires token != "" && Readable(token) && Kind(token) == KeyName
    ensures CanonicalKey(NormalizeKeyToken(token))
  {
    assert IsLowerText("escape") && Trimmed("escape") && '+' !in "escape";
  }

  lemma {:induction false} ScannedKey(s: Scan, tokens: seq<string>)
    requires forall t :: t in tokens ==> t != "" && Readable(t)
    requires s.key.Some? ==> CanonicalKey(s.key.value)
    requires ScanTokens(s, tokens).Some?
    ensures var end := ScanTokens(s, tokens).value; end.key.Some? ==> CanonicalKey(end.key.value)
    decreases |tokens|
  {
    if tokens != [] {
      assert tokens[0] in tokens;
      assert forall t :: t in tokens[1..] ==> t in tokens;
      if Kind(tokens[0]) == KeyName { NormalizedKeyIsCanonical(tokens[0]); }
      ScannedKey(ScanToken(s, tokens[0]).value, tokens[1..]);
    }
  }

  lemma ParsedKeyIsCanonical(value: string)
    requires ParseShortcut(value).Some?
    ensures CanonicalKey(ParseShortcut(value).value.key)
  {
    TokensAreReadable(value);
    ScannedKey(NOTHING, ShortcutTokens(value));
  }

  // ----- Canonical shortcuts are written and read back.

  lemma {:induction false} ScanAppend(s: Scan, a: seq<string>, b: seq<string>)
    ensures ScanTokens(s, a + b) ==
            if ScanTokens(s, a).None? then None else ScanTokens(ScanTokens(s, a).value, b)
    decreases |a|
  {
    if a == [] {
      assert a + b == b;
    } else {
      assert (a + b)[1..] == a[1..] + b;
      if ScanToken(s, a[0]).Some? { ScanAppend(ScanToken(s, a[0]).value, a[1..], b); }
    }
  }

  lemma ScanOne(s: Scan, token: string)
    ensures ScanTokens(s, [token]) == ScanToken(s, token)
  {}

  lemma ScanModifiers(s: KeybindingShortcut)
    ensures ScanTokens(NOTHING, Modifiers(s)) ==
            Some(Scan(None, s.metaKey, s.ctrlKey, s.shiftKey, s.altKey, s.modKey))
  {
    var m0 := if s.modKey then ["mod"] else [];
    var m1 := if s.metaKey then ["meta"] else [];
    var m2 := if s.ctrlKey then ["ctrl"] else [];
    var m3 := if s.altKey then ["alt"] else [];
    var m4 := if s.shiftKey then ["shift"] else [];
    var s0 := NOTHING.(mod := s.modKey);
    var s1 := s0.(meta := s.metaKey);
    var s2 := s1.(ctrl := s.ctrlKey);
    var s3 := s2.(alt := s.altKey);
    ScanOne(NOTHING, "mod");
    ScanOne(s0, "meta");
    ScanOne(s1, "ctrl");
    ScanOne(s2, "alt");
    ScanOne(s3, "shift");
    ScanAppend(NOTHING, m0, m1);
    ScanAppend(NOTHING, m0 + m1, m2);
    ScanAppend(NOTHING, m0 + m1 + m2, m3);
    ScanAppend(NOTHING, m0 + m1 + m2 + m3, m4);
  }

  ghost predicate CleanWords(parts: seq<string>) {
    forall k :: 0 <= k < |parts| ==> parts[k] != "" && WordToken(parts[k])
  }

  lemma ModifiersAreClean(s: KeybindingShortcut)
    ensures CleanWords(Modifiers(s))
  {
    forall w | w in {"mod", "meta", "ctrl", "alt", "shift"} ensures w != "" && WordToken(w) {}
  }

  lemma {:induction false} JoinKeepsLower(parts: seq<string>)
    requires forall k :: 0 <= k < |parts| ==> IsLowerText(parts[k])
    ensures IsLowerText(Join(parts, "+"))
  {
    if |parts| > 1 {
      JoinKeepsLower(parts[1..]);
      var head, rest := parts[0], Join(parts[1..], "+");
      assert IsLowerText(head);
      assert IsLowerText(head + "+");
    }
  }

  lemma {:induction false} JoinPlusKey(parts: seq<string>)
    ensures Join(parts + ["+"], "+") == Join(parts + ["", ""], "+")
  {
    if parts == [] {
      assert Join(["+"], "+") == "+";
      assert ["", ""][1..] == [""];
      assert Join(["", ""], "+") == "" + "+" + Join([""], "+");
      assert parts + ["+"] == ["+"] && parts + ["", ""] == ["", ""];
    } else {
      assert (parts + ["+"])[1..] == parts[1..] + ["+"];
      assert (parts + ["", ""])[1..] == parts[1..] + ["", ""];
      JoinPlusKey(parts[1..]);
    }
  }

  lemma TrimmedStay(parts: seq<string>)
    requires forall k :: 0 <= k < |parts| ==> Trimmed(parts[k])
    ensures TrimAll(parts) == parts
  {
    forall k | 0 <= k < |parts| ensures Trim(parts[k]) == parts[k] { TrimIsTrimmed(parts[k]); }
  }

  lemma RawTokensOfJoin(parts: seq<string>)
    requires |parts| > 0 && forall k :: 0 <= k < |parts| ==> WordToken(parts[k])
    ensures TrimAll(Split(Lower(Join(parts, "+")), '+')) == parts
  {
    JoinKeepsLower(parts);
    LowerFixesLowerText(Join(parts, "+"));
    SplitJoin(parts, '+');
    TrimmedStay(parts);
  }

  lemma WordTokens(m: seq<string>, key: string)
    requires CleanWords(m) && key != "" && WordToken(key)
    ensures ShortcutTokens(Join(m + [key], "+")) == m + [key]
  {
    RawTokensOfJoin(m + [key]);
    assert DropTrailingEmpty(m + [key]) == m + [key];
  }

  lemma TrailingPair(m: seq<string>)
    requires CleanWords(m)
    ensures DropTrailingEmpty(m + ["", ""]) == m
  {
    var raw := m + ["", ""];
    assert raw[..|raw| - 1] == m + [""];
    assert (m + [""])[..|m|] == m;
    assert DropTrailingEmpty(m + [""]) == DropTrailingEmpty(m) == m;
  }

  lemma PlusTokens(m: seq<string>)
    requires CleanWords(m)
    ensures ShortcutTokens(Join(m + ["+"], "+")) == m + ["+"]
  {
    hide DropTrailingEmpty, Join, Split, TrimAll, Lower;
    JoinPlusKey(m);
    RawTokensOfJoin(m + ["", ""]);
    TrailingPair(m);
  }

  lemma KeyTextIsKeyToken(key: string)
    requires CanonicalKey(key)
    ensures Kind(KeyText(key)) == KeyName && NormalizeKeyToken(KeyText(key)) == key
    ensures KeyText(key) != "" && (key != "+" ==> WordToken(KeyText(key)))
  {
    assert WordToken("space");
  }

  lemma KeyIsScannedLast(s: Scan, text: string, key: string)
    requires s.key.None? && Kind(text) == KeyName && NormalizeKeyToken(text) == key
    ensures ScanTokens(s, [text]) == Some(s.(key := Some(key)))
  {
    hide Kind, NormalizeKeyToken;
    ScanOne(s, text);
  }

  lemma ReadBack(s: KeybindingShortcut, text: string)
    requires CanonicalKey(s.key)
    requires ShortcutTokens(text) == Modifiers(s) + [KeyText(s.key)]
    ensures ParseShortcut(text) == Some(s)
  {
    hide ShortcutTokens, ScanTokens, Modifiers, KeyText, CanonicalKey, Kind, NormalizeKeyToken, WordToken;
    KeyTextIsKeyToken(s.key);
    ModifiersAreClean(s);
    ScanModifiers(s);
    ScanAppend(NOTHING, Modifiers(s), [KeyText(s.key)]);
    KeyIsScannedLast(Scan(None, s.metaKey, s.ctrlKey, s.shiftKey, s.altKey, s.modKey), KeyText(s.key), s.key);
    assert "" !in Modifiers(s);
  }

  lemma CanonicalRoundTrip(s: KeybindingShortcut)
    requires CanonicalKey(s.key)
    ensures Encode(s).Some? && ParseShortcut(Encode(s).value) == Some(s)
  {
    KeyTextIsKeyToken(s.key);
    ModifiersAreClean(s);
    if s.key == "+" { PlusTokens(Modifiers(s)); } else { WordTokens(Modifiers(s), KeyText(s.key)); }
    ReadBack(s, Join(Modifiers(s) + [KeyText(s.key)], "+"));
  }

  lemma {:induction false} JoinKeepsEnds(parts: seq<string>)
    requires |parts| > 0 && forall k :: 0 <= k < |parts| ==> parts[k] != ""
    ensures var text, last := Join(parts, "+"), parts[|parts| - 1];
            text != "" && text[0] == parts[0][0] && text[|text| - 1] == last[|last| - 1]
  {
    if |parts| > 1 { JoinKeepsEnds(parts[1..]); }
  }

  /** What is written is not blank and has no space around it. */
  lemma EncodingIsTrimmed(s: KeybindingShortcut)
    requires CanonicalKey(s.key)
    ensures Encode(s).Some? && Encode(s).value != "" && Trimmed(Encode(s).value)
  {
    hide WordToken;
    var m, key := Modifiers(s), KeyText(s.key);
    ModifiersAreClean(s);
    KeyTextEnds(s.key);
    assert (m + [key])[|m|] == key;
    JoinKeepsEnds(m + [key]);
    assert m != [] ==> m[0] in {"mod", "meta", "ctrl", "alt", "shift"};
  }

  lemma KeyTextEnds(key: string)
    requires CanonicalKey(key)
    ensures var text := KeyText(key);
            text != "" && !IsSpace(text[0]) && !IsSpace(text[|text| - 1])
  {}

  /** A shortcut is written and read back unchanged exactly when its key is canonical. */
  lemma RoundTripIff(s: KeybindingShortcut)
    ensures (Encode(s).Some? && ParseShortcut(Encode(s).value) == Some(s)) <==> CanonicalKey(s.key)
  {
    if CanonicalKey(s.key) {
      CanonicalRoundTrip(s);
    } else if Encode(s).Some? && ParseShortcut(Encode(s).value) == Some(s) {
      ParsedKeyIsCanonical(Encode(s).value);
    }
  }

  /** Everything the parser returns can be written, and the writing parses back to it. */
  lemma ParsedShortcutReparses(value: string)
    requires ParseShortcut(value).Some?
    ensures var s := ParseShortcut(value).value;
            Encode(s).Some? && ParseShortcut(Encode(s).value) == Some(s)
  {
    ParsedKeyIsCanonical(value);
    CanonicalRoundTrip(ParseShortcut(value).value);
  }
}
