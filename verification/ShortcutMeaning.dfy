/** What a written shortcut means, told by its parts and not by the scanner: which words stand for a
    modifier, and which one is the key. */
module ShortcutMeaning {
  import opened Text
  import opened Shortcut

  /** Every spelling of a modifier. */
  predicate IsModifier(word: string) { word in {"cmd", "meta", "ctrl", "control", "shift", "alt", "option", "mod"} }

  function KeyWords(words: seq<string>): seq<string> {
    if words == [] then [] else (if IsModifier(words[0]) then [] else [words[0]]) + KeyWords(words[1..])
  }

  /** The two keys that are written by a name of their own. */
  function KeyMeant(word: string): string {
    if word == "space" then " " else if word == "esc" then "escape" else word
  }

  predicate Flags(s: KeybindingShortcut, words: seq<string>) {
    && (s.metaKey <==> "cmd" in words || "meta" in words)
    && (s.ctrlKey <==> "ctrl" in words || "control" in words)
    && (s.shiftKey <==> "shift" in words)
    && (s.altKey <==> "alt" in words || "option" in words)
    && (s.modKey <==> "mod" in words)
  }

  ghost predicate ScanAgrees(before: Scan, after: Scan, words: seq<string>) {
    && (after.meta <==> before.meta || "cmd" in words || "meta" in words)
    && (after.ctrl <==> before.ctrl || "ctrl" in words || "control" in words)
    && (after.shift <==> before.shift || "shift" in words)
    && (after.alt <==> before.alt || "alt" in words || "option" in words)
    && (after.mod <==> before.mod || "mod" in words)
    && after.key == (if KeyWords(words) == [] then before.key else Some(KeyMeant(KeyWords(words)[0])))
  }

  lemma OneWord(s: Scan, word: string)
    ensures ScanToken(s, word).Some? <==> IsModifier(word) || s.key.None?
    ensures ScanToken(s, word).Some? ==> ScanAgrees(s, ScanToken(s, word).value, [word])
  {
    assert [word][1..] == [];
    assert KeyWords([word]) == if IsModifier(word) then [] else [word];
  }

  lemma {:induction false} WordsMean(s: Scan, words: seq<string>)
    ensures ScanTokens(s, words).Some? <==> |KeyWords(words)| + (if s.key.Some? then 1 else 0) <= 1
    ensures ScanTokens(s, words).Some? ==> ScanAgrees(s, ScanTokens(s, words).value, words)
    decreases |words|
  {
    hide ScanToken, IsModifier, KeyMeant;
    if words != [] {
      OneWord(s, words[0]);
      assert words == [words[0]] + words[1..];
      assert forall w :: w in words <==> w == words[0] || w in words[1..];
      KeyWordsSplit(words);
      if ScanToken(s, words[0]).Some? {
        WordsMean(ScanToken(s, words[0]).value, words[1..]);
      }
    }
  }

  lemma KeyWordsSplit(words: seq<string>)
    requires words != []
    ensures KeyWords(words) == KeyWords([words[0]]) + KeyWords(words[1..])
    ensures KeyWords([words[0]]) == if IsModifier(words[0]) then [] else [words[0]]
  {
    assert [words[0]][1..] == [];
  }

  /** Words written with plus signs in between are a shortcut exactly when one of them and no other is no
      modifier; that one is the key, and the modifiers are those that are spelled, in whatever order. */
  lemma WrittenShortcutMeans(words: seq<string>)
    requires CleanWords(words) && words != []
    ensures var s := ParseShortcut(Join(words, "+"));
            && (s.Some? <==> |KeyWords(words)| == 1)
            && (s.Some? ==> s.value.key == KeyMeant(KeyWords(words)[0]) && Flags(s.value, words))
  {
    hide ScanTokens, KeyWords, Kind;
    var n := |words| - 1;
    assert words == words[..n] + [words[n]];
    WordTokens(words[..n], words[n]);
    assert "" !in words;
    WordsMean(NOTHING, words);
  }
}
