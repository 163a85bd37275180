/** Strings as the scripts see them: the whitespace class of `\s` and `trim()`, ASCII case folding,
    splitting and joining, and the lexicographic order of `<=` on strings. */
module Text {

  datatype Option<+T> = None | Some(value: T)

  predicate IsSpace(c: char) {
    || c == ' ' || '\t' <= c <= '\r' || c == '\U{00A0}' || c == '\U{1680}'
    || '\U{2000}' <= c <= '\U{200A}'
    || c == '\U{2028}' || c == '\U{2029}' || c == '\U{202F}' || c == '\U{205F}'
    || c == '\U{3000}' || c == '\U{FEFF}'
  }

  predicate IsLower(c: char) { 'a' <= c <= 'z' }

  predicate IsUpper(c: char) { 'A' <= c <= 'Z' }

  predicate IsDigit(c: char) { '0' <= c <= '9' }

  predicate IsLetter(c: char) { IsLower(c) || IsUpper(c) }

  /** The four characters that `.` does not match in a regular expression. */
  predicate IsLineTerminator(c: char) {
    c == '\n' || c == '\r' || c == '\U{2028}' || c == '\U{2029}'
  }

  function TrimStart(s: string): (r: string)
    ensures r == "" || !IsSpace(r[0])
  {
    if s != "" && IsSpace(s[0]) then TrimStart(s[1..]) else s
  }

  function TrimEnd(s: string): (r: string)
    ensures r == "" || !IsSpace(r[|r| - 1])
    ensures r <= s
  {
    if s != "" && IsSpace(s[|s| - 1]) then TrimEnd(s[..|s| - 1]) else s
  }

  function Trim(s: string): string { TrimEnd(TrimStart(s)) }

  /** No whitespace at either end; the empty string is trimmed. */
  predicate Trimmed(s: string) {
    s == "" || (!IsSpace(s[0]) && !IsSpace(s[|s| - 1]))
  }

  lemma TrimIsTrimmed(s: string)
    ensures Trimmed(Trim(s))
    ensures Trimmed(s) ==> Trim(s) == s
  {
    var t := TrimStart(s);
    if TrimEnd(t) != "" {
      assert TrimEnd(t)[0] == t[0];
    }
  }

  lemma {:induction false} TrimKeepsMembers(s: string, c: char)
    requires c in Trim(s)
    ensures c in s
  {
    if s != "" && IsSpace(s[0]) {
      TrimKeepsMembers(s[1..], c);
    } else {
      assert TrimStart(s) == s;
      assert Trim(s) <= s;
    }
  }

  // ----- What trimming leaves.

  predicate AllSpace(s: string) { forall c :: c in s ==> IsSpace(c) }

  lemma {:induction false} SpaceRun(s: string) returns (n: nat)
    ensures n <= |s| && TrimStart(s) == s[n..] && forall k :: 0 <= k < n ==> IsSpace(s[k])
  {
    n := 0;
    if s != "" && IsSpace(s[0]) {
      var m := SpaceRun(s[1..]);
      n := m + 1;
      assert s[1..][m..] == s[n..];
      forall k | 0 < k < n ensures IsSpace(s[k]) { assert s[k] == s[1..][k - 1]; }
    }
  }

  lemma StartIsSpace(s: string) returns (space: string)
    ensures AllSpace(space) && s == space + TrimStart(s)
  {
    hide TrimStart;
    var n := SpaceRun(s);
    space := s[..n];
  }

  lemma {:induction false} SpaceIsTrimmed(space: string, text: string)
    requires AllSpace(space) && (text == "" || !IsSpace(text[0]))
    ensures TrimStart(space + text) == text
  {
    if space == "" {
      assert space + text == text;
    } else {
      assert (space + text)[1..] == space[1..] + text;
      SpaceIsTrimmed(space[1..], text);
    }
  }

  lemma {:induction false} EndRun(s: string)
    ensures forall k :: |TrimEnd(s)| <= k < |s| ==> IsSpace(s[k])
  {
    if s != "" && IsSpace(s[|s| - 1]) { EndRun(s[..|s| - 1]); }
  }

  lemma {:induction false} EndIsTrimmed(text: string, space: string)
    requires AllSpace(space) && (text == "" || !IsSpace(text[|text| - 1]))
    ensures TrimEnd(text + space) == text
  {
    if space == "" {
      assert text + space == text;
    } else {
      var n := |space| - 1;
      assert (text + space)[..|text| + n] == text + space[..n];
      EndIsTrimmed(text, space[..n]);
    }
  }

  /** Trimming finds what lies between space and space. */
  lemma TrimFinds(s: string, text: string)
    requires text != ""
    ensures Trim(s) == text <==>
            Trimmed(text) && exists before, after :: AllSpace(before) && AllSpace(after) && s == before + (text + after)
  {
    hide TrimStart, TrimEnd;
    TrimIsTrimmed(s);
    if Trim(s) == text {
      var before := StartIsSpace(s);
      var rest := TrimStart(s);
      EndRun(rest);
      var after := rest[|text|..];
      assert rest == text + after && AllSpace(after);
    }
    if Trimmed(text) && exists before, after :: AllSpace(before) && AllSpace(after) && s == before + (text + after) {
      var before, after :| AllSpace(before) && AllSpace(after) && s == before + (text + after);
      SpaceIsTrimmed(before, text + after);
      EndIsTrimmed(text, after);
    }
  }

  /** ASCII case folding. */
  function LowerChar(c: char): char {
    if IsUpper(c) then c + ('a' - 'A') else c
  }

  function Lower(s: string): (r: string)
    ensures |r| == |s|
    ensures forall k :: 0 <= k < |s| ==> r[k] == LowerChar(s[k])
  {
    seq(|s|, (k: nat) requires k < |s| => LowerChar(s[k]))
  }

  predicate IsLowerText(s: string) { forall c :: c in s ==> !IsUpper(c) }

  lemma LowerFixesLowerText(s: string)
    ensures IsLowerText(Lower(s))
    ensures Lower(s) == s <==> IsLowerText(s)
  {
    var t := Lower(s);
    forall c | c in t ensures !IsUpper(c) {
      var k :| 0 <= k < |t| && t[k] == c;
      assert t[k] == LowerChar(s[k]);
    }
    if !IsLowerText(s) {
      var c :| c in s && IsUpper(c);
      var k :| 0 <= k < |s| && s[k] == c;
      assert t[k] != s[k];
    }
  }

  /** `s.split(sep)` for a one-character separator. */
  function Split(s: string, sep: char): (parts: seq<string>)
    ensures |parts| > 0
    ensures forall k :: 0 <= k < |parts| ==> sep !in parts[k]
  {
    if s == "" then [""]
    else
      var rest := Split(s[1..], sep);
      if s[0] == sep then [""] + rest else [[s[0]] + rest[0]] + rest[1..]
  }

  function Join(parts: seq<string>, sep: string): string {
    if parts == [] then ""
    else if |parts| == 1 then parts[0]
    else parts[0] + sep + Join(parts[1..], sep)
  }

  lemma {:induction false} SplitAfter(head: string, tail: string, sep: char)
    requires sep !in head
    ensures Split(head + [sep] + tail, sep) == [head] + Split(tail, sep)
  {
    var s := head + [sep] + tail;
    if head == "" {
      assert s[1..] == tail;
    } else {
      assert s[1..] == head[1..] + [sep] + tail;
      SplitAfter(head[1..], tail, sep);
      assert [s[0]] + head[1..] == head;
    }
  }

  lemma {:induction false} SplitAtom(s: string, sep: char)
    requires sep !in s
    ensures Split(s, sep) == [s]
  {
    if s != "" {
      SplitAtom(s[1..], sep);
      assert [s[0]] + s[1..] == s;
    }
  }

  /** Splitting undoes joining for parts free of the separator. */
  lemma {:induction false} SplitJoin(parts: seq<string>, sep: char)
    requires |parts| > 0
    requires forall k :: 0 <= k < |parts| ==> sep !in parts[k]
    ensures Split(Join(parts, [sep]), sep) == parts
  {
    if |parts| == 1 {
      SplitAtom(parts[0], sep);
    } else {
      SplitJoin(parts[1..], sep);
      SplitAfter(parts[0], Join(parts[1..], [sep]), sep);
    }
  }

  /** String comparison `a <= b` by code unit. */
  predicate Le(a: string, b: string) {
    a == "" || (b != "" && (a[0] < b[0] || (a[0] == b[0] && Le(a[1..], b[1..]))))
  }

  lemma LeTotal(a: string, b: string)
    ensures Le(a, b) || Le(b, a)
  {}

  lemma {:induction false} LeAntisymmetric(a: string, b: string)
    requires Le(a, b) && Le(b, a)
    ensures a == b
  {
    if a != "" {
      LeAntisymmetric(a[1..], b[1..]);
      assert a == [a[0]] + a[1..] && b == [b[0]] + b[1..];
    }
  }

  lemma {:induction false} LeTransitive(a: string, b: string, c: string)
    requires Le(a, b) && Le(b, c)
    ensures Le(a, c)
  {
    if a != "" && a[0] == b[0] == c[0] {
      LeTransitive(a[1..], b[1..], c[1..]);
    }
  }

  ghost predicate IsLeast(least: string, keys: set<string>) {
    least in keys && forall k :: k in keys ==> Le(least, k)
  }

  lemma LeastExists(keys: set<string>)
    requires keys != {}
    ensures exists least :: IsLeast(least, keys)
  {
    var pick :| pick in keys;
    var rest := keys - {pick};
    LeTotal(pick, pick);
    if rest == {} {
      assert keys == {pick};
      assert IsLeast(pick, keys);
    } else {
      LeastExists(rest);
      var least :| IsLeast(least, rest);
      LeTotal(pick, least);
      if Le(pick, least) {
        forall k | k in keys ensures Le(pick, k) {
          if k != pick { LeTransitive(pick, least, k); }
        }
        assert IsLeast(pick, keys);
      } else {
        assert IsLeast(least, keys);
      }
    }
  }

  /** The first key in string order; unique because the order is antisymmetric. */
  ghost function LeastKey(keys: set<string>): (least: string)
    requires keys != {}
    ensures IsLeast(least, keys)
  {
    LeastExists(keys);
    var least :| IsLeast(least, keys);
    least
  }

  /** `Object.keys(...).toSorted()`: the members of a set in string order. */
  ghost function SortedKeys(keys: set<string>): (r: seq<string>)
    ensures forall k :: k in r <==> k in keys
    ensures |r| == |keys|
    ensures forall i, j :: 0 <= i < j < |r| ==> Le(r[i], r[j]) && r[i] != r[j]
  {
    if keys == {} then []
    else
      var least := LeastKey(keys);
      [least] + SortedKeys(keys - {least})
  }
}
