/** Lines and scalar values of a macOS update manifest (scripts/merge-mac-update-manifests.ts):
    the line patterns, quoting, and the reading and printing of values. */
module ManifestText {
  import opened Text
  import opened Decimal

  predicate OneLine(s: string) { forall c :: c in s ==> !IsLineTerminator(c) }

  // ----- Scalar values.

  /** A number is `units / 10^places`. */
  datatype Scalar = Str(text: string) | Num(units: int, places: nat) | Bool(truth: bool)

  predicate CanonicalNumber(units: int, places: nat) { places == 0 || units % 10 != 0 }

  function Reduced(units: int, places: nat): (v: Scalar)
    ensures v.Num? && CanonicalNumber(v.units, v.places)
    decreases places
  {
    if places > 0 && units % 10 == 0 then Reduced(units / 10, places - 1) else Num(units, places)
  }

  /** The digits and the number of decimal places of a text `\d+(?:\.\d+)?`. */
  function ReadMagnitude(parts: seq<string>): Option<(nat, nat)> {
    if |parts| == 1 && AllDigits(parts[0]) then Some((NatValue(parts[0]), 0))
    else if |parts| == 2 && AllDigits(parts[0]) && AllDigits(parts[1]) then
      Some((NatValue(parts[0] + parts[1]), |parts[1]|))
    else None
  }

  /** `Number(value)` for texts of the form `-?\d+(?:\.\d+)?`. */
  function ReadNumber(text: string): (v: Option<Scalar>)
    ensures v.Some? ==> v.value.Num? && CanonicalNumber(v.value.units, v.value.places)
  {
    var negative := text != "" && text[0] == '-';
    match ReadMagnitude(Split(if negative then text[1..] else text, '.'))
    case Some((digits, places)) => Some(Reduced(Signed(negative, digits), places))
    case None => None
  }

  function Signed(negative: bool, n: int): int { if negative then -n else n }

  function Abs(n: int): nat { if n < 0 then -n else n }

  function Padded(digits: string, width: nat): (r: string)
    requires AllDigits(digits)
    ensures AllDigits(r) && |r| >= width
    decreases width - |digits|
  {
    if |digits| < width then Padded("0" + digits, width) else digits
  }

  /** `String(n)`. */
  function NumberText(units: int, places: nat): string {
    (if units < 0 then "-" else "") + MagnitudeText(Abs(units), places)
  }

  function MagnitudeText(units: nat, places: nat): string {
    if places == 0 then NatText(units)
    else
      var digits := Padded(NatText(units), places + 1);
      digits[..|digits| - places] + "." + digits[|digits| - places..]
  }

  lemma {:induction false} LeadingZero(digits: string)
    requires AllDigits(digits)
    ensures NatValue("0" + digits) == NatValue(digits)
  {
    var s := "0" + digits;
    assert forall k :: 1 <= k < |s| ==> s[k] == digits[k - 1];
    if |digits| > 1 {
      LeadingZero(digits[..|digits| - 1]);
      assert s[..|s| - 1] == "0" + digits[..|digits| - 1];
    } else {
      assert s[..1] == "0";
    }
  }

  lemma {:induction false} PaddedKeepsValue(digits: string, width: nat)
    requires AllDigits(digits)
    ensures NatValue(Padded(digits, width)) == NatValue(digits)
    decreases width - |digits|
  {
    if |digits| < width {
      LeadingZero(digits);
      PaddedKeepsValue("0" + digits, width);
    }
  }

  lemma DigitsHaveNoPoint(digits: string)
    requires AllDigits(digits)
    ensures '.' !in digits
  {}

  lemma PointSplits(digits: string, places: nat)
    requires AllDigits(digits) && 0 < places < |digits|
    ensures var text := digits[..|digits| - places] + "." + digits[|digits| - places..];
            ReadMagnitude(Split(text, '.')) == Some((NatValue(digits), places))
  {
    var whole, fraction := digits[..|digits| - places], digits[|digits| - places..];
    DigitsHaveNoPoint(whole);
    DigitsHaveNoPoint(fraction);
    SplitAtom(fraction, '.');
    SplitAfter(whole, fraction, '.');
    assert whole + fraction == digits;
  }

  lemma MagnitudeRoundTrip(units: nat, places: nat)
    ensures ReadMagnitude(Split(MagnitudeText(units, places), '.')) == Some((units, places))
  {
    hide Split, Padded, NatText, NatValue;
    NatRoundTrip(units);
    if places == 0 {
      DigitsHaveNoPoint(NatText(units));
      SplitAtom(NatText(units), '.');
    } else {
      PaddedKeepsValue(NatText(units), places + 1);
      PointSplits(Padded(NatText(units), places + 1), places);
    }
  }

  lemma MagnitudeStartsWithDigit(units: nat, places: nat)
    ensures var t := MagnitudeText(units, places);
            t != "" && IsDigit(t[0]) && IsDigit(t[|t| - 1])
  {}

  /** Printing a number and reading it back gives the number. */
  lemma NumberRoundTrip(units: int, places: nat)
    requires CanonicalNumber(units, places)
    ensures ReadNumber(NumberText(units, places)) == Some(Num(units, places))
  {
    var t, m := NumberText(units, places), MagnitudeText(Abs(units), places);
    MagnitudeStartsWithDigit(Abs(units), places);
    MagnitudeRoundTrip(Abs(units), places);
    if units < 0 {
      assert t[1..] == m;
    } else {
      assert t == m;
    }
  }

  // ----- Quotes.

  /** Every `'` doubled. */
  function Doubled(s: string): string {
    if s == "" then "" else (if s[0] == '\'' then "''" else [s[0]]) + Doubled(s[1..])
  }

  /** Every `''`, from the left, made `'`. */
  function Undoubled(s: string): (r: string)
    ensures |r| <= |s|
    ensures forall c :: c in r ==> c in s
  {
    if |s| >= 2 && s[0] == '\'' && s[1] == '\'' then "'" + Undoubled(s[2..])
    else if s == "" then ""
    else [s[0]] + Undoubled(s[1..])
  }

  function Quote(s: string): string { "'" + Doubled(s) + "'" }

  predicate BetweenQuotes(s: string) { s != "" && s[0] == '\'' && s[|s| - 1] == '\'' }

  lemma {:induction false} UndoubledDoubled(s: string)
    ensures Undoubled(Doubled(s)) == s
  {
    if s != "" {
      UndoubledDoubled(s[1..]);
      var t := Doubled(s[1..]);
      if s[0] == '\'' {
        assert ("''" + t)[2..] == t;
      } else {
        assert ([s[0]] + t)[1..] == t;
      }
      assert s == [s[0]] + s[1..];
    }
  }

  lemma {:induction false} DoubledKeepsMembers(s: string, c: char)
    ensures c in Doubled(s) ==> c in s
  {
    if s != "" {
      DoubledKeepsMembers(s[1..], c);
      assert s == [s[0]] + s[1..];
    }
  }

  lemma QuoteIsOneLine(s: string)
    requires OneLine(s)
    ensures OneLine(Quote(s))
  {
    forall c | c in Quote(s) ensures !IsLineTerminator(c) { DoubledKeepsMembers(s, c); }
  }

  /** `stripSingleQuotes`. */
  function StripQuotes(s: string): (r: string)
    ensures OneLine(s) ==> OneLine(r)
  {
    if !BetweenQuotes(s) then s
    else if |s| == 1 then ""
    else Undoubled(s[1..|s| - 1])
  }

  function ParseScalar(raw: string): (v: Scalar)
    ensures OneLine(raw) && v.Str? ==> OneLine(v.text)
    ensures v.Num? ==> CanonicalNumber(v.units, v.places)
  {
    var trimmed := Trim(raw);
    assert OneLine(raw) ==> OneLine(trimmed) by {
      forall c | c in trimmed ensures c in raw { TrimKeepsMembers(raw, c); }
    }
    if BetweenQuotes(trimmed) && |trimmed| >= 2 then Str(Undoubled(trimmed[1..|trimmed| - 1]))
    else if trimmed == "true" then Bool(true)
    else if trimmed == "false" then Bool(false)
    else if ReadNumber(trimmed).Some? then ReadNumber(trimmed).value
    else Str(trimmed)
  }

  function PrintScalar(v: Scalar): string {
    match v
    case Str(text) => Quote(text)
    case Num(units, places) => NumberText(units, places)
    case Bool(truth) => if truth then "true" else "false"
  }

  predicate PrintableScalar(v: Scalar) {
    match v
    case Str(text) => OneLine(text)
    case Num(units, places) => CanonicalNumber(units, places)
    case Bool(_) => true
  }

  lemma NumberTextPlain(units: int, places: nat)
    ensures var t := NumberText(units, places);
            t != "" && Trimmed(t) && t[0] != '\'' && t != "true" && t != "false"
  {
    MagnitudeStartsWithDigit(Abs(units), places);
    var t, m := NumberText(units, places), MagnitudeText(Abs(units), places);
    assert t[|t| - 1] == m[|m| - 1];
  }

  lemma NumberTextOneLine(units: int, places: nat)
    ensures OneLine(NumberText(units, places))
  {
    var m := MagnitudeText(Abs(units), places);
    forall c | c in m ensures !IsLineTerminator(c) {
      if places == 0 {
        assert AllDigits(m);
      } else {
        assert AllDigits(Padded(NatText(Abs(units)), places + 1));
      }
    }
  }

  /** What is printed is one non-blank trimmed line, and reads back as the value. */
  lemma ScalarRoundTrip(v: Scalar)
    requires PrintableScalar(v)
    ensures ParseScalar(PrintScalar(v)) == v
    ensures PrintScalar(v) != "" && Trimmed(PrintScalar(v)) && OneLine(PrintScalar(v))
  {
    hide Undoubled, Doubled, ReadNumber, NumberText, TrimStart, TrimEnd;
    var t := PrintScalar(v);
    match v
    case Str(text) =>
      QuoteIsOneLine(text);
      TrimIsTrimmed(t);
      assert t[1..|t| - 1] == Doubled(text);
      UndoubledDoubled(text);
    case Num(units, places) =>
      NumberTextPlain(units, places);
      NumberTextOneLine(units, places);
      TrimIsTrimmed(t);
      NumberRoundTrip(units, places);
    case Bool(truth) =>
      TrimIsTrimmed(t);
  }

  // ----- Line patterns, over a line without trailing whitespace.

  datatype Line =
    | Blank
    | Url(text: string)
    | Sha(text: string)
    | Size(size: nat)
    | FilesHeader
    | Entry(key: string, raw: string)
    | Unsupported

  /** What `\s*(.+)$` captures: the text after the leading whitespace, on one line. */
  function Payload(rest: string): (r: Option<string>)
    ensures r.Some? ==> r.value != "" && OneLine(r.value)
  {
    var text := TrimStart(rest);
    if text != "" && OneLine(text) then Some(text) else None
  }

  function After(prefix: string, line: string): (r: Option<string>)
    ensures r.Some? ==> OneLine(r.value)
  {
    if prefix <= line then Payload(line[|prefix|..]) else None
  }

  function SizeAfter(prefix: string, line: string): Option<nat> {
    if prefix <= line && AllDigits(TrimStart(line[|prefix|..]))
    then Some(NatValue(TrimStart(line[|prefix|..])))
    else None
  }

  /** The length of the leading run of letters and digits. */
  function KeyRun(s: string): (n: nat)
    ensures n <= |s|
    ensures forall k :: 0 <= k < n ==> IsLetter(s[k]) || IsDigit(s[k])
  {
    if s != "" && (IsLetter(s[0]) || IsDigit(s[0])) then 1 + KeyRun(s[1..]) else 0
  }

  predicate IsKey(s: string) {
    s != "" && IsLetter(s[0]) && forall k :: 0 <= k < |s| ==> IsLetter(s[k]) || IsDigit(s[k])
  }

  function EntryOf(line: string): (r: Option<(string, string)>)
    ensures r.Some? ==> IsKey(r.value.0) && OneLine(r.value.1)
  {
    var n := KeyRun(line);
    if 0 < n < |line| && IsLetter(line[0]) && line[n] == ':' && Payload(line[n + 1..]).Some?
    then Some((line[..n], Payload(line[n + 1..]).value))
    else None
  }

  const URL := "  - url:"
  const SHA := "    sha512:"
  const SIZE := "    size:"

  function Classify(line: string): (r: Line)
    ensures r.Url? || r.Sha? ==> OneLine(r.text)
    ensures r.Entry? ==> IsKey(r.key) && OneLine(r.raw)
  {
    if line == "" then Blank
    else if After(URL, line).Some? then Url(After(URL, line).value)
    else if After(SHA, line).Some? then Sha(After(SHA, line).value)
    else if SizeAfter(SIZE, line).Some? then Size(SizeAfter(SIZE, line).value)
    else if line == "files:" then FilesHeader
    else match EntryOf(line)
      case Some((key, raw)) => Entry(key, raw)
      case None => Unsupported
  }

  // ----- Lines as they are printed.

  /** The value a reader finds in `s` printed bare at the end of a line. */
  function Reread(s: string): (r: Option<string>)
    ensures r.Some? ==> r.value != "" && OneLine(r.value) && |r.value| <= |s|
  {
    TrimStartShrinks(TrimEnd(s));
    Payload(TrimEnd(s))
  }

  lemma TrimStartShrinks(s: string)
    ensures |TrimStart(s)| <= |s|
    ensures |TrimStart(s)| == |s| ==> TrimStart(s) == s
  {}

  /** A bare value survives exactly when it is one line, not blank and trimmed. */
  lemma RereadIff(s: string)
    ensures Reread(s) == Some(s) <==> s != "" && Trimmed(s) && OneLine(s)
    ensures Reread(s).Some? && |Reread(s).value| == |s| ==> Reread(s) == Some(s)
    ensures Reread(s).Some? ==> Trimmed(Reread(s).value)
  {
    var e := TrimEnd(s);
    TrimStartShrinks(e);
    var t := TrimStart(e);
    if t != "" { TrimStartKeepsLast(e); }
  }

  lemma {:induction false} TrimStartKeepsLast(s: string)
    requires TrimStart(s) != ""
    ensures var t := TrimStart(s); t[|t| - 1] == s[|s| - 1]
  {
    if IsSpace(s[0]) {
      TrimStartKeepsLast(s[1..]);
    }
  }

  lemma {:induction false} TrimEndAfter(prefix: string, s: string)
    requires prefix != "" && !IsSpace(prefix[|prefix| - 1])
    ensures TrimEnd(prefix + s) == prefix + TrimEnd(s)
    decreases |s|
  {
    var t := prefix + s;
    if s == "" {
      assert t == prefix;
    } else if IsSpace(s[|s| - 1]) {
      assert t[..|t| - 1] == prefix + s[..|s| - 1];
      TrimEndAfter(prefix, s[..|s| - 1]);
    }
  }

  /** Reading `prefix` and a space and `s` back. */
  lemma PrintedLine(prefix: string, s: string)
    requires prefix != "" && !IsSpace(prefix[|prefix| - 1])
    ensures var line := TrimEnd(prefix + " " + s);
            && prefix <= line
            && Payload(line[|prefix|..]) == Reread(s)
  {
    assert prefix + " " + s == prefix + (" " + s);
    TrimEndAfter(prefix, " " + s);
    var rest := TrimEnd(" " + s);
    assert (prefix + rest)[|prefix|..] == rest;
    SpaceBefore(s);
  }

  lemma {:induction false} SpaceBefore(s: string)
    ensures Payload(TrimEnd(" " + s)) == Reread(s)
  {
    var t := " " + s;
    if s == "" {
      assert t[..0] == "";
    } else if IsSpace(s[|s| - 1]) {
      assert t[..|t| - 1] == " " + s[..|s| - 1];
      SpaceBefore(s[..|s| - 1]);
    } else {
      assert t[1..] == s;
    }
  }

  lemma {:induction false} KeyRunOfKey(key: string, rest: string)
    requires forall k :: 0 <= k < |key| ==> IsLetter(key[k]) || IsDigit(key[k])
    requires rest != "" && rest[0] == ':'
    ensures KeyRun(key + rest) == |key|
  {
    if key == "" {
      assert key + rest == rest;
    } else {
      assert (key + rest)[1..] == key[1..] + rest;
      KeyRunOfKey(key[1..], rest);
    }
  }

  lemma EntryAt(key: string, rest: string)
    requires IsKey(key) && rest != "" && rest[0] == ':'
    ensures EntryOf(key + rest) ==
            if Payload(rest[1..]).Some? then Some((key, Payload(rest[1..]).value)) else None
  {
    var line := key + rest;
    KeyRunOfKey(key, rest);
    assert line[..|key|] == key && line[|key| + 1..] == rest[1..] && line[0] == key[0];
  }

  /** Lines that begin with a letter are blank, file or size lines never. */
  lemma ClassifyLetter(line: string)
    requires line != "" && IsLetter(line[0])
    ensures Classify(line) ==
            if line == "files:" then FilesHeader
            else if EntryOf(line).Some? then Entry(EntryOf(line).value.0, EntryOf(line).value.1)
            else Unsupported
  {
    assert URL[0] == ' ' && SHA[0] == ' ' && SIZE[0] == ' ';
  }

  /** A printed entry is read as that entry, unless its value is blank or has line breaks. */
  lemma PrintedEntry(key: string, s: string)
    requires IsKey(key) && (key != "files" || Reread(s).Some?)
    ensures Classify(TrimEnd(key + ": " + s)) ==
            if Reread(s).Some? then Entry(key, Reread(s).value) else Unsupported
  {
    var rest := EntryLine(key, s);
    if key + rest == "files:" {
      KeyOfFiles(key, rest);
      EntryAt(key, ":");
    }
  }

  lemma EntryLine(key: string, s: string) returns (rest: string)
    requires IsKey(key)
    ensures TrimEnd(key + ": " + s) == key + rest && rest != "" && rest[0] == ':'
    ensures EntryOf(key + rest) == if Reread(s).Some? then Some((key, Reread(s).value)) else None
    ensures Classify(key + rest) ==
            if key + rest == "files:" then FilesHeader
            else if Reread(s).Some? then Entry(key, Reread(s).value) else Unsupported
  {
    var prefix := key + ":";
    assert prefix + " " + s == key + ": " + s;
    PrintedLine(prefix, s);
    var line := TrimEnd(prefix + " " + s);
    rest := line[|key|..];
    assert line == key + rest && rest[1..] == line[|prefix|..];
    assert rest[0] == line[|key|] == ':';
    EntryAt(key, rest);
    assert (key + rest)[0] == key[0];
    ClassifyLetter(key + rest);
  }

  lemma KeyOfFiles(key: string, rest: string)
    requires IsKey(key) && rest != "" && rest[0] == ':' && key + rest == "files:"
    ensures key == "files" && rest == ":"
  {
    KeyRunOfKey(key, rest);
    KeyRunOfKey("files", ":");
    assert "files" + ":" == "files:";
    assert "files:"[..5] == "files" && "files:"[5..] == ":";
    assert (key + rest)[..|key|] == key && (key + rest)[|key|..] == rest;
  }
}
