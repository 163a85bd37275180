/** What one line of an update manifest says, what a number in it stands for, and where lines end. */
module ManifestLines {
  import opened Text
  import opened Decimal
  import opened ManifestText
  import opened Manifest

  // ----- A prefix, some space, and the rest.

  /** `text` is what follows the prefix and any space, on one line to the end. */
  ghost predicate Gives(line: string, prefix: string, text: string) {
    && text != "" && !IsSpace(text[0]) && OneLine(text)
    && exists space :: AllSpace(space) && line == prefix + (space + text)
  }

  lemma AfterIff(line: string, prefix: string, text: string)
    ensures After(prefix, line) == Some(text) <==> Gives(line, prefix, text)
  {
    if prefix <= line {
      var rest := line[|prefix|..];
      var space := StartIsSpace(rest);
      assert line == prefix + rest;
    }
    if Gives(line, prefix, text) {
      var space :| AllSpace(space) && line == prefix + (space + text);
      assert line[|prefix|..] == space + text;
      SpaceIsTrimmed(space, text);
    }
  }

  ghost predicate GivesNumber(line: string, prefix: string, n: nat) {
    exists space, digits :: AllSpace(space) && AllDigits(digits) && line == prefix + (space + digits) && n == NatValue(digits)
  }

  lemma SizeAfterIff(line: string, prefix: string, n: nat)
    ensures SizeAfter(prefix, line) == Some(n) <==> GivesNumber(line, prefix, n)
  {
    if prefix <= line {
      var rest := line[|prefix|..];
      var space := StartIsSpace(rest);
      assert line == prefix + rest;
    }
    if GivesNumber(line, prefix, n) {
      var space, digits :| AllSpace(space) && AllDigits(digits) && line == prefix + (space + digits) && n == NatValue(digits);
      assert line[|prefix|..] == space + digits;
      SpaceIsTrimmed(space, digits);
    }
  }

  lemma PayloadIff(line: string, key: string, text: string)
    requires key + ":" <= line
    ensures Payload(line[|key| + 1..]) == Some(text) <==> Gives(line, key + ":", text)
  {
    AfterIff(line, key + ":", text);
  }

  lemma EntryIff(line: string, key: string, raw: string)
    ensures EntryOf(line) == Some((key, raw)) <==> IsKey(key) && Gives(line, key + ":", raw)
  {
    hide Payload;
    if IsKey(key) && Gives(line, key + ":", raw) {
      var space :| AllSpace(space) && line == key + ":" + (space + raw);
      var rest := ":" + (space + raw);
      assert line == key + rest;
      KeyRunOfKey(key, rest);
      assert line[..|key|] == key && line[|key|] == ':';
      PayloadIff(line, key, raw);
    }
    if EntryOf(line) == Some((key, raw)) {
      assert key + ":" == line[..|key| + 1];
      PayloadIff(line, key, raw);
    }
  }

  /** Lines of different kinds begin differently. */
  lemma KindsDiffer(line: string)
    ensures line == "" || line == "files:" ==> After(URL, line).None? && After(SHA, line).None? && SizeAfter(SIZE, line).None?
    ensures line == "" || line == "files:" ==> EntryOf(line).None?
    ensures After(URL, line).Some? ==> After(SHA, line).None? && SizeAfter(SIZE, line).None?
    ensures After(SHA, line).Some? ==> SizeAfter(SIZE, line).None?
    ensures EntryOf(line).Some? ==> After(URL, line).None? && After(SHA, line).None? && SizeAfter(SIZE, line).None?
  {
    hide Payload, AllDigits, NatValue, KeyRun;
    assert URL[0] == ' ' && SHA[0] == ' ' && SIZE[0] == ' ';
    assert URL[2] == '-' && SHA[2] == ' ' && SIZE[2] == ' ' && SHA[5] == 'h' && SIZE[5] == 'i';
    if line == "files:" { NoPayload(); }
    if EntryOf(line).Some? { assert line[0] == EntryOf(line).value.0[0]; }
  }

  lemma NoPayload()
    ensures EntryOf("files:").None?
  {
    KeyRunOfKey("files", ":");
    assert "files" + ":" == "files:" && "files:"[6..] == "";
  }

  /** A line names a url, a hash, a size, or a key with a value, opens the list of files, is blank, or
      cannot be read. */
  lemma LineMeans(line: string, text: string, n: nat, key: string)
    ensures Classify(line) == Blank <==> line == ""
    ensures Classify(line) == Url(text) <==> Gives(line, "  - url:", text)
    ensures Classify(line) == Sha(text) <==> Gives(line, "    sha512:", text)
    ensures Classify(line) == Size(n) <==> GivesNumber(line, "    size:", n)
    ensures Classify(line) == FilesHeader <==> line == "files:"
    ensures Classify(line) == Entry(key, text) <==> IsKey(key) && Gives(line, key + ":", text)
  {
    hide After, SizeAfter, EntryOf, Gives, GivesNumber;
    KindsDiffer(line);
    AfterIff(line, URL, text);
    AfterIff(line, SHA, text);
    SizeAfterIff(line, SIZE, n);
    EntryIff(line, key, text);
  }

  // ----- Where lines end.

  /** The lines, each but the last with its ending. */
  function Written(lines: seq<string>, returned: seq<bool>): string
    requires |lines| > 0 && |returned| == |lines| - 1
  {
    if |lines| == 1 then lines[0]
    else lines[0] + (if returned[0] then "\r\n" else "\n") + Written(lines[1..], returned[1..])
  }

  /** Lines that have no line feed, and, but for the last, no carriage return at their end, are found again
      whether they end in a line feed alone or after a carriage return. */
  lemma {:induction false} LinesAreFound(lines: seq<string>, returned: seq<bool>)
    requires |lines| > 0 && |returned| == |lines| - 1
    requires forall k :: 0 <= k < |lines| ==> '\n' !in lines[k]
    requires forall k :: 0 <= k < |lines| - 1 ==> lines[k] == "" || lines[k][|lines[k]| - 1] != '\r'
    ensures SplitLines(Written(lines, returned)) == lines
  {
    var text := Written(lines, returned);
    if |lines| == 1 {
      SplitAtom(lines[0], '\n');
    } else {
      var first := if returned[0] then lines[0] + "\r" else lines[0];
      var rest := Written(lines[1..], returned[1..]);
      assert text == first + ['\n'] + rest;
      SplitAfter(first, rest, '\n');
      LinesAreFound(lines[1..], returned[1..]);
      FirstLine(first, rest);
      assert DropReturn(first) == lines[0];
    }
  }

  lemma FirstLine(first: string, rest: string)
    requires Split(first + ['\n'] + rest, '\n') == [first] + Split(rest, '\n')
    ensures SplitLines(first + ['\n'] + rest) == [DropReturn(first)] + SplitLines(rest)
  {
    var parts, tail := [first] + Split(rest, '\n'), Split(rest, '\n');
    assert forall k :: 0 < k < |parts| ==> parts[k] == tail[k - 1];
  }

  // ----- Numbers.

  function Power(n: nat): nat { if n == 0 then 1 else 10 * Power(n - 1) }

  lemma {:induction false} ReducedValue(units: int, places: nat)
    ensures var v := Reduced(units, places);
            v.places <= places && v.units * Power(places - v.places) == units
    decreases places
  {
    if places > 0 && units % 10 == 0 {
      ReducedValue(units / 10, places - 1);
      var v := Reduced(units / 10, places - 1);
      var p := Power(places - 1 - v.places);
      assert Power(places - v.places) == 10 * p;
      assert v.units * (10 * p) == 10 * (v.units * p);
    }
  }

  /** Digits, or digits, a point and digits. */
  ghost predicate Decimals(s: string, whole: string, part: string) {
    AllDigits(whole) && if part == "" then s == whole else AllDigits(part) && s == whole + "." + part
  }

  lemma MagnitudeReads(s: string, whole: string, part: string)
    requires Decimals(s, whole, part)
    ensures AllDigits(whole + part) && ReadMagnitude(Split(s, '.')) == Some((NatValue(whole + part), |part|))
  {
    DigitsHaveNoPoint(whole);
    if part == "" {
      SplitAtom(s, '.');
      assert whole + part == whole;
    } else {
      DigitsHaveNoPoint(part);
      assert s == whole + ['.'] + part;
      SplitAfter(whole, part, '.');
      SplitAtom(part, '.');
    }
  }

  /** A number has the value of its digits, in lowest terms. */
  lemma NumberReads(negative: bool, s: string, whole: string, part: string)
    requires Decimals(s, whole, part)
    ensures var read := ReadNumber(if negative then "-" + s else s);
            && read.Some? && CanonicalNumber(read.value.units, read.value.places) && read.value.places <= |part|
            && AllDigits(whole + part)
            && read.value.units * Power(|part| - read.value.places) == (if negative then -1 else 1) * NatValue(whole + part)
  {
    MagnitudeReads(s, whole, part);
    assert s[0] == whole[0] != '-';
    var text := if negative then "-" + s else s;
    assert negative ==> text[1..] == s;
    var units := Signed(negative, NatValue(whole + part));
    ReducedValue(units, |part|);
    assert ReadNumber(text) == Some(Reduced(units, |part|));
  }

  /** Nothing else is a number. */
  lemma OnlyDecimalsAreNumbers(text: string) returns (negative: bool, s: string, whole: string, part: string)
    requires ReadNumber(text).Some?
    ensures Decimals(s, whole, part) && text == if negative then "-" + s else s
  {
    negative := text != "" && text[0] == '-';
    s := if negative then text[1..] else text;
    assert negative ==> text == "-" + text[1..];
    var parts := Split(s, '.');
    whole, part := parts[0], if |parts| == 1 then "" else parts[1];
    SplitJoined(s);
  }

  lemma {:induction false} SplitJoined(s: string)
    ensures Join(Split(s, '.'), ".") == s
  {
    if s != "" {
      SplitJoined(s[1..]);
      var rest, parts := Split(s[1..], '.'), Split(s, '.');
      if s[0] == '.' {
        assert parts[1..] == rest;
      } else {
        assert parts[1..] == rest[1..] && parts[0] == [s[0]] + rest[0];
      }
      assert s == [s[0]] + s[1..];
    }
  }

  // ----- Quotes.

  /** Between quotes, and only there, a text stands for itself with its quotes doubled. */
  lemma QuotedReads(text: string)
    ensures StripQuotes(Quote(text)) == text
    ensures !BetweenQuotes(text) ==> StripQuotes(text) == text
  {
    assert Quote(text)[1..|Quote(text)| - 1] == Doubled(text);
    UndoubledDoubled(text);
  }
}
