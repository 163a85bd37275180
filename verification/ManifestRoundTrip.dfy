/** Exactly which manifests survive being printed and parsed again. */
module ManifestRoundTrip {
  import opened Text
  import opened Decimal
  import opened ManifestText
  import opened Manifest

  // ----- What the parser can return.

  predicate IsExtra(key: string, value: Scalar) {
    IsKey(key) && key !in {"version", "releaseDate", "path", "sha512"} && PrintableScalar(value)
  }

  ghost predicate ShapedFiles(files: seq<File>) {
    forall f :: f in files ==> OneLine(f.url) && OneLine(f.sha512)
  }

  ghost predicate ShapedExtras(extras: map<string, Scalar>) {
    forall k :: k in extras ==> IsExtra(k, extras[k])
  }

  /** Strings are single lines, keys are plain names without a meaning of their own. */
  ghost predicate Shaped(m: Manifest) {
    && m.version != "" && OneLine(m.version)
    && m.releaseDate != "" && OneLine(m.releaseDate)
    && m.files != [] && ShapedFiles(m.files)
    && ShapedExtras(m.extras)
  }

  ghost predicate ShapedReader(r: Reader) {
    && (r.version.Some? ==> OneLine(r.version.value))
    && (r.releaseDate.Some? ==> OneLine(r.releaseDate.value))
    && ShapedFiles(r.files)
    && ShapedExtras(r.extras)
    && (r.current.Some? ==> OneLine(r.current.value.url)
                            && (r.current.value.sha512.Some? ==> OneLine(r.current.value.sha512.value)))
  }

  lemma TrimOneLine(s: string)
    requires OneLine(s)
    ensures OneLine(Trim(s))
  {
    forall c | c in Trim(s) ensures c in s { TrimKeepsMembers(s, c); }
  }

  lemma PushKeepsShape(r: Reader, n: nat)
    requires ShapedReader(r)
    ensures Push(r.files, r.current, n).Ok? ==> ShapedFiles(Push(r.files, r.current, n).value)
  {}

  lemma SetEntryKeepsShape(r: Reader, key: string, value: Scalar, n: nat)
    requires ShapedReader(r) && IsKey(key) && PrintableScalar(value)
    ensures SetEntry(r, key, value, n).Ok? ==> ShapedReader(SetEntry(r, key, value, n).value)
  {}

  predicate ShapedLine(line: Line) {
    && (line.Url? || line.Sha? ==> OneLine(line.text))
    && (line.Entry? ==> IsKey(line.key) && OneLine(line.raw))
  }

  lemma StepKeepsShape(r: Reader, line: Line, n: nat)
    requires ShapedReader(r) && ShapedLine(line)
    ensures var next := Step(r, line, n); next.Ok? ==> ShapedReader(next.value)
  {
    PushKeepsShape(r, n);
    match line
    case Url(text) => TrimOneLine(text);
    case Sha(text) => TrimOneLine(text);
    case Entry(key, raw) =>
      var left := LeaveFiles(r, n);
      if left.Ok? { SetEntryKeepsShape(left.value, key, ParseScalar(raw), n); }
    case _ =>
  }

  lemma {:induction false} ReadLinesKeepShape(r: Reader, lines: seq<Line>, n: nat)
    requires ShapedReader(r) && forall line :: line in lines ==> ShapedLine(line)
    ensures ReadLines(r, lines, n).Ok? ==> ShapedReader(ReadLines(r, lines, n).value)
    decreases |lines|
  {
    if lines != [] {
      StepKeepsShape(r, lines[0], n);
      var next := Step(r, lines[0], n);
      if next.Ok? { ReadLinesKeepShape(next.value, lines[1..], n + 1); }
    }
  }

  /** Whatever the text, an accepted manifest has this shape. */
  lemma ParsedIsShaped(raw: string)
    ensures Parse(raw).Ok? ==> Shaped(Parse(raw).value)
  {
    var lines := ClassifyAll(SplitLines(raw));
    ReadLinesKeepShape(FRESH, lines, 1);
    var read := ReadLines(FRESH, lines, 1);
    if read.Ok? { PushKeepsShape(read.value, |lines|); }
  }

  // ----- Printed lines, classified.

  lemma ClassifyAppend(xs: seq<string>, ys: seq<string>)
    ensures ClassifyAll(xs + ys) == ClassifyAll(xs) + ClassifyAll(ys)
  {}

  /** The line that carries `s` bare: unsupported when nothing can be read back. */
  function UrlKind(s: string): Line { if Reread(s).Some? then Url(Reread(s).value) else Unsupported }

  function ShaKind(s: string): Line { if Reread(s).Some? then Sha(Reread(s).value) else Unsupported }

  function EntryKind(key: string, s: string): Line {
    if Reread(s).Some? then Entry(key, Reread(s).value) else Unsupported
  }

  function HeadKinds(m: Manifest): seq<Line> { [EntryKind("version", m.version), FilesHeader] }

  function FileKinds(f: File): seq<Line> { [UrlKind(f.url), ShaKind(f.sha512), Size(f.size)] }

  function FilesKinds(files: seq<File>): seq<Line> {
    if files == [] then [] else FileKinds(files[0]) + FilesKinds(files[1..])
  }

  function ExtraKinds(keys: seq<string>, extras: map<string, Scalar>): seq<Line>
    requires forall k :: k in keys ==> k in extras
  {
    if keys == [] then [] else [Entry(keys[0], PrintScalar(extras[keys[0]]))] + ExtraKinds(keys[1..], extras)
  }

  function TailKinds(m: Manifest): seq<Line> { [Entry("releaseDate", Quote(m.releaseDate)), Blank] }

  lemma ClassifyHead(m: Manifest)
    ensures ClassifyAll(HeadLines(m)) == HeadKinds(m)
  {
    hide Classify, Reread, TrimEnd;
    assert "version" + ": " + m.version == "version: " + m.version;
    PrintedEntry("version", m.version);
    FilesHeaderLine();
  }

  lemma FilesHeaderLine()
    ensures Classify(TrimEnd("files:")) == FilesHeader
  {
    assert TrimEnd("files:") == "files:";
    ClassifyLetter("files:");
  }

  lemma UrlLine(s: string)
    ensures Classify(TrimEnd("  - url: " + s)) == UrlKind(s)
  {
    hide Payload, Reread, KeyRun, AllDigits, TrimStart, OneLine;
    assert URL + " " + s == "  - url: " + s;
    PrintedLine(URL, s);
    var line := TrimEnd("  - url: " + s);
    assert line[2] == '-' && line[0] == ' ';
    NotAnEntry(line);
    assert SHA[2] == ' ' && SIZE[2] == ' ';
    assert "files:"[0] == 'f';
  }

  lemma NotAnEntry(line: string)
    requires line != "" && line[0] == ' '
    ensures EntryOf(line).None?
  {}

  lemma ShaLine(s: string)
    ensures Classify(TrimEnd("    sha512: " + s)) == ShaKind(s)
  {
    hide Payload, Reread, KeyRun, AllDigits, TrimStart, OneLine;
    assert SHA + " " + s == "    sha512: " + s;
    PrintedLine(SHA, s);
    var line := TrimEnd("    sha512: " + s);
    assert line[0] == ' ' && line[2] == ' ' && line[5] == 'h';
    NotAnEntry(line);
    assert URL[2] == '-' && SIZE[5] == 'i';
    assert "files:"[0] == 'f';
  }

  lemma DigitsReread(digits: string)
    requires AllDigits(digits)
    ensures TrimEnd("    size: " + digits) == "    size: " + digits
    ensures TrimStart((" " + digits)) == digits
  {
    var line := "    size: " + digits;
    assert line[|line| - 1] == digits[|digits| - 1];
    assert (" " + digits)[1..] == digits;
  }

  lemma SizeLine(n: nat)
    ensures Classify(TrimEnd("    size: " + NatText(n))) == Size(n)
  {
    var digits := NatText(n);
    NatRoundTrip(n);
    DigitsReread(digits);
    var line := "    size: " + digits;
    assert line[|SIZE|..] == " " + digits;
    assert line[2] == ' ' && line[5] == 'i';
    assert URL[2] == '-' && SHA[5] == 'h';
  }

  lemma {:induction false} ClassifyFiles(files: seq<File>)
    ensures ClassifyAll(FileLines(files)) == FilesKinds(files)
  {
    hide Classify, UrlKind, ShaKind, NatText, TrimEnd;
    if files != [] {
      var f := files[0];
      UrlLine(f.url);
      ShaLine(f.sha512);
      SizeLine(f.size);
      var three := ["  - url: " + f.url, "    sha512: " + f.sha512, "    size: " + NatText(f.size)];
      assert ClassifyAll(three) == FileKinds(f);
      ClassifyAppend(three, FileLines(files[1..]));
      ClassifyFiles(files[1..]);
    }
  }

  lemma EntryLineKind(key: string, value: Scalar)
    requires IsKey(key) && PrintableScalar(value)
    ensures Classify(TrimEnd(key + ": " + PrintScalar(value))) == Entry(key, PrintScalar(value))
    ensures ParseScalar(PrintScalar(value)) == value
  {
    ScalarRoundTrip(value);
    RereadIff(PrintScalar(value));
    PrintedEntry(key, PrintScalar(value));
  }

  lemma {:induction false} ClassifyExtras(keys: seq<string>, extras: map<string, Scalar>)
    requires ShapedExtras(extras) && forall k :: k in keys ==> k in extras
    ensures ClassifyAll(ExtraLines(keys, extras)) == ExtraKinds(keys, extras)
  {
    if keys != [] {
      var line := keys[0] + ": " + PrintScalar(extras[keys[0]]);
      EntryLineKind(keys[0], extras[keys[0]]);
      assert ClassifyAll([line]) == [Entry(keys[0], PrintScalar(extras[keys[0]]))];
      ClassifyAppend([line], ExtraLines(keys[1..], extras));
      ClassifyExtras(keys[1..], extras);
    }
  }

  lemma BlankLine()
    ensures Classify(TrimEnd("")) == Blank
  {}

  lemma ClassifyTail(m: Manifest)
    requires OneLine(m.releaseDate)
    ensures ClassifyAll(TailLines(m)) == TailKinds(m)
  {
    hide Classify, Reread, ParseScalar, OneLine, Doubled;
    assert "releaseDate" + ": " + Quote(m.releaseDate) == "releaseDate: " + Quote(m.releaseDate);
    assert PrintScalar(Str(m.releaseDate)) == Quote(m.releaseDate);
    EntryLineKind("releaseDate", Str(m.releaseDate));
    BlankLine();
  }

  // ----- Reading the sections.

  lemma ReadCons(r: Reader, line: Line, rest: seq<Line>, n: nat, next: Result<Reader>)
    requires next == Step(r, line, n)
    ensures ReadLines(r, [line] + rest, n) ==
            match next
            case Ok(q) => ReadLines(q, rest, n + 1)
            case Err(e) => Err(e)
  {
    assert ([line] + rest)[1..] == rest;
  }

  lemma {:induction false} ReadAppend(r: Reader, xs: seq<Line>, ys: seq<Line>, n: nat, read: Result<Reader>)
    requires read == ReadLines(r, xs, n)
    ensures ReadLines(r, xs + ys, n) ==
            match read
            case Ok(q) => ReadLines(q, ys, n + |xs|)
            case Err(e) => Err(e)
    decreases |xs|
  {
    if xs == [] {
      assert xs + ys == ys;
    } else {
      var line, rest := xs[0], xs[1..];
      assert xs == [line] + rest && xs + ys == [line] + (rest + ys);
      var next := Step(r, line, n);
      ReadCons(r, line, rest + ys, n, next);
      ReadCons(r, line, rest, n, next);
      if next.Ok? { ReadAppend(next.value, rest, ys, n + 1, read); }
    }
  }

  /** Between sections an entry under construction is complete. */
  predicate Tidy(r: Reader) { Complete(r.current) && (r.current.Some? ==> r.inFiles) }

  function FilesSoFar(r: Reader): seq<File>
    requires Tidy(r)
  {
    Push(r.files, r.current, 0).value
  }

  /** `t` is `s` printed as the version and read back. */
  function RereadVersion(s: string): Option<string> {
    if Reread(s).Some? && ParseScalar(Reread(s).value).Str? then Some(ParseScalar(Reread(s).value).text) else None
  }

  function RereadField(s: string): Option<string> {
    if Reread(s).Some? then Some(StripQuotes(Trim(Reread(s).value))) else None
  }

  lemma ReadHead(m: Manifest)
    ensures var read := ReadLines(FRESH, HeadKinds(m), 1);
            if RereadVersion(m.version).Some?
            then read == Ok(FRESH.(version := RereadVersion(m.version), inFiles := true))
            else read.Err?
  {
    var line := EntryKind("version", m.version);
    ReadCons(FRESH, line, [FilesHeader], 1, Step(FRESH, line, 1));
    assert HeadKinds(m) == [line] + [FilesHeader];
  }

  lemma ReadNothing(r: Reader, n: nat)
    ensures ReadLines(r, [], n) == Ok(r)
  {}

  /** Reads one printed file. */
  lemma ReadFile(r: Reader, f: File, n: nat)
    requires Tidy(r)
    ensures var read := ReadLines(r, FileKinds(f), n);
            if RereadField(f.url).Some? && RereadField(f.sha512).Some? then
              read == Ok(r.(files := FilesSoFar(r), inFiles := true,
                            current := Some(Partial(RereadField(f.url).value, RereadField(f.sha512), Some(f.size)))))
            else read.Err?
  {
    hide ReadLines;
    var url, sha, size := UrlKind(f.url), ShaKind(f.sha512), Size(f.size);
    assert FileKinds(f) == [url] + ([sha] + ([size] + []));
    var afterUrl := Step(r, url, n);
    ReadCons(r, url, [sha] + ([size] + []), n, afterUrl);
    if afterUrl.Ok? {
      var afterSha := Step(afterUrl.value, sha, n + 1);
      ReadCons(afterUrl.value, sha, [size] + [], n + 1, afterSha);
      if afterSha.Ok? {
        var afterSize := Step(afterSha.value, size, n + 2);
        ReadCons(afterSha.value, size, [], n + 2, afterSize);
        ReadNothing(afterSize.value, n + 3);
      }
    }
  }

  function RereadFiles(files: seq<File>): Option<seq<File>> {
    if files == [] then Some([])
    else if RereadField(files[0].url).None? || RereadField(files[0].sha512).None? then None
    else match RereadFiles(files[1..])
      case None => None
      case Some(rest) => Some([File(RereadField(files[0].url).value, RereadField(files[0].sha512).value, files[0].size)] + rest)
  }

  /** What reading the files changes: the file list and nothing else. */
  predicate FilesRead(before: Reader, after: Reader, files: seq<File>) {
    && Tidy(before) && Tidy(after)
    && FilesSoFar(after) == FilesSoFar(before) + files
    && after.version == before.version && after.releaseDate == before.releaseDate && after.extras == before.extras
  }

  lemma {:induction false} ReadFiles(r: Reader, files: seq<File>, n: nat)
    requires Tidy(r)
    ensures var read := ReadLines(r, FilesKinds(files), n);
            if RereadFiles(files).Some? then read.Ok? && FilesRead(r, read.value, RereadFiles(files).value)
            else read.Err?
    decreases |files|
  {
    hide Step, ReadLines, Reread, StripQuotes, Trim;
    if files == [] {
      ReadNothing(r, n);
    } else {
      var f := files[0];
      var read := ReadLines(r, FileKinds(f), n);
      ReadAppend(r, FileKinds(f), FilesKinds(files[1..]), n, read);
      ReadFile(r, f, n);
      if read.Ok? { ReadFiles(read.value, files[1..], n + 3); }
    }
  }

  /** An entry line ends the file list. */
  lemma EntryStep(r: Reader, key: string, value: Scalar, n: nat)
    requires Tidy(r) && IsExtra(key, value)
    ensures Step(r, Entry(key, PrintScalar(value)), n) ==
            Ok(r.(files := FilesSoFar(r), current := None, inFiles := false, extras := r.extras[key := value]))
  {
    ScalarRoundTrip(value);
  }

  predicate ExtrasRead(before: Reader, after: Reader, keys: seq<string>, extras: map<string, Scalar>)
    requires forall k :: k in keys ==> k in extras
  {
    && Tidy(before) && Tidy(after)
    && FilesSoFar(after) == FilesSoFar(before)
    && after.version == before.version && after.releaseDate == before.releaseDate
    && after.extras == before.extras + map k | k in keys :: extras[k]
  }

  lemma {:induction false} ReadExtras(r: Reader, keys: seq<string>, extras: map<string, Scalar>, n: nat)
    requires Tidy(r) && ShapedExtras(extras) && forall k :: k in keys ==> k in extras
    ensures var read := ReadLines(r, ExtraKinds(keys, extras), n);
            read.Ok? && ExtrasRead(r, read.value, keys, extras)
    decreases |keys|
  {
    if keys != [] {
      var key, value := keys[0], extras[keys[0]];
      var line, rest := Entry(key, PrintScalar(value)), ExtraKinds(keys[1..], extras);
      EntryStep(r, key, value, n);
      ReadCons(r, line, rest, n, Step(r, line, n));
      var next := Step(r, line, n).value;
      ReadExtras(next, keys[1..], extras, n + 1);
      MoreExtras(r.extras, keys, extras);
    }
  }

  lemma MoreExtras(before: map<string, Scalar>, keys: seq<string>, extras: map<string, Scalar>)
    requires keys != [] && forall k :: k in keys ==> k in extras
    ensures before[keys[0] := extras[keys[0]]] + (map k | k in keys[1..] :: extras[k]) ==
            before + map k | k in keys :: extras[k]
  {
    assert forall k :: k in keys <==> k == keys[0] || k in keys[1..];
  }

  lemma ReadTail(r: Reader, m: Manifest, n: nat)
    requires Tidy(r) && OneLine(m.releaseDate)
    ensures ReadLines(r, TailKinds(m), n) ==
            Ok(r.(files := FilesSoFar(r), current := None, inFiles := false, releaseDate := Some(m.releaseDate)))
  {
    ScalarRoundTrip(Str(m.releaseDate));
    var line := Entry("releaseDate", PrintScalar(Str(m.releaseDate)));
    assert TailKinds(m) == [line] + [Blank];
    var next := Step(r, line, n);
    ReadCons(r, line, [Blank], n, next);
    assert [Blank][1..] == [];
  }

  // ----- The whole text.

  lemma SplitPrinted(lines: seq<string>)
    requires |lines| > 0 && forall line :: line in lines ==> OneLine(line)
    ensures ClassifyAll(SplitLines(Join(lines, "\n"))) == ClassifyAll(lines)
  {
    hide Classify, Join;
    forall k | 0 <= k < |lines| ensures '\n' !in lines[k] { assert lines[k] in lines; }
    SplitJoin(lines, '\n');
  }

  lemma {:induction false} FileLinesOneLine(files: seq<File>)
    requires ShapedFiles(files)
    ensures forall line :: line in FileLines(files) ==> OneLine(line)
  {
    if files != [] {
      assert files[0] in files;
      FileLinesOneLine(files[1..]);
    }
  }

  lemma {:induction false} ExtraLinesOneLine(keys: seq<string>, extras: map<string, Scalar>)
    requires ShapedExtras(extras) && forall k :: k in keys ==> k in extras
    ensures forall line :: line in ExtraLines(keys, extras) ==> OneLine(line)
  {
    if keys != [] {
      assert keys[0] in keys && IsExtra(keys[0], extras[keys[0]]);
      ScalarRoundTrip(extras[keys[0]]);
      ExtraLinesOneLine(keys[1..], extras);
    }
  }

  lemma AllOneLine(xs: seq<string>, ys: seq<string>)
    requires forall line :: line in xs ==> OneLine(line)
    requires forall line :: line in ys ==> OneLine(line)
    ensures forall line :: line in xs + ys ==> OneLine(line)
  {}

  lemma LinesOneLine(m: Manifest)
    requires Shaped(m)
    ensures |Lines(m)| > 0 && forall line :: line in Lines(m) ==> OneLine(line)
  {
    hide SortedKeys, FileLines, ExtraLines, Doubled, IsExtra;
    var head, files, tail := HeadLines(m), FileLines(m.files), TailLines(m);
    var extras := ExtraLines(SortedKeys(m.extras.Keys), m.extras);
    FileLinesOneLine(m.files);
    ExtraLinesOneLine(SortedKeys(m.extras.Keys), m.extras);
    QuoteIsOneLine(m.releaseDate);
    AllOneLine(head, files);
    AllOneLine(head + files, extras);
    AllOneLine(head + files + extras, tail);
  }

  ghost function Kinds(m: Manifest): seq<Line> {
    HeadKinds(m) + (FilesKinds(m.files) + (ExtraKinds(SortedKeys(m.extras.Keys), m.extras) + TailKinds(m)))
  }

  lemma ClassifyLines(m: Manifest)
    requires Shaped(m)
    ensures ClassifyAll(Lines(m)) == Kinds(m)
  {
    hide Classify, OneLine, PrintScalar, TrimEnd, FileLines, ExtraLines, FilesKinds, ExtraKinds, SortedKeys, HeadLines, TailLines, HeadKinds, TailKinds;
    var head, files, tail := HeadLines(m), FileLines(m.files), TailLines(m);
    var extras := ExtraLines(SortedKeys(m.extras.Keys), m.extras);
    ClassifyHead(m);
    ClassifyFiles(m.files);
    ClassifyExtras(SortedKeys(m.extras.Keys), m.extras);
    ClassifyTail(m);
    ClassifyAppend(head, files);
    ClassifyAppend(head + files, extras);
    ClassifyAppend(head + files + extras, tail);
  }

  lemma ReadPrinted(m: Manifest)
    requires Shaped(m)
    ensures var read := ReadLines(FRESH, Kinds(m), 1);
            if RereadVersion(m.version).Some? && RereadFiles(m.files).Some? then
              read == Ok(Reader(RereadVersion(m.version), Some(m.releaseDate), RereadFiles(m.files).value,
                                m.extras, false, None))
            else read.Err?
  {
    hide Step, FilesKinds, ExtraKinds, TailKinds, SortedKeys, RereadVersion, RereadFiles, OneLine, ReadLines;
    var files, keys := FilesKinds(m.files), SortedKeys(m.extras.Keys);
    var rest := ExtraKinds(keys, m.extras) + TailKinds(m);
    var head := ReadLines(FRESH, HeadKinds(m), 1);
    ReadAppend(FRESH, HeadKinds(m), files + rest, 1, head);
    ReadHead(m);
    if head.Ok? {
      var listed := ReadLines(head.value, files, 3);
      ReadAppend(head.value, files, rest, 3, listed);
      ReadFiles(head.value, m.files, 3);
      if listed.Ok? {
        ReadBody(m, listed.value, keys, 3 + |files|);
        assert FilesSoFar(head.value) + RereadFiles(m.files).value == RereadFiles(m.files).value;
      }
    }
  }

  lemma ReadBody(m: Manifest, r: Reader, keys: seq<string>, n: nat)
    requires Tidy(r) && r.extras == map[] && ShapedExtras(m.extras) && OneLine(m.releaseDate)
    requires (forall k :: k in keys <==> k in m.extras)
    ensures ReadLines(r, ExtraKinds(keys, m.extras) + TailKinds(m), n) ==
            Ok(Reader(r.version, Some(m.releaseDate), FilesSoFar(r), m.extras, false, None))
  {
    hide Step, ExtraKinds, TailKinds, OneLine, ReadLines;
    var extras := ExtraKinds(keys, m.extras);
    var read := ReadLines(r, extras, n);
    ReadAppend(r, extras, TailKinds(m), n, read);
    ReadExtras(r, keys, m.extras, n);
    assert read.value.extras == m.extras;
    ReadTail(read.value, m, n + |extras|);
  }

  // ----- The fields printed bare.

  /** A field of a file entry: not blank, no whitespace around it, not between single quotes. */
  predicate Bare(s: string) { s != "" && Trimmed(s) && !BetweenQuotes(s) }

  /** The version: also not readable as a number or a boolean; a lone quote is allowed. */
  predicate BareVersion(s: string) {
    && s != "" && Trimmed(s)
    && !(BetweenQuotes(s) && |s| >= 2)
    && s != "true" && s != "false" && ReadNumber(s).None?
  }

  lemma FieldReadsBackIff(s: string)
    requires OneLine(s)
    ensures RereadField(s) == Some(s) <==> Bare(s)
  {
    RereadIff(s);
    if Reread(s).Some? {
      TrimIsTrimmed(Reread(s).value);
    }
  }

  lemma VersionReadsBackIff(s: string)
    requires OneLine(s)
    ensures RereadVersion(s) == Some(s) <==> BareVersion(s)
  {
    RereadIff(s);
    if Reread(s).Some? {
      TrimIsTrimmed(Reread(s).value);
    }
  }

  lemma {:induction false} FilesReadBackIff(files: seq<File>)
    requires ShapedFiles(files)
    ensures RereadFiles(files) == Some(files) <==> forall f :: f in files ==> Bare(f.url) && Bare(f.sha512)
  {
    if files != [] {
      assert files[0] in files && files == [files[0]] + files[1..];
      assert forall f :: f in files <==> f == files[0] || f in files[1..];
      FieldReadsBackIff(files[0].url);
      FieldReadsBackIff(files[0].sha512);
      FilesReadBackIff(files[1..]);
      if RereadFiles(files) == Some(files) {
        assert RereadFiles(files[1..]).value == files[1..];
      }
    }
  }

  ghost predicate Reloadable(m: Manifest) {
    Shaped(m) && BareVersion(m.version) && forall f :: f in m.files ==> Bare(f.url) && Bare(f.sha512)
  }

  /** What a shaped manifest becomes by being printed and parsed. */
  lemma ParsePrinted(m: Manifest)
    requires Shaped(m)
    ensures var version, files, parsed := RereadVersion(m.version), RereadFiles(m.files), Parse(Serialize(m));
            if version.Some? && version.value != "" && files.Some?
            then parsed == Ok(m.(version := version.value, files := files.value))
            else parsed.Err?
  {
    hide Lines, ReadLines, RereadVersion, RereadFiles, Kinds, OneLine, ClassifyAll, SplitLines, Classify, Join;
    LinesOneLine(m);
    SplitPrinted(Lines(m));
    ClassifyLines(m);
    ReadPrinted(m);
    if RereadFiles(m.files).Some? { RereadKeepsCount(m.files); }
  }

  lemma {:induction false} RereadKeepsCount(files: seq<File>)
    requires RereadFiles(files).Some?
    ensures |RereadFiles(files).value| == |files|
  {
    hide RereadField;
    if files != [] { RereadKeepsCount(files[1..]); }
  }

  lemma ShapedReloadsIff(m: Manifest)
    requires Shaped(m)
    ensures Parse(Serialize(m)) == Ok(m) <==>
            RereadVersion(m.version) == Some(m.version) && RereadFiles(m.files) == Some(m.files)
  {
    hide Parse, Serialize, RereadVersion, RereadFiles, OneLine;
    ParsePrinted(m);
  }

  /** Parsing what was printed gives the manifest back exactly for reloadable manifests. */
  lemma ManifestReloadsIff(m: Manifest)
    ensures Parse(Serialize(m)) == Ok(m) <==> Reloadable(m)
  {
    ParsedIsShaped(Serialize(m));
    if Shaped(m) {
      ShapedReloadsIff(m);
      VersionReadsBackIff(m.version);
      FilesReadBackIff(m.files);
    }
  }

  // ----- Printed manifests that the parser rejects.

  predicate IsBlank(s: string) { Trim(s) == "" }

  /** Printed bare, the version reads as nothing, an empty string, a boolean or a number. */
  predicate VersionUnreadable(s: string) {
    IsBlank(s) || Trim(s) in {"''", "true", "false"} || ReadNumber(Trim(s)).Some?
  }

  lemma RereadIsTrim(s: string)
    requires OneLine(s)
    ensures Reread(s) == if IsBlank(s) then None else Some(Trim(s))
  {
    TrimsCommute(s);
    TrimOneLine(s);
  }

  lemma {:induction false} TrimsCommute(s: string)
    ensures TrimStart(TrimEnd(s)) == TrimEnd(TrimStart(s))
    decreases |s|
  {
    if s != "" && IsSpace(s[0]) {
      TrimsCommute(s[1..]);
      TrimEndOfSpace(s);
    } else if s != "" {
      assert TrimStart(s) == s;
      FirstStays(s);
    }
  }

  /** A leading space is trimmed from the end only with everything after it. */
  lemma {:induction false} TrimEndOfSpace(s: string)
    requires s != "" && IsSpace(s[0])
    ensures TrimStart(TrimEnd(s)) == TrimStart(TrimEnd(s[1..]))
    decreases |s|
  {
    if |s| == 1 {
      assert TrimEnd(s) == "" by { assert s[..0] == ""; }
    } else if IsSpace(s[|s| - 1]) {
      assert s[1..][..|s[1..]| - 1] == s[..|s| - 1][1..];
      TrimEndOfSpace(s[..|s| - 1]);
    }
  }

  lemma {:induction false} FirstStays(s: string)
    requires s != "" && !IsSpace(s[0])
    ensures TrimEnd(s) != "" && TrimEnd(s)[0] == s[0]
    decreases |s|
  {
    if IsSpace(s[|s| - 1]) { FirstStays(s[..|s| - 1]); }
  }

  lemma {:induction false} FilesUnreadableIff(files: seq<File>)
    requires ShapedFiles(files)
    ensures RereadFiles(files).None? <==> exists f :: f in files && (IsBlank(f.url) || IsBlank(f.sha512))
  {
    hide OneLine, Reread, IsBlank;
    if files != [] {
      assert files[0] in files;
      assert forall f :: f in files <==> f == files[0] || f in files[1..];
      RereadIsTrim(files[0].url);
      RereadIsTrim(files[0].sha512);
      FilesUnreadableIff(files[1..]);
    }
  }

  lemma VersionUnreadableIff(s: string)
    requires OneLine(s)
    ensures RereadVersion(s).None? || RereadVersion(s).value == "" <==> VersionUnreadable(s)
  {
    RereadIsTrim(s);
    if !IsBlank(s) {
      TrimIsTrimmed(s);
      TrimIsTrimmed(Trim(s));
      EmptyOnlyBetweenQuotes(Trim(s));
    }
  }

  lemma EmptyOnlyBetweenQuotes(s: string)
    requires s != "" && Trimmed(s)
    ensures ParseScalar(s) == Str("") <==> s == "''"
    ensures BetweenQuotes(s) && |s| >= 2 ==> ReadNumber(s).None? && s != "true" && s != "false"
  {
    TrimIsTrimmed(s);
    if BetweenQuotes(s) && |s| >= 2 {
      UndoubledEmpty(s[1..|s| - 1]);
      QuotedIsNoNumber(s);
    }
  }

  lemma UndoubledEmpty(s: string)
    ensures Undoubled(s) == "" <==> s == ""
  {}

  lemma QuotedIsNoNumber(s: string)
    requires s != "" && s[0] == '\''
    ensures ReadNumber(s).None?
  {
    var parts := Split(s, '.');
    assert !IsDigit(s[0]);
    FirstPart(s);
  }

  lemma FirstPart(s: string)
    requires s != "" && s[0] != '.'
    ensures Split(s, '.')[0] != "" && Split(s, '.')[0][0] == s[0]
  {}

  /** For every manifest the parser accepted: what it prints as is rejected exactly when the version
      reads as no text there or a file has a blank url or hash; then it was lost by its quotes. */
  lemma PrintRejectedIff(raw: string)
    requires Parse(raw).Ok?
    ensures var m := Parse(raw).value;
            Parse(Serialize(m)).Err? <==>
            VersionUnreadable(m.version) || exists f :: f in m.files && (IsBlank(f.url) || IsBlank(f.sha512))
  {
    hide Parse, Serialize, RereadVersion, RereadFiles, OneLine, VersionUnreadable, IsBlank;
    ParsedIsShaped(raw);
    var m := Parse(raw).value;
    ParsePrinted(m);
    VersionUnreadableIff(m.version);
    FilesUnreadableIff(m.files);
  }

  ghost function Sample(version: string): Manifest { Manifest(version, "2024", [File("a.zip", "x", 1)], map[]) }

  lemma SampleIsShaped(version: string)
    requires version != "" && OneLine(version)
    ensures Shaped(Sample(version)) && RereadFiles(Sample(version).files) == Some(Sample(version).files)
  {
    hide RereadFiles;
    var files := Sample(version).files;
    assert OneLine("2024") && ShapedFiles(files);
    assert Bare("a.zip") && Bare("x");
    FilesReadBackIff(files);
  }

  /** For instance a version written between quotes, `'true'`: the text is accepted, and what the
      manifest prints as is rejected. */
  lemma QuotedVersionIsLost()
    ensures var raw := Serialize(Sample("'true'"));
            Parse(raw) == Ok(Sample("true")) && Parse(Serialize(Sample("true"))).Err?
  {
    hide Parse, Serialize, RereadVersion, RereadFiles, OneLine, Shaped, VersionUnreadable, IsBlank;
    QuotedTrue();
    SampleIsShaped("'true'");
    ParsePrinted(Sample("'true'"));
    PrintRejectedIff(Serialize(Sample("'true'")));
  }

  lemma QuotedTrue()
    ensures OneLine("'true'") && RereadVersion("'true'") == Some("true") && VersionUnreadable("true")
  {
    hide ParseScalar, Reread, ReadNumber, TrimStart, TrimEnd, OneLine, PrintScalar;
    PrintedTrue();
    ScalarRoundTrip(Str("true"));
    RereadIsTrim("'true'");
    TrimIsTrimmed("'true'");
    TrimIsTrimmed("true");
  }

  lemma PrintedTrue()
    ensures PrintScalar(Str("true")) == "'true'" && OneLine("true")
  {
    assert "true"[1..] == "rue" && "rue"[1..] == "ue" && "ue"[1..] == "e" && "e"[1..] == "";
    assert Doubled("ue") == "ue";
  }
}
