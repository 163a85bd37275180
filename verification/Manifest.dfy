/** The macOS update manifest (scripts/merge-mac-update-manifests.ts): its parser and its printer. */
module Manifest {
  import opened Text
  import opened Decimal
  import opened ManifestText

  datatype File = File(url: string, sha512: string, size: nat)

  datatype Manifest = Manifest(version: string, releaseDate: string, files: seq<File>, extras: map<string, Scalar>)

  /** Errors carry the line they are reported at. */
  datatype ParseError =
    | IncompleteEntry(line: nat)
    | FieldWithoutEntry(line: nat)
    | UnsupportedLine(line: nat)
    | NotAString(line: nat)
    | MissingVersion
    | MissingReleaseDate
    | MissingFiles

  datatype Result<+T> = Ok(value: T) | Err(error: ParseError)

  // ----- Reading.

  datatype Partial = Partial(url: string, sha512: Option<string>, size: Option<nat>)

  /** The variables of the parser's loop. */
  datatype Reader = Reader(
    version: Option<string>,
    releaseDate: Option<string>,
    files: seq<File>,
    extras: map<string, Scalar>,
    inFiles: bool,
    current: Option<Partial>)

  const FRESH := Reader(None, None, [], map[], false, None)

  predicate Complete(current: Option<Partial>) {
    current.None? || (current.value.sha512.Some? && current.value.size.Some?)
  }

  /** `parseFileRecord`, and the push of what it returns. */
  function Push(files: seq<File>, current: Option<Partial>, n: nat): Result<seq<File>> {
    if !Complete(current) then Err(IncompleteEntry(n))
    else if current.None? then Ok(files)
    else Ok(files + [File(current.value.url, current.value.sha512.value, current.value.size.value)])
  }

  /** What any line outside the file list does first. */
  function LeaveFiles(r: Reader, n: nat): Result<Reader> {
    if r.inFiles && r.current.Some? then
      match Push(r.files, r.current, n)
      case Ok(files) => Ok(r.(files := files, current := None, inFiles := false))
      case Err(e) => Err(e)
    else Ok(r.(inFiles := false))
  }

  function SetEntry(r: Reader, key: string, value: Scalar, n: nat): Result<Reader> {
    if key == "version" then
      if value.Str? then Ok(r.(version := Some(value.text))) else Err(NotAString(n))
    else if key == "releaseDate" then
      if value.Str? then Ok(r.(releaseDate := Some(value.text))) else Err(NotAString(n))
    else if key == "path" || key == "sha512" then Ok(r)
    else Ok(r.(extras := r.extras[key := value]))
  }

  function Step(r: Reader, line: Line, n: nat): Result<Reader> {
    match line
    case Blank => Ok(r)
    case Url(text) => (
      match Push(r.files, r.current, n)
      case Ok(files) =>
        Ok(r.(files := files, current := Some(Partial(StripQuotes(Trim(text)), None, None)), inFiles := true))
      case Err(e) => Err(e))
    case Sha(text) =>
      if r.current.None? then Err(FieldWithoutEntry(n))
      else Ok(r.(current := Some(r.current.value.(sha512 := Some(StripQuotes(Trim(text)))))))
    case Size(size) =>
      if r.current.None? then Err(FieldWithoutEntry(n))
      else Ok(r.(current := Some(r.current.value.(size := Some(size)))))
    case FilesHeader => Ok(r.(inFiles := true))
    case Entry(key, raw) => (
      match LeaveFiles(r, n)
      case Ok(left) => SetEntry(left, key, ParseScalar(raw), n)
      case Err(e) => Err(e))
    case Unsupported => (
      match LeaveFiles(r, n)
      case Ok(left) => Err(UnsupportedLine(n))
      case Err(e) => Err(e))
  }

  function ReadLines(r: Reader, lines: seq<Line>, n: nat): Result<Reader>
    decreases |lines|
  {
    if lines == [] then Ok(r)
    else match Step(r, lines[0], n)
      case Ok(next) => ReadLines(next, lines[1..], n + 1)
      case Err(e) => Err(e)
  }

  function Finish(r: Reader, n: nat): Result<Manifest> {
    match Push(r.files, r.current, n)
    case Err(e) => Err(e)
    case Ok(files) =>
      if r.version.None? || r.version.value == "" then Err(MissingVersion)
      else if r.releaseDate.None? || r.releaseDate.value == "" then Err(MissingReleaseDate)
      else if files == [] then Err(MissingFiles)
      else Ok(Manifest(r.version.value, r.releaseDate.value, files, r.extras))
  }

  function Ended(read: Result<Reader>, n: nat): Result<Manifest> {
    match read
    case Ok(last) => Finish(last, n)
    case Err(e) => Err(e)
  }

  /** `raw.split(/\r?\n/)`: a carriage return just before a newline belongs to the separator. */
  function SplitLines(raw: string): (lines: seq<string>)
    ensures |lines| > 0
  {
    var parts := Split(raw, '\n');
    seq(|parts|, (k: nat) requires k < |parts| => if k + 1 < |parts| then DropReturn(parts[k]) else parts[k])
  }

  function DropReturn(s: string): string {
    if s != "" && s[|s| - 1] == '\r' then s[..|s| - 1] else s
  }

  function ClassifyAll(lines: seq<string>): (kinds: seq<Line>)
    ensures |kinds| == |lines|
    ensures forall k :: 0 <= k < |lines| ==> kinds[k] == Classify(TrimEnd(lines[k]))
  {
    seq(|lines|, (k: nat) requires k < |lines| => Classify(TrimEnd(lines[k])))
  }

  function Parse(raw: string): Result<Manifest> {
    var lines := ClassifyAll(SplitLines(raw));
    Ended(ReadLines(FRESH, lines, 1), |lines|)
  }

  method ParseMacUpdateManifest(raw: string) returns (r: Result<Manifest>)
    ensures r == Parse(raw)
  {
    var lines := SplitLines(raw);
    ghost var kinds := ClassifyAll(lines);
    var files: seq<File>, extras: map<string, Scalar> := [], map[];
    var version: Option<string>, releaseDate: Option<string> := None, None;
    var inFiles, current: Option<Partial> := false, None;
    for index := 0 to |lines|
      invariant ReadLines(FRESH, kinds, 1) ==
                ReadLines(Reader(version, releaseDate, files, extras, inFiles, current), kinds[index..], index + 1)
    {
      var lineNumber := index + 1;
      var line := Classify(TrimEnd(lines[index]));
      ReadStep(Reader(version, releaseDate, files, extras, inFiles, current), kinds, index);
      if line.Blank? {
      } else if line.Url? {
        match Push(files, current, lineNumber) {
          case Err(e) => return Err(e);
          case Ok(pushed) => files := pushed;
        }
        current, inFiles := Some(Partial(StripQuotes(Trim(line.text)), None, None)), true;
      } else if line.Sha? {
        if current.None? { return Err(FieldWithoutEntry(lineNumber)); }
        current := Some(current.value.(sha512 := Some(StripQuotes(Trim(line.text)))));
      } else if line.Size? {
        if current.None? { return Err(FieldWithoutEntry(lineNumber)); }
        current := Some(current.value.(size := Some(line.size)));
      } else if line.FilesHeader? {
        inFiles := true;
      } else {
        if inFiles && current.Some? {
          match Push(files, current, lineNumber) {
            case Err(e) => return Err(e);
            case Ok(pushed) => files := pushed;
          }
          current := None;
        }
        inFiles := false;
        if line.Unsupported? { return Err(UnsupportedLine(lineNumber)); }
        var key, value := line.key, ParseScalar(line.raw);
        if key == "version" {
          if !value.Str? { return Err(NotAString(lineNumber)); }
          version := Some(value.text);
        } else if key == "releaseDate" {
          if !value.Str? { return Err(NotAString(lineNumber)); }
          releaseDate := Some(value.text);
        } else if key != "path" && key != "sha512" {
          extras := extras[key := value];
        }
      }
    }
    r := Finish(Reader(version, releaseDate, files, extras, inFiles, current), |lines|);
  }

  lemma ReadStep(r: Reader, lines: seq<Line>, i: nat)
    requires i < |lines|
    ensures ReadLines(r, lines[i..], i + 1) ==
            match Step(r, lines[i], i + 1)
            case Ok(next) => ReadLines(next, lines[i + 1..], i + 2)
            case Err(e) => Err(e)
  {
    assert lines[i..][1..] == lines[i + 1..];
  }

  // ----- Printing.

  function FileLines(files: seq<File>): seq<string> {
    if files == [] then []
    else ["  - url: " + files[0].url, "    sha512: " + files[0].sha512, "    size: " + NatText(files[0].size)]
         + FileLines(files[1..])
  }

  function ExtraLines(keys: seq<string>, extras: map<string, Scalar>): seq<string>
    requires forall k :: k in keys ==> k in extras
  {
    if keys == [] then [] else [keys[0] + ": " + PrintScalar(extras[keys[0]])] + ExtraLines(keys[1..], extras)
  }

  function HeadLines(m: Manifest): seq<string> { ["version: " + m.version, "files:"] }

  function TailLines(m: Manifest): seq<string> { ["releaseDate: " + Quote(m.releaseDate), ""] }

  ghost function Lines(m: Manifest): seq<string> {
    HeadLines(m) + FileLines(m.files) + ExtraLines(SortedKeys(m.extras.Keys), m.extras) + TailLines(m)
  }

  ghost function Serialize(m: Manifest): string { Join(Lines(m), "\n") }

  method Least(keys: set<string>) returns (least: string)
    requires keys != {}
    ensures least == LeastKey(keys)
  {
    least :| least in keys;
    var rest := keys - {least};
    LeTotal(least, least);
    while rest != {}
      invariant rest <= keys && least in keys
      invariant forall k :: k in keys && k !in rest ==> Le(least, k)
      decreases rest
    {
      var key :| key in rest;
      rest := rest - {key};
      LeTotal(least, key);
      if !Le(least, key) {
        forall k | k in keys && k !in rest ensures Le(key, k) {
          if k == key { LeTotal(key, key); } else { LeTransitive(key, least, k); }
        }
        least := key;
      }
    }
    LeAntisymmetric(least, LeastKey(keys));
  }

  lemma TakeLeast(done: seq<string>, keys: set<string>)
    requires keys != {}
    ensures done + SortedKeys(keys) == done + [LeastKey(keys)] + SortedKeys(keys - {LeastKey(keys)})
  {}

  /** `Object.keys(...).toSorted()`. */
  method ToSorted(keys: set<string>) returns (r: seq<string>)
    ensures r == SortedKeys(keys)
  {
    r := [];
    var rest := keys;
    while rest != {}
      invariant r + SortedKeys(rest) == SortedKeys(keys)
      decreases rest
    {
      TakeLeast(r, rest);
      var key := Least(rest);
      r, rest := r + [key], rest - {key};
    }
  }

  lemma FileStep(lines: seq<string>, files: seq<File>, i: nat)
    requires i < |files|
    ensures var f := files[i];
            lines + FileLines(files[i..]) ==
            lines + ["  - url: " + f.url] + ["    sha512: " + f.sha512] + ["    size: " + NatText(f.size)]
            + FileLines(files[i + 1..])
  {
    assert files[i..][1..] == files[i + 1..];
  }

  lemma ExtraStep(lines: seq<string>, keys: seq<string>, extras: map<string, Scalar>, i: nat)
    requires i < |keys| && forall k :: k in keys ==> k in extras
    ensures forall k :: k in keys[i..] ==> k in keys
    ensures lines + ExtraLines(keys[i..], extras) ==
            lines + [keys[i] + ": " + PrintScalar(extras[keys[i]])] + ExtraLines(keys[i + 1..], extras)
  {
    assert keys[i..][1..] == keys[i + 1..];
  }

  method PushFiles(before: seq<string>, files: seq<File>) returns (lines: seq<string>)
    ensures lines == before + FileLines(files)
  {
    lines := before;
    for i := 0 to |files|
      invariant lines + FileLines(files[i..]) == before + FileLines(files)
    {
      FileStep(lines, files, i);
      lines := lines + ["  - url: " + files[i].url];
      lines := lines + ["    sha512: " + files[i].sha512];
      lines := lines + ["    size: " + NatText(files[i].size)];
    }
  }

  method PushExtras(before: seq<string>, keys: seq<string>, extras: map<string, Scalar>) returns (lines: seq<string>)
    requires forall k :: k in keys ==> k in extras
    ensures lines == before + ExtraLines(keys, extras)
  {
    lines := before;
    for i := 0 to |keys|
      invariant lines + ExtraLines(keys[i..], extras) == before + ExtraLines(keys, extras)
    {
      ExtraStep(lines, keys, extras, i);
      lines := lines + [keys[i] + ": " + PrintScalar(extras[keys[i]])];
    }
  }

  method SerializeMacUpdateManifest(m: Manifest) returns (text: string)
    ensures text == Serialize(m)
  {
    var lines := ["version: " + m.version, "files:"];
    lines := PushFiles(lines, m.files);
    var keys := ToSorted(m.extras.Keys);
    lines := PushExtras(lines, keys, m.extras);
    lines := lines + ["releaseDate: " + Quote(m.releaseDate), ""];
    text := Join(lines, "\n");
  }
}
