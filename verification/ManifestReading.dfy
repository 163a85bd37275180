/** What the text of an update manifest means, told by its lines: which lines make up a file entry, which
    line sets a field, and which line is the first that cannot be read. */
module ManifestReading {
  import opened Text
  import opened Decimal
  import opened ManifestText
  import opened Manifest

  // ----- Lines by position.

  /** The url line of the file entry that is open before line `k`. */
  function OpenEntry(lines: seq<Line>, k: nat): (u: Option<nat>)
    requires k <= |lines|
    ensures u.Some? ==> u.value < k && lines[u.value].Url?
  {
    if k == 0 then None
    else match lines[k - 1]
      case Url(_) => Some(k - 1)
      case Entry(_, _) => None
      case Unsupported => None
      case _ => OpenEntry(lines, k - 1)
  }

  /** The last hash, and the last size, given between the url line `u` and line `k`. */
  function LastSha(lines: seq<Line>, u: nat, k: nat): Option<string>
    requires u < k <= |lines|
  {
    if k == u + 1 then None
    else if lines[k - 1].Sha? then Some(StripQuotes(Trim(lines[k - 1].text)))
    else LastSha(lines, u, k - 1)
  }

  function LastSize(lines: seq<Line>, u: nat, k: nat): Option<nat>
    requires u < k <= |lines|
  {
    if k == u + 1 then None
    else if lines[k - 1].Size? then Some(lines[k - 1].size)
    else LastSize(lines, u, k - 1)
  }

  function FileAt(lines: seq<Line>, u: nat, k: nat): Option<File>
    requires u < k <= |lines| && lines[u].Url?
  {
    if LastSha(lines, u, k).None? || LastSize(lines, u, k).None? then None
    else Some(File(StripQuotes(Trim(lines[u].text)), LastSha(lines, u, k).value, LastSize(lines, u, k).value))
  }

  predicate Closes(line: Line) { line.Url? || line.Entry? || line.Unsupported? }

  predicate Broken(lines: seq<Line>, k: nat)
    requires k <= |lines|
  {
    OpenEntry(lines, k).Some? && FileAt(lines, OpenEntry(lines, k).value, k).None?
  }

  /** The file entry that ends before line `k`. */
  function Ending(lines: seq<Line>, k: nat): seq<File>
    requires k <= |lines|
  {
    if OpenEntry(lines, k).None? || Broken(lines, k) then [] else [FileAt(lines, OpenEntry(lines, k).value, k).value]
  }

  /** The file entries closed by one of the first `k` lines. */
  function Files(lines: seq<Line>, k: nat): seq<File>
    requires k <= |lines|
  {
    if k == 0 then [] else Files(lines, k - 1) + if Closes(lines[k - 1]) then Ending(lines, k - 1) else []
  }

  /** The value that the last of the first `k` lines with this key gives it. */
  function LastValue(lines: seq<Line>, key: string, k: nat): Option<Scalar>
    requires k <= |lines|
  {
    if k == 0 then None
    else if lines[k - 1].Entry? && lines[k - 1].key == key then Some(ParseScalar(lines[k - 1].raw))
    else LastValue(lines, key, k - 1)
  }

  predicate IsField(key: string) { key in {"version", "releaseDate", "path", "sha512"} }

  /** What is wrong with line `k`, given that the lines before it can be read. */
  function Problem(lines: seq<Line>, k: nat): Option<ParseError>
    requires k < |lines|
  {
    if Closes(lines[k]) && Broken(lines, k) then Some(IncompleteEntry(k + 1))
    else match lines[k]
      case Sha(_) => if OpenEntry(lines, k).None? then Some(FieldWithoutEntry(k + 1)) else None
      case Size(_) => if OpenEntry(lines, k).None? then Some(FieldWithoutEntry(k + 1)) else None
      case Entry(key, raw) =>
        if key in {"version", "releaseDate"} && !ParseScalar(raw).Str? then Some(NotAString(k + 1)) else None
      case Unsupported => Some(UnsupportedLine(k + 1))
      case _ => None
  }

  // ----- What the reader knows after `k` lines.

  predicate KnowsText(text: Option<string>, value: Option<Scalar>) {
    if value.None? then text.None? else value.value.Str? && text == Some(value.value.text)
  }

  predicate KnowsEntry(r: Reader, lines: seq<Line>, k: nat)
    requires k <= |lines|
  {
    var open := OpenEntry(lines, k);
    if open.None? then r.current.None?
    else
      && r.inFiles
      && r.current == Some(Partial(StripQuotes(Trim(lines[open.value].text)),
                                   LastSha(lines, open.value, k), LastSize(lines, open.value, k)))
  }

  ghost predicate KnowsExtras(extras: map<string, Scalar>, lines: seq<Line>, k: nat)
    requires k <= |lines|
  {
    forall key :: (key in extras <==> !IsField(key) && LastValue(lines, key, k).Some?)
                  && (key in extras ==> LastValue(lines, key, k) == Some(extras[key]))
  }

  ghost predicate Knows(r: Reader, lines: seq<Line>, k: nat)
    requires k <= |lines|
  {
    && KnowsEntry(r, lines, k)
    && r.files == Files(lines, k)
    && KnowsText(r.version, LastValue(lines, "version", k))
    && KnowsText(r.releaseDate, LastValue(lines, "releaseDate", k))
    && KnowsExtras(r.extras, lines, k)
  }

  ghost predicate Follows(next: Result<Reader>, lines: seq<Line>, k: nat)
    requires k < |lines|
  {
    if Problem(lines, k).Some? then next == Err(Problem(lines, k).value)
    else next.Ok? && Knows(next.value, lines, k + 1)
  }

  /** Lines that are no entries leave the fields alone. */
  lemma OtherFields(r: Reader, lines: seq<Line>, k: nat)
    requires k < |lines| && !lines[k].Entry?
    ensures KnowsExtras(r.extras, lines, k) ==> KnowsExtras(r.extras, lines, k + 1)
    ensures LastValue(lines, "version", k + 1) == LastValue(lines, "version", k)
    ensures LastValue(lines, "releaseDate", k + 1) == LastValue(lines, "releaseDate", k)
  {}

  lemma InsideEntry(r: Reader, lines: seq<Line>, k: nat)
    requires k < |lines| && Knows(r, lines, k) && !Closes(lines[k])
    ensures Follows(Step(r, lines[k], k + 1), lines, k)
  {
    hide KnowsExtras;
    OtherFields(r, lines, k);
    assert Files(lines, k + 1) == Files(lines, k);
  }

  lemma EntryCloses(r: Reader, lines: seq<Line>, k: nat)
    requires k < |lines| && KnowsEntry(r, lines, k) && r.files == Files(lines, k) && Closes(lines[k])
    ensures Push(r.files, r.current, k + 1) ==
            if Broken(lines, k) then Err(IncompleteEntry(k + 1)) else Ok(Files(lines, k + 1))
    ensures OpenEntry(lines, k + 1) == if lines[k].Url? then Some(k) else None
  {
    assert r.files + [] == r.files;
  }

  lemma UrlCloses(r: Reader, lines: seq<Line>, k: nat)
    requires k < |lines| && Knows(r, lines, k) && lines[k].Url?
    ensures Follows(Step(r, lines[k], k + 1), lines, k)
  {
    hide KnowsExtras, Files, Broken, Push;
    OtherFields(r, lines, k);
    EntryCloses(r, lines, k);
  }

  lemma Left(r: Reader, lines: seq<Line>, k: nat)
    requires k < |lines| && KnowsEntry(r, lines, k) && r.files == Files(lines, k) && Closes(lines[k]) && !lines[k].Url?
    ensures LeaveFiles(r, k + 1) ==
            if Broken(lines, k) then Err(IncompleteEntry(k + 1))
            else Ok(r.(files := Files(lines, k + 1), current := None, inFiles := false))
  {
    hide Files;
    EntryCloses(r, lines, k);
  }

  lemma OneMoreValue(extras: map<string, Scalar>, lines: seq<Line>, k: nat)
    requires k < |lines| && lines[k].Entry? && KnowsExtras(extras, lines, k)
    ensures KnowsExtras(if IsField(lines[k].key) then extras else extras[lines[k].key := ParseScalar(lines[k].raw)], lines, k + 1)
  {
    hide ParseScalar;
  }

  lemma FieldIsSet(r: Reader, lines: seq<Line>, k: nat)
    requires k < |lines| && lines[k].Entry? && !Broken(lines, k)
    requires r.current.None? && r.files == Files(lines, k + 1)
    requires KnowsText(r.version, LastValue(lines, "version", k)) && KnowsText(r.releaseDate, LastValue(lines, "releaseDate", k))
    requires KnowsExtras(r.extras, lines, k)
    ensures Follows(SetEntry(r, lines[k].key, ParseScalar(lines[k].raw), k + 1), lines, k)
  {
    hide KnowsExtras, Files, Broken, ParseScalar;
    OneMoreValue(r.extras, lines, k);
  }

  lemma EntryFollows(r: Reader, lines: seq<Line>, k: nat)
    requires k < |lines| && Knows(r, lines, k) && lines[k].Entry?
    ensures Follows(Step(r, lines[k], k + 1), lines, k)
  {
    hide KnowsExtras, Files, Broken, SetEntry, LeaveFiles, Knows, ParseScalar, LastValue;
    KnowsParts(r, lines, k);
    Left(r, lines, k);
    if !Broken(lines, k) {
      FieldIsSet(r.(files := Files(lines, k + 1), current := None, inFiles := false), lines, k);
    }
  }

  lemma KnowsParts(r: Reader, lines: seq<Line>, k: nat)
    requires k <= |lines| && Knows(r, lines, k)
    ensures KnowsEntry(r, lines, k) && r.files == Files(lines, k)
    ensures KnowsText(r.version, LastValue(lines, "version", k)) && KnowsText(r.releaseDate, LastValue(lines, "releaseDate", k))
    ensures KnowsExtras(r.extras, lines, k)
  {}

  lemma StepFollows(r: Reader, lines: seq<Line>, k: nat)
    requires k < |lines| && Knows(r, lines, k)
    ensures Follows(Step(r, lines[k], k + 1), lines, k)
  {
    hide Knows, Follows, Step;
    if lines[k].Url? {
      UrlCloses(r, lines, k);
    } else if lines[k].Entry? {
      EntryFollows(r, lines, k);
    } else if lines[k].Unsupported? {
      UnsupportedFollows(r, lines, k);
    } else {
      InsideEntry(r, lines, k);
    }
  }

  lemma UnsupportedFollows(r: Reader, lines: seq<Line>, k: nat)
    requires k < |lines| && Knows(r, lines, k) && lines[k].Unsupported?
    ensures Follows(Step(r, lines[k], k + 1), lines, k)
  {
    hide Files, KnowsExtras, LastValue;
    Left(r, lines, k);
  }

  ghost predicate FirstProblem(lines: seq<Line>, k: nat)
    requires k < |lines|
  {
    Problem(lines, k).Some? && forall j :: 0 <= j < k ==> Problem(lines, j).None?
  }

  lemma {:induction false} ReadsFrom(r: Reader, lines: seq<Line>, k: nat)
    requires k <= |lines| && Knows(r, lines, k) && forall j :: 0 <= j < k ==> Problem(lines, j).None?
    ensures var read := ReadLines(r, lines[k..], k + 1);
            && (forall j :: 0 <= j < |lines| && FirstProblem(lines, j) ==> read == Err(Problem(lines, j).value))
            && ((forall j :: 0 <= j < |lines| ==> Problem(lines, j).None?) ==> read.Ok? && Knows(read.value, lines, |lines|))
    decreases |lines| - k
  {
    hide Knows, Problem, Step, ReadLines;
    if k < |lines| {
      ReadStep(r, lines, k);
      StepFollows(r, lines, k);
      if Problem(lines, k).None? { ReadsFrom(Step(r, lines[k], k + 1).value, lines, k + 1); }
    } else {
      ReadNothing(r, lines, k);
    }
  }

  lemma ReadNothing(r: Reader, lines: seq<Line>, k: nat)
    requires k == |lines|
    ensures ReadLines(r, lines[k..], k + 1) == Ok(r)
  {}

  lemma FreshKnowsNothing(lines: seq<Line>)
    ensures Knows(FRESH, lines, 0)
  {}

  // ----- The manifest.

  function TextOf(value: Option<Scalar>): string {
    if value.Some? && value.value.Str? then value.value.text else ""
  }

  /** The manifest that lines without a problem give. */
  ghost predicate Means(m: Manifest, lines: seq<Line>) {
    && LastValue(lines, "version", |lines|) == Some(Str(m.version))
    && LastValue(lines, "releaseDate", |lines|) == Some(Str(m.releaseDate))
    && m.files == Files(lines, |lines|) + Ending(lines, |lines|)
    && KnowsExtras(m.extras, lines, |lines|)
  }

  lemma FinishMeans(r: Reader, lines: seq<Line>)
    requires Knows(r, lines, |lines|)
    ensures var n, end := |lines|, Finish(r, |lines|);
            var noVersion := TextOf(LastValue(lines, "version", n)) == "";
            var noDate := TextOf(LastValue(lines, "releaseDate", n)) == "";
            var files := Files(lines, n) + Ending(lines, n);
            if Broken(lines, n) then end == Err(IncompleteEntry(n))
            else if noVersion then end == Err(MissingVersion)
            else if noDate then end == Err(MissingReleaseDate)
            else if files == [] then end == Err(MissingFiles)
            else end.Ok? && Means(end.value, lines)
  {
    hide KnowsExtras, Files, LastValue;
    assert r.files + [] == r.files;
  }

  /** For every text: it is refused for its first line with a problem; if there is none, for an entry left
      incomplete at the end, then for a missing version, date or file; otherwise it means the last value of
      each key, and its file entries in order, each with the last hash and the last size that follow its url. */
  lemma ParsesByLines(raw: string)
    ensures var lines, parsed := ClassifyAll(SplitLines(raw)), Parse(raw);
            var n := |lines|;
            && (forall k :: 0 <= k < n && FirstProblem(lines, k) ==> parsed == Err(Problem(lines, k).value))
            && ((forall k :: 0 <= k < n ==> Problem(lines, k).None?) ==>
                  if Broken(lines, n) then parsed == Err(IncompleteEntry(n))
                  else if TextOf(LastValue(lines, "version", n)) == "" then parsed == Err(MissingVersion)
                  else if TextOf(LastValue(lines, "releaseDate", n)) == "" then parsed == Err(MissingReleaseDate)
                  else if Files(lines, n) + Ending(lines, n) == [] then parsed == Err(MissingFiles)
                  else parsed.Ok? && Means(parsed.value, lines))
  {
    hide Knows, Problem, Finish, ReadLines, Broken, Files, Ending, LastValue, Means, SplitLines, ClassifyAll;
    var lines := ClassifyAll(SplitLines(raw));
    FreshKnowsNothing(lines);
    ReadsFrom(FRESH, lines, 0);
    assert lines[0..] == lines;
    if forall k :: 0 <= k < |lines| ==> Problem(lines, k).None? {
      FinishMeans(ReadLines(FRESH, lines, 1).value, lines);
    }
  }
}
