/** The three-way upstream sync (scripts/upstream-sync.ts): for every tracked file, the hash recorded
    last, the file here and the file at its owner. Trees are maps from path to content. */
module UpstreamSync {
  import opened Text

  datatype Source = Source(name: string, preferred: bool, files: map<string, string>)

  datatype Entry = Entry(path: string, owner: string, baseline: string)

  datatype Summary = Summary(
    safeUpdates: seq<string>,
    conflicts: seq<string>,
    localOnlyDrift: seq<string>,
    sourceMissing: seq<string>,
    targetMissing: seq<string>,
    unchangedCount: nat)

  type Hash = string -> string

  /** `new Map(...)` by name: the last source of a name wins. */
  function SourceNamed(sources: seq<Source>, name: string): Option<Source> {
    if sources == [] then None
    else if sources[|sources| - 1].name == name then Some(sources[|sources| - 1])
    else SourceNamed(sources[..|sources| - 1], name)
  }

  // ----- Bootstrap.

  function Matching(sources: seq<Source>, path: string, content: string): seq<Source> {
    if sources == [] then []
    else
      var rest := Matching(sources[1..], path, content);
      var s := sources[0];
      if path in s.files && s.files[path] == content then [s] + rest else rest
  }

  function Preferring(sources: seq<Source>, preferred: bool): seq<Source> {
    if sources == [] then []
    else
      var rest := Preferring(sources[1..], preferred);
      if sources[0].preferred == preferred then [sources[0]] + rest else rest
  }

  /** Stable sort, preferred sources first. */
  function PreferredFirst(sources: seq<Source>): seq<Source> {
    Preferring(sources, true) + Preferring(sources, false)
  }

  function OwnerOf(sources: seq<Source>, path: string, content: string): Option<Source> {
    var owners := PreferredFirst(Matching(sources, path, content));
    if owners == [] then None else Some(owners[0])
  }

  function BootstrapEntries(paths: seq<string>, target: map<string, string>, sources: seq<Source>, hash: Hash): seq<Entry>
    requires forall p :: p in paths ==> p in target
  {
    if paths == [] then []
    else
      var path := paths[|paths| - 1];
      var owner := OwnerOf(sources, path, target[path]);
      BootstrapEntries(paths[..|paths| - 1], target, sources, hash)
      + if owner.Some? then [Entry(path, owner.value.name, hash(target[path]))] else []
  }

  /** `paths` are the files found by walking the target. */
  method BuildBootstrapManifest(paths: seq<string>, target: map<string, string>, sources: seq<Source>, hash: Hash)
    returns (files: seq<Entry>)
    requires forall p :: p in paths ==> p in target
    ensures files == BootstrapEntries(paths, target, sources, hash)
  {
    files := [];
    for i := 0 to |paths|
      invariant files == BootstrapEntries(paths[..i], target, sources, hash)
    {
      assert paths[..i + 1][..i] == paths[..i];
      var content := target[paths[i]];
      var owner := OwnerOf(sources, paths[i], content);
      if owner.None? { continue; }
      files := files + [Entry(paths[i], owner.value.name, hash(content))];
    }
    assert paths[..|paths|] == paths;
  }

  // ----- Check.

  datatype Category = SafeUpdate | Conflict | LocalOnlyDrift | SourceMissing | TargetMissing | Unchanged

  function CategoryOf(entry: Entry, target: map<string, string>, sources: seq<Source>, hash: Hash): Category {
    var source := SourceNamed(sources, entry.owner);
    if source.None? then SourceMissing
    else if entry.path !in target then TargetMissing
    else if entry.path !in source.value.files then SourceMissing
    else
      var targetChanged := hash(target[entry.path]) != entry.baseline;
      var sourceChanged := hash(source.value.files[entry.path]) != entry.baseline;
      if !targetChanged && !sourceChanged then Unchanged
      else if !targetChanged then SafeUpdate
      else if !sourceChanged then LocalOnlyDrift
      else Conflict
  }

  function Categories(files: seq<Entry>, target: map<string, string>, sources: seq<Source>, hash: Hash): (r: seq<Category>)
    ensures |r| == |files|
    ensures forall k :: 0 <= k < |files| ==> r[k] == CategoryOf(files[k], target, sources, hash)
  {
    seq(|files|, (k: nat) requires k < |files| => CategoryOf(files[k], target, sources, hash))
  }

  /** The paths of the entries of one category, in order. */
  function Select(files: seq<Entry>, categories: seq<Category>, c: Category): seq<string>
    requires |files| == |categories|
  {
    if files == [] then []
    else
      var n := |files| - 1;
      Select(files[..n], categories[..n], c) + if categories[n] == c then [files[n].path] else []
  }

  function SummaryOf(files: seq<Entry>, categories: seq<Category>): Summary
    requires |files| == |categories|
  {
    Summary(Select(files, categories, SafeUpdate), Select(files, categories, Conflict),
            Select(files, categories, LocalOnlyDrift), Select(files, categories, SourceMissing),
            Select(files, categories, TargetMissing), |Select(files, categories, Unchanged)|)
  }

  function Check(files: seq<Entry>, target: map<string, string>, sources: seq<Source>, hash: Hash): Summary {
    SummaryOf(files, Categories(files, target, sources, hash))
  }

  /** `SummaryOf`, one entry further. */
  function Filed(s: Summary, path: string, c: Category): Summary {
    match c
    case SafeUpdate => s.(safeUpdates := s.safeUpdates + [path])
    case Conflict => s.(conflicts := s.conflicts + [path])
    case LocalOnlyDrift => s.(localOnlyDrift := s.localOnlyDrift + [path])
    case SourceMissing => s.(sourceMissing := s.sourceMissing + [path])
    case TargetMissing => s.(targetMissing := s.targetMissing + [path])
    case Unchanged => s.(unchangedCount := s.unchangedCount + 1)
  }

  lemma CheckStep(files: seq<Entry>, i: nat, target: map<string, string>, sources: seq<Source>, hash: Hash)
    requires i < |files|
    ensures Check(files[..i + 1], target, sources, hash) ==
            Filed(Check(files[..i], target, sources, hash), files[i].path, CategoryOf(files[i], target, sources, hash))
  {
    hide CategoryOf;
    var categories := Categories(files[..i + 1], target, sources, hash);
    assert files[..i + 1][..i] == files[..i];
    assert categories[..i] == Categories(files[..i], target, sources, hash);
  }

  method BuildCheckSummary(files: seq<Entry>, target: map<string, string>, sources: seq<Source>, hash: Hash)
    returns (summary: Summary)
    ensures summary == Check(files, target, sources, hash)
  {
    var safeUpdates: seq<string>, conflicts: seq<string>, localOnlyDrift: seq<string> := [], [], [];
    var sourceMissing: seq<string>, targetMissing: seq<string>, unchangedCount: nat := [], [], 0;
    for i := 0 to |files|
      invariant Summary(safeUpdates, conflicts, localOnlyDrift, sourceMissing, targetMissing, unchangedCount) ==
                Check(files[..i], target, sources, hash)
    {
      CheckStep(files, i, target, sources, hash);
      hide Check;
      var entry := files[i];
      var source := SourceNamed(sources, entry.owner);
      if source.None? {
        sourceMissing := sourceMissing + [entry.path];
        continue;
      }
      if entry.path !in target {
        targetMissing := targetMissing + [entry.path];
        continue;
      }
      if entry.path !in source.value.files {
        sourceMissing := sourceMissing + [entry.path];
        continue;
      }
      var targetChanged := hash(target[entry.path]) != entry.baseline;
      var sourceChanged := hash(source.value.files[entry.path]) != entry.baseline;
      if !targetChanged && !sourceChanged {
        unchangedCount := unchangedCount + 1;
        continue;
      }
      if !targetChanged && sourceChanged {
        safeUpdates := safeUpdates + [entry.path];
        continue;
      }
      if targetChanged && !sourceChanged {
        localOnlyDrift := localOnlyDrift + [entry.path];
        continue;
      }
      conflicts := conflicts + [entry.path];
    }
    assert files[..|files|] == files;
    summary := Summary(safeUpdates, conflicts, localOnlyDrift, sourceMissing, targetMissing, unchangedCount);
  }

  // ----- Apply.

  /** The target afterwards, and the rewritten entries unless some copy failed on the way. */
  datatype Applied = Applied(target: map<string, string>, files: Option<seq<Entry>>)

  /** The content that an entry's update copies; `None` when it copies nothing. */
  function Copied(entry: Entry, sources: seq<Source>, safe: set<string>): Option<Source> {
    if entry.path in safe then SourceNamed(sources, entry.owner) else None
  }

  function ApplyFrom(target: map<string, string>, files: seq<Entry>, sources: seq<Source>, safe: set<string>, hash: Hash): Applied
    decreases |files|
  {
    if files == [] then Applied(target, Some([]))
    else
      var entry, source := files[0], Copied(files[0], sources, safe);
      if source.None? then Prepend(entry, ApplyFrom(target, files[1..], sources, safe, hash))
      else if entry.path !in source.value.files then Applied(target, None)
      else
        var content := source.value.files[entry.path];
        Prepend(entry.(baseline := hash(content)),
                ApplyFrom(target[entry.path := content], files[1..], sources, safe, hash))
  }

  function Prepend(entry: Entry, rest: Applied): Applied {
    rest.(files := if rest.files.Some? then Some([entry] + rest.files.value) else None)
  }

  function Apply(target: map<string, string>, files: seq<Entry>, sources: seq<Source>, summary: Summary, hash: Hash): Applied {
    ApplyFrom(target, files, sources, (set p | p in summary.safeUpdates), hash)
  }

  function PrependAll(done: seq<Entry>, rest: Applied): Applied {
    rest.(files := if rest.files.Some? then Some(done + rest.files.value) else None)
  }

  /** The checked-out repository: applying updates overwrites its files. */
  class Repository {
    var target: map<string, string>

    constructor (files: map<string, string>)
      ensures target == files
    {
      target := files;
    }

    method ApplySafeUpdates(files: seq<Entry>, sources: seq<Source>, summary: Summary, hash: Hash)
      returns (next: Option<seq<Entry>>)
      modifies this
      ensures Applied(target, next) == Apply(old(target), files, sources, summary, hash)
    {
      var safe := set p | p in summary.safeUpdates;
      var nextFiles: seq<Entry> := [];
      PrependNothing(ApplyFrom(target, files, sources, safe, hash));
      assert files[0..] == files;
      for i := 0 to |files|
        invariant Apply(old(target), files, sources, summary, hash) ==
                  PrependAll(nextFiles, ApplyFrom(target, files[i..], sources, safe, hash))
      {
        var entry := files[i];
        ApplyStep(nextFiles, target, files, i, sources, safe, hash);
        hide ApplyFrom, Apply;
        if entry.path !in safe {
          nextFiles := nextFiles + [entry];
          continue;
        }
        var source := SourceNamed(sources, entry.owner);
        if source.None? {
          nextFiles := nextFiles + [entry];
          continue;
        }
        if entry.path !in source.value.files { return None; }
        target := target[entry.path := source.value.files[entry.path]];
        nextFiles := nextFiles + [entry.(baseline := hash(target[entry.path]))];
      }
      PrependToNothing(nextFiles, target);
      next := Some(nextFiles);
    }
  }

  lemma ApplyStep(done: seq<Entry>, target: map<string, string>, files: seq<Entry>, i: nat, sources: seq<Source>,
                  safe: set<string>, hash: Hash)
    requires i < |files|
    ensures var entry, source := files[i], Copied(files[i], sources, safe);
            PrependAll(done, ApplyFrom(target, files[i..], sources, safe, hash)) ==
            if source.None? then PrependAll(done + [entry], ApplyFrom(target, files[i + 1..], sources, safe, hash))
            else if entry.path !in source.value.files then Applied(target, None)
            else PrependAll(done + [entry.(baseline := hash(source.value.files[entry.path]))],
                            ApplyFrom(target[entry.path := source.value.files[entry.path]], files[i + 1..], sources, safe, hash))
  {
    assert files[i..][1..] == files[i + 1..];
    var entry, source := files[i], Copied(files[i], sources, safe);
    if source.None? {
      PrependMore(done, entry, ApplyFrom(target, files[i + 1..], sources, safe, hash));
    } else if entry.path in source.value.files {
      var content := source.value.files[entry.path];
      PrependMore(done, entry.(baseline := hash(content)),
                  ApplyFrom(target[entry.path := content], files[i + 1..], sources, safe, hash));
    }
  }

  lemma PrependNothing(rest: Applied)
    ensures PrependAll([], rest) == rest
  {
    if rest.files.Some? { assert [] + rest.files.value == rest.files.value; }
  }

  lemma PrependToNothing(done: seq<Entry>, target: map<string, string>)
    ensures PrependAll(done, Applied(target, Some([]))) == Applied(target, Some(done))
  {
    assert done + [] == done;
  }

  lemma PrependMore(done: seq<Entry>, entry: Entry, rest: Applied)
    ensures PrependAll(done, Prepend(entry, rest)) == PrependAll(done + [entry], rest)
  {
    if rest.files.Some? {
      assert done + ([entry] + rest.files.value) == done + [entry] + rest.files.value;
    }
  }
}
