/** What a sync round guarantees, and what survives any number of rounds. */
module SyncRounds {
  import opened Text
  import opened UpstreamSync

  ghost predicate UniquePaths(files: seq<Entry>) {
    forall j, k :: 0 <= j < k < |files| ==> files[j].path != files[k].path
  }

  ghost predicate UniqueNames(sources: seq<Source>) {
    forall j, k :: 0 <= j < k < |sources| ==> sources[j].name != sources[k].name
  }

  // ----- Check: the categories partition the tracked files.

  lemma {:induction false} SelectIff(files: seq<Entry>, categories: seq<Category>, c: Category, path: string)
    requires |files| == |categories|
    ensures path in Select(files, categories, c) <==>
            exists k :: 0 <= k < |files| && files[k].path == path && categories[k] == c
  {
    if files != [] {
      var n := |files| - 1;
      SelectIff(files[..n], categories[..n], c, path);
    }
  }

  lemma {:induction false} SelectCounts(files: seq<Entry>, categories: seq<Category>)
    requires |files| == |categories|
    ensures |Select(files, categories, SafeUpdate)| + |Select(files, categories, Conflict)|
            + |Select(files, categories, LocalOnlyDrift)| + |Select(files, categories, SourceMissing)|
            + |Select(files, categories, TargetMissing)| + |Select(files, categories, Unchanged)| == |files|
  {
    if files != [] {
      var n := |files| - 1;
      SelectCounts(files[..n], categories[..n]);
    }
  }

  /** The list of a summary for a category that has one. */
  function Listed(s: Summary, c: Category): seq<string>
    requires c != Unchanged
  {
    match c
    case SafeUpdate => s.safeUpdates
    case Conflict => s.conflicts
    case LocalOnlyDrift => s.localOnlyDrift
    case SourceMissing => s.sourceMissing
    case TargetMissing => s.targetMissing
  }

  /** The totals add up, and a tracked path is on exactly the list of its category. */
  lemma CheckPartitions(files: seq<Entry>, target: map<string, string>, sources: seq<Source>, hash: Hash)
    requires UniquePaths(files)
    ensures var s := Check(files, target, sources, hash);
            && |s.safeUpdates| + |s.conflicts| + |s.localOnlyDrift| + |s.sourceMissing| + |s.targetMissing|
               + s.unchangedCount == |files|
            && (forall k, c :: 0 <= k < |files| && c != Unchanged ==>
                  (files[k].path in Listed(s, c) <==> CategoryOf(files[k], target, sources, hash) == c))
            && (forall c, path :: c != Unchanged && path in Listed(s, c) ==>
                  exists k :: 0 <= k < |files| && files[k].path == path)
  {
    var categories := Categories(files, target, sources, hash);
    SelectCounts(files, categories);
    var s := Check(files, target, sources, hash);
    forall c, path | c != Unchanged
      ensures path in Listed(s, c) <==> exists k :: 0 <= k < |files| && files[k].path == path && categories[k] == c
    {
      SelectIff(files, categories, c, path);
    }
  }

  // ----- Apply.

  /** What applying makes of one entry and of its file. */
  predicate Updates(entry: Entry, sources: seq<Source>, safe: set<string>) {
    && Copied(entry, sources, safe).Some?
    && entry.path in Copied(entry, sources, safe).value.files
  }

  function Content(entry: Entry, sources: seq<Source>, safe: set<string>): string
    requires Updates(entry, sources, safe)
  {
    Copied(entry, sources, safe).value.files[entry.path]
  }

  function Rebased(entry: Entry, sources: seq<Source>, safe: set<string>, hash: Hash): Entry {
    if Updates(entry, sources, safe) then entry.(baseline := hash(Content(entry, sources, safe))) else entry
  }

  /** Every copy finds its source file. */
  ghost predicate Copyable(files: seq<Entry>, sources: seq<Source>, safe: set<string>) {
    forall e :: e in files && Copied(e, sources, safe).Some? ==> Updates(e, sources, safe)
  }

  /** The copy of the entry finds no source file, and the run stops there. */
  predicate CopyFails(entry: Entry, sources: seq<Source>, safe: set<string>) {
    Copied(entry, sources, safe).Some? && !Updates(entry, sources, safe)
  }

  /** The number of entries before the first failing copy. */
  function Reach(files: seq<Entry>, sources: seq<Source>, safe: set<string>): (n: nat)
    ensures n <= |files|
  {
    if files == [] || CopyFails(files[0], sources, safe) then 0 else 1 + Reach(files[1..], sources, safe)
  }

  lemma {:induction false} ReachesAllIff(files: seq<Entry>, sources: seq<Source>, safe: set<string>)
    ensures Reach(files, sources, safe) == |files| <==> Copyable(files, sources, safe)
  {
    hide Copied, Updates;
    if files != [] {
      ReachesAllIff(files[1..], sources, safe);
      assert forall e :: e in files <==> e == files[0] || e in files[1..];
    }
  }

  /** The content that the run leaves at a path that it writes. */
  function Written(files: seq<Entry>, sources: seq<Source>, safe: set<string>, path: string): Option<string> {
    if files == [] || CopyFails(files[0], sources, safe) then None
    else
      var later := Written(files[1..], sources, safe, path);
      if later.None? && files[0].path == path && Updates(files[0], sources, safe)
      then Some(Content(files[0], sources, safe)) else later
  }

  lemma {:induction false} WrittenIff(files: seq<Entry>, sources: seq<Source>, safe: set<string>, path: string)
    ensures Written(files, sources, safe, path).Some? <==>
            exists k :: 0 <= k < Reach(files, sources, safe) && files[k].path == path && Updates(files[k], sources, safe)
    ensures Written(files, sources, safe, path).Some? ==>
              exists e :: e in files && e.path == path && Updates(e, sources, safe)
                          && Written(files, sources, safe, path).value == Content(e, sources, safe)
  {
    hide Copied, Updates, Content;
    if files != [] && !CopyFails(files[0], sources, safe) {
      var rest := files[1..];
      WrittenIff(rest, sources, safe, path);
      if k :| 0 <= k < Reach(rest, sources, safe) && rest[k].path == path && Updates(rest[k], sources, safe) {
        assert files[k + 1] == rest[k];
      }
      forall k | 0 < k < Reach(files, sources, safe) ensures files[k] == rest[k - 1] {}
    }
  }

  /** The run overwrites the written paths and leaves every other file as it is. */
  lemma {:induction false} ApplyAt(target: map<string, string>, files: seq<Entry>, sources: seq<Source>,
                                   safe: set<string>, hash: Hash, path: string)
    ensures var a, w := ApplyFrom(target, files, sources, safe, hash), Written(files, sources, safe, path);
            && (path in a.target <==> w.Some? || path in target)
            && (path in a.target ==> a.target[path] == if w.Some? then w.value else target[path])
    ensures ApplyFrom(target, files, sources, safe, hash).files.Some? <==> Reach(files, sources, safe) == |files|
    decreases |files|
  {
    hide SourceNamed;
    if files != [] && !CopyFails(files[0], sources, safe) {
      var next := if Updates(files[0], sources, safe)
                  then target[files[0].path := Content(files[0], sources, safe)] else target;
      ApplyAt(next, files[1..], sources, safe, hash, path);
    }
  }

  lemma SamePathSameEntry(files: seq<Entry>, e: Entry)
    requires UniquePaths(files) && e in files
    ensures forall g :: g in files && g.path == e.path ==> g == e
  {
    var j :| 0 <= j < |files| && files[j] == e;
    forall g | g in files && g.path == e.path ensures g == e {
      var k :| 0 <= k < |files| && files[k] == g;
      assert j == k;
    }
  }

  lemma {:induction false} RebasedPointwise(target: map<string, string>, files: seq<Entry>, sources: seq<Source>,
                                            safe: set<string>, hash: Hash, a: Applied)
    requires Copyable(files, sources, safe)
    requires a == ApplyFrom(target, files, sources, safe, hash)
    ensures a.files.Some? && |a.files.value| == |files|
    ensures forall k :: 0 <= k < |files| ==> a.files.value[k] == Rebased(files[k], sources, safe, hash)
    decreases |files|
  {
    if files != [] {
      var entry, rest := files[0], files[1..];
      assert forall e :: e in files <==> e == entry || e in rest;
      var next := if Updates(entry, sources, safe) then target[entry.path := Content(entry, sources, safe)] else target;
      var b := ApplyFrom(next, rest, sources, safe, hash);
      RebasedPointwise(next, rest, sources, safe, hash, b);
      assert a == Prepend(Rebased(entry, sources, safe, hash), b);
    }
  }

  /** Each entry is rebased on its own; files of updated entries get the owner's content and no other
      file changes. */
  lemma ApplyPointwise(target: map<string, string>, files: seq<Entry>, sources: seq<Source>, safe: set<string>,
                       hash: Hash, a: Applied)
    requires UniquePaths(files) && Copyable(files, sources, safe)
    requires a == ApplyFrom(target, files, sources, safe, hash)
    ensures a.files.Some? && |a.files.value| == |files|
    ensures forall k :: 0 <= k < |files| ==> a.files.value[k] == Rebased(files[k], sources, safe, hash)
    ensures forall e :: e in files && Updates(e, sources, safe) ==>
              e.path in a.target && a.target[e.path] == Content(e, sources, safe)
    ensures forall p :: (forall e :: e in files && e.path == p ==> !Updates(e, sources, safe)) ==>
              (p in a.target <==> p in target) && (p in target ==> a.target[p] == target[p])
  {
    hide Updates, Content, ApplyFrom, Reach, Written, Copyable, UniquePaths;
    RebasedPointwise(target, files, sources, safe, hash, a);
    ReachesAllIff(files, sources, safe);
    forall p
      ensures (p in a.target <==> Written(files, sources, safe, p).Some? || p in target)
      ensures p in a.target ==> a.target[p] == var w := Written(files, sources, safe, p); if w.Some? then w.value else target[p]
    {
      ApplyAt(target, files, sources, safe, hash, p);
    }
    forall e | e in files && Updates(e, sources, safe)
      ensures Written(files, sources, safe, e.path) == Some(Content(e, sources, safe))
    {
      WrittenIff(files, sources, safe, e.path);
      SamePathSameEntry(files, e);
      var k :| 0 <= k < |files| && files[k] == e;
    }
    forall p | forall e :: e in files && e.path == p ==> !Updates(e, sources, safe)
      ensures Written(files, sources, safe, p).None?
    {
      WrittenIff(files, sources, safe, p);
    }
  }

  function SafeSet(s: Summary): set<string> { set p | p in s.safeUpdates }

  /** With unique paths, the entries that a check calls safe are the ones whose files are copied. */
  lemma SafeMeansSafe(files: seq<Entry>, target: map<string, string>, sources: seq<Source>, hash: Hash)
    requires UniquePaths(files)
    ensures var safe := SafeSet(Check(files, target, sources, hash));
            && Copyable(files, sources, safe)
            && forall e :: e in files ==>
                 (Updates(e, sources, safe) <==> CategoryOf(e, target, sources, hash) == SafeUpdate)
  {
    CheckPartitions(files, target, sources, hash);
    var s := Check(files, target, sources, hash);
    forall e | e in files ensures e.path in s.safeUpdates <==> CategoryOf(e, target, sources, hash) == SafeUpdate {
      var k :| 0 <= k < |files| && files[k] == e;
      assert files[k].path in Listed(s, SafeUpdate) <==> CategoryOf(files[k], target, sources, hash) == SafeUpdate;
    }
  }

  /** Applying a fresh check never fails and overwrites exactly the files that still match their
      baseline and whose owner moved on; they receive the owner's content. */
  lemma ApplyTouchesOnlySafe(files: seq<Entry>, target: map<string, string>, sources: seq<Source>, hash: Hash)
    requires UniquePaths(files)
    ensures var a := Apply(target, files, sources, Check(files, target, sources, hash), hash);
            && a.files.Some? && |a.files.value| == |files|
            && a.target.Keys == target.Keys
            && (forall e :: e in files ==>
                  if CategoryOf(e, target, sources, hash) == SafeUpdate
                  then e.path in target && hash(target[e.path]) == e.baseline
                       && a.target[e.path] == SourceNamed(sources, e.owner).value.files[e.path]
                  else e.path in target ==> a.target[e.path] == target[e.path])
            && (forall p :: p in target && (forall e :: e in files ==> e.path != p) ==> a.target[p] == target[p])
  {
    var summary := Check(files, target, sources, hash);
    var safe := SafeSet(summary);
    SafeMeansSafe(files, target, sources, hash);
    var a := Apply(target, files, sources, summary, hash);
    ApplyPointwise(target, files, sources, safe, hash, a);
    forall e | e in files && CategoryOf(e, target, sources, hash) != SafeUpdate
      ensures forall g :: g in files && g.path == e.path ==> g == e
    {
      SamePathSameEntry(files, e);
    }
    forall p ensures p in a.target <==> p in target {
      if e :| e in files && e.path == p && Updates(e, sources, safe) {
        assert CategoryOf(e, target, sources, hash) == SafeUpdate;
      }
    }
  }

  // ----- A second check.

  /** An applied update is up to date; everything else is as it was. */
  lemma CategoryAfterApply(files: seq<Entry>, target: map<string, string>, sources: seq<Source>, hash: Hash, k: nat)
    requires UniquePaths(files) && k < |files|
    ensures var a := Apply(target, files, sources, Check(files, target, sources, hash), hash);
            var before := CategoryOf(files[k], target, sources, hash);
            && a.files.Some? && |a.files.value| == |files|
            && a.files.value[k].path == files[k].path
            && CategoryOf(a.files.value[k], a.target, sources, hash) ==
               if before == SafeUpdate then Unchanged else before
  {
    hide Check, ApplyFrom, UniquePaths;
    var safe := SafeSet(Check(files, target, sources, hash));
    var a := Apply(target, files, sources, Check(files, target, sources, hash), hash);
    SafeMeansSafe(files, target, sources, hash);
    ApplyPointwise(target, files, sources, safe, hash, a);
    ApplyTouchesOnlySafe(files, target, sources, hash);
    assert files[k] in files;
  }

  lemma {:induction false} SelectMoved(files: seq<Entry>, before: seq<Category>, files': seq<Entry>, after: seq<Category>, c: Category)
    requires |files| == |before| == |files'| == |after|
    requires forall k :: 0 <= k < |files| ==> files'[k].path == files[k].path
    requires forall k :: 0 <= k < |files| ==> after[k] == if before[k] == SafeUpdate then Unchanged else before[k]
    ensures c !in {SafeUpdate, Unchanged} ==> Select(files', after, c) == Select(files, before, c)
    ensures Select(files', after, SafeUpdate) == []
    ensures |Select(files', after, Unchanged)| ==
            |Select(files, before, Unchanged)| + |Select(files, before, SafeUpdate)|
  {
    if files != [] {
      var n := |files| - 1;
      SelectMoved(files[..n], before[..n], files'[..n], after[..n], c);
    }
  }

  /** Checking again after applying finds no safe update and the same conflicts, drift and missing files. */
  lemma SecondCheckIsSettled(files: seq<Entry>, target: map<string, string>, sources: seq<Source>, hash: Hash)
    requires UniquePaths(files)
    ensures var first := Check(files, target, sources, hash);
            var a := Apply(target, files, sources, first, hash);
            && a.files.Some?
            && Check(a.files.value, a.target, sources, hash) ==
               first.(safeUpdates := [], unchangedCount := first.unchangedCount + |first.safeUpdates|)
  {
    var a := Apply(target, files, sources, Check(files, target, sources, hash), hash);
    ApplyTouchesOnlySafe(files, target, sources, hash);
    hide CategoryOf, Apply;
    var before, after := Categories(files, target, sources, hash), Categories(a.files.value, a.target, sources, hash);
    forall k | 0 <= k < |files|
      ensures a.files.value[k].path == files[k].path
      ensures after[k] == if before[k] == SafeUpdate then Unchanged else before[k]
    {
      CategoryAfterApply(files, target, sources, hash, k);
    }
    SelectMoved(files, before, a.files.value, after, Conflict);
    SelectMoved(files, before, a.files.value, after, LocalOnlyDrift);
    SelectMoved(files, before, a.files.value, after, SourceMissing);
    SelectMoved(files, before, a.files.value, after, TargetMissing);
  }

  lemma CheckTwo(x: Entry, y: Entry, target: map<string, string>, sources: seq<Source>, hash: Hash)
    ensures Check([x, y], target, sources, hash) ==
            Filed(Filed(Summary([], [], [], [], [], 0), x.path, CategoryOf(x, target, sources, hash)),
                  y.path, CategoryOf(y, target, sources, hash))
  {
    hide CategoryOf;
    var files := [x, y];
    CheckStep(files, 0, target, sources, hash);
    CheckStep(files, 1, target, sources, hash);
    assert files[..2] == files && files[..1] == [x] && files[..0] == [];
  }

  lemma ApplyTwo(x: Entry, y: Entry, target: map<string, string>, sources: seq<Source>, safe: set<string>, hash: Hash)
    requires x.path == y.path && Updates(x, sources, safe) && Updates(y, sources, safe)
    ensures ApplyFrom(target, [x, y], sources, safe, hash).target == target[x.path := Content(y, sources, safe)]
  {
    hide Copied;
    assert [x, y][1..] == [y] && [y][1..] == [];
    var next := target[x.path := Content(x, sources, safe)][y.path := Content(y, sources, safe)];
    assert ApplyFrom(next, [], sources, safe, hash).target == next;
  }

  /** A path listed twice lets one entry's update overwrite a file that the other calls a conflict. */
  lemma RepeatedPathOverwritesConflict(x: Entry, y: Entry, target: map<string, string>, sources: seq<Source>, hash: Hash)
    requires x.path == y.path
    requires CategoryOf(x, target, sources, hash) == SafeUpdate && CategoryOf(y, target, sources, hash) == Conflict
    ensures var summary := Check([x, y], target, sources, hash);
            && summary.safeUpdates == [x.path] && summary.conflicts == [x.path]
            && Apply(target, [x, y], sources, summary, hash).target ==
               target[x.path := SourceNamed(sources, y.owner).value.files[y.path]]
  {
    hide SourceNamed, Check, ApplyFrom;
    CheckTwo(x, y, target, sources, hash);
    var summary := Check([x, y], target, sources, hash);
    assert (set p | p in summary.safeUpdates) == {x.path};
    ApplyTwo(x, y, target, sources, {x.path}, hash);
  }

  /** Two owners, one file edited here: the edit is reported as a conflict and lost all the same. */
  lemma RepeatedPathLosesEdit(hash: Hash)
    requires hash("old") != hash("mine") && hash("new") != hash("mine") && hash("other") != hash("old")
    ensures var sources := [Source("a", true, map["f" := "new"]), Source("b", false, map["f" := "other"])];
            var files := [Entry("f", "a", hash("mine")), Entry("f", "b", hash("old"))];
            var summary := Check(files, map["f" := "mine"], sources, hash);
            && summary.conflicts == ["f"]
            && Apply(map["f" := "mine"], files, sources, summary, hash).target == map["f" := "other"]
  {
    hide Check, Apply;
    var a, b := Source("a", true, map["f" := "new"]), Source("b", false, map["f" := "other"]);
    assert [a, b][..1] == [a] && SourceNamed([a], "a") == Some(a);
    RepeatedPathOverwritesConflict(Entry("f", "a", hash("mine")), Entry("f", "b", hash("old")),
                                   map["f" := "mine"], [a, b], hash);
  }

  // ----- Which lists of entries keep drifted files safe.

  /** The file at the path after the run, when it held the given content before. */
  function Outcome(target: map<string, string>, files: seq<Entry>, sources: seq<Source>, safe: set<string>,
                   hash: Hash, path: string, content: string): string
  {
    var a := ApplyFrom(target[path := content], files, sources, safe, hash);
    ApplyAt(target[path := content], files, sources, safe, hash, path);
    a.target[path]
  }

  /** Whatever the file at the path holds, it holds it after the run. */
  ghost predicate Keeps(target: map<string, string>, files: seq<Entry>, sources: seq<Source>, safe: set<string>,
                        hash: Hash, path: string)
  {
    forall content :: Outcome(target, files, sources, safe, hash, path, content) == content
  }

  lemma KeepsIff(target: map<string, string>, files: seq<Entry>, sources: seq<Source>, safe: set<string>, hash: Hash,
                 path: string)
    ensures Keeps(target, files, sources, safe, hash, path) <==> Written(files, sources, safe, path).None?
  {
    hide ApplyFrom, Written;
    var w := Written(files, sources, safe, path);
    forall content
      ensures Outcome(target, files, sources, safe, hash, path, content) == if w.Some? then w.value else content
    {
      ApplyAt(target[path := content], files, sources, safe, hash, path);
    }
    if w.Some? {
      assert Outcome(target, files, sources, safe, hash, path, w.value + "x") == w.value;
    }
  }

  /** The paths on which a check reports a local change. */
  predicate Drifted(s: Summary, path: string) { path in s.conflicts || path in s.localOnlyDrift }

  predicate NothingBothSafeAndDrifted(s: Summary) { forall path :: path in s.safeUpdates ==> !Drifted(s, path) }

  /** Applying a fresh check spares every drifted file, whatever it holds, exactly when no entry that
      has a source and comes before the first failing copy is for a path both safe and drifted. */
  lemma DriftIsSparedIff(files: seq<Entry>, target: map<string, string>, sources: seq<Source>, hash: Hash)
    ensures var s := Check(files, target, sources, hash);
            var safe := SafeSet(s);
            (forall path :: Drifted(s, path) ==> Keeps(target, files, sources, safe, hash, path)) <==>
            (forall k :: 0 <= k < Reach(files, sources, safe) && files[k].path in s.safeUpdates ==>
               Drifted(s, files[k].path) ==> SourceNamed(sources, files[k].owner).None?)
  {
    hide Check, ApplyFrom, SourceNamed, Drifted;
    var s := Check(files, target, sources, hash);
    var safe := SafeSet(s);
    forall path
      ensures Keeps(target, files, sources, safe, hash, path) <==>
              forall k :: 0 <= k < Reach(files, sources, safe) && files[k].path == path ==> !Updates(files[k], sources, safe)
    {
      KeepsIff(target, files, sources, safe, hash, path);
      WrittenIff(files, sources, safe, path);
    }
    hide Keeps;
    forall k | 0 <= k < Reach(files, sources, safe)
      ensures Updates(files[k], sources, safe) <==>
              files[k].path in s.safeUpdates && SourceNamed(sources, files[k].owner).Some?
    {
      NoFailureBefore(files, sources, safe, k);
    }
    hide Updates, SafeSet;
    if forall path :: Drifted(s, path) ==> Keeps(target, files, sources, safe, hash, path) {
      forall k | 0 <= k < Reach(files, sources, safe) && files[k].path in s.safeUpdates && Drifted(s, files[k].path)
        ensures SourceNamed(sources, files[k].owner).None?
      {
        assert Keeps(target, files, sources, safe, hash, files[k].path);
      }
    }
  }

  lemma {:induction false} NoFailureBefore(files: seq<Entry>, sources: seq<Source>, safe: set<string>, k: nat)
    requires k < Reach(files, sources, safe)
    ensures !CopyFails(files[k], sources, safe)
  {
    hide CopyFails;
    if k > 0 { NoFailureBefore(files[1..], sources, safe, k - 1); }
  }

  /** A run that completes spares every drifted file exactly when the summary alone says so; a run stops
      early exactly when a source lacks the file of an entry for a safe path. */
  lemma CompletedRunSparesDriftIff(files: seq<Entry>, target: map<string, string>, sources: seq<Source>, hash: Hash)
    ensures var s := Check(files, target, sources, hash);
            var safe := SafeSet(s);
            var completes := Apply(target, files, sources, s, hash).files.Some?;
            var spared := forall path :: Drifted(s, path) ==> Keeps(target, files, sources, safe, hash, path);
            && (completes <==> Copyable(files, sources, safe))
            && (NothingBothSafeAndDrifted(s) ==> spared)
            && (completes ==> (spared <==> NothingBothSafeAndDrifted(s)))
  {
    var s := Check(files, target, sources, hash);
    var safe := SafeSet(s);
    ApplyAt(target, files, sources, safe, hash, "");
    ReachesAllIff(files, sources, safe);
    DriftIsSparedIff(files, target, sources, hash);
    forall path | path in s.safeUpdates
      ensures exists k :: 0 <= k < |files| && files[k].path == path && SourceNamed(sources, files[k].owner).Some?
    {
      var categories := Categories(files, target, sources, hash);
      SelectIff(files, categories, SafeUpdate, path);
      var k :| 0 <= k < |files| && files[k].path == path && categories[k] == SafeUpdate;
      assert CategoryOf(files[k], target, sources, hash) == SafeUpdate;
    }
  }

  // ----- Bootstrap.

  lemma {:induction false} MatchingIff(sources: seq<Source>, path: string, content: string, s: Source)
    ensures s in Matching(sources, path, content) <==> s in sources && path in s.files && s.files[path] == content
  {
    if sources != [] {
      MatchingIff(sources[1..], path, content, s);
      assert s in sources <==> s == sources[0] || s in sources[1..];
    }
  }

  lemma {:induction false} PreferringIff(sources: seq<Source>, preferred: bool, s: Source)
    ensures s in Preferring(sources, preferred) <==> s in sources && s.preferred == preferred
  {
    if sources != [] {
      PreferringIff(sources[1..], preferred, s);
      assert s in sources <==> s == sources[0] || s in sources[1..];
    }
  }

  /** A file has an owner exactly when some source holds the identical file, and a preferred one wins. */
  lemma OwnedIff(sources: seq<Source>, path: string, content: string)
    ensures OwnerOf(sources, path, content).Some? <==>
            exists s :: s in sources && path in s.files && s.files[path] == content
    ensures OwnerOf(sources, path, content).Some? ==>
              var owner := OwnerOf(sources, path, content).value;
              && owner in sources && path in owner.files && owner.files[path] == content
              && (owner.preferred <==>
                  exists s :: s in sources && path in s.files && s.files[path] == content && s.preferred)
  {
    var matching := Matching(sources, path, content);
    forall s ensures s in matching <==> s in sources && path in s.files && s.files[path] == content {
      MatchingIff(sources, path, content, s);
    }
    forall s, preferred ensures s in Preferring(matching, preferred) <==> s in matching && s.preferred == preferred {
      PreferringIff(matching, preferred, s);
    }
    var first := Preferring(matching, true);
    var second := Preferring(matching, false);
    if first != [] {
      assert first[0] in first;
    } else if second != [] {
      assert second[0] in second;
    }
    forall s | s in matching ensures s in first || s in second {
      assert s in Preferring(matching, s.preferred);
    }
  }

  lemma {:induction false} NamedIsUnique(sources: seq<Source>, s: Source)
    requires UniqueNames(sources) && s in sources
    ensures SourceNamed(sources, s.name) == Some(s)
  {
    var n := |sources| - 1;
    var k :| 0 <= k < |sources| && sources[k] == s;
    if k < n { NamedIsUnique(sources[..n], s); }
  }

  lemma {:induction false} BootstrapPathsUnique(paths: seq<string>, target: map<string, string>, sources: seq<Source>, hash: Hash)
    requires forall p :: p in paths ==> p in target
    requires forall j, k :: 0 <= j < k < |paths| ==> paths[j] != paths[k]
    ensures var files := BootstrapEntries(paths, target, sources, hash);
            UniquePaths(files) && forall e :: e in files ==> e.path in paths
  {
    hide OwnerOf;
    if paths != [] {
      BootstrapPathsUnique(paths[..|paths| - 1], target, sources, hash);
    }
  }

  lemma {:induction false} BootstrapHas(paths: seq<string>, target: map<string, string>, sources: seq<Source>, hash: Hash,
                                        p: string)
    requires forall q :: q in paths ==> q in target
    requires p in paths
    ensures (exists e :: e in BootstrapEntries(paths, target, sources, hash) && e.path == p) <==>
            OwnerOf(sources, p, target[p]).Some?
  {
    hide OwnerOf;
    var n := |paths| - 1;
    var files, front := BootstrapEntries(paths, target, sources, hash), BootstrapEntries(paths[..n], target, sources, hash);
    if OwnerOf(sources, paths[n], target[paths[n]]).Some? {
      assert files[|files| - 1] in files;
    }
    if p in paths[..n] {
      BootstrapHas(paths[..n], target, sources, hash, p);
      if e :| e in front && e.path == p { assert e in files; }
    } else {
      BootstrapNames(paths[..n], target, sources, hash);
    }
  }

  lemma {:induction false} BootstrapNames(paths: seq<string>, target: map<string, string>, sources: seq<Source>, hash: Hash)
    requires forall p :: p in paths ==> p in target
    ensures forall e :: e in BootstrapEntries(paths, target, sources, hash) ==> e.path in paths
  {
    hide OwnerOf;
    if paths != [] {
      BootstrapNames(paths[..|paths| - 1], target, sources, hash);
    }
  }

  /** The manifest tracks, once each, exactly the walked files that some source holds identically. */
  lemma BootstrapTracks(paths: seq<string>, target: map<string, string>, sources: seq<Source>, hash: Hash)
    requires forall p :: p in paths ==> p in target
    requires forall j, k :: 0 <= j < k < |paths| ==> paths[j] != paths[k]
    ensures var files := BootstrapEntries(paths, target, sources, hash);
            && UniquePaths(files)
            && (forall e :: e in files ==> e.path in paths)
            && (forall p :: p in paths ==>
                  ((exists e :: e in files && e.path == p) <==>
                   exists s :: s in sources && p in s.files && s.files[p] == target[p]))
  {
    BootstrapPathsUnique(paths, target, sources, hash);
    forall p | p in paths
      ensures (exists e :: e in BootstrapEntries(paths, target, sources, hash) && e.path == p) <==>
              exists s :: s in sources && p in s.files && s.files[p] == target[p]
    {
      BootstrapHas(paths, target, sources, hash, p);
      OwnedIff(sources, p, target[p]);
    }
  }

  lemma {:induction false} BootstrappedUnchanged(paths: seq<string>, target: map<string, string>, sources: seq<Source>, hash: Hash)
    requires forall p :: p in paths ==> p in target
    requires UniqueNames(sources)
    ensures forall e :: e in BootstrapEntries(paths, target, sources, hash) ==>
              CategoryOf(e, target, sources, hash) == Unchanged
  {
    if paths != [] {
      var n := |paths| - 1;
      BootstrappedUnchanged(paths[..n], target, sources, hash);
      OwnedIff(sources, paths[n], target[paths[n]]);
      var owner := OwnerOf(sources, paths[n], target[paths[n]]);
      if owner.Some? { NamedIsUnique(sources, owner.value); }
    }
  }

  lemma {:induction false} SelectUniform(files: seq<Entry>, categories: seq<Category>, c: Category)
    requires |files| == |categories| && forall k :: 0 <= k < |files| ==> categories[k] == Unchanged
    ensures |Select(files, categories, c)| == if c == Unchanged then |files| else 0
  {
    if files != [] {
      var n := |files| - 1;
      SelectUniform(files[..n], categories[..n], c);
    }
  }

  /** A check right after bootstrapping reports every tracked file unchanged. */
  lemma CheckAfterBootstrap(paths: seq<string>, target: map<string, string>, sources: seq<Source>, hash: Hash)
    requires forall p :: p in paths ==> p in target
    requires UniqueNames(sources)
    ensures var files := BootstrapEntries(paths, target, sources, hash);
            Check(files, target, sources, hash) == Summary([], [], [], [], [], |files|)
  {
    var files := BootstrapEntries(paths, target, sources, hash);
    var categories := Categories(files, target, sources, hash);
    BootstrappedUnchanged(paths, target, sources, hash);
    forall k | 0 <= k < |files| ensures categories[k] == Unchanged { assert files[k] in files; }
    forall c ensures |Select(files, categories, c)| == if c == Unchanged then |files| else 0 {
      SelectUniform(files, categories, c);
    }
  }

  // ----- Many rounds, with the upstream changing in between.

  /** Each round meets its own state of the sources. */
  function Rounds(target: map<string, string>, files: seq<Entry>, rounds: seq<seq<Source>>, hash: Hash): Applied
    decreases |rounds|
  {
    if rounds == [] then Applied(target, Some(files))
    else
      var a := Apply(target, files, rounds[0], Check(files, target, rounds[0], hash), hash);
      if a.files.None? then a else Rounds(a.target, a.files.value, rounds[1..], hash)
  }

  lemma PathsStayUnique(files: seq<Entry>, target: map<string, string>, sources: seq<Source>, hash: Hash)
    requires UniquePaths(files)
    ensures var a := Apply(target, files, sources, Check(files, target, sources, hash), hash);
            && a.files.Some? && UniquePaths(a.files.value) && |a.files.value| == |files|
            && forall k :: 0 <= k < |files| ==>
                 a.files.value[k] == files[k]
                 || (CategoryOf(files[k], target, sources, hash) == SafeUpdate && a.files.value[k].path == files[k].path)
  {
    var safe := SafeSet(Check(files, target, sources, hash));
    var a := Apply(target, files, sources, Check(files, target, sources, hash), hash);
    SafeMeansSafe(files, target, sources, hash);
    ApplyPointwise(target, files, sources, safe, hash, a);
    forall k | 0 <= k < |files| ensures a.files.value[k].path == files[k].path { assert files[k] in files; }
  }

  /** A local edit survives any number of rounds, whatever the upstream does: the file and its
      baseline stay as they are. */
  lemma {:induction false} LocalEditsSurvive(target: map<string, string>, files: seq<Entry>, rounds: seq<seq<Source>>,
                                             hash: Hash, k: nat)
    requires UniquePaths(files) && k < |files|
    requires files[k].path in target && hash(target[files[k].path]) != files[k].baseline
    ensures var r := Rounds(target, files, rounds, hash);
            && r.files.Some? && |r.files.value| == |files| && r.files.value[k] == files[k]
            && files[k].path in r.target && r.target[files[k].path] == target[files[k].path]
    decreases |rounds|
  {
    if rounds != [] {
      var a := Apply(target, files, rounds[0], Check(files, target, rounds[0], hash), hash);
      ApplyTouchesOnlySafe(files, target, rounds[0], hash);
      PathsStayUnique(files, target, rounds[0], hash);
      assert files[k] in files;
      assert files[k].path in a.target;
      LocalEditsSurvive(a.target, a.files.value, rounds[1..], hash, k);
    }
  }
}
