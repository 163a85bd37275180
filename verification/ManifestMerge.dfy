/** Merging two macOS update manifests (scripts/merge-mac-update-manifests.ts). */
module ManifestMerge {
  import opened Text
  import opened ManifestText
  import opened Manifest
  import opened ManifestRoundTrip

  datatype MergeResult = Merged(manifest: Manifest) | DifferentVersions | FileConflict | ExtraConflict

  /** Names that every object answers to even when it has no such entry of its own. */
  const INHERITED := {"constructor", "hasOwnProperty", "isPrototypeOf", "propertyIsEnumerable",
                      "toLocaleString", "toString", "valueOf"}

  // ----- Files: a map by url, in order of first insertion.

  predicate HasUrl(files: seq<File>, url: string) { exists f :: f in files && f.url == url }

  function Add(files: seq<File>, file: File): seq<File> {
    if HasUrl(files, file.url) then files else files + [file]
  }

  /** The first entry of every url. */
  function Distinct(files: seq<File>): seq<File> {
    if files == [] then [] else Add(Distinct(files[..|files| - 1]), files[|files| - 1])
  }

  /** One url, one entry. */
  ghost predicate Consistent(files: seq<File>) {
    forall f, g :: f in files && g in files && f.url == g.url ==> f == g
  }

  ghost function MergedFiles(files: seq<File>): Option<seq<File>> {
    if Consistent(files) then Some(Distinct(files)) else None
  }

  // ----- Extras.

  predicate ExtrasAgree(primary: map<string, Scalar>, secondary: map<string, Scalar>) {
    forall k :: k in secondary ==> if k in primary then primary[k] == secondary[k] else k !in INHERITED
  }

  // ----- The merge.

  function Later(a: string, b: string): string { if Le(b, a) then a else b }

  ghost function Merge(a: Manifest, b: Manifest): MergeResult {
    if a.version != b.version then DifferentVersions
    else if !Consistent(a.files + b.files) then FileConflict
    else if !ExtrasAgree(a.extras, b.extras) then ExtraConflict
    else Merged(Manifest(a.version, Later(a.releaseDate, b.releaseDate), Distinct(a.files + b.files),
                         a.extras + b.extras))
  }

  lemma DistinctSnoc(files: seq<File>, file: File)
    ensures Distinct(files + [file]) == Add(Distinct(files), file)
  {
    assert (files + [file])[..|files|] == files;
  }

  /** Keeps every url, and of consistent files every file; no url twice. */
  lemma {:induction false} DistinctKeeps(files: seq<File>)
    ensures forall f :: f in Distinct(files) ==> f in files
    ensures forall url :: HasUrl(Distinct(files), url) <==> HasUrl(files, url)
    ensures forall i, j :: 0 <= i < j < |Distinct(files)| ==> Distinct(files)[i].url != Distinct(files)[j].url
  {
    if files != [] {
      var front, last := files[..|files| - 1], files[|files| - 1];
      DistinctKeeps(front);
      assert files == front + [last];
      assert HasUrl(files, last.url);
      forall url ensures HasUrl(Distinct(files), url) <==> HasUrl(files, url) {
        if HasUrl(files, url) && url != last.url {
          var f :| f in files && f.url == url;
          assert f in front;
          assert HasUrl(front, url);
          var g :| g in Distinct(front) && g.url == url;
          assert g in Distinct(files);
        }
        if url == last.url && !HasUrl(Distinct(front), url) {
          assert last in Distinct(files);
        }
      }
    }
  }

  lemma ConsistentKeepsAll(files: seq<File>)
    requires Consistent(files)
    ensures forall f :: f in files <==> f in Distinct(files)
  {
    DistinctKeeps(files);
    forall f | f in files ensures f in Distinct(files) {
      assert HasUrl(files, f.url);
      var g :| g in Distinct(files) && g.url == f.url;
    }
  }

  /** `filesByUrl` holds, for each url, an entry with that url. */
  ghost predicate Indexes(filesByUrl: map<string, File>, files: seq<File>) {
    && (forall url :: url in filesByUrl <==> HasUrl(files, url))
    && (forall url :: url in filesByUrl ==> filesByUrl[url] in files && filesByUrl[url].url == url)
  }

  lemma IndexKeeps(filesByUrl: map<string, File>, files: seq<File>, file: File)
    requires Indexes(filesByUrl, files)
    ensures Indexes(filesByUrl[file.url := file], files + [file])
  {
    hide HasUrl;
    HasUrlSnoc(files, file);
  }

  lemma IndexTells(filesByUrl: map<string, File>, files: seq<File>, file: File)
    requires Indexes(filesByUrl, files) && Consistent(files)
    ensures file.url in filesByUrl ==> (Consistent(files + [file]) <==> filesByUrl[file.url] == file)
    ensures file.url !in filesByUrl ==> Consistent(files + [file])
    ensures Distinct(files + [file]) == if file.url in filesByUrl then Distinct(files) else Distinct(files) + [file]
  {
    hide HasUrl, Distinct;
    DistinctSnoc(files, file);
    DistinctKeeps(files);
    if file.url in filesByUrl {
      assert filesByUrl[file.url] in files + [file] && file in files + [file];
    } else {
      NewUrlIsConsistent(files, file);
    }
  }

  /** The loop over both file lists: `filesByUrl` is a map that remembers the order of insertion. */
  method MergeFiles(files: seq<File>) returns (r: Option<seq<File>>)
    ensures r == MergedFiles(files)
  {
    var filesByUrl: map<string, File> := map[];
    var order: seq<File> := [];
    for i := 0 to |files|
      invariant order == Distinct(files[..i]) && Consistent(files[..i]) && Indexes(filesByUrl, files[..i])
    {
      hide Consistent, Indexes, Distinct;
      var file := files[i];
      assert files[..i + 1] == files[..i] + [file];
      IndexTells(filesByUrl, files[..i], file);
      IndexKeeps(filesByUrl, files[..i], file);
      if file.url in filesByUrl {
        var existing := filesByUrl[file.url];
        if existing.sha512 != file.sha512 || existing.size != file.size {
          PrefixOfConsistent(files, i + 1);
          return None;
        }
        SameUrl(filesByUrl, files[..i], file);
      } else {
        order := order + [file];
      }
      filesByUrl := filesByUrl[file.url := file];
    }
    assert files[..|files|] == files;
    r := Some(order);
  }

  lemma SameUrl(filesByUrl: map<string, File>, files: seq<File>, file: File)
    requires Indexes(filesByUrl, files) && file.url in filesByUrl
    ensures filesByUrl[file.url].url == file.url
  {}

  lemma PrefixOfConsistent(files: seq<File>, i: nat)
    requires i <= |files|
    ensures Consistent(files) ==> Consistent(files[..i])
  {}

  lemma NewUrlIsConsistent(files: seq<File>, file: File)
    requires Consistent(files) && !HasUrl(files, file.url)
    ensures Consistent(files + [file])
  {
    assert forall f :: f in files ==> f.url != file.url;
  }

  lemma HasUrlSnoc(files: seq<File>, file: File)
    ensures forall url :: HasUrl(files + [file], url) <==> HasUrl(files, url) || url == file.url
  {
    assert file in files + [file];
    assert forall f :: f in files ==> f in files + [file];
  }

  method MergeExtras(primary: map<string, Scalar>, secondary: map<string, Scalar>)
    returns (r: Option<map<string, Scalar>>)
    ensures r == if ExtrasAgree(primary, secondary) then Some(primary + secondary) else None
  {
    var merged := primary;
    var keys := secondary.Keys;
    while keys != {}
      invariant keys <= secondary.Keys
      invariant merged == primary + (map k | k in secondary && k !in keys :: secondary[k])
      invariant forall k :: k in secondary && k !in keys ==>
                  if k in primary then primary[k] == secondary[k] else k !in INHERITED
      decreases keys
    {
      var key :| key in keys;
      if if key in merged then merged[key] != secondary[key] else key in INHERITED {
        assert key in secondary && !ExtrasAgree(primary, secondary);
        return None;
      }
      merged, keys := merged[key := secondary[key]], keys - {key};
    }
    assert (map k | k in secondary && k !in keys :: secondary[k]) == secondary;
    r := Some(merged);
  }

  method MergeMacUpdateManifests(a: Manifest, b: Manifest) returns (r: MergeResult)
    ensures r == Merge(a, b)
  {
    if a.version != b.version { return DifferentVersions; }
    var files := MergeFiles(a.files + b.files);
    if files.None? { return FileConflict; }
    var releaseDate := Later(a.releaseDate, b.releaseDate);
    var extras := MergeExtras(a.extras, b.extras);
    if extras.None? { return ExtraConflict; }
    r := Merged(Manifest(a.version, releaseDate, files.value, extras.value));
  }

  // ----- What merging guarantees.

  /** A merge is refused only for a version, file or extras conflict; otherwise it keeps exactly the
      files of both, no url twice, every extra of both, and the later date. */
  lemma MergesIff(a: Manifest, b: Manifest)
    ensures Merge(a, b).Merged? <==>
            a.version == b.version && Consistent(a.files + b.files) && ExtrasAgree(a.extras, b.extras)
    ensures Merge(a, b).Merged? ==>
            var m := Merge(a, b).manifest;
            && (forall f :: f in m.files <==> f in a.files || f in b.files)
            && (forall i, j :: 0 <= i < j < |m.files| ==> m.files[i].url != m.files[j].url)
            && (forall k :: k in m.extras <==> k in a.extras || k in b.extras)
            && (forall k :: k in a.extras ==> m.extras[k] == a.extras[k])
            && (forall k :: k in b.extras ==> m.extras[k] == b.extras[k])
            && m.version == a.version && m.releaseDate in {a.releaseDate, b.releaseDate}
            && Le(a.releaseDate, m.releaseDate) && Le(b.releaseDate, m.releaseDate)
  {
    if Merge(a, b).Merged? {
      ConsistentKeepsAll(a.files + b.files);
      DistinctKeeps(a.files + b.files);
      LeTotal(a.releaseDate, b.releaseDate);
      LeTotal(a.releaseDate, a.releaseDate);
      LeTotal(b.releaseDate, b.releaseDate);
    }
  }

  /** The conflict reported is that of the versions before that of the files before that of the extras. */
  lemma RefusedFor(a: Manifest, b: Manifest)
    ensures Merge(a, b) == DifferentVersions <==> a.version != b.version
    ensures Merge(a, b) == FileConflict <==>
            && a.version == b.version
            && exists f, g :: f in a.files + b.files && g in a.files + b.files && f.url == g.url && f != g
    ensures Merge(a, b) == ExtraConflict <==>
            && a.version == b.version
            && (forall f, g :: f in a.files + b.files && g in a.files + b.files && f.url == g.url ==> f == g)
            && exists k :: k in b.extras && if k in a.extras then a.extras[k] != b.extras[k] else k in INHERITED
  {}

  /** `f` stands before every file of that url. */
  ghost predicate StandsBefore(files: seq<File>, f: File, url: string) {
    exists k :: 0 <= k < |files| && files[k] == f && forall j :: 0 <= j <= k ==> files[j].url != url
  }

  lemma StillStandsBefore(files: seq<File>, last: File, f: File, url: string)
    requires StandsBefore(files, f, url)
    ensures StandsBefore(files + [last], f, url)
  {
    var k :| 0 <= k < |files| && files[k] == f && forall j :: 0 <= j <= k ==> files[j].url != url;
    assert (files + [last])[k] == f;
  }

  lemma NewUrlIsLast(files: seq<File>, f: File, last: File)
    requires f in files && !HasUrl(files, last.url)
    ensures StandsBefore(files + [last], f, last.url)
  {
    var k :| 0 <= k < |files| && files[k] == f;
    assert (files + [last])[k] == f;
    forall j | 0 <= j <= k ensures (files + [last])[j].url != last.url { assert files[j] in files; }
  }

  lemma {:induction false} DistinctInOrder(files: seq<File>, i: nat, j: nat)
    requires i < j < |Distinct(files)|
    ensures StandsBefore(files, Distinct(files)[i], Distinct(files)[j].url)
  {
    hide StandsBefore;
    var n := |files| - 1;
    var front, last, before := files[..n], files[n], Distinct(files[..n]);
    assert files == front + [last];
    DistinctKeeps(front);
    if j < |before| {
      DistinctInOrder(front, i, j);
      StillStandsBefore(front, last, before[i], before[j].url);
    } else {
      assert before[i] in before;
      NewUrlIsLast(front, before[i], last);
    }
  }

  /** Merged files stand in the order in which their urls first appear, the primary manifest first. */
  lemma MergeKeepsOrder(a: Manifest, b: Manifest, i: nat, j: nat)
    requires Merge(a, b).Merged? && i < j < |Merge(a, b).manifest.files|
    ensures var files := Merge(a, b).manifest.files; StandsBefore(a.files + b.files, files[i], files[j].url)
  {
    DistinctInOrder(a.files + b.files, i, j);
  }

  ghost predicate UniqueUrls(files: seq<File>) {
    forall i, j :: 0 <= i < j < |files| ==> files[i].url != files[j].url
  }

  lemma {:induction false} DistinctOfUnique(files: seq<File>)
    requires UniqueUrls(files)
    ensures Distinct(files) == files
  {
    if files != [] {
      var front, last := files[..|files| - 1], files[|files| - 1];
      DistinctOfUnique(front);
      hide Distinct;
      assert files == front + [last];
      assert !HasUrl(front, last.url) by {
        forall f | f in front ensures f.url != last.url {
          var i :| 0 <= i < |front| && front[i] == f;
          assert files[i].url != files[|files| - 1].url;
        }
      }
      DistinctSnoc(front, last);
    }
  }

  /** Files seen before add nothing. */
  lemma {:induction false} DistinctAbsorbs(files: seq<File>, more: seq<File>)
    requires forall f :: f in more ==> HasUrl(files, f.url)
    ensures Distinct(files + more) == Distinct(files)
  {
    if more == [] {
      assert files + more == files;
    } else {
      var front, last := more[..|more| - 1], more[|more| - 1];
      assert files + more == files + front + [last];
      DistinctSnoc(files + front, last);
      DistinctAbsorbs(files, front);
      assert last in more;
      DistinctKeeps(files);
    }
  }

  /** Merging a manifest with itself gives it back exactly when its urls are unique. */
  lemma SelfMergeIff(m: Manifest)
    ensures Merge(m, m) == Merged(m) <==> UniqueUrls(m.files)
  {
    LeTotal(m.releaseDate, m.releaseDate);
    assert m.extras + m.extras == m.extras;
    if UniqueUrls(m.files) {
      DistinctOfUnique(m.files);
      forall f | f in m.files ensures HasUrl(m.files, f.url) {}
      DistinctAbsorbs(m.files, m.files);
    } else {
      DistinctKeeps(m.files + m.files);
    }
  }

  // ----- Associativity.

  lemma {:induction false} DistinctLeft(s: seq<File>, t: seq<File>)
    ensures Distinct(Distinct(s) + t) == Distinct(s + t)
  {
    if t == [] {
      assert Distinct(s) + t == Distinct(s) && s + t == s;
      DistinctKeeps(s);
      DistinctOfUnique(Distinct(s));
    } else {
      var front, last := t[..|t| - 1], t[|t| - 1];
      assert Distinct(s) + t == Distinct(s) + front + [last];
      assert s + t == s + front + [last];
      DistinctSnoc(Distinct(s) + front, last);
      DistinctSnoc(s + front, last);
      DistinctLeft(s, front);
    }
  }

  lemma {:induction false} DistinctRight(s: seq<File>, t: seq<File>)
    ensures Distinct(s + Distinct(t)) == Distinct(s + t)
  {
    if t != [] {
      var front, last := t[..|t| - 1], t[|t| - 1];
      assert t == front + [last];
      assert s + t == s + front + [last];
      DistinctSnoc(front, last);
      DistinctSnoc(s + front, last);
      DistinctRight(s, front);
      if HasUrl(Distinct(front), last.url) {
        RightHasUrl(s, front, last);
      } else {
        assert s + Distinct(t) == s + Distinct(front) + [last];
        DistinctSnoc(s + Distinct(front), last);
      }
    }
  }

  lemma RightHasUrl(s: seq<File>, front: seq<File>, last: File)
    requires HasUrl(Distinct(front), last.url)
    ensures HasUrl(Distinct(s + front), last.url)
  {
    DistinctKeeps(front);
    var f :| f in Distinct(front) && f.url == last.url;
    assert f in s + front;
    DistinctKeeps(s + front);
  }

  lemma ConsistentSame(xs: seq<File>, ys: seq<File>)
    requires forall f :: f in xs <==> f in ys
    ensures Consistent(xs) <==> Consistent(ys)
  {}

  lemma ConsistentPart(xs: seq<File>, ys: seq<File>)
    requires Consistent(ys) && forall f :: f in xs ==> f in ys
    ensures Consistent(xs)
  {}

  /** Files taken from a list that keeps them all are consistent exactly when the list is. */
  lemma ConsistentThrough(part: seq<File>, shorter: seq<File>, whole: seq<File>)
    requires forall f :: f in part ==> f in whole
    requires Consistent(part) ==> forall f :: f in shorter <==> f in whole
    ensures Consistent(part) && Consistent(shorter) <==> Consistent(whole)
  {
    if Consistent(whole) { ConsistentPart(part, whole); }
    if Consistent(part) { ConsistentSame(shorter, whole); }
  }

  lemma LeftFilesAssociate(a: seq<File>, b: seq<File>, c: seq<File>)
    ensures Consistent(a + b) && Consistent(Distinct(a + b) + c) <==> Consistent(a + b + c)
    ensures Distinct(Distinct(a + b) + c) == Distinct(a + b + c)
  {
    hide Consistent, Distinct;
    DistinctLeft(a + b, c);
    if Consistent(a + b) { ConsistentKeepsAll(a + b); }
    ConsistentThrough(a + b, Distinct(a + b) + c, a + b + c);
  }

  lemma RightFilesAssociate(a: seq<File>, b: seq<File>, c: seq<File>)
    ensures Consistent(b + c) && Consistent(a + Distinct(b + c)) <==> Consistent(a + b + c)
    ensures Distinct(a + Distinct(b + c)) == Distinct(a + b + c)
  {
    hide Consistent, Distinct;
    assert a + (b + c) == a + b + c;
    DistinctRight(a, b + c);
    if Consistent(b + c) { ConsistentKeepsAll(b + c); }
    ConsistentThrough(b + c, a + Distinct(b + c), a + b + c);
  }

  lemma LaterAssociates(a: string, b: string, c: string)
    ensures Later(Later(a, b), c) == Later(a, Later(b, c))
  {
    LeTotal(a, b);
    LeTotal(b, c);
    LeTotal(a, c);
    if Le(b, a) && Le(c, b) { LeTransitive(c, b, a); }
    if !Le(b, a) && !Le(c, b) {
      LeTransitive(a, b, c);
      if Le(c, a) { LeTransitive(c, a, b); }
    }
  }

  function Value(r: MergeResult): Option<Manifest> { if r.Merged? then Some(r.manifest) else None }

  ghost function MergeLeft(a: Manifest, b: Manifest, c: Manifest): Option<Manifest> {
    if Merge(a, b).Merged? then Value(Merge(Merge(a, b).manifest, c)) else None
  }

  ghost function MergeRight(a: Manifest, b: Manifest, c: Manifest): Option<Manifest> {
    if Merge(b, c).Merged? then Value(Merge(a, Merge(b, c).manifest)) else None
  }

  /** Some inherited name is an extra of the outer two but not of the middle one. */
  predicate InheritedGap(a: Manifest, b: Manifest, c: Manifest) {
    exists k :: k in INHERITED && k in a.extras && k !in b.extras && k in c.extras
  }

  lemma ExtrasAssociate(a: map<string, Scalar>, b: map<string, Scalar>, c: map<string, Scalar>)
    ensures ExtrasAgree(b, c) && ExtrasAgree(a, b + c) ==> ExtrasAgree(a, b) && ExtrasAgree(a + b, c)
    ensures ExtrasAgree(a, b) && ExtrasAgree(a + b, c) ==>
            (ExtrasAgree(b, c) && ExtrasAgree(a, b + c) <==>
             forall k :: k in INHERITED && k in a && k in c ==> k in b)
    ensures a + b + c == a + (b + c)
  {}

  /** Nothing but an inherited name stands in the way of merging all three. */
  ghost predicate MergeableInOrder(a: Manifest, b: Manifest, c: Manifest) {
    && a.version == b.version == c.version
    && Consistent(a.files + b.files + c.files)
    && ExtrasAgree(a.extras, b.extras) && ExtrasAgree(a.extras + b.extras, c.extras)
  }

  lemma LeftMergesIff(a: Manifest, b: Manifest, c: Manifest)
    ensures MergeLeft(a, b, c).Some? <==> MergeableInOrder(a, b, c)
  {
    hide Consistent, Distinct, ExtrasAgree;
    LeftFilesAssociate(a.files, b.files, c.files);
  }

  lemma WhereLeftMerges(a: Manifest, b: Manifest, c: Manifest)
    ensures MergeLeft(a, b, c) == MergeRight(a, b, c) <==> MergeLeft(a, b, c).None? || !InheritedGap(a, b, c)
    ensures MergeRight(a, b, c).Some? ==> MergeLeft(a, b, c) == MergeRight(a, b, c)
  {
    hide Consistent, Distinct, ExtrasAgree;
    LeftFilesAssociate(a.files, b.files, c.files);
    RightFilesAssociate(a.files, b.files, c.files);
    ExtrasAssociate(a.extras, b.extras, c.extras);
    LaterAssociates(a.releaseDate, b.releaseDate, c.releaseDate);
  }

  /** The two groupings give the same manifest, or are both refused, unless the versions, files and
      extras would let the three merge in order and an extra named like an inherited property belongs
      to the outer two only; then only the left grouping has a manifest in between that carries it. */
  lemma MergeAssociatesIff(a: Manifest, b: Manifest, c: Manifest)
    ensures MergeLeft(a, b, c) == MergeRight(a, b, c) <==> !(MergeableInOrder(a, b, c) && InheritedGap(a, b, c))
    ensures MergeableInOrder(a, b, c) && InheritedGap(a, b, c) ==>
              MergeLeft(a, b, c).Some? && MergeRight(a, b, c).None?
  {
    hide MergeLeft, MergeRight, MergeableInOrder, InheritedGap;
    LeftMergesIff(a, b, c);
    WhereLeftMerges(a, b, c);
  }

  /** An extra `constructor` on the outer manifests only is such a case. */
  lemma InheritedNameBreaksAssociativity()
    ensures var files := [File("a.zip", "x", 1)];
            var a := Manifest("1.0.0", "2024", files, map["constructor" := Bool(true)]);
            var b := Manifest("1.0.0", "2024", files, map[]);
            && Reloadable(a) && Reloadable(b)
            && MergeLeft(a, b, a) == Some(a)
            && MergeRight(a, b, a) == None
  {
    var files := [File("a.zip", "x", 1)];
    var a := Manifest("1.0.0", "2024", files, map["constructor" := Bool(true)]);
    var b := Manifest("1.0.0", "2024", files, map[]);
    SampleReloads(files);
    LeTotal("2024", "2024");
    RepeatedSample(files[0]);
    assert a.extras + b.extras == a.extras && a.extras + a.extras == a.extras;
    assert "constructor" in a.extras && "constructor" in INHERITED;
    hide Consistent, Distinct;
    assert Merge(a, b) == Merged(a) && Merge(a, a) == Merged(a) && !Merge(b, a).Merged?;
  }

  lemma RepeatedSample(file: File)
    ensures Consistent([file] + [file]) && Distinct([file] + [file]) == [file]
  {
    assert ([file] + [file])[..1] == [file] && [file][..0] == [];
    assert Distinct([file]) == [file];
    assert file in [file];
  }

  lemma SampleReloads(files: seq<File>)
    requires files == [File("a.zip", "x", 1)]
    ensures Reloadable(Manifest("1.0.0", "2024", files, map["constructor" := Bool(true)]))
    ensures Reloadable(Manifest("1.0.0", "2024", files, map[]))
  {
    hide ReadNumber, OneLine, IsKey;
    VersionIsNoNumber();
    SampleFieldsAreBare();
  }

  lemma SampleFieldsAreBare()
    ensures IsKey("constructor")
    ensures OneLine("1.0.0") && OneLine("2024") && OneLine("a.zip") && OneLine("x")
    ensures Trimmed("1.0.0") && Bare("a.zip") && Bare("x")
  {}

  lemma VersionIsNoNumber()
    ensures ReadNumber("1.0.0").None?
  {
    assert Split("1.0.0", '.') == ["1", "0", "0"] by {
      SplitAfter("1", "0.0", '.');
      SplitAfter("0", "0", '.');
      SplitAtom("0", '.');
      assert "1" + ['.'] + "0.0" == "1.0.0" && "0" + ['.'] + "0" == "0.0";
    }
  }

  /** What the command line tool writes for two reloadable manifests is the merge of the two. */
  lemma MergedManifestReloads(a: Manifest, b: Manifest)
    requires Reloadable(a) && Reloadable(b) && Merge(a, b).Merged?
    ensures Parse(Serialize(Merge(a, b).manifest)) == Ok(Merge(a, b).manifest)
  {
    hide Parse, Serialize, OneLine, Bare, BareVersion;
    var m := Merge(a, b).manifest;
    MergesIff(a, b);
    assert a.files[0] in m.files;
    ManifestReloadsIff(m);
  }
}
