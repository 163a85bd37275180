/** What a check reports of a tracked file, by the three contents it compares, and which source owns it. */
module SyncCategories {
  import opened Text
  import opened UpstreamSync

  // ----- Which source.

  /** The source that counts for a name: the last of that name. */
  ghost predicate Counts(sources: seq<Source>, name: string, k: nat)
    requires k < |sources|
  {
    sources[k].name == name && forall j :: k < j < |sources| ==> sources[j].name != name
  }

  lemma {:induction false} NamedIff(sources: seq<Source>, name: string)
    ensures SourceNamed(sources, name).None? <==> forall k :: 0 <= k < |sources| ==> sources[k].name != name
    ensures forall k :: 0 <= k < |sources| && Counts(sources, name, k) ==> SourceNamed(sources, name) == Some(sources[k])
  {
    if sources != [] {
      var n := |sources| - 1;
      NamedIff(sources[..n], name);
      forall j | 0 <= j < n ensures sources[j] == sources[..n][j] {}
    }
  }

  predicate Identical(source: Source, path: string, content: string) {
    path in source.files && source.files[path] == content
  }

  /** The first preferred source that holds the file identically, or, when no such source is preferred,
      the first that does. */
  ghost predicate IsOwner(sources: seq<Source>, path: string, content: string, k: nat)
    requires k < |sources|
  {
    && Identical(sources[k], path, content)
    && if sources[k].preferred then
         forall j :: 0 <= j < k && Identical(sources[j], path, content) ==> !sources[j].preferred
       else
         forall j :: 0 <= j < |sources| && Identical(sources[j], path, content) ==> !sources[j].preferred && j >= k
  }

  lemma {:induction false} FirstPreferring(sources: seq<Source>, path: string, content: string, preferred: bool)
    ensures var found := Preferring(Matching(sources, path, content), preferred);
            (found == [] <==> forall k :: 0 <= k < |sources| ==> !(Identical(sources[k], path, content) && sources[k].preferred == preferred))
    ensures forall k :: 0 <= k < |sources| && Identical(sources[k], path, content) && sources[k].preferred == preferred
              && (forall j :: 0 <= j < k ==> !(Identical(sources[j], path, content) && sources[j].preferred == preferred))
              ==> var found := Preferring(Matching(sources, path, content), preferred); found != [] && found[0] == sources[k]
  {
    if sources != [] {
      FirstPreferring(sources[1..], path, content, preferred);
      forall j | 0 < j < |sources| ensures sources[j] == sources[1..][j - 1] {}
    }
  }

  /** A file belongs to the first preferred source that holds it identically, or else to the first one. */
  lemma OwnerIsFirst(sources: seq<Source>, path: string, content: string, k: nat)
    requires k < |sources| && IsOwner(sources, path, content, k)
    ensures OwnerOf(sources, path, content) == Some(sources[k])
  {
    FirstPreferring(sources, path, content, true);
    FirstPreferring(sources, path, content, false);
  }

  // ----- Which list.

  /** What is recorded of a file, what is here, and what its owner has. */
  datatype Three = Three(baseline: string, here: Option<string>, owner: Option<Option<string>>)

  function HashAt(files: map<string, string>, path: string, hash: Hash): Option<string> {
    if path in files then Some(hash(files[path])) else None
  }

  function ThreeOf(entry: Entry, target: map<string, string>, sources: seq<Source>, hash: Hash): Three {
    Three(entry.baseline, HashAt(target, entry.path, hash),
          if SourceNamed(sources, entry.owner).None? then None
          else Some(HashAt(SourceNamed(sources, entry.owner).value.files, entry.path, hash)))
  }

  /** Both are there. */
  predicate There(t: Three) { t.here.Some? && t.owner.Some? && t.owner.value.Some? }

  /** Each list by the three hashes alone: missing there, missing here, unchanged, moved on there only, here
      only, or on both sides. */
  lemma CategoryByHashes(entry: Entry, target: map<string, string>, sources: seq<Source>, hash: Hash)
    ensures var t, c := ThreeOf(entry, target, sources, hash), CategoryOf(entry, target, sources, hash);
            && (c == SourceMissing <==> t.owner.None? || (t.here.Some? && t.owner.value.None?))
            && (c == TargetMissing <==> t.owner.Some? && t.here.None?)
            && (c == Unchanged <==> There(t) && t.here == Some(t.baseline) && t.owner == Some(Some(t.baseline)))
            && (c == SafeUpdate <==> There(t) && t.here == Some(t.baseline) && t.owner != Some(Some(t.baseline)))
            && (c == LocalOnlyDrift <==> There(t) && t.here != Some(t.baseline) && t.owner == Some(Some(t.baseline)))
            && (c == Conflict <==> There(t) && t.here != Some(t.baseline) && t.owner != Some(Some(t.baseline)))
  {}
}
