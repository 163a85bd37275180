/** Collapsing the work log (apps/web/src/session-logic.ts:652-835): successive reports about one tool
    call, and successive pieces of one stream, become one entry. */
module WorkLog {
  import opened Text

  datatype Kind = ThinkingDelta | ToolOutputDelta | ToolUpdated | ToolCompleted | OtherKind(name: string)

  predicate IsDelta(kind: Kind) { kind.ThinkingDelta? || kind.ToolOutputDelta? }

  predicate IsTool(kind: Kind) { kind.ToolUpdated? || kind.ToolCompleted? }

  /** The value of an optional field; a blank text counts as none when a stream is merged. */
  datatype Attribute = TextValue(text: string) | OtherValue(value: int)

  /** `attributes` holds the optional fields that the latest report which has them decides. */
  datatype Entry = Entry(
    id: string,
    createdAt: string,
    summary: string,
    tone: string,
    kind: Kind,
    collapseKey: Option<string>,
    changedFiles: seq<string>,
    detail: Option<string>,
    attributes: map<string, Attribute>)

  predicate ShouldCollapse(previous: Entry, next: Entry) {
    if IsDelta(previous.kind) && previous.kind == next.kind then
      previous.collapseKey.Some? && previous.collapseKey == next.collapseKey
    else if !IsTool(previous.kind) then false
    else if !IsTool(next.kind) then false
    else if previous.kind.ToolCompleted? then false
    else previous.collapseKey.Some? && previous.collapseKey == next.collapseKey
  }

  // ----- Streaming details.

  /** The longest overlap of at most `k` characters between the end of `p` and the start of `n`. */
  function Overlap(p: string, n: string, k: nat): (r: nat)
    requires k <= |p| && k <= |n|
    ensures r <= k && p[|p| - r..] == n[..r]
    ensures forall j :: r < j <= k ==> p[|p| - j..] != n[..j]
  {
    if k == 0 then 0 else if p[|p| - k..] == n[..k] then k else Overlap(p, n, k - 1)
  }

  function Min(a: nat, b: nat): nat { if a < b then a else b }

  predicate EndsWith(s: string, suffix: string) {
    |suffix| <= |s| && s[|s| - |suffix|..] == suffix
  }

  /** `p` followed by what of `n` it does not end with. */
  function Joined(p: string, n: string): string { p + n[Overlap(p, n, Min(|p|, |n|))..] }

  function AppendText(p: string, n: string, rewrites: (string, string) -> bool): string {
    if p <= n then n
    else if EndsWith(p, n) then p
    else if rewrites(p, n) then n
    else Joined(p, n)
  }

  /** `rewrites` is the heuristic that takes `next` for a rewritten snapshot of `previous`. */
  function AppendDetail(previous: Option<string>, next: Option<string>, rewrites: (string, string) -> bool): Option<string> {
    if previous.None? || previous.value == "" then next
    else if next.None? || next.value == "" then previous
    else Some(AppendText(previous.value, next.value, rewrites))
  }

  method AppendStreamingDetail(previous: Option<string>, next: Option<string>, rewrites: (string, string) -> bool)
    returns (r: Option<string>)
    ensures r == AppendDetail(previous, next, rewrites)
  {
    if previous.None? || previous.value == "" { return next; }
    if next.None? || next.value == "" { return previous; }
    var p, n := previous.value, next.value;
    if p <= n { return next; }
    if EndsWith(p, n) { return previous; }
    if rewrites(p, n) { return next; }
    var joined := JoinAtOverlap(p, n);
    r := Some(joined);
  }

  /** The loop over the overlaps, longest first. */
  method JoinAtOverlap(p: string, n: string) returns (r: string)
    ensures r == Joined(p, n)
  {
    var overlap: nat := Min(|p|, |n|);
    ghost var longest := Overlap(p, n, overlap);
    while overlap > 0
      invariant longest <= overlap <= Min(|p|, |n|)
    {
      if p[|p| - overlap..] == n[..overlap] { return p + n[overlap..]; }
      overlap := overlap - 1;
    }
    assert n[0..] == n;
    r := p + n;
  }

  /** Joining at an overlap of `k`. */
  lemma JoinedAt(p: string, n: string, k: nat)
    requires k <= |p| && k <= |n| && p[|p| - k..] == n[..k]
    ensures p <= p + n[k..] && EndsWith(p + n[k..], n)
  {
    var r := p + n[k..];
    assert r[|r| - |n|..] == p[|p| - k..] + n[k..];
    assert n == n[..k] + n[k..];
  }

  /** Whatever begins with `p`, ends with `n` and is too short for both shows an overlap. */
  lemma ShortMeansOverlap(p: string, n: string, w: string)
    requires p <= w && EndsWith(w, n) && |w| < |p| + |n|
    ensures var j := |p| + |n| - |w|;
            j <= |p| && j <= |n| && p[|p| - j..] == n[..j]
  {
    var j := |p| + |n| - |w|;
    var tail := w[|w| - |n|..];
    assert p == w[..|p|] && n == tail;
    assert p[|p| - j..] == w[|w| - |n|..|p|] == tail[..j];
  }

  /** Without a rewrite the appended text is the shortest that begins with what was there and ends
      with what came in. */
  lemma AppendedTextIsShortest(p: string, n: string, rewrites: (string, string) -> bool, w: string)
    requires !rewrites(p, n)
    ensures var r := AppendText(p, n, rewrites);
            && p <= r && EndsWith(r, n)
            && (p <= w && EndsWith(w, n) ==> |r| <= |w|)
  {
    if !(p <= n) && !EndsWith(p, n) {
      JoinedAt(p, n, Overlap(p, n, Min(|p|, |n|)));
      if p <= w && EndsWith(w, n) && |w| < |p| + |n| { ShortMeansOverlap(p, n, w); }
    }
  }

  // ----- Merging two entries.

  /** `[...new Set(files)]`. */
  function Distinct(files: seq<string>): (r: seq<string>)
    ensures forall f :: f in r <==> f in files
    ensures forall i, j :: 0 <= i < j < |r| ==> r[i] != r[j]
  {
    if files == [] then []
    else
      var front, last := files[..|files| - 1], files[|files| - 1];
      assert files == front + [last];
      if last in Distinct(front) then Distinct(front) else Distinct(front) + [last]
  }

  function OrElse<T>(a: Option<T>, b: Option<T>): Option<T> { if a.Some? then a else b }

  /** The attributes that a report contributes. */
  function Told(e: Entry): map<string, Attribute> {
    if IsDelta(e.kind) then map k | k in e.attributes && e.attributes[k] != TextValue("") :: e.attributes[k]
    else e.attributes
  }

  function MergeEntries(previous: Entry, next: Entry, rewrites: (string, string) -> bool): Entry {
    var changedFiles := Distinct(previous.changedFiles + next.changedFiles);
    var detail := if IsDelta(previous.kind) then AppendDetail(previous.detail, next.detail, rewrites)
                  else OrElse(next.detail, previous.detail);
    var spread := if IsDelta(next.kind) then previous.detail else OrElse(next.detail, previous.detail);
    var kept := if IsDelta(next.kind) then previous else next;
    Entry(kept.id, kept.createdAt, kept.summary, kept.tone, kept.kind,
          OrElse(next.collapseKey, previous.collapseKey), changedFiles,
          if detail.Some? && detail.value != "" then detail else spread,
          previous.attributes + Told(next))
  }

  // ----- Collapsing.

  function Push(collapsed: seq<Entry>, entry: Entry, rewrites: (string, string) -> bool): seq<Entry> {
    var n := |collapsed|;
    if n > 0 && ShouldCollapse(collapsed[n - 1], entry)
    then collapsed[n - 1 := MergeEntries(collapsed[n - 1], entry, rewrites)]
    else collapsed + [entry]
  }

  function Collapse(entries: seq<Entry>, rewrites: (string, string) -> bool): seq<Entry> {
    if entries == [] then []
    else Push(Collapse(entries[..|entries| - 1], rewrites), entries[|entries| - 1], rewrites)
  }

  method CollapseDerivedWorkLogEntries(entries: seq<Entry>, rewrites: (string, string) -> bool)
    returns (collapsed: seq<Entry>)
    ensures collapsed == Collapse(entries, rewrites)
  {
    collapsed := [];
    for i := 0 to |entries|
      invariant collapsed == Collapse(entries[..i], rewrites)
    {
      var entry := entries[i];
      assert entries[..i + 1][..i] == entries[..i];
      if |collapsed| > 0 {
        var previous := collapsed[|collapsed| - 1];
        if ShouldCollapse(previous, entry) {
          collapsed := collapsed[|collapsed| - 1 := MergeEntries(previous, entry, rewrites)];
          continue;
        }
      }
      collapsed := collapsed + [entry];
    }
    assert entries[..|entries|] == entries;
  }

  // ----- The reference: maximal runs of raw entries, each merged on its own.

  function AddToRuns(runs: seq<seq<Entry>>, last: Entry): (more: seq<seq<Entry>>)
    requires forall k :: 0 <= k < |runs| ==> runs[k] != []
    ensures more != [] && forall k :: 0 <= k < |more| ==> more[k] != []
  {
    var m := |runs|;
    if m > 0 && ShouldCollapse(LastOf(runs[m - 1]), last) then runs[m - 1 := runs[m - 1] + [last]]
    else runs + [[last]]
  }

  /** Splits exactly between neighbours that do not collapse. */
  function Runs(entries: seq<Entry>): (runs: seq<seq<Entry>>)
    ensures entries != [] ==> runs != []
    ensures forall k :: 0 <= k < |runs| ==> runs[k] != []
  {
    if entries == [] then [] else AddToRuns(Runs(entries[..|entries| - 1]), entries[|entries| - 1])
  }

  function LastOf(run: seq<Entry>): Entry
    requires run != []
  {
    run[|run| - 1]
  }

  function MergeRun(run: seq<Entry>, rewrites: (string, string) -> bool): Entry
    requires run != []
  {
    if |run| == 1 then run[0]
    else MergeEntries(MergeRun(run[..|run| - 1], rewrites), run[|run| - 1], rewrites)
  }

  function MergeRuns(runs: seq<seq<Entry>>, rewrites: (string, string) -> bool): (r: seq<Entry>)
    requires forall k :: 0 <= k < |runs| ==> runs[k] != []
    ensures |r| == |runs|
    ensures forall k :: 0 <= k < |runs| ==> r[k] == MergeRun(runs[k], rewrites)
  {
    if runs == [] then []
    else MergeRuns(runs[..|runs| - 1], rewrites) + [MergeRun(runs[|runs| - 1], rewrites)]
  }

  function Flatten(runs: seq<seq<Entry>>): seq<Entry> {
    if runs == [] then [] else Flatten(runs[..|runs| - 1]) + runs[|runs| - 1]
  }

  /** Every entry collapses into the one before it. */
  ghost predicate IsRun(run: seq<Entry>) {
    run != [] && forall i :: 0 < i < |run| ==> ShouldCollapse(run[i - 1], run[i])
  }

  /** Between runs nothing collapses. */
  ghost predicate Separated(runs: seq<seq<Entry>>) {
    && (forall k :: 0 <= k < |runs| ==> IsRun(runs[k]))
    && (forall k :: 0 < k < |runs| ==> !ShouldCollapse(LastOf(runs[k - 1]), runs[k][0]))
  }

  lemma LongerRun(run: seq<Entry>, last: Entry)
    requires IsRun(run) && ShouldCollapse(LastOf(run), last)
    ensures IsRun(run + [last])
  {}

  lemma ExtendLastRun(runs: seq<seq<Entry>>, last: Entry)
    requires runs != [] && Separated(runs) && ShouldCollapse(LastOf(LastRun(runs)), last)
    ensures var more := runs[|runs| - 1 := LastRun(runs) + [last]];
            Separated(more) && Flatten(more) == Flatten(runs) + [last]
  {
    hide ShouldCollapse;
    var m := |runs|;
    var more := runs[m - 1 := runs[m - 1] + [last]];
    LongerRun(runs[m - 1], last);
    assert more[..m - 1] == runs[..m - 1];
  }

  function LastRun(runs: seq<seq<Entry>>): seq<Entry>
    requires runs != []
  {
    runs[|runs| - 1]
  }

  lemma NewRun(runs: seq<seq<Entry>>, last: Entry)
    requires Separated(runs)
    requires runs != [] ==> LastRun(runs) != [] && !ShouldCollapse(LastOf(LastRun(runs)), last)
    ensures Separated(runs + [[last]]) && Flatten(runs + [[last]]) == Flatten(runs) + [last]
  {
    hide ShouldCollapse;
    assert (runs + [[last]])[..|runs|] == runs;
  }

  lemma AddingKeepsPartition(runs: seq<seq<Entry>>, last: Entry)
    requires Separated(runs) && forall k :: 0 <= k < |runs| ==> runs[k] != []
    ensures var more := AddToRuns(runs, last);
            Separated(more) && Flatten(more) == Flatten(runs) + [last] && LastOf(LastRun(more)) == last
  {
    hide Flatten, ShouldCollapse, IsRun, Separated;
    if runs != [] && ShouldCollapse(LastOf(LastRun(runs)), last) {
      ExtendLastRun(runs, last);
    } else {
      NewRun(runs, last);
    }
  }

  /** The runs are consecutive, non-empty, maximal, and make up the input. */
  lemma {:induction false} RunsPartition(entries: seq<Entry>)
    ensures Flatten(Runs(entries)) == entries
    ensures Separated(Runs(entries))
    ensures entries != [] ==> LastOf(LastRun(Runs(entries))) == entries[|entries| - 1]
    decreases |entries|
  {
    hide Flatten, Separated, AddToRuns;
    if entries == [] {
      NoRuns();
    } else {
      var front, last := entries[..|entries| - 1], entries[|entries| - 1];
      RunsPartition(front);
      assert entries == front + [last];
      AddingKeepsPartition(Runs(front), last);
    }
  }

  lemma NoRuns()
    ensures Flatten([]) == [] && Separated([])
  {}

  /** A merged run collapses further exactly when its last raw entry would. */
  lemma {:induction false} MergedRunEndsLikeLast(run: seq<Entry>, rewrites: (string, string) -> bool)
    requires IsRun(run)
    ensures var merged, last := MergeRun(run, rewrites), run[|run| - 1];
            merged.kind == last.kind && merged.collapseKey == last.collapseKey
    decreases |run|
  {
    if |run| > 1 {
      MergedRunEndsLikeLast(run[..|run| - 1], rewrites);
    }
  }

  /** Within a run the key and the kind of report stay; only the first entries are still updating. */
  lemma {:induction false} RunKeepsClass(run: seq<Entry>)
    requires IsRun(run)
    ensures var first, last := run[0], run[|run| - 1];
            && first.collapseKey == last.collapseKey
            && (IsTool(first.kind) <==> IsTool(last.kind))
            && (IsDelta(first.kind) || IsDelta(last.kind) ==> first.kind == last.kind)
    decreases |run|
  {
    if |run| > 1 {
      RunKeepsClass(run[..|run| - 1]);
      assert ShouldCollapse(run[|run| - 2], run[|run| - 1]);
    }
  }

  lemma MergeLongerRun(run: seq<Entry>, last: Entry, rewrites: (string, string) -> bool)
    requires run != []
    ensures MergeRun(run + [last], rewrites) == MergeEntries(MergeRun(run, rewrites), last, rewrites)
  {
    hide MergeEntries;
    assert (run + [last])[..|run|] == run;
  }

  lemma MergeExtended(runs: seq<seq<Entry>>, last: Entry, rewrites: (string, string) -> bool)
    requires runs != [] && forall k :: 0 <= k < |runs| ==> runs[k] != []
    ensures var m := |runs|;
            MergeRuns(runs[m - 1 := runs[m - 1] + [last]], rewrites) ==
            MergeRuns(runs, rewrites)[m - 1 := MergeEntries(MergeRun(runs[m - 1], rewrites), last, rewrites)]
  {
    hide MergeEntries, MergeRun;
    MergeLongerRun(runs[|runs| - 1], last, rewrites);
  }

  lemma MergeNew(runs: seq<seq<Entry>>, last: Entry, rewrites: (string, string) -> bool)
    requires forall k :: 0 <= k < |runs| ==> runs[k] != []
    ensures MergeRuns(runs + [[last]], rewrites) == MergeRuns(runs, rewrites) + [last]
  {
    hide MergeEntries, MergeRun;
    MergeOne(last, rewrites);
  }

  lemma PushMergesRuns(runs: seq<seq<Entry>>, last: Entry, rewrites: (string, string) -> bool)
    requires forall k :: 0 <= k < |runs| ==> runs[k] != [] && IsRun(runs[k])
    ensures Push(MergeRuns(runs, rewrites), last, rewrites) == MergeRuns(AddToRuns(runs, last), rewrites)
  {
    hide MergeEntries, MergeRun, ShouldCollapse, IsRun;
    if runs != [] {
      CollapseLikeLast(runs[|runs| - 1], last, rewrites);
      MergeExtended(runs, last, rewrites);
    }
    MergeNew(runs, last, rewrites);
  }

  /** The greedy loop computes the merged runs: whether to collapse depends on neighbours in the raw
      log alone. */
  lemma {:induction false} CollapseMergesRuns(entries: seq<Entry>, rewrites: (string, string) -> bool)
    ensures Collapse(entries, rewrites) == MergeRuns(Runs(entries), rewrites)
    decreases |entries|
  {
    hide MergeRuns, Push, AddToRuns, IsRun;
    if entries == [] {
      NoRunsOf(rewrites);
    } else {
      var front := entries[..|entries| - 1];
      CollapseMergesRuns(front, rewrites);
      RunsPartition(front);
      PushMergesRuns(Runs(front), entries[|entries| - 1], rewrites);
    }
  }

  lemma NoRunsOf(rewrites: (string, string) -> bool)
    ensures MergeRuns(Runs([]), rewrites) == []
  {}

  lemma CollapseLikeLast(run: seq<Entry>, next: Entry, rewrites: (string, string) -> bool)
    requires IsRun(run)
    ensures ShouldCollapse(MergeRun(run, rewrites), next) <==> ShouldCollapse(LastOf(run), next)
  {
    MergedRunEndsLikeLast(run, rewrites);
  }

  lemma MergeOne(entry: Entry, rewrites: (string, string) -> bool)
    ensures MergeRun([entry], rewrites) == entry
  {}

  ghost predicate NormalForm(entries: seq<Entry>) {
    forall k :: 0 < k < |entries| ==> !ShouldCollapse(entries[k - 1], entries[k])
  }

  lemma {:induction false} NormalFormIsFixed(entries: seq<Entry>, rewrites: (string, string) -> bool)
    requires NormalForm(entries)
    ensures Collapse(entries, rewrites) == entries
    decreases |entries|
  {
    if entries != [] {
      NormalFormIsFixed(entries[..|entries| - 1], rewrites);
    }
  }

  lemma MergedNeighbours(before: seq<Entry>, after: seq<Entry>, rewrites: (string, string) -> bool)
    requires IsRun(before) && IsRun(after) && !ShouldCollapse(before[|before| - 1], after[0])
    ensures !ShouldCollapse(MergeRun(before, rewrites), MergeRun(after, rewrites))
  {
    MergedRunEndsLikeLast(before, rewrites);
    MergedRunEndsLikeLast(after, rewrites);
    RunKeepsClass(after);
  }

  /** No two neighbours of the output collapse, so collapsing again changes nothing. */
  lemma CollapsedIsNormal(entries: seq<Entry>, rewrites: (string, string) -> bool)
    ensures NormalForm(Collapse(entries, rewrites))
    ensures Collapse(Collapse(entries, rewrites), rewrites) == Collapse(entries, rewrites)
  {
    var runs := Runs(entries);
    RunsPartition(entries);
    CollapseMergesRuns(entries, rewrites);
    forall k | 0 < k < |runs|
      ensures !ShouldCollapse(MergeRun(runs[k - 1], rewrites), MergeRun(runs[k], rewrites))
    {
      MergedNeighbours(runs[k - 1], runs[k], rewrites);
    }
    NormalFormIsFixed(Collapse(entries, rewrites), rewrites);
  }

  // ----- Which entries are merged, by their fields.

  /** Both have the same collapse key. */
  predicate SameKey(a: Entry, b: Entry) { a.collapseKey.Some? && b.collapseKey == a.collapseKey }

  /** Two pieces of a stream of one kind, or a report of a call that is not completed and the next one. */
  predicate Continues(a: Kind, b: Kind) {
    || (a == ThinkingDelta && b == ThinkingDelta)
    || (a == ToolOutputDelta && b == ToolOutputDelta)
    || (a == ToolUpdated && b in {ToolUpdated, ToolCompleted})
  }

  /** Neighbours stay apart whenever the first is a completed call, the keys differ or are absent, or the
      kinds are unrelated; and only then. */
  lemma MergesIff(a: Entry, b: Entry, rewrites: (string, string) -> bool)
    ensures |Collapse([a, b], rewrites)| == if SameKey(a, b) && Continues(a.kind, b.kind) then 1 else 2
    ensures ShouldCollapse(a, b) <==> SameKey(a, b) && Continues(a.kind, b.kind)
  {
    assert [a, b][..1] == [a] && [a][..0] == [];
    assert Collapse([a], rewrites) == [a] by { assert Collapse([], rewrites) == []; }
  }

  /** The places where an entry does not continue the one before, the first included. */
  function Breaks(entries: seq<Entry>): nat {
    if entries == [] then 0
    else if |entries| == 1 then 1
    else
      var n := |entries| - 1;
      var a, b := entries[n - 1], entries[n];
      Breaks(entries[..n]) + if SameKey(a, b) && Continues(a.kind, b.kind) then 0 else 1
  }

  /** As many entries are shown as there are such places. */
  lemma {:induction false} ShownCount(entries: seq<Entry>, rewrites: (string, string) -> bool)
    ensures |Collapse(entries, rewrites)| == Breaks(entries)
  {
    CollapseMergesRuns(entries, rewrites);
    RunsAreBreaks(entries, rewrites);
  }

  lemma {:induction false} RunsAreBreaks(entries: seq<Entry>, rewrites: (string, string) -> bool)
    ensures |Runs(entries)| == Breaks(entries)
  {
    hide ShouldCollapse, SameKey, Continues;
    if |entries| == 1 {
      assert entries[..0] == [];
    } else if |entries| > 1 {
      var n := |entries| - 1;
      RunsAreBreaks(entries[..n], rewrites);
      RunsPartition(entries[..n]);
      MergesIff(entries[n - 1], entries[n], rewrites);
    }
  }

  function CompletedCalls(entries: seq<Entry>): nat {
    if entries == [] then 0
    else
      var n := |entries| - 1;
      CompletedCalls(entries[..n]) + if entries[n].kind == ToolCompleted then 1 else 0
  }

  lemma {:induction false} CompletedAppend(xs: seq<Entry>, ys: seq<Entry>)
    ensures CompletedCalls(xs + ys) == CompletedCalls(xs) + CompletedCalls(ys)
    decreases |ys|
  {
    if ys == [] {
      assert xs + ys == xs;
    } else {
      assert (xs + ys)[..|xs + ys| - 1] == xs + ys[..|ys| - 1];
      CompletedAppend(xs, ys[..|ys| - 1]);
    }
  }

  /** In a run only the last report may be that of a completed call. */
  lemma {:induction false} OnlyLastCompletes(run: seq<Entry>, rewrites: (string, string) -> bool)
    requires IsRun(run)
    ensures forall k :: 0 <= k < |run| - 1 ==>
              run[k].kind == if IsTool(run[|run| - 1].kind) then ToolUpdated else run[|run| - 1].kind
    ensures CompletedCalls(run) == CompletedCalls([MergeRun(run, rewrites)])
    decreases |run|
  {
    var n := |run| - 1;
    MergedRunEndsLikeLast(run, rewrites);
    var merged := MergeRun(run, rewrites);
    assert [merged][..0] == [];
    hide MergeRun;
    if n == 0 {
      assert run[..0] == [];
    } else {
      OnlyLastCompletes(run[..n], rewrites);
      MergesIff(run[n - 1], run[n], rewrites);
      OneCompleted(run[..n], rewrites);
    }
  }

  lemma OneCompleted(run: seq<Entry>, rewrites: (string, string) -> bool)
    requires IsRun(run) && CompletedCalls(run) == CompletedCalls([MergeRun(run, rewrites)])
    ensures CompletedCalls(run) == if run[|run| - 1].kind == ToolCompleted then 1 else 0
  {
    MergedRunEndsLikeLast(run, rewrites);
    assert [MergeRun(run, rewrites)][..0] == [];
  }

  lemma {:induction false} RunsKeepCompleted(runs: seq<seq<Entry>>, rewrites: (string, string) -> bool)
    requires forall k :: 0 <= k < |runs| ==> runs[k] != [] && IsRun(runs[k])
    ensures CompletedCalls(MergeRuns(runs, rewrites)) == CompletedCalls(Flatten(runs))
  {
    if runs != [] {
      var n := |runs| - 1;
      RunsKeepCompleted(runs[..n], rewrites);
      OnlyLastCompletes(runs[n], rewrites);
      CompletedAppend(Flatten(runs[..n]), runs[n]);
      var merged := MergeRuns(runs, rewrites);
      assert merged == MergeRuns(runs[..n], rewrites) + [MergeRun(runs[n], rewrites)];
      CompletedAppend(MergeRuns(runs[..n], rewrites), [MergeRun(runs[n], rewrites)]);
    }
  }

  /** Every completed tool call is shown: collapsing keeps their number. */
  lemma CompletedCallsConserved(entries: seq<Entry>, rewrites: (string, string) -> bool)
    ensures CompletedCalls(Collapse(entries, rewrites)) == CompletedCalls(entries)
  {
    RunsPartition(entries);
    CollapseMergesRuns(entries, rewrites);
    RunsKeepCompleted(Runs(entries), rewrites);
  }

  // ----- What a merged entry says, and what is conserved.

  function FilesOf(entries: seq<Entry>): seq<string> {
    if entries == [] then [] else FilesOf(entries[..|entries| - 1]) + entries[|entries| - 1].changedFiles
  }

  /** The first report counts in full, the later ones with what they contribute. */
  function AttributesOf(entries: seq<Entry>): map<string, Attribute>
    requires entries != []
  {
    if |entries| == 1 then entries[0].attributes
    else AttributesOf(entries[..|entries| - 1]) + Told(entries[|entries| - 1])
  }

  /** A stream keeps the identity of its first piece, a tool call that of its last report; files
      accumulate without repetition and later attributes win. */
  lemma {:induction false} MergedRunSays(run: seq<Entry>, rewrites: (string, string) -> bool)
    requires IsRun(run)
    ensures var merged := MergeRun(run, rewrites);
            var kept := if IsDelta(run[0].kind) then run[0] else run[|run| - 1];
            && merged.id == kept.id && merged.createdAt == kept.createdAt
            && merged.summary == kept.summary && merged.tone == kept.tone
            && (forall f :: f in merged.changedFiles <==> f in FilesOf(run))
            && merged.attributes == AttributesOf(run)
            && (|run| > 1 ==> forall i, j :: 0 <= i < j < |merged.changedFiles| ==>
                                merged.changedFiles[i] != merged.changedFiles[j])
    decreases |run|
  {
    if |run| == 1 {
      assert FilesOf(run[..0]) == [];
    } else {
      var front, last := run[..|run| - 1], run[|run| - 1];
      MergedRunSays(front, rewrites);
      RunKeepsClass(front);
      assert ShouldCollapse(front[|front| - 1], last);
    }
  }

  /** The last detail any entry has. */
  function LastDetail(entries: seq<Entry>): Option<string> {
    if entries == [] then None
    else OrElse(entries[|entries| - 1].detail, LastDetail(entries[..|entries| - 1]))
  }

  /** A tool call shows the last detail that was reported. */
  lemma {:induction false} ToolRunShowsLastDetail(run: seq<Entry>, rewrites: (string, string) -> bool)
    requires IsRun(run) && !IsDelta(run[0].kind)
    ensures MergeRun(run, rewrites).detail == LastDetail(run)
    decreases |run|
  {
    if |run| == 1 {
      assert LastDetail(run[..0]) == None;
    } else {
      var front := run[..|run| - 1];
      ToolRunShowsLastDetail(front, rewrites);
      RunKeepsClass(front);
      MergedRunEndsLikeLast(front, rewrites);
    }
  }

  predicate Says(e: Entry) { e.detail.Some? && e.detail.value != "" }

  predicate FirstSaid(run: seq<Entry>, k: nat)
    requires k < |run|
  {
    Says(run[k]) && forall j :: 0 <= j < k ==> !Says(run[j])
  }

  predicate LastSaid(run: seq<Entry>, k: nat)
    requires k < |run|
  {
    Says(run[k]) && forall j :: k < j < |run| ==> !Says(run[j])
  }

  /** The piece is neither a longer version nor a repeated end of the text so far, and rewrites it. */
  predicate Restarts(run: seq<Entry>, rewrites: (string, string) -> bool, k: nat)
    requires k < |run|
  {
    k > 0 && Says(run[k]) && Says(MergeRun(run[..k], rewrites)) &&
    var p, n := MergeRun(run[..k], rewrites).detail.value, run[k].detail.value;
    !(p <= n) && !EndsWith(p, n) && rewrites(p, n)
  }

  /** The piece that the shown text begins with: the last restart, or the first that says something. */
  ghost predicate Opens(run: seq<Entry>, rewrites: (string, string) -> bool, k: nat)
    requires k < |run|
  {
    (FirstSaid(run, k) || Restarts(run, rewrites, k)) && forall j :: k < j < |run| ==> !Restarts(run, rewrites, j)
  }

  lemma OpensLonger(front: seq<Entry>, last: Entry, rewrites: (string, string) -> bool, k: nat)
    requires k < |front| && Opens(front, rewrites, k) && !Restarts(front + [last], rewrites, |front|)
    ensures Opens(front + [last], rewrites, k)
  {
    hide MergeRun;
    var run := front + [last];
    forall j | 0 <= j < |front| ensures Restarts(run, rewrites, j) <==> Restarts(front, rewrites, j) {
      assert run[..j] == front[..j];
    }
  }

  lemma MergedPiece(before: Entry, last: Entry, rewrites: (string, string) -> bool)
    requires IsDelta(before.kind) && IsDelta(last.kind)
    ensures var after := MergeEntries(before, last, rewrites);
            if !Says(last) then after.detail == before.detail
            else if !Says(before) then after.detail == last.detail
            else var p, n := before.detail.value, last.detail.value;
                 if !(p <= n) && !EndsWith(p, n) && rewrites(p, n) then after.detail == last.detail
                 else Says(after) && p <= after.detail.value && EndsWith(after.detail.value, n)
  {
    hide AppendText, EndsWith, Distinct;
    if Says(before) && Says(last) { AppendedText(before.detail.value, last.detail.value, rewrites); }
  }

  /** What one more piece makes of the text so far. */
  lemma AppendedPiece(front: seq<Entry>, last: Entry, rewrites: (string, string) -> bool)
    requires front != [] && IsDelta(MergeRun(front, rewrites).kind) && IsDelta(last.kind)
    ensures var before, after := MergeRun(front, rewrites), MergeRun(front + [last], rewrites);
            if !Says(last) then after.detail == before.detail
            else if !Says(before) then after.detail == last.detail
            else if Restarts(front + [last], rewrites, |front|) then after.detail == last.detail
            else Says(after) && before.detail.value <= after.detail.value && EndsWith(after.detail.value, last.detail.value)
  {
    hide MergeRun, MergeEntries, EndsWith;
    MergeLongerRun(front, last, rewrites);
    assert (front + [last])[..|front|] == front;
    MergedPiece(MergeRun(front, rewrites), last, rewrites);
  }

  lemma AppendedText(p: string, n: string, rewrites: (string, string) -> bool)
    requires p != "" && n != ""
    ensures var r := AppendText(p, n, rewrites);
            if !(p <= n) && !EndsWith(p, n) && rewrites(p, n) then r == n
            else r != "" && p <= r && EndsWith(r, n)
  {
    if p <= n {
      EndsWithItself(n);
    } else if !EndsWith(p, n) && !rewrites(p, n) {
      AppendedTextIsShortest(p, n, rewrites, "");
    }
  }

  lemma EndsWithItself(s: string)
    ensures EndsWith(s, s)
  {
    assert s[0..] == s;
  }

  lemma {:induction false} SilentRun(run: seq<Entry>, rewrites: (string, string) -> bool)
    requires IsRun(run) && IsDelta(run[0].kind) && forall k :: 0 <= k < |run| ==> !Says(run[k])
    ensures !Says(MergeRun(run, rewrites))
    decreases |run|
  {
    if |run| > 1 {
      var front, last := run[..|run| - 1], LastOf(run);
      SilentRun(front, rewrites);
      PieceAppends(run, rewrites);
      AppendedPiece(front, last, rewrites);
    }
  }

  lemma PieceAppends(run: seq<Entry>, rewrites: (string, string) -> bool)
    requires |run| > 1 && IsRun(run) && IsDelta(run[0].kind)
    ensures run == run[..|run| - 1] + [LastOf(run)] && IsDelta(LastOf(run).kind)
    ensures IsDelta(MergeRun(run[..|run| - 1], rewrites).kind)
  {
    RunKeepsClass(run);
    MergedRunEndsLikeLast(run[..|run| - 1], rewrites);
    RunKeepsClass(run[..|run| - 1]);
  }

  ghost predicate BeginsAt(run: seq<Entry>, rewrites: (string, string) -> bool, k: nat)
    requires k < |run|
  {
    var merged := MergeRun(run, rewrites);
    Opens(run, rewrites, k) && Says(run[k]) && Says(merged) && run[k].detail.value <= merged.detail.value
  }

  ghost predicate EndsAt(run: seq<Entry>, rewrites: (string, string) -> bool, k: nat)
    requires k < |run|
  {
    var merged := MergeRun(run, rewrites);
    LastSaid(run, k) && Says(merged) && EndsWith(merged.detail.value, run[k].detail.value)
  }

  lemma FirstPieceShown(front: seq<Entry>, last: Entry, rewrites: (string, string) -> bool)
    requires forall k :: 0 <= k < |front| ==> !Says(front[k])
    requires Says(last) && MergeRun(front + [last], rewrites).detail == last.detail
    ensures BeginsAt(front + [last], rewrites, |front|) && EndsAt(front + [last], rewrites, |front|)
  {
    hide MergeRun, Restarts;
    EndsWithItself(last.detail.value);
  }

  lemma NextPieceShown(front: seq<Entry>, last: Entry, rewrites: (string, string) -> bool, k: nat, l: nat)
    requires front != [] && IsDelta(MergeRun(front, rewrites).kind) && IsDelta(last.kind)
    requires k < |front| && BeginsAt(front, rewrites, k) && l < |front| && EndsAt(front, rewrites, l)
    ensures var run := front + [last];
            && BeginsAt(run, rewrites, if Restarts(run, rewrites, |front|) then |front| else k)
            && EndsAt(run, rewrites, if Says(last) then |front| else l)
  {
    hide MergeRun, EndsWith;
    var run := front + [last];
    AppendedPiece(front, last, rewrites);
    if Says(last) { EndsWithItself(last.detail.value); }
    if !Restarts(run, rewrites, |front|) {
      hide Restarts;
      OpensLonger(front, last, rewrites, k);
    }
  }

  /** A stream with anything to say shows text that begins with the piece that opens it and ends with
      the last that says something; without a rewrite the former is the first. */
  lemma {:induction false} StreamKeepsItsEnds(run: seq<Entry>, rewrites: (string, string) -> bool)
    requires IsRun(run) && IsDelta(run[0].kind)
    ensures if forall k :: 0 <= k < |run| ==> !Says(run[k]) then !Says(MergeRun(run, rewrites))
            else (exists k :: 0 <= k < |run| && BeginsAt(run, rewrites, k))
                 && (exists k :: 0 <= k < |run| && EndsAt(run, rewrites, k))
    decreases |run|
  {
    hide MergeRun, BeginsAt, EndsAt, Says, Restarts, ShouldCollapse;
    var n := |run| - 1;
    var front, last := run[..n], run[n];
    if forall k :: 0 <= k < |run| ==> !Says(run[k]) {
      SilentRun(run, rewrites);
    } else if n == 0 {
      OnePiece(last, rewrites);
      assert run == [last];
    } else {
      PieceAppends(run, rewrites);
      if forall k :: 0 <= k < n ==> !Says(front[k]) {
        SilentRun(front, rewrites);
        AppendedPiece(front, last, rewrites);
        FirstPieceShown(front, last, rewrites);
      } else {
        StreamKeepsItsEnds(front, rewrites);
        var k, l :| 0 <= k < n && BeginsAt(front, rewrites, k) && 0 <= l < n && EndsAt(front, rewrites, l);
        NextPieceShown(front, last, rewrites, k, l);
      }
    }
  }

  lemma OnePiece(e: Entry, rewrites: (string, string) -> bool)
    requires Says(e)
    ensures BeginsAt([e], rewrites, 0) && EndsAt([e], rewrites, 0)
  {
    assert [] + [e] == [e];
    FirstPieceShown([], e, rewrites);
  }

  lemma {:induction false} FlattenFiles(runs: seq<seq<Entry>>, rewrites: (string, string) -> bool)
    requires forall k :: 0 <= k < |runs| ==> runs[k] != [] && IsRun(runs[k])
    ensures forall f :: f in FilesOf(Flatten(runs)) <==> f in FilesOf(MergeRuns(runs, rewrites))
  {
    if runs != [] {
      var front, last := runs[..|runs| - 1], runs[|runs| - 1];
      FlattenFiles(front, rewrites);
      MergedRunSays(last, rewrites);
      FilesOfAppend(Flatten(front), last);
      var merged := MergeRuns(runs, rewrites);
      assert merged[..|runs| - 1] == MergeRuns(front, rewrites);
    }
  }

  lemma {:induction false} FilesOfAppend(xs: seq<Entry>, ys: seq<Entry>)
    ensures FilesOf(xs + ys) == FilesOf(xs) + FilesOf(ys)
    decreases |ys|
  {
    if ys == [] {
      assert xs + ys == xs;
    } else {
      assert (xs + ys)[..|xs + ys| - 1] == xs + ys[..|ys| - 1];
      FilesOfAppend(xs, ys[..|ys| - 1]);
    }
  }

  /** No changed file is lost or invented. */
  lemma ChangedFilesConserved(entries: seq<Entry>, rewrites: (string, string) -> bool)
    ensures forall f :: f in FilesOf(Collapse(entries, rewrites)) <==> f in FilesOf(entries)
  {
    RunsPartition(entries);
    CollapseMergesRuns(entries, rewrites);
    FlattenFiles(Runs(entries), rewrites);
  }
}
