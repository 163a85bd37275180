/** Where the fields of a collapsed entry come from: each attribute from the last report that gives it,
    the changed files in the order in which they first appear. */
module WorkLogFields {
  import opened Text
  import opened WorkLog

  // ----- Attributes.

  /** A piece of a stream gives no empty text; other reports give what they have. */
  predicate Gives(e: Entry, key: string) {
    key in e.attributes && !((e.kind == ThinkingDelta || e.kind == ToolOutputDelta) && e.attributes[key] == TextValue(""))
  }

  /** The report that the attribute comes from: the last that gives it, or the first report, which has
      whatever it has. */
  predicate ComesFrom(run: seq<Entry>, key: string, k: nat)
    requires k < |run|
  {
    && key in run[k].attributes && (k == 0 || Gives(run[k], key))
    && forall j :: k < j < |run| ==> !Gives(run[j], key)
  }

  lemma {:induction false} AttributesByReport(run: seq<Entry>, key: string)
    requires run != []
    ensures key in AttributesOf(run) <==> exists k :: 0 <= k < |run| && ComesFrom(run, key, k)
    ensures forall k :: 0 <= k < |run| && ComesFrom(run, key, k) ==> AttributesOf(run)[key] == run[k].attributes[key]
    decreases |run|
  {
    if |run| == 1 {
      assert key in run[0].attributes <==> ComesFrom(run, key, 0);
    } else {
      var n := |run| - 1;
      var front := run[..n];
      AttributesByReport(front, key);
      if Gives(run[n], key) {
        assert ComesFrom(run, key, n);
      } else {
        forall k | 0 <= k < n ensures ComesFrom(run, key, k) <==> ComesFrom(front, key, k) { FrontSource(run, key, k); }
        if key in AttributesOf(front) {
          var k :| 0 <= k < n && ComesFrom(front, key, k);
          assert ComesFrom(run, key, k);
        }
      }
    }
  }

  lemma FrontSource(run: seq<Entry>, key: string, k: nat)
    requires k < |run| - 1 && !Gives(run[|run| - 1], key)
    ensures ComesFrom(run, key, k) <==> ComesFrom(run[..|run| - 1], key, k)
  {
    hide Gives;
    var n := |run| - 1;
    forall j | 0 <= j < n ensures run[..n][j] == run[j] {}
    if ComesFrom(run[..n], key, k) {
      forall j | k < j < |run| ensures !Gives(run[j], key) { if j < n { assert !Gives(run[..n][j], key); } }
    }
  }

  /** Every attribute of a collapsed entry is that of the last report that gives it. */
  lemma AttributeOfRun(run: seq<Entry>, rewrites: (string, string) -> bool, key: string)
    requires IsRun(run)
    ensures var merged := MergeRun(run, rewrites).attributes;
            && (key in merged <==> exists k :: 0 <= k < |run| && ComesFrom(run, key, k))
            && (forall k :: 0 <= k < |run| && ComesFrom(run, key, k) ==> merged[key] == run[k].attributes[key])
  {
    MergedRunSays(run, rewrites);
    AttributesByReport(run, key);
  }

  // ----- Changed files.

  lemma DistinctOneMore(files: seq<string>, last: string)
    ensures Distinct(files + [last]) == Distinct(files) + if last in Distinct(files) then [] else [last]
  {
    assert (files + [last])[..|files|] == files;
  }

  lemma SameDistinct(xs: seq<string>, ys: seq<string>, last: string)
    requires Distinct(xs) == Distinct(ys)
    ensures Distinct(xs + [last]) == Distinct(ys + [last])
  {
    hide Distinct;
    DistinctOneMore(xs, last);
    DistinctOneMore(ys, last);
  }

  lemma {:induction false} SameBefore(xs: seq<string>, ys: seq<string>, more: seq<string>)
    requires Distinct(xs) == Distinct(ys)
    ensures Distinct(xs + more) == Distinct(ys + more)
    decreases |more|
  {
    hide Distinct;
    if more == [] {
      assert xs + more == xs && ys + more == ys;
    } else {
      var n := |more| - 1;
      SameBefore(xs, ys, more[..n]);
      SameDistinct(xs + more[..n], ys + more[..n], more[n]);
      assert xs + more == xs + more[..n] + [more[n]];
      assert ys + more == ys + more[..n] + [more[n]];
    }
  }

  lemma {:induction false} DistinctTwice(a: seq<string>)
    ensures Distinct(Distinct(a)) == Distinct(a)
  {
    if a != [] {
      var n := |a| - 1;
      DistinctTwice(a[..n]);
      if a[n] !in Distinct(a[..n]) {
        var d := Distinct(a);
        assert d[..|d| - 1] == Distinct(a[..n]);
      }
    }
  }

  /** `f` first appears before `g` does. */
  ghost predicate Earlier(files: seq<string>, f: string, g: string) {
    exists k :: 0 <= k < |files| && files[k] == f && g !in files[..k + 1]
  }

  lemma EarlierStays(files: seq<string>, last: string, f: string, g: string)
    requires Earlier(files, f, g)
    ensures Earlier(files + [last], f, g)
  {
    var k :| 0 <= k < |files| && files[k] == f && g !in files[..k + 1];
    assert (files + [last])[..k + 1] == files[..k + 1] && (files + [last])[k] == f;
  }

  lemma LastIsLater(files: seq<string>, f: string, g: string)
    requires f in files && g !in files
    ensures Earlier(files + [g], f, g)
  {
    var k :| 0 <= k < |files| && files[k] == f;
    assert (files + [g])[..k + 1] == files[..k + 1] && (files + [g])[k] == f;
  }

  lemma {:induction false} DistinctInOrder(files: seq<string>, i: nat, j: nat)
    requires i < j < |Distinct(files)|
    ensures Earlier(files, Distinct(files)[i], Distinct(files)[j])
    decreases |files|
  {
    hide Earlier;
    var n := |files| - 1;
    var front, last, before := files[..n], files[n], Distinct(files[..n]);
    assert files == front + [last];
    if last in before || j < |before| {
      DistinctInOrder(front, i, j);
      EarlierStays(front, last, Distinct(files)[i], Distinct(files)[j]);
    } else {
      assert before[i] in before;
      LastIsLater(front, before[i], last);
    }
  }

  lemma {:induction false} FilesOfRun(run: seq<Entry>, rewrites: (string, string) -> bool)
    requires |run| > 1
    ensures MergeRun(run, rewrites).changedFiles == Distinct(FilesOf(run))
    decreases |run|
  {
    var n := |run| - 1;
    var front, last := run[..n], run[n];
    if n == 1 {
      assert run[..1] == [run[0]] && FilesOf([run[0]]) == run[0].changedFiles by {
        assert [run[0]][..0] == [] && [] + run[0].changedFiles == run[0].changedFiles;
      }
    } else {
      FilesOfRun(front, rewrites);
      DistinctTwice(FilesOf(front));
      SameBefore(Distinct(FilesOf(front)), FilesOf(front), last.changedFiles);
    }
  }

  /** The files of a collapsed run stand in the order in which the reports first name them. */
  lemma FilesInOrder(run: seq<Entry>, rewrites: (string, string) -> bool, i: nat, j: nat)
    requires |run| > 1 && i < j < |MergeRun(run, rewrites).changedFiles|
    ensures var files := MergeRun(run, rewrites).changedFiles; Earlier(FilesOf(run), files[i], files[j])
  {
    FilesOfRun(run, rewrites);
    DistinctInOrder(FilesOf(run), i, j);
  }
}
