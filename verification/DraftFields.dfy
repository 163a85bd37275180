/** What the draft store's actions do to the fields of a thread and to typed drafts, field by field. */
module DraftFields {
  import opened Text
  import opened DraftStore
  import opened DraftRuns

  // ----- Typed drafts.

  /** The thread loses its only project by the action, or is cleared itself. */
  ghost predicate Released(s: State, action: Action, t: string) {
    match action
    case SetProjectAction(p, threadId, _, _) =>
      p != "" && threadId != "" && t != "" && t != threadId && PointsTo(s, p, t) && OnlyProject(s, p, t)
    case ClearProjectAction(p) => p != "" && PointsTo(s, p, t) && OnlyProject(s, p, t)
    case ClearByIdAction(p, threadId) => p != "" && t != "" && t == threadId && PointsTo(s, p, t) && OnlyProject(s, p, t)
    case ClearThreadAction(threadId) => t != "" && t == threadId
    case _ => false
  }

  ghost predicate OnlyProject(s: State, p: string, t: string) { forall q :: PointsTo(s, q, t) ==> q == p }

  lemma PointedValues(s: State, t: string)
    ensures t in s.projects.Values <==> exists q :: PointsTo(s, q, t)
  {
    if t in s.projects.Values {
      var q :| q in s.projects && s.projects[q] == t;
      assert PointsTo(s, q, t);
    }
  }

  lemma ReleasingDrops(s: State, p: string, t: string)
    requires PointsTo(s, p, t)
    ensures var after := Release(s.(projects := s.projects - {p}), t);
            && (t in after.threads <==> t in s.threads && !OnlyProject(s, p, t))
            && (t in after.drafts <==> t in s.drafts && !OnlyProject(s, p, t))
  {
    var rest := s.(projects := s.projects - {p});
    PointedValues(rest, t);
    forall q | q != p ensures PointsTo(rest, q, t) <==> PointsTo(s, q, t) {}
  }

  lemma SettingDrops(s: State, p: string, threadId: string, options: Options, now: string, t: string)
    requires p != "" && threadId != ""
    ensures var after := SetProject(s, p, threadId, options, now);
            && (t in after.threads <==> t == threadId || (t in s.threads && !Released(s, SetProjectAction(p, threadId, options, now), t)))
            && (t in after.drafts <==> t in s.drafts && !Released(s, SetProjectAction(p, threadId, options, now), t))
  {
    hide Rebased;
    var next := Rebased(Get(s.threads, threadId), p, options, now);
    var moved := s.(projects := s.projects[p := threadId], threads := s.threads[threadId := next]);
    PointedValues(moved, t);
    forall q | q != p ensures PointsTo(moved, q, t) <==> PointsTo(s, q, t) {}
  }

  /** Apart from editing, a typed draft goes exactly with its thread: when the thread loses its only
      project or is cleared; and it is never changed. */
  lemma DraftsGoWithThreads(s: State, action: Action, t: string)
    requires !action.EditDraftAction?
    ensures var after := Apply(s, action);
            && (t in after.drafts <==> t in s.drafts && !Released(s, action, t))
            && (t in s.threads ==> (t in after.threads <==> !Released(s, action, t)))
            && (t in after.drafts ==> after.drafts[t] == s.drafts[t])
  {
    match action
    case SetProjectAction(p, threadId, options, now) =>
      if p != "" && threadId != "" { SettingDrops(s, p, threadId, options, now, t); }
    case ClearProjectAction(p) => if PointsTo(s, p, t) { ReleasingDrops(s, p, t); }
    case ClearByIdAction(p, threadId) => if PointsTo(s, p, t) { ReleasingDrops(s, p, t); }
    case _ =>
  }

  // ----- Fields.

  /** The option if it is given, else what there was, else the fallback. */
  predicate Takes<T(==)>(after: T, option: Option<T>, before: Option<T>, fallback: T) {
    if option.Some? then after == option.value else if before.Some? then after == before.value else after == fallback
  }

  predicate Patches(after: Option<string>, patch: Patch, before: Option<string>) {
    if patch.Keep? then after == before else after == patch.value
  }

  /** A worktree path makes it a worktree unless the mode is given. */
  predicate TakesMode(after: Thread, option: Option<EnvMode>, before: EnvMode) {
    if option.Some? then after.envMode == option.value
    else if after.worktreePath.Some? && after.worktreePath.value != "" then after.envMode == Worktree
    else after.envMode == before
  }

  /** Pointing a project to a thread: what the options give is taken, the rest stays, and a new thread
      starts now, with full access, in the default mode, locally. */
  lemma SetProjectFields(s: State, p: string, threadId: string, options: Options, now: string)
    requires p != "" && threadId != ""
    ensures var after := SetProject(s, p, threadId, options, now);
            var isNew := threadId !in s.threads;
            && threadId in after.threads && PointsTo(after, p, threadId)
            && var thread := after.threads[threadId];
               && thread.projectId == p
               && Takes(thread.createdAt, options.createdAt, if isNew then None else Some(s.threads[threadId].createdAt), now)
               && Takes(thread.runtimeMode, options.runtimeMode,
                        if isNew then None else Some(s.threads[threadId].runtimeMode), "full-access")
               && Takes(thread.interactionMode, options.interactionMode,
                        if isNew then None else Some(s.threads[threadId].interactionMode), "default")
               && Patches(thread.branch, options.branch, if isNew then None else s.threads[threadId].branch)
               && Patches(thread.worktreePath, options.worktreePath, if isNew then None else s.threads[threadId].worktreePath)
               && TakesMode(thread, options.envMode, if isNew then Local else s.threads[threadId].envMode)
  {}

  /** Moving or editing a thread: the same for a thread that is there, except that a blank date is no date
      and a blank project leaves everything as it is. */
  lemma SetContextFields(s: State, threadId: string, options: Options)
    requires threadId != "" && threadId in s.threads
    requires options.projectId != Some("") && s.threads[threadId].projectId != ""
    ensures var before, after := s.threads[threadId], SetContext(s, threadId, options);
            && threadId in after.threads
            && var thread := after.threads[threadId];
               && Takes(thread.projectId, options.projectId, Some(before.projectId), "")
               && Takes(thread.createdAt, if options.createdAt == Some("") then None else options.createdAt, Some(before.createdAt), "")
               && Takes(thread.runtimeMode, options.runtimeMode, Some(before.runtimeMode), "")
               && Takes(thread.interactionMode, options.interactionMode, Some(before.interactionMode), "")
               && Patches(thread.branch, options.branch, before.branch)
               && Patches(thread.worktreePath, options.worktreePath, before.worktreePath)
               && TakesMode(thread, options.envMode, before.envMode)
  {}

  lemma BlankProjectIsIgnored(s: State, threadId: string, options: Options)
    requires options.projectId == Some("") || threadId == "" || threadId !in s.threads
    ensures SetContext(s, threadId, options) == s
  {}

  /** No action but the two above changes a thread that stays. */
  lemma OtherThreadsStay(s: State, action: Action, t: string)
    requires t in s.threads && t in Apply(s, action).threads
    requires action.SetProjectAction? || action.SetContextAction? ==> action.threadId != t
    ensures Apply(s, action).threads[t] == s.threads[t]
  {
    hide Rebased, Contextual;
  }

  // ----- Loading.

  predicate LoadsMode(after: string, raw: Option<string>, known: set<string>, fallback: string) {
    if raw.Some? && raw.value in known then after == raw.value else after == fallback
  }

  /** A persisted thread is loaded exactly when it names a project, its fields as they are or by default. */
  lemma LoadedFields(raw: RawThread, now: string)
    ensures NormalizeThread(raw, now).Some? <==> raw.projectId.Some? && raw.projectId.value != ""
    ensures NormalizeThread(raw, now).Some? ==>
              var thread := NormalizeThread(raw, now).value;
              && thread.projectId == raw.projectId.value
              && Takes(thread.createdAt, if raw.createdAt == Some("") then None else raw.createdAt, None, now)
              && LoadsMode(thread.runtimeMode, raw.runtimeMode, {"approval-required", "full-access"}, "full-access")
              && LoadsMode(thread.interactionMode, raw.interactionMode, {"plan", "default"}, "default")
              && thread.branch == raw.branch && thread.worktreePath == raw.worktreePath
              && TakesMode(thread, raw.envMode, Local)
  {}

  predicate Counts(raws: seq<(string, RawThread)>, now: string, t: string, k: nat)
    requires k < |raws|
  {
    && raws[k].0 == t && NormalizeThread(raws[k].1, now).Some?
    && forall j :: k < j < |raws| && raws[j].0 == t ==> NormalizeThread(raws[j].1, now).None?
  }

  /** The persisted thread of an id that counts: the last one that names a project. */
  lemma {:induction false} LoadThreadsTakesLast(raws: seq<(string, RawThread)>, now: string, t: string)
    ensures t in LoadThreads(raws, now) <==>
              t != "" && exists k :: 0 <= k < |raws| && raws[k].0 == t && NormalizeThread(raws[k].1, now).Some?
    ensures forall k :: 0 <= k < |raws| && t != "" && Counts(raws, now, t, k) ==>
              LoadThreads(raws, now)[t] == NormalizeThread(raws[k].1, now).value
  {
    hide NormalizeThread, Counts;
    if raws != [] {
      var n := |raws| - 1;
      LoadThreadsTakesLast(raws[..n], now, t);
      forall j | 0 <= j < n ensures raws[j] == raws[..n][j] {}
      forall k | 0 <= k < |raws| && Counts(raws, now, t, k)
        ensures raws[k].0 == t && NormalizeThread(raws[k].1, now).Some?
        ensures if k == n then true else Counts(raws[..n], now, t, k) && !(raws[n].0 == t && NormalizeThread(raws[n].1, now).Some?)
      {
        CountsBefore(raws, now, t, k);
      }
    }
  }

  lemma CountsBefore(raws: seq<(string, RawThread)>, now: string, t: string, k: nat)
    requires k < |raws| && Counts(raws, now, t, k)
    ensures raws[k].0 == t && NormalizeThread(raws[k].1, now).Some?
    ensures var n := |raws| - 1;
            k < n ==> Counts(raws[..n], now, t, k) && !(raws[n].0 == t && NormalizeThread(raws[n].1, now).Some?)
  {
    hide NormalizeThread;
  }

  /** The mapping of a project to a thread only sets the thread's project; a thread that is not there is
      made up, now and by default. */
  lemma MappingAdopts(s: State, entry: (string, Option<string>), now: string)
    requires entry.0 != "" && entry.1.Some? && entry.1.value != ""
    ensures var t, after := entry.1.value, LoadMapping(s, entry, now);
            && PointsTo(after, entry.0, t) && t in after.threads && after.drafts == s.drafts
            && after.threads[t] == (if t in s.threads then s.threads[t].(projectId := entry.0)
                                    else Thread(entry.0, now, "full-access", "default", None, None, Local))
            && (forall u :: u in after.threads && u != t ==> u in s.threads && after.threads[u] == s.threads[u])
  {}
}
