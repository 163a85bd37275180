/** The composer draft store (apps/web/src/composerDraftStore.ts): draft threads, the drafts typed in
    them, and which draft thread each project points to. */
module DraftStore {
  import opened Text

  datatype EnvMode = Local | Worktree

  datatype Thread = Thread(
    projectId: string,
    createdAt: string,
    runtimeMode: string,
    interactionMode: string,
    branch: Option<string>,
    worktreePath: Option<string>,
    envMode: EnvMode)

  /** An optional field that may also be set to null. */
  datatype Patch = Keep | To(value: Option<string>)

  datatype Options = Options(
    projectId: Option<string>,
    createdAt: Option<string>,
    runtimeMode: Option<string>,
    interactionMode: Option<string>,
    branch: Patch,
    worktreePath: Patch,
    envMode: Option<EnvMode>)

  const DEFAULT_RUNTIME_MODE := "full-access"
  const DEFAULT_INTERACTION_MODE := "default"

  datatype State = State(
    drafts: map<string, string>,
    threads: map<string, Thread>,
    projects: map<string, string>)

  const EMPTY := State(map[], map[], map[])

  function OrElse<T>(a: Option<T>, b: T): T { if a.Some? then a.value else b }

  function Patched(patch: Patch, old_: Option<string>): Option<string> {
    if patch.Keep? then old_ else patch.value
  }

  predicate Truthy(s: Option<string>) { s.Some? && s.value != "" }

  // ----- Reading.

  /** `getDraftThreadByProjectId`. */
  function Lookup(s: State, projectId: string): Option<(string, Thread)> {
    if projectId == "" || projectId !in s.projects then None
    else
      var threadId := s.projects[projectId];
      if threadId == "" || threadId !in s.threads || s.threads[threadId].projectId != projectId then None
      else Some((threadId, s.threads[threadId]))
  }

  // ----- Actions.

  function Rebased(existing: Option<Thread>, projectId: string, options: Options, now: string): Thread {
    var worktreePath := Patched(options.worktreePath, if existing.Some? then existing.value.worktreePath else None);
    Thread(projectId,
           OrElse(options.createdAt, if existing.Some? then existing.value.createdAt else now),
           OrElse(options.runtimeMode, if existing.Some? then existing.value.runtimeMode else DEFAULT_RUNTIME_MODE),
           OrElse(options.interactionMode,
                  if existing.Some? then existing.value.interactionMode else DEFAULT_INTERACTION_MODE),
           Patched(options.branch, if existing.Some? then existing.value.branch else None),
           worktreePath,
           OrElse(options.envMode,
                  if Truthy(worktreePath) then Worktree else if existing.Some? then existing.value.envMode else Local))
  }

  function Get<T>(m: map<string, T>, key: string): Option<T> { if key in m then Some(m[key]) else None }

  /** Drops a thread, and what was typed in it, unless some project still points to it. */
  function Release(s: State, threadId: string): State {
    if threadId in s.projects.Values then s
    else s.(threads := s.threads - {threadId}, drafts := s.drafts - {threadId})
  }

  function SetProject(s: State, projectId: string, threadId: string, options: Options, now: string): State {
    if projectId == "" || threadId == "" then s
    else
      var existing, previous := Get(s.threads, threadId), Get(s.projects, projectId);
      var next := Rebased(existing, projectId, options, now);
      if previous == Some(threadId) && existing == Some(next) then s
      else
        var t := s.(projects := s.projects[projectId := threadId], threads := s.threads[threadId := next]);
        if Truthy(previous) && previous != Some(threadId) then Release(t, previous.value) else t
  }

  function Contextual(existing: Thread, options: Options): Thread {
    var worktreePath := Patched(options.worktreePath, existing.worktreePath);
    Thread(OrElse(options.projectId, existing.projectId),
           if Truthy(options.createdAt) then options.createdAt.value else existing.createdAt,
           OrElse(options.runtimeMode, existing.runtimeMode),
           OrElse(options.interactionMode, existing.interactionMode),
           Patched(options.branch, existing.branch),
           worktreePath,
           OrElse(options.envMode, if Truthy(worktreePath) then Worktree else existing.envMode))
  }

  /** The action returns without a change. */
  predicate ContextIgnored(s: State, threadId: string, options: Options) {
    || threadId == "" || threadId !in s.threads
    || Contextual(s.threads[threadId], options).projectId == ""
    || Contextual(s.threads[threadId], options) == s.threads[threadId]
  }

  function SetContext(s: State, threadId: string, options: Options): State {
    if ContextIgnored(s, threadId, options) then s
    else
      var existing := s.threads[threadId];
      var next := Contextual(existing, options);
      var projects := s.projects[next.projectId := threadId];
      s.(threads := s.threads[threadId := next],
         projects := if existing.projectId != next.projectId && Get(projects, existing.projectId) == Some(threadId)
                     then projects - {existing.projectId} else projects)
  }

  function ClearProject(s: State, projectId: string): State {
    if projectId == "" || projectId !in s.projects then s
    else Release(s.(projects := s.projects - {projectId}), s.projects[projectId])
  }

  function ClearProjectById(s: State, projectId: string, threadId: string): State {
    if projectId == "" || threadId == "" || Get(s.projects, projectId) != Some(threadId) then s
    else Release(s.(projects := s.projects - {projectId}), threadId)
  }

  function Without(projects: map<string, string>, threadId: string): map<string, string> {
    map p | p in projects && projects[p] != threadId :: projects[p]
  }

  function ClearThread(s: State, threadId: string): State {
    if threadId == "" then s
    else State(s.drafts - {threadId}, s.threads - {threadId}, Without(s.projects, threadId))
  }

  // ----- The store.

  class Store {
    var draftsByThreadId: map<string, string>
    var draftThreadsByThreadId: map<string, Thread>
    var projectDraftThreadIdByProjectId: map<string, string>

    function Value(): State
      reads this
    {
      State(draftsByThreadId, draftThreadsByThreadId, projectDraftThreadIdByProjectId)
    }

    constructor (loaded: State)
      ensures Value() == loaded
    {
      draftsByThreadId, draftThreadsByThreadId, projectDraftThreadIdByProjectId :=
        loaded.drafts, loaded.threads, loaded.projects;
    }

    method SetProjectDraftThreadId(projectId: string, threadId: string, options: Options, now: string)
      modifies this
      ensures Value() == SetProject(old(Value()), projectId, threadId, options, now)
    {
      if projectId == "" || threadId == "" { return; }
      var existing := Get(draftThreadsByThreadId, threadId);
      var previous := Get(projectDraftThreadIdByProjectId, projectId);
      var next := Rebased(existing, projectId, options, now);
      if previous == Some(threadId) && existing == Some(next) { return; }
      projectDraftThreadIdByProjectId := projectDraftThreadIdByProjectId[projectId := threadId];
      draftThreadsByThreadId := draftThreadsByThreadId[threadId := next];
      if Truthy(previous) && previous != Some(threadId)
         && previous.value !in projectDraftThreadIdByProjectId.Values {
        draftThreadsByThreadId := draftThreadsByThreadId - {previous.value};
        draftsByThreadId := draftsByThreadId - {previous.value};
      }
    }

    method SetDraftThreadContext(threadId: string, options: Options)
      modifies this
      ensures Value() == SetContext(old(Value()), threadId, options)
    {
      if threadId == "" { return; }
      if threadId !in draftThreadsByThreadId { return; }
      var existing := draftThreadsByThreadId[threadId];
      var next := Contextual(existing, options);
      if next.projectId == "" { return; }
      if next == existing { return; }
      var projects := projectDraftThreadIdByProjectId[next.projectId := threadId];
      if existing.projectId != next.projectId {
        if existing.projectId in projects && projects[existing.projectId] == threadId {
          projects := projects - {existing.projectId};
        }
      }
      draftThreadsByThreadId := draftThreadsByThreadId[threadId := next];
      projectDraftThreadIdByProjectId := projects;
    }

    method ClearProjectDraftThreadId(projectId: string)
      modifies this
      ensures Value() == ClearProject(old(Value()), projectId)
    {
      if projectId == "" { return; }
      if projectId !in projectDraftThreadIdByProjectId { return; }
      var threadId := projectDraftThreadIdByProjectId[projectId];
      projectDraftThreadIdByProjectId := projectDraftThreadIdByProjectId - {projectId};
      if threadId !in projectDraftThreadIdByProjectId.Values {
        draftThreadsByThreadId := draftThreadsByThreadId - {threadId};
        draftsByThreadId := draftsByThreadId - {threadId};
      }
    }

    method ClearProjectDraftThreadById(projectId: string, threadId: string)
      modifies this
      ensures Value() == ClearProjectById(old(Value()), projectId, threadId)
    {
      if projectId == "" || threadId == "" { return; }
      if Get(projectDraftThreadIdByProjectId, projectId) != Some(threadId) { return; }
      projectDraftThreadIdByProjectId := projectDraftThreadIdByProjectId - {projectId};
      if threadId !in projectDraftThreadIdByProjectId.Values {
        draftThreadsByThreadId := draftThreadsByThreadId - {threadId};
        draftsByThreadId := draftsByThreadId - {threadId};
      }
    }

    method ClearDraftThread(threadId: string)
      modifies this
      ensures Value() == ClearThread(old(Value()), threadId)
    {
      if threadId == "" { return; }
      if threadId !in draftThreadsByThreadId && threadId !in projectDraftThreadIdByProjectId.Values
         && threadId !in draftsByThreadId {
        NothingToClear(Value(), threadId);
        return;
      }
      projectDraftThreadIdByProjectId := Without(projectDraftThreadIdByProjectId, threadId);
      draftThreadsByThreadId := draftThreadsByThreadId - {threadId};
      draftsByThreadId := draftsByThreadId - {threadId};
    }

    method GetDraftThreadByProjectId(projectId: string) returns (r: Option<(string, Thread)>)
      ensures r == Lookup(Value(), projectId)
    {
      if projectId == "" { return None; }
      if projectId !in projectDraftThreadIdByProjectId { return None; }
      var threadId := projectDraftThreadIdByProjectId[projectId];
      if threadId == "" || threadId !in draftThreadsByThreadId { return None; }
      var draftThread := draftThreadsByThreadId[threadId];
      if draftThread.projectId != projectId { return None; }
      return Some((threadId, draftThread));
    }
  }

  lemma NothingToClear(s: State, threadId: string)
    requires threadId !in s.threads && threadId !in s.projects.Values && threadId !in s.drafts
    ensures ClearThread(s, threadId) == s
  {
    assert Without(s.projects, threadId) == s.projects;
  }

  // ----- Loading what was persisted.

  /** A persisted thread, each field absent when it is missing or not of the expected type. */
  datatype RawThread = RawThread(
    projectId: Option<string>,
    createdAt: Option<string>,
    runtimeMode: Option<string>,
    interactionMode: Option<string>,
    branch: Option<string>,
    worktreePath: Option<string>,
    envMode: Option<EnvMode>)

  function NormalizeThread(raw: RawThread, now: string): Option<Thread> {
    if !Truthy(raw.projectId) then None
    else
      Some(Thread(raw.projectId.value,
                  if Truthy(raw.createdAt) then raw.createdAt.value else now,
                  if raw.runtimeMode in {Some("approval-required"), Some("full-access")}
                  then raw.runtimeMode.value else DEFAULT_RUNTIME_MODE,
                  if raw.interactionMode in {Some("plan"), Some("default")}
                  then raw.interactionMode.value else DEFAULT_INTERACTION_MODE,
                  raw.branch,
                  raw.worktreePath,
                  OrElse(raw.envMode, if Truthy(raw.worktreePath) then Worktree else Local)))
  }

  function LoadThread(threads: map<string, Thread>, threadId: string, raw: RawThread, now: string): map<string, Thread> {
    if threadId == "" || NormalizeThread(raw, now).None? then threads
    else threads[threadId := NormalizeThread(raw, now).value]
  }

  function LoadThreads(raws: seq<(string, RawThread)>, now: string): map<string, Thread> {
    if raws == [] then map[]
    else
      var last := raws[|raws| - 1];
      LoadThread(LoadThreads(raws[..|raws| - 1], now), last.0, last.1, now)
  }

  predicate UsableMapping(entry: (string, Option<string>)) { entry.0 != "" && Truthy(entry.1) }

  function Adopt(threads: map<string, Thread>, projectId: string, threadId: string, now: string): map<string, Thread> {
    if threadId !in threads then
      threads[threadId := Thread(projectId, now, DEFAULT_RUNTIME_MODE, DEFAULT_INTERACTION_MODE, None, None, Local)]
    else threads[threadId := threads[threadId].(projectId := projectId)]
  }

  function LoadMapping(s: State, entry: (string, Option<string>), now: string): State {
    if !UsableMapping(entry) then s
    else s.(projects := s.projects[entry.0 := entry.1.value],
            threads := Adopt(s.threads, entry.0, entry.1.value, now))
  }

  function LoadMappings(s: State, entries: seq<(string, Option<string>)>, now: string): State {
    if entries == [] then s
    else LoadMapping(LoadMappings(s, entries[..|entries| - 1], now), entries[|entries| - 1], now)
  }

  function Load(raws: seq<(string, RawThread)>, entries: seq<(string, Option<string>)>, now: string): State {
    LoadMappings(State(map[], LoadThreads(raws, now), map[]), entries, now)
  }

  method NormalizePersistedDraftThreads(raws: seq<(string, RawThread)>, entries: seq<(string, Option<string>)>, now: string)
    returns (threads: map<string, Thread>, projects: map<string, string>)
    ensures State(map[], threads, projects) == Load(raws, entries, now)
  {
    threads, projects := map[], map[];
    for i := 0 to |raws|
      invariant threads == LoadThreads(raws[..i], now)
    {
      assert raws[..i + 1][..i] == raws[..i];
      var (threadId, raw) := raws[i];
      if threadId == "" { continue; }
      var normalized := NormalizeThread(raw, now);
      if normalized.None? { continue; }
      threads := threads[threadId := normalized.value];
    }
    assert raws[..|raws|] == raws;
    ghost var start := State(map[], threads, map[]);
    for i := 0 to |entries|
      invariant State(map[], threads, projects) == LoadMappings(start, entries[..i], now)
    {
      assert entries[..i + 1][..i] == entries[..i];
      var (projectId, target) := entries[i];
      if projectId != "" && target.Some? && target.value != "" {
        var threadId := target.value;
        projects := projects[projectId := threadId];
        if threadId !in threads {
          threads := threads[threadId := Thread(projectId, now, DEFAULT_RUNTIME_MODE, DEFAULT_INTERACTION_MODE,
                                                None, None, Local)];
        } else if threads[threadId].projectId != projectId {
          threads := threads[threadId := threads[threadId].(projectId := projectId)];
        } else {
          assert threads == threads[threadId := threads[threadId].(projectId := projectId)];
        }
      }
    }
    assert entries[..|entries|] == entries;
  }
}
