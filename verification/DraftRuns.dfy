/** What every run of the draft store keeps, and what each action does to every project's lookup. */
module DraftRuns {
  import opened Text
  import opened DraftStore

  datatype Action =
    | SetProjectAction(projectId: string, threadId: string, options: Options, now: string)
    | SetContextAction(threadId: string, options: Options)
    | ClearProjectAction(projectId: string)
    | ClearByIdAction(projectId: string, threadId: string)
    | ClearThreadAction(threadId: string)
    | EditDraftAction(threadId: string, draft: Option<string>)

  /** Editing a draft stands for the actions that touch only what is typed. */
  function Apply(s: State, action: Action): State {
    match action
    case SetProjectAction(projectId, threadId, options, now) => SetProject(s, projectId, threadId, options, now)
    case SetContextAction(threadId, options) => SetContext(s, threadId, options)
    case ClearProjectAction(projectId) => ClearProject(s, projectId)
    case ClearByIdAction(projectId, threadId) => ClearProjectById(s, projectId, threadId)
    case ClearThreadAction(threadId) => ClearThread(s, threadId)
    case EditDraftAction(threadId, draft) =>
      s.(drafts := if draft.Some? then s.drafts[threadId := draft.value] else s.drafts - {threadId})
  }

  function Run(s: State, actions: seq<Action>): State
    decreases |actions|
  {
    if actions == [] then s else Run(Apply(s, actions[0]), actions[1..])
  }

  // ----- Referential integrity.

  /** Every project points to a draft thread that exists; ids are not empty. */
  ghost predicate Integrity(s: State) {
    && (forall p :: p in s.projects ==> p != "" && s.projects[p] != "" && s.projects[p] in s.threads)
    && (forall t :: t in s.threads ==> s.threads[t].projectId != "")
  }

  lemma ReleaseKeepsIntegrity(s: State, threadId: string)
    requires Integrity(s)
    ensures Integrity(Release(s, threadId))
  {
    forall p | p in s.projects && threadId !in s.projects.Values ensures s.projects[p] != threadId {
      assert s.projects[p] in s.projects.Values;
    }
  }

  lemma DroppingKeepsIntegrity(s: State, projectId: string)
    requires Integrity(s)
    ensures Integrity(s.(projects := s.projects - {projectId}))
  {}

  lemma ApplyKeepsIntegrity(s: State, action: Action)
    requires Integrity(s)
    ensures Integrity(Apply(s, action))
  {
    match action
    case SetProjectAction(projectId, threadId, options, now) =>
      var next := Rebased(Get(s.threads, threadId), projectId, options, now);
      var t := s.(projects := s.projects[projectId := threadId], threads := s.threads[threadId := next]);
      if projectId != "" && threadId != "" && projectId in s.projects {
        ReleaseKeepsIntegrity(t, s.projects[projectId]);
      }
    case ClearProjectAction(projectId) =>
      if projectId in s.projects {
        DroppingKeepsIntegrity(s, projectId);
        ReleaseKeepsIntegrity(s.(projects := s.projects - {projectId}), s.projects[projectId]);
      }
    case ClearByIdAction(projectId, threadId) =>
      DroppingKeepsIntegrity(s, projectId);
      ReleaseKeepsIntegrity(s.(projects := s.projects - {projectId}), threadId);
    case _ =>
  }

  lemma {:induction false} LoadThreadsNamed(raws: seq<(string, RawThread)>, now: string)
    ensures forall t :: t in LoadThreads(raws, now) ==> LoadThreads(raws, now)[t].projectId != ""
  {
    if raws != [] { LoadThreadsNamed(raws[..|raws| - 1], now); }
  }

  lemma {:induction false} LoadMappingsKeepIntegrity(s: State, entries: seq<(string, Option<string>)>, now: string)
    requires Integrity(s)
    ensures Integrity(LoadMappings(s, entries, now))
  {
    if entries != [] { LoadMappingsKeepIntegrity(s, entries[..|entries| - 1], now); }
  }

  /** Loading establishes integrity whatever was persisted. */
  lemma LoadEstablishesIntegrity(raws: seq<(string, RawThread)>, entries: seq<(string, Option<string>)>, now: string)
    ensures Integrity(Load(raws, entries, now))
  {
    LoadThreadsNamed(raws, now);
    LoadMappingsKeepIntegrity(State(map[], LoadThreads(raws, now), map[]), entries, now);
  }

  /** Integrity holds after every sequence of actions, from an empty store or a loaded one. */
  lemma {:induction false} RunKeepsIntegrity(s: State, actions: seq<Action>)
    requires Integrity(s)
    ensures Integrity(Run(s, actions))
    decreases |actions|
  {
    if actions != [] {
      ApplyKeepsIntegrity(s, actions[0]);
      RunKeepsIntegrity(Apply(s, actions[0]), actions[1..]);
    }
  }

  lemma EveryReachableStateHasIntegrity(raws: seq<(string, RawThread)>, entries: seq<(string, Option<string>)>,
                                        now: string, actions: seq<Action>)
    ensures Integrity(Run(Load(raws, entries, now), actions)) && Integrity(Run(EMPTY, actions))
  {
    LoadEstablishesIntegrity(raws, entries, now);
    RunKeepsIntegrity(Load(raws, entries, now), actions);
    RunKeepsIntegrity(EMPTY, actions);
  }

  // ----- What each action does to the lookup of every project.

  predicate PointsTo(s: State, projectId: string, threadId: string) {
    projectId in s.projects && s.projects[projectId] == threadId
  }

  lemma ReleaseKeepsLookups(s: State, threadId: string, q: string)
    ensures Lookup(Release(s, threadId), q) == Lookup(s, q)
  {
    if q in s.projects { assert s.projects[q] in s.projects.Values; }
  }

  /** The project then finds the thread with the new data; projects that shared the thread lose it;
      nobody else notices. */
  lemma SetProjectLookups(s: State, projectId: string, threadId: string, options: Options, now: string, q: string)
    requires projectId != "" && threadId != ""
    ensures Lookup(SetProject(s, projectId, threadId, options, now), q) ==
            if q == projectId then Some((threadId, Rebased(Get(s.threads, threadId), projectId, options, now)))
            else if PointsTo(s, q, threadId) then None
            else Lookup(s, q)
  {
    var next := Rebased(Get(s.threads, threadId), projectId, options, now);
    var t := s.(projects := s.projects[projectId := threadId], threads := s.threads[threadId := next]);
    if projectId in s.projects { ReleaseKeepsLookups(t, s.projects[projectId], q); }
  }

  /** Moving or editing a thread: its new project finds it, its old project loses it if it had it. */
  lemma SetContextLookups(s: State, threadId: string, options: Options, q: string)
    requires !ContextIgnored(s, threadId, options)
    ensures var existing, next := s.threads[threadId], Contextual(s.threads[threadId], options);
            Lookup(SetContext(s, threadId, options), q) ==
            if q == next.projectId then Some((threadId, next))
            else if q == existing.projectId && PointsTo(s, q, threadId) then None
            else Lookup(s, q)
  {}

  lemma ClearProjectLookups(s: State, projectId: string, q: string)
    ensures Lookup(ClearProject(s, projectId), q) == if q == projectId then None else Lookup(s, q)
  {
    if projectId in s.projects {
      ReleaseKeepsLookups(s.(projects := s.projects - {projectId}), s.projects[projectId], q);
    }
  }

  lemma ClearByIdLookups(s: State, projectId: string, threadId: string, q: string)
    ensures Lookup(ClearProjectById(s, projectId, threadId), q) ==
            if q == projectId && threadId != "" && PointsTo(s, projectId, threadId) then None else Lookup(s, q)
  {
    ReleaseKeepsLookups(s.(projects := s.projects - {projectId}), threadId, q);
  }

  lemma ClearThreadLookups(s: State, threadId: string, q: string)
    ensures Lookup(ClearThread(s, threadId), q) ==
            if threadId != "" && PointsTo(s, q, threadId) then None else Lookup(s, q)
  {}

  lemma {:induction false} LoadedMapping(s: State, entries: seq<(string, Option<string>)>, now: string, i: nat)
    requires i < |entries| && UsableMapping(entries[i])
    requires forall j :: i < j < |entries| ==> entries[j].0 != entries[i].0
    ensures var (p, t, r) := (entries[i].0, entries[i].1.value, LoadMappings(s, entries, now));
            && PointsTo(r, p, t) && t in r.threads
            && (r.threads[t].projectId == p <==>
                forall j :: i < j < |entries| ==> !(UsableMapping(entries[j]) && entries[j].1.value == t))
    decreases |entries|
  {
    var n := |entries| - 1;
    if i < n {
      LoadedMapping(s, entries[..n], now, i);
      if UsableMapping(entries[n]) && entries[n].1.value == entries[i].1.value {
        assert entries[n].0 != entries[i].0;
      }
    }
  }

  /** After loading, the last project that was persisted for a thread finds it, the earlier ones do not. */
  lemma LoadedLookupIff(raws: seq<(string, RawThread)>, entries: seq<(string, Option<string>)>, now: string, i: nat)
    requires i < |entries| && UsableMapping(entries[i])
    requires forall j, k :: 0 <= j < k < |entries| ==> entries[j].0 != entries[k].0
    ensures var found := Lookup(Load(raws, entries, now), entries[i].0);
            && (found.Some? <==>
                forall j :: i < j < |entries| ==> !(UsableMapping(entries[j]) && entries[j].1.value == entries[i].1.value))
            && (found.Some? ==> found.value.0 == entries[i].1.value)
  {
    LoadedMapping(State(map[], LoadThreads(raws, now), map[]), entries, now, i);
  }

  // ----- Orphans.

  ghost predicate NoOrphans(s: State) {
    forall t :: t in s.threads ==> exists p :: PointsTo(s, p, t)
  }

  /** The one way to leave a draft thread without a project: giving its only project another thread's. */
  ghost predicate Evicts(s: State, action: Action) {
    && action.SetContextAction?
    && !ContextIgnored(s, action.threadId, action.options)
    && var projectId := Contextual(s.threads[action.threadId], action.options).projectId;
       && projectId in s.projects && s.projects[projectId] != action.threadId
       && forall p :: PointsTo(s, p, s.projects[projectId]) ==> p == projectId
  }

  lemma ReleaseKeepsNoOrphans(s: State, threadId: string)
    requires forall t :: t in s.threads && t != threadId ==> exists p :: PointsTo(s, p, t)
    ensures NoOrphans(Release(s, threadId))
  {
    var r := Release(s, threadId);
    forall t | t in r.threads ensures exists p :: PointsTo(r, p, t) {
      if t == threadId {
        var p :| p in s.projects && s.projects[p] == threadId;
        assert PointsTo(r, p, t);
      } else {
        var p :| PointsTo(s, p, t);
        assert PointsTo(r, p, t);
      }
    }
  }

  lemma DroppedProjectOrphansOne(s: State, projectId: string)
    requires NoOrphans(s) && projectId in s.projects
    ensures var r := s.(projects := s.projects - {projectId});
            forall t :: t in r.threads && t != s.projects[projectId] ==> exists p :: PointsTo(r, p, t)
  {
    var r := s.(projects := s.projects - {projectId});
    forall t | t in r.threads && t != s.projects[projectId] ensures exists p :: PointsTo(r, p, t) {
      var p :| PointsTo(s, p, t);
      assert PointsTo(r, p, t);
    }
  }

  lemma AssignedProjectOrphansOne(s: State, projectId: string, threadId: string, next: Thread)
    requires NoOrphans(s)
    ensures var r := s.(projects := s.projects[projectId := threadId], threads := s.threads[threadId := next]);
            forall t :: t in r.threads && Some(t) != Get(s.projects, projectId) ==> exists p :: PointsTo(r, p, t)
    ensures var r := s.(projects := s.projects[projectId := threadId], threads := s.threads[threadId := next]);
            Get(s.projects, projectId) in {None, Some(threadId)} ==> NoOrphans(r)
  {
    var r := s.(projects := s.projects[projectId := threadId], threads := s.threads[threadId := next]);
    assert PointsTo(r, projectId, threadId);
    forall t | t in r.threads && Some(t) != Get(s.projects, projectId) ensures exists p :: PointsTo(r, p, t) {
      if t != threadId {
        var p :| PointsTo(s, p, t);
        assert PointsTo(r, p, t);
      }
    }
  }

  lemma SetProjectKeepsNoOrphans(s: State, projectId: string, threadId: string, options: Options, now: string)
    requires Integrity(s) && NoOrphans(s)
    ensures NoOrphans(SetProject(s, projectId, threadId, options, now))
  {
    if projectId != "" && threadId != "" {
      var next := Rebased(Get(s.threads, threadId), projectId, options, now);
      var t := s.(projects := s.projects[projectId := threadId], threads := s.threads[threadId := next]);
      AssignedProjectOrphansOne(s, projectId, threadId, next);
      if projectId in s.projects { ReleaseKeepsNoOrphans(t, s.projects[projectId]); }
    }
  }

  lemma ClearThreadKeepsNoOrphans(s: State, threadId: string)
    requires NoOrphans(s)
    ensures NoOrphans(ClearThread(s, threadId))
  {
    var r := ClearThread(s, threadId);
    forall t | t in r.threads ensures exists p :: PointsTo(r, p, t) {
      var p :| PointsTo(s, p, t);
      assert PointsTo(r, p, t);
    }
  }

  /** The projects a thread keeps when a thread is moved. */
  lemma SetContextPoints(s: State, threadId: string, options: Options, p: string, t: string)
    requires !ContextIgnored(s, threadId, options)
    ensures var target := Contextual(s.threads[threadId], options).projectId;
            && (PointsTo(SetContext(s, threadId, options), p, t) <==>
                if p == target then t == threadId
                else PointsTo(s, p, t) && !(p == s.threads[threadId].projectId && t == threadId))
  {}

  lemma SetContextOrphansIff(s: State, threadId: string, options: Options)
    requires Integrity(s) && NoOrphans(s) && !ContextIgnored(s, threadId, options)
    ensures NoOrphans(SetContext(s, threadId, options)) <==> !Evicts(s, SetContextAction(threadId, options))
  {
    var r := SetContext(s, threadId, options);
    var target := Contextual(s.threads[threadId], options).projectId;
    hide SetContext, Contextual, Integrity;
    forall p, t ensures PointsTo(r, p, t) <==>
        if p == target then t == threadId
        else PointsTo(s, p, t) && !(p == s.threads[threadId].projectId && t == threadId)
    {
      SetContextPoints(s, threadId, options, p, t);
    }
    SetContextThreads(s, threadId, options);
    assert PointsTo(r, target, threadId);
    OrphansAfterMove(s, r, threadId, target, s.threads[threadId].projectId);
  }

  lemma SetContextThreads(s: State, threadId: string, options: Options)
    requires Integrity(s) && !ContextIgnored(s, threadId, options)
    ensures SetContext(s, threadId, options).threads.Keys == s.threads.Keys
    ensures forall p :: p in s.projects ==> s.projects[p] in s.threads
  {}

  lemma OrphansAfterMove(s: State, r: State, threadId: string, target: string, origin: string)
    requires NoOrphans(s) && r.threads.Keys == s.threads.Keys && threadId in s.threads
    requires forall p :: p in s.projects ==> s.projects[p] in s.threads
    requires PointsTo(r, target, threadId)
    requires forall p, t :: PointsTo(r, p, t) <==>
               if p == target then t == threadId else PointsTo(s, p, t) && !(p == origin && t == threadId)
    ensures NoOrphans(r) <==>
            !(target in s.projects && s.projects[target] != threadId
              && forall p :: PointsTo(s, p, s.projects[target]) ==> p == target)
  {
    forall t | t in r.threads && t != threadId && !PointsTo(s, target, t) ensures exists p :: PointsTo(r, p, t) {
      var p :| PointsTo(s, p, t);
      assert PointsTo(r, p, t);
    }
    if target in s.projects && s.projects[target] != threadId {
      var evicted := s.projects[target];
      assert evicted in r.threads;
      if exists p :: PointsTo(s, p, evicted) && p != target {
        var p :| PointsTo(s, p, evicted) && p != target;
        assert PointsTo(r, p, evicted);
      }
    }
  }

  /** From a state without orphan threads, an action leaves one exactly when it evicts. */
  lemma OrphanAppearsIffEvicted(s: State, action: Action)
    requires Integrity(s) && NoOrphans(s)
    ensures NoOrphans(Apply(s, action)) <==> !Evicts(s, action)
  {
    match action
    case SetProjectAction(projectId, threadId, options, now) =>
      SetProjectKeepsNoOrphans(s, projectId, threadId, options, now);
    case SetContextAction(threadId, options) =>
      if !ContextIgnored(s, threadId, options) { SetContextOrphansIff(s, threadId, options); }
    case ClearProjectAction(projectId) =>
      if projectId in s.projects {
        DroppedProjectOrphansOne(s, projectId);
        ReleaseKeepsNoOrphans(s.(projects := s.projects - {projectId}), s.projects[projectId]);
      }
    case ClearByIdAction(projectId, threadId) =>
      if PointsTo(s, projectId, threadId) {
        DroppedProjectOrphansOne(s, projectId);
        ReleaseKeepsNoOrphans(s.(projects := s.projects - {projectId}), threadId);
      }
    case ClearThreadAction(threadId) => ClearThreadKeepsNoOrphans(s, threadId);
    case EditDraftAction(threadId, draft) =>
      var r := Apply(s, action);
      forall t | t in r.threads ensures exists p :: PointsTo(r, p, t) {
        var p :| PointsTo(s, p, t);
        assert PointsTo(r, p, t);
      }
  }

  /** Two projects with a draft each; moving one draft to the other project strands the other draft. */
  lemma MovingADraftMayStrandAnother()
    ensures var mine := Thread("a", "t", DEFAULT_RUNTIME_MODE, DEFAULT_INTERACTION_MODE, None, None, Local);
            var s := State(map[], map["1" := mine, "2" := mine.(projectId := "b")], map["a" := "1", "b" := "2"]);
            var toB := Options(Some("b"), None, None, None, Keep, Keep, None);
            && Integrity(s) && NoOrphans(s)
            && "2" in SetContext(s, "1", toB).threads
            && "2" !in SetContext(s, "1", toB).projects.Values
  {
    var mine := Thread("a", "t", DEFAULT_RUNTIME_MODE, DEFAULT_INTERACTION_MODE, None, None, Local);
    var s := State(map[], map["1" := mine, "2" := mine.(projectId := "b")], map["a" := "1", "b" := "2"]);
    assert PointsTo(s, "a", "1") && PointsTo(s, "b", "2");
  }
}
