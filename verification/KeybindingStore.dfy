/** The keybindings service (apps/server/src/keybindings.ts:358-905): the rules on disk, the cached
    configuration compiled from them, upserts and the startup sync. Rules are stored as text, never in
    their compiled form. */
module KeybindingStore {
  import opened Text
  import opened Shortcut
  import opened KeybindingRules
  import opened Dispatch

  /** The config file; `None` is an entry that is no rule at all. */
  datatype File = Missing | Malformed | Entries(entries: seq<Option<Rule>>)

  datatype Issue = MalformedConfig | InvalidEntry(index: nat)

  datatype ConfigState = ConfigState(keybindings: seq<ResolvedRule>, issues: seq<Issue>)

  datatype Settings = Settings(defaults: seq<Rule>, limits: Limits, maxCount: nat)

  // ----- Loading.

  /** The rule that loading takes from an entry. */
  function Load(entry: Option<Rule>, limits: Limits): Option<Rule> {
    if entry.None? then None
    else match ReadRule(entry.value, limits)
      case None => None
      case Some(rule) => if DecodeRule(rule, limits).Some? then Some(rule) else None
  }

  function Loaded(entries: seq<Option<Rule>>, limits: Limits): seq<Rule> {
    if entries == [] then []
    else
      var n := |entries| - 1;
      var last := Load(entries[n], limits);
      Loaded(entries[..n], limits) + if last.Some? then [last.value] else []
  }

  function Refused(entries: seq<Option<Rule>>, limits: Limits): seq<Issue> {
    if entries == [] then []
    else
      var n := |entries| - 1;
      Refused(entries[..n], limits) + if Load(entries[n], limits).None? then [InvalidEntry(n)] else []
  }

  /** The loop of `loadRuntimeCustomKeybindingsConfig`. */
  method LoadRuntimeCustomKeybindingsConfig(entries: seq<Option<Rule>>, limits: Limits)
    returns (keybindings: seq<Rule>, issues: seq<Issue>)
    ensures keybindings == Loaded(entries, limits) && issues == Refused(entries, limits)
  {
    keybindings, issues := [], [];
    for i := 0 to |entries|
      invariant keybindings == Loaded(entries[..i], limits) && issues == Refused(entries[..i], limits)
    {
      assert entries[..i + 1][..i] == entries[..i];
      if entries[i].None? {
        issues := issues + [InvalidEntry(i)];
        continue;
      }
      var decodedRule := ReadRule(entries[i].value, limits);
      if decodedRule.None? {
        issues := issues + [InvalidEntry(i)];
        continue;
      }
      var resolvedRule := DecodeRule(decodedRule.value, limits);
      if resolvedRule.None? {
        issues := issues + [InvalidEntry(i)];
        continue;
      }
      keybindings := keybindings + [decodedRule.value];
    }
    assert entries[..|entries|] == entries;
  }

  function CustomRules(file: File, limits: Limits): seq<Rule> {
    if file.Entries? then Loaded(file.entries, limits) else []
  }

  function IssuesOf(file: File, limits: Limits): seq<Issue> {
    match file
    case Missing => []
    case Malformed => [MalformedConfig]
    case Entries(entries) => Refused(entries, limits)
  }

  // ----- Merging with the defaults.

  /** `slice(-n)` of a list that is longer, `n > 0`. */
  function Latest<T>(s: seq<T>, n: nat): seq<T> { if |s| > n then s[|s| - n..] else s }

  function Retained(defaults: seq<ResolvedRule>, custom: seq<ResolvedRule>): seq<ResolvedRule> {
    if defaults == [] then []
    else
      var n := |defaults| - 1;
      Retained(defaults[..n], custom)
      + if exists b :: b in custom && b.command == defaults[n].command then [] else [defaults[n]]
  }

  function MergeWithDefaults(defaults: seq<ResolvedRule>, custom: seq<ResolvedRule>, max: nat): seq<ResolvedRule> {
    if custom == [] then defaults else Latest(Retained(defaults, custom) + custom, max)
  }

  function Resolved(rules: seq<Rule>, s: Settings): seq<ResolvedRule> {
    MergeWithDefaults(CompileConfig(s.defaults, s.limits), CompileConfig(rules, s.limits), s.maxCount)
  }

  /** What `loadConfigStateFromDisk` makes of the file. */
  function StateOf(file: File, s: Settings): ConfigState {
    ConfigState(Resolved(CustomRules(file, s.limits), s), IssuesOf(file, s.limits))
  }

  // ----- Writing.

  function Stored(rules: seq<Rule>): File { Entries(seq(|rules|, (k: nat) requires k < |rules| => Some(rules[k]))) }

  function Without(rules: seq<Rule>, command: string): seq<Rule> {
    if rules == [] then []
    else
      var n := |rules| - 1;
      Without(rules[..n], command) + if rules[n].command == command then [] else [rules[n]]
  }

  function Upserted(custom: seq<Rule>, rule: Rule, max: nat): seq<Rule> {
    Latest(Without(custom, rule.command) + [rule], max)
  }

  /** `keybindingShortcutContext`. */
  function ContextOf(rule: Rule): Option<string> {
    match ParseShortcut(rule.key)
    case None => None
    case Some(shortcut) =>
      match Encode(shortcut)
      case None => None
      case Some(key) =>
        if key == "" then None else Some(key + "\U{0000}" + if rule.when.Some? then rule.when.value else "")
  }

  predicate SameContext(left: Rule, right: Rule) {
    ContextOf(left).Some? && ContextOf(left) == ContextOf(right)
  }

  /** A rule of the same command, or with the same shortcut and condition, stands in for the default. */
  predicate Covered(default: Rule, custom: seq<Rule>) {
    exists e :: e in custom && (e.command == default.command || SameContext(e, default))
  }

  function MissingDefaults(defaults: seq<Rule>, custom: seq<Rule>): seq<Rule> {
    if defaults == [] then []
    else
      var n := |defaults| - 1;
      MissingDefaults(defaults[..n], custom) + if Covered(defaults[n], custom) then [] else [defaults[n]]
  }

  /** The file after `syncDefaultKeybindingsOnStartup`. */
  function Synced(file: File, s: Settings): File {
    if file.Missing? then Stored(s.defaults)
    else if IssuesOf(file, s.limits) != [] then file
    else
      var custom := CustomRules(file, s.limits);
      var missing := MissingDefaults(s.defaults, custom);
      if missing == [] then file else Stored(Latest(custom + missing, s.maxCount))
  }

  // ----- The service.

  datatype Service = Service(file: File, cache: Option<ConfigState>)

  datatype Action = ReadState | Upsert(rule: Rule) | SyncDefaults | Edited(file: File)

  function Read(v: Service, s: Settings): Service {
    if v.cache.Some? then v else v.(cache := Some(StateOf(v.file, s)))
  }

  /** An upsert fails when the file is no list, and otherwise caches what it wrote as free of issues. */
  function AfterUpsert(v: Service, rule: Rule, s: Settings): Service {
    if v.file.Malformed? then v
    else
      var rules := Upserted(CustomRules(v.file, s.limits), rule, s.maxCount);
      Service(Stored(rules), Some(ConfigState(Resolved(rules, s), [])))
  }

  function After(v: Service, action: Action, s: Settings): Service {
    match action
    case ReadState => Read(v, s)
    case Upsert(rule) => AfterUpsert(v, rule, s)
    case SyncDefaults => Service(Synced(v.file, s), None)
    case Edited(file) => Read(Service(file, None), s)
  }

  function AfterAll(v: Service, actions: seq<Action>, s: Settings): Service {
    if actions == [] then v else After(AfterAll(v, actions[..|actions| - 1], s), actions[|actions| - 1], s)
  }

  class Keybindings {
    const settings: Settings
    var file: File
    var cache: Option<ConfigState>

    constructor (settings: Settings, file: File)
      ensures this.settings == settings && State() == Service(file, None)
    {
      this.settings, this.file, cache := settings, file, None;
    }

    function State(): Service
      reads this
    {
      Service(file, cache)
    }

    method LoadConfigState() returns (state: ConfigState)
      modifies this
      ensures State() == Read(old(State()), settings) && cache == Some(state)
    {
      if cache.None? { cache := Some(StateOf(file, settings)); }
      state := cache.value;
    }

    method UpsertKeybindingRule(rule: Rule) returns (resolved: Option<seq<ResolvedRule>>)
      modifies this
      ensures State() == AfterUpsert(old(State()), rule, settings)
      ensures resolved.None? <==> file.Malformed?
      ensures resolved.Some? ==> cache == Some(ConfigState(resolved.value, []))
    {
      if file.Malformed? { return None; }
      var customConfig: seq<Rule> := [];
      if file.Entries? {
        var issues;
        customConfig, issues := LoadRuntimeCustomKeybindingsConfig(file.entries, settings.limits);
      }
      var cappedConfig := Upserted(customConfig, rule, settings.maxCount);
      file := Stored(cappedConfig);
      resolved := Some(Resolved(cappedConfig, settings));
      cache := Some(ConfigState(resolved.value, []));
    }

    method SyncDefaultKeybindingsOnStartup()
      modifies this
      ensures State() == Service(Synced(old(file), settings), None)
    {
      cache := None;
      if file.Missing? {
        file := Stored(settings.defaults);
        return;
      }
      if file.Malformed? { return; }
      var customConfig, issues := LoadRuntimeCustomKeybindingsConfig(file.entries, settings.limits);
      if |issues| > 0 { return; }
      var defaults := settings.defaults;
      var missingDefaults: seq<Rule> := [];
      for i := 0 to |defaults|
        invariant missingDefaults == MissingDefaults(defaults[..i], customConfig)
      {
        assert defaults[..i + 1][..i] == defaults[..i];
        if Covered(defaults[i], customConfig) { continue; }
        missingDefaults := missingDefaults + [defaults[i]];
      }
      assert defaults[..|defaults|] == defaults;
      if |missingDefaults| == 0 { return; }
      file := Stored(Latest(customConfig + missingDefaults, settings.maxCount));
    }
  }

  // ----- What is stored is what loads.

  /** Loading a rule gives the rule itself. */
  predicate Settled(rule: Rule, limits: Limits) {
    ReadRule(rule, limits) == Some(rule) && DecodeRule(rule, limits).Some?
  }

  ghost predicate AllSettled(rules: seq<Rule>, limits: Limits) { forall r :: r in rules ==> Settled(r, limits) }

  lemma {:induction false} LoadedIsSettled(entries: seq<Option<Rule>>, limits: Limits)
    ensures AllSettled(Loaded(entries, limits), limits)
  {
    hide ReadRule, DecodeRule;
    if entries != [] {
      var n := |entries| - 1;
      LoadedIsSettled(entries[..n], limits);
      if entries[n].Some? && ReadRule(entries[n].value, limits).Some? { ReadRuleIsStable(entries[n].value, limits); }
    }
  }

  lemma LoadsAsItself(rule: Rule, limits: Limits)
    requires ReadRule(rule, limits) == Some(rule)
    ensures Load(Some(rule), limits) == if DecodeRule(rule, limits).Some? then Some(rule) else None
  {}

  lemma {:induction false} SettledLoads(entries: seq<Option<Rule>>, rules: seq<Rule>, limits: Limits)
    requires |entries| == |rules| && forall k :: 0 <= k < |rules| ==> entries[k] == Some(rules[k])
    requires AllSettled(rules, limits)
    ensures Loaded(entries, limits) == rules && Refused(entries, limits) == []
  {
    hide ReadRule, DecodeRule, Load;
    if entries != [] {
      var n := |entries| - 1;
      assert rules[n] in rules && rules == rules[..n] + [rules[n]];
      SettledLoads(entries[..n], rules[..n], limits);
      LoadsAsItself(rules[n], limits);
    }
  }

  /** Writing the rules that were loaded and loading them again gives the same rules, without issues. */
  lemma StoredRulesLoad(rules: seq<Rule>, limits: Limits)
    requires AllSettled(rules, limits)
    ensures CustomRules(Stored(rules), limits) == rules && IssuesOf(Stored(rules), limits) == []
  {
    SettledLoads(Stored(rules).entries, rules, limits);
  }

  lemma RewritingChangesNothing(file: File, limits: Limits)
    ensures CustomRules(Stored(CustomRules(file, limits)), limits) == CustomRules(file, limits)
    ensures IssuesOf(Stored(CustomRules(file, limits)), limits) == []
  {
    if file.Entries? { LoadedIsSettled(file.entries, limits); }
    StoredRulesLoad(CustomRules(file, limits), limits);
  }

  // ----- What an upsert caches is what the disk holds.

  lemma LatestSnoc<T>(xs: seq<T>, x: T, n: nat)
    requires n > 0
    ensures Latest(xs + [x], n) == Latest(xs, n - 1) + [x]
  {}

  lemma {:induction false} WithoutMembers(rules: seq<Rule>, command: string)
    ensures forall r :: r in Without(rules, command) ==> r in rules && r.command != command
  {
    if rules != [] {
      var n := |rules| - 1;
      WithoutMembers(rules[..n], command);
      assert rules[n] in rules;
    }
  }

  /** The rule comes last, after rules for other commands that were there before. */
  lemma UpsertedShape(custom: seq<Rule>, rule: Rule, max: nat) returns (front: seq<Rule>)
    requires max > 0
    ensures Upserted(custom, rule, max) == front + [rule]
    ensures forall r :: r in front ==> r in custom && r.command != rule.command
  {
    var others := Without(custom, rule.command);
    front := Latest(others, max - 1);
    LatestSnoc(others, rule, max);
    WithoutMembers(custom, rule.command);
    assert forall r :: r in front ==> r in others;
  }

  lemma CompileOneMore(front: seq<Rule>, rule: Rule, limits: Limits)
    ensures CompileConfig(front + [rule], limits) ==
            CompileConfig(front, limits) + if DecodeRule(rule, limits).Some? then [DecodeRule(rule, limits).value] else []
  {
    hide DecodeRule;
    assert (front + [rule])[..|front|] == front;
  }

  /** Storing settled rules and one more that reads as itself but may not compile. */
  lemma StoredWithLast(front: seq<Rule>, rule: Rule, limits: Limits)
    requires AllSettled(front, limits) && ReadRule(rule, limits) == Some(rule)
    ensures var compiles := DecodeRule(rule, limits).Some?;
            && CustomRules(Stored(front + [rule]), limits) == front + (if compiles then [rule] else [])
            && IssuesOf(Stored(front + [rule]), limits) == if compiles then [] else [InvalidEntry(|front|)]
  {
    hide ReadRule, DecodeRule, Load;
    var entries := Stored(front + [rule]).entries;
    LoadsAsItself(rule, limits);
    SettledLoads(entries[..|front|], front, limits);
  }

  ghost predicate Valid(s: Settings) {
    s.maxCount > 0 && AllSettled(s.defaults, s.limits)
  }

  /** After an upsert the cached keybindings are those that the written file loads as; the cached issues
      are too exactly when the rule compiles, and otherwise the cache hides the issue that it causes. */
  lemma UpsertCacheMeetsDiskIff(v: Service, rule: Rule, s: Settings)
    requires Valid(s) && ReadRule(rule, s.limits) == Some(rule) && !v.file.Malformed?
    ensures var w := AfterUpsert(v, rule, s);
            && w.cache.Some?
            && w.cache.value.keybindings == StateOf(w.file, s).keybindings
            && (w.cache.value.issues == StateOf(w.file, s).issues <==> DecodeRule(rule, s.limits).Some?)
  {
    hide ReadRule, DecodeRule, Upserted, Loaded, Refused, MergeWithDefaults, CompileConfig, Stored;
    var custom := CustomRules(v.file, s.limits);
    if v.file.Entries? { LoadedIsSettled(v.file.entries, s.limits); }
    var front := UpsertedShape(custom, rule, s.maxCount);
    StoredWithLast(front, rule, s.limits);
    CompileOneMore(front, rule, s.limits);
    assert front + [] == front && CompileConfig(front, s.limits) + [] == CompileConfig(front, s.limits);
  }

  /** Rules reach an upsert through the schema, so they read as themselves. */
  ghost predicate AllRead(actions: seq<Action>, limits: Limits) {
    forall a :: a in actions && a.Upsert? ==> ReadRule(a.rule, limits) == Some(a.rule)
  }

  ghost predicate CacheMeetsDisk(v: Service, s: Settings) {
    v.cache.Some? ==>
      && v.cache.value.keybindings == StateOf(v.file, s).keybindings
      && (v.cache.value.issues == StateOf(v.file, s).issues || v.cache.value.issues == [])
  }

  /** Over every run of reads, upserts, syncs and edits that were noticed, the keybindings in use are
      those that the file on disk loads as. */
  lemma {:induction false} KeybindingsMeetDisk(file: File, actions: seq<Action>, s: Settings)
    requires Valid(s) && AllRead(actions, s.limits)
    ensures CacheMeetsDisk(AfterAll(Service(file, None), actions, s), s)
  {
    hide StateOf, Synced;
    if actions != [] {
      var front, last := actions[..|actions| - 1], actions[|actions| - 1];
      assert last in actions;
      KeybindingsMeetDisk(file, front, s);
      var v := AfterAll(Service(file, None), front, s);
      if last.Upsert? && !v.file.Malformed? { UpsertCacheMeetsDiskIff(v, last.rule, s); }
    }
  }

  /** Something has filled the cache since it was last emptied by a sync. */
  ghost predicate Cached(file: File, actions: seq<Action>, s: Settings) {
    actions != [] &&
    var front := actions[..|actions| - 1];
    match actions[|actions| - 1]
    case ReadState => true
    case Edited(_) => true
    case SyncDefaults => false
    case Upsert(_) => !AfterAll(Service(file, None), front, s).file.Malformed? || Cached(file, front, s)
  }

  /** The last change of the file was an upsert, and it is still in the cache. */
  ghost predicate Unreported(file: File, actions: seq<Action>, s: Settings) {
    actions != [] &&
    var front := actions[..|actions| - 1];
    match actions[|actions| - 1]
    case ReadState => Unreported(file, front, s)
    case Upsert(_) => !AfterAll(Service(file, None), front, s).file.Malformed? || Unreported(file, front, s)
    case _ => false
  }

  /** Over every run: the cache is filled by a read, a noticed edit or an upsert that was not refused, and
      emptied by a sync only; the issues reported are those of the file, but none after an upsert until the
      next edit or sync. */
  lemma {:induction false} CacheByHistory(file: File, actions: seq<Action>, s: Settings)
    ensures var v := AfterAll(Service(file, None), actions, s);
            && (v.cache.Some? <==> Cached(file, actions, s))
            && (v.cache.Some? ==> v.cache.value.issues == if Unreported(file, actions, s) then [] else IssuesOf(v.file, s.limits))
            && (Unreported(file, actions, s) ==> v.cache.Some?)
  {
    hide Synced, Resolved, Stored, IssuesOf;
    if actions != [] { CacheByHistory(file, actions[..|actions| - 1], s); }
  }

  // ----- What an upsert and the merge with the defaults keep.

  /** The rules of one command, in order. */
  function Of(rules: seq<Rule>, command: string): seq<Rule> {
    if rules == [] then []
    else
      var n := |rules| - 1;
      Of(rules[..n], command) + if rules[n].command == command then [rules[n]] else []
  }

  lemma {:induction false} WithoutKeepsOthers(rules: seq<Rule>, removed: string, command: string)
    requires command != removed
    ensures Of(Without(rules, removed), command) == Of(rules, command)
  {
    if rules != [] {
      var n := |rules| - 1;
      WithoutKeepsOthers(rules[..n], removed, command);
      OfOneMore(Without(rules[..n], removed), rules[n], command);
      assert Without(rules[..n], removed) + [] == Without(rules[..n], removed);
    }
  }

  lemma OfOneMore(rules: seq<Rule>, rule: Rule, command: string)
    ensures Of(rules + [rule], command) == Of(rules, command) + if rule.command == command then [rule] else []
  {
    assert (rules + [rule])[..|rules|] == rules;
  }

  /** While the list stays within its limit, an upsert leaves the rules of every other command as they
      are and in their order, and the command has the new rule alone. */
  lemma UpsertKeepsOthers(custom: seq<Rule>, rule: Rule, max: nat, command: string)
    requires |Without(custom, rule.command)| < max
    ensures Of(Upserted(custom, rule, max), command) == if command == rule.command then [rule] else Of(custom, command)
  {
    var others := Without(custom, rule.command);
    OfOneMore(others, rule, command);
    if command == rule.command {
      WithoutMembers(custom, command);
      NoneOf(others, command);
    } else {
      WithoutKeepsOthers(custom, rule.command, command);
    }
  }

  lemma {:induction false} NoneOf(rules: seq<Rule>, command: string)
    requires forall r :: r in rules ==> r.command != command
    ensures Of(rules, command) == []
  {
    if rules != [] { NoneOf(rules[..|rules| - 1], command); }
  }

  /** The bindings of one command, in order. */
  function Bound(bindings: seq<ResolvedRule>, command: string): seq<ResolvedRule> {
    if bindings == [] then []
    else
      var n := |bindings| - 1;
      Bound(bindings[..n], command) + if bindings[n].command == command then [bindings[n]] else []
  }

  lemma {:induction false} BoundAppend(xs: seq<ResolvedRule>, ys: seq<ResolvedRule>, command: string)
    ensures Bound(xs + ys, command) == Bound(xs, command) + Bound(ys, command)
    decreases |ys|
  {
    if ys == [] {
      assert xs + ys == xs;
    } else {
      assert (xs + ys)[..|xs + ys| - 1] == xs + ys[..|ys| - 1];
      BoundAppend(xs, ys[..|ys| - 1], command);
    }
  }

  lemma {:induction false} RetainedBound(defaults: seq<ResolvedRule>, custom: seq<ResolvedRule>, command: string)
    ensures Bound(Retained(defaults, custom), command) ==
            if exists b :: b in custom && b.command == command then [] else Bound(defaults, command)
  {
    if defaults != [] {
      var n := |defaults| - 1;
      RetainedBound(defaults[..n], custom, command);
      var last := if exists b :: b in custom && b.command == defaults[n].command then [] else [defaults[n]];
      BoundAppend(Retained(defaults[..n], custom), last, command);
      assert last != [] ==> last[..0] == [];
    }
  }

  lemma {:induction false} NoBound(bindings: seq<ResolvedRule>, command: string)
    ensures Bound(bindings, command) == [] <==> forall b :: b in bindings ==> b.command != command
  {
    if bindings != [] {
      var n := |bindings| - 1;
      NoBound(bindings[..n], command);
      assert bindings == bindings[..n] + [bindings[n]];
    }
  }

  /** Within the limit a command has its custom bindings if there are any, and else its defaults; and a
      custom binding that matches a key press comes before every default. */
  lemma MergeKeeps(defaults: seq<ResolvedRule>, custom: seq<ResolvedRule>, max: nat, command: string)
    requires |Retained(defaults, custom)| + |custom| <= max
    ensures Bound(MergeWithDefaults(defaults, custom, max), command) ==
            if Bound(custom, command) != [] then Bound(custom, command) else Bound(defaults, command)
  {
    NoBound(custom, command);
    if custom != [] {
      RetainedBound(defaults, custom, command);
      BoundAppend(Retained(defaults, custom), custom, command);
    }
  }

  lemma {:induction false} ResolveAppend(xs: seq<ResolvedRule>, ys: seq<ResolvedRule>, event: KeyEvent, context: Context, mac: bool)
    ensures Resolve(event, xs + ys, context, mac) ==
            if Resolve(event, ys, context, mac).Some? then Resolve(event, ys, context, mac) else Resolve(event, xs, context, mac)
    decreases |ys|
  {
    hide Active, Matches;
    if ys == [] {
      assert xs + ys == xs;
    } else {
      assert (xs + ys)[..|xs + ys| - 1] == xs + ys[..|ys| - 1];
      ResolveAppend(xs, ys[..|ys| - 1], event, context, mac);
    }
  }

  /** A key press that some custom binding answers is never answered by a default. */
  lemma CustomWins(defaults: seq<ResolvedRule>, custom: seq<ResolvedRule>, max: nat, event: KeyEvent, context: Context, mac: bool)
    requires |Retained(defaults, custom)| + |custom| <= max
    requires Resolve(event, custom, context, mac).Some?
    ensures Resolve(event, MergeWithDefaults(defaults, custom, max), context, mac) == Resolve(event, custom, context, mac)
  {
    ResolveAppend(Retained(defaults, custom), custom, event, context, mac);
  }

  // ----- An upsert takes effect.

  lemma RetainedMembers(defaults: seq<ResolvedRule>, custom: seq<ResolvedRule>)
    ensures forall b, c :: b in Retained(defaults, custom) && c in custom ==> b.command != c.command
  {}

  lemma {:induction false} CompileKeepsCommands(rules: seq<Rule>, limits: Limits, command: string)
    requires forall r :: r in rules ==> r.command != command
    ensures forall b :: b in CompileConfig(rules, limits) ==> b.command != command
  {
    forall b | b in CompileConfig(rules, limits) ensures b.command != command {
      var r :| r in rules && DecodeRule(r, limits) == Some(b);
    }
  }

  lemma MergedLast(defaults: seq<ResolvedRule>, others: seq<ResolvedRule>, binding: ResolvedRule, max: nat)
    returns (before: seq<ResolvedRule>)
    requires max > 0 && forall b :: b in others ==> b.command != binding.command
    ensures MergeWithDefaults(defaults, others + [binding], max) == before + [binding]
    ensures forall b :: b in before ==> b.command != binding.command
  {
    hide Retained;
    var retained := Retained(defaults, others + [binding]);
    RetainedMembers(defaults, others + [binding]);
    assert binding in others + [binding];
    LatestSnoc(retained + others, binding, max);
    assert retained + (others + [binding]) == retained + others + [binding];
    before := Latest(retained + others, max - 1);
    assert forall b :: b in before ==> b in retained + others;
  }

  lemma LastBindingWins(before: seq<ResolvedRule>, binding: ResolvedRule, event: KeyEvent, context: Context, mac: bool)
    requires Active(binding, context)
    ensures Effective(before + [binding], binding.command, context, mac, {}) == Some(binding.shortcut)
    ensures Matches(event, binding.shortcut, mac) ==> Resolve(event, before + [binding], context, mac) == Some(binding.command)
  {
    hide Active, Matches;
    assert (before + [binding])[..|before|] == before;
  }

  /** The rule's binding is the only one for its command, comes last, is displayed wherever its condition
      holds, and there every key press that matches it runs the command. */
  lemma UpsertTakesEffect(v: Service, rule: Rule, s: Settings, event: KeyEvent, context: Context, mac: bool)
    requires Valid(s) && !v.file.Malformed? && DecodeRule(rule, s.limits).Some?
    ensures var binding := DecodeRule(rule, s.limits).value;
            var bindings := AfterUpsert(v, rule, s).cache.value.keybindings;
            && binding.command == rule.command
            && bindings != [] && bindings[|bindings| - 1] == binding
            && (forall b :: b in bindings && b.command == rule.command ==> b == binding)
            && (Active(binding, context) ==>
                  && Effective(bindings, rule.command, context, mac, {}) == Some(binding.shortcut)
                  && (Matches(event, binding.shortcut, mac) ==> Resolve(event, bindings, context, mac) == Some(rule.command)))
  {
    var binding := DecodeRule(rule, s.limits).value;
    assert binding.command == rule.command;
    hide DecodeRule, Upserted, Loaded, CompileConfig, MergeWithDefaults, Active, Matches, Effective, Resolve, Stored, Settled;
    var front := UpsertedShape(CustomRules(v.file, s.limits), rule, s.maxCount);
    CompileOneMore(front, rule, s.limits);
    CompileKeepsCommands(front, s.limits, rule.command);
    var before := MergedLast(CompileConfig(s.defaults, s.limits), CompileConfig(front, s.limits), binding, s.maxCount);
    if Active(binding, context) { LastBindingWins(before, binding, event, context, mac); }
  }

  // ----- The startup sync.

  lemma {:induction false} MissingMembers(defaults: seq<Rule>, custom: seq<Rule>)
    ensures forall d :: d in MissingDefaults(defaults, custom) <==> d in defaults && !Covered(d, custom)
  {
    hide Covered;
    if defaults != [] {
      var n := |defaults| - 1;
      MissingMembers(defaults[..n], custom);
      assert forall d :: d in defaults <==> d in defaults[..n] || d == defaults[n];
    }
  }

  lemma SyncedRules(custom: seq<Rule>, s: Settings)
    requires Valid(s) && AllSettled(custom, s.limits)
    ensures AllSettled(Latest(custom + MissingDefaults(s.defaults, custom), s.maxCount), s.limits)
  {
    hide Settled;
    MissingMembers(s.defaults, custom);
    var all := custom + MissingDefaults(s.defaults, custom);
    assert forall r :: r in all ==> Settled(r, s.limits);
    assert forall r :: r in Latest(all, s.maxCount) ==> r in all;
  }

  /** Syncing what was written with missing defaults. */
  lemma SyncAgain(rules: seq<Rule>, s: Settings)
    requires Valid(s) && AllSettled(rules, s.limits)
    ensures Synced(Stored(rules), s) == Stored(rules) <==> forall d :: d in s.defaults ==> Covered(d, rules)
  {
    hide Settled, Covered, Loaded, Refused;
    StoredRulesLoad(rules, s.limits);
    MissingMembers(s.defaults, rules);
    var missing := MissingDefaults(s.defaults, rules);
    if missing != [] {
      var n := |missing| - 1;
      var last := missing[n];
      assert last in missing;
      assert rules + missing == rules + missing[..n] + [last];
      LatestSnoc(rules + missing[..n], last, s.maxCount);
      var capped := Latest(rules + missing, s.maxCount);
      assert capped[|capped| - 1] == last;
      assert last in capped;
      if last in rules { CoversItself(last, rules); }
      if Stored(capped) == Stored(rules) { SameStored(capped, rules); }
    }
  }

  lemma CoversItself(d: Rule, rules: seq<Rule>)
    requires d in rules
    ensures Covered(d, rules)
  {}

  lemma SameStored(a: seq<Rule>, b: seq<Rule>)
    requires Stored(a) == Stored(b)
    ensures a == b
  {
    var x, y := Stored(a).entries, Stored(b).entries;
    assert |x| == |a| && |y| == |b|;
    forall k | 0 <= k < |a| ensures a[k] == b[k] { assert x[k] == Some(a[k]) && y[k] == Some(b[k]); }
  }

  /** Syncing again after a sync changes nothing exactly when every default is covered by the rules that
      the first sync left: capping the list may have dropped the rule that covered one. */
  lemma SyncIsIdempotentIff(file: File, s: Settings)
    requires Valid(s)
    ensures var custom := CustomRules(file, s.limits);
            var missing := MissingDefaults(s.defaults, custom);
            var writes := file.Entries? && IssuesOf(file, s.limits) == [] && missing != [];
            Synced(Synced(file, s), s) == Synced(file, s) <==>
            (writes ==> forall d :: d in s.defaults ==> Covered(d, Latest(custom + missing, s.maxCount)))
  {
    hide Settled, Covered, Loaded, Refused, MissingDefaults, Stored, Latest;
    if file.Missing? {
      forall d | d in s.defaults ensures Covered(d, s.defaults) { CoversItself(d, s.defaults); }
      SyncAgain(s.defaults, s);
    } else if file.Entries? {
      var custom := CustomRules(file, s.limits);
      LoadedIsSettled(file.entries, s.limits);
      SyncedRules(custom, s);
      SyncAgain(Latest(custom + MissingDefaults(s.defaults, custom), s.maxCount), s);
    }
  }

  /** So it does whenever the list stays within its limit; then every default is covered. */
  lemma SyncCoversDefaults(file: File, s: Settings)
    requires Valid(s) && IssuesOf(file, s.limits) == []
    requires var custom := CustomRules(file, s.limits);
             |custom| + |MissingDefaults(s.defaults, custom)| <= s.maxCount
    ensures Synced(Synced(file, s), s) == Synced(file, s)
    ensures forall d :: d in s.defaults ==> Covered(d, CustomRules(Synced(file, s), s.limits))
  {
    hide Settled, Covered, Loaded, Refused, MissingDefaults;
    var custom := CustomRules(file, s.limits);
    var missing := MissingDefaults(s.defaults, custom);
    MissingMembers(s.defaults, custom);
    forall d | d in s.defaults ensures Covered(d, custom + missing) {
      if d in missing { CoversItself(d, custom + missing); } else { StillCovered(d, custom, missing); }
    }
    SyncIsIdempotentIff(file, s);
    if file.Missing? {
      StoredRulesLoad(s.defaults, s.limits);
      forall d | d in s.defaults ensures Covered(d, s.defaults) { CoversItself(d, s.defaults); }
    } else {
      LoadedIsSettled(file.entries, s.limits);
      SyncedRules(custom, s);
      StoredRulesLoad(custom + missing, s.limits);
      assert missing == [] ==> custom + missing == custom;
    }
  }

  lemma StillCovered(d: Rule, custom: seq<Rule>, more: seq<Rule>)
    requires Covered(d, custom)
    ensures Covered(d, custom + more)
  {
    var e :| e in custom && (e.command == d.command || SameContext(e, d));
    assert e in custom + more;
  }

  lemma OneMissing(x: Rule, y: Rule, custom: seq<Rule>)
    requires Covered(x, custom) != Covered(y, custom)
    ensures MissingDefaults([x, y], custom) == [if Covered(x, custom) then y else x]
  {
    hide Covered;
    assert [x, y][..1] == [x] && [x][..0] == [];
    assert MissingDefaults([x], custom) == if Covered(x, custom) then [] else [x];
  }

  /** Such a case: in a full list the oldest rule is the only one for a default, and another default is
      missing. The first sync replaces that rule, and the second replaces one of the user's. */
  lemma FullListLosesRules(x: Rule, y: Rule, rest: seq<Rule>, s: Settings)
    requires Valid(s) && s.defaults == [x, y] && |rest| == s.maxCount - 1 > 0
    requires AllSettled(rest, s.limits) && !Covered(x, rest + [y]) && !Covered(y, [x] + rest)
    ensures Synced(Stored([x] + rest), s) == Stored(rest + [y])
    ensures Synced(Stored(rest + [y]), s) == Stored(rest[1..] + [y] + [x])
  {
    hide Settled, Covered, Loaded, Refused, MissingDefaults, Stored;
    assert x in s.defaults && y in s.defaults;
    assert forall r :: r in [x] + rest ==> r == x || r in rest;
    assert forall r :: r in rest + [y] ==> r in rest || r == y;
    StoredRulesLoad([x] + rest, s.limits);
    StoredRulesLoad(rest + [y], s.limits);
    CoversItself(x, [x] + rest);
    CoversItself(y, rest + [y]);
    OneMissing(x, y, [x] + rest);
    OneMissing(x, y, rest + [y]);
    assert Latest([x] + rest + [y], s.maxCount) == rest + [y];
    assert Latest(rest + [y] + [x], s.maxCount) == rest[1..] + [y] + [x];
    StoredIsList([x] + rest);
    StoredIsList(rest + [y]);
  }

  lemma StoredIsList(rules: seq<Rule>)
    ensures Stored(rules).Entries?
  {}
}
