/**
 What each operation of the installer makes of the state, and exactly when it refuses
 (packages/plugin-installer/src/index.ts:663-1048).
 */
module InstallerOutcomes {
  import opened Results
  import opened Manifests
  import opened Resolver
  import opened ConsistentSubsets
  import opened LifecyclePlans
  import opened Installer
  import opened InstallerProofs

  // ---------------------------------------------------------------- legality

  function Newest(s: State, id: PluginId): Option<Record>
  {
    if PreviousOf(s, id) == [] then None else Some(PreviousOf(s, id)[|PreviousOf(s, id)| - 1])
  }

  predicate StartsAt(m: Manifest, schema: nat)
  {
    m.migration.Some? ==> m.migration.value.fromSchema == schema
  }

  /** The migration that led to a record also leads back to a data schema. */
  predicate LeadsBack(current: Record, schema: nat)
  {
    schema == current.dataSchemaVersion
    || (current.manifest.migration.Some? && current.manifest.migration.value.rollbackThrough <= schema <= current.dataSchemaVersion)
  }

  /** The plugin of a command is there, or for an installation is not. */
  predicate IsPresentAsNeeded(s: State, c: Command)
  {
    match c
    case InstallCommand(r, _) => r.pluginId !in s.plugins
    case MappingCommand(_) => true
    case _ => Target(c).value in s.plugins
  }

  /** The record that takes the place of the installed one. */
  function Successor(s: State, c: Command): Option<Record>
  {
    match c
    case UpgradeCommand(r, _) => Some(r)
    case RollbackCommand(id, _) => Newest(s, id)
    case _ => None
  }

  predicate LayoutStays(s: State, c: Command)
    requires IsPresentAsNeeded(s, c)
  {
    Successor(s, c).Some? ==> Successor(s, c).value.storageLayout == s.plugins[Target(c).value].storageLayout
  }

  predicate SchemaFits(s: State, c: Command)
    requires IsPresentAsNeeded(s, c)
  {
    match c
    case InstallCommand(r, _) => StartsAt(r.manifest, 0)
    case UpgradeCommand(r, _) => StartsAt(r.manifest, s.plugins[r.pluginId].dataSchemaVersion)
    case RollbackCommand(id, _) => Newest(s, id).Some? ==> LeadsBack(s.plugins[id], Newest(s, id).value.dataSchemaVersion)
    case _ => true
  }

  predicate IsLegal(env: Env, s: State, c: Command)
  {
    && IsPresentAsNeeded(s, c) && LayoutStays(s, c) && SchemaFits(s, c)
    && (c.RollbackCommand? ==> Newest(s, c.id).Some?)
    && (c.MappingCommand? ==> MappingsAreValid(env, c.mappings))
  }

  // ---------------------------------------------------------------- the new state

  /** The record of the plugin after a command, where there is one. */
  function RecordAfter(s: State, c: Command): Option<Record>
    requires IsPresentAsNeeded(s, c) && !c.MappingCommand? && (c.RollbackCommand? ==> Newest(s, c.id).Some?)
  {
    match c
    case InstallCommand(r, at) => Some(r.(installedAt := at))
    case UpgradeCommand(r, at) =>
      var current := s.plugins[r.pluginId];
      Some(r.(installedAt := at, enabled := current.enabled,
              dataSchemaVersion := if r.manifest.migration.Some? then r.dataSchemaVersion else current.dataSchemaVersion))
    case RollbackCommand(id, _) => Some(Newest(s, id).value.(enabled := s.plugins[id].enabled))
    case EnablementCommand(id, enabled, _) => Some(s.plugins[id].(enabled := enabled))
    case UninstallCommand(_, _, _) => None
  }

  ghost function PluginsAfter(s: State, c: Command): map<PluginId, Record>
    requires IsPresentAsNeeded(s, c) && (c.RollbackCommand? ==> Newest(s, c.id).Some?)
  {
    if c.MappingCommand? then s.plugins
    else if RecordAfter(s, c).None? then s.plugins - {Target(c).value}
    else s.plugins[Target(c).value := RecordAfter(s, c).value]
  }

  /** A list consists of the newest entries of another one, at most so many. */
  ghost predicate AreNewest<T>(some: seq<T>, all: seq<T>, limit: nat)
  {
    |some| == (if |all| <= limit then |all| else limit) && some == all[|all| - |some|..]
  }

  /** The archive: a new plugin has none, and the record that goes is the newest one from then on. */
  ghost predicate ArchiveFollows(s: State, c: Command, t: State)
    requires IsPresentAsNeeded(s, c) && !c.MappingCommand?
  {
    match c
    case InstallCommand(r, _) => PreviousOf(t, r.pluginId) == []
    case UpgradeCommand(r, _) => AreNewest(PreviousOf(t, r.pluginId), PreviousOf(s, r.pluginId) + [s.plugins[r.pluginId]], 3)
    case RollbackCommand(id, _) =>
      PreviousOf(s, id) != []
      && PreviousOf(t, id) == PreviousOf(s, id)[|PreviousOf(s, id)| - 1 := s.plugins[id]]
    case EnablementCommand(id, _, _) => PreviousOf(t, id) == PreviousOf(s, id)
    case UninstallCommand(id, _, _) => AreNewest(PreviousOf(t, id), PreviousOf(s, id) + [s.plugins[id]], 3)
  }

  lemma LastThreeAreNewest(records: seq<Record>)
    ensures AreNewest(LastThree(records), records, 3)
  {
  }

  lemma LastThousandAreNewest(history: seq<HistoryEvent>)
    ensures AreNewest(LastThousand(history), history, 1_000)
  {
  }

  // ---------------------------------------------------------------- success and refusal

  lemma InstallOutcome(env: Env, s: State, r: Record, at: string)
    requires VerifiedRecord(r)
    ensures var c := InstallCommand(r, at);
            var t := InstallPlugin(env, s, r, at);
            && (t.Ok? <==> IsLegal(env, s, c) && Desired(env.sv, PluginsAfter(s, c)))
            && (t.Ok? ==> t.value.plugins == PluginsAfter(s, c))
            && (t == Err(RelationshipsInvalid) <==> IsLegal(env, s, c) && !Desired(env.sv, PluginsAfter(s, c)))
  {
    hide Desired, GrantsFit, IsSafeAssetPath, LastThousand;
  }

  lemma UpgradeOutcome(env: Env, s: State, r: Record, at: string)
    requires VerifiedRecord(r)
    ensures var c := UpgradeCommand(r, at);
            var t := UpgradePlugin(env, s, r, at);
            && (t.Ok? <==> IsLegal(env, s, c) && Desired(env.sv, PluginsAfter(s, c)))
            && (t.Ok? ==> t.value.plugins == PluginsAfter(s, c))
            && (t == Err(RelationshipsInvalid) <==> IsLegal(env, s, c) && !Desired(env.sv, PluginsAfter(s, c)))
  {
    hide Desired, GrantsFit, IsSafeAssetPath, LastThousand, LastThree, ReplacementPhases, PreviousOf;
  }

  lemma RollbackOutcome(env: Env, s: State, id: PluginId, at: string)
    ensures var c := RollbackCommand(id, at);
            var t := RollbackPlugin(env, s, id, at);
            && (t.Ok? <==> IsLegal(env, s, c) && Desired(env.sv, PluginsAfter(s, c)))
            && (t.Ok? ==> t.value.plugins == PluginsAfter(s, c))
            && (t == Err(RelationshipsInvalid) <==> IsLegal(env, s, c) && !Desired(env.sv, PluginsAfter(s, c)))
  {
    hide Desired, LastThousand, LastThree, ReplacementPhases, PreviousOf;
  }

  /**
   A command goes through exactly when it is legal and both plugin sets it leads to resolve; then the plugins
   are what was asked for.
   */
  lemma CommandSucceedsExactly(env: Env, s: State, c: Command)
    requires CommandIsVerified(c)
    ensures Run(env, s, c).Ok? <==> IsLegal(env, s, c) && (c.MappingCommand? || Desired(env.sv, PluginsAfter(s, c)))
    ensures Run(env, s, c).Ok? ==> Run(env, s, c).value.plugins == PluginsAfter(s, c)
    ensures Run(env, s, c) == Err(RelationshipsInvalid) <==>
              IsLegal(env, s, c) && !c.MappingCommand? && !Desired(env.sv, PluginsAfter(s, c))
  {
    hide Desired, InstallPlugin, UpgradePlugin, RollbackPlugin, VerifiedRecord, LastThousand, LastThree, PlanUninstall, PlanEnablement;
    match c
    case InstallCommand(r, at) => InstallOutcome(env, s, r, at);
    case UpgradeCommand(r, at) => UpgradeOutcome(env, s, r, at);
    case RollbackCommand(id, at) => RollbackOutcome(env, s, id, at);
    case _ =>
  }

  /** Which refusal means what. */
  lemma RefusalsMean(env: Env, s: State, c: Command)
    ensures Run(env, s, c) == Err(AlreadyInstalled) <==> c.InstallCommand? && c.record.pluginId in s.plugins
    ensures Run(env, s, c) == Err(NotInstalled) <==> !c.InstallCommand? && Target(c).Some? && Target(c).value !in s.plugins
    ensures Run(env, s, c) == Err(NoRollbackVersion) <==> c.RollbackCommand? && c.id in s.plugins && Newest(s, c.id).None?
    ensures Run(env, s, c) == Err(StorageLayoutIncompatible) <==> IsPresentAsNeeded(s, c) && !LayoutStays(s, c)
    ensures Run(env, s, c) == Err(MigrationSchemaIncompatible) <==>
              !c.RollbackCommand? && IsPresentAsNeeded(s, c) && LayoutStays(s, c) && !SchemaFits(s, c)
    ensures Run(env, s, c) == Err(MigrationRollbackUnsupported) <==>
              c.RollbackCommand? && IsPresentAsNeeded(s, c) && LayoutStays(s, c) && !SchemaFits(s, c)
    ensures Run(env, s, c) == Err(MappingInvalid) <==> c.MappingCommand? && !MappingsAreValid(env, c.mappings)
  {
    hide Desired, LastThousand, LastThree, ReplacementPhases, PreviousOf, MappingsAreValid;
  }

  lemma SettledRest(env: Env, s: State, plugins: map<PluginId, Record>, previous: map<PluginId, seq<Record>>, plan: Plan,
                    event: HistoryEvent, t: State)
    requires Settle(env, s, plugins, previous, plan, event) == Ok(t)
    ensures t.imageMappings == s.imageMappings && t.revision == s.revision + 1 && t.previous == previous
    ensures t.history != [] && AreNewest(t.history, s.history + [t.history[|t.history| - 1]], 1_000)
  {
    hide Desired, LastThousand;
    NewestEvent(s.history, event);
    LastThousandAreNewest(s.history + [event]);
  }

  ghost predicate RestFollows(s: State, t: State)
  {
    && t.imageMappings == s.imageMappings && t.revision == s.revision + 1
    && t.history != [] && AreNewest(t.history, s.history + [t.history[|t.history| - 1]], 1_000)
  }

  lemma InstallResult(env: Env, s: State, r: Record, at: string, t: State)
    requires InstallPlugin(env, s, r, at) == Ok(t)
    ensures RestFollows(s, t) && ArchiveFollows(s, InstallCommand(r, at), t)
  {
    hide Settle;
    var plan := PlanInstall(r).value;
    SettledRest(env, s, s.plugins[r.pluginId := r.(dataSchemaVersion := plan.toDataSchema, installedAt := at)],
                s.previous[r.pluginId := []], plan, HistoryEvent(Install, r.pluginId, None, Some(r.version), None, at), t);
  }

  lemma UpgradeResult(env: Env, s: State, r: Record, at: string, t: State)
    requires UpgradePlugin(env, s, r, at) == Ok(t)
    ensures RestFollows(s, t) && ArchiveFollows(s, UpgradeCommand(r, at), t)
  {
    hide Settle, LastThree, PlanUpgrade, AreNewest;
    var id, current := r.pluginId, s.plugins[r.pluginId];
    var plan := PlanUpgrade(current, r).value;
    LastThreeAreNewest(PreviousOf(s, id) + [current]);
    SettledRest(env, s, s.plugins[id := Replacement(current, r, plan.toDataSchema, at)],
                s.previous[id := LastThree(PreviousOf(s, id) + [current])], plan,
                HistoryEvent(Upgrade, id, Some(current.version), Some(r.version), None, at), t);
  }

  lemma ReplacingTheLast(records: seq<Record>, r: Record)
    requires 0 < |records| <= 3
    ensures LastThree(records[..|records| - 1] + [r]) == records[|records| - 1 := r]
  {
  }

  lemma RollbackResult(env: Env, s: State, id: PluginId, at: string, t: State)
    requires Inv(env, s) && RollbackPlugin(env, s, id, at) == Ok(t)
    ensures RestFollows(s, t) && ArchiveFollows(s, RollbackCommand(id, at), t)
  {
    hide Settle, PlanRollback, AreNewest, RecordFits, Desired, MappingsAreValid, LastThree;
    var current, n := s.plugins[id], |PreviousOf(s, id)| - 1;
    var previous, archived := PreviousOf(s, id)[..n], PreviousOf(s, id)[n];
    assert ArchiveFits(id, PreviousOf(s, id));
    ReplacingTheLast(PreviousOf(s, id), current);
    SettledRest(env, s, s.plugins[id := archived.(enabled := current.enabled)], s.previous[id := LastThree(previous + [current])],
                PlanRollback(current, archived).value, HistoryEvent(Rollback, id, Some(current.version), Some(archived.version), None, at), t);
  }

  lemma UninstallResult(env: Env, s: State, id: PluginId, action: DataAction, at: string, t: State)
    requires UninstallPlugin(env, s, id, action, at) == Ok(t)
    ensures RestFollows(s, t) && ArchiveFollows(s, UninstallCommand(id, action, at), t)
  {
    hide Settle, LastThree, PlanUninstall, AreNewest;
    var current := s.plugins[id];
    LastThreeAreNewest(PreviousOf(s, id) + [current]);
    SettledRest(env, s, s.plugins - {id}, s.previous[id := LastThree(PreviousOf(s, id) + [current])], PlanUninstall(current, action),
                HistoryEvent(Uninstall, id, Some(current.version), None, Some(action), at), t);
  }

  /** What becomes of everything but the plugins. */
  lemma CommandResult(env: Env, s: State, c: Command, t: State)
    requires Inv(env, s) && Run(env, s, c) == Ok(t)
    ensures if c.MappingCommand? then t == s.(imageMappings := c.mappings)
            else IsPresentAsNeeded(s, c) && RestFollows(s, t) && ArchiveFollows(s, c, t)
  {
    hide Inv, InstallPlugin, UpgradePlugin, RollbackPlugin, UninstallPlugin, Settle, PlanEnablement, RestFollows, ArchiveFollows;
    RefusalsMean(env, s, c);
    match c
    case InstallCommand(r, at) => InstallResult(env, s, r, at, t);
    case UpgradeCommand(r, at) => UpgradeResult(env, s, r, at, t);
    case RollbackCommand(id, at) => RollbackResult(env, s, id, at, t);
    case EnablementCommand(id, enabled, at) => EnablementResult(env, s, id, enabled, at, t);
    case UninstallCommand(id, action, at) => UninstallResult(env, s, id, action, at, t);
    case MappingCommand(_) =>
  }

  lemma EnablementResult(env: Env, s: State, id: PluginId, enabled: bool, at: string, t: State)
    requires SetPluginEnabled(env, s, id, enabled, at) == Ok(t)
    ensures RestFollows(s, t) && ArchiveFollows(s, EnablementCommand(id, enabled, at), t)
  {
    hide Settle, AreNewest;
    var r := s.plugins[id];
    SettledRest(env, s, s.plugins[id := r.(enabled := enabled)], s.previous, PlanEnablement(r, enabled),
                HistoryEvent(if enabled then Enable else Disable, id, Some(r.version), Some(r.version), None, at), t);
  }

  /** A plugin is switched on or off and nothing else about it changes. */
  lemma EnablementSwitches(env: Env, s: State, id: PluginId, on: bool, at: string, t: State)
    requires SetPluginEnabled(env, s, id, on, at) == Ok(t)
    ensures id in s.plugins && t.plugins == s.plugins[id := s.plugins[id].(enabled := on)] && t.plugins[id].enabled == on
  {
    hide Desired, LastThousand;
  }

  // ---------------------------------------------------------------- the plan

  /** What the plan of a command promises and asks for, by what was and what comes. */
  ghost predicate PlanFollows(s: State, c: Command, t: State, plan: Plan)
    requires IsPresentAsNeeded(s, c) && !c.MappingCommand?
  {
    var id := Target(c).value;
    && (plan.rollbackSupported <==>
          match c
          case UpgradeCommand(r, _) => id in t.plugins && LeadsBack(t.plugins[id], SchemaOf(s, id))
          case UninstallCommand(_, action, _) => action != Delete
          case _ => true)
    && plan.migrationImage ==
       (match c
        case InstallCommand(r, _) => ImageOf(r.manifest)
        case UpgradeCommand(r, _) => ImageOf(r.manifest)
        case RollbackCommand(_, _) => if SchemaOf(s, id) == SchemaOf(t, id) then None else ImageOf(s.plugins[id].manifest)
        case _ => None)
    && (Drain in plan.phases <==> if c.EnablementCommand? then !c.enabled else IsOn(s, id))
    && (Activate in plan.phases <==> IsOn(t, id) && !c.InstallCommand?)
  }

  lemma ReplacementPhasesOccur(enabled: bool, migrates: bool)
    ensures Drain in ReplacementPhases(enabled, migrates) <==> enabled
    ensures Activate in ReplacementPhases(enabled, migrates) <==> enabled
  {
  }

  lemma ReplacementPlanFollows(env: Env, s: State, c: Command, t: State)
    requires CommandIsVerified(c) && Run(env, s, c) == Ok(t) && (c.UpgradeCommand? || c.RollbackCommand?)
    ensures IsPresentAsNeeded(s, c) && t.lifecyclePlan.Some? && PlanFollows(s, c, t, t.lifecyclePlan.value)
  {
    hide Desired, LastThousand, LastThree, ReplacementPhases, GrantsFit, IsSafeAssetPath, PreviousOf;
    forall enabled, migrates
      ensures Drain in ReplacementPhases(enabled, migrates) <==> enabled
      ensures Activate in ReplacementPhases(enabled, migrates) <==> enabled
    {
      ReplacementPhasesOccur(enabled, migrates);
    }
  }

  /** The plan says truly whether there is a way back, what migrates the data, and whether anything has to be stopped or started. */
  lemma PlansFollow(env: Env, s: State, c: Command, t: State)
    requires CommandIsVerified(c) && Run(env, s, c) == Ok(t) && !c.MappingCommand?
    ensures IsPresentAsNeeded(s, c) && t.lifecyclePlan.Some? && PlanFollows(s, c, t, t.lifecyclePlan.value)
  {
    hide Desired, LastThousand, LastThree, UpgradePlugin, RollbackPlugin, PreviousOf;
    if c.UpgradeCommand? || c.RollbackCommand? {
      ReplacementPlanFollows(env, s, c, t);
    }
  }

  // ---------------------------------------------------------------- the parser

  function FirstSlash(path: string): (i: nat)
    requires '/' in path
    ensures i < |path| && path[i] == '/' && '/' !in path[..i]
  {
    if path[0] == '/' then 0 else 1 + FirstSlash(path[1..])
  }

  /** The path split at its slashes. */
  function Segments(path: string): seq<string>
  {
    if '/' !in path then [path]
    else [path[..FirstSlash(path)]] + Segments(path[FirstSlash(path) + 1..])
  }

  /** Up to the first slash a parent segment can only be the whole first segment. */
  lemma ParentSegmentUpToSlash(path: string, i: nat, j: nat)
    requires i < |path| && path[i] == '/' && '/' !in path[..i] && j <= i && j + 2 <= |path|
    ensures ParentSegmentAt(path, j) <==> j == 0 && path[..i] == ".."
  {
    assert forall k :: 0 <= k < i ==> path[..i][k] == path[k];
    assert path[j..j + 2][0] == path[j] && path[j..j + 2][1] == path[j + 1];
    if ParentSegmentAt(path, j) {
      assert i == 2;
    }
  }

  lemma ParentSegmentBehindSlash(path: string, i: nat, j: nat)
    requires i < |path| && path[i] == '/' && i < j && j + 2 <= |path|
    ensures ParentSegmentAt(path, j) <==> ParentSegmentAt(path[i + 1..], j - i - 1)
  {
    assert path[i + 1..][j - i - 1..j - i + 1] == path[j..j + 2];
  }

  lemma FirstSegment(path: string)
    requires '/' in path
    ensures HasNoParentSegment(path) <==> path[..FirstSlash(path)] != ".." && HasNoParentSegment(path[FirstSlash(path) + 1..])
  {
    hide ParentSegmentAt;
    var i := FirstSlash(path);
    var rest := path[i + 1..];
    forall j: nat | j + 2 <= |path|
      ensures ParentSegmentAt(path, j) <==> if j <= i then j == 0 && path[..i] == ".." else ParentSegmentAt(rest, j - i - 1)
    {
      if j <= i {
        ParentSegmentUpToSlash(path, i, j);
      } else {
        ParentSegmentBehindSlash(path, i, j);
      }
    }
    assert path[..i] == ".." ==> |path[..i]| == 2 && ParentSegmentAt(path, 0);
    if HasNoParentSegment(path) {
      forall k: nat | k + 2 <= |rest| ensures !ParentSegmentAt(rest, k) {
        assert !ParentSegmentAt(path, i + 1 + k);
      }
    }
  }

  /** No parent segment means what splitting the path at its slashes shows. */
  lemma {:induction false} NoParentSegmentExactly(path: string)
    ensures HasNoParentSegment(path) <==> ".." !in Segments(path)
  {
    if '/' in path {
      FirstSegment(path);
      NoParentSegmentExactly(path[FirstSlash(path) + 1..]);
    } else {
      assert path == ".." ==> ParentSegmentAt(path, 0);
      assert forall k :: 0 <= k < |path| ==> path[k] in path;
    }
  }

  ghost predicate NoTwoAreEqual(s: seq<string>)
  {
    forall i, j :: 0 <= i < j < |s| ==> s[i] != s[j]
  }

  lemma {:induction false} DistinctExactly(s: seq<string>)
    ensures |Contents(s)| <= |s|
    ensures |Contents(s)| == |s| <==> NoTwoAreEqual(s)
  {
    if s != [] {
      var last := |s| - 1;
      var init, x := s[..last], s[last];
      assert s == init + [x];
      assert Contents(s) == Contents(init) + {x};
      DistinctExactly(init);
      if x in init {
        assert Contents(s) == Contents(init);
        var i :| 0 <= i < last && init[i] == x;
        assert s[i] == s[last];
      } else {
        assert NoTwoAreEqual(init) ==> NoTwoAreEqual(s);
        assert NoTwoAreEqual(s) ==> NoTwoAreEqual(init);
      }
    }
  }

  /** What a stored record has to be, spelled out. */
  ghost predicate RecordIsSound(id: PluginId, r: Record)
  {
    var m := r.manifest;
    && r.pluginId == id == m.id && r.version == m.version && r.resourceEgressPolicy == m.egressPolicy
    && (m.migration.Some? ==>
          var g := m.migration.value;
          g.image != "" && 0 < g.toSchema == r.dataSchemaVersion && g.fromSchema <= g.toSchema && g.rollbackThrough <= g.toSchema)
    && NoTwoAreEqual(r.grantedPermissions)
    && (forall p :: p in m.requiredPermissions ==> p in r.grantedPermissions)
    && (forall p :: p in r.grantedPermissions ==> p in m.requiredPermissions || p in m.optionalPermissions)
    && |r.stagedAssetPath| >= 2 && r.stagedAssetPath[..2] == "./" && ".." !in Segments(r.stagedAssetPath)
    && '\\' !in r.stagedAssetPath && '\0' !in r.stagedAssetPath
  }

  lemma RecordFitsExactly(id: PluginId, r: Record)
    ensures RecordFits(id, r) <==> RecordIsSound(id, r)
  {
    hide HasNoParentSegment, Segments, NoTwoAreEqual;
    NoParentSegmentExactly(r.stagedAssetPath);
    DistinctExactly(r.grantedPermissions);
    GrantsAreSubsets(r.manifest, r.grantedPermissions);
  }

  lemma GrantsAreSubsets(m: Manifest, granted: seq<string>)
    ensures Contents(m.requiredPermissions) <= Contents(granted) <==> forall p :: p in m.requiredPermissions ==> p in granted
    ensures Contents(granted) <= Contents(m.requiredPermissions) + Contents(m.optionalPermissions) <==>
              forall p :: p in granted ==> p in m.requiredPermissions || p in m.optionalPermissions
  {
    assert forall p :: p in granted <==> p in Contents(granted);
    assert forall p :: p in m.requiredPermissions <==> p in Contents(m.requiredPermissions);
    assert forall p :: p in m.optionalPermissions <==> p in Contents(m.optionalPermissions);
  }

  /** The parser accepts a state exactly when mappings, plan, all records and archives are sound and both plugin sets resolve. */
  lemma ParserAcceptsExactly(env: Env, s: State)
    ensures ParseState(env, s).Ok? <==>
              && (forall source :: source in s.imageMappings ==>
                    env.isReference(source) && env.isReference(s.imageMappings[source])
                    && env.digestOf(source) == env.digestOf(s.imageMappings[source]))
              && (s.lifecyclePlan.Some? ==> InstallerAcceptsPlan(s.lifecyclePlan.value))
              && (forall id :: id in s.plugins ==> RecordIsSound(id, s.plugins[id]))
              && (forall id :: id in s.previous ==> |s.previous[id]| <= 3 && forall r :: r in s.previous[id] ==> RecordIsSound(id, r))
              && Desired(env.sv, s.plugins)
    ensures ParseState(env, s).Ok? ==> ParseState(env, s).value == s
  {
    hide Desired, InstallerAcceptsPlan, RecordFits, RecordIsSound;
    forall id, r ensures RecordFits(id, r) <==> RecordIsSound(id, r) {
      RecordFitsExactly(id, r);
    }
  }
}
