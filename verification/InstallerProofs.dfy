/**
 What every run of the installer keeps, and what a rollback undoes
 (packages/plugin-installer/src/index.ts:292-524, 679-1048).
 */
module InstallerProofs {
  import opened Results
  import opened Manifests
  import opened DependencyGraph
  import opened Resolver
  import opened ConsistentSubsets
  import opened LifecyclePlans
  import opened Installer

  // ---------------------------------------------------------------- the resolver's verdict

  /**
   `Resolves` is the verdict of `resolvePluginRelationshipsV1` on the manifests in any order: no issue is
   reported.
   */
  lemma ResolvesIsTheResolversVerdict(sv: Semver, records: map<PluginId, Record>, ms: seq<Manifest>)
    requires UniqueIds(ms) && Index(ms) == ManifestsOf(records)
    ensures Resolves(sv, records) <==> forall i :: !RelationshipIssue(sv, ms, i)
  {
    var R, byId := RelationshipRules(sv), Index(ms);
    if Resolves(sv, records) {
      forall i ensures !RelationshipIssue(sv, ms, i) {
        ViableMeansNoIssue(sv, ms, i);
      }
    } else {
      var i := IssueOfUnviable(sv, ms);
    }
  }

  lemma ViableMeansNoIssue(sv: Semver, ms: seq<Manifest>, i: Issue)
    requires UniqueIds(ms) && Viable(RelationshipRules(sv), Index(ms))
    ensures !RelationshipIssue(sv, ms, i)
  {
    hide DeclaredIssue, Flagged;
    CyclesAreReported(GraphOf(Index(ms)), RootsOf(ms));
    if i.pluginId in Index(ms) {
      FlaggedIsDeclared(sv, Index(ms), i.pluginId);
      assert !Flagged(RelationshipRules(sv), Index(ms), i.pluginId);
    }
  }

  lemma IssueOfUnviable(sv: Semver, ms: seq<Manifest>) returns (i: Issue)
    requires !Viable(RelationshipRules(sv), Index(ms))
    ensures RelationshipIssue(sv, ms, i)
  {
    hide Flagged, DeclaredIssue, GraphOf, WalkOf, RelationshipIssue;
    if !Acyclic(GraphOf(Index(ms))) {
      i := IssueOfCycle(sv, ms);
    } else {
      var id :| id in Index(ms) && Flagged(RelationshipRules(sv), Index(ms), id);
      i := IssueOfFlagged(sv, ms, id);
    }
  }

  lemma IssueOfCycle(sv: Semver, ms: seq<Manifest>) returns (i: Issue)
    requires !Acyclic(GraphOf(Index(ms)))
    ensures RelationshipIssue(sv, ms, i)
  {
    hide DeclaredIssue, GraphOf, Index, Acyclic;
    CyclesAreReported(GraphOf(Index(ms)), RootsOf(ms));
    var id :| id in WalkOf(ms).cyclic;
    i := CycleIssue(id);
  }

  lemma IssueOfFlagged(sv: Semver, ms: seq<Manifest>, id: PluginId) returns (i: Issue)
    requires id in Index(ms) && Flagged(RelationshipRules(sv), Index(ms), id)
    ensures RelationshipIssue(sv, ms, i)
  {
    hide Flagged, WalkOf, Index;
    FlaggedIsDeclared(sv, Index(ms), id);
    i :| DeclaredIssue(sv, Index(ms), Index(ms)[id], i);
    assert i.pluginId == id;
  }

  lemma FlaggedIsDeclared(sv: Semver, byId: PluginIndex, id: PluginId)
    requires id in byId
    ensures Flagged(RelationshipRules(sv), byId, id) <==> exists i :: DeclaredIssue(sv, byId, byId[id], i)
  {
    var R, m := RelationshipRules(sv), byId[id];
    if d :| d in m.dependencies && Unmet(R, byId, d) {
      assert DeclaredIssue(sv, byId, m, DependencyFinding(sv, byId, m, d).value);
    } else if x :| x in m.conflicts && Clashes(R, byId, x) {
      assert DeclaredIssue(sv, byId, m, ConflictFinding(sv, byId, m, x).value);
    }
  }

  // ---------------------------------------------------------------- plans

  lemma ReplacementPhasesAreExpected(plan: Plan, enabled: bool, migrates: bool)
    requires plan.operation == Upgrade || plan.operation == Rollback
    requires plan.phases == ReplacementPhases(enabled, migrates) && (migrates <==> Truthy(plan.migrationImage))
    ensures ExpectedPhases(plan) == Some(plan.phases)
    ensures plan.phases != [] && plan.phases[|plan.phases| - 1] == Commit && (Migrate in plan.phases <==> migrates)
  {
    hide ReplacementPhases, ReplacePhases;
    ReplacementPhasesAgree(plan, enabled, migrates);
    VariantsDifferInLength(plan, Retain);
    LastIsCommit(enabled, migrates);
  }

  lemma ReplacementPhasesAgree(plan: Plan, enabled: bool, migrates: bool)
    requires migrates <==> Truthy(plan.migrationImage)
    ensures ReplacementPhases(enabled, migrates) == ReplacePhases(plan, enabled)
  {
  }

  lemma LastIsCommit(enabled: bool, migrates: bool)
    ensures var phases := ReplacementPhases(enabled, migrates);
            phases != [] && phases[|phases| - 1] == Commit && (Migrate in phases <==> migrates)
  {
  }

  lemma InstallPlanIsAccepted(r: Record)
    requires MigrationIsWellFormed(r.manifest) && PlanInstall(r).Ok?
    ensures EnvelopeAcceptsPlan(PlanInstall(r).value)
  {
  }

  lemma UpgradePlanIsAccepted(current: Record, target: Record)
    requires MigrationIsWellFormed(target.manifest) && PlanUpgrade(current, target).Ok?
    ensures EnvelopeAcceptsPlan(PlanUpgrade(current, target).value)
  {
    hide ReplacementPhases, ExpectedPhases;
    var plan := PlanUpgrade(current, target).value;
    ReplacementPhasesAreExpected(plan, current.enabled, target.manifest.migration.Some?);
  }

  lemma RollbackPlanIsAccepted(current: Record, target: Record)
    requires MigrationIsWellFormed(current.manifest) && PlanRollback(current, target).Ok?
    ensures EnvelopeAcceptsPlan(PlanRollback(current, target).value)
  {
    hide ReplacementPhases, ExpectedPhases;
    var plan := PlanRollback(current, target).value;
    ReplacementPhasesAreExpected(plan, current.enabled, current.dataSchemaVersion != target.dataSchemaVersion);
  }

  lemma EnablementPlanIsAccepted(r: Record, enabled: bool)
    ensures EnvelopeAcceptsPlan(PlanEnablement(r, enabled))
  {
  }

  lemma UninstallPlanIsAccepted(r: Record, action: DataAction)
    ensures EnvelopeAcceptsPlan(PlanUninstall(r, action))
  {
    var plan := PlanUninstall(r, action);
    assert plan.phases == RemovePhases(action, r.enabled);
    VariantsDifferInLength(plan, action);
  }

  // ---------------------------------------------------------------- what every state satisfies

  ghost predicate Inv(env: Env, s: State)
  {
    && MappingsAreValid(env, s.imageMappings)
    && (forall id :: id in s.plugins ==> RecordFits(id, s.plugins[id]))
    && (forall id :: id in s.previous ==> ArchiveFits(id, s.previous[id]))
    && Desired(env.sv, s.plugins)
    && |s.history| <= 1_000
    && (s.lifecyclePlan.Some? ==> EnvelopeAcceptsPlan(s.lifecyclePlan.value))
  }

  /** New records enter only after verification. */
  predicate CommandIsVerified(c: Command)
  {
    c.InstallCommand? || c.UpgradeCommand? ==> VerifiedRecord(c.record)
  }

  /** Everything but the relationships, which `Settle` checks itself. */
  lemma SettleKeepsInv(env: Env, s: State, plugins: map<PluginId, Record>, previous: map<PluginId, seq<Record>>,
                       plan: Plan, event: HistoryEvent, t: State)
    requires Inv(env, s) && Settle(env, s, plugins, previous, plan, event) == Ok(t)
    requires forall id :: id in plugins ==> RecordFits(id, plugins[id])
    requires forall id :: id in previous ==> ArchiveFits(id, previous[id])
    requires EnvelopeAcceptsPlan(plan)
    ensures Inv(env, t)
  {
    hide RecordFits, ArchiveFits, EnvelopeAcceptsPlan, Desired;
  }

  lemma ArchivingFits(id: PluginId, records: seq<Record>, r: Record)
    requires (forall x :: x in records ==> RecordFits(id, x)) && RecordFits(id, r)
    ensures ArchiveFits(id, LastThree(records + [r]))
  {
    hide RecordFits;
    forall x | x in LastThree(records + [r]) ensures RecordFits(id, x) {
      assert x in records + [r];
    }
  }

  lemma InstallKeepsInv(env: Env, s: State, r: Record, at: string, t: State)
    requires Inv(env, s) && VerifiedRecord(r) && InstallPlugin(env, s, r, at) == Ok(t)
    ensures Inv(env, t)
  {
    hide GrantsFit, IsSafeAssetPath, MigrationIsWellFormed, Desired, Settle, EnvelopeAcceptsPlan;
    InstallPlanIsAccepted(r);
    var plan := PlanInstall(r).value;
    var installed := r.(dataSchemaVersion := plan.toDataSchema, installedAt := at);
    SettleKeepsInv(env, s, s.plugins[r.pluginId := installed], s.previous[r.pluginId := []], plan,
                   HistoryEvent(Install, r.pluginId, None, Some(r.version), None, at), t);
  }

  lemma UpgradeKeepsInv(env: Env, s: State, r: Record, at: string, t: State)
    requires Inv(env, s) && VerifiedRecord(r) && UpgradePlugin(env, s, r, at) == Ok(t)
    ensures Inv(env, t)
  {
    hide GrantsFit, IsSafeAssetPath, MigrationIsWellFormed, Desired, Settle, EnvelopeAcceptsPlan, LastThree, ArchiveFits, ReplacementPhases;
    var id, current := r.pluginId, s.plugins[r.pluginId];
    UpgradePlanIsAccepted(current, r);
    assert forall x :: x in PreviousOf(s, id) ==> RecordFits(id, x) by { ArchivedFit(env, s, id); }
    ArchivingFits(id, PreviousOf(s, id), current);
    var plan := PlanUpgrade(current, r).value;
    SettleKeepsInv(env, s, s.plugins[id := Replacement(current, r, plan.toDataSchema, at)],
                   s.previous[id := LastThree(PreviousOf(s, id) + [current])], plan,
                   HistoryEvent(Upgrade, id, Some(current.version), Some(r.version), None, at), t);
  }

  lemma ArchivedFit(env: Env, s: State, id: PluginId)
    requires Inv(env, s)
    ensures forall x :: x in PreviousOf(s, id) ==> RecordFits(id, x)
  {
    hide RecordFits;
    assert id in s.previous ==> ArchiveFits(id, s.previous[id]);
  }

  lemma RollbackKeepsInv(env: Env, s: State, id: PluginId, at: string, t: State)
    requires Inv(env, s) && RollbackPlugin(env, s, id, at) == Ok(t)
    ensures Inv(env, t)
  {
    hide GrantsFit, IsSafeAssetPath, MigrationIsWellFormed, Desired, Settle, EnvelopeAcceptsPlan, LastThree, ArchiveFits, ReplacementPhases;
    var current, n := s.plugins[id], |PreviousOf(s, id)| - 1;
    var previous, archived := PreviousOf(s, id)[..n], PreviousOf(s, id)[n];
    ArchivedFit(env, s, id);
    assert RecordFits(id, archived);
    RollbackPlanIsAccepted(current, archived);
    ArchivingFits(id, previous, current);
    SettleKeepsInv(env, s, s.plugins[id := archived.(enabled := current.enabled)],
                   s.previous[id := LastThree(previous + [current])], PlanRollback(current, archived).value,
                   HistoryEvent(Rollback, id, Some(current.version), Some(archived.version), None, at), t);
  }

  lemma EnablementKeepsInv(env: Env, s: State, id: PluginId, enabled: bool, at: string, t: State)
    requires Inv(env, s) && SetPluginEnabled(env, s, id, enabled, at) == Ok(t)
    ensures Inv(env, t)
  {
    hide GrantsFit, IsSafeAssetPath, MigrationIsWellFormed, Desired, Settle, EnvelopeAcceptsPlan, ArchiveFits;
    var r := s.plugins[id];
    EnablementPlanIsAccepted(r, enabled);
    SettleKeepsInv(env, s, s.plugins[id := r.(enabled := enabled)], s.previous, PlanEnablement(r, enabled),
                   HistoryEvent(if enabled then Enable else Disable, id, Some(r.version), Some(r.version), None, at), t);
  }

  lemma UninstallKeepsInv(env: Env, s: State, id: PluginId, action: DataAction, at: string, t: State)
    requires Inv(env, s) && UninstallPlugin(env, s, id, action, at) == Ok(t)
    ensures Inv(env, t)
  {
    hide RecordFits, Desired, Settle, EnvelopeAcceptsPlan, LastThree, ArchiveFits;
    var current := s.plugins[id];
    UninstallPlanIsAccepted(current, action);
    ArchivedFit(env, s, id);
    ArchivingFits(id, PreviousOf(s, id), current);
    SettleKeepsInv(env, s, s.plugins - {id}, s.previous[id := LastThree(PreviousOf(s, id) + [current])], PlanUninstall(current, action),
                   HistoryEvent(Uninstall, id, Some(current.version), None, Some(action), at), t);
  }

  lemma CommandKeepsInv(env: Env, s: State, c: Command, t: State)
    requires Inv(env, s) && CommandIsVerified(c) && Run(env, s, c) == Ok(t)
    ensures Inv(env, t)
  {
    hide RecordFits, Desired, ArchiveFits, EnvelopeAcceptsPlan, Settle, VerifiedRecord, PlanInstall, PlanUpgrade, PlanRollback;
    match c
    case InstallCommand(r, at) => InstallKeepsInv(env, s, r, at, t);
    case UpgradeCommand(r, at) => UpgradeKeepsInv(env, s, r, at, t);
    case RollbackCommand(id, at) => RollbackKeepsInv(env, s, id, at, t);
    case EnablementCommand(id, enabled, at) => EnablementKeepsInv(env, s, id, enabled, at, t);
    case UninstallCommand(id, action, at) => UninstallKeepsInv(env, s, id, action, at, t);
    case MappingCommand(_) =>
  }

  // ---------------------------------------------------------------- runs

  ghost predicate StepAt(env: Env, states: seq<State>, commands: seq<Command>, i: int)
    requires 0 <= i < |commands| && |states| == |commands| + 1
  {
    CommandIsVerified(commands[i]) && Run(env, states[i], commands[i]) == Ok(states[i + 1])
  }

  /** States reached from the empty one by successful commands. */
  ghost predicate IsHistory(env: Env, states: seq<State>, commands: seq<Command>)
  {
    && |states| == |commands| + 1 && states[0] == EMPTY_STATE
    && forall i :: 0 <= i < |commands| ==> StepAt(env, states, commands, i)
  }

  /** How many of the commands are lifecycle operations: all but the image mappings. */
  function Operations(commands: seq<Command>): nat
  {
    if commands == [] then 0
    else Operations(commands[..|commands| - 1]) + (if commands[|commands| - 1].MappingCommand? then 0 else 1)
  }

  lemma CommandCounts(env: Env, s: State, c: Command, t: State)
    requires Run(env, s, c) == Ok(t)
    ensures t.revision == s.revision + (if c.MappingCommand? then 0 else 1)
  {
    hide Desired, PlanInstall, PlanUpgrade, PlanRollback, PlanEnablement, PlanUninstall;
  }

  lemma EmptyStateIsSound(env: Env)
    ensures Inv(env, EMPTY_STATE)
  {
    NoPluginsResolve(env.sv, map[]);
    assert EnabledOf(map[]) == map[];
  }

  lemma NoPluginsResolve(sv: Semver, records: map<PluginId, Record>)
    requires records == map[]
    ensures Resolves(sv, records)
  {
    var g := GraphOf(ManifestsOf(records));
    forall p ensures !IsCycle(g, p) {
      assert |p| >= 2 ==> !Edge(g, p[0], p[1]);
    }
  }

  /** Every reachable state satisfies the invariant, and its revision is the number of operations. */
  lemma {:induction false} ReachableIsSound(env: Env, states: seq<State>, commands: seq<Command>, n: nat)
    requires IsHistory(env, states, commands) && n < |states|
    ensures Inv(env, states[n])
    ensures states[n].revision == Operations(commands[..n])
  {
    hide Inv, Run;
    if n == 0 {
      EmptyStateIsSound(env);
    } else {
      ReachableIsSound(env, states, commands, n - 1);
      assert StepAt(env, states, commands, n - 1);
      CommandKeepsInv(env, states[n - 1], commands[n - 1], states[n]);
      CommandCounts(env, states[n - 1], commands[n - 1], states[n]);
      assert commands[..n][..n - 1] == commands[..n - 1];
    }
  }

  /** The parser returns every reachable state unchanged, and both validators accept its plan. */
  lemma ReachableIsParsedUnchanged(env: Env, states: seq<State>, commands: seq<Command>, n: nat)
    requires IsHistory(env, states, commands) && n < |states|
    ensures ParseState(env, states[n]) == Ok(states[n])
    ensures states[n].lifecyclePlan.Some? ==>
              EnvelopeAcceptsPlan(states[n].lifecyclePlan.value) && InstallerAcceptsPlan(states[n].lifecyclePlan.value)
    ensures |states[n].history| <= 1_000 && forall id :: id in states[n].previous ==> |states[n].previous[id]| <= 3
  {
    hide IsHistory, RecordFits, Desired, EnvelopeAcceptsPlan, InstallerAcceptsPlan;
    ReachableIsSound(env, states, commands, n);
    if states[n].lifecyclePlan.Some? {
      ValidatorsDifferOnlyInVersions(states[n].lifecyclePlan.value);
    }
    forall id | id in states[n].previous ensures |states[n].previous[id]| <= 3 {
      assert ArchiveFits(id, states[n].previous[id]);
    }
  }

  /** In a desired state an enabled plugin finds its required dependencies enabled, in versions it admits. */
  lemma RequiredPluginsAreEnabled(env: Env, s: State, id: PluginId, d: Dependency)
    requires Inv(env, s) && id in s.plugins && s.plugins[id].enabled
    requires d in s.plugins[id].manifest.dependencies && !d.optional
    ensures d.id in s.plugins && s.plugins[d.id].enabled
    ensures env.sv.RangeMatches(s.plugins[d.id].manifest.version, d.version) == Some(true)
  {
    hide RecordFits, ArchiveFits, EnvelopeAcceptsPlan, MappingsAreValid;
    var byId := ManifestsOf(EnabledOf(s.plugins));
    assert id in byId && byId[id] == s.plugins[id].manifest;
    assert !Flagged(RelationshipRules(env.sv), byId, id);
    assert !Unmet(RelationshipRules(env.sv), byId, d);
  }

  // ---------------------------------------------------------------- what an operation says it did

  function Target(c: Command): Option<PluginId>
  {
    match c
    case InstallCommand(r, _) => Some(r.pluginId)
    case UpgradeCommand(r, _) => Some(r.pluginId)
    case RollbackCommand(id, _) => Some(id)
    case EnablementCommand(id, _, _) => Some(id)
    case UninstallCommand(id, _, _) => Some(id)
    case MappingCommand(_) => None
  }

  /** An operation leaves every other plugin and its archive alone. */
  lemma OthersAreUntouched(env: Env, s: State, c: Command, t: State, id: PluginId)
    requires Run(env, s, c) == Ok(t) && Target(c) != Some(id)
    ensures (id in t.plugins <==> id in s.plugins) && (id in s.plugins ==> t.plugins[id] == s.plugins[id])
    ensures PreviousOf(t, id) == PreviousOf(s, id)
  {
    hide Desired, PlanInstall, PlanUpgrade, PlanRollback, PlanEnablement, PlanUninstall, LastThree, LastThousand;
  }

  function VersionOf(s: State, id: PluginId): Option<string>
  {
    if id in s.plugins then Some(s.plugins[id].version) else None
  }

  function SchemaOf(s: State, id: PluginId): nat
  {
    if id in s.plugins then s.plugins[id].dataSchemaVersion else 0
  }

  function OperationOf(c: Command): Operation
    requires !c.MappingCommand?
  {
    match c
    case InstallCommand(_, _) => Install
    case UpgradeCommand(_, _) => Upgrade
    case RollbackCommand(_, _) => Rollback
    case EnablementCommand(_, enabled, _) => if enabled then Enable else Disable
    case UninstallCommand(_, _, _) => Uninstall
  }

  function IsOn(s: State, id: PluginId): bool
  {
    id in s.plugins && s.plugins[id].enabled
  }

  /** Only enabling and disabling switch a plugin; what is new is off. */
  predicate IsSwitchedAsAsked(s: State, c: Command, t: State)
    requires !c.MappingCommand?
  {
    match c
    case InstallCommand(r, _) => !IsOn(t, r.pluginId)
    case UpgradeCommand(r, _) => IsOn(t, r.pluginId) == IsOn(s, r.pluginId)
    case RollbackCommand(id, _) => IsOn(t, id) == IsOn(s, id)
    case EnablementCommand(id, enabled, _) => IsOn(t, id) == enabled
    case UninstallCommand(id, _, _) => id !in t.plugins
  }

  /**
   The plan and the newest history event name the operation, what is to become of the data, and the versions
   and data schemas before and after.
   */
  ghost predicate Describes(s: State, c: Command, t: State)
    requires !c.MappingCommand?
  {
    && t.lifecyclePlan.Some? && t.history != []
    && var id, plan, event := Target(c).value, t.lifecyclePlan.value, t.history[|t.history| - 1];
       && plan.pluginId == event.pluginId == id
       && plan.operation == event.operation == OperationOf(c)
       && plan.dataAction == event.dataAction == (if c.UninstallCommand? then Some(c.action) else None)
       && plan.fromVersion == event.fromVersion == VersionOf(s, id)
       && plan.toVersion == event.toVersion == VersionOf(t, id)
       && plan.fromDataSchema == SchemaOf(s, id) && plan.toDataSchema == SchemaOf(t, id)
       && event.occurredAt == c.at
  }

  lemma NewestEvent(history: seq<HistoryEvent>, event: HistoryEvent)
    ensures LastThousand(history + [event]) != []
    ensures LastThousand(history + [event])[|LastThousand(history + [event])| - 1] == event
  {
  }

  lemma RollbackDescribes(env: Env, s: State, id: PluginId, at: string, t: State)
    requires Inv(env, s) && RollbackPlugin(env, s, id, at) == Ok(t)
    ensures Describes(s, RollbackCommand(id, at), t) && IsSwitchedAsAsked(s, RollbackCommand(id, at), t)
  {
    hide Desired, LastThree, LastThousand, MappingsAreValid, EnvelopeAcceptsPlan, GrantsFit, IsSafeAssetPath, ReplacementPhases;
    var current, archived := s.plugins[id], PreviousOf(s, id)[|PreviousOf(s, id)| - 1];
    ArchivedFit(env, s, id);
    NewestEvent(s.history, HistoryEvent(Rollback, id, Some(current.version), Some(archived.version), None, at));
  }

  lemma UpgradeDescribes(env: Env, s: State, r: Record, at: string, t: State)
    requires VerifiedRecord(r) && UpgradePlugin(env, s, r, at) == Ok(t)
    ensures Describes(s, UpgradeCommand(r, at), t) && IsSwitchedAsAsked(s, UpgradeCommand(r, at), t)
  {
    hide Desired, LastThree, LastThousand, MappingsAreValid, GrantsFit, IsSafeAssetPath, ReplacementPhases, PreviousOf;
    NewestEvent(s.history, HistoryEvent(Upgrade, r.pluginId, Some(s.plugins[r.pluginId].version), Some(r.version), None, at));
  }

  lemma OtherOperationDescribes(env: Env, s: State, c: Command, t: State)
    requires Inv(env, s) && CommandIsVerified(c) && Run(env, s, c) == Ok(t)
    requires !c.MappingCommand? && !c.UpgradeCommand? && !c.RollbackCommand?
    ensures Describes(s, c, t) && IsSwitchedAsAsked(s, c, t)
  {
    hide Desired, LastThree, LastThousand, MappingsAreValid, GrantsFit, IsSafeAssetPath, PreviousOf, ArchiveFits, EnvelopeAcceptsPlan;
    match c {
      case InstallCommand(r, at) => NewestEvent(s.history, HistoryEvent(Install, r.pluginId, None, Some(r.version), None, at));
      case EnablementCommand(id, enabled, at) =>
        var version := Some(s.plugins[id].version);
        NewestEvent(s.history, HistoryEvent(if enabled then Enable else Disable, id, version, version, None, at));
      case UninstallCommand(id, action, at) =>
        NewestEvent(s.history, HistoryEvent(Uninstall, id, Some(s.plugins[id].version), None, Some(action), at));
    }
  }

  /** After every operation the plan to execute and the history say what the operation changed. */
  lemma OperationsAreDescribed(env: Env, s: State, c: Command, t: State)
    requires Inv(env, s) && CommandIsVerified(c) && Run(env, s, c) == Ok(t) && !c.MappingCommand?
    ensures Describes(s, c, t) && IsSwitchedAsAsked(s, c, t)
  {
    hide Inv, UpgradePlugin, RollbackPlugin, Settle, VerifiedRecord, Describes, IsSwitchedAsAsked, PlanInstall, PlanUninstall, PlanEnablement;
    match c {
      case UpgradeCommand(r, at) => UpgradeDescribes(env, s, r, at, t);
      case RollbackCommand(id, at) => RollbackDescribes(env, s, id, at, t);
      case _ => OtherOperationDescribes(env, s, c, t);
    }
  }

  /** A freshly installed plugin has nothing to roll back to, even where an earlier installation left an archive. */
  lemma InstallForgetsTheArchive(env: Env, s: State, r: Record, at: string, t: State, later: string)
    requires InstallPlugin(env, s, r, at) == Ok(t)
    ensures RollbackPlugin(env, t, r.pluginId, later) == Err(NoRollbackVersion)
  {
    hide Desired, PlanInstall, LastThousand;
  }

  // ---------------------------------------------------------------- what a rollback undoes

  /** Whether the rollback right after an upgrade is legal is decided by the upgrade's own plan. */
  lemma RollbackPlanMirrorsUpgrade(current: Record, target: Record, at: string)
    requires MigrationIsWellFormed(target.manifest) && PlanUpgrade(current, target).Ok?
    ensures var plan := PlanUpgrade(current, target).value;
            var back := PlanRollback(Replacement(current, target, plan.toDataSchema, at), current);
            (back.Ok? <==> plan.rollbackSupported) && (back.Err? ==> back.error == MigrationRollbackUnsupported)
  {
    hide ReplacementPhases;
  }

  /**
   After an upgrade, an immediate rollback succeeds exactly when the upgrade's plan said so, and then every
   plugin is as it was.
   */
  lemma RollbackUndoesUpgrade(env: Env, s: State, r: Record, at: string, t: State, later: string)
    requires Inv(env, s) && VerifiedRecord(r) && UpgradePlugin(env, s, r, at) == Ok(t)
    ensures t.lifecyclePlan.Some?
    ensures RollbackPlugin(env, t, r.pluginId, later).Ok? <==> t.lifecyclePlan.value.rollbackSupported
    ensures RollbackPlugin(env, t, r.pluginId, later).Ok? ==>
              var u := RollbackPlugin(env, t, r.pluginId, later).value;
              && u.plugins == s.plugins
              && u.previous.Keys == t.previous.Keys
              && (forall id :: id in s.previous && id != r.pluginId ==> id in u.previous && u.previous[id] == s.previous[id])
              && u.previous[r.pluginId] != [] && u.previous[r.pluginId][|u.previous[r.pluginId]| - 1] == t.plugins[r.pluginId]
    ensures RollbackPlugin(env, t, r.pluginId, later).Err? ==>
              RollbackPlugin(env, t, r.pluginId, later).error == MigrationRollbackUnsupported
  {
    hide Desired, PlanUpgrade, PlanRollback, EnvelopeAcceptsPlan, MappingsAreValid, ArchiveFits, GrantsFit, IsSafeAssetPath, LastThousand;
    var id, current := r.pluginId, s.plugins[r.pluginId];
    RollbackPlanMirrorsUpgrade(current, r, at);
    UpgradeArchives(env, s, r, at, t);
    UndoingRestores(s.plugins, t.plugins, id, t.plugins[id]);
  }

  lemma UndoingRestores(before: map<PluginId, Record>, after: map<PluginId, Record>, id: PluginId, r: Record)
    requires id in before && after == before[id := r] && r.enabled == before[id].enabled
    ensures after[id := before[id].(enabled := r.enabled)] == before
  {
    assert before[id].(enabled := r.enabled) == before[id];
  }

  /** An upgrade leaves the record it replaced on top of the archive. */
  lemma UpgradeArchives(env: Env, s: State, r: Record, at: string, t: State)
    requires UpgradePlugin(env, s, r, at) == Ok(t)
    ensures var id := r.pluginId;
            && PreviousOf(t, id) != [] && PreviousOf(t, id)[|PreviousOf(t, id)| - 1] == s.plugins[id]
            && t.plugins == s.plugins[id := Replacement(s.plugins[id], r, PlanUpgrade(s.plugins[id], r).value.toDataSchema, at)]
            && t.lifecyclePlan == Some(PlanUpgrade(s.plugins[id], r).value)
            && forall other :: other in s.previous && other != id ==> other in t.previous && t.previous[other] == s.previous[other]
  {
    hide Desired, PlanUpgrade;
  }

  /** A rollback leaves the record it replaced on top of the archive. */
  lemma RollbackArchives(env: Env, s: State, id: PluginId, at: string, t: State)
    requires RollbackPlugin(env, s, id, at) == Ok(t)
    ensures id in s.plugins && id in t.plugins && PreviousOf(t, id) != []
    ensures PreviousOf(t, id)[|PreviousOf(t, id)| - 1] == s.plugins[id]
    ensures t.plugins == s.plugins[id := t.plugins[id]] && t.plugins[id].enabled == s.plugins[id].enabled
    ensures t.plugins[id].dataSchemaVersion <= s.plugins[id].dataSchemaVersion
    ensures t.plugins[id].storageLayout == s.plugins[id].storageLayout
  {
    hide Desired, LastThousand, ReplacementPhases;
  }

  /**
   Rolling back a rollback brings the newer version back exactly when the first rollback changed no schema;
   there is no way forward over a migration.
   */
  lemma RollbackUndoesRollback(env: Env, s: State, id: PluginId, at: string, t: State, later: string)
    requires Inv(env, s) && RollbackPlugin(env, s, id, at) == Ok(t)
    ensures id in s.plugins && id in t.plugins
    ensures var back := RollbackPlugin(env, t, id, later);
            && (back.Ok? <==> t.plugins[id].dataSchemaVersion == s.plugins[id].dataSchemaVersion)
            && (back.Ok? ==> back.value.plugins == s.plugins)
  {
    hide RecordFits, Desired, MappingsAreValid, ReplacementPhases, ArchiveFits, EnvelopeAcceptsPlan, LastThree, LastThousand, PreviousOf;
    RollbackArchives(env, s, id, at, t);
    UndoingRestores(s.plugins, t.plugins, id, t.plugins[id]);
  }

  /** Enabling a plugin again right after disabling it always works, and restores every plugin. */
  lemma EnableUndoesDisable(env: Env, s: State, id: PluginId, at: string, t: State, later: string)
    requires Inv(env, s) && SetPluginEnabled(env, s, id, false, at) == Ok(t) && s.plugins[id].enabled
    ensures SetPluginEnabled(env, t, id, true, later).Ok?
    ensures SetPluginEnabled(env, t, id, true, later).value.plugins == s.plugins
  {
    hide RecordFits, Desired, ArchiveFits, EnvelopeAcceptsPlan;
    assert t.plugins[id := t.plugins[id].(enabled := true)] == s.plugins;
  }
}
