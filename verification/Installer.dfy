/**
 The installer's desired state (packages/plugin-installer/src/index.ts:395-1048): planners, the five
 operations on a copied state, and the parser of a stored state.

 Records are what `verifyPluginInstallInputV1` returns; the byte-level checks of a bundle are not part of
 this model. The storage declarations of a record are kept in their normalized text.
 */
module Installer {
  import opened Results
  import opened Manifests
  import opened Resolver
  import opened ConsistentSubsets
  import opened LifecyclePlans

  datatype InstallerError =
    | AlreadyInstalled
    | NotInstalled
    | NoRollbackVersion
    | MigrationSchemaIncompatible
    | MigrationRollbackUnsupported
    | StorageLayoutIncompatible
    | RelationshipsInvalid
    | MappingInvalid
    | StateInvalid

  datatype Record = Record(
    pluginId: PluginId,
    version: string,
    bundle: string,
    manifest: Manifest,
    resourceEgressPolicy: string,
    storageLayout: string,
    grantedPermissions: seq<string>,
    stagedAssetPath: string,
    dataSchemaVersion: nat,
    enabled: bool,
    installedAt: string)

  datatype HistoryEvent = HistoryEvent(
    operation: Operation,
    pluginId: PluginId,
    fromVersion: Option<string>,
    toVersion: Option<string>,
    dataAction: Option<DataAction>,
    occurredAt: string)

  datatype State = State(
    revision: nat,
    imageMappings: map<string, string>,
    plugins: map<PluginId, Record>,
    previous: map<PluginId, seq<Record>>,
    history: seq<HistoryEvent>,
    lifecyclePlan: Option<Plan>)

  /** Semver, and what an OCI reference by digest looks like. */
  datatype Env = Env(sv: Semver, isReference: string -> bool, digestOf: string -> string)

  const EMPTY_STATE := State(0, map[], map[], map[], [], None)

  // ---------------------------------------------------------------- planners

  function TargetSchema(m: Manifest, current: nat): nat
  {
    if m.migration.Some? then m.migration.value.toSchema else current
  }

  function ImageOf(m: Manifest): Option<string>
  {
    if m.migration.Some? then Some(m.migration.value.image) else None
  }

  function PhasesIf(condition: bool, phases: seq<Phase>): seq<Phase>
  {
    if condition then phases else []
  }

  function PlanInstall(r: Record): Result<Plan, InstallerError>
  {
    var migration := r.manifest.migration;
    if migration.Some? && migration.value.fromSchema != 0 then Err(MigrationSchemaIncompatible)
    else
      Ok(Plan(Install, r.pluginId, None, Some(r.version), 0, TargetSchema(r.manifest, 0), ImageOf(r.manifest), true,
              [Stage] + PhasesIf(migration.Some?, [Migrate]) + [Commit], None))
  }

  function ReplacementPhases(enabled: bool, migrates: bool): seq<Phase>
  {
    [Stage] + PhasesIf(enabled, [Drain, Deactivate]) + [Checkpoint] + PhasesIf(migrates, [Migrate])
    + PhasesIf(enabled, [Activate, Ready]) + [Commit]
  }

  function PlanUpgrade(current: Record, target: Record): Result<Plan, InstallerError>
  {
    var migration := target.manifest.migration;
    if current.storageLayout != target.storageLayout then Err(StorageLayoutIncompatible)
    else if migration.Some? && migration.value.fromSchema != current.dataSchemaVersion then Err(MigrationSchemaIncompatible)
    else
      var to := TargetSchema(target.manifest, current.dataSchemaVersion);
      var rollbackSupported :=
        to == current.dataSchemaVersion
        || (migration.Some? && current.dataSchemaVersion >= migration.value.rollbackThrough);
      Ok(Plan(Upgrade, target.pluginId, Some(current.version), Some(target.version), current.dataSchemaVersion, to,
              ImageOf(target.manifest), rollbackSupported, ReplacementPhases(current.enabled, migration.Some?), None))
  }

  function PlanRollback(current: Record, target: Record): Result<Plan, InstallerError>
  {
    var migration := current.manifest.migration;
    var schemaChanged := current.dataSchemaVersion != target.dataSchemaVersion;
    if current.storageLayout != target.storageLayout then Err(StorageLayoutIncompatible)
    else if schemaChanged
        && (migration.None?
            || target.dataSchemaVersion < migration.value.rollbackThrough
            || target.dataSchemaVersion > current.dataSchemaVersion) then Err(MigrationRollbackUnsupported)
    else
      Ok(Plan(Rollback, current.pluginId, Some(current.version), Some(target.version), current.dataSchemaVersion,
              target.dataSchemaVersion, if schemaChanged then ImageOf(current.manifest) else None, true,
              ReplacementPhases(current.enabled, schemaChanged), None))
  }

  function PlanEnablement(r: Record, enabled: bool): Plan
  {
    Plan(if enabled then Enable else Disable, r.pluginId, Some(r.version), Some(r.version), r.dataSchemaVersion,
         r.dataSchemaVersion, None, true,
         if enabled then [Activate, Ready, Commit] else [Drain, Deactivate, Commit], None)
  }

  function PlanUninstall(r: Record, action: DataAction): Plan
  {
    Plan(Uninstall, r.pluginId, Some(r.version), None, r.dataSchemaVersion, 0, None, action != Delete,
         PhasesIf(r.enabled, [Drain, Deactivate]) + [DataPhase(action), Remove, Commit], Some(action))
  }

  // ---------------------------------------------------------------- desired state

  /** Relationships only: every plugin runs on the host as far as the installer is concerned. */
  function RelationshipRules(sv: Semver): Rules
  {
    Rules((m: Manifest) => true,
          (version: string, range: string) => sv.RangeMatches(version, range) == Some(true),
          (version: string, range: string) => sv.RangeMatches(version, range) != Some(false))
  }

  function ManifestsOf(records: map<PluginId, Record>): PluginIndex
  {
    map id | id in records :: records[id].manifest
  }

  function EnabledOf(records: map<PluginId, Record>): map<PluginId, Record>
  {
    map id | id in records && records[id].enabled :: records[id]
  }

  ghost predicate Resolves(sv: Semver, records: map<PluginId, Record>)
  {
    Viable(RelationshipRules(sv), ManifestsOf(records))
  }

  /** `assertDesiredPluginState`: the installed and the enabled plugins resolve, each set by itself. */
  ghost predicate Desired(sv: Semver, records: map<PluginId, Record>)
  {
    Resolves(sv, records) && Resolves(sv, EnabledOf(records))
  }

  // ---------------------------------------------------------------- operations

  function LastThree(records: seq<Record>): seq<Record>
  {
    if |records| <= 3 then records else records[|records| - 3..]
  }

  function LastThousand(history: seq<HistoryEvent>): seq<HistoryEvent>
  {
    if |history| <= 1_000 then history else history[|history| - 1_000..]
  }

  function PreviousOf(s: State, id: PluginId): seq<Record>
  {
    if id in s.previous then s.previous[id] else []
  }

  /** The common end of every operation. */
  ghost function Settle(env: Env, s: State, plugins: map<PluginId, Record>, previous: map<PluginId, seq<Record>>,
                        plan: Plan, event: HistoryEvent): Result<State, InstallerError>
  {
    if !Desired(env.sv, plugins) then Err(RelationshipsInvalid)
    else Ok(State(s.revision + 1, s.imageMappings, plugins, previous, LastThousand(s.history + [event]), Some(plan)))
  }

  ghost function InstallPlugin(env: Env, s: State, r: Record, at: string): Result<State, InstallerError>
  {
    if r.pluginId in s.plugins then Err(AlreadyInstalled)
    else
      var plan := PlanInstall(r);
      if plan.Err? then Err(plan.error)
      else
        var installed := r.(dataSchemaVersion := plan.value.toDataSchema, installedAt := at);
        Settle(env, s, s.plugins[r.pluginId := installed], s.previous[r.pluginId := []], plan.value,
               HistoryEvent(Install, r.pluginId, None, Some(r.version), None, at))
  }

  function Replacement(current: Record, target: Record, schema: nat, at: string): Record
  {
    target.(dataSchemaVersion := schema, enabled := current.enabled, installedAt := at)
  }

  ghost function UpgradePlugin(env: Env, s: State, r: Record, at: string): Result<State, InstallerError>
  {
    var id := r.pluginId;
    if id !in s.plugins then Err(NotInstalled)
    else
      var current := s.plugins[id];
      var plan := PlanUpgrade(current, r);
      if plan.Err? then Err(plan.error)
      else
        Settle(env, s, s.plugins[id := Replacement(current, r, plan.value.toDataSchema, at)],
               s.previous[id := LastThree(PreviousOf(s, id) + [current])], plan.value,
               HistoryEvent(Upgrade, id, Some(current.version), Some(r.version), None, at))
  }

  ghost function RollbackPlugin(env: Env, s: State, id: PluginId, at: string): Result<State, InstallerError>
  {
    if id !in s.plugins then Err(NotInstalled)
    else if PreviousOf(s, id) == [] then Err(NoRollbackVersion)
    else
      var current := s.plugins[id];
      var previous := PreviousOf(s, id)[..|PreviousOf(s, id)| - 1];
      var archived := PreviousOf(s, id)[|PreviousOf(s, id)| - 1];
      var plan := PlanRollback(current, archived);
      if plan.Err? then Err(plan.error)
      else
        Settle(env, s, s.plugins[id := archived.(enabled := current.enabled)],
               s.previous[id := LastThree(previous + [current])], plan.value,
               HistoryEvent(Rollback, id, Some(current.version), Some(archived.version), None, at))
  }

  ghost function SetPluginEnabled(env: Env, s: State, id: PluginId, enabled: bool, at: string): Result<State, InstallerError>
  {
    if id !in s.plugins then Err(NotInstalled)
    else
      var r := s.plugins[id];
      Settle(env, s, s.plugins[id := r.(enabled := enabled)], s.previous, PlanEnablement(r, enabled),
             HistoryEvent(if enabled then Enable else Disable, id, Some(r.version), Some(r.version), None, at))
  }

  ghost function UninstallPlugin(env: Env, s: State, id: PluginId, action: DataAction, at: string): Result<State, InstallerError>
  {
    if id !in s.plugins then Err(NotInstalled)
    else
      var current := s.plugins[id];
      Settle(env, s, s.plugins - {id}, s.previous[id := LastThree(PreviousOf(s, id) + [current])], PlanUninstall(current, action),
             HistoryEvent(Uninstall, id, Some(current.version), None, Some(action), at))
  }

  predicate MappingsAreValid(env: Env, mappings: map<string, string>)
  {
    forall source :: source in mappings ==>
      && env.isReference(source) && env.isReference(mappings[source])
      && env.digestOf(source) == env.digestOf(mappings[source])
  }

  function WithImageMappings(env: Env, s: State, mappings: map<string, string>): Result<State, InstallerError>
  {
    if MappingsAreValid(env, mappings) then Ok(s.(imageMappings := mappings)) else Err(MappingInvalid)
  }

  datatype Command =
    | InstallCommand(record: Record, at: string)
    | UpgradeCommand(record: Record, at: string)
    | RollbackCommand(id: PluginId, at: string)
    | EnablementCommand(id: PluginId, enabled: bool, at: string)
    | UninstallCommand(id: PluginId, action: DataAction, at: string)
    | MappingCommand(mappings: map<string, string>)

  ghost function Run(env: Env, s: State, c: Command): Result<State, InstallerError>
  {
    match c
    case InstallCommand(r, at) => InstallPlugin(env, s, r, at)
    case UpgradeCommand(r, at) => UpgradePlugin(env, s, r, at)
    case RollbackCommand(id, at) => RollbackPlugin(env, s, id, at)
    case EnablementCommand(id, enabled, at) => SetPluginEnabled(env, s, id, enabled, at)
    case UninstallCommand(id, action, at) => UninstallPlugin(env, s, id, action, at)
    case MappingCommand(mappings) => WithImageMappings(env, s, mappings)
  }

  // ---------------------------------------------------------------- records and the parser

  function Contents<T>(s: seq<T>): set<T>
  {
    set x | x in s
  }

  /** `assertPermissionGrants`: no duplicates, all required ones, only declared ones. */
  predicate GrantsFit(m: Manifest, granted: seq<string>)
  {
    && |Contents(granted)| == |granted|
    && Contents(m.requiredPermissions) <= Contents(granted)
    && Contents(granted) <= Contents(m.requiredPermissions) + Contents(m.optionalPermissions)
  }

  /** The segment that starts at `i` is `..`. */
  predicate ParentSegmentAt(path: string, i: nat)
    requires i + 2 <= |path|
  {
    path[i..i + 2] == ".." && (i == 0 || path[i - 1] == '/') && (i + 2 == |path| || path[i + 2] == '/')
  }

  predicate HasNoParentSegment(path: string)
  {
    forall i :: 0 <= i <= |path| - 2 ==> !ParentSegmentAt(path, i)
  }

  predicate IsSafeAssetPath(path: string)
  {
    "./" <= path && '\\' !in path && '\0' !in path && HasNoParentSegment(path)
  }

  /** What the manifest schema asks of a migration. */
  predicate MigrationIsWellFormed(m: Manifest)
  {
    m.migration.Some? ==>
      && m.migration.value.image != ""
      && m.migration.value.toSchema > 0
      && m.migration.value.fromSchema <= m.migration.value.toSchema
      && m.migration.value.rollbackThrough <= m.migration.value.toSchema
  }

  /** What the parser asks of a record stored under an id. */
  predicate RecordFits(id: PluginId, r: Record)
  {
    && r.pluginId == id && r.manifest.id == id && r.manifest.version == r.version
    && MigrationIsWellFormed(r.manifest)
    && r.manifest.egressPolicy == r.resourceEgressPolicy
    && (r.manifest.migration.Some? ==> r.dataSchemaVersion == r.manifest.migration.value.toSchema)
    && GrantsFit(r.manifest, r.grantedPermissions)
    && IsSafeAssetPath(r.stagedAssetPath)
  }

  /** What `verifyPluginInstallInputV1` returns. */
  predicate VerifiedRecord(r: Record)
  {
    RecordFits(r.manifest.id, r) && r.dataSchemaVersion == TargetSchema(r.manifest, 0) && !r.enabled
  }

  predicate ArchiveFits(id: PluginId, records: seq<Record>)
  {
    |records| <= 3 && forall r :: r in records ==> RecordFits(id, r)
  }

  /** `parsePluginInstallerStateV1`: the state unchanged, or an error. */
  ghost function ParseState(env: Env, s: State): Result<State, InstallerError>
  {
    if !MappingsAreValid(env, s.imageMappings) then Err(StateInvalid)
    else if s.lifecyclePlan.Some? && !InstallerAcceptsPlan(s.lifecyclePlan.value) then Err(StateInvalid)
    else if exists id :: id in s.plugins && !RecordFits(id, s.plugins[id]) then Err(StateInvalid)
    else if exists id :: id in s.previous && !ArchiveFits(id, s.previous[id]) then Err(StateInvalid)
    else if !Desired(env.sv, s.plugins) then Err(RelationshipsInvalid)
    else Ok(s)
  }
}
