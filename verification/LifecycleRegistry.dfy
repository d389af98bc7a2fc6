/**
 The plugin lifecycle registry (packages/plugin-runtime/src/lifecycle.ts:65-337): records that change in
 place and an audit log that only grows. The log is enough to rebuild what the registry holds, except the
 manifests, which it does not record.
 */
module LifecycleRegistry {
  import opened Results

  datatype PluginState =
    | Discovered
    | Rejected
    | Staged
    | Migrating
    | InstalledDisabled
    | Enabling
    | Enabled
    | Degraded
    | Disabling
    | Upgrading
    | RollingBack
    | Uninstalling
    | Removed
    | Failed

  function AllowedTransitions(s: PluginState): set<PluginState>
  {
    match s
    case Discovered => {Rejected, Staged}
    case Rejected => {Discovered, Removed}
    case Staged => {Migrating, InstalledDisabled, Rejected, Failed}
    case Migrating => {InstalledDisabled, Failed}
    case InstalledDisabled => {Enabling, Upgrading, Uninstalling, Rejected}
    case Enabling => {Enabled, Degraded, InstalledDisabled, Failed}
    case Enabled => {Degraded, Disabling, Upgrading}
    case Degraded => {Enabled, Disabling, Upgrading, Failed}
    case Disabling => {InstalledDisabled, Failed}
    case Upgrading => {Enabled, InstalledDisabled, RollingBack, Failed}
    case RollingBack => {Enabled, InstalledDisabled, Failed}
    case Uninstalling => {Removed, Failed}
    case Removed => {Discovered}
    case Failed => {RollingBack, Uninstalling, Staged}
  }

  /** The states from which a state can be entered. */
  function Predecessors(s: PluginState): set<PluginState>
  {
    match s
    case Discovered => {Rejected, Removed}
    case Rejected => {Discovered, Staged, InstalledDisabled}
    case Staged => {Discovered, Failed}
    case Migrating => {Staged}
    case InstalledDisabled => {Staged, Migrating, Enabling, Disabling, Upgrading, RollingBack}
    case Enabling => {InstalledDisabled}
    case Enabled => {Enabling, Degraded, Upgrading, RollingBack}
    case Degraded => {Enabling, Enabled}
    case Disabling => {Enabled, Degraded}
    case Upgrading => {InstalledDisabled, Enabled, Degraded}
    case RollingBack => {Upgrading, Failed}
    case Uninstalling => {InstalledDisabled, Failed}
    case Removed => {Rejected, Uninstalling}
    case Failed => {Staged, Migrating, Enabling, Degraded, Disabling, Upgrading, RollingBack, Uninstalling}
  }

  /** The table of transitions read the other way round. */
  lemma EnteredFromExactly(before: PluginState, after: PluginState)
    ensures after in AllowedTransitions(before) <==> before in Predecessors(after)
  {
  }

  /** The least number of transitions by which a plugin can be removed. */
  function StepsToRemoval(s: PluginState): nat
  {
    match s
    case Removed => 0
    case Rejected => 1
    case Uninstalling => 1
    case Discovered => 2
    case Staged => 2
    case InstalledDisabled => 2
    case Failed => 2
    case Enabled => 4
    case _ => 3
  }

  /** From every state a plugin can be removed, in that many transitions and no fewer. */
  lemma RemovalIsAlwaysPossible(s: PluginState)
    ensures s != Removed ==> exists t :: t in AllowedTransitions(s) && StepsToRemoval(t) == StepsToRemoval(s) - 1
    ensures forall t :: t in AllowedTransitions(s) ==> StepsToRemoval(t) >= StepsToRemoval(s) - 1
  {
    var t := match s
      case Discovered => Rejected
      case Rejected => Removed
      case Staged => Rejected
      case InstalledDisabled => Rejected
      case Enabled => Disabling
      case Degraded => Failed
      case Uninstalling => Removed
      case Removed => Discovered
      case Failed => Uninstalling
      case _ => if Failed in AllowedTransitions(s) then Failed else InstalledDisabled;
    assert t in AllowedTransitions(s);
  }

  predicate ClearsTenants(s: PluginState)
  {
    s == InstalledDisabled || s == Removed || s == Rejected
  }

  predicate Runs(s: PluginState)
  {
    s == Enabled || s == Degraded
  }

  datatype Scope = TenantScope | DeploymentScope

  datatype Manifest = Manifest(id: string, version: string, displayName: string, enablement: Scope)

  datatype Record = Record(manifest: Manifest, state: PluginState, reason: string, revision: nat, tenants: set<string>)

  datatype RegistryError =
    | PluginAlreadyExists
    | PluginNotFound
    | InvalidTransition
    | RevisionConflict
    | TenantEnablementNotSupported
    | TenantEnablementStateInvalid

  datatype Change =
    | PluginDiscovered(id: string)
    | StateChanged(id: string, from: PluginState, to: PluginState, reason: string)
    | TenantChanged(id: string, tenant: string, on: bool)
    | EmergencyChanged(disabled: bool)

  datatype Context = Context(actorRef: string, correlationId: string, occurredAt: string)

  datatype AuditEvent = AuditEvent(sequence: nat, change: Change, context: Context)

  // ---------------------------------------------------------------- replay

  /** What the audit log tells of a plugin. */
  datatype Rebuilt = Rebuilt(state: PluginState, reason: string, revision: nat, tenants: set<string>)

  datatype Registry = Registry(plugins: map<string, Rebuilt>, emergencyDisabled: bool)

  const NOTHING := Registry(map[], false)

  predicate Concerns(c: Change, id: string)
  {
    !c.EmergencyChanged? && c.id == id
  }

  /** One event of the log applied to what the events before it told. */
  function ReplayOne(r: Registry, c: Change): Registry
  {
    match c
    case PluginDiscovered(id) => r.(plugins := r.plugins[id := Rebuilt(Discovered, "none", 0, {})])
    case StateChanged(id, _, to, reason) =>
      if id !in r.plugins then r else
        var p := r.plugins[id];
        r.(plugins := r.plugins[id := Rebuilt(to, reason, p.revision + 1, if ClearsTenants(to) then {} else p.tenants)])
    case TenantChanged(id, tenant, on) =>
      if id !in r.plugins then r else
        var p := r.plugins[id];
        r.(plugins := r.plugins[id := p.(revision := p.revision + 1,
                                         tenants := if on then p.tenants + {tenant} else p.tenants - {tenant})])
    case EmergencyChanged(disabled) => r.(emergencyDisabled := disabled)
  }

  function Replay(r: Registry, log: seq<AuditEvent>): Registry
  {
    if log == [] then r else ReplayOne(Replay(r, log[..|log| - 1]), log[|log| - 1].change)
  }

  /** Replaying a prefix and then the rest is replaying the whole. */
  lemma {:induction false} ReplaySplits(r: Registry, log: seq<AuditEvent>, n: nat)
    requires n <= |log|
    ensures Replay(Replay(r, log[..n]), log[n..]) == Replay(r, log)
  {
    if n == |log| {
      assert log[..n] == log;
    } else {
      var m := |log| - 1;
      ReplaySplits(r, log[..m], n);
      assert log[..m][..n] == log[..n] && log[..m][n..] == log[n..][..m - n];
    }
  }

  // ---------------------------------------------------------------- the logs a registry writes

  /** What the registry checks before it appends an event. */
  predicate Legal(r: Registry, c: Change)
  {
    match c
    case PluginDiscovered(id) => id !in r.plugins
    case StateChanged(id, from, to, _) => id in r.plugins && r.plugins[id].state == from && to in AllowedTransitions(from)
    case TenantChanged(id, _, _) => id in r.plugins && Runs(r.plugins[id].state)
    case EmergencyChanged(disabled) => disabled != r.emergencyDisabled
  }

  ghost predicate LegalAt(log: seq<AuditEvent>, i: int)
    requires 0 <= i < |log|
  {
    log[i].sequence == i + 1 && Legal(Replay(NOTHING, log[..i]), log[i].change)
  }

  ghost predicate LegalLog(log: seq<AuditEvent>)
  {
    forall i :: 0 <= i < |log| ==> LegalAt(log, i)
  }

  lemma LegalPrefix(log: seq<AuditEvent>, n: nat)
    requires LegalLog(log) && n <= |log|
    ensures LegalLog(log[..n])
  {
    forall i | 0 <= i < n ensures LegalAt(log[..n], i) {
      assert LegalAt(log, i) && log[..n][..i] == log[..i];
    }
  }

  lemma LegalAppend(log: seq<AuditEvent>, e: AuditEvent)
    requires LegalLog(log) && e.sequence == |log| + 1 && Legal(Replay(NOTHING, log), e.change)
    ensures LegalLog(log + [e]) && Replay(NOTHING, log + [e]) == ReplayOne(Replay(NOTHING, log), e.change)
  {
    var after := log + [e];
    assert after[..|log|] == log;
    forall i | 0 <= i < |after| ensures LegalAt(after, i) {
      if i < |log| { assert LegalAt(log, i) && after[..i] == log[..i]; }
    }
  }

  /** How many events of the log concern a plugin. */
  function EventsOf(log: seq<AuditEvent>, id: string): nat
  {
    if log == [] then 0
    else EventsOf(log[..|log| - 1], id) + (if Concerns(log[|log| - 1].change, id) then 1 else 0)
  }

  /** A plugin is known exactly when the log mentions it, and its revision counts its events after the first. */
  lemma {:induction false} RevisionCountsEvents(log: seq<AuditEvent>, id: string)
    requires LegalLog(log)
    ensures id in Replay(NOTHING, log).plugins <==> EventsOf(log, id) > 0
    ensures id in Replay(NOTHING, log).plugins ==> Replay(NOTHING, log).plugins[id].revision == EventsOf(log, id) - 1
  {
    if log != [] {
      LegalPrefix(log, |log| - 1);
      RevisionCountsEvents(log[..|log| - 1], id);
      assert LegalAt(log, |log| - 1);
    }
  }

  predicate HasNoTenants(s: PluginState)
  {
    s == Discovered || s == Rejected || s == InstalledDisabled || s == Enabling || s == Removed
  }

  /** No tenant is enabled for a plugin before its first activation, nor after it was disabled or removed. */
  lemma {:induction false} InactivePluginsHaveNoTenants(log: seq<AuditEvent>, id: string)
    requires LegalLog(log) && id in Replay(NOTHING, log).plugins
    requires HasNoTenants(Replay(NOTHING, log).plugins[id].state)
    ensures Replay(NOTHING, log).plugins[id].tenants == {}
  {
    if log != [] {
      var before, c := Replay(NOTHING, log[..|log| - 1]), log[|log| - 1].change;
      LegalPrefix(log, |log| - 1);
      assert LegalAt(log, |log| - 1);
      if id in before.plugins && HasNoTenants(before.plugins[id].state) {
        InactivePluginsHaveNoTenants(log[..|log| - 1], id);
      }
    }
  }

  predicate Enters(c: Change, id: string, s: PluginState)
  {
    if c.PluginDiscovered? then c.id == id && s == Discovered else c.StateChanged? && c.id == id && c.to == s
  }

  /** The plugin was staged at event `i` and has not been discovered anew since. */
  ghost predicate StagedAt(log: seq<AuditEvent>, id: string, i: nat)
  {
    && i < |log| && Enters(log[i].change, id, Staged)
    && forall j :: i < j < |log| ==> !Enters(log[j].change, id, Discovered)
  }

  predicate BeforeStaging(s: PluginState)
  {
    s == Discovered || s == Rejected || s == Removed
  }

  /** There is no way around staging: past it, a plugin was staged after its last discovery. */
  lemma {:induction false} StagingIsNeverSkipped(log: seq<AuditEvent>, id: string)
    requires LegalLog(log) && id in Replay(NOTHING, log).plugins
    requires !BeforeStaging(Replay(NOTHING, log).plugins[id].state)
    ensures exists i: nat :: StagedAt(log, id, i)
  {
    var n := |log| - 1;
    var before, c := Replay(NOTHING, log[..n]), log[n].change;
    LegalPrefix(log, n);
    assert LegalAt(log, n);
    if Enters(c, id, Staged) {
      assert StagedAt(log, id, n);
    } else {
      assert !BeforeStaging(before.plugins[id].state) && !Enters(c, id, Discovered);
      StagingIsNeverSkipped(log[..n], id);
      var i: nat :| StagedAt(log[..n], id, i);
      StagedAtStays(log, id, i);
    }
  }

  lemma StagedAtStays(log: seq<AuditEvent>, id: string, i: nat)
    requires log != [] && StagedAt(log[..|log| - 1], id, i) && !Enters(log[|log| - 1].change, id, Discovered)
    ensures StagedAt(log, id, i)
  {
    hide Enters;
    var n := |log| - 1;
    forall j | i < j < |log| ensures !Enters(log[j].change, id, Discovered) {
      assert j < n ==> log[..n][j] == log[j];
    }
  }

  predicate Withdraws(c: Change, id: string, tenant: string)
  {
    || c == TenantChanged(id, tenant, false)
    || (c.StateChanged? && c.id == id && ClearsTenants(c.to))
  }

  /** The tenant was enabled at event `i`, and nothing withdrew it since. */
  ghost predicate EnabledAt(log: seq<AuditEvent>, id: string, tenant: string, i: nat)
  {
    && i < |log| && log[i].change == TenantChanged(id, tenant, true)
    && forall j :: i < j < |log| ==> !Withdraws(log[j].change, id, tenant)
  }

  /** Which tenants a plugin is enabled for, told from the log alone. */
  lemma {:induction false} TenantsComeFromTheLog(log: seq<AuditEvent>, id: string, tenant: string)
    requires LegalLog(log) && id in Replay(NOTHING, log).plugins
    ensures tenant in Replay(NOTHING, log).plugins[id].tenants <==> exists i: nat :: EnabledAt(log, id, tenant, i)
  {
    if log != [] {
      var n := |log| - 1;
      LegalPrefix(log, n);
      assert LegalAt(log, n);
      if id in Replay(NOTHING, log[..n]).plugins {
        TenantsComeFromTheLog(log[..n], id, tenant);
      }
      EnabledAtExtends(log, id, tenant);
      if id !in Replay(NOTHING, log[..n]).plugins {
        UnknownHasNoTenants(log[..n], id, tenant);
      }
    }
  }

  lemma EnabledAtExtends(log: seq<AuditEvent>, id: string, tenant: string)
    requires log != []
    ensures var n, c := |log| - 1, log[|log| - 1].change;
            (exists i: nat :: EnabledAt(log, id, tenant, i)) <==>
              c == TenantChanged(id, tenant, true)
              || (!Withdraws(c, id, tenant) && exists i: nat :: EnabledAt(log[..n], id, tenant, i))
  {
    var n, c := |log| - 1, log[|log| - 1].change;
    if i: nat :| EnabledAt(log, id, tenant, i) {
      if i < n { assert EnabledAt(log[..n], id, tenant, i); }
    }
    if c == TenantChanged(id, tenant, true) {
      assert EnabledAt(log, id, tenant, n);
    } else if i: nat :| !Withdraws(c, id, tenant) && EnabledAt(log[..n], id, tenant, i) {
      forall j | i < j < |log| ensures !Withdraws(log[j].change, id, tenant) {
        if j < n { assert log[..n][j] == log[j]; }
      }
      assert EnabledAt(log, id, tenant, i);
    }
  }

  lemma {:induction false} UnknownHasNoTenants(log: seq<AuditEvent>, id: string, tenant: string)
    requires LegalLog(log) && id !in Replay(NOTHING, log).plugins
    ensures !exists i: nat :: EnabledAt(log, id, tenant, i)
  {
    forall i: nat ensures !EnabledAt(log, id, tenant, i) {
      if EnabledAt(log, id, tenant, i) {
        assert LegalAt(log, i);
        KnownStaysKnown(log, i, id);
      }
    }
  }

  lemma {:induction false} KnownStaysKnown(log: seq<AuditEvent>, n: nat, id: string)
    requires n <= |log| && id in Replay(NOTHING, log[..n]).plugins
    ensures id in Replay(NOTHING, log).plugins
  {
    if n == |log| {
      assert log[..n] == log;
    } else {
      assert log[..|log| - 1][..n] == log[..n];
      KnownStaysKnown(log[..|log| - 1], n, id);
    }
  }

  // ---------------------------------------------------------------- the registry

  function Facts(r: Record): Rebuilt
  {
    Rebuilt(r.state, r.reason, r.revision, r.tenants)
  }

  /** The log tells of a transition what the registry makes of the record. */
  lemma StateChangeIsReplayed(r: Registry, id: string, x: Record, y: Record, to: PluginState)
    requires id in r.plugins && r.plugins[id] == Facts(x) && to in AllowedTransitions(x.state)
    requires y.state == to && y.revision == x.revision + 1 && y.tenants == if ClearsTenants(to) then {} else x.tenants
    ensures Legal(r, StateChanged(id, x.state, to, y.reason))
    ensures ReplayOne(r, StateChanged(id, x.state, to, y.reason)) == r.(plugins := r.plugins[id := Facts(y)])
  {
    hide AllowedTransitions;
  }

  class PluginLifecycleRegistry {
    var records: map<string, Record>
    var audit: seq<AuditEvent>
    var sequence: nat
    var emergencyDisabled: bool

    ghost function Abstract(): Registry
      reads this
    {
      Registry(map id | id in records :: Facts(records[id]), emergencyDisabled)
    }

    /** The log is one the registry could have written, and replaying it gives what the registry holds. */
    ghost predicate Valid()
      reads this
    {
      && sequence == |audit| && LegalLog(audit) && Replay(NOTHING, audit) == Abstract()
      && forall id :: id in records ==> records[id].manifest.id == id
    }

    constructor ()
      ensures Valid() && records == map[] && audit == [] && !emergencyDisabled
    {
      records, audit, sequence, emergencyDisabled := map[], [], 0, false;
    }

    method AppendAudit(change: Change, context: Context)
      requires sequence == |audit| && LegalLog(audit) && Legal(Replay(NOTHING, audit), change)
      modifies this`audit, this`sequence
      ensures audit == old(audit) + [AuditEvent(|old(audit)| + 1, change, context)]
      ensures sequence == |audit| && LegalLog(audit)
      ensures Replay(NOTHING, audit) == ReplayOne(Replay(NOTHING, old(audit)), change)
    {
      hide LegalLog, Legal;
      sequence := sequence + 1;
      LegalAppend(audit, AuditEvent(sequence, change, context));
      audit := audit + [AuditEvent(sequence, change, context)];
    }

    /** One plugin's record changes, and the log says how. */
    method Store(id: string, record: Record, change: Change, context: Context)
      requires Valid() && Legal(Abstract(), change) && record.manifest.id == id
      requires ReplayOne(Abstract(), change) == Abstract().(plugins := Abstract().plugins[id := Facts(record)])
      modifies this`records, this`audit, this`sequence
      ensures Valid()
      ensures records == old(records)[id := record]
      ensures audit == old(audit) + [AuditEvent(|old(audit)| + 1, change, context)]
    {
      hide LegalLog, Legal, ReplayOne, Replay;
      AppendAudit(change, context);
      records := records[id := record];
    }

    method Discover(manifest: Manifest, context: Context) returns (r: Result<Record, RegistryError>)
      requires Valid()
      modifies this
      ensures Valid()
      ensures r == if manifest.id in old(records) then Err(PluginAlreadyExists)
                   else Ok(Record(manifest, Discovered, "none", 0, {}))
      ensures records == if r.Ok? then old(records)[manifest.id := r.value] else old(records)
      ensures audit == if r.Err? then old(audit)
                       else old(audit) + [AuditEvent(|old(audit)| + 1, PluginDiscovered(manifest.id), context)]
      ensures emergencyDisabled == old(emergencyDisabled)
    {
      hide LegalLog, Replay;
      if manifest.id in records {
        return Err(PluginAlreadyExists);
      }
      var record := Record(manifest, Discovered, "none", 0, {});
      Store(manifest.id, record, PluginDiscovered(manifest.id), context);
      r := Ok(record);
    }

    method Transition(id: string, to: PluginState, expectedRevision: int, reason: Option<string>,
                      replacement: Option<Manifest>, context: Context)
      returns (r: Result<Record, RegistryError>)
      requires Valid()
      modifies this
      ensures Valid()
      ensures id !in old(records) <==> r == Err(PluginNotFound)
      ensures id in old(records) ==>
                var x := old(records)[id];
                if x.revision != expectedRevision then r == Err(RevisionConflict)
                else if to !in AllowedTransitions(x.state) || (replacement.Some? && replacement.value.id != id) then r == Err(InvalidTransition)
                else
                  && r == Ok(Record(if replacement.Some? then replacement.value else x.manifest, to,
                                    if reason.Some? then reason.value else "none", x.revision + 1,
                                    if to in {InstalledDisabled, Removed, Rejected} then {} else x.tenants))
                  && records == old(records)[id := r.value]
                  && audit == old(audit) + [AuditEvent(|old(audit)| + 1, StateChanged(id, x.state, to, r.value.reason), context)]
      ensures r.Err? ==> records == old(records) && audit == old(audit)
      ensures emergencyDisabled == old(emergencyDisabled)
    {
      hide LegalLog, Replay, AllowedTransitions, Legal, ReplayOne;
      if id !in records {
        return Err(PluginNotFound);
      }
      var record := records[id];
      if record.revision != expectedRevision {
        return Err(RevisionConflict);
      }
      if to !in AllowedTransitions(record.state) {
        return Err(InvalidTransition);
      }
      if replacement.Some? && replacement.value.id != id {
        return Err(InvalidTransition);
      }
      var fromState := record.state;
      record := record.(state := to, reason := if reason.Some? then reason.value else "none", revision := record.revision + 1);
      if replacement.Some? {
        record := record.(manifest := replacement.value);
      }
      if to == InstalledDisabled || to == Removed || to == Rejected {
        record := record.(tenants := {});
      }
      StateChangeIsReplayed(Abstract(), id, records[id], record, to);
      Store(id, record, StateChanged(id, fromState, to, record.reason), context);
      r := Ok(record);
    }

    method SetTenantEnabled(id: string, tenant: string, on: bool, expectedRevision: int, context: Context)
      returns (r: Result<Record, RegistryError>)
      requires Valid()
      modifies this
      ensures Valid()
      ensures id !in old(records) <==> r == Err(PluginNotFound)
      ensures id in old(records) ==>
                var x := old(records)[id];
                if x.revision != expectedRevision then r == Err(RevisionConflict)
                else if x.manifest.enablement != TenantScope then r == Err(TenantEnablementNotSupported)
                else if x.state !in {Enabled, Degraded} then r == Err(TenantEnablementStateInvalid)
                else
                  && r == Ok(x.(revision := x.revision + 1, tenants := if on then x.tenants + {tenant} else x.tenants - {tenant}))
                  && records == old(records)[id := r.value]
                  && audit == old(audit) + [AuditEvent(|old(audit)| + 1, TenantChanged(id, tenant, on), context)]
      ensures r.Err? ==> records == old(records) && audit == old(audit)
      ensures emergencyDisabled == old(emergencyDisabled)
    {
      hide LegalLog, Replay;
      if id !in records {
        return Err(PluginNotFound);
      }
      var record := records[id];
      if record.revision != expectedRevision {
        return Err(RevisionConflict);
      }
      if record.manifest.enablement != TenantScope {
        return Err(TenantEnablementNotSupported);
      }
      if record.state != Enabled && record.state != Degraded {
        return Err(TenantEnablementStateInvalid);
      }
      var tenants := record.tenants;
      if on { tenants := tenants + {tenant}; } else { tenants := tenants - {tenant}; }
      record := record.(tenants := tenants, revision := record.revision + 1);
      Store(id, record, TenantChanged(id, tenant, on), context);
      r := Ok(record);
    }

    method SetEmergencyDisabled(disabled: bool, context: Context)
      requires Valid()
      modifies this`emergencyDisabled, this`audit, this`sequence
      ensures Valid() && emergencyDisabled == disabled
      ensures audit == if disabled == old(emergencyDisabled) then old(audit)
                       else old(audit) + [AuditEvent(|old(audit)| + 1, EmergencyChanged(disabled), context)]
    {
      hide LegalLog, Replay;
      if emergencyDisabled == disabled {
        return;
      }
      AppendAudit(EmergencyChanged(disabled), context);
      emergencyDisabled := disabled;
    }

    /** `isExecutionAllowed`, with what the log then shows. */
    method IsExecutionAllowed(id: string, tenant: Option<string>) returns (allowed: bool)
      requires Valid()
      ensures allowed <==>
                && id in records && !emergencyDisabled && records[id].state in {Enabled, Degraded}
                && (records[id].manifest.enablement == TenantScope ==>
                      tenant.Some? && tenant.value != "" && tenant.value in records[id].tenants)
      ensures allowed ==> exists i: nat :: StagedAt(audit, id, i)
      ensures allowed && records[id].manifest.enablement == TenantScope ==>
                tenant.Some? && exists i: nat :: EnabledAt(audit, id, tenant.value, i)
    {
      hide LegalLog, StagedAt, EnabledAt;
      if id !in records || emergencyDisabled || (records[id].state != Enabled && records[id].state != Degraded) {
        return false;
      }
      assert Abstract().plugins[id] == Facts(records[id]);
      StagingIsNeverSkipped(audit, id);
      if records[id].manifest.enablement == DeploymentScope {
        return true;
      }
      if tenant.Some? {
        TenantsComeFromTheLog(audit, id, tenant.value);
      }
      allowed := tenant.Some? && tenant.value != "" && tenant.value in records[id].tenants;
    }

    /** `auditEvents`: the events after a sequence number, which complete a replay that stopped there. */
    method AuditEvents(afterSequence: nat) returns (events: seq<AuditEvent>)
      requires Valid()
      ensures afterSequence <= |audit| ==>
                events == audit[afterSequence..] && Replay(Replay(NOTHING, audit[..afterSequence]), events) == Abstract()
      ensures afterSequence > |audit| ==> events == []
    {
      hide Replay, Legal;
      events := [];
      var n := 0;
      while n < |audit|
        invariant 0 <= n <= |audit|
        invariant events == if n <= afterSequence then [] else audit[afterSequence..n]
      {
        assert LegalAt(audit, n);
        if audit[n].sequence > afterSequence {
          events := events + [audit[n]];
        }
        n := n + 1;
      }
      if afterSequence <= |audit| {
        assert audit[afterSequence..n] == audit[afterSequence..];
        ReplaySplits(NOTHING, audit, afterSequence);
      }
    }
  }
}
