/**
 Lifecycle plans and their two validators: the one of the installer
 (packages/plugin-installer/src/index.ts:292-393) and the one of the execution envelope
 (packages/plugin-installer/src/execution.ts:132-235, 280-352).

 The fixed `apiVersion` and `kind` of a plan and the closed sets of operations, phases and data actions
 are types here.
 */
module LifecyclePlans {
  import opened Results

  datatype Operation = Install | Upgrade | Rollback | Disable | Enable | Uninstall

  datatype Phase =
    | Stage
    | Checkpoint
    | Migrate
    | Ready
    | Activate
    | Drain
    | Deactivate
    | RetainData
    | ExportData
    | DeleteData
    | Remove
    | Commit

  datatype DataAction = Retain | Export | Delete

  datatype Plan = Plan(
    operation: Operation,
    pluginId: string,
    fromVersion: Option<string>,
    toVersion: Option<string>,
    fromDataSchema: int,
    toDataSchema: int,
    migrationImage: Option<string>,
    rollbackSupported: bool,
    phases: seq<Phase>,
    dataAction: Option<DataAction>)

  /** A JavaScript string that is neither `undefined` nor empty. */
  predicate Truthy(s: Option<string>)
  {
    s.Some? && s.value != ""
  }

  function MigratePhase(plan: Plan): seq<Phase>
  {
    if Truthy(plan.migrationImage) then [Migrate] else []
  }

  function DataPhase(action: DataAction): Phase
  {
    match action
    case Retain => RetainData
    case Export => ExportData
    case Delete => DeleteData
  }

  /** Replacing a version: with a running plugin it is drained first and activated after. */
  function ReplacePhases(plan: Plan, withRuntime: bool): seq<Phase>
  {
    if withRuntime then
      [Stage, Drain, Deactivate, Checkpoint] + MigratePhase(plan) + [Activate, Ready, Commit]
    else
      [Stage, Checkpoint] + MigratePhase(plan) + [Commit]
  }

  function RemovePhases(action: DataAction, withRuntime: bool): seq<Phase>
  {
    (if withRuntime then [Drain, Deactivate] else []) + [DataPhase(action), Remove, Commit]
  }

  /** `expectedPhases` of the execution envelope: the runtime variant only for plans that list it. */
  function ExpectedPhases(plan: Plan): Option<seq<Phase>>
  {
    match plan.operation
    case Install => Some([Stage] + MigratePhase(plan) + [Commit])
    case Upgrade => Some(ReplacePhases(plan, plan.phases == ReplacePhases(plan, true)))
    case Rollback => Some(ReplacePhases(plan, plan.phases == ReplacePhases(plan, true)))
    case Enable => Some([Activate, Ready, Commit])
    case Disable => Some([Drain, Deactivate, Commit])
    case Uninstall =>
      if plan.dataAction.None? then None
      else Some(RemovePhases(plan.dataAction.value, plan.phases == RemovePhases(plan.dataAction.value, true)))
  }

  /** `expectedLifecyclePlanPhases` of the installer: the runtime variant for plans of its length. */
  function ExpectedLifecyclePlanPhases(plan: Plan): Option<seq<Phase>>
  {
    match plan.operation
    case Install => Some([Stage] + MigratePhase(plan) + [Commit])
    case Upgrade => Some(ReplacePhases(plan, |plan.phases| == |ReplacePhases(plan, true)|))
    case Rollback => Some(ReplacePhases(plan, |plan.phases| == |ReplacePhases(plan, true)|))
    case Enable => Some([Activate, Ready, Commit])
    case Disable => Some([Drain, Deactivate, Commit])
    case Uninstall =>
      if plan.dataAction.None? then None
      else Some(RemovePhases(plan.dataAction.value, |plan.phases| == |RemovePhases(plan.dataAction.value, true)|))
  }

  /** What both validators ask of the shape of a plan. */
  predicate PlanShape(plan: Plan)
  {
    && plan.fromDataSchema >= 0
    && plan.toDataSchema >= 0
    && plan.phases != []
    && plan.phases[|plan.phases| - 1] == Commit
    && (Migrate in plan.phases <==> plan.migrationImage.Some?)
  }

  /** Which versions and schemas belong to an operation; only the envelope checks this. */
  predicate VersionsFit(plan: Plan)
  {
    match plan.operation
    case Install => plan.fromVersion.None? && plan.toVersion.Some? && plan.fromDataSchema == 0
    case Uninstall => plan.fromVersion.Some? && plan.toVersion.None? && plan.toDataSchema == 0
    case _ => plan.fromVersion.Some? && plan.toVersion.Some?
  }

  predicate PlanSemanticsAreValid(plan: Plan)
  {
    && ExpectedPhases(plan) == Some(plan.phases)
    && (plan.operation == Uninstall <==> plan.dataAction.Some?)
    && VersionsFit(plan)
  }

  /** The plan part of `parsePluginLifecyclePlanEnvelopeV1`. */
  predicate EnvelopeAcceptsPlan(plan: Plan)
  {
    PlanShape(plan) && PlanSemanticsAreValid(plan)
  }

  /** `parsePluginDeploymentLifecyclePlanV1`. */
  predicate InstallerAcceptsPlan(plan: Plan)
  {
    && PlanShape(plan)
    && ExpectedLifecyclePlanPhases(plan) == Some(plan.phases)
    && (plan.operation == Uninstall <==> plan.dataAction.Some?)
  }

  lemma VariantsDifferInLength(plan: Plan, action: DataAction)
    ensures |ReplacePhases(plan, true)| != |ReplacePhases(plan, false)|
    ensures |RemovePhases(action, true)| != |RemovePhases(action, false)|
  {
  }

  /** The validators choose their expectation differently and still accept the same phase sequences. */
  lemma ValidatorsAgreeOnPhases(plan: Plan)
    ensures ExpectedPhases(plan) == Some(plan.phases) <==> ExpectedLifecyclePlanPhases(plan) == Some(plan.phases)
  {
    if plan.dataAction.Some? {
      VariantsDifferInLength(plan, plan.dataAction.value);
    } else {
      VariantsDifferInLength(plan, Retain);
    }
  }

  /** The envelope accepts exactly the plans the installer accepts whose versions fit their operation. */
  lemma ValidatorsDifferOnlyInVersions(plan: Plan)
    ensures EnvelopeAcceptsPlan(plan) <==> InstallerAcceptsPlan(plan) && VersionsFit(plan)
  {
    ValidatorsAgreeOnPhases(plan);
  }

  ghost predicate DistinctPhases(phases: seq<Phase>)
  {
    forall i, j :: 0 <= i < j < |phases| ==> phases[i] != phases[j]
  }

  lemma ReplacePhasesAreDistinct(plan: Plan, withRuntime: bool)
    ensures DistinctPhases(ReplacePhases(plan, withRuntime))
  {
    if withRuntime {
      if Truthy(plan.migrationImage) {
        assert ReplacePhases(plan, true) == [Stage, Drain, Deactivate, Checkpoint, Migrate, Activate, Ready, Commit];
      } else {
        assert ReplacePhases(plan, true) == [Stage, Drain, Deactivate, Checkpoint, Activate, Ready, Commit];
      }
    } else {
      if Truthy(plan.migrationImage) {
        assert ReplacePhases(plan, false) == [Stage, Checkpoint, Migrate, Commit];
      } else {
        assert ReplacePhases(plan, false) == [Stage, Checkpoint, Commit];
      }
    }
  }

  /** An accepted plan never runs a phase twice. */
  lemma AcceptedPhasesAreDistinct(plan: Plan)
    requires EnvelopeAcceptsPlan(plan)
    ensures DistinctPhases(plan.phases)
  {
    match plan.operation {
      case Upgrade => ReplacePhasesAreDistinct(plan, plan.phases == ReplacePhases(plan, true));
      case Rollback => ReplacePhasesAreDistinct(plan, plan.phases == ReplacePhases(plan, true));
      case _ =>
    }
  }

  // ---------------------------------------------------------------- which phases, in which order

  /** Where a phase stands in the life of a plugin; the three ways to deal with its data stand together. */
  function Rank(p: Phase): nat
  {
    match p
    case Stage => 0
    case Drain => 1
    case Deactivate => 2
    case Checkpoint => 3
    case Migrate => 4
    case Activate => 5
    case Ready => 6
    case RetainData => 7
    case ExportData => 7
    case DeleteData => 7
    case Remove => 8
    case Commit => 9
  }

  ghost predicate Ascending(phases: seq<Phase>)
  {
    forall i, j :: 0 <= i < j < |phases| ==> Rank(phases[i]) < Rank(phases[j])
  }

  lemma ReplacePhasesAscend(plan: Plan, withRuntime: bool)
    ensures Ascending(ReplacePhases(plan, withRuntime))
  {
    if withRuntime {
      if Truthy(plan.migrationImage) {
        assert ReplacePhases(plan, true) == [Stage, Drain, Deactivate, Checkpoint, Migrate, Activate, Ready, Commit];
      } else {
        assert ReplacePhases(plan, true) == [Stage, Drain, Deactivate, Checkpoint, Activate, Ready, Commit];
      }
    } else {
      if Truthy(plan.migrationImage) {
        assert ReplacePhases(plan, false) == [Stage, Checkpoint, Migrate, Commit];
      } else {
        assert ReplacePhases(plan, false) == [Stage, Checkpoint, Commit];
      }
    }
  }

  lemma RemovePhasesAscend(action: DataAction, withRuntime: bool)
    ensures Ascending(RemovePhases(action, withRuntime))
  {
    if withRuntime {
      assert RemovePhases(action, true) == [Drain, Deactivate, DataPhase(action), Remove, Commit];
    } else {
      assert RemovePhases(action, false) == [DataPhase(action), Remove, Commit];
    }
  }

  /** The phases of an accepted plan come in the order of a plugin's life. */
  lemma AcceptedPhasesAscend(plan: Plan)
    requires EnvelopeAcceptsPlan(plan)
    ensures Ascending(plan.phases)
  {
    hide ReplacePhases, RemovePhases;
    match plan.operation {
      case Upgrade => ReplacePhasesAscend(plan, plan.phases == ReplacePhases(plan, true));
      case Rollback => ReplacePhasesAscend(plan, plan.phases == ReplacePhases(plan, true));
      case Uninstall => RemovePhasesAscend(plan.dataAction.value, plan.phases == RemovePhases(plan.dataAction.value, true));
      case _ =>
    }
  }

  predicate Replaces(operation: Operation)
  {
    operation == Upgrade || operation == Rollback
  }

  /** A plan that stops a running plugin; for replacing and removing, the plan itself says whether it does. */
  predicate StopsRuntime(plan: Plan)
  {
    Drain in plan.phases
  }

  /** Which phases an accepted plan has; together with their order this leaves one sequence. */
  ghost predicate PhasesOccurAsTheyShould(plan: Plan)
  {
    && (Stage in plan.phases <==> plan.operation == Install || Replaces(plan.operation))
    && (plan.operation == Disable ==> StopsRuntime(plan))
    && (plan.operation == Install || plan.operation == Enable ==> !StopsRuntime(plan))
    && (Deactivate in plan.phases <==> StopsRuntime(plan))
    && (Checkpoint in plan.phases <==> Replaces(plan.operation))
    && (Migrate in plan.phases <==> Truthy(plan.migrationImage) && (plan.operation == Install || Replaces(plan.operation)))
    && (Activate in plan.phases <==> plan.operation == Enable || (Replaces(plan.operation) && StopsRuntime(plan)))
    && (Ready in plan.phases <==> Activate in plan.phases)
    && (RetainData in plan.phases <==> plan.dataAction == Some(Retain))
    && (ExportData in plan.phases <==> plan.dataAction == Some(Export))
    && (DeleteData in plan.phases <==> plan.dataAction == Some(Delete))
    && (Remove in plan.phases <==> plan.operation == Uninstall)
    && Commit in plan.phases
  }

  lemma AcceptedPhasesOccur(plan: Plan)
    requires EnvelopeAcceptsPlan(plan)
    ensures PhasesOccurAsTheyShould(plan)
  {
    hide ReplacePhases, RemovePhases, PhasesOccurAsTheyShould;
    match plan.operation {
      case Upgrade => ReplacingPlanOccurs(plan, plan.phases == ReplacePhases(plan, true));
      case Rollback => ReplacingPlanOccurs(plan, plan.phases == ReplacePhases(plan, true));
      case Uninstall => RemovingPlanOccurs(plan, plan.phases == RemovePhases(plan.dataAction.value, true));
      case _ => SimplePlanOccurs(plan);
    }
  }

  lemma ReplacingPlanOccurs(plan: Plan, withRuntime: bool)
    requires Replaces(plan.operation) && plan.dataAction.None? && plan.phases == ReplacePhases(plan, withRuntime)
    ensures PhasesOccurAsTheyShould(plan)
  {
    hide ReplacePhases;
    ReplacePhasesOccur(plan, withRuntime);
  }

  lemma RemovingPlanOccurs(plan: Plan, withRuntime: bool)
    requires plan.operation == Uninstall && plan.dataAction.Some? && plan.phases == RemovePhases(plan.dataAction.value, withRuntime)
    ensures PhasesOccurAsTheyShould(plan)
  {
    hide RemovePhases;
    RemovePhasesOccur(plan.dataAction.value, withRuntime);
  }

  lemma SimplePlanOccurs(plan: Plan)
    requires EnvelopeAcceptsPlan(plan) && !Replaces(plan.operation) && plan.operation != Uninstall
    ensures PhasesOccurAsTheyShould(plan)
  {
    hide ReplacePhases, RemovePhases;
  }

  lemma ReplacePhasesOccur(plan: Plan, withRuntime: bool)
    ensures forall p :: p in ReplacePhases(plan, withRuntime) <==>
              match p
              case Stage => true
              case Checkpoint => true
              case Commit => true
              case Migrate => Truthy(plan.migrationImage)
              case Drain => withRuntime
              case Deactivate => withRuntime
              case Activate => withRuntime
              case Ready => withRuntime
              case _ => false
  {
  }

  lemma RemovePhasesOccur(action: DataAction, withRuntime: bool)
    ensures forall p :: p in RemovePhases(action, withRuntime) <==>
              match p
              case Drain => withRuntime
              case Deactivate => withRuntime
              case RetainData => action == Retain
              case ExportData => action == Export
              case DeleteData => action == Delete
              case Remove => true
              case Commit => true
              case _ => false
  {
  }

  lemma EmptyIfNothingIn(s: seq<Phase>)
    ensures (forall p :: p !in s) ==> s == []
  {
    if s != [] {
      assert s[0] in s;
    }
  }

  lemma TailOfAscending(a: seq<Phase>)
    requires Ascending(a) && a != []
    ensures Ascending(a[1..]) && forall p :: p in a[1..] <==> p in a && p != a[0]
  {
    forall p ensures p in a[1..] <==> p in a && p != a[0] {
      assert a == [a[0]] + a[1..];
      if p in a[1..] {
        var i :| 0 <= i < |a[1..]| && a[1..][i] == p;
        assert Rank(a[0]) < Rank(a[i + 1]);
      }
    }
  }

  /** Two ascending lists of the same phases are the same list. */
  lemma {:induction false} AscendingIsUnique(a: seq<Phase>, b: seq<Phase>)
    requires Ascending(a) && Ascending(b) && forall p :: p in a <==> p in b
    ensures a == b
  {
    if a == [] {
      EmptyIfNothingIn(b);
    } else {
      assert a[0] in a && a[0] in b && b[0] in b && b[0] in a;
      assert a == [a[0]] + a[1..] && b == [b[0]] + b[1..];
      assert a[0] == b[0];
      TailOfAscending(a);
      TailOfAscending(b);
      AscendingIsUnique(a[1..], b[1..]);
    }
  }

  lemma SameMembersMeanSamePhases(phases: seq<Phase>, expected: seq<Phase>)
    requires Ascending(phases) && Ascending(expected) && forall p :: p in phases <==> p in expected
    ensures phases == expected
  {
    AscendingIsUnique(phases, expected);
  }

  /** The phases of a plan, told by whether it stops a running plugin. */
  function PhasesWith(plan: Plan, withRuntime: bool): seq<Phase>
  {
    match plan.operation
    case Install => [Stage] + MigratePhase(plan) + [Commit]
    case Enable => [Activate, Ready, Commit]
    case Disable => [Drain, Deactivate, Commit]
    case Uninstall => if plan.dataAction.Some? then RemovePhases(plan.dataAction.value, withRuntime) else []
    case _ => ReplacePhases(plan, withRuntime)
  }

  lemma PhasesWithAscend(plan: Plan, withRuntime: bool)
    ensures Ascending(PhasesWith(plan, withRuntime))
  {
    hide ReplacePhases, RemovePhases;
    ReplacePhasesAscend(plan, withRuntime);
    if plan.dataAction.Some? {
      RemovePhasesAscend(plan.dataAction.value, withRuntime);
    }
  }

  lemma PhasesWithOccur(plan: Plan)
    requires PhasesOccurAsTheyShould(plan) && (plan.dataAction.Some? <==> plan.operation == Uninstall)
    ensures forall p :: p in plan.phases <==> p in PhasesWith(plan, StopsRuntime(plan))
  {
    hide ReplacePhases, RemovePhases;
    ReplacePhasesOccur(plan, StopsRuntime(plan));
    if plan.dataAction.Some? {
      RemovePhasesOccur(plan.dataAction.value, StopsRuntime(plan));
    }
    forall p ensures p in plan.phases <==> p in PhasesWith(plan, StopsRuntime(plan)) {
      match p {
        case Stage => case Checkpoint => case Migrate => case Ready => case Activate => case Drain =>
        case Deactivate => case RetainData => case ExportData => case DeleteData => case Remove => case Commit =>
      }
    }
  }

  lemma PhasesWithAreExpected(plan: Plan)
    requires plan.phases == PhasesWith(plan, StopsRuntime(plan)) && (plan.dataAction.Some? <==> plan.operation == Uninstall)
    ensures ExpectedPhases(plan) == Some(plan.phases)
    ensures plan.phases != [] && plan.phases[|plan.phases| - 1] == Commit
  {
    hide ReplacePhases, RemovePhases;
    ReplacePhasesOccur(plan, true);
    EndsWithCommit(plan, StopsRuntime(plan));
    if plan.dataAction.Some? {
      RemovePhasesOccur(plan.dataAction.value, true);
    }
  }

  lemma EndsWithCommit(plan: Plan, withRuntime: bool)
    requires plan.dataAction.Some? <==> plan.operation == Uninstall
    ensures PhasesWith(plan, withRuntime) != [] && PhasesWith(plan, withRuntime)[|PhasesWith(plan, withRuntime)| - 1] == Commit
  {
  }

  /** A data action comes with an uninstallation and an image with a migration. */
  predicate PartsBelongTogether(plan: Plan)
  {
    && (plan.dataAction.Some? <==> plan.operation == Uninstall)
    && (plan.migrationImage.Some? <==> Migrate in plan.phases)
  }

  /** The versions and data schemas an operation has. */
  predicate StartsAndEnds(plan: Plan)
  {
    && plan.fromDataSchema >= 0 && plan.toDataSchema >= 0
    && (plan.fromVersion.None? <==> plan.operation == Install)
    && (plan.toVersion.None? <==> plan.operation == Uninstall)
    && (plan.operation == Install ==> plan.fromDataSchema == 0)
    && (plan.operation == Uninstall ==> plan.toDataSchema == 0)
  }

  /**
   The envelope accepts exactly the plans whose phases are the right ones in the right order and whose other
   parts belong to the operation.
   */
  lemma EnvelopeAcceptsExactly(plan: Plan)
    ensures EnvelopeAcceptsPlan(plan) <==>
              Ascending(plan.phases) && PhasesOccurAsTheyShould(plan) && PartsBelongTogether(plan) && StartsAndEnds(plan)
  {
    hide ReplacePhases, RemovePhases, ExpectedPhases, Ascending, PhasesOccurAsTheyShould;
    if EnvelopeAcceptsPlan(plan) {
      AcceptedPhasesAscend(plan);
      AcceptedPhasesOccur(plan);
    }
    if Ascending(plan.phases) && PhasesOccurAsTheyShould(plan) && PartsBelongTogether(plan) {
      PhasesWithAscend(plan, StopsRuntime(plan));
      PhasesWithOccur(plan);
      SameMembersMeanSamePhases(plan.phases, PhasesWith(plan, StopsRuntime(plan)));
      PhasesWithAreExpected(plan);
    }
  }
}
