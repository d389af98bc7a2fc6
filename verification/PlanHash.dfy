/**
 The hash input of a lifecycle plan (packages/plugin-installer/src/execution.ts:255-259). Two plans have
 the same canonical text only if they are the same plan, so a plan hash stands for one plan as far as the
 digest itself is free of collisions.
 */
module PlanHash {
  import opened Results
  import opened CanonicalJson
  import opened CanonicalJsonProofs
  import opened LifecyclePlans

  /** SHA-256 in hexadecimal, as far as this model knows it. */
  type Digest = Text -> string

  // ---------------------------------------------------------------- the plan as a value

  function OperationName(operation: Operation): string
  {
    match operation
    case Install => "install"
    case Upgrade => "upgrade"
    case Rollback => "rollback"
    case Disable => "disable"
    case Enable => "enable"
    case Uninstall => "uninstall"
  }

  function PhaseName(phase: Phase): string
  {
    match phase
    case Stage => "stage"
    case Checkpoint => "checkpoint"
    case Migrate => "migrate"
    case Ready => "ready"
    case Activate => "activate"
    case Drain => "drain"
    case Deactivate => "deactivate"
    case RetainData => "retain_data"
    case ExportData => "export_data"
    case DeleteData => "delete_data"
    case Remove => "remove"
    case Commit => "commit"
  }

  function ActionName(action: DataAction): string
  {
    match action
    case Retain => "retain"
    case Export => "export"
    case Delete => "delete"
  }

  function StringJson(s: string): Json
  {
    Str(Utf16(s))
  }

  function OptionalJson(s: Option<string>): Option<Json>
  {
    if s.None? then None else Some(StringJson(s.value))
  }

  function PhasesJson(phases: seq<Phase>): Json
  {
    Arr(seq(|phases|, i requires 0 <= i < |phases| => StringJson(PhaseName(phases[i]))))
  }

  const PLAN_KEYS: seq<string> := [
    "apiVersion", "kind", "operation", "pluginId", "fromVersion", "toVersion", "fromDataSchema",
    "toDataSchema", "migrationImage", "rollbackSupported", "phases", "dataAction"]

  /** The value under each of the plan keys. */
  function PlanValue(plan: Plan, i: int): Option<Json>
    requires 0 <= i < |PLAN_KEYS|
  {
    if i == 0 then Some(StringJson("lifecycle-plan.plugin.enterpriseglue.io/v1"))
    else if i == 1 then Some(StringJson("EnterpriseGluePluginLifecyclePlan"))
    else if i == 2 then Some(StringJson(OperationName(plan.operation)))
    else if i == 3 then Some(StringJson(plan.pluginId))
    else if i == 4 then OptionalJson(plan.fromVersion)
    else if i == 5 then OptionalJson(plan.toVersion)
    else if i == 6 then Some(Num(plan.fromDataSchema))
    else if i == 7 then Some(Num(plan.toDataSchema))
    else if i == 8 then OptionalJson(plan.migrationImage)
    else if i == 9 then Some(Bool(plan.rollbackSupported))
    else if i == 10 then Some(PhasesJson(plan.phases))
    else if plan.dataAction.None? then None
    else Some(StringJson(ActionName(plan.dataAction.value)))
  }

  function PlanValues(plan: Plan): (r: seq<Option<Json>>)
    ensures |r| == |PLAN_KEYS| && forall i :: 0 <= i < |r| ==> r[i] == PlanValue(plan, i)
  {
    seq(|PLAN_KEYS|, i requires 0 <= i < |PLAN_KEYS| => PlanValue(plan, i))
  }

  function Record(keys: seq<string>, values: seq<Option<Json>>): (r: seq<Member>)
    requires |keys| == |values|
    ensures |r| == |keys| && forall i :: 0 <= i < |r| ==> r[i] == Member(Utf16(keys[i]), values[i])
  {
    seq(|keys|, i requires 0 <= i < |keys| => Member(Utf16(keys[i]), values[i]))
  }

  function PlanText(plan: Plan): Text
  {
    Canonical(Obj(Record(PLAN_KEYS, PlanValues(plan))))
  }

  function HashPlan(sha: Digest, plan: Plan): string
  {
    sha(PlanText(plan))
  }

  // ---------------------------------------------------------------- plans are told apart

  /** The keys differ in length or in their first character. */
  function Signature(key: string): int
    requires key != ""
  {
    |key| * 1000 + key[0] as int
  }

  const API_VERSION_SIGNATURE := 10_097
  const KIND_SIGNATURE := 4_107
  const OPERATION_SIGNATURE := 9_111
  const PLUGIN_ID_SIGNATURE := 8_112
  const FROM_VERSION_SIGNATURE := 11_102
  const TO_VERSION_SIGNATURE := 9_116
  const FROM_DATA_SCHEMA_SIGNATURE := 14_102
  const TO_DATA_SCHEMA_SIGNATURE := 12_116
  const MIGRATION_IMAGE_SIGNATURE := 14_109
  const ROLLBACK_SUPPORTED_SIGNATURE := 17_114
  const PHASES_SIGNATURE := 6_112
  const DATA_ACTION_SIGNATURE := 10_100

  /** In the order of `PLAN_KEYS`. */
  const SIGNATURES: seq<int> := [
    API_VERSION_SIGNATURE, KIND_SIGNATURE, OPERATION_SIGNATURE, PLUGIN_ID_SIGNATURE, FROM_VERSION_SIGNATURE,
    TO_VERSION_SIGNATURE, FROM_DATA_SCHEMA_SIGNATURE, TO_DATA_SCHEMA_SIGNATURE, MIGRATION_IMAGE_SIGNATURE,
    ROLLBACK_SUPPORTED_SIGNATURE, PHASES_SIGNATURE, DATA_ACTION_SIGNATURE]

  lemma PlanKeysAreDistinct()
    ensures forall i, j :: 0 <= i < j < |PLAN_KEYS| ==> PLAN_KEYS[i] != PLAN_KEYS[j]
  {
    assert forall i :: 0 <= i < |PLAN_KEYS| ==> PLAN_KEYS[i] != "" && Signature(PLAN_KEYS[i]) == SIGNATURES[i];
    assert forall i, j :: 0 <= i < j < |SIGNATURES| ==> SIGNATURES[i] != SIGNATURES[j];
    forall i, j | 0 <= i < j < |PLAN_KEYS| ensures PLAN_KEYS[i] != PLAN_KEYS[j] {
      assert SIGNATURES[i] != SIGNATURES[j];
    }
  }

  ghost predicate DistinctStrings(keys: seq<string>)
  {
    forall i, j :: 0 <= i < j < |keys| ==> keys[i] != keys[j]
  }

  lemma RecordKeysAreDistinct(keys: seq<string>, values: seq<Option<Json>>)
    requires |keys| == |values| && DistinctStrings(keys)
    ensures var r := Record(keys, values); forall i, j :: 0 <= i < j < |r| ==> r[i].key != r[j].key
  {
    forall i, j | 0 <= i < j < |keys| ensures Utf16(keys[i]) != Utf16(keys[j]) {
      if Utf16(keys[i]) == Utf16(keys[j]) { Utf16Injective(keys[i], keys[j]); }
    }
  }

  /** The meaning of a record holds, under each key, the meaning of its value. */
  lemma RecordField(keys: seq<string>, values: seq<Option<Json>>, i: nat)
    requires |keys| == |values| && DistinctStrings(keys) && i < |keys|
    ensures var f := Meaning(Obj(Record(keys, values))).fields;
            && (Utf16(keys[i]) in f <==> values[i].Some?)
            && (values[i].Some? ==> f[Utf16(keys[i])] == Meaning(values[i].value))
  {
    var r := Record(keys, values);
    RecordKeysAreDistinct(keys, values);
    var f := Meaning(Obj(r)).fields;
    assert Utf16(keys[i]) in f <==> Utf16(keys[i]) in DefinedKeys(r);
    assert r[i] == Member(Utf16(keys[i]), values[i]);
    if Utf16(keys[i]) in DefinedKeys(r) {
      var k :| 0 <= k < |r| && r[k] == Member(Utf16(keys[i]), Some(Lookup(r, Utf16(keys[i]))));
      assert k == i;
    }
  }

  lemma RecordsAgree(keys: seq<string>, u: seq<Option<Json>>, v: seq<Option<Json>>, i: nat)
    requires |keys| == |u| == |v| && DistinctStrings(keys) && i < |keys|
    requires Meaning(Obj(Record(keys, u))) == Meaning(Obj(Record(keys, v)))
    ensures u[i].Some? <==> v[i].Some?
    ensures u[i].Some? ==> Meaning(u[i].value) == Meaning(v[i].value)
  {
    RecordField(keys, u, i);
    RecordField(keys, v, i);
  }

  lemma StringsAgree(a: string, b: string)
    requires Meaning(StringJson(a)) == Meaning(StringJson(b))
    ensures a == b
  {
    Utf16Injective(a, b);
  }

  lemma OptionalStringsAgree(a: Option<string>, b: Option<string>)
    requires OptionalJson(a).Some? <==> OptionalJson(b).Some?
    requires a.Some? && b.Some? ==> Meaning(OptionalJson(a).value) == Meaning(OptionalJson(b).value)
    ensures a == b
  {
    if a.Some? {
      StringsAgree(a.value, b.value);
    }
  }

  lemma OperationNamesAgree(a: Operation, b: Operation)
    requires OperationName(a) == OperationName(b)
    ensures a == b
  {
    var x, y := OperationName(a), OperationName(b);
    assert |x| == |y| && x[0] == y[0];
  }

  lemma ActionNamesAgree(a: DataAction, b: DataAction)
    requires ActionName(a) == ActionName(b)
    ensures a == b
  {
    assert ActionName(a)[0] == ActionName(b)[0];
  }

  lemma PhaseNamesAgree(a: Phase, b: Phase)
    requires PhaseName(a) == PhaseName(b)
    ensures a == b
  {
    var x, y := PhaseName(a), PhaseName(b);
    assert |x| == |y| && x[0] == y[0] && x[2] == y[2];
  }

  lemma PhasesAgree(a: seq<Phase>, b: seq<Phase>)
    requires Meaning(PhasesJson(a)) == Meaning(PhasesJson(b))
    ensures a == b
  {
    var x, y := Meaning(PhasesJson(a)).items, Meaning(PhasesJson(b)).items;
    assert |a| == |x| == |y| == |b|;
    forall i | 0 <= i < |a| ensures a[i] == b[i] {
      assert x[i] == Meaning(StringJson(PhaseName(a[i]))) && y[i] == Meaning(StringJson(PhaseName(b[i])));
      StringsAgree(PhaseName(a[i]), PhaseName(b[i]));
      PhaseNamesAgree(a[i], b[i]);
    }
  }

  lemma PlanValueIsValue(plan: Plan, i: int)
    requires 0 <= i < |PLAN_KEYS| && PlanValue(plan, i).Some?
    ensures IsValue(PlanValue(plan, i).value)
  {
    if i == 10 {
      assert PlanValue(plan, 10).value == PhasesJson(plan.phases);
    }
  }

  lemma PlanRecordIsValue(plan: Plan)
    ensures IsValue(Obj(Record(PLAN_KEYS, PlanValues(plan))))
  {
    PlanKeysAreDistinct();
    RecordKeysAreDistinct(PLAN_KEYS, PlanValues(plan));
    var r := Record(PLAN_KEYS, PlanValues(plan));
    forall i | 0 <= i < |r| && r[i].value.Some? ensures IsValue(r[i].value.value) {
      assert r[i].value == PlanValue(plan, i);
      PlanValueIsValue(plan, i);
    }
  }

  ghost predicate FieldsAgree(p: Plan, q: Plan, i: int)
    requires 0 <= i < |PLAN_KEYS|
  {
    var x, y := PlanValue(p, i), PlanValue(q, i);
    (x.Some? <==> y.Some?) && (x.Some? ==> Meaning(x.value) == Meaning(y.value))
  }

  lemma EqualTextsAgree(p: Plan, q: Plan, i: int)
    requires PlanText(p) == PlanText(q) && 0 <= i < |PLAN_KEYS|
    ensures FieldsAgree(p, q, i)
  {
    var u, v := PlanValues(p), PlanValues(q);
    PlanRecordIsValue(p);
    PlanRecordIsValue(q);
    CanonicalForm(Obj(Record(PLAN_KEYS, u)), Obj(Record(PLAN_KEYS, v)));
    PlanKeysAreDistinct();
    RecordsAgree(PLAN_KEYS, u, v, i);
  }

  lemma OperationsAgree(p: Plan, q: Plan)
    requires FieldsAgree(p, q, 2)
    ensures p.operation == q.operation
  {
    StringsAgree(OperationName(p.operation), OperationName(q.operation));
    OperationNamesAgree(p.operation, q.operation);
  }

  lemma PluginIdsAgree(p: Plan, q: Plan)
    requires FieldsAgree(p, q, 3)
    ensures p.pluginId == q.pluginId
  {
    StringsAgree(p.pluginId, q.pluginId);
  }

  lemma FromVersionsAgree(p: Plan, q: Plan)
    requires FieldsAgree(p, q, 4)
    ensures p.fromVersion == q.fromVersion
  {
    OptionalStringsAgree(p.fromVersion, q.fromVersion);
  }

  lemma ToVersionsAgree(p: Plan, q: Plan)
    requires FieldsAgree(p, q, 5)
    ensures p.toVersion == q.toVersion
  {
    OptionalStringsAgree(p.toVersion, q.toVersion);
  }

  lemma ImagesAgree(p: Plan, q: Plan)
    requires FieldsAgree(p, q, 8)
    ensures p.migrationImage == q.migrationImage
  {
    OptionalStringsAgree(p.migrationImage, q.migrationImage);
  }

  lemma NumbersAgree(p: Plan, q: Plan)
    requires FieldsAgree(p, q, 6) && FieldsAgree(p, q, 7) && FieldsAgree(p, q, 9)
    ensures p.fromDataSchema == q.fromDataSchema && p.toDataSchema == q.toDataSchema
    ensures p.rollbackSupported == q.rollbackSupported
  {
  }

  lemma ActionsAgree(p: Plan, q: Plan)
    requires FieldsAgree(p, q, 11)
    ensures p.dataAction == q.dataAction
  {
    if p.dataAction.Some? {
      StringsAgree(ActionName(p.dataAction.value), ActionName(q.dataAction.value));
      ActionNamesAgree(p.dataAction.value, q.dataAction.value);
    }
  }

  lemma PhaseListsAgree(p: Plan, q: Plan)
    requires FieldsAgree(p, q, 10)
    ensures p.phases == q.phases
  {
    PhasesAgree(p.phases, q.phases);
  }

  lemma AgreeingPlansAreEqual(p: Plan, q: Plan)
    requires forall i :: 0 <= i < |PLAN_KEYS| ==> FieldsAgree(p, q, i)
    ensures p == q
  {
    OperationsAgree(p, q);
    PluginIdsAgree(p, q);
    FromVersionsAgree(p, q);
    ToVersionsAgree(p, q);
    NumbersAgree(p, q);
    ImagesAgree(p, q);
    PhaseListsAgree(p, q);
    ActionsAgree(p, q);
  }

  /** As far as the digest is free of collisions a hash stands for one plan: two plans with one hash make a collision. */
  lemma HashStandsForOnePlan(sha: Digest, p: Plan, q: Plan)
    ensures HashPlan(sha, p) == HashPlan(sha, q) <==> p == q || (PlanText(p) != PlanText(q) && sha(PlanText(p)) == sha(PlanText(q)))
  {
    hide PlanText;
    PlanTextIsInjective(p, q);
  }

  /** Distinct plans never share a hash input. */
  lemma PlanTextIsInjective(p: Plan, q: Plan)
    ensures PlanText(p) == PlanText(q) <==> p == q
  {
    if PlanText(p) == PlanText(q) {
      forall i | 0 <= i < |PLAN_KEYS| ensures FieldsAgree(p, q, i) {
        EqualTextsAgree(p, q, i);
      }
      AgreeingPlansAreEqual(p, q);
    }
  }
}
