/**
 What a reader of JSON finds in the hash input of a lifecycle plan
 (packages/plugin-installer/src/execution.ts:237-259).
 */
module PlanReading {
  import opened Results
  import opened CanonicalJson
  import opened CanonicalJsonReading
  import opened LifecyclePlans
  import opened PlanHash

  /** The field of an object under a name, if it has one. */
  function Field(fields: map<Text, Value>, name: string): Option<Value>
  {
    if Utf16(name) in fields then Some(fields[Utf16(name)]) else None
  }

  function Word(s: string): Option<Value>
  {
    Some(VStr(Utf16(s)))
  }

  function OptionalWord(s: Option<string>): Option<Value>
  {
    if s.None? then None else Word(s.value)
  }

  /** The text is an object whose fields are those of the plan, under the names the plan type gives them. */
  ghost predicate SaysThePlan(fields: map<Text, Value>, plan: Plan)
  {
    SaysWhat(fields, plan) && SaysFromWhereTo(fields, plan) && SaysHow(fields, plan)
  }

  ghost predicate SaysWhat(fields: map<Text, Value>, plan: Plan)
  {
    && Field(fields, "apiVersion") == Word("lifecycle-plan.plugin.enterpriseglue.io/v1")
    && Field(fields, "kind") == Word("EnterpriseGluePluginLifecyclePlan")
    && Field(fields, "operation") ==
         Word(match plan.operation case Install => "install" case Upgrade => "upgrade" case Rollback => "rollback"
                                   case Disable => "disable" case Enable => "enable" case Uninstall => "uninstall")
    && Field(fields, "pluginId") == Word(plan.pluginId)
  }

  ghost predicate SaysFromWhereTo(fields: map<Text, Value>, plan: Plan)
  {
    && Field(fields, "fromVersion") == OptionalWord(plan.fromVersion)
    && Field(fields, "toVersion") == OptionalWord(plan.toVersion)
    && Field(fields, "fromDataSchema") == Some(VNum(plan.fromDataSchema))
    && Field(fields, "toDataSchema") == Some(VNum(plan.toDataSchema))
  }

  ghost predicate SaysHow(fields: map<Text, Value>, plan: Plan)
  {
    && Field(fields, "migrationImage") == OptionalWord(plan.migrationImage)
    && Field(fields, "rollbackSupported") == Some(VBool(plan.rollbackSupported))
    && Field(fields, "dataAction") ==
         (match plan.dataAction case None => None case Some(Retain) => Word("retain")
                                case Some(Export) => Word("export") case Some(Delete) => Word("delete"))
    && SaysThePhases(Field(fields, "phases"), plan.phases)
  }

  ghost predicate SaysThePhases(field: Option<Value>, phases: seq<Phase>)
  {
    && field.Some? && field.value.VArr? && |field.value.items| == |phases|
    && forall i :: 0 <= i < |phases| ==> Some(field.value.items[i]) == SpelledPhase(phases[i])
  }

  function SpelledPhase(p: Phase): Option<Value>
  {
    Word(match p
         case Stage => "stage" case Checkpoint => "checkpoint" case Migrate => "migrate" case Ready => "ready"
         case Activate => "activate" case Drain => "drain" case Deactivate => "deactivate"
         case RetainData => "retain_data" case ExportData => "export_data" case DeleteData => "delete_data"
         case Remove => "remove" case Commit => "commit")
  }

  lemma FieldAt(plan: Plan, fields: map<Text, Value>, i: nat)
    requires i < |PLAN_KEYS| && VObj(fields) == Meaning(Obj(Record(PLAN_KEYS, PlanValues(plan))))
    ensures Field(fields, PLAN_KEYS[i]) ==
              if PlanValue(plan, i).None? then None else Some(Meaning(PlanValue(plan, i).value))
  {
    hide Meaning, Utf16;
    PlanKeysAreDistinct();
    RecordField(PLAN_KEYS, PlanValues(plan), i);
  }

  lemma WhatIsThere(plan: Plan, fields: map<Text, Value>)
    requires VObj(fields) == Meaning(Obj(Record(PLAN_KEYS, PlanValues(plan))))
    ensures SaysWhat(fields, plan)
  {
    hide Utf16, Field, Record, PlanValues;
    FieldAt(plan, fields, 0);
    FieldAt(plan, fields, 1);
    FieldAt(plan, fields, 2);
    FieldAt(plan, fields, 3);
  }

  lemma FromWhereToIsThere(plan: Plan, fields: map<Text, Value>)
    requires VObj(fields) == Meaning(Obj(Record(PLAN_KEYS, PlanValues(plan))))
    ensures SaysFromWhereTo(fields, plan)
  {
    hide Utf16, Field, Record, PlanValues;
    FieldAt(plan, fields, 4);
    FieldAt(plan, fields, 5);
    FieldAt(plan, fields, 6);
    FieldAt(plan, fields, 7);
  }

  lemma HowIsThere(plan: Plan, fields: map<Text, Value>)
    requires VObj(fields) == Meaning(Obj(Record(PLAN_KEYS, PlanValues(plan))))
    ensures SaysHow(fields, plan)
  {
    hide Utf16, Field, Record, PlanValues, SaysThePhases, PhasesJson;
    FieldAt(plan, fields, 8);
    FieldAt(plan, fields, 9);
    FieldAt(plan, fields, 10);
    FieldAt(plan, fields, 11);
    PhasesAreSpelled(plan.phases);
  }

  /** A reader of the hash input finds exactly the plan in it. */
  lemma PlanTextIsThePlan(plan: Plan)
    ensures var read := ReadValue(PlanText(plan));
            && read.Some? && read.value.1 == [] && read.value.0.VObj?
            && SaysThePlan(read.value.0.fields, plan)
  {
    hide ReadValue, Canonical, Record, PlanValues, SaysWhat, SaysFromWhereTo, SaysHow;
    var record := Obj(Record(PLAN_KEYS, PlanValues(plan)));
    ReadingInvertsWriting(record);
    var fields := Meaning(record).fields;
    WhatIsThere(plan, fields);
    FromWhereToIsThere(plan, fields);
    HowIsThere(plan, fields);
  }

  lemma PhasesAreSpelled(phases: seq<Phase>)
    ensures SaysThePhases(Some(Meaning(PhasesJson(phases))), phases)
  {
    hide Utf16;
  }
}
