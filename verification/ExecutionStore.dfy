/**
 The execution store as one atomic object (packages/plugin-installer/src/executionStore.ts:94-153, 250-305,
 packages/plugin-installer/src/kubernetesExecutionStore.ts:208-259, 302-366, 479-537): what one request
 does to the stored record, and what every sequence of such steps keeps.
 */
module ExecutionStore {
  import opened Results
  import opened LifecyclePlans
  import opened PlanHash
  import opened Execution

  datatype HistoryEntry = HistoryEntry(envelope: Envelope, execution: Execution)

  datatype Stored = Stored(envelope: Envelope, execution: Execution, history: seq<HistoryEntry>)

  datatype Request =
    | Initialize(executionId: string, at: int, supersede: Option<int>)
    | Mutate(expectedRevision: int, change: Change)

  /** What a successful request asks of the store: nothing, or to replace the record. */
  datatype Effect = Keep(execution: Execution) | Write(stored: Stored)

  function LastHundred(history: seq<HistoryEntry>): seq<HistoryEntry>
  {
    if |history| <= 100 then history else history[|history| - 100..]
  }

  predicate EntryIsReadable(sha: Digest, x: Execution, e: Envelope)
  {
    ParseEnvelope(sha, e).Ok? && ParseExecution(sha, x, e).Ok?
  }

  /** `parseStored`: the record and its last hundred predecessors all parse. */
  predicate IsReadable(sha: Digest, s: Stored)
  {
    && EntryIsReadable(sha, s.execution, s.envelope)
    && forall h :: h in LastHundred(s.history) ==> EntryIsReadable(sha, h.execution, h.envelope)
  }

  predicate SamePlan(a: Envelope, b: Envelope)
  {
    a.desiredRevision == b.desiredRevision && a.planSha256 == b.planSha256
  }

  /** A finished execution, or a failed one whose revision the caller names, may be superseded. */
  predicate MayBeSuperseded(x: Execution, supersede: Option<int>)
  {
    || x.status == Succeeded
    || ((x.status == Failed || x.status == ManualIntervention) && supersede == Some(x.revision))
  }

  function ApplyInitialize(sha: Digest, planRead: Option<Envelope>, current: Option<Stored>,
                           executionId: string, at: int, supersede: Option<int>): Result<Effect, ErrorCode>
  {
    if planRead.None? then Err(PlanUnavailable)
    else if ParseEnvelope(sha, planRead.value).Err? then Err(ParseEnvelope(sha, planRead.value).error)
    else if planRead.value.plan.None? then Err(PlanUnavailable)
    else if current.Some? && !IsReadable(sha, current.value) then Err(StoreCorrupt)
    else if current.Some? && SamePlan(current.value.envelope, planRead.value) then Ok(Keep(current.value.execution))
    else if current.Some? && !MayBeSuperseded(current.value.execution, supersede) then Err(ExecutionActive)
    else
      var created := Create(sha, planRead.value, executionId, at);
      if created.Err? then Err(created.error) else
        var history :=
          if current.None? then []
          else LastHundred(LastHundred(current.value.history) + [HistoryEntry(current.value.envelope, current.value.execution)]);
        Ok(Write(Stored(planRead.value, created.value, history)))
  }

  function ApplyMutate(sha: Digest, planRead: Option<Envelope>, current: Option<Stored>,
                       expectedRevision: int, change: Change): Result<Effect, ErrorCode>
  {
    if current.None? then Err(ExecutionNotFound)
    else if !IsReadable(sha, current.value) then Err(StoreCorrupt)
    else if planRead.None? then Err(PlanUnavailable)
    else if ParseEnvelope(sha, planRead.value).Err? then Err(ParseEnvelope(sha, planRead.value).error)
    else if !SamePlan(planRead.value, current.value.envelope) then Err(PlanMismatch)
    else if current.value.execution.revision != expectedRevision then Err(RevisionConflict)
    else
      var x := current.value.execution;
      var y := Transition(sha, x, current.value.envelope, change);
      if y.Err? then Err(y.error)
      else if ParseExecution(sha, y.value, current.value.envelope).Err? then
        Err(ParseExecution(sha, y.value, current.value.envelope).error)
      else if y.value.revision == x.revision then Ok(Keep(y.value))
      else if y.value.revision != x.revision + 1 then Err(StoreCorrupt)
      else Ok(Write(Stored(current.value.envelope, y.value, LastHundred(current.value.history))))
  }

  /** One request against the record it finds and the plan file it reads. */
  function Apply(sha: Digest, planRead: Option<Envelope>, current: Option<Stored>, r: Request): Result<Effect, ErrorCode>
  {
    match r
    case Initialize(executionId, at, supersede) => ApplyInitialize(sha, planRead, current, executionId, at, supersede)
    case Mutate(expectedRevision, change) => ApplyMutate(sha, planRead, current, expectedRevision, change)
  }

  // ---------------------------------------------------------------- what a request does

  /** The request finds a usable plan file and, if there is a record, a readable one. */
  ghost predicate InputsAreUsable(sha: Digest, planRead: Option<Envelope>, current: Option<Stored>)
  {
    && planRead.Some? && planRead.value.plan.Some? && ParseEnvelope(sha, planRead.value).Ok?
    && (current.Some? ==> IsReadable(sha, current.value))
  }

  /** No request gets past a plan file or a record that does not parse, and a mutation needs a record. */
  lemma UnusableInputsAreRefused(sha: Digest, planRead: Option<Envelope>, current: Option<Stored>, r: Request)
    ensures Apply(sha, planRead, current, r).Ok? ==>
              && planRead.Some? && ParseEnvelope(sha, planRead.value).Ok? && planRead.value.plan.Some?
              && (current.Some? ==>
                    var s := current.value;
                    && Accepted(sha, s.execution, s.envelope)
                    && forall i :: 0 <= i < |s.history| && i >= |s.history| - 100 ==>
                         Accepted(sha, s.history[i].execution, s.history[i].envelope))
              && (r.Mutate? ==> current.Some?)
    ensures planRead.None? ==> Apply(sha, planRead, current, r).Err?
    ensures r.Mutate? && current.None? ==> Apply(sha, planRead, current, r) == Err(ExecutionNotFound)
    ensures r.Initialize? && (planRead.None? || (ParseEnvelope(sha, planRead.value).Ok? && planRead.value.plan.None?)) ==>
              Apply(sha, planRead, current, r) == Err(PlanUnavailable)
  {
    hide ParseEnvelope, ParseExecution, Transition, Create;
    if Apply(sha, planRead, current, r).Ok? && current.Some? {
      ReadableMeans(sha, current.value);
      RecordHasPlan(sha, current.value.execution, current.value.envelope);
    }
  }

  lemma ReadableMeans(sha: Digest, s: Stored)
    requires IsReadable(sha, s)
    ensures Accepted(sha, s.execution, s.envelope)
    ensures forall i :: 0 <= i < |s.history| && i >= |s.history| - 100 ==> Accepted(sha, s.history[i].execution, s.history[i].envelope)
  {
    hide ParseEnvelope, ParseExecution;
    forall i | 0 <= i < |s.history| && i >= |s.history| - 100 ensures Accepted(sha, s.history[i].execution, s.history[i].envelope) {
      var last := LastHundred(s.history);
      assert last[i - (|s.history| - |last|)] == s.history[i];
      assert s.history[i] in last;
    }
  }

  lemma RecordHasPlan(sha: Digest, x: Execution, e: Envelope)
    requires Accepted(sha, x, e)
    ensures e.plan.Some? && e.planSha256.Some?
    ensures forall other: Envelope :: ParseEnvelope(sha, other).Ok? && SamePlan(other, e) ==> other.plan.Some?
  {
    hide EnvelopeAcceptsPlan, IsHexDigest, HashPlan;
  }

  /** The history after one more entry: the newest hundred. */
  ghost predicate IsHistoryAfter(before: seq<HistoryEntry>, entry: HistoryEntry, after: seq<HistoryEntry>)
  {
    if |before| < 100 then after == before + [entry] else after == before[|before| - 99..] + [entry]
  }

  lemma HistoryAfterEntry(before: seq<HistoryEntry>, entry: HistoryEntry)
    ensures IsHistoryAfter(before, entry, LastHundred(LastHundred(before) + [entry]))
  {
  }

  /**
   An initialization keeps the execution of the same plan; replaces one that succeeded, or the failed one
   whose revision is named, and archives it; and refuses to replace any other.
   */
  lemma InitializeOutcome(sha: Digest, planRead: Option<Envelope>, current: Option<Stored>, executionId: string, at: int, supersede: Option<int>)
    requires InputsAreUsable(sha, planRead, current)
    ensures var r := Apply(sha, planRead, current, Initialize(executionId, at, supersede));
            if current.Some? && current.value.envelope.desiredRevision == planRead.value.desiredRevision
               && current.value.envelope.planSha256 == planRead.value.planSha256 then r == Ok(Keep(current.value.execution))
            else if current.Some?
                && (current.value.execution.status == Queued || current.value.execution.status == Running
                    || (current.value.execution.status != Succeeded && supersede != Some(current.value.execution.revision)))
              then r == Err(ExecutionActive)
            else if !IsOpaqueId(executionId) then r.Err? && r.error != ExecutionActive
            else
              && r.Ok? && r.value.Write? && r.value.stored.envelope == planRead.value
              && Create(sha, planRead.value, executionId, at) == Ok(r.value.stored.execution)
              && if current.None? then r.value.stored.history == []
                 else IsHistoryAfter(current.value.history, HistoryEntry(current.value.envelope, current.value.execution), r.value.stored.history)
  {
    hide HashPlan, IsReadable, IsOpaqueId, LastHundred, IsHistoryAfter, EnvelopeAcceptsPlan, IsHexDigest;
    CreationSucceedsExactly(sha, planRead.value, executionId, at);
    if current.Some? {
      HistoryAfterEntry(current.value.history, HistoryEntry(current.value.envelope, current.value.execution));
    }
  }

  /**
   A mutation is refused for another plan or another revision; otherwise it is exactly the transition, kept
   if it changes nothing and written if it is not dated before the creation.
   */
  lemma MutateOutcome(sha: Digest, planRead: Option<Envelope>, s: Stored, expectedRevision: int, c: Change)
    requires InputsAreUsable(sha, planRead, Some(s))
    ensures var r, y := Apply(sha, planRead, Some(s), Mutate(expectedRevision, c)), Transition(sha, s.execution, s.envelope, c);
            if planRead.value.desiredRevision != s.envelope.desiredRevision || planRead.value.planSha256 != s.envelope.planSha256
              then r == Err(PlanMismatch)
            else if s.execution.revision != expectedRevision then r == Err(RevisionConflict)
            else if y.Err? then r == Err(y.error)
            else if y.value == s.execution then r == Ok(Keep(s.execution))
            else if c.at < s.execution.createdAt then r.Err?
            else r == Ok(Write(Stored(s.envelope, y.value, LastHundred(s.history))))
  {
    hide ParseExecution, ParseEnvelope, Transition, PlanMatches, LastHundred;
    var y := Transition(sha, s.execution, s.envelope, c);
    if y.Ok? {
      ChangeShape(sha, s.execution, s.envelope, c, y.value);
      ChangeIsAccepted(sha, s.execution, s.envelope, c, y.value);
    }
  }

  // ---------------------------------------------------------------- runs of the atomic store

  /** One committed request: the record it replaced and the record it wrote. */
  datatype CommitEntry = CommitEntry(planRead: Option<Envelope>, request: Request, before: Option<Stored>, after: Stored)

  ghost predicate IsStep(sha: Digest, c: CommitEntry)
  {
    Apply(sha, c.planRead, c.before, c.request) == Ok(Write(c.after))
  }

  /** Commit `i` is one request, made of the record that commit `i - 1` left. */
  ghost predicate StepAt(sha: Digest, log: seq<CommitEntry>, i: int)
    requires 0 <= i < |log|
  {
    IsStep(sha, log[i]) && log[i].before == (if i == 0 then None else Some(log[i - 1].after))
  }

  /** Every record comes from its immediate predecessor by one request. */
  ghost predicate AtomicRun(sha: Digest, log: seq<CommitEntry>)
  {
    forall i :: 0 <= i < |log| ==> StepAt(sha, log, i)
  }

  /** The record a run leaves. */
  function LastRecord(log: seq<CommitEntry>): Option<Stored>
  {
    if log == [] then None else Some(log[|log| - 1].after)
  }

  lemma AppendKeepsRun(sha: Digest, log: seq<CommitEntry>, c: CommitEntry)
    requires AtomicRun(sha, log) && IsStep(sha, c) && c.before == LastRecord(log)
    ensures AtomicRun(sha, log + [c])
  {
    hide Apply;
    forall i | 0 <= i < |log| + 1 ensures StepAt(sha, log + [c], i) {
      if i < |log| {
        assert StepAt(sha, log, i);
      }
    }
  }

  // ---------------------------------------------------------------- what a step keeps

  /** Beyond what the parser checks: failures are classified by what was already migrated. */
  ghost predicate FailureIsClassified(x: Execution, e: Envelope)
  {
    && (x.status == ManualIntervention ==> e.plan.Some? && Irreversible(x, e.plan.value))
    && (x.status == Failed ==> e.plan.Some? && !Irreversible(x, e.plan.value))
  }

  ghost predicate WellStored(sha: Digest, s: Stored)
  {
    && IsReadable(sha, s) && |s.history| <= 100
    && FailureIsClassified(s.execution, s.envelope) && KeepsToPlan(s.execution, s.envelope)
  }

  lemma LastHundredIsBounded(history: seq<HistoryEntry>)
    ensures |LastHundred(history)| <= 100
    ensures LastHundred(LastHundred(history)) == LastHundred(history)
    ensures forall h :: h in LastHundred(history) ==> h in history
  {
  }

  lemma InitializeKeepsWellStored(sha: Digest, c: CommitEntry)
    requires IsStep(sha, c) && c.request.Initialize?
    ensures WellStored(sha, c.after)
    ensures c.after.execution.revision == 0 && c.after.execution.completedPhases == []
    ensures c.before.Some? ==> MayBeSuperseded(c.before.value.execution, c.request.supersede)
  {
    var e := c.planRead.value;
    CreatedIsAccepted(sha, e, c.request.executionId, c.request.at, c.after.execution);
    if c.before.Some? {
      var entry := HistoryEntry(c.before.value.envelope, c.before.value.execution);
      LastHundredIsBounded(LastHundred(c.before.value.history) + [entry]);
    }
  }

  /** A mutation keeps identity, plan and history, and moves the revision by exactly one. */
  lemma MutateShape(sha: Digest, c: CommitEntry)
    requires IsStep(sha, c) && c.request.Mutate?
    ensures c.before.Some? && IsReadable(sha, c.before.value)
    ensures var x, y := c.before.value.execution, c.after.execution;
            && Transition(sha, x, c.after.envelope, c.request.change) == Ok(y)
            && x.revision == c.request.expectedRevision && y.revision == x.revision + 1
            && SameExecution(x, y) && Advances(x, y)
    ensures c.after.envelope == c.before.value.envelope && c.after.history == LastHundred(c.before.value.history)
    ensures EntryIsReadable(sha, c.after.execution, c.after.envelope)
  {
    hide ParseExecution, ParseEnvelope, Transition, PlanMatches, Create, LastHundred;
    ChangeShape(sha, c.before.value.execution, c.after.envelope, c.request.change, c.after.execution);
  }

  lemma MutateKeepsWellStored(sha: Digest, c: CommitEntry)
    requires IsStep(sha, c) && c.request.Mutate? && WellStored(sha, c.before.value)
    ensures WellStored(sha, c.after)
  {
    MutateShape(sha, c);
    LastHundredIsBounded(c.before.value.history);
    ManualInterventionArises(sha, c.before.value.execution, c.after.envelope, c.request.change, c.after.execution);
    ChangeKeepsToPlan(sha, c.before.value.execution, c.after.envelope, c.request.change, c.after.execution);
    ChangeShape(sha, c.before.value.execution, c.after.envelope, c.request.change, c.after.execution);
  }

  /** Every record of every run is one the parser accepts, with its failures classified and its history bounded. */
  lemma {:induction false} EveryRecordIsWellStored(sha: Digest, log: seq<CommitEntry>, i: nat)
    requires AtomicRun(sha, log) && i < |log|
    ensures WellStored(sha, log[i].after)
  {
    hide Apply, WellStored, IsReadable, LastHundred, EntryIsReadable, Transition, Advances, SameExecution;
    assert StepAt(sha, log, i);
    if log[i].request.Initialize? {
      InitializeKeepsWellStored(sha, log[i]);
    } else {
      MutateShape(sha, log[i]);
      EveryRecordIsWellStored(sha, log, i - 1);
      MutateKeepsWellStored(sha, log[i]);
    }
  }

  /** What the parser guarantees of a record, in plain words. */
  lemma RecordMeaning(sha: Digest, s: Stored)
    requires WellStored(sha, s)
    ensures s.envelope.plan.Some?
    ensures var plan, x := s.envelope.plan.value, s.execution;
            && DistinctPhases(plan.phases)
            && x.completedPhases <= plan.phases
            && (x.status == Succeeded <==> x.completedPhases == plan.phases)
            && (x.nextPhase == PhaseAt(plan.phases, |x.completedPhases|))
            && (x.status == ManualIntervention ==> Migrate in x.completedPhases && !plan.rollbackSupported)
  {
    AcceptedPhasesAreDistinct(s.envelope.plan.value);
  }

  // ---------------------------------------------------------------- no update is lost

  ghost predicate SameExecutionThroughout(log: seq<CommitEntry>, i: int, j: int)
    requires 0 <= i <= j < |log|
  {
    forall k :: i < k <= j ==> log[k].request.Mutate?
  }

  /**
   Between two records with no initialization in between, the revision counts the commits, and the phases
   completed at first are a prefix of those completed at last.
   */
  lemma {:induction false} RevisionsCountCommits(sha: Digest, log: seq<CommitEntry>, i: nat, j: nat)
    requires AtomicRun(sha, log) && i <= j < |log| && SameExecutionThroughout(log, i, j)
    ensures log[j].after.execution.revision == log[i].after.execution.revision + (j - i)
    ensures log[j].after.execution.executionId == log[i].after.execution.executionId
    ensures log[j].after.envelope == log[i].after.envelope
    ensures log[i].after.execution.completedPhases <= log[j].after.execution.completedPhases
    decreases j
  {
    hide Apply, IsReadable, LastHundred, EntryIsReadable, Transition;
    if i < j {
      RevisionsCountCommits(sha, log, i, j - 1);
      assert StepAt(sha, log, j);
      MutateShape(sha, log[j]);
    }
  }

  // ---------------------------------------------------------------- leases

  function RequestTime(r: Request): int
  {
    match r
    case Initialize(_, at, _) => at
    case Mutate(_, change) => change.at
  }

  ghost predicate TimesNondecreasing(log: seq<CommitEntry>)
  {
    forall i, j :: 0 <= i <= j < |log| ==> RequestTime(log[i].request) <= RequestTime(log[j].request)
  }

  predicate ActsFor(r: Request, owner: string)
  {
    r.Mutate? && !r.change.RecoverChange? && r.change.owner == owner
  }

  predicate HeldBy(s: Stored, owner: string, until: int)
  {
    s.execution.status == Running && s.execution.leaseOwner == Some(owner) && s.execution.leaseExpiresAt.Some?
    && s.execution.leaseExpiresAt.value >= until
  }

  /**
   A commit by which the owner of a lease lets it end before `until`: a failure, the last phase of the plan,
   or a claim or renewal that runs out earlier.
   */
  predicate GivesLeaseUp(c: CommitEntry, until: int)
  {
    && c.before.Some? && c.request.Mutate?
    && match c.request.change
       case ClaimChange(_, at, leaseMs) => at + leaseMs < until
       case RenewChange(_, at, leaseMs) => at + leaseMs < until
       case CompleteChange(_, _, _) => CompletesThePlan(c.before.value)
       case FailChange(_, _) => true
       case RecoverChange(_) => false
  }

  predicate CompletesThePlan(s: Stored)
  {
    s.envelope.plan.Some? && |s.execution.completedPhases| + 1 >= |s.envelope.plan.value.phases|
  }

  /** While a lease is in force only its owner gets a request through. */
  lemma StepUnderLease(sha: Digest, c: CommitEntry, owner: string, until: int)
    requires IsStep(sha, c) && c.before.Some? && HeldBy(c.before.value, owner, until)
    requires RequestTime(c.request) < until
    ensures ActsFor(c.request, owner)
  {
    hide IsReadable, ParseEnvelope, ParseExecution, PlanMatches, HashPlan, Create, SamePlan, LastHundred, IsOpaqueId;
    if c.request.Mutate? {
      MutateShape(sha, c);
    }
  }

  /** Every renewal, completion and failure that is committed is made under the lease of the worker who makes it. */
  lemma CommitsAreMadeUnderLease(sha: Digest, log: seq<CommitEntry>, i: nat)
    requires AtomicRun(sha, log) && i < |log| && log[i].request.Mutate? && NeedsLease(log[i].request.change)
    ensures log[i].before.Some? && HeldBy(log[i].before.value, log[i].request.change.owner, RequestTime(log[i].request) + 1)
  {
    hide Apply, IsReadable, ParseExecution, PlanMatches, Transition;
    assert StepAt(sha, log, i);
    MutateShape(sha, log[i]);
    OnlyAHolderGoesOn(sha, log[i].before.value.execution, log[i].after.envelope, log[i].request.change);
  }

  /** A commit under a lease leaves it in force until the same time, exactly unless it gives the lease up. */
  lemma StepKeepsLease(sha: Digest, c: CommitEntry, owner: string, until: int)
    requires IsStep(sha, c) && c.before.Some? && HeldBy(c.before.value, owner, until)
    requires RequestTime(c.request) < until
    ensures HeldBy(c.after, owner, until) <==> !GivesLeaseUp(c, until)
  {
    hide Apply, IsReadable, ParseEnvelope, ParseExecution, HashPlan, LastHundred, IsOpaqueId;
    StepUnderLease(sha, c, owner, until);
    MutateShape(sha, c);
  }

  /** A commit that gives `owner` the lease from `start` for `leaseMs`. */
  ghost predicate Grants(c: CommitEntry, owner: string, start: int, leaseMs: int)
  {
    && ActsFor(c.request, owner) && RequestTime(c.request) == start
    && (c.request.change.ClaimChange? || c.request.change.RenewChange?) && c.request.change.leaseMs == leaseMs
  }

  lemma GrantHolds(sha: Digest, c: CommitEntry, owner: string, start: int, leaseMs: int)
    requires IsStep(sha, c) && Grants(c, owner, start, leaseMs)
    ensures HeldBy(c.after, owner, start + leaseMs)
  {
    MutateShape(sha, c);
  }

  /**
   Over a run: from the grant on the lease is in force until its end at every commit, if and only if no
   commit gave it up.
   */
  lemma {:induction false} LeaseHeldExactly(sha: Digest, log: seq<CommitEntry>, i: nat, j: nat, owner: string, start: int, leaseMs: int)
    requires AtomicRun(sha, log) && TimesNondecreasing(log) && i <= j < |log|
    requires Grants(log[i], owner, start, leaseMs)
    requires RequestTime(log[j].request) < start + leaseMs
    ensures (forall k :: i <= k <= j ==> HeldBy(log[k].after, owner, start + leaseMs))
              <==> (forall k :: i < k <= j ==> !GivesLeaseUp(log[k], start + leaseMs))
    decreases j
  {
    hide Apply, HeldBy, GivesLeaseUp;
    assert StepAt(sha, log, j);
    if i == j {
      GrantHolds(sha, log[i], owner, start, leaseMs);
    } else {
      assert RequestTime(log[j - 1].request) <= RequestTime(log[j].request);
      LeaseHeldExactly(sha, log, i, j - 1, owner, start, leaseMs);
      if HeldBy(log[j - 1].after, owner, start + leaseMs) {
        StepKeepsLease(sha, log[j], owner, start + leaseMs);
      }
    }
  }

  /**
   After a grant at `start` for `leaseMs`, every request committed before `start + leaseMs` is the owner's,
   as long as no commit in between gives the lease up. Commit times do not decrease.
   */
  lemma LeaseIsExclusive(sha: Digest, log: seq<CommitEntry>, i: nat, j: nat, owner: string, start: int, leaseMs: int)
    requires AtomicRun(sha, log) && TimesNondecreasing(log) && i < j < |log|
    requires Grants(log[i], owner, start, leaseMs)
    requires forall k :: i < k < j ==> !GivesLeaseUp(log[k], start + leaseMs)
    requires RequestTime(log[j].request) < start + leaseMs
    ensures ActsFor(log[j].request, owner)
  {
    hide Apply, HeldBy, GivesLeaseUp;
    assert StepAt(sha, log, j);
    assert RequestTime(log[j - 1].request) <= RequestTime(log[j].request);
    LeaseHeldExactly(sha, log, i, j - 1, owner, start, leaseMs);
    assert HeldBy(log[j - 1].after, owner, start + leaseMs);
    StepUnderLease(sha, log[j], owner, start + leaseMs);
  }

  /** The lease another owner is granted starts no earlier than the first one ends, unless that was given up. */
  lemma LeasesAreDisjoint(sha: Digest, log: seq<CommitEntry>, i: nat, j: nat,
                          owner: string, start: int, leaseMs: int, other: string, start': int, leaseMs': int)
    requires AtomicRun(sha, log) && TimesNondecreasing(log) && i < j < |log|
    requires Grants(log[i], owner, start, leaseMs) && Grants(log[j], other, start', leaseMs') && owner != other
    requires forall k :: i < k < j ==> !GivesLeaseUp(log[k], start + leaseMs)
    ensures start + leaseMs <= start'
  {
    if start' < start + leaseMs {
      LeaseIsExclusive(sha, log, i, j, owner, start, leaseMs);
    }
  }

  // ---------------------------------------------------------------- nothing less than a lease is exclusive

  predicate Writes(sha: Digest, planRead: Option<Envelope>, current: Option<Stored>, r: Request)
  {
    Apply(sha, planRead, current, r).Ok? && Apply(sha, planRead, current, r).value.Write?
  }

  /** Whatever is requested before `until`, only the owner's requests change the record. */
  ghost predicate OnlyOwnerCommits(sha: Digest, s: Stored, owner: string, until: int)
  {
    forall planRead, r :: RequestTime(r) < until && Writes(sha, planRead, Some(s), r) ==> ActsFor(r, owner)
  }

  /** A legal change of a readable record goes through, if it is not dated before the creation. */
  lemma ChangeGoesThrough(sha: Digest, s: Stored, c: Change)
    requires IsReadable(sha, s) && Transition(sha, s.execution, s.envelope, c).Ok?
    requires Transition(sha, s.execution, s.envelope, c).value != s.execution && c.at >= s.execution.createdAt
    ensures Writes(sha, Some(s.envelope), Some(s), Mutate(s.execution.revision, c))
  {
    hide ParseExecution, ParseEnvelope, Transition, PlanMatches, LastHundred;
    var y := Transition(sha, s.execution, s.envelope, c).value;
    ChangeShape(sha, s.execution, s.envelope, c, y);
    ChangeIsAccepted(sha, s.execution, s.envelope, c, y);
  }

  /** Once its lease has run out, an execution can be claimed by anyone. */
  lemma ExpiredLeaseCanBeClaimed(sha: Digest, s: Stored, other: string, at: int, leaseMs: int)
    requires IsReadable(sha, s) && s.execution.status == Running && s.execution.leaseExpiresAt.Some?
    requires s.execution.leaseExpiresAt.value <= at && s.execution.createdAt <= at
    requires IsOpaqueId(other) && 1_000 <= leaseMs <= 300_000
    ensures Writes(sha, Some(s.envelope), Some(s), Mutate(s.execution.revision, ClaimChange(other, at, leaseMs)))
  {
    hide ParseEnvelope, HashPlan, Apply, IsOpaqueId, IsHexDigest, CheckpointIsConsistent, LastHundred;
    ChangeGoesThrough(sha, s, ClaimChange(other, at, leaseMs));
  }

  /** Whoever may commit although the lease of `owner` is not in force until `until`. */
  lemma SomebodyElseCommits(sha: Digest, s: Stored, owner: string, until: int) returns (r: Request)
    requires IsReadable(sha, s) && s.execution.status == Running && s.execution.createdAt < until
    requires !HeldBy(s, owner, until)
    ensures RequestTime(r) < until && Writes(sha, Some(s.envelope), Some(s), r) && !ActsFor(r, owner)
  {
    hide ParseEnvelope, HashPlan, Apply, IsHexDigest, AgreeAsFarAsBothGo, LastHundred;
    var x := s.execution;
    var expiry := x.leaseExpiresAt.value;
    var c := if x.leaseOwner == Some(owner) || expiry <= x.createdAt
             then RecoverChange(if expiry <= x.createdAt then x.createdAt else expiry)
             else RenewChange(x.leaseOwner.value, x.createdAt, 1_000);
    ChangeGoesThrough(sha, s, c);
    r := Mutate(x.revision, c);
  }

  /** The lease is exactly what keeps everybody else from committing. */
  lemma LeaseIsExactlyExclusivity(sha: Digest, s: Stored, owner: string, until: int)
    requires IsReadable(sha, s) && s.execution.status == Running && s.execution.createdAt < until
    ensures OnlyOwnerCommits(sha, s, owner, until) <==> HeldBy(s, owner, until)
  {
    hide Apply, IsReadable, HeldBy;
    if HeldBy(s, owner, until) {
      forall planRead, r | RequestTime(r) < until && Writes(sha, planRead, Some(s), r) ensures ActsFor(r, owner) {
        var c := CommitEntry(planRead, r, Some(s), Apply(sha, planRead, Some(s), r).value.stored);
        StepUnderLease(sha, c, owner, until);
      }
    } else {
      var r := SomebodyElseCommits(sha, s, owner, until);
    }
  }

  /**
   A claim or renewal by the owner that runs out before `until` lets any other worker in from its end on,
   however long the lease was before.
   */
  lemma ShorterRenewalGivesLeaseUp(sha: Digest, c: CommitEntry, owner: string, until: int, other: string, at: int, leaseMs: int)
    requires IsStep(sha, c) && c.before.Some? && HeldBy(c.before.value, owner, until) && WellStored(sha, c.before.value)
    requires RequestTime(c.request) < until && GivesLeaseUp(c, until) && !c.request.change.FailChange? && !c.request.change.CompleteChange?
    requires c.request.change.at + c.request.change.leaseMs <= at && c.after.execution.createdAt <= at
    requires IsOpaqueId(other) && 1_000 <= leaseMs <= 300_000
    ensures Writes(sha, Some(c.after.envelope), Some(c.after), Mutate(c.after.execution.revision, ClaimChange(other, at, leaseMs)))
  {
    hide Apply, WellStored, IsOpaqueId, HashPlan, ParseEnvelope, ParseExecution, Writes;
    StepUnderLease(sha, c, owner, until);
    MutateShape(sha, c);
    MutateKeepsWellStored(sha, c);
    assert IsReadable(sha, c.after) by { WellStoredIsReadable(sha, c.after); }
    ExpiredLeaseCanBeClaimed(sha, c.after, other, at, leaseMs);
  }

  lemma WellStoredIsReadable(sha: Digest, s: Stored)
    requires WellStored(sha, s)
    ensures IsReadable(sha, s)
  {
  }
}
