/**
 A lifecycle execution and its transitions (packages/plugin-installer/src/execution.ts:261-691).

 Timestamps are milliseconds since the epoch. A transition takes a copy of the execution it is given and
 returns the changed copy, or the code of the error it throws.
 */
module Execution {
  import opened Results
  import opened LifecyclePlans
  import opened PlanHash

  datatype Status = Queued | Running | Succeeded | Failed | ManualIntervention

  datatype Reason = NoReason | PhaseFailed | LeaseExpiredReason | PlanMismatchReason | RollbackUnavailable

  datatype ErrorCode =
    | ExecutionTerminal
    | ExecutionNotClaimed
    | LeaseHeld
    | LeaseExpired
    | LeaseOwnerMismatch
    | PhaseOutOfOrder
    | PlanMismatch
    | ExecutionInvalid
    | ExecutionNotFound
    | ExecutionActive
    | RevisionConflict
    | PlanUnavailable
    | StoreCorrupt

  datatype Envelope = Envelope(desiredRevision: int, plan: Option<Plan>, planSha256: Option<string>)

  datatype Execution = Execution(
    executionId: string,
    revision: int,
    desiredRevision: int,
    planSha256: string,
    pluginId: string,
    operation: Operation,
    status: Status,
    completedPhases: seq<Phase>,
    nextPhase: Option<Phase>,
    leaseOwner: Option<string>,
    leaseExpiresAt: Option<int>,
    reasonCode: Reason,
    createdAt: int,
    updatedAt: int)

  // ---------------------------------------------------------------- parsing

  predicate IsHexDigest(s: string)
  {
    |s| == 64 && forall i :: 0 <= i < |s| ==> 'a' <= s[i] <= 'f' || '0' <= s[i] <= '9'
  }

  /** `^[A-Za-z0-9._:-]{8,200}$` */
  predicate IsOpaqueId(s: string)
  {
    8 <= |s| <= 200 && forall i :: 0 <= i < |s| ==> IsIdChar(s[i])
  }

  predicate IsIdChar(c: char)
  {
    'A' <= c <= 'Z' || 'a' <= c <= 'z' || '0' <= c <= '9' || c == '.' || c == '_' || c == ':' || c == '-'
  }

  /** `parsePluginLifecyclePlanEnvelopeV1`. */
  function ParseEnvelope(sha: Digest, e: Envelope): (r: Result<Envelope, ErrorCode>)
    ensures r.Ok? ==> r.value == e
  {
    if e.desiredRevision < 0 then Err(ExecutionInvalid)
    else if e.plan.None? && e.planSha256.None? then Ok(e)
    else if e.plan.None? || e.planSha256.None? then Err(ExecutionInvalid)
    else if !EnvelopeAcceptsPlan(e.plan.value) || !IsHexDigest(e.planSha256.value) then Err(ExecutionInvalid)
    else if HashPlan(sha, e.plan.value) != e.planSha256.value then Err(PlanMismatch)
    else Ok(e)
  }

  predicate ReasonMatchesStatus(status: Status, reason: Reason)
  {
    match status
    case Queued => reason == NoReason || reason == LeaseExpiredReason
    case Failed => reason == PhaseFailed
    case ManualIntervention => reason == RollbackUnavailable
    case _ => reason == NoReason
  }

  predicate PlanMatches(sha: Digest, x: Execution, e: Envelope)
  {
    && e.plan.Some?
    && e.desiredRevision == x.desiredRevision
    && e.plan.value.pluginId == x.pluginId
    && e.plan.value.operation == x.operation
    && e.planSha256 == Some(x.planSha256)
    && HashPlan(sha, e.plan.value) == x.planSha256
  }

  function PhaseAt(phases: seq<Phase>, i: nat): Option<Phase>
  {
    if i < |phases| then Some(phases[i]) else None
  }

  predicate StructureIsValid(x: Execution)
  {
    && x.desiredRevision >= 0
    && x.revision >= 0
    && IsHexDigest(x.planSha256)
    && ReasonMatchesStatus(x.status, x.reasonCode)
  }

  predicate AgreeAsFarAsBothGo(completed: seq<Phase>, phases: seq<Phase>)
  {
    forall i :: 0 <= i < |phases| && i < |completed| ==> completed[i] == phases[i]
  }

  /**
   The checkpoint an execution records agrees with the phases of its plan and with its lease. Completed
   phases beyond the end of the plan are not looked at.
   */
  predicate CheckpointIsConsistent(x: Execution, phases: seq<Phase>)
  {
    && AgreeAsFarAsBothGo(x.completedPhases, phases)
    && x.nextPhase == PhaseAt(phases, |x.completedPhases|)
    && (x.status == Succeeded <==> |x.completedPhases| == |phases|)
    && (x.status == Running <==> Truthy(x.leaseOwner) && x.leaseExpiresAt.Some?)
    && (x.status != Running ==> x.leaseOwner.None? && x.leaseExpiresAt.None?)
  }

  /** `parsePluginLifecycleExecutionV1`: the error it throws, or the execution unchanged. */
  function ParseExecution(sha: Digest, x: Execution, e: Envelope): (r: Result<Execution, ErrorCode>)
    ensures r.Ok? ==> r.value == x
  {
    if ParseEnvelope(sha, e).Err? then Err(ParseEnvelope(sha, e).error)
    else if !StructureIsValid(x) || !IsOpaqueId(x.executionId) || x.updatedAt < x.createdAt then Err(ExecutionInvalid)
    else if !PlanMatches(sha, x, e) then Err(PlanMismatch)
    else if !CheckpointIsConsistent(x, e.plan.value.phases) then Err(ExecutionInvalid)
    else if Truthy(x.leaseOwner) && !IsOpaqueId(x.leaseOwner.value) then Err(ExecutionInvalid)
    else Ok(x)
  }

  ghost predicate Accepted(sha: Digest, x: Execution, e: Envelope)
  {
    ParseExecution(sha, x, e) == Ok(x)
  }

  /** What the parser leaves open: the completed phases are no more than the plan's. */
  ghost predicate KeepsToPlan(x: Execution, e: Envelope)
  {
    e.plan.Some? && |x.completedPhases| <= |e.plan.value.phases|
  }

  /** Which accepted executions keep to their plan: those with a next phase, and the succeeded ones. */
  lemma AcceptedKeepsToPlanExactly(sha: Digest, x: Execution, e: Envelope)
    requires Accepted(sha, x, e)
    ensures KeepsToPlan(x, e) <==> x.nextPhase.Some? || x.status == Succeeded
  {
    hide HashPlan, EnvelopeAcceptsPlan, IsHexDigest, IsOpaqueId, AgreeAsFarAsBothGo;
  }

  /** The parser also accepts an unfinished execution that claims more completed phases than the plan has. */
  lemma ParserAcceptsMoreThanThePlan(sha: Digest, x: Execution, e: Envelope)
    requires Accepted(sha, x, e) && x.status != Succeeded
    ensures var more := x.(completedPhases := e.plan.value.phases + [Commit], nextPhase := None);
            Accepted(sha, more, e) && !KeepsToPlan(more, e)
  {
    hide HashPlan, EnvelopeAcceptsPlan;
  }

  /** What an envelope has to be for its parser: no plan and no digest, or an accepted plan with its own digest. */
  lemma EnvelopeParsesExactly(sha: Digest, e: Envelope)
    ensures ParseEnvelope(sha, e).Ok? <==>
              e.desiredRevision >= 0
              && match (e.plan, e.planSha256)
                 case (None, None) => true
                 case (Some(plan), Some(digest)) => EnvelopeAcceptsPlan(plan) && IsHexDigest(digest) && HashPlan(sha, plan) == digest
                 case _ => false
  {
    hide EnvelopeAcceptsPlan, IsHexDigest, HashPlan;
  }

  /** Which reasons, leases and progress go with a status. */
  predicate StatusIsSound(x: Execution, phases: seq<Phase>)
  {
    var finished, leased := |x.completedPhases| == |phases|, x.leaseOwner.Some? || x.leaseExpiresAt.Some?;
    match x.status
    case Queued => !finished && !leased && x.reasonCode in {NoReason, LeaseExpiredReason}
    case Running => !finished && x.leaseOwner.Some? && IsOpaqueId(x.leaseOwner.value) && x.leaseExpiresAt.Some? && x.reasonCode == NoReason
    case Succeeded => finished && !leased && x.reasonCode == NoReason
    case Failed => !finished && !leased && x.reasonCode == PhaseFailed
    case ManualIntervention => !finished && !leased && x.reasonCode == RollbackUnavailable
  }

  /** The parser accepts an execution exactly when envelope, identity, progress and status are sound and fit together. */
  lemma ExecutionIsAcceptedExactly(sha: Digest, x: Execution, e: Envelope)
    ensures Accepted(sha, x, e) <==>
              && ParseEnvelope(sha, e).Ok? && e.plan.Some? && e.planSha256 == Some(x.planSha256)
              && x.desiredRevision == e.desiredRevision && x.pluginId == e.plan.value.pluginId && x.operation == e.plan.value.operation
              && IsOpaqueId(x.executionId) && x.revision >= 0 && x.createdAt <= x.updatedAt
              && StatusIsSound(x, e.plan.value.phases)
              && (forall i :: 0 <= i < |x.completedPhases| && i < |e.plan.value.phases| ==> x.completedPhases[i] == e.plan.value.phases[i])
              && x.nextPhase == (if |x.completedPhases| < |e.plan.value.phases| then Some(e.plan.value.phases[|x.completedPhases|]) else None)
  {
    hide EnvelopeAcceptsPlan, IsHexDigest, HashPlan, IsIdChar;
  }

  // ---------------------------------------------------------------- transitions

  predicate Terminal(x: Execution)
  {
    x.status == Succeeded || x.status == ManualIntervention
  }

  /** `assertLease`: the error it throws, if any. */
  function LeaseError(x: Execution, owner: string, at: int): Option<ErrorCode>
  {
    if x.status != Running || !Truthy(x.leaseOwner) || x.leaseExpiresAt.None? then Some(ExecutionNotClaimed)
    else if x.leaseOwner != Some(owner) then Some(LeaseOwnerMismatch)
    else if x.leaseExpiresAt.value <= at then Some(LeaseExpired)
    else None
  }

  function Create(sha: Digest, e: Envelope, executionId: string, at: int): Result<Execution, ErrorCode>
  {
    if e.plan.None? || e.planSha256 != Some(HashPlan(sha, e.plan.value)) then Err(PlanMismatch)
    else if !IsOpaqueId(executionId) then Err(ExecutionInvalid)
    else
      var plan := e.plan.value;
      Ok(Execution(executionId, 0, e.desiredRevision, e.planSha256.value, plan.pluginId, plan.operation, Queued, [],
                   PhaseAt(plan.phases, 0), None, None, NoReason, at, at))
  }

  function Claim(sha: Digest, x: Execution, e: Envelope, owner: string, at: int, leaseMs: int): Result<Execution, ErrorCode>
  {
    if Terminal(x) then Err(ExecutionTerminal)
    else if !PlanMatches(sha, x, e) then Err(PlanMismatch)
    else if !IsOpaqueId(owner) then Err(ExecutionInvalid)
    else if x.status == Running && x.leaseExpiresAt.Some? && x.leaseExpiresAt.value > at && x.leaseOwner != Some(owner) then
      Err(LeaseHeld)
    else if leaseMs < 1_000 || leaseMs > 300_000 then Err(ExecutionInvalid)
    else
      Ok(x.(status := Running, revision := x.revision + 1, leaseOwner := Some(owner),
            leaseExpiresAt := Some(at + leaseMs), reasonCode := NoReason, updatedAt := at))
  }

  function Renew(sha: Digest, x: Execution, e: Envelope, owner: string, at: int, leaseMs: int): Result<Execution, ErrorCode>
  {
    if !PlanMatches(sha, x, e) then Err(PlanMismatch)
    else if LeaseError(x, owner, at).Some? then Err(LeaseError(x, owner, at).value)
    else Claim(sha, x, e, owner, at, leaseMs)
  }

  function CompletePhase(sha: Digest, x: Execution, e: Envelope, owner: string, phase: Phase, at: int): Result<Execution, ErrorCode>
  {
    if Terminal(x) then Err(ExecutionTerminal)
    else if !PlanMatches(sha, x, e) then Err(PlanMismatch)
    else if LeaseError(x, owner, at).Some? then Err(LeaseError(x, owner, at).value)
    else if x.nextPhase != Some(phase) then Err(PhaseOutOfOrder)
    else
      var completed := x.completedPhases + [phase];
      var next := PhaseAt(e.plan.value.phases, |completed|);
      var advanced := x.(completedPhases := completed, revision := x.revision + 1, nextPhase := next, updatedAt := at);
      if next.Some? then Ok(advanced)
      else Ok(advanced.(status := Succeeded, reasonCode := NoReason, leaseOwner := None, leaseExpiresAt := None))
  }

  /** A migration that ran and that the plan cannot roll back. */
  predicate Irreversible(x: Execution, plan: Plan)
  {
    Migrate in x.completedPhases && !plan.rollbackSupported
  }

  function Fail(sha: Digest, x: Execution, e: Envelope, owner: string, at: int): Result<Execution, ErrorCode>
  {
    if Terminal(x) then Err(ExecutionTerminal)
    else if !PlanMatches(sha, x, e) then Err(PlanMismatch)
    else if LeaseError(x, owner, at).Some? then Err(LeaseError(x, owner, at).value)
    else
      var irreversible := Irreversible(x, e.plan.value);
      Ok(x.(status := if irreversible then ManualIntervention else Failed, revision := x.revision + 1,
            reasonCode := if irreversible then RollbackUnavailable else PhaseFailed, updatedAt := at,
            leaseOwner := None, leaseExpiresAt := None))
  }

  function Recover(sha: Digest, x: Execution, e: Envelope, at: int): Result<Execution, ErrorCode>
  {
    if Terminal(x) then Err(ExecutionTerminal)
    else if !PlanMatches(sha, x, e) then Err(PlanMismatch)
    else if x.status != Running || x.leaseExpiresAt.None? || x.leaseExpiresAt.value > at then Ok(x)
    else
      Ok(x.(status := Queued, revision := x.revision + 1, reasonCode := LeaseExpiredReason, updatedAt := at,
            leaseOwner := None, leaseExpiresAt := None))
  }

  // ---------------------------------------------------------------- one change of an execution

  datatype Change =
    | ClaimChange(owner: string, at: int, leaseMs: int)
    | RenewChange(owner: string, at: int, leaseMs: int)
    | CompleteChange(owner: string, phase: Phase, at: int)
    | FailChange(owner: string, at: int)
    | RecoverChange(at: int)

  function Transition(sha: Digest, x: Execution, e: Envelope, c: Change): Result<Execution, ErrorCode>
  {
    match c
    case ClaimChange(owner, at, leaseMs) => Claim(sha, x, e, owner, at, leaseMs)
    case RenewChange(owner, at, leaseMs) => Renew(sha, x, e, owner, at, leaseMs)
    case CompleteChange(owner, phase, at) => CompletePhase(sha, x, e, owner, phase, at)
    case FailChange(owner, at) => Fail(sha, x, e, owner, at)
    case RecoverChange(at) => Recover(sha, x, e, at)
  }

  // ---------------------------------------------------------------- when a change is legal

  /** The lease of `owner` is in force at a time. */
  predicate HoldsLease(x: Execution, owner: string, at: int)
  {
    x.status == Running && owner != "" && x.leaseOwner == Some(owner) && x.leaseExpiresAt.Some? && x.leaseExpiresAt.value > at
  }

  /** Somebody else's lease is in force at a time. */
  predicate HeldByAnother(x: Execution, owner: string, at: int)
  {
    x.status == Running && x.leaseExpiresAt.Some? && x.leaseExpiresAt.value > at && x.leaseOwner != Some(owner)
  }

  predicate LeaseIsLegal(owner: string, leaseMs: int)
  {
    IsOpaqueId(owner) && 1_000 <= leaseMs <= 300_000
  }

  /** What each change asks of the execution, the time and the worker. */
  predicate IsLegal(x: Execution, c: Change)
  {
    match c
    case ClaimChange(owner, at, leaseMs) => !HeldByAnother(x, owner, at) && LeaseIsLegal(owner, leaseMs)
    case RenewChange(owner, at, leaseMs) => HoldsLease(x, owner, at) && LeaseIsLegal(owner, leaseMs)
    case CompleteChange(owner, phase, at) => HoldsLease(x, owner, at) && x.nextPhase == Some(phase)
    case FailChange(owner, at) => HoldsLease(x, owner, at)
    case RecoverChange(_) => true
  }

  /** A change goes through exactly when its plan is the execution's, nothing is final yet, and it is legal. */
  lemma ChangeSucceedsExactly(sha: Digest, x: Execution, e: Envelope, c: Change)
    ensures Transition(sha, x, e, c).Ok? <==>
              PlanMatches(sha, x, e) && x.status != Succeeded && x.status != ManualIntervention && IsLegal(x, c)
  {
    hide PlanMatches, IsOpaqueId;
  }

  predicate NeedsLease(c: Change)
  {
    c.RenewChange? || c.CompleteChange? || c.FailChange?
  }

  /** Nobody renews, completes or fails an execution whose lease has run out, not even the last holder. */
  lemma OnlyAHolderGoesOn(sha: Digest, x: Execution, e: Envelope, c: Change)
    requires Transition(sha, x, e, c).Ok? && NeedsLease(c)
    ensures x.status == Running && x.leaseOwner == Some(c.owner) && x.leaseExpiresAt.Some? && x.leaseExpiresAt.value > c.at
  {
    hide PlanMatches, IsOpaqueId;
    ChangeSucceedsExactly(sha, x, e, c);
  }

  /** The lease of a worker has run out at a time. */
  predicate LeaseRanOut(x: Execution, owner: string, at: int)
  {
    x.status == Running && owner != "" && x.leaseOwner == Some(owner) && x.leaseExpiresAt.Some? && x.leaseExpiresAt.value <= at
  }

  /** Which refusal means what; the runner recovers an execution exactly on `LeaseExpired`. */
  lemma RefusalsMean(sha: Digest, x: Execution, e: Envelope, c: Change)
    requires PlanMatches(sha, x, e)
    ensures Transition(sha, x, e, c) == Err(LeaseExpired) <==> NeedsLease(c) && LeaseRanOut(x, c.owner, c.at)
    ensures Transition(sha, x, e, c) == Err(LeaseOwnerMismatch) <==>
              NeedsLease(c) && x.status == Running && Truthy(x.leaseOwner) && x.leaseExpiresAt.Some? && x.leaseOwner != Some(c.owner)
    ensures Transition(sha, x, e, c) == Err(LeaseHeld) <==>
              c.ClaimChange? && IsOpaqueId(c.owner) && HeldByAnother(x, c.owner, c.at)
    ensures Transition(sha, x, e, c) == Err(PhaseOutOfOrder) <==>
              c.CompleteChange? && HoldsLease(x, c.owner, c.at) && x.nextPhase != Some(c.phase)
    ensures Transition(sha, x, e, c) == Err(ExecutionTerminal) <==>
              !c.RenewChange? && (x.status == Succeeded || x.status == ManualIntervention)
  {
    hide PlanMatches, IsOpaqueId;
  }

  /** What each change leaves of status, reason and lease. */
  lemma ChangeResult(sha: Digest, x: Execution, e: Envelope, c: Change, y: Execution)
    requires Transition(sha, x, e, c) == Ok(y)
    ensures c.ClaimChange? || c.RenewChange? ==>
              y.status == Running && y.reasonCode == NoReason && y.leaseOwner == Some(c.owner) && y.leaseExpiresAt == Some(c.at + c.leaseMs)
    ensures c.CompleteChange? ==>
              y.nextPhase == PhaseAt(e.plan.value.phases, |x.completedPhases| + 1)
              && y.completedPhases == x.completedPhases + [c.phase]
              && if y.nextPhase.Some? then y.status == Running && y.leaseOwner == x.leaseOwner && y.leaseExpiresAt == x.leaseExpiresAt
                 else y.status == Succeeded && y.reasonCode == NoReason && y.leaseOwner == None && y.leaseExpiresAt == None
    ensures c.FailChange? ==> y.status != Running && y.leaseOwner == None && y.leaseExpiresAt == None
                              && y.reasonCode == (if y.status == ManualIntervention then RollbackUnavailable else PhaseFailed)
    ensures c.RecoverChange? ==>
              if x.status == Running && x.leaseExpiresAt.Some? && x.leaseExpiresAt.value <= c.at
              then y.status == Queued && y.reasonCode == LeaseExpiredReason && y.leaseOwner == None && y.leaseExpiresAt == None
              else y == x
    ensures y == x ==> c.RecoverChange?
  {
    hide PlanMatches, IsOpaqueId;
  }

  // ---------------------------------------------------------------- what a change keeps

  /** What a change may do to the checkpoint: nothing, or complete the phase that is next. */
  ghost predicate Advances(x: Execution, y: Execution)
  {
    || (y.completedPhases == x.completedPhases && y.nextPhase == x.nextPhase)
    || (x.nextPhase.Some? && y.completedPhases == x.completedPhases + [x.nextPhase.value])
  }

  ghost predicate SameExecution(x: Execution, y: Execution)
  {
    && y.executionId == x.executionId && y.desiredRevision == x.desiredRevision && y.planSha256 == x.planSha256
    && y.pluginId == x.pluginId && y.operation == x.operation && y.createdAt == x.createdAt
  }

  /** Every change keeps the identity, advances the revision by one unless it changes nothing, and goes one phase at a time. */
  lemma ChangeShape(sha: Digest, x: Execution, e: Envelope, c: Change, y: Execution)
    requires Transition(sha, x, e, c) == Ok(y)
    ensures SameExecution(x, y) && Advances(x, y)
    ensures y == x || (y.revision == x.revision + 1 && y.updatedAt == c.at)
    ensures !Terminal(x) && PlanMatches(sha, x, e)
  {
  }

  lemma CheckpointAfterComplete(sha: Digest, x: Execution, e: Envelope, owner: string, phase: Phase, at: int, y: Execution)
    requires Accepted(sha, x, e) && CompletePhase(sha, x, e, owner, phase, at) == Ok(y)
    ensures CheckpointIsConsistent(y, e.plan.value.phases)
    ensures y.leaseOwner.Some? ==> y.leaseOwner == x.leaseOwner
  {
    hide HashPlan, EnvelopeAcceptsPlan, IsHexDigest, IsOpaqueId, AgreeAsFarAsBothGo;
    NextPhaseAgrees(x.completedPhases, e.plan.value.phases);
  }

  lemma NextPhaseAgrees(completed: seq<Phase>, phases: seq<Phase>)
    requires AgreeAsFarAsBothGo(completed, phases)
    ensures |completed| < |phases| ==> AgreeAsFarAsBothGo(completed + [phases[|completed|]], phases)
  {
  }

  lemma CheckpointAfterOtherChange(sha: Digest, x: Execution, e: Envelope, c: Change, y: Execution)
    requires Accepted(sha, x, e) && Transition(sha, x, e, c) == Ok(y) && !c.CompleteChange?
    ensures CheckpointIsConsistent(y, e.plan.value.phases)
    ensures Truthy(y.leaseOwner) ==> IsOpaqueId(y.leaseOwner.value)
  {
    hide HashPlan, EnvelopeAcceptsPlan;
  }

  lemma CheckpointAfterChange(sha: Digest, x: Execution, e: Envelope, c: Change, y: Execution)
    requires Accepted(sha, x, e) && Transition(sha, x, e, c) == Ok(y)
    ensures CheckpointIsConsistent(y, e.plan.value.phases)
    ensures Truthy(y.leaseOwner) ==> IsOpaqueId(y.leaseOwner.value)
  {
    hide ParseEnvelope, PlanMatches, HashPlan, StructureIsValid, CheckpointIsConsistent;
    match c
    case CompleteChange(owner, phase, at) => CheckpointAfterComplete(sha, x, e, owner, phase, at, y);
    case _ => CheckpointAfterOtherChange(sha, x, e, c, y);
  }

  /**
   The parser accepts every execution a change makes of an accepted one, unless the change is stamped
   before the execution was created.
   */
  lemma ChangeIsAccepted(sha: Digest, x: Execution, e: Envelope, c: Change, y: Execution)
    requires Accepted(sha, x, e) && Transition(sha, x, e, c) == Ok(y)
    ensures Accepted(sha, y, e) <==> y == x || c.at >= x.createdAt
  {
    ChangeShape(sha, x, e, c, y);
    CheckpointAfterChange(sha, x, e, c, y);
    ReasonAfterChange(sha, x, e, c, y);
  }

  /** No change completes more phases than the plan has. */
  lemma ChangeKeepsToPlan(sha: Digest, x: Execution, e: Envelope, c: Change, y: Execution)
    requires Accepted(sha, x, e) && KeepsToPlan(x, e) && Transition(sha, x, e, c) == Ok(y)
    ensures KeepsToPlan(y, e)
  {
    hide HashPlan, EnvelopeAcceptsPlan;
    ChangeShape(sha, x, e, c, y);
  }

  lemma ReasonAfterChange(sha: Digest, x: Execution, e: Envelope, c: Change, y: Execution)
    requires StructureIsValid(x) && Transition(sha, x, e, c) == Ok(y)
    ensures StructureIsValid(y)
  {
  }

  /** A new execution is accepted for the envelope it is created for. */
  lemma CreatedIsAccepted(sha: Digest, e: Envelope, executionId: string, at: int, x: Execution)
    requires ParseEnvelope(sha, e) == Ok(e) && Create(sha, e, executionId, at) == Ok(x)
    ensures Accepted(sha, x, e) && x.revision == 0 && x.status == Queued && x.completedPhases == []
    ensures x.executionId == executionId && x.createdAt == x.updatedAt == at && x.reasonCode == NoReason
  {
  }

  /** What a creation asks for: a plan with its own digest, and an opaque id. */
  lemma CreationSucceedsExactly(sha: Digest, e: Envelope, executionId: string, at: int)
    ensures Create(sha, e, executionId, at).Ok? <==>
              e.plan.Some? && e.planSha256 == Some(HashPlan(sha, e.plan.value)) && IsOpaqueId(executionId)
    ensures Create(sha, e, executionId, at) == Err(PlanMismatch) <==>
              e.plan.None? || e.planSha256 != Some(HashPlan(sha, e.plan.value))
  {
    hide HashPlan;
  }

  /** Only a failure ends in manual intervention, and it does so exactly after an irreversible migration. */
  lemma ManualInterventionArises(sha: Digest, x: Execution, e: Envelope, c: Change, y: Execution)
    requires Transition(sha, x, e, c) == Ok(y)
    ensures y.status == ManualIntervention <==> c.FailChange? && Irreversible(x, e.plan.value)
    ensures y.status == Failed && y != x <==> c.FailChange? && !Irreversible(x, e.plan.value)
    ensures Irreversible(x, e.plan.value) <==> Migrate in x.completedPhases && !e.plan.value.rollbackSupported
  {
  }

  // ---------------------------------------------------------------- progress

  /** `createPluginLifecyclePlanEnvelopeV1` for a plan. */
  function CreateEnvelope(sha: Digest, desiredRevision: int, plan: Plan): Result<Envelope, ErrorCode>
  {
    if desiredRevision < 0 then Err(ExecutionInvalid)
    else Ok(Envelope(desiredRevision, Some(plan), Some(HashPlan(sha, plan))))
  }

  /** The parser accepts the envelope created for a plan exactly when it accepts the plan. */
  lemma CreatedEnvelopeParses(sha: Digest, desiredRevision: int, plan: Plan, e: Envelope)
    requires CreateEnvelope(sha, desiredRevision, plan) == Ok(e) && IsHexDigest(HashPlan(sha, plan))
    ensures ParseEnvelope(sha, e) == Ok(e) <==> EnvelopeAcceptsPlan(plan)
  {
    hide EnvelopeAcceptsPlan, IsHexDigest;
  }

  /** A sequence of changes, each made of what the one before left. */
  function After(sha: Digest, x: Execution, e: Envelope, changes: seq<Change>): Result<Execution, ErrorCode>
    decreases |changes|
  {
    if changes == [] then Ok(x) else
      match Transition(sha, x, e, changes[0])
      case Err(error) => Err(error)
      case Ok(y) => After(sha, y, e, changes[1..])
  }

  lemma NextPhaseCanBeCompleted(sha: Digest, x: Execution, e: Envelope, owner: string, at: int) returns (y: Execution)
    requires Accepted(sha, x, e) && KeepsToPlan(x, e) && HoldsLease(x, owner, at) && at >= x.createdAt
    ensures x.nextPhase.Some? && Transition(sha, x, e, CompleteChange(owner, x.nextPhase.value, at)) == Ok(y)
    ensures Accepted(sha, y, e) && KeepsToPlan(y, e) && y.createdAt == x.createdAt
    ensures |y.completedPhases| == |x.completedPhases| + 1
    ensures y.status == Succeeded || HoldsLease(y, owner, at)
  {
    hide HashPlan, EnvelopeAcceptsPlan, IsHexDigest, IsOpaqueId, AgreeAsFarAsBothGo;
    var c := CompleteChange(owner, x.nextPhase.value, at);
    y := Transition(sha, x, e, c).value;
    ChangeKeepsToPlan(sha, x, e, c, y);
    ChangeIsAccepted(sha, x, e, c, y);
  }

  lemma {:induction false} HolderCanFinish(sha: Digest, x: Execution, e: Envelope, owner: string, at: int) returns (changes: seq<Change>)
    requires Accepted(sha, x, e) && KeepsToPlan(x, e) && HoldsLease(x, owner, at) && at >= x.createdAt
    ensures After(sha, x, e, changes).Ok? && After(sha, x, e, changes).value.status == Succeeded
    decreases |e.plan.value.phases| - |x.completedPhases|
  {
    hide ParseExecution, Transition;
    var y := NextPhaseCanBeCompleted(sha, x, e, owner, at);
    var c := CompleteChange(owner, x.nextPhase.value, at);
    var rest: seq<Change> := [];
    if y.status != Succeeded {
      rest := HolderCanFinish(sha, y, e, owner, at);
    }
    changes := [c] + rest;
    assert changes[1..] == rest;
  }

  lemma ClaimSucceeds(sha: Digest, x: Execution, e: Envelope, owner: string, at: int, leaseMs: int) returns (y: Execution)
    requires Accepted(sha, x, e) && KeepsToPlan(x, e) && !Terminal(x) && at >= x.createdAt
    requires IsOpaqueId(owner) && 1_000 <= leaseMs <= 300_000
    requires x.status == Running ==> x.leaseExpiresAt.value <= at || x.leaseOwner == Some(owner)
    ensures Transition(sha, x, e, ClaimChange(owner, at, leaseMs)) == Ok(y)
    ensures Accepted(sha, y, e) && KeepsToPlan(y, e) && HoldsLease(y, owner, at) && y.createdAt == x.createdAt
  {
    hide HashPlan, EnvelopeAcceptsPlan, IsHexDigest, AgreeAsFarAsBothGo;
    var c := ClaimChange(owner, at, leaseMs);
    y := Transition(sha, x, e, c).value;
    ChangeKeepsToPlan(sha, x, e, c, y);
    ChangeIsAccepted(sha, x, e, c, y);
  }

  /**
   There are no dead ends but the terminal states: from every other execution, once no other worker's lease
   is in force, a worker can claim it and complete the whole plan.
   */
  lemma EveryExecutionCanBeFinished(sha: Digest, x: Execution, e: Envelope, owner: string, at: int, leaseMs: int)
    returns (changes: seq<Change>)
    requires Accepted(sha, x, e) && KeepsToPlan(x, e) && !Terminal(x) && at >= x.createdAt
    requires IsOpaqueId(owner) && 1_000 <= leaseMs <= 300_000
    requires x.status == Running ==> x.leaseExpiresAt.value <= at || x.leaseOwner == Some(owner)
    ensures After(sha, x, e, changes).Ok? && After(sha, x, e, changes).value.status == Succeeded
  {
    hide ParseExecution, Transition;
    var y := ClaimSucceeds(sha, x, e, owner, at, leaseMs);
    var rest := HolderCanFinish(sha, y, e, owner, at);
    changes := [ClaimChange(owner, at, leaseMs)] + rest;
    assert changes[1..] == rest;
  }
}
