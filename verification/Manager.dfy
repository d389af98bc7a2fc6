/**
 One run of the plugin manager (packages/plugin-manager/src/manager.ts:165-215, 406-743). The host, the
 release resolver, the lifecycle and the clock are arbitrary: `World` says what each of their answers will
 be. `trace` lists what the manager did, in order.

 How a release is judged and how documents are hashed are functions here.
 */
module Manager {
  import opened Results
  import opened LifecyclePlans
  import opened PlanHash
  import Installer
  import InstallerProofs

  datatype Intent = Intent(
    installationId: string,
    pluginId: string,
    release: string,
    operation: Operation,
    fromVersion: Option<string>,
    currentEnabled: bool,
    expectedPlatformRevision: nat)

  datatype Release = Release(
    pluginId: string,
    version: string,
    migrationImage: Option<string>,
    updateEdges: set<string>,
    fromSchema: nat,
    toSchema: nat,
    forwardOnly: bool)

  datatype Envelope = Envelope(desiredRevision: nat, plan: Plan, planSha256: string)

  datatype Finding = Finding(blocked: bool, reason: string)

  datatype Assessment = Assessment(identity: Finding, compatibility: Finding, entitlement: Finding)

  datatype ReviewBody = ReviewBody(
    installationId: string,
    pluginId: string,
    version: string,
    release: string,
    planSha256: string,
    generatedAt: int,
    expiresAt: int,
    assessment: Assessment,
    approvable: bool)

  datatype Review = Review(body: ReviewBody, reviewSha256: string)

  datatype Claim = Claim(intent: Intent, revision: int, review: Option<Review>)

  datatype Approval = Approval(reviewSha256: string, planSha256: string, expectedRevision: int, expiresAt: int, approves: bool)

  datatype Answer = Answer(approval: Approval, revision: int)

  /** A caught error, as the manager classifies it. */
  datatype Failure = Failure(reason: string, retryable: bool)

  datatype Published = Published(revision: int, leaseRetained: bool)

  datatype Status = Succeeded | Failed | ManualIntervention

  datatype Outcome = Outcome(status: Status, reason: string)

  datatype ObservedState = ReadyState | FailedState | ManualState | Cancelled

  datatype Observation = Observation(state: ObservedState, reason: string, revision: int, planSha256: Option<string>, retryable: bool)

  /** Every answer may be a throw; an answer that does not parse is one. */
  datatype World = World(
    advertise: Result<(), Failure>,
    claim: Result<Option<Claim>, Failure>,
    resolve: string -> Result<Release, Failure>,
    publish: Review -> Result<Published, Failure>,
    approvals: nat -> Result<Option<Answer>, Failure>,
    renewals: nat -> Result<int, Failure>,
    execution: Envelope -> Result<Outcome, Failure>,
    observe: Observation -> Result<(), Failure>,
    clock: nat -> int)

  datatype Effect =
    | Claimed
    | ReviewPublished(review: Review, retained: bool)
    | ApprovalRead(answer: Option<Answer>)
    | ApprovalChecked(checked: Answer, at: int)
    | LeaseRenewed
    | Executed(envelope: Envelope)
    | Observed(observation: Observation)
    | HostThrew(failure: Failure)

  datatype Kind = Blocked | Completed | FailedRun | ManualRun

  datatype RunResult =
    | Idle
    | AwaitingApproval(review: Review)
    | Reported(kind: Kind, observation: Observation)
    | Threw(failure: Failure)

  // ---------------------------------------------------------------- plan and review

  predicate IntentIsWellFormed(i: Intent)
  {
    (i.operation == Install || i.operation == Upgrade) && (i.operation == Install <==> i.fromVersion.None?)
  }

  /** `createPluginInstallPlanV1` */
  function PlanFor(i: Intent, r: Release): Result<Plan, Failure>
  {
    var upgrading := i.operation == Upgrade;
    if upgrading && (i.fromVersion.None? || i.fromVersion.value !in r.updateEdges) then Err(Failure("verification_failed", false))
    else
      var migrates := r.migrationImage.Some?;
      Ok(Plan(i.operation, i.pluginId, i.fromVersion, Some(r.version), if upgrading then r.fromSchema else 0, r.toSchema,
              r.migrationImage, !upgrading || !r.forwardOnly,
              if upgrading then Installer.ReplacementPhases(i.currentEnabled, migrates)
              else [Stage] + Installer.PhasesIf(migrates, [Migrate]) + [Commit],
              None))
  }

  /** Every plan the manager makes is one the execution envelope and the installer both accept. */
  lemma ManagerPlanIsAccepted(i: Intent, r: Release)
    requires IntentIsWellFormed(i) && PlanFor(i, r).Ok? && (r.migrationImage.Some? ==> r.migrationImage.value != "")
    ensures EnvelopeAcceptsPlan(PlanFor(i, r).value) && InstallerAcceptsPlan(PlanFor(i, r).value)
  {
    hide Installer.ReplacementPhases;
    var plan := PlanFor(i, r).value;
    ValidatorsDifferOnlyInVersions(plan);
    if i.operation == Upgrade {
      InstallerProofs.ReplacementPhasesAreExpected(plan, i.currentEnabled, r.migrationImage.Some?);
    }
  }

  /** There is a plan exactly when the release can be reached, and it says what it will take and whether it can be undone. */
  lemma ManagerPlanFollows(i: Intent, r: Release)
    requires IntentIsWellFormed(i)
    ensures PlanFor(i, r).Ok? <==> (i.operation == Upgrade ==> i.fromVersion.value in r.updateEdges)
    ensures PlanFor(i, r).Ok? ==>
              var plan, upgrading := PlanFor(i, r).value, i.operation == Upgrade;
              && plan.operation == i.operation && plan.pluginId == i.pluginId && plan.dataAction == None
              && plan.fromVersion == i.fromVersion && plan.toVersion == Some(r.version)
              && plan.fromDataSchema == (if upgrading then r.fromSchema else 0) && plan.toDataSchema == r.toSchema
              && plan.migrationImage == r.migrationImage && (plan.rollbackSupported <==> !(upgrading && r.forwardOnly))
              && (Migrate in plan.phases <==> r.migrationImage.Some?)
              && (Drain in plan.phases <==> upgrading && i.currentEnabled)
  {
  }

  lemma PlanFailure(i: Intent, r: Release)
    ensures PlanFor(i, r).Err? ==> PlanFor(i, r).error == Failure("verification_failed", false)
  {
  }

  function ReviewFor(hashDocument: ReviewBody -> string, i: Intent, r: Release, e: Envelope, a: Assessment, at: int): Review
  {
    var body := ReviewBody(i.installationId, i.pluginId, r.version, i.release, e.planSha256, at, at + 15 * 60_000, a,
                           !a.identity.blocked && !a.compatibility.blocked && !a.entitlement.blocked);
    Review(body, hashDocument(body))
  }

  /** `assertReusableReview` */
  predicate MayBeReused(hashDocument: ReviewBody -> string, review: Review, i: Intent, r: Release, e: Envelope)
  {
    var b := review.body;
    && b.installationId == i.installationId && b.pluginId == i.pluginId && b.release == i.release && b.version == r.version
    && b.planSha256 == e.planSha256 && hashDocument(b) == review.reviewSha256
  }

  /** None of the three findings stands against the release. */
  predicate NothingBlocks(a: Assessment)
  {
    !a.identity.blocked && !a.compatibility.blocked && !a.entitlement.blocked
  }

  /** A stored review is looked at while it has not expired. */
  predicate StoredCounts(c: Claim, at: int)
  {
    c.review.Some? && c.review.value.body.expiresAt > at
  }

  /** A review is of this installation, plugin, release and plan, and carries its own digest. */
  predicate IsReviewOf(hashDocument: ReviewBody -> string, review: Review, i: Intent, r: Release, planSha256: string)
  {
    var b := review.body;
    && b.installationId == i.installationId && b.pluginId == i.pluginId && b.release == i.release && b.version == r.version
    && b.planSha256 == planSha256 && review.reviewSha256 == hashDocument(b)
  }

  /** A new review says what was found, is approvable exactly when nothing blocks, and holds for a quarter of an hour. */
  predicate IsNewReview(review: Review, found: Assessment, at: int)
  {
    && review.body.assessment == found && (review.body.approvable <==> NothingBlocks(found))
    && review.body.generatedAt == at && review.body.expiresAt == at + 900_000
  }

  function BlockingReason(a: Assessment): string
  {
    if a.identity.reason != "none" then a.identity.reason
    else if a.compatibility.reason != "none" then a.compatibility.reason
    else a.entitlement.reason
  }

  /** A blocked run gives the reason of the first finding that has one. */
  lemma BlockingReasonMeans(a: Assessment)
    ensures BlockingReason(a) in {a.identity.reason, a.compatibility.reason, a.entitlement.reason}
    ensures BlockingReason(a) == "none" <==> a.identity.reason == a.compatibility.reason == a.entitlement.reason == "none"
    ensures a.identity.reason != "none" ==> BlockingReason(a) == a.identity.reason
    ensures a.identity.reason == "none" != a.compatibility.reason ==> BlockingReason(a) == a.compatibility.reason
  {
  }

  // ---------------------------------------------------------------- what a trace may contain

  function Reads(trace: seq<Effect>): nat
  {
    if trace == [] then 0 else Reads(trace[..|trace| - 1]) + (if trace[|trace| - 1].ApprovalRead? then 1 else 0)
  }

  lemma ReadsOfAppend(trace: seq<Effect>, e: Effect)
    ensures Reads(trace + [e]) == Reads(trace) + (if e.ApprovalRead? then 1 else 0)
  {
    assert (trace + [e])[..|trace|] == trace;
  }

  predicate IsSilent(e: Effect)
  {
    !e.Executed? && !e.Observed? && !e.HostThrew?
  }

  /** Neither executed nor observed anything, and no call threw. */
  predicate Silent(trace: seq<Effect>)
  {
    forall e :: e in trace ==> IsSilent(e)
  }

  /** An answer is about exactly this review and plan, for the revision that follows it. */
  predicate Names(answer: Answer, review: Review)
  {
    && answer.approval.reviewSha256 == review.reviewSha256
    && answer.approval.planSha256 == review.body.planSha256
    && answer.approval.expectedRevision + 1 == answer.revision
  }

  /** An approval of exactly this review and plan, for the revision that follows it, not expired at the time. */
  predicate Authorizes(answer: Answer, review: Review, at: int)
  {
    && answer.approval.reviewSha256 == review.reviewSha256
    && answer.approval.planSha256 == review.body.planSha256
    && answer.approval.expectedRevision + 1 == answer.revision
    && answer.approval.expiresAt > at
    && answer.approval.approves
  }

  /** The manager published this review before, it was approvable, and the lease was kept. */
  ghost predicate WasPublished(trace: seq<Effect>, n: nat, review: Review)
  {
    exists p :: 0 <= p < n && p < |trace| && trace[p] == ReviewPublished(review, true) && review.body.approvable
  }

  /** Execution number `i` of the trace follows right after a valid approval of the very plan it executes. */
  ghost predicate IsAuthorized(sha: Digest, trace: seq<Effect>, i: nat)
  {
    && 2 <= i < |trace| && trace[i].Executed?
    && trace[i - 1].ApprovalChecked? && trace[i - 2] == ApprovalRead(Some(trace[i - 1].checked))
    && trace[i].envelope.planSha256 == HashPlan(sha, trace[i].envelope.plan)
    && exists review ::
         && WasPublished(trace, i, review) && Authorizes(trace[i - 1].checked, review, trace[i - 1].at)
         && review.body.planSha256 == trace[i].envelope.planSha256
  }

  /** At most one execution, and only an authorized one. */
  ghost predicate ExecutesOnceAtMost(sha: Digest, trace: seq<Effect>)
  {
    && (forall i :: 0 <= i < |trace| && trace[i].Executed? ==> IsAuthorized(sha, trace, i))
    && (forall i, j :: 0 <= i < |trace| && 0 <= j < |trace| && trace[i].Executed? && trace[j].Executed? ==> i == j)
  }

  ghost predicate NothingReported(trace: seq<Effect>)
  {
    forall i :: 0 <= i < |trace| ==> !trace[i].Observed? && !trace[i].HostThrew?
  }

  /**
   Exactly one observation, as the last effect, if the run reports; none if it is idle or waits. If a host
   call throws, that is the last thing that happens, and nothing was observed.
   */
  ghost predicate EndsAsReported(trace: seq<Effect>, r: RunResult)
  {
    match r
    case Reported(_, observation) =>
      trace != [] && trace[|trace| - 1] == Observed(observation) && NothingReported(trace[..|trace| - 1])
    case Threw(failure) =>
      trace != [] && trace[|trace| - 1] == HostThrew(failure) && NothingReported(trace[..|trace| - 1])
    case _ => NothingReported(trace)
  }

  /** Executed something. */
  ghost predicate Executes(trace: seq<Effect>)
  {
    exists e :: Executed(e) in trace
  }

  ghost predicate SameExecutions(before: seq<Effect>, after: seq<Effect>)
  {
    forall e :: Executed(e) in after <==> Executed(e) in before
  }

  lemma OtherEffect(before: seq<Effect>, e: Effect)
    requires !e.Executed?
    ensures SameExecutions(before, before + [e])
  {
  }

  lemma SilentIsWithoutExecution(trace: seq<Effect>)
    requires Silent(trace)
    ensures !Executes(trace)
  {
  }

  lemma ExecutesOne(before: seq<Effect>, e: Envelope, after: seq<Effect>)
    requires Silent(before) && SameExecutions(before + [Executed(e)], after)
    ensures forall x :: Executed(x) in after <==> x == e
  {
    SilentIsWithoutExecution(before);
  }

  lemma SilentExecutesNothing(sha: Digest, trace: seq<Effect>)
    requires Silent(trace)
    ensures ExecutesOnceAtMost(sha, trace) && NothingReported(trace)
    ensures forall i :: 0 <= i < |trace| ==> !trace[i].Executed?
  {
    forall i | 0 <= i < |trace| ensures IsSilent(trace[i]) {
      assert trace[i] in trace;
    }
  }

  lemma ExecutionIsAuthorized(sha: Digest, before: seq<Effect>, e: Envelope, review: Review, answer: Answer, at: int)
    requires Silent(before) && |before| >= 2
    requires before[|before| - 2] == ApprovalRead(Some(answer)) && before[|before| - 1] == ApprovalChecked(answer, at)
    requires WasPublished(before, |before|, review) && Authorizes(answer, review, at)
    requires e.planSha256 == HashPlan(sha, e.plan) && review.body.planSha256 == e.planSha256
    ensures ExecutesOnceAtMost(sha, before + [Executed(e)]) && NothingReported(before + [Executed(e)])
  {
    hide Authorizes, HashPlan;
    var trace := before + [Executed(e)];
    SilentExecutesNothing(sha, before);
    var p :| 0 <= p < |before| && before[p] == ReviewPublished(review, true);
    assert trace[p] == before[p];
    assert WasPublished(trace, |before|, review);
    assert IsAuthorized(sha, trace, |before|);
    assert forall i :: 0 <= i < |before| ==> trace[i] == before[i];
  }

  lemma OtherEffectsKeepExecutions(sha: Digest, before: seq<Effect>, e: Effect)
    requires ExecutesOnceAtMost(sha, before) && !e.Executed?
    ensures ExecutesOnceAtMost(sha, before + [e])
  {
    hide Authorizes, HashPlan;
    var trace := before + [e];
    assert forall i :: 0 <= i < |before| ==> trace[i] == before[i];
    forall i | 0 <= i < |trace| && trace[i].Executed? ensures IsAuthorized(sha, trace, i) {
      assert IsAuthorized(sha, before, i);
      var review :| WasPublished(before, i, review) && Authorizes(before[i - 1].checked, review, before[i - 1].at)
                    && review.body.planSha256 == before[i].envelope.planSha256;
      var p :| 0 <= p < i && before[p] == ReviewPublished(review, true);
      assert trace[p] == before[p];
      assert WasPublished(trace, i, review);
    }
  }

  // ---------------------------------------------------------------- the manager

  datatype Decision = Undecided | HostFailed(failure: Failure) | Refused(reason: string) | Rejected | Approved(answer: Answer, at: int)

  class NativePluginManager {
    const sha: Digest
    const hashDocument: ReviewBody -> string
    const assess: (Intent, Release) -> Assessment
    const operations: set<Operation>
    const approvalPollLimit: nat
    const world: World
    var trace: seq<Effect>
    var ticks: nat
    var renewed: nat

    constructor (sha: Digest, hashDocument: ReviewBody -> string, assess: (Intent, Release) -> Assessment,
                 operations: set<Operation>, approvalPollLimit: nat, world: World)
      ensures trace == [] && this.world == world && this.approvalPollLimit == approvalPollLimit
      ensures this.sha == sha && this.hashDocument == hashDocument && this.assess == assess && this.operations == operations
    {
      this.sha, this.hashDocument, this.assess := sha, hashDocument, assess;
      this.operations, this.approvalPollLimit, this.world := operations, approvalPollLimit, world;
      trace, ticks, renewed := [], 0, 0;
    }

    // ---------------------------------------------------------------- what the host's answers lead to

    /** The host takes the observation, and the run reports it; or the call throws, and so does the run. */
    predicate Tells(r: RunResult, kind: Kind, o: Observation)
    {
      match world.observe(o)
      case Ok(_) => r == Reported(kind, o)
      case Err(f) => r == Threw(f)
    }

    /** No approval was there yet at one reading, and the lease was renewed unless that was the last one. */
    predicate WaitedOnce(k: nat, firstRenewal: nat)
    {
      world.approvals(k) == Ok(None) && (k + 1 < approvalPollLimit ==> world.renewals(firstRenewal + k).Ok?)
    }

    ghost predicate Waited(n: nat, firstRenewal: nat)
    {
      forall k :: 0 <= k < n ==> WaitedOnce(k, firstRenewal)
    }

    /** The manager waits for this answer and gets it. */
    ghost predicate Answered(n: nat, firstRenewal: nat, answer: Answer)
    {
      n < approvalPollLimit && Waited(n, firstRenewal) && world.approvals(n) == Ok(Some(answer))
    }

    /** While it waits, the host throws. */
    ghost predicate Interrupted(n: nat, firstRenewal: nat, f: Failure)
    {
      && n < approvalPollLimit && Waited(n, firstRenewal)
      && (world.approvals(n) == Err(f)
          || (world.approvals(n) == Ok(None) && n + 1 < approvalPollLimit && world.renewals(firstRenewal + n) == Err(f)))
    }

    lemma FirstAnswerCounts(n: nat, m: nat, firstRenewal: nat, answer: Answer)
      requires Answered(m, firstRenewal, answer)
      ensures Waited(n, firstRenewal) ==> n <= m
      ensures forall f :: Interrupted(n, firstRenewal, f) ==> false
      ensures forall other :: Answered(n, firstRenewal, other) ==> n == m && other == answer
    {
      assert WaitedOnce(m, firstRenewal) ==> false;
      assert n < m && Waited(m, firstRenewal) ==> WaitedOnce(n, firstRenewal);
    }

    /** Waiting ends with an answer that authorizes the plan of a review. */
    ghost predicate GetsApproved(review: Review, firstRenewal: nat, at: int)
    {
      exists n: nat, answer: Answer :: Answered(n, firstRenewal, answer) && Authorizes(answer, review, at)
    }

    method Now() returns (at: int)
      modifies this`ticks
      ensures at == world.clock(old(ticks)) && ticks == old(ticks) + 1
    {
      at := world.clock(ticks);
      ticks := ticks + 1;
    }

    method Record(e: Effect)
      modifies this`trace
      ensures trace == old(trace) + [e] && Reads(trace) == Reads(old(trace)) + (if e.ApprovalRead? then 1 else 0)
    {
      ReadsOfAppend(trace, e);
      trace := trace + [e];
    }

    /** A host call throws: the run ends here. */
    method Abort(f: Failure) returns (r: RunResult)
      requires ExecutesOnceAtMost(sha, trace) && NothingReported(trace)
      modifies this`trace
      ensures ExecutesOnceAtMost(sha, trace) && r == Threw(f) && EndsAsReported(trace, r)
      ensures Reads(trace) == Reads(old(trace)) && SameExecutions(old(trace), trace)
    {
      hide ExecutesOnceAtMost, NothingReported;
      OtherEffect(trace, HostThrew(f));
      OtherEffectsKeepExecutions(sha, trace, HostThrew(f));
      ghost var before := trace;
      Record(HostThrew(f));
      assert trace[..|trace| - 1] == before;
      r := Threw(f);
    }

    method Publish(kind: Kind, o: Observation) returns (r: RunResult)
      requires ExecutesOnceAtMost(sha, trace) && NothingReported(trace)
      modifies this`trace
      ensures ExecutesOnceAtMost(sha, trace) && EndsAsReported(trace, r) && Tells(r, kind, o)
      ensures r == Reported(kind, o) || r.Threw?
      ensures Reads(trace) == Reads(old(trace)) && SameExecutions(old(trace), trace)
    {
      hide ExecutesOnceAtMost, NothingReported, SameExecutions;
      var answer := world.observe(o);
      if answer.Err? {
        r := Abort(answer.error);
        return;
      }
      OtherEffectsKeepExecutions(sha, trace, Observed(o));
      OtherEffect(trace, Observed(o));
      ghost var before := trace;
      Record(Observed(o));
      assert trace[..|trace| - 1] == before;
      r := Reported(kind, o);
    }

    /** `publishSafeFailure` */
    method PublishSafeFailure(revision: int, planSha256: Option<string>, f: Failure) returns (r: RunResult)
      requires ExecutesOnceAtMost(sha, trace) && NothingReported(trace)
      modifies this`trace
      ensures ExecutesOnceAtMost(sha, trace) && EndsAsReported(trace, r)
      ensures Tells(r, FailedRun, Observation(FailedState, f.reason, revision, planSha256, f.retryable))
      ensures r == Reported(FailedRun, Observation(FailedState, f.reason, revision, planSha256, f.retryable)) || r.Threw?
      ensures Reads(trace) == Reads(old(trace)) && SameExecutions(old(trace), trace)
    {
      hide ExecutesOnceAtMost, EndsAsReported;
      r := Publish(FailedRun, Observation(FailedState, f.reason, revision, planSha256, f.retryable));
    }

    /**
     The plan, and a review of it: the stored one while it is valid, or a new one of what `assess` finds. It
     fails exactly when there is no plan, or the stored review is not one of this plan.
     */
    method Prepare(c: Claim, r: Release) returns (prepared: Result<(Envelope, Review), Failure>)
      modifies this`ticks
      ensures prepared.Ok? <==>
                PlanFor(c.intent, r).Ok?
                && (StoredCounts(c, world.clock(old(ticks))) ==>
                      IsReviewOf(hashDocument, c.review.value, c.intent, r, HashPlan(sha, PlanFor(c.intent, r).value)))
      ensures prepared.Ok? ==>
                var (e, review) := prepared.value;
                && PlanFor(c.intent, r) == Ok(e.plan) && e.planSha256 == HashPlan(sha, e.plan)
                && e.desiredRevision == c.intent.expectedPlatformRevision + 1
                && IsReviewOf(hashDocument, review, c.intent, r, e.planSha256)
                && (if StoredCounts(c, world.clock(old(ticks))) then c.review == Some(review)
                    else IsNewReview(review, assess(c.intent, r), world.clock(old(ticks))))
      ensures prepared.Err? ==>
                prepared.error == if PlanFor(c.intent, r).Err? then PlanFor(c.intent, r).error else Failure("signature_invalid", false)
      ensures prepared.Ok? ==> ticks == old(ticks) + 1
    {
      hide PlanFor, HashPlan;
      var plan := PlanFor(c.intent, r);
      if plan.Err? {
        return Err(plan.error);
      }
      var envelope := Envelope(c.intent.expectedPlatformRevision + 1, plan.value, HashPlan(sha, plan.value));
      var at := Now();
      if c.review.Some? && c.review.value.body.expiresAt > at {
        if !MayBeReused(hashDocument, c.review.value, c.intent, r, envelope) {
          return Err(Failure("signature_invalid", false));
        }
        return Ok((envelope, c.review.value));
      }
      prepared := Ok((envelope, ReviewFor(hashDocument, c.intent, r, envelope, assess(c.intent, r), at)));
    }

    /** What the manager makes of an answer, read at `at`; a refusal looks at the clock once more. */
    ghost predicate IsDecisionOn(d: Decision, answer: Answer, review: Review, at: int, later: int)
    {
      match d
      case Approved(accepted, when) => accepted == answer && when == at && Authorizes(answer, review, at)
      case Rejected => Names(answer, review) && answer.approval.expiresAt > at && !answer.approval.approves
      case Refused(reason) =>
        && (Names(answer, review) ==> answer.approval.expiresAt <= at)
        && reason == (if answer.approval.expiresAt <= (if Names(answer, review) then later else at) then "approval_expired"
                      else "approval_digest_mismatch")
      case _ => false
    }

    /**
     The poll loop: at most `approvalPollLimit` reads, and a lease renewal between two of them, until there is
     an answer.
     */
    method AwaitDecision(review: Review, publishedRevision: int) returns (d: Decision, revision: int, ghost n: nat)
      requires Silent(trace) && WasPublished(trace, |trace|, review)
      modifies this
      ensures Silent(trace) && WasPublished(trace, |trace|, review)
      ensures Reads(trace) <= Reads(old(trace)) + approvalPollLimit
      ensures d.Approved? ==>
                && |trace| >= 2 && trace[|trace| - 2] == ApprovalRead(Some(d.answer)) && trace[|trace| - 1] == ApprovalChecked(d.answer, d.at)
                && Authorizes(d.answer, review, d.at) && revision == d.answer.revision
      ensures Waited(n, old(renewed))
      ensures match d
              case Undecided => n == approvalPollLimit && Reads(trace) == Reads(old(trace)) + approvalPollLimit
              case HostFailed(f) => Interrupted(n, old(renewed), f)
              case _ => n < approvalPollLimit && world.approvals(n).Ok? && world.approvals(n).value.Some?
                        && IsDecisionOn(d, world.approvals(n).value.value, review, world.clock(old(ticks)), world.clock(old(ticks) + 1))
                        && (!d.Refused? ==> revision == world.approvals(n).value.value.revision)
    {
      hide Silent, WasPublished, Reads;
      d, revision, n := Undecided, publishedRevision, 0;
      var attempt := 0;
      while attempt < approvalPollLimit
        invariant 0 <= attempt == n <= approvalPollLimit && d.Undecided? && ticks == old(ticks)
        invariant attempt < approvalPollLimit ==> renewed == old(renewed) + attempt
        invariant Waited(n, old(renewed))
        invariant Silent(trace) && WasPublished(trace, |trace|, review)
        invariant Reads(trace) == Reads(old(trace)) + attempt
      {
        var read := world.approvals(attempt);
        if read.Err? {
          return HostFailed(read.error), revision, n;
        }
        var answer := read.value;
        Extended(trace, ApprovalRead(answer), review);
        Record(ApprovalRead(answer));
        attempt := attempt + 1;
        if answer.None? {
          if attempt < approvalPollLimit {
            var renewal := world.renewals(renewed);
            if renewal.Err? {
              return HostFailed(renewal.error), revision, n;
            }
            revision := renewal.value;
            renewed := renewed + 1;
            Extended(trace, LeaseRenewed, review);
            Record(LeaseRenewed);
          }
          assert WaitedOnce(n, old(renewed));
          n := n + 1;
          continue;
        }
        var approval := answer.value.approval;
        if approval.reviewSha256 != review.reviewSha256 || approval.planSha256 != review.body.planSha256
           || approval.expectedRevision + 1 != answer.value.revision {
          var later := Now();
          return Refused(if approval.expiresAt <= later then "approval_expired" else "approval_digest_mismatch"), revision, n;
        }
        var at := Now();
        if approval.expiresAt <= at {
          var later := Now();
          return Refused(if approval.expiresAt <= later then "approval_expired" else "approval_digest_mismatch"), revision, n;
        }
        Extended(trace, ApprovalChecked(answer.value, at), review);
        Record(ApprovalChecked(answer.value, at));
        revision := answer.value.revision;
        if !approval.approves {
          return Rejected, revision, n;
        }
        return Approved(answer.value, at), revision, n;
      }
    }

    /** Execute an approved plan once, and report how it went. */
    method ExecuteAndReport(e: Envelope, review: Review, d: Decision, revision: int) returns (r: RunResult)
      requires Silent(trace) && WasPublished(trace, |trace|, review) && d.Approved?
      requires |trace| >= 2 && trace[|trace| - 2] == ApprovalRead(Some(d.answer)) && trace[|trace| - 1] == ApprovalChecked(d.answer, d.at)
      requires Authorizes(d.answer, review, d.at)
      requires e.planSha256 == HashPlan(sha, e.plan) && review.body.planSha256 == e.planSha256
      modifies this`trace
      ensures ExecutesOnceAtMost(sha, trace) && EndsAsReported(trace, r) && (r.Reported? || r.Threw?)
      ensures Reads(trace) == Reads(old(trace))
      ensures (forall x :: Executed(x) in trace <==> x == e) && IsReportOf(r, e, revision)
    {
      hide ExecutesOnceAtMost, Authorizes, HashPlan, WasPublished, Silent, EndsAsReported, SameExecutions;
      ExecutionIsAuthorized(sha, trace, e, review, d.answer, d.at);
      ghost var before := trace;
      Record(Executed(e));
      var outcome := world.execution(e);
      match outcome {
        case Err(failure) => r := PublishSafeFailure(revision, Some(review.body.planSha256), failure);
        case Ok(result) =>
          r := Publish(
            match result.status case Succeeded => Completed case Failed => FailedRun case ManualIntervention => ManualRun,
            Observation(match result.status case Succeeded => ReadyState case Failed => FailedState case ManualIntervention => ManualState,
                        result.reason, revision, Some(review.body.planSha256), result.status == Failed));
      }
      ExecutesOne(before, e, trace);
    }

    /** The run reports what the execution came to, and an execution that threw as a failure. */
    ghost predicate IsReportOf(r: RunResult, e: Envelope, revision: int)
    {
      match world.execution(e)
      case Err(f) => Tells(r, FailedRun, Observation(FailedState, f.reason, revision, Some(e.planSha256), f.retryable))
      case Ok(Outcome(Succeeded, reason)) => Tells(r, Completed, Observation(ReadyState, reason, revision, Some(e.planSha256), false))
      case Ok(Outcome(Failed, reason)) => Tells(r, FailedRun, Observation(FailedState, reason, revision, Some(e.planSha256), true))
      case Ok(Outcome(ManualIntervention, reason)) =>
        Tells(r, ManualRun, Observation(ManualState, reason, revision, Some(e.planSha256), false))
    }

    /** Wait for a decision on a published review, and act on it. */
    method Conclude(e: Envelope, review: Review, publishedRevision: int) returns (r: RunResult)
      requires Silent(trace) && Reads(trace) == 0 && WasPublished(trace, |trace|, review)
      requires e.planSha256 == HashPlan(sha, e.plan) && review.body.planSha256 == e.planSha256
      modifies this
      ensures ExecutesOnceAtMost(sha, trace) && EndsAsReported(trace, r)
      ensures Reads(trace) <= approvalPollLimit
      ensures !r.Idle?
      ensures IsConclusion(r, e, review, old(renewed), world.clock(old(ticks)), trace)
    {
      hide ExecutesOnceAtMost, Authorizes, HashPlan, EndsAsReported, NothingReported, WasPublished, Silent, Reads, Waited, SameExecutions,
        Tells, Names;
      ghost var firstRenewal, at := renewed, world.clock(ticks);
      var d, revision;
      ghost var n;
      d, revision, n := AwaitDecision(review, publishedRevision);
      SilentExecutesNothing(sha, trace);
      SilentIsWithoutExecution(trace);
      ghost var before := trace;
      match d {
        case Undecided =>
          r := AwaitingApproval(review);
          NothingToReport(trace, r);
        case HostFailed(failure) => r := Abort(failure);
        case Refused(reason) => r := PublishSafeFailure(revision, Some(review.body.planSha256), Failure(reason, false));
        case Rejected =>
          r := Publish(Blocked, Observation(Cancelled, "administrator_cancelled", revision, Some(review.body.planSha256), false));
        case Approved(_, _) => r := ExecuteAndReport(e, review, d, revision);
      }
      if !d.Approved? {
        StillNoExecution(before, trace);
      }
      ConclusionOf(d, n, firstRenewal, review, at, world.clock(old(ticks) + 1));
      if d.Approved? {
        assert IsReportOf(r, e, revision) && Executed(e) in trace;
      } else if (d.Rejected? || d.Refused?) && r.Reported? {
        assert Answered(n, firstRenewal, world.approvals(n).value.value);
        RefusalMeans(d, n, world.approvals(n).value.value, r, review, firstRenewal, at, world.clock(old(ticks) + 1));
      }
    }

    lemma RefusalMeans(d: Decision, n: nat, answer: Answer, r: RunResult, review: Review, firstRenewal: nat, at: int, later: int)
      requires Answered(n, firstRenewal, answer) && IsDecisionOn(d, answer, review, at, later) && r.Reported?
      requires match d
               case Rejected => r.kind == Blocked && r.observation.state == Cancelled && r.observation.revision == answer.revision
               case Refused(_) => r.kind == FailedRun && r.observation.state == FailedState && !r.observation.retryable
               case _ => false
      ensures IsRefusal(r, review, firstRenewal, at)
    {
    }

    /** The plan is executed exactly when an approval of it arrives in time; nobody answering means waiting on. */
    ghost predicate IsConclusion(r: RunResult, e: Envelope, review: Review, firstRenewal: nat, at: int, trace: seq<Effect>)
    {
      && (Executes(trace) <==> GetsApproved(review, firstRenewal, at))
      && (Executes(trace) ==> (forall x :: Executed(x) in trace <==> x == e) && exists revision :: IsReportOf(r, e, revision))
      && (r.AwaitingApproval? <==> Waited(approvalPollLimit, firstRenewal))
      && (r.AwaitingApproval? ==> r.review == review)
      && (r.Reported? && !Executes(trace) ==> IsRefusal(r, review, firstRenewal, at))
    }

    /** Without an execution the run reports a rejection, or an answer that was about something else or too late. */
    ghost predicate IsRefusal(r: RunResult, review: Review, firstRenewal: nat, at: int)
      requires r.Reported?
    {
      exists n: nat, answer: Answer :: Answered(n, firstRenewal, answer) &&
        if Names(answer, review) && answer.approval.expiresAt > at then
          !answer.approval.approves && r.kind == Blocked && r.observation.state == Cancelled && r.observation.revision == answer.revision
        else r.kind == FailedRun && r.observation.state == FailedState && !r.observation.retryable
    }

    lemma StillNoExecution(before: seq<Effect>, after: seq<Effect>)
      requires !Executes(before) && SameExecutions(before, after)
      ensures !Executes(after)
    {
    }

    lemma ConclusionOf(d: Decision, n: nat, firstRenewal: nat, review: Review, at: int, later: int)
      requires Waited(n, firstRenewal)
      requires match d
               case Undecided => n == approvalPollLimit
               case HostFailed(f) => Interrupted(n, firstRenewal, f)
               case _ => n < approvalPollLimit && world.approvals(n).Ok? && world.approvals(n).value.Some?
                         && IsDecisionOn(d, world.approvals(n).value.value, review, at, later)
      ensures d.Approved? <==> GetsApproved(review, firstRenewal, at)
      ensures d.Undecided? <==> Waited(approvalPollLimit, firstRenewal)
    {
      if d.Approved? || d.Rejected? || d.Refused? {
        assert Answered(n, firstRenewal, world.approvals(n).value.value);
      }
      if m: nat, answer: Answer :| Answered(m, firstRenewal, answer) && Authorizes(answer, review, at) {
        FirstAnswerCounts(n, m, firstRenewal, answer);
      }
      assert !d.Undecided? && Waited(approvalPollLimit, firstRenewal) ==> WaitedOnce(n, firstRenewal);
    }

    /** From the review on: publish it, then wait for a decision unless it is blocked or the lease is gone. */
    method Decide(e: Envelope, review: Review) returns (r: RunResult)
      requires Silent(trace) && Reads(trace) == 0
      requires e.planSha256 == HashPlan(sha, e.plan) && review.body.planSha256 == e.planSha256
      modifies this
      ensures ExecutesOnceAtMost(sha, trace) && EndsAsReported(trace, r)
      ensures Reads(trace) <= approvalPollLimit
      ensures !r.Idle?
      ensures IsDecided(r, e, review, old(renewed), world.clock(old(ticks)), trace)
    {
      hide ExecutesOnceAtMost, Authorizes, HashPlan, EndsAsReported, NothingReported, Silent, Reads, SameExecutions, IsConclusion, Tells,
        BlockingReason;
      SilentExecutesNothing(sha, trace);
      var answer := world.publish(review);
      if answer.Err? {
        SilentIsWithoutExecution(trace);
        ghost var start := trace;
        r := Abort(answer.error);
        StillNoExecution(start, trace);
        return;
      }
      var published := answer.value;
      SilentOneMore(trace, ReviewPublished(review, published.leaseRetained));
      ghost var before := trace;
      Record(ReviewPublished(review, published.leaseRetained));
      SilentExecutesNothing(sha, trace);
      SilentIsWithoutExecution(trace);
      if !review.body.approvable {
        ghost var start := trace;
        r := Publish(Blocked, Observation(FailedState, BlockingReason(review.body.assessment), published.revision,
                                          Some(review.body.planSha256), false));
        StillNoExecution(start, trace);
        return;
      }
      if !published.leaseRetained {
        r := AwaitingApproval(review);
        NothingToReport(trace, r);
        return;
      }
      assert trace[|before|] == ReviewPublished(review, true);
      r := Conclude(e, review, published.revision);
    }

    /** A review that is not approvable ends in a blocked run, and without the lease the manager leaves it at the review. */
    ghost predicate IsDecided(r: RunResult, e: Envelope, review: Review, firstRenewal: nat, at: int, trace: seq<Effect>)
    {
      match world.publish(review)
      case Err(f) => r == Threw(f) && !Executes(trace)
      case Ok(published) =>
        if !review.body.approvable then
          !Executes(trace)
          && Tells(r, Blocked, Observation(FailedState, BlockingReason(review.body.assessment), published.revision,
                                           Some(review.body.planSha256), false))
        else if !published.leaseRetained then r == AwaitingApproval(review) && !Executes(trace)
        else IsConclusion(r, e, review, firstRenewal, at, trace)
    }

    /** The claim is of a release the manager can deal with. */
    predicate IsServiceable(c: Claim, r: Release)
    {
      world.resolve(c.intent.release) == Ok(r) && r.pluginId == c.intent.pluginId && c.intent.operation in operations
    }

    /** The review a claim leads to: the stored one, or a new one of what `assess` finds. */
    predicate LeadsToReview(c: Claim, r: Release, plan: Plan, review: Review, at: int)
    {
      && IsServiceable(c, r) && PlanFor(c.intent, r) == Ok(plan)
      && IsReviewOf(hashDocument, review, c.intent, r, HashPlan(sha, plan))
      && (if StoredCounts(c, at) then c.review == Some(review) else IsNewReview(review, assess(c.intent, r), at))
    }

    function EnvelopeOf(c: Claim, plan: Plan): Envelope
    {
      Envelope(c.intent.expectedPlatformRevision + 1, plan, HashPlan(sha, plan))
    }

    /** Either no review can be made, and the run fails, or the one review is published and decided on. */
    ghost predicate IsServed(r: RunResult, c: Claim, review: Option<Review>, ticks: nat, firstRenewal: nat, trace: seq<Effect>)
    {
      match review
      case None =>
        && !Executes(trace) && IsReportOfObstacle(r, c)
        && forall x, plan, y :: !LeadsToReview(c, x, plan, y, world.clock(ticks))
      case Some(made) =>
        && world.resolve(c.intent.release).Ok? && PlanFor(c.intent, world.resolve(c.intent.release).value).Ok?
        && var release := world.resolve(c.intent.release).value;
           var plan := PlanFor(c.intent, release).value;
           && LeadsToReview(c, release, plan, made, world.clock(ticks))
           && IsDecided(r, EnvelopeOf(c, plan), made, firstRenewal, world.clock(ticks + 1), trace)
    }

    /** Why there is no review: the release cannot be had, is another plugin's, or cannot be installed or planned by this manager. */
    ghost predicate IsReportOfObstacle(r: RunResult, c: Claim)
    {
      match world.resolve(c.intent.release)
      case Err(f) => Tells(r, FailedRun, Observation(FailedState, f.reason, c.revision, None, f.retryable))
      case Ok(release) =>
        exists reason :: Tells(r, FailedRun, Observation(FailedState, reason, c.revision, None, false)) &&
          if release.pluginId != c.intent.pluginId then reason == "verification_failed"
          else if c.intent.operation !in operations then reason == "manager_incompatible"
          else PlanFor(c.intent, release).Ok? ==> reason == "signature_invalid" && c.review.Some?
    }

    /** A claimed intent: resolve its release, plan and review it, and see it through. */
    method Serve(c: Claim) returns (r: RunResult, ghost review: Option<Review>)
      requires Silent(trace) && Reads(trace) == 0
      modifies this
      ensures ExecutesOnceAtMost(sha, trace) && EndsAsReported(trace, r)
      ensures Reads(trace) <= approvalPollLimit
      ensures !r.Idle?
      ensures IsServed(r, c, review, old(ticks), old(renewed), trace)
    {
      hide ExecutesOnceAtMost, HashPlan, EndsAsReported, NothingReported, Silent, Reads, PlanFor, IsDecided, SameExecutions, Executes;
      SilentExecutesNothing(sha, trace);
      SilentIsWithoutExecution(trace);
      ghost var start := trace;
      review := None;
      var resolved := world.resolve(c.intent.release);
      if resolved.Err? {
        r := PublishSafeFailure(c.revision, None, resolved.error);
        StillNoExecution(start, trace);
        return;
      }
      var release := resolved.value;
      if release.pluginId != c.intent.pluginId {
        r := PublishSafeFailure(c.revision, None, Failure("verification_failed", false));
        StillNoExecution(start, trace);
        return;
      }
      if c.intent.operation !in operations {
        r := PublishSafeFailure(c.revision, None, Failure("manager_incompatible", false));
        StillNoExecution(start, trace);
        return;
      }
      var prepared := Prepare(c, release);
      if prepared.Err? {
        PlanFailure(c.intent, release);
        r := PublishSafeFailure(c.revision, None, prepared.error);
        StillNoExecution(start, trace);
        return;
      }
      review := Some(prepared.value.1);
      r := Decide(prepared.value.0, prepared.value.1);
    }

    /** What it takes for a run to execute a plan. */
    ghost predicate WillExecute(c: Claim, r: Release, plan: Plan, review: Review, ticks: nat, firstRenewal: nat)
    {
      && world.advertise.Ok? && world.claim == Ok(Some(c))
      && LeadsToReview(c, r, plan, review, world.clock(ticks)) && review.body.approvable
      && world.publish(review).Ok? && world.publish(review).value.leaseRetained
      && GetsApproved(review, firstRenewal, world.clock(ticks + 1))
    }

    /**
     `runOnce`: it executes at most once, and only the plan whose digest an unexpired approval named, after
     publishing an approvable review of it with the lease retained; it reads approval at most as often as
     its limit says; and it reports with exactly one observation, unless it is idle or waits. A host call
     that throws ends the run on the spot, with all of this true of what was done before. And it does execute
     the plan where it may.
     */
    method RunOnce() returns (r: RunResult)
      requires trace == []
      modifies this
      ensures ExecutesOnceAtMost(sha, trace)
      ensures Reads(trace) <= approvalPollLimit
      ensures EndsAsReported(trace, r)
      ensures r.Idle? <==> world.advertise.Ok? && world.claim == Ok(None)
      ensures forall e :: Executed(e) in trace ==> IsJustified(e, old(ticks), old(renewed))
      ensures forall c, release, plan, review :: WillExecute(c, release, plan, review, old(ticks), old(renewed)) ==>
                Executed(EnvelopeOf(c, plan)) in trace && exists revision :: IsReportOf(r, EnvelopeOf(c, plan), revision)
      ensures r.Reported? && (r.kind == Completed || r.kind == ManualRun) ==> Executes(trace)
      ensures world.advertise.Err? ==> r == Threw(world.advertise.error)
      ensures world.advertise.Ok? && world.claim.Err? ==> r == Threw(world.claim.error)
    {
      hide ExecutesOnceAtMost, EndsAsReported, NothingReported, Silent, SameExecutions, IsJustified, IsReportOf, LeadsToReview, IsServed;
      NothingYet();
      SilentExecutesNothing(sha, trace);
      SilentIsWithoutExecution(trace);
      ghost var start, firstTick, firstRenewal := trace, ticks, renewed;
      if world.advertise.Err? {
        r := Abort(world.advertise.error);
        StillNoExecution(start, trace);
        return;
      }
      if world.claim.Err? {
        r := Abort(world.claim.error);
        StillNoExecution(start, trace);
        return;
      }
      if world.claim.value.None? {
        r := Idle;
        NothingToReport(trace, r);
        return;
      }
      SilentOneMore(trace, Claimed);
      Record(Claimed);
      ghost var review;
      r, review := Serve(world.claim.value.value);
      ServedMeans(r, world.claim.value.value, review, firstTick, firstRenewal, trace);
    }

    /** An executed plan is one it had to execute; without a stored review nothing was found to block the release. */
    ghost predicate IsJustified(e: Envelope, ticks: nat, firstRenewal: nat)
    {
      exists c, release, review ::
        && WillExecute(c, release, e.plan, review, ticks, firstRenewal) && e == EnvelopeOf(c, e.plan)
        && (!StoredCounts(c, world.clock(ticks)) ==> NothingBlocks(assess(c.intent, release)))
    }

    lemma OneReview(c: Claim, r: Release, plan: Plan, review: Review, s: Release, other: Plan, another: Review, at: int)
      requires LeadsToReview(c, r, plan, review, at) && LeadsToReview(c, s, other, another, at)
      ensures r == s && plan == other && review == another
    {
      hide HashPlan, PlanFor;
      assert !StoredCounts(c, at) ==> review.body == another.body;
    }

    lemma ApprovableMeans(c: Claim, r: Release, plan: Plan, review: Review, at: int)
      requires LeadsToReview(c, r, plan, review, at) && review.body.approvable
      ensures !StoredCounts(c, at) ==> NothingBlocks(assess(c.intent, r))
    {
      hide HashPlan, PlanFor;
    }

    lemma ServedMeans(r: RunResult, c: Claim, review: Option<Review>, ticks: nat, firstRenewal: nat, trace: seq<Effect>)
      requires world.advertise.Ok? && world.claim == Ok(Some(c)) && IsServed(r, c, review, ticks, firstRenewal, trace)
      ensures forall e :: Executed(e) in trace ==> IsJustified(e, ticks, firstRenewal)
      ensures forall d, release, plan, other :: WillExecute(d, release, plan, other, ticks, firstRenewal) ==>
                Executed(EnvelopeOf(d, plan)) in trace && exists revision :: IsReportOf(r, EnvelopeOf(d, plan), revision)
      ensures r.Reported? && (r.kind == Completed || r.kind == ManualRun) ==> Executes(trace)
    {
      hide HashPlan, PlanFor, GetsApproved, LeadsToReview, IsReportOf, Waited;
      forall e | Executed(e) in trace ensures IsJustified(e, ticks, firstRenewal) {
        var release := world.resolve(c.intent.release).value;
        ApprovableMeans(c, release, e.plan, review.value, world.clock(ticks));
        assert WillExecute(c, release, e.plan, review.value, ticks, firstRenewal);
      }
      forall d, release, plan, other | WillExecute(d, release, plan, other, ticks, firstRenewal)
        ensures Executed(EnvelopeOf(d, plan)) in trace && exists revision :: IsReportOf(r, EnvelopeOf(d, plan), revision)
      {
        OneReview(c, world.resolve(c.intent.release).value, PlanFor(c.intent, world.resolve(c.intent.release).value).value, review.value,
                  release, plan, other, world.clock(ticks));
      }
    }
  }

  lemma NothingYet()
    ensures Silent([]) && Reads([]) == 0
  {
  }

  lemma NothingToReport(trace: seq<Effect>, r: RunResult)
    requires (r.Idle? || r.AwaitingApproval?) && NothingReported(trace)
    ensures EndsAsReported(trace, r)
  {
  }

  lemma SilentOneMore(trace: seq<Effect>, e: Effect)
    requires Silent(trace) && IsSilent(e)
    ensures Silent(trace + [e])
  {
  }

  /** Reading, checking and renewing keep the trace silent and what was published published. */
  lemma Extended(trace: seq<Effect>, e: Effect, review: Review)
    requires Silent(trace) && WasPublished(trace, |trace|, review) && IsSilent(e)
    ensures Silent(trace + [e]) && WasPublished(trace + [e], |trace| + 1, review)
  {
    var p :| 0 <= p < |trace| && trace[p] == ReviewPublished(review, true);
    assert (trace + [e])[p] == trace[p];
  }
}
