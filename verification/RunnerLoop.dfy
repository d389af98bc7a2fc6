/**
 One call of the runner from start to end (packages/plugin-installer/src/executionRunner.ts:98-218), alone on
 its deployment. The clock and the phases whose adapter throws are arbitrary.
 */
module RunnerLoop {
  import opened Results
  import opened LifecyclePlans
  import opened PlanHash
  import opened Execution
  import opened Runner

  /** A phase is still to be worked on when it has no receipt. */
  function ToDo(phase: Phase, receipts: set<Phase>): seq<Phase>
  {
    if phase in receipts then [] else [phase]
  }

  /** The phases from the k-th on whose work is still to be done: those without a receipt. */
  function Pending(phases: seq<Phase>, k: nat, receipts: set<Phase>): seq<Phase>
    decreases |phases| - k
  {
    if k >= |phases| then []
    else ToDo(phases[k], receipts) + Pending(phases, k + 1, receipts)
  }

  /** A receipt for a phase that is not to come makes no difference. */
  lemma {:induction false} ReceiptBehindIsIrrelevant(phases: seq<Phase>, k: nat, receipts: set<Phase>, p: Phase)
    requires k <= |phases| && p !in phases[k..]
    ensures Pending(phases, k, receipts + {p}) == Pending(phases, k, receipts)
    decreases |phases| - k
  {
    if k < |phases| {
      assert phases[k] in phases[k..];
      ReceiptBehindIsIrrelevant(phases, k + 1, receipts, p);
    }
  }

  lemma PendingAfterPhase(phases: seq<Phase>, k: nat, receipts: set<Phase>)
    requires DistinctPhases(phases) && k < |phases|
    ensures Pending(phases, k, receipts) ==
              ToDo(phases[k], receipts) + Pending(phases, k + 1, receipts + {phases[k]})
  {
    ReceiptBehindIsIrrelevant(phases, k + 1, receipts, phases[k]);
  }

  /** In an accepted execution the next phase is the plan's, and nothing remains exactly when it succeeded. */
  lemma CheckpointOfAccepted(sha: Digest, x: Execution, e: Envelope)
    requires Accepted(sha, x, e) && KeepsToPlan(x, e)
    ensures e.plan.Some? && DistinctPhases(e.plan.value.phases) && |x.completedPhases| <= |e.plan.value.phases|
    ensures x.nextPhase == PhaseAt(e.plan.value.phases, |x.completedPhases|)
    ensures x.status == Succeeded <==> |x.completedPhases| == |e.plan.value.phases|
  {
    AcceptedPhasesAreDistinct(e.plan.value);
  }

  /** As far as an adapter gets with its work: up to and including the first phase that throws. */
  function UntilBroken(todo: seq<Phase>, broken: set<Phase>): seq<Phase>
  {
    if todo == [] then []
    else if todo[0] in broken then [todo[0]]
    else [todo[0]] + UntilBroken(todo[1..], broken)
  }

  ghost predicate NoneBroken(todo: seq<Phase>, broken: set<Phase>)
  {
    forall p :: p in todo ==> p !in broken
  }

  /** Without a broken phase that is all of the work, and with one it ends there. */
  lemma {:induction false} UntilBrokenIsAll(todo: seq<Phase>, broken: set<Phase>)
    ensures UntilBroken(todo, broken) <= todo
    ensures UntilBroken(todo, broken) == todo || (UntilBroken(todo, broken) != [] && UntilBroken(todo, broken)[|UntilBroken(todo, broken)| - 1] in broken)
    ensures NoneBroken(todo, broken) ==> UntilBroken(todo, broken) == todo
  {
    if todo != [] {
      UntilBrokenIsAll(todo[1..], broken);
      assert todo == [todo[0]] + todo[1..];
    }
  }

  lemma UntilBrokenStep(first: seq<Phase>, rest: seq<Phase>, broken: set<Phase>)
    requires |first| <= 1
    ensures NoneBroken(first, broken) ==>
              UntilBroken(first + rest, broken) == first + UntilBroken(rest, broken)
              && (NoneBroken(first + rest, broken) <==> NoneBroken(rest, broken))
    ensures !NoneBroken(first, broken) ==> UntilBroken(first + rest, broken) == first && !NoneBroken(first + rest, broken)
  {
    if first == [] {
      assert first + rest == rest;
    } else {
      assert (first + rest)[1..] == rest && (first + rest)[0] == first[0] && first == [first[0]];
      assert first[0] in first && first[0] in first + rest;
    }
  }

  /** What a runner gets through of all its work is what it has done and what it gets through of the rest. */
  ghost predicate SameFailure(todo: seq<Phase>, done: seq<Phase>, rest: seq<Phase>, broken: set<Phase>)
  {
    UntilBroken(todo, broken) == done + UntilBroken(rest, broken) && (NoneBroken(todo, broken) <==> NoneBroken(rest, broken))
  }

  lemma SameFailureStep(todo: seq<Phase>, done: seq<Phase>, phase: Phase, receipts: set<Phase>, rest: seq<Phase>, broken: set<Phase>)
    ensures SameFailure(todo, done, ToDo(phase, receipts) + rest, broken) ==>
              if phase in receipts || phase !in broken then SameFailure(todo, done + ToDo(phase, receipts), rest, broken)
              else UntilBroken(todo, broken) == done + ToDo(phase, receipts) && !NoneBroken(todo, broken)
  {
    hide UntilBroken;
    var first := ToDo(phase, receipts);
    UntilBrokenStep(first, rest, broken);
    assert first != [] ==> first[0] in first;
    assert (done + first) + UntilBroken(rest, broken) == done + (first + UntilBroken(rest, broken));
  }

  lemma WorkDoneSoFar(before: seq<Phase>, todo: seq<Phase>, done: seq<Phase>, first: seq<Phase>, rest: seq<Phase>)
    requires todo == done + (first + rest)
    ensures before + done <= before + todo && before + done + first <= before + todo
    ensures before + done + first == before + (done + first) && todo == (done + first) + rest
  {
  }

  lemma SameFailureAtTheEnds(todo: seq<Phase>, broken: set<Phase>)
    ensures SameFailure(todo, [], todo, broken)
    ensures SameFailure(todo, todo, [], broken) ==> UntilBroken(todo, broken) == todo && NoneBroken(todo, broken)
  {
  }

  /** A reading is not before the creation, and the two after it come less than a lease later. */
  predicate InTime(clock: nat -> int, n: nat, createdAt: int, leaseMs: int)
  {
    createdAt <= clock(n) && clock(n + 1) < clock(n) + leaseMs && clock(n + 2) < clock(n) + leaseMs
  }

  /** A lease of legal length lasts for the two readings of a round, and for the first one of the next. */
  predicate HasTime(createdAt: int, owner: string, clock: nat -> int, n: nat, leaseMs: int)
  {
    LeaseIsLegal(owner, leaseMs) && InTime(clock, n, createdAt, leaseMs) && InTime(clock, n + 1, createdAt, leaseMs)
  }

  /** The lease can be had at the first reading, or is the worker's own and lasts beyond the second. */
  predicate Available(x: Execution, owner: string, clock: nat -> int, n: nat)
  {
    x.status == Running && x.leaseExpiresAt.Some? ==>
      x.leaseExpiresAt.value <= clock(n) || (x.leaseOwner == Some(owner) && x.leaseExpiresAt.value > clock(n + 1))
  }

  /** The clock leaves time for the next rounds. */
  ghost predicate Timely(createdAt: int, owner: string, clock: nat -> int, n: nat, leaseMs: int, rounds: nat)
  {
    forall k :: n <= k < n + 2 * rounds ==> HasTime(createdAt, owner, clock, k, leaseMs)
  }

  /** A worker with nobody in its way and a clock that leaves it enough time. */
  ghost predicate Unhindered(x: Execution, phases: seq<Phase>, owner: string, clock: nat -> int, n: nat, leaseMs: int)
  {
    !Terminal(x) && Available(x, owner, clock, n) && LeaseIsLegal(owner, leaseMs) && Timely(x.createdAt, owner, clock, n, leaseMs, 1 + |phases|)
  }

  lemma TimeGoesOn(createdAt: int, owner: string, clock: nat -> int, n: nat, m: nat, leaseMs: int, rounds: nat, left: nat)
    requires Timely(createdAt, owner, clock, n, leaseMs, rounds) && n <= m && m + 2 * left <= n + 2 * rounds
    ensures Timely(createdAt, owner, clock, m, leaseMs, left) && (left > 0 ==> HasTime(createdAt, owner, clock, m, leaseMs))
  {
    hide InTime;
  }

  /** Alone, the store makes every legal change that is not dated before the creation. */
  lemma LegalChangeGoesThrough(sha: Digest, x: Execution, e: Envelope, c: Change)
    requires Accepted(sha, x, e) && c.at >= x.createdAt
    ensures Mutated(sha, e, x, x.revision, c).Ok? <==> !Terminal(x) && IsLegal(x, c)
  {
    hide HashPlan, EnvelopeAcceptsPlan, IsHexDigest, AgreeAsFarAsBothGo, Transition, IsLegal, CheckpointIsConsistent;
    ChangeSucceedsExactly(sha, x, e, c);
    if Transition(sha, x, e, c).Ok? {
      ChangeIsAccepted(sha, x, e, c, Transition(sha, x, e, c).value);
    }
  }

  lemma LegalClaimGoesThrough(sha: Digest, x: Execution, e: Envelope, owner: string, at: int, leaseMs: int)
    requires Accepted(sha, x, e)
    ensures IsOpaqueId(owner) && HeldByAnother(x, owner, at) ==>
              Mutated(sha, e, x, x.revision, ClaimChange(owner, at, leaseMs)) == Err(LeaseHeld)
  {
    hide HashPlan, EnvelopeAcceptsPlan, IsHexDigest, AgreeAsFarAsBothGo, IsOpaqueId;
    RefusalsMean(sha, x, e, ClaimChange(owner, at, leaseMs));
  }

  /** What a commit leaves of the status and the lease. */
  lemma CommitResult(sha: Digest, x: Execution, e: Envelope, expectedRevision: int, c: Change, y: Execution)
    requires Mutated(sha, e, x, expectedRevision, c) == Ok(y)
    ensures Transition(sha, x, e, c) == Ok(y) && y.createdAt == x.createdAt
    ensures y.revision == if y == x then x.revision else x.revision + 1
    ensures y == x ==> c.RecoverChange?
    ensures c.ClaimChange? || c.RenewChange? ==>
              y.status == Running && y.leaseOwner == Some(c.owner) && y.leaseExpiresAt == Some(c.at + c.leaseMs)
    ensures c.CompleteChange? ==>
              y.status == Succeeded || (y.status == Running && y.leaseOwner == x.leaseOwner && y.leaseExpiresAt == x.leaseExpiresAt)
    ensures c.FailChange? ==>
              e.plan.Some? && y.status == if Irreversible(x, e.plan.value) then ManualIntervention else Failed
    ensures c.RecoverChange? && x.status == Running && x.leaseExpiresAt.Some? && x.leaseExpiresAt.value <= c.at ==>
              y.status == Queued && y.reasonCode == LeaseExpiredReason
  {
    hide PlanMatches, ParseExecution, Transition, Irreversible;
    ChangeResult(sha, x, e, c, y);
    ChangeShape(sha, x, e, c, y);
    ManualInterventionArises(sha, x, e, c, y);
    PlanOfChange(sha, x, e, c);
    FailureIsOneOfTwo(sha, x, e, c, y);
  }

  lemma PlanOfChange(sha: Digest, x: Execution, e: Envelope, c: Change)
    requires PlanMatches(sha, x, e)
    ensures e.plan.Some?
  {
  }

  lemma FailureIsOneOfTwo(sha: Digest, x: Execution, e: Envelope, c: Change, y: Execution)
    requires Transition(sha, x, e, c) == Ok(y)
    ensures c.FailChange? ==> y.status == Failed || y.status == ManualIntervention
    ensures c.FailChange? ==> y != x
  {
  }

  /** The store answers `lease_expired` exactly to the last holder of a lease that has run out. */
  lemma ExpiryMeans(sha: Digest, x: Execution, e: Envelope, expectedRevision: int, c: Change)
    requires Accepted(sha, x, e)
    ensures Mutated(sha, e, x, expectedRevision, c) == Err(LeaseExpired) <==>
              expectedRevision == x.revision && NeedsLease(c) && LeaseRanOut(x, c.owner, c.at)
  {
    hide HashPlan, EnvelopeAcceptsPlan, IsHexDigest, AgreeAsFarAsBothGo, IsOpaqueId, Transition, CheckpointIsConsistent, LeaseRanOut;
    RefusalsMean(sha, x, e, c);
  }

  class Deployment {
    const sha: Digest
    const envelope: Envelope
    const clock: nat -> int
    /** The phases whose adapter throws. */
    const broken: set<Phase>
    var readings: nat
    var record: Execution
    var receipts: set<Phase>
    /** The phases whose work was begun, in order. */
    var work: seq<Phase>

    ghost predicate Valid()
      reads this
    {
      Accepted(sha, record, envelope) && KeepsToPlan(record, envelope) && ReceiptsMatch(record, receipts)
    }

    function Phases(): seq<Phase>
    {
      if envelope.plan.Some? then envelope.plan.value.phases else []
    }

    constructor (sha: Digest, envelope: Envelope, clock: nat -> int, broken: set<Phase>, record: Execution, receipts: set<Phase>)
      requires Accepted(sha, record, envelope) && KeepsToPlan(record, envelope) && ReceiptsMatch(record, receipts)
      ensures Valid() && this.record == record && this.receipts == receipts && work == []
      ensures this.sha == sha && this.envelope == envelope && this.clock == clock && this.broken == broken
    {
      this.sha, this.envelope, this.clock, this.broken := sha, envelope, clock, broken;
      this.record, this.receipts, this.work, this.readings := record, receipts, [], 0;
    }

    method Now() returns (at: int)
      modifies this`readings
      ensures at == clock(old(readings)) && readings == old(readings) + 1
    {
      at := clock(readings);
      readings := readings + 1;
    }

    /** The store's answer to one change; the checkpoint moves only when a phase is completed. */
    method Commit(expectedRevision: int, c: Change) returns (r: Result<Execution, ErrorCode>)
      requires Valid() && (c.CompleteChange? ==> c.phase in receipts)
      modifies this`record
      ensures Valid() && r == Mutated(sha, envelope, old(record), expectedRevision, c)
      ensures record == if r.Ok? then r.value else old(record)
      ensures record.createdAt == old(record.createdAt)
      ensures r.Ok? && c.CompleteChange? ==> record.completedPhases == old(record.completedPhases) + [c.phase]
      ensures r.Ok? && !c.CompleteChange? ==> record.completedPhases == old(record.completedPhases)
    {
      hide ParseExecution, Mutated;
      r := Mutated(sha, envelope, record, expectedRevision, c);
      if r.Ok? {
        CommitShape(sha, envelope, record, expectedRevision, c, r.value);
        CommitResult(sha, record, envelope, expectedRevision, c, r.value);
        CommitKeepsToPlan(sha, envelope, record, expectedRevision, c, r.value);
        forall p | Reached(record, p) ensures Reached(r.value, p) {
          ReachedStays(record, r.value, c, p);
        }
        record := r.value;
      }
    }

    /** The adapter: a phase with a receipt is done; otherwise its work, then its receipt. */
    method ExecutePhase(phase: Phase) returns (done: bool)
      requires Valid() && record.nextPhase == Some(phase)
      modifies this`receipts, this`work
      ensures Valid()
      ensures done <==> phase in receipts
      ensures done <==> phase in old(receipts) || phase !in broken
      ensures receipts == if done then old(receipts) + {phase} else old(receipts)
      ensures work == old(work) + ToDo(phase, old(receipts))
    {
      hide ParseExecution;
      if phase in receipts {
        return true;
      }
      work := work + [phase];
      if phase in broken {
        return false;
      }
      receipts := receipts + {phase};
      done := true;
    }

    /** An adapter that threw: the execution fails, or is recovered when the lease ran out meanwhile. */
    method GiveUp(expectedRevision: int, owner: string) returns (r: Result<Execution, ErrorCode>)
      requires Valid()
      modifies this`record, this`readings
      ensures Valid() && record.completedPhases == old(record.completedPhases) && (r.Ok? ==> r.value == record)
      ensures readings == old(readings) + 1 && record.createdAt == old(record.createdAt)
      ensures r.Ok? ==> r.value.status == Queued || r.value.status == Failed || r.value.status == ManualIntervention
      ensures expectedRevision == old(record.revision) && HoldsLease(old(record), owner, clock(old(readings)))
              && clock(old(readings)) >= old(record.createdAt) ==>
                r.Ok? && Failure(old(record), r.value)
      ensures expectedRevision == old(record.revision) && LeaseRanOut(old(record), owner, clock(old(readings)))
              && clock(old(readings)) >= old(record.createdAt) ==>
                r.Ok? && r.value.status == Queued && r.value.reasonCode == LeaseExpiredReason
    {
      hide ParseExecution, Mutated, ReceiptsMatch, Transition, Irreversible;
      var at := Now();
      ghost var x := record;
      if at >= x.createdAt {
        LegalChangeGoesThrough(sha, x, envelope, FailChange(owner, at));
      }
      ExpiryMeans(sha, x, envelope, expectedRevision, FailChange(owner, at));
      r := Commit(expectedRevision, FailChange(owner, at));
      if r.Ok? {
        CommitResult(sha, x, envelope, expectedRevision, FailChange(owner, at), r.value);
      }
      if r == Err(LeaseExpired) {
        if at >= x.createdAt {
          LegalChangeGoesThrough(sha, x, envelope, RecoverChange(at));
        }
        r := Commit(expectedRevision, RecoverChange(at));
        if r.Ok? {
          CommitResult(sha, x, envelope, expectedRevision, RecoverChange(at), r.value);
        }
      }
    }

    /** A failure: for good after a migration that cannot be rolled back, to be retried otherwise. */
    ghost predicate Failure(x: Execution, y: Execution)
    {
      envelope.plan.Some? && y.status == if Irreversible(x, envelope.plan.value) then ManualIntervention else Failed
    }

    /** Up to the loop: recover an expired lease, then claim unless the lease is the runner's already. */
    method Acquire(owner: string, leaseMs: int) returns (r: Result<Execution, ErrorCode>)
      requires Valid() && !Terminal(record)
      modifies this`record, this`readings
      ensures Valid() && record.completedPhases == old(record.completedPhases) && (r.Ok? ==> r.value == record)
      ensures r.Ok? ==> record.status == Running && record.leaseOwner == Some(owner)
      ensures old(readings) < readings <= old(readings) + 2 && record.createdAt == old(record.createdAt)
      ensures Unhindered(old(record), Phases(), owner, clock, old(readings), leaseMs) ==>
                r.Ok? && HoldsLease(record, owner, clock(readings))
      ensures IsOpaqueId(owner) && HeldByAnother(old(record), owner, clock(old(readings))) ==>
                r == Err(LeaseHeld) && record == old(record)
      ensures r.Ok? ==>
                record.revision - old(record.revision) ==
                  if old(record.status) != Running then 1
                  else if old(record.leaseExpiresAt).Some? && old(record.leaseExpiresAt).value <= clock(old(readings)) then 2
                  else 0
    {
      hide ParseExecution, Mutated, ReceiptsMatch, Transition;
      ghost var x, n := record, readings;
      ghost var easy := Unhindered(x, Phases(), owner, clock, n, leaseMs);
      assert easy ==> HasTime(x.createdAt, owner, clock, n, leaseMs);
      RunningHasLease(sha, x, envelope);
      var execution := record;
      var at := Now();
      if execution.status == Running && execution.leaseExpiresAt.Some? && execution.leaseExpiresAt.value <= at {
        if at >= x.createdAt {
          LegalChangeGoesThrough(sha, x, envelope, RecoverChange(at));
        }
        r := Commit(execution.revision, RecoverChange(at));
        if r.Err? { return; }
        CommitResult(sha, x, envelope, x.revision, RecoverChange(at), r.value);
        execution := r.value;
      }
      ghost var y := record;
      if execution.status != Running {
        at := Now();
        if at >= y.createdAt {
          LegalChangeGoesThrough(sha, y, envelope, ClaimChange(owner, at, leaseMs));
        }
        r := Commit(execution.revision, ClaimChange(owner, at, leaseMs));
        if r.Ok? {
          CommitResult(sha, y, envelope, y.revision, ClaimChange(owner, at, leaseMs), r.value);
        }
      } else if execution.leaseOwner != Some(owner) {
        LegalClaimGoesThrough(sha, y, envelope, owner, at, leaseMs);
        ChangeSucceedsExactly(sha, y, envelope, ClaimChange(owner, at, leaseMs));
        r := Commit(execution.revision, ClaimChange(owner, at, leaseMs));
        if r.Ok? {
          CommitResult(sha, y, envelope, y.revision, ClaimChange(owner, at, leaseMs), r.value);
        }
      } else {
        r := Ok(execution);
      }
    }

    /**
     One round of the loop: renew the lease, work on the next phase, and complete it or give up. When the phase
     took longer than the lease, the execution is left queued for the next runner.
     */
    method Round(owner: string, leaseMs: int) returns (r: Result<Execution, ErrorCode>, goOn: bool)
      requires Valid() && !Terminal(record) && record.nextPhase.Some?
      modifies this
      ensures Valid() && (r.Ok? ==> r.value == record) && (goOn ==> r.Ok?)
      ensures var phase := old(record.nextPhase.value);
              && (goOn ==> record.completedPhases == old(record.completedPhases) + [phase] && receipts == old(receipts) + {phase})
              && (!goOn ==> record.completedPhases == old(record.completedPhases))
              && (r.Ok? && !goOn ==> record.status != Running && record.status != Succeeded)
              && (goOn ==> record.status == Running || record.status == Succeeded)
              && (work == old(work) + ToDo(phase, old(receipts)) || (work == old(work) && r.Err?))
      ensures old(readings) < readings <= old(readings) + 2 && record.createdAt == old(record.createdAt)
      ensures HoldsLease(old(record), owner, clock(old(readings))) && HasTime(old(record.createdAt), owner, clock, old(readings), leaseMs) ==>
                && r.Ok? && (goOn <==> old(record.nextPhase.value) in old(receipts) || old(record.nextPhase.value) !in broken)
                && (goOn && record.status == Running ==> HoldsLease(record, owner, clock(readings)))
                && (!goOn ==> Failure(old(record), record))
      ensures LeaseIsLegal(owner, leaseMs) && HoldsLease(old(record), owner, clock(old(readings)))
              && clock(old(readings)) >= record.createdAt && clock(old(readings) + 1) >= clock(old(readings)) + leaseMs ==>
                !goOn && r.Ok? && record.status == Queued && record.reasonCode == LeaseExpiredReason
    {
      hide ParseExecution, Mutated, ReceiptsMatch, Transition, Irreversible;
      var phase := record.nextPhase.value;
      ghost var x := record;
      var at := Now();
      if at >= x.createdAt {
        LegalChangeGoesThrough(sha, x, envelope, RenewChange(owner, at, leaseMs));
      }
      r := Commit(record.revision, RenewChange(owner, at, leaseMs));
      if r.Err? { return r, false; }
      CommitResult(sha, x, envelope, x.revision, RenewChange(owner, at, leaseMs), r.value);
      CommitShape(sha, envelope, x, x.revision, RenewChange(owner, at, leaseMs), r.value);
      ghost var y := record;
      SameCheckpointFailsAlike(x, y);
      var done := ExecutePhase(phase);
      if !done {
        r := GiveUp(record.revision, owner);
        return r, false;
      }
      at := Now();
      if at >= y.createdAt {
        LegalChangeGoesThrough(sha, y, envelope, CompleteChange(owner, phase, at));
      }
      ExpiryMeans(sha, y, envelope, y.revision, CompleteChange(owner, phase, at));
      r := Commit(record.revision, CompleteChange(owner, phase, at));
      if r.Ok? {
        CommitResult(sha, y, envelope, y.revision, CompleteChange(owner, phase, at), r.value);
        return r, true;
      }
      if r.error == LeaseExpired {
        if at >= y.createdAt {
          LegalChangeGoesThrough(sha, y, envelope, RecoverChange(at));
        }
        r := Commit(record.revision, RecoverChange(at));
        if r.Ok? {
          CommitResult(sha, y, envelope, y.revision, RecoverChange(at), r.value);
        }
      }
      return r, false;
    }

    lemma SameCheckpointFailsAlike(x: Execution, y: Execution)
      ensures y.completedPhases == x.completedPhases ==> forall z :: Failure(x, z) <==> Failure(y, z)
    {
    }

    /** Up to where it gets with its pending work; if nothing is broken that is all of it. */
    ghost predicate GotThrough(todo: seq<Phase>, did: seq<Phase>, y: Execution)
    {
      && did == UntilBroken(todo, broken)
      && (y.status == Succeeded <==> NoneBroken(todo, broken))
      && (y.status != Succeeded ==> Failure(y, y))
    }

    /** The loop, with the lease in hand. */
    method Proceed(owner: string, leaseMs: int) returns (r: Result<Execution, ErrorCode>, rounds: nat, ghost did: seq<Phase>)
      requires Valid() && record.status == Running
      modifies this
      ensures Valid() && (r.Ok? ==> r.value == record && record.status != Running)
      ensures old(record.completedPhases) <= record.completedPhases
      ensures rounds == |record.completedPhases| - |old(record.completedPhases)| <= |Phases()| - |old(record.completedPhases)|
      ensures work == old(work) + did && did <= Pending(Phases(), |old(record.completedPhases)|, old(receipts))
      ensures r.Ok? && record.status == Succeeded ==> did == Pending(Phases(), |old(record.completedPhases)|, old(receipts))
      ensures HoldsLease(old(record), owner, clock(old(readings)))
              && Timely(old(record.createdAt), owner, clock, old(readings), leaseMs, |Phases()| - |old(record.completedPhases)|) ==>
                r.Ok? && GotThrough(Pending(Phases(), |old(record.completedPhases)|, old(receipts)), did, record)
    {
      hide ParseExecution, Mutated, ReceiptsMatch, Pending, UntilBroken, NoneBroken, SameFailure, HasTime, Timely, Irreversible, HoldsLease,
        LeaseIsLegal, Accepted, KeepsToPlan, Failure, ToDo;
      CheckpointOfAccepted(sha, record, envelope);
      ghost var phases, n, x := Phases(), readings, record;
      ghost var todo := Pending(phases, |record.completedPhases|, receipts);
      ghost var easy := HoldsLease(x, owner, clock(n)) && Timely(x.createdAt, owner, clock, n, leaseMs, |phases| - |x.completedPhases|);
      r, rounds, did := Ok(record), 0, [];
      SameFailureAtTheEnds(todo, broken);
      while !Terminal(record) && record.nextPhase.Some?
        invariant Valid() && r == Ok(record)
        invariant x.completedPhases <= record.completedPhases
        invariant rounds == |record.completedPhases| - |x.completedPhases|
        invariant work == old(work) + did && todo == did + Pending(phases, |record.completedPhases|, receipts)
        invariant |record.completedPhases| <= |phases|
        invariant record.status == Running || record.status == Succeeded
        invariant n <= readings <= n + 2 * rounds && record.createdAt == x.createdAt
        invariant easy && record.status == Running ==> HoldsLease(record, owner, clock(readings))
        invariant easy ==> SameFailure(todo, did, Pending(phases, |record.completedPhases|, receipts), broken)
        decreases |phases| - |record.completedPhases|
      {
        CheckpointOfAccepted(sha, record, envelope);
        PendingAfterPhase(phases, |record.completedPhases|, receipts);
        ghost var first := ToDo(record.nextPhase.value, receipts);
        ghost var rest := Pending(phases, |record.completedPhases| + 1, receipts + {record.nextPhase.value});
        SameFailureStep(todo, did, record.nextPhase.value, receipts, rest, broken);
        WorkDoneSoFar(old(work), todo, did, first, rest);
        if easy {
          TimeGoesOn(x.createdAt, owner, clock, n, readings, leaseMs, |phases| - |x.completedPhases|, |phases| - |record.completedPhases|);
        }
        ghost var before, was := record, work;
        var goOn;
        r, goOn := Round(owner, leaseMs);
        CheckpointOfAccepted(sha, record, envelope);
        did := did + work[|was|..];
        if !goOn {
          SameCheckpointFailsAlike(before, record);
          return;
        }
        rounds := rounds + 1;
      }
      CheckpointOfAccepted(sha, record, envelope);
      NothingPendingAtTheEnd(phases, |record.completedPhases|, receipts);
      assert did == todo;
    }

    /**
     `runPluginLifecycleExecutionV1`. It does the pending work in plan order and no other, goes round at most
     once for each phase left, and never returns an execution that is still running. A runner nobody hinders
     finishes: it gets through all pending work, or up to the first phase that throws, and then the execution
     has failed.
     */
    method Run(owner: string, leaseMs: int) returns (r: Result<Execution, ErrorCode>, rounds: nat)
      requires Valid()
      modifies this
      ensures Valid() && (r.Ok? ==> r.value == record && record.status != Running)
      ensures old(record.completedPhases) <= record.completedPhases
      ensures rounds == |record.completedPhases| - |old(record.completedPhases)| <= |Phases()| - |old(record.completedPhases)|
      ensures old(work) <= work <= old(work) + Pending(Phases(), |old(record.completedPhases)|, old(receipts))
      ensures r.Ok? && record.status == Succeeded ==>
                work == old(work) + Pending(Phases(), |old(record.completedPhases)|, old(receipts))
      ensures Terminal(old(record)) ==> r == Ok(old(record)) && work == old(work)
      ensures !Terminal(old(record)) && IsOpaqueId(owner) && HeldByAnother(old(record), owner, clock(old(readings))) ==>
                r == Err(LeaseHeld) && record == old(record) && work == old(work)
      ensures Unhindered(old(record), Phases(), owner, clock, old(readings), leaseMs) ==>
                r.Ok? && GotThrough(Pending(Phases(), |old(record.completedPhases)|, old(receipts)), work[|old(work)|..], record)
    {
      hide ParseExecution, Mutated, ReceiptsMatch, Pending, HasTime, Timely, Irreversible, HoldsLease, HeldByAnother,
        LeaseIsLegal, IsOpaqueId, Accepted, KeepsToPlan, Failure, GotThrough;
      rounds := 0;
      CheckpointOfAccepted(sha, record, envelope);
      if Terminal(record) {
        NothingPendingAtTheEnd(Phases(), |record.completedPhases|, receipts);
        return Ok(record), rounds;
      }
      ghost var x, n, todo := record, readings, Pending(Phases(), |record.completedPhases|, receipts);
      r := Acquire(owner, leaseMs);
      if r.Err? { return; }
      if Unhindered(x, Phases(), owner, clock, n, leaseMs) {
        TimeGoesOn(x.createdAt, owner, clock, n, readings, leaseMs, 1 + |Phases()|, |Phases()| - |record.completedPhases|);
      }
      ghost var did;
      r, rounds, did := Proceed(owner, leaseMs);
      assert work[|old(work)|..] == did;
    }
  }

  lemma NothingPendingAtTheEnd(phases: seq<Phase>, k: nat, receipts: set<Phase>)
    ensures k >= |phases| ==> Pending(phases, k, receipts) == []
  {
  }

  lemma RunningHasLease(sha: Digest, x: Execution, e: Envelope)
    requires Accepted(sha, x, e)
    ensures x.status == Running ==> x.leaseExpiresAt.Some? && Truthy(x.leaseOwner)
  {
  }
}
