/**
 Runners are never stuck (packages/plugin-installer/src/executionRunner.ts:98-218): from every reachable state,
 whatever other runners have left behind, a runner that can have the lease can carry out the whole plan.
 */
module RunnerProgress {
  import opened Results
  import opened LifecyclePlans
  import opened PlanHash
  import opened Execution
  import opened Runner
  import opened RunnerLoop

  /** The steps lead from the first state to the last. */
  ghost predicate IsPath(sha: Digest, e: Envelope, run: seq<System>, events: seq<Event>)
  {
    |run| == |events| + 1 && forall i :: 0 <= i < |events| ==> Connected(sha, e, run, events, i)
  }

  function Last(run: seq<System>): System
    requires run != []
  {
    run[|run| - 1]
  }

  lemma Standing(sha: Digest, e: Envelope, s: System)
    ensures IsPath(sha, e, [s], [])
  {
  }

  lemma OneStepFurther(sha: Digest, e: Envelope, run: seq<System>, events: seq<Event>, ev: Event, t: System)
    requires IsPath(sha, e, run, events) && Next(sha, e, Last(run), ev, t)
    ensures IsPath(sha, e, run + [t], events + [ev])
  {
    hide Next;
    forall i | 0 <= i < |events| + 1 ensures Connected(sha, e, run + [t], events + [ev], i) {
      assert i < |events| ==> Connected(sha, e, run, events, i);
    }
  }

  lemma OneAfterTheOther(sha: Digest, e: Envelope, run: seq<System>, events: seq<Event>, run': seq<System>, events': seq<Event>)
    requires IsPath(sha, e, run, events) && IsPath(sha, e, run', events') && run'[0] == Last(run)
    ensures IsPath(sha, e, run + run'[1..], events + events')
  {
    hide Next;
    var whole, all := run + run'[1..], events + events';
    forall i | 0 <= i < |all| ensures Connected(sha, e, whole, all, i) {
      if i < |events| {
        assert Connected(sha, e, run, events, i);
      } else {
        assert Connected(sha, e, run', events', i - |events|);
      }
    }
  }

  /** The runner has the lease in hand and the current copy of the execution. */
  ghost predicate IsAtWork(s: System, id: nat, owner: string, at: int)
  {
    && id in s.workers && s.workers[id].x == s.record && s.workers[id].pc.Holding?
    && HoldsLease(s.record, owner, at) && at >= s.record.createdAt
  }

  ghost function AfterCommit(s: System, id: nat, y: Execution, pc: Pc, rounds: nat): System
    requires id in s.workers
  {
    System(y, s.receipts, s.workers[id := Worker(pc, y, s.workers[id].start, rounds)])
  }

  lemma RenewalIsPossible(sha: Digest, e: Envelope, s: System, id: nat, owner: string, at: int, leaseMs: int) returns (t: System)
    requires Inv(sha, e, s) && IsAtWork(s, id, owner, at) && LeaseIsLegal(owner, leaseMs)
    ensures s.record.nextPhase.Some? && Next(sha, e, s, RenewForPhase(id, owner, at, leaseMs), t) && Inv(sha, e, t)
    ensures t == AfterCommit(s, id, t.record, Looking(s.record.nextPhase.value), s.workers[id].rounds)
    ensures HoldsLease(t.record, owner, at) && t.record.createdAt == s.record.createdAt
    ensures t.record.nextPhase == s.record.nextPhase && t.record.completedPhases == s.record.completedPhases
  {
    hide ParseExecution, Mutated, Transition, ReceiptsMatch, WorkerIsSound, IsOpaqueId;
    var x, c := s.record, RenewChange(owner, at, leaseMs);
    AcceptedKeepsToPlanExactly(sha, x, e);
    LegalChangeGoesThrough(sha, x, e, c);
    var y := Mutated(sha, e, x, x.revision, c).value;
    CommitResult(sha, x, e, x.revision, c, y);
    CommitShape(sha, e, x, x.revision, c, y);
    t := AfterCommit(s, id, y, Looking(x.nextPhase.value), s.workers[id].rounds);
    OwnersHaveNames(owner, leaseMs);
    NextKeepsInv(sha, e, s, RenewForPhase(id, owner, at, leaseMs), t);
  }

  lemma OwnersHaveNames(owner: string, leaseMs: int)
    requires LeaseIsLegal(owner, leaseMs)
    ensures owner != "" && leaseMs > 0
  {
  }

  lemma CompletionIsPossible(sha: Digest, e: Envelope, s: System, id: nat, owner: string, phase: Phase, at: int) returns (t: System)
    requires Inv(sha, e, s) && id in s.workers && s.workers[id].x == s.record && s.workers[id].pc == Worked(phase)
    requires s.record.nextPhase == Some(phase) && HoldsLease(s.record, owner, at) && at >= s.record.createdAt
    ensures Next(sha, e, s, Complete(id, owner, at), t) && Inv(sha, e, t)
    ensures t == AfterCommit(s, id, t.record, Pc.Holding, s.workers[id].rounds + 1)
    ensures t.record.completedPhases == s.record.completedPhases + [phase] && t.record.createdAt == s.record.createdAt
    ensures t.record.status == Succeeded || HoldsLease(t.record, owner, at)
  {
    hide ParseExecution, Mutated, Transition, ReceiptsMatch, WorkerIsSound;
    var x, c := s.record, CompleteChange(owner, phase, at);
    LegalChangeGoesThrough(sha, x, e, c);
    var y := Mutated(sha, e, x, x.revision, c).value;
    CommitResult(sha, x, e, x.revision, c, y);
    CommitShape(sha, e, x, x.revision, c, y);
    t := AfterCommit(s, id, y, Pc.Holding, s.workers[id].rounds + 1);
    NextKeepsInv(sha, e, s, Complete(id, owner, at), t);
  }

  /** From looking for a receipt to having it, with work only where there was none. */
  lemma WorkIsPossible(sha: Digest, e: Envelope, s: System, id: nat, phase: Phase) returns (run: seq<System>, events: seq<Event>)
    requires Inv(sha, e, s) && id in s.workers && s.workers[id].pc == Looking(phase)
    ensures IsPath(sha, e, run, events) && run[0] == s && Inv(sha, e, Last(run))
    ensures Last(run) == System(s.record, s.receipts + {phase}, s.workers[id := s.workers[id].(pc := Worked(phase))])
    ensures BeginWork(id) in events <==> phase !in s.receipts
  {
    hide Inv;
    Standing(sha, e, s);
    run, events := [s], [];
    var w := s.workers[id];
    if phase in s.receipts {
      var t := s.(workers := s.workers[id := w.(pc := Worked(phase))]);
      OneStepFurther(sha, e, run, events, FindReceipt(id), t);
      NextKeepsInv(sha, e, s, FindReceipt(id), t);
      assert s.receipts + {phase} == s.receipts;
      run, events := run + [t], events + [FindReceipt(id)];
    } else {
      var a := s.(workers := s.workers[id := w.(pc := Preparing(phase))]);
      var b := s.(workers := s.workers[id := w.(pc := Working(phase))]);
      var c := System(s.record, s.receipts + {phase}, s.workers[id := w.(pc := Worked(phase))]);
      OneStepFurther(sha, e, run, events, FindNoReceipt(id), a);
      NextKeepsInv(sha, e, s, FindNoReceipt(id), a);
      OneStepFurther(sha, e, run + [a], events + [FindNoReceipt(id)], BeginWork(id), b);
      NextKeepsInv(sha, e, a, BeginWork(id), b);
      OneStepFurther(sha, e, run + [a] + [b], events + [FindNoReceipt(id)] + [BeginWork(id)], WriteReceipt(id), c);
      NextKeepsInv(sha, e, b, WriteReceipt(id), c);
      run, events := run + [a] + [b] + [c], events + [FindNoReceipt(id)] + [BeginWork(id)] + [WriteReceipt(id)];
    }
  }

  /** A whole round of the loop: the next phase is worked on, if it was not yet, and completed. */
  lemma RoundIsPossible(sha: Digest, e: Envelope, s: System, id: nat, owner: string, at: int, leaseMs: int)
    returns (run: seq<System>, events: seq<Event>)
    requires Inv(sha, e, s) && IsAtWork(s, id, owner, at) && LeaseIsLegal(owner, leaseMs)
    ensures IsPath(sha, e, run, events) && run[0] == s && Inv(sha, e, Last(run))
    ensures |Last(run).record.completedPhases| == |s.record.completedPhases| + 1
    ensures Last(run).record.status == Succeeded || IsAtWork(Last(run), id, owner, at)
  {
    hide Inv, LeaseIsLegal, HoldsLease, Next;
    Standing(sha, e, s);
    var a := RenewalIsPossible(sha, e, s, id, owner, at, leaseMs);
    var phase := s.record.nextPhase.value;
    OneStepFurther(sha, e, [s], [], RenewForPhase(id, owner, at, leaseMs), a);
    var run', events' := WorkIsPossible(sha, e, a, id, phase);
    OneAfterTheOther(sha, e, [s] + [a], [] + [RenewForPhase(id, owner, at, leaseMs)], run', events');
    run, events := [s] + [a] + run'[1..], [] + [RenewForPhase(id, owner, at, leaseMs)] + events';
    var b := Last(run');
    assert Last(run) == b;
    var c := CompletionIsPossible(sha, e, b, id, owner, phase, at);
    OneStepFurther(sha, e, run, events, Complete(id, owner, at), c);
    run, events := run + [c], events + [Complete(id, owner, at)];
  }

  lemma {:induction false} PlanCanBeCarriedOut(sha: Digest, e: Envelope, s: System, id: nat, owner: string, at: int, leaseMs: int)
    returns (run: seq<System>, events: seq<Event>)
    requires Inv(sha, e, s) && LeaseIsLegal(owner, leaseMs) && (s.record.status == Succeeded || IsAtWork(s, id, owner, at))
    requires e.plan.Some?
    ensures IsPath(sha, e, run, events) && run[0] == s && Inv(sha, e, Last(run))
    ensures Last(run).record.status == Succeeded
    decreases |e.plan.value.phases| - |s.record.completedPhases|
  {
    hide Inv, LeaseIsLegal, IsAtWork, Next;
    if s.record.status == Succeeded {
      Standing(sha, e, s);
      run, events := [s], [];
    } else {
      run, events := RoundIsPossible(sha, e, s, id, owner, at, leaseMs);
      InvKeepsToPlan(sha, e, Last(run));
      var run', events' := PlanCanBeCarriedOut(sha, e, Last(run), id, owner, at, leaseMs);
      OneAfterTheOther(sha, e, run, events, run', events');
      assert Last(run + run'[1..]) == Last(run');
      run, events := run + run'[1..], events + events';
    }
  }

  lemma InvKeepsToPlan(sha: Digest, e: Envelope, s: System)
    requires Inv(sha, e, s)
    ensures KeepsToPlan(s.record, e)
  {
  }

  lemma LeaseCanBeTaken(sha: Digest, e: Envelope, s: System, id: nat, owner: string, at: int, leaseMs: int)
    returns (run: seq<System>, events: seq<Event>)
    requires Inv(sha, e, s) && LeaseIsLegal(owner, leaseMs) && !Terminal(s.record)
    requires at >= s.record.createdAt && !HeldByAnother(s.record, owner, at)
    ensures IsPath(sha, e, run, events) && run[0] == s && Inv(sha, e, Last(run)) && IsAtWork(Last(run), id, owner, at)
  {
    hide ParseExecution, Mutated, Transition, ReceiptsMatch, WorkerIsSound, IsOpaqueId;
    var x := s.record;
    var a := s.(workers := s.workers[id := Worker(Fresh, x, |x.completedPhases|, 0)]);
    Standing(sha, e, s);
    OneStepFurther(sha, e, [s], [], Load(id), a);
    NextKeepsInv(sha, e, s, Load(id), a);
    var b, step;
    if x.status == Running && x.leaseOwner == Some(owner) && x.leaseExpiresAt.Some? && x.leaseExpiresAt.value > at {
      b, step := a.(workers := a.workers[id := a.workers[id].(pc := Pc.Holding)]), Resume(id, owner);
      OwnersHaveNames(owner, leaseMs);
    } else if x.status == Running && x.leaseOwner == Some(owner) {
      run, events := ExpiredLeaseCanBeTaken(sha, e, s, a, id, owner, at, leaseMs);
      return;
    } else {
      var c := ClaimChange(owner, at, leaseMs);
      LegalChangeGoesThrough(sha, x, e, c);
      var y := Mutated(sha, e, x, x.revision, c).value;
      CommitResult(sha, x, e, x.revision, c, y);
      OwnersHaveNames(owner, leaseMs);
      b, step := AfterCommit(a, id, y, Pc.Holding, 0), Acquire(id, owner, at, leaseMs);
    }
    NextKeepsInv(sha, e, a, step, b);
    OneStepFurther(sha, e, [s] + [a], [] + [Load(id)], step, b);
    run, events := [s] + [a] + [b], [] + [Load(id)] + [step];
  }

  /** The runner's own lease has run out: it recovers the execution first. */
  lemma ExpiredLeaseCanBeTaken(sha: Digest, e: Envelope, s: System, a: System, id: nat, owner: string, at: int, leaseMs: int)
    returns (run: seq<System>, events: seq<Event>)
    requires Inv(sha, e, a) && LeaseIsLegal(owner, leaseMs) && at >= s.record.createdAt
    requires IsPath(sha, e, [s] + [a], [] + [Load(id)]) && a.record == s.record
    requires id in a.workers && a.workers[id] == Worker(Fresh, a.record, |a.record.completedPhases|, 0)
    requires s.record.status == Running && !(s.record.leaseExpiresAt.Some? && s.record.leaseExpiresAt.value > at)
    ensures IsPath(sha, e, run, events) && run[0] == s && Inv(sha, e, Last(run)) && IsAtWork(Last(run), id, owner, at)
  {
    hide ParseExecution, Mutated, Transition, ReceiptsMatch, WorkerIsSound, IsOpaqueId;
    var x, r, c := a.record, RecoverChange(at), ClaimChange(owner, at, leaseMs);
    RunningHasLease(sha, x, e);
    LegalChangeGoesThrough(sha, x, e, r);
    var y := Mutated(sha, e, x, x.revision, r).value;
    CommitResult(sha, x, e, x.revision, r, y);
    CommitShape(sha, e, x, x.revision, r, y);
    var b := AfterCommit(a, id, y, Fresh, 0);
    NextKeepsInv(sha, e, a, RecoverFirst(id, at), b);
    OneStepFurther(sha, e, [s] + [a], [] + [Load(id)], RecoverFirst(id, at), b);
    LegalChangeGoesThrough(sha, y, e, c);
    var z := Mutated(sha, e, y, y.revision, c).value;
    CommitResult(sha, y, e, y.revision, c, z);
    OwnersHaveNames(owner, leaseMs);
    var d := AfterCommit(b, id, z, Pc.Holding, 0);
    NextKeepsInv(sha, e, b, Acquire(id, owner, at, leaseMs), d);
    OneStepFurther(sha, e, [s] + [a] + [b], [] + [Load(id)] + [RecoverFirst(id, at)], Acquire(id, owner, at, leaseMs), d);
    run, events := [s] + [a] + [b] + [d], [] + [Load(id)] + [RecoverFirst(id, at)] + [Acquire(id, owner, at, leaseMs)];
  }

  /**
   From any state a run can reach, at any time no other worker's lease is in force, a worker can take the
   execution over and bring it to its end, unless it has come to one already.
   */
  lemma EveryRunCanBeFinished(sha: Digest, e: Envelope, run: seq<System>, events: seq<Event>, n: nat, id: nat, owner: string, at: int, leaseMs: int)
    returns (rest: seq<System>, steps: seq<Event>)
    requires Runner.IsRun(sha, e, run, events) && n < |run| && LeaseIsLegal(owner, leaseMs)
    requires !Terminal(run[n].record) && at >= run[n].record.createdAt && !HeldByAnother(run[n].record, owner, at)
    ensures IsPath(sha, e, rest, steps) && rest[0] == run[n] && Last(rest).record.status == Succeeded
  {
    hide Runner.IsRun, Inv, Next, LeaseIsLegal, IsAtWork, HeldByAnother;
    RunKeepsInv(sha, e, run, events, n);
    rest, steps := LeaseCanBeTaken(sha, e, run[n], id, owner, at, leaseMs);
    InvKeepsToPlan(sha, e, Last(rest));
    var more, further := PlanCanBeCarriedOut(sha, e, Last(rest), id, owner, at, leaseMs);
    OneAfterTheOther(sha, e, rest, steps, more, further);
    assert Last(rest + more[1..]) == Last(more);
    rest, steps := rest + more[1..], steps + further;
  }
}
