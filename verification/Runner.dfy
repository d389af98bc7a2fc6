/**
 Any number of runners of one execution (packages/plugin-installer/src/executionRunner.ts:98-218) with the
 phase receipts of their adapter (packages/plugin-installer/src/composeExecutionAdapter.ts:331-400, 973-1052).

 Each runner works on its own copy of the execution and hands it back to the store with the revision it
 expects. Runners may stop at any point, be taken over, and go on with what they last read.
 */
module Runner {
  import opened Results
  import opened LifecyclePlans
  import opened PlanHash
  import opened Execution
  import ExecutionStore

  /** The store's `mutate` for the one execution in question. */
  function Mutated(sha: Digest, e: Envelope, record: Execution, expectedRevision: int, c: Change): Result<Execution, ErrorCode>
  {
    if record.revision != expectedRevision then Err(RevisionConflict)
    else
      var y := Transition(sha, record, e, c);
      if y.Err? then y
      else if ParseExecution(sha, y.value, e).Err? then ParseExecution(sha, y.value, e)
      else y
  }

  /** A runner: what it holds, and how many rounds of its loop it has finished since it loaded `start` phases. */
  datatype Worker = Worker(pc: Pc, x: Execution, start: nat, rounds: nat)

  datatype Pc =
    | Fresh
    | Holding
    | Looking(phase: Phase)
    | Preparing(phase: Phase)
    | Working(phase: Phase)
    | Worked(phase: Phase)

  datatype System = System(record: Execution, receipts: set<Phase>, workers: map<nat, Worker>)

  datatype Event =
    | Load(id: nat)
    | RecoverFirst(id: nat, at: int)
    | Acquire(id: nat, owner: string, at: int, leaseMs: int)
    | Resume(id: nat, owner: string)
    | RenewForPhase(id: nat, owner: string, at: int, leaseMs: int)
    | FindReceipt(id: nat)
    | FindNoReceipt(id: nat)
    | BeginWork(id: nat)
    | Heartbeat(id: nat, owner: string, at: int, leaseMs: int)
    | WriteReceipt(id: nat)
    | Complete(id: nat, owner: string, at: int)
    | GiveUp(id: nat, change: Change)
    | Stop(id: nat)

  /** The runner's store call goes through: the record changes, and the runner holds the new copy. */
  ghost predicate Commits(sha: Digest, e: Envelope, s: System, id: nat, c: Change, t: System, pc: Pc, rounds: nat)
    requires id in s.workers
  {
    var w := s.workers[id];
    var y := Mutated(sha, e, s.record, w.x.revision, c);
    y.Ok? && t == System(y.value, s.receipts, s.workers[id := Worker(pc, y.value, w.start, rounds)])
  }

  /** The runner goes on without touching the store. */
  ghost predicate Moves(s: System, id: nat, t: System, pc: Pc, receipts: set<Phase>)
    requires id in s.workers
  {
    t == System(s.record, receipts, s.workers[id := s.workers[id].(pc := pc)])
  }

  ghost predicate WorkerStep(sha: Digest, e: Envelope, s: System, ev: Event, t: System)
    requires !ev.Load? && ev.id in s.workers
  {
    var w := s.workers[ev.id];
    match ev
    case Load(_) => false
    case RecoverFirst(id, at) =>
      && w.pc.Fresh? && w.x.status == Running && w.x.leaseExpiresAt.Some? && w.x.leaseExpiresAt.value <= at
      && Commits(sha, e, s, id, RecoverChange(at), t, Fresh, w.rounds)
    case Acquire(id, owner, at, leaseMs) =>
      && w.pc.Fresh? && !Terminal(w.x) && (w.x.status != Running || w.x.leaseOwner != Some(owner))
      && Commits(sha, e, s, id, ClaimChange(owner, at, leaseMs), t, Holding, w.rounds)
    case Resume(id, owner) =>
      w.pc.Fresh? && w.x.status == Running && w.x.leaseOwner == Some(owner) && Moves(s, id, t, Holding, s.receipts)
    case RenewForPhase(id, owner, at, leaseMs) =>
      && w.pc.Holding? && !Terminal(w.x) && w.x.nextPhase.Some?
      && Commits(sha, e, s, id, RenewChange(owner, at, leaseMs), t, Looking(w.x.nextPhase.value), w.rounds)
    case FindReceipt(id) =>
      w.pc.Looking? && w.pc.phase in s.receipts && Moves(s, id, t, Worked(w.pc.phase), s.receipts)
    case FindNoReceipt(id) =>
      w.pc.Looking? && w.pc.phase !in s.receipts && Moves(s, id, t, Preparing(w.pc.phase), s.receipts)
    case BeginWork(id) =>
      w.pc.Preparing? && Moves(s, id, t, Working(w.pc.phase), s.receipts)
    case Heartbeat(id, owner, at, leaseMs) =>
      w.pc.Working? && Commits(sha, e, s, id, RenewChange(owner, at, leaseMs), t, w.pc, w.rounds)
    case WriteReceipt(id) =>
      w.pc.Working? && Moves(s, id, t, Worked(w.pc.phase), s.receipts + {w.pc.phase})
    case Complete(id, owner, at) =>
      w.pc.Worked? && Commits(sha, e, s, id, CompleteChange(owner, w.pc.phase, at), t, Holding, w.rounds + 1)
    case GiveUp(id, change) =>
      && HasPhase(w.pc) && (change.FailChange? || change.RecoverChange?)
      && exists y :: Mutated(sha, e, s.record, w.x.revision, change) == Ok(y) && t == System(y, s.receipts, s.workers - {id})
    case Stop(id) =>
      t == s.(workers := s.workers - {id})
  }

  ghost predicate Next(sha: Digest, e: Envelope, s: System, ev: Event, t: System)
  {
    if ev.Load? then
      t == s.(workers := s.workers[ev.id := Worker(Fresh, s.record, |s.record.completedPhases|, 0)])
    else
      ev.id in s.workers && WorkerStep(sha, e, s, ev, t)
  }

  // ---------------------------------------------------------------- the invariant

  predicate Reached(x: Execution, p: Phase)
  {
    p in x.completedPhases || x.nextPhase == Some(p)
  }

  predicate HasPhase(pc: Pc)
  {
    pc.Looking? || pc.Preparing? || pc.Working? || pc.Worked?
  }

  ghost predicate WorkerIsSound(record: Execution, receipts: set<Phase>, w: Worker)
  {
    && w.x.revision <= record.revision
    && (w.x.revision == record.revision ==> w.x == record)
    && w.start + w.rounds <= |w.x.completedPhases| <= |record.completedPhases|
    && (HasPhase(w.pc) ==> Reached(record, w.pc.phase))
    && (w.pc.Worked? ==> w.pc.phase in receipts)
  }

  /** Completed phases have their receipts, and only the next phase may have one ahead of that. */
  ghost predicate ReceiptsMatch(record: Execution, receipts: set<Phase>)
  {
    && (forall p :: p in record.completedPhases ==> p in receipts)
    && (forall p :: p in receipts ==> Reached(record, p))
  }

  ghost predicate Inv(sha: Digest, e: Envelope, s: System)
  {
    && Accepted(sha, s.record, e) && KeepsToPlan(s.record, e)
    && ReceiptsMatch(s.record, s.receipts)
    && forall id :: id in s.workers ==> WorkerIsSound(s.record, s.receipts, s.workers[id])
  }

  // ---------------------------------------------------------------- what a commit changes

  /** Only completing a phase touches the checkpoint, and it completes the next one. */
  lemma CommitShape(sha: Digest, e: Envelope, x: Execution, expectedRevision: int, c: Change, y: Execution)
    requires Mutated(sha, e, x, expectedRevision, c) == Ok(y)
    ensures Accepted(sha, y, e) && x.revision == expectedRevision
    ensures y == x || y.revision == x.revision + 1
    ensures if c.CompleteChange? then x.nextPhase == Some(c.phase) && y.completedPhases == x.completedPhases + [c.phase]
            else y.completedPhases == x.completedPhases && y.nextPhase == x.nextPhase
  {
    hide ParseExecution, PlanMatches;
  }

  lemma CommitKeepsToPlan(sha: Digest, e: Envelope, x: Execution, expectedRevision: int, c: Change, y: Execution)
    requires Accepted(sha, x, e) && KeepsToPlan(x, e) && Mutated(sha, e, x, expectedRevision, c) == Ok(y)
    ensures KeepsToPlan(y, e)
  {
    hide ParseExecution, Transition;
    ChangeKeepsToPlan(sha, x, e, c, y);
  }

  lemma ReachedStays(x: Execution, y: Execution, c: Change, p: Phase)
    requires if c.CompleteChange? then x.nextPhase == Some(c.phase) && y.completedPhases == x.completedPhases + [c.phase]
             else y.completedPhases == x.completedPhases && y.nextPhase == x.nextPhase
    requires Reached(x, p)
    ensures Reached(y, p)
  {
  }

  /** A commit by one runner does not disturb what holds of the receipts and of the other runners. */
  lemma CommitKeepsOthers(sha: Digest, e: Envelope, s: System, expectedRevision: int, c: Change, y: Execution)
    requires Inv(sha, e, s) && Mutated(sha, e, s.record, expectedRevision, c) == Ok(y)
    requires c.CompleteChange? ==> c.phase in s.receipts
    ensures ReceiptsMatch(y, s.receipts) && KeepsToPlan(y, e)
    ensures forall id :: id in s.workers ==> WorkerIsSound(y, s.receipts, s.workers[id])
  {
    hide Mutated, ParseExecution;
    CommitShape(sha, e, s.record, expectedRevision, c, y);
    CommitKeepsToPlan(sha, e, s.record, expectedRevision, c, y);
    forall p | Reached(s.record, p) ensures Reached(y, p) {
      ReachedStays(s.record, y, c, p);
    }
    forall id | id in s.workers ensures WorkerIsSound(y, s.receipts, s.workers[id]) {
      assert WorkerIsSound(s.record, s.receipts, s.workers[id]);
    }
  }

  lemma CommitKeepsInv(sha: Digest, e: Envelope, s: System, id: nat, c: Change, t: System, pc: Pc, rounds: nat)
    requires Inv(sha, e, s) && id in s.workers && Commits(sha, e, s, id, c, t, pc, rounds)
    requires rounds == s.workers[id].rounds + (if c.CompleteChange? then 1 else 0)
    requires c.CompleteChange? ==> c.phase in s.receipts
    requires HasPhase(pc) ==> Reached(s.record, pc.phase)
    requires pc.Worked? ==> pc.phase in s.receipts
    ensures Inv(sha, e, t)
  {
    hide Mutated, ParseExecution, Reached;
    assert WorkerIsSound(s.record, s.receipts, s.workers[id]);
    CommitShape(sha, e, s.record, s.workers[id].x.revision, c, t.record);
    CommitKeepsOthers(sha, e, s, s.workers[id].x.revision, c, t.record);
    if HasPhase(pc) {
      ReachedStays(s.record, t.record, c, pc.phase);
    }
  }

  lemma MoveKeepsInv(sha: Digest, e: Envelope, s: System, id: nat, t: System, pc: Pc, receipts: set<Phase>)
    requires Inv(sha, e, s) && id in s.workers && Moves(s, id, t, pc, receipts)
    requires HasPhase(pc) ==> Reached(s.record, pc.phase)
    requires pc.Worked? ==> pc.phase in receipts
    requires receipts == s.receipts || (HasPhase(pc) && receipts == s.receipts + {pc.phase})
    ensures Inv(sha, e, t)
  {
    hide ParseExecution, Reached;
    forall i | i in t.workers ensures WorkerIsSound(t.record, t.receipts, t.workers[i]) {
      assert WorkerIsSound(s.record, s.receipts, s.workers[i]);
    }
  }

  lemma GivingUpKeepsInv(sha: Digest, e: Envelope, s: System, id: nat, c: Change, t: System, y: Execution)
    requires Inv(sha, e, s) && id in s.workers && !c.CompleteChange?
    requires Mutated(sha, e, s.record, s.workers[id].x.revision, c) == Ok(y) && t == System(y, s.receipts, s.workers - {id})
    ensures Inv(sha, e, t)
  {
    hide Mutated, ParseExecution, Reached, WorkerIsSound;
    CommitShape(sha, e, s.record, s.workers[id].x.revision, c, y);
    CommitKeepsOthers(sha, e, s, s.workers[id].x.revision, c, y);
  }

  lemma StoppingKeepsInv(sha: Digest, e: Envelope, s: System, id: nat, t: System)
    requires Inv(sha, e, s) && t == s.(workers := s.workers - {id})
    ensures Inv(sha, e, t)
  {
    hide ParseExecution, ReceiptsMatch, WorkerIsSound;
  }

  lemma LoadingKeepsInv(sha: Digest, e: Envelope, s: System, id: nat, t: System)
    requires Inv(sha, e, s) && t == s.(workers := s.workers[id := Worker(Fresh, s.record, |s.record.completedPhases|, 0)])
    ensures Inv(sha, e, t)
  {
    hide ParseExecution, ReceiptsMatch;
  }

  lemma RenewalIsCurrent(sha: Digest, e: Envelope, s: System, id: nat, c: Change, y: Execution)
    requires Inv(sha, e, s) && id in s.workers && Mutated(sha, e, s.record, s.workers[id].x.revision, c) == Ok(y)
    ensures s.workers[id].x == s.record
  {
    hide ParseExecution, Transition, ReceiptsMatch;
    assert WorkerIsSound(s.record, s.receipts, s.workers[id]);
  }

  /** Every step of every runner keeps the invariant. */
  lemma NextKeepsInv(sha: Digest, e: Envelope, s: System, ev: Event, t: System)
    requires Inv(sha, e, s) && Next(sha, e, s, ev, t)
    ensures Inv(sha, e, t)
  {
    hide Inv, Mutated, Reached;
    if ev.Load? {
      LoadingKeepsInv(sha, e, s, ev.id, t);
    } else {
      var w := s.workers[ev.id];
      assert WorkerIsSound(s.record, s.receipts, w) by {
        InvOfWorker(sha, e, s, ev.id);
      }
      match ev {
        case RecoverFirst(id, at) => CommitKeepsInv(sha, e, s, id, RecoverChange(at), t, Fresh, w.rounds);
        case Acquire(id, owner, at, leaseMs) => CommitKeepsInv(sha, e, s, id, ClaimChange(owner, at, leaseMs), t, Holding, w.rounds);
        case Resume(id, _) => MoveKeepsInv(sha, e, s, id, t, Holding, s.receipts);
        case RenewForPhase(id, owner, at, leaseMs) =>
          RenewalIsCurrent(sha, e, s, id, RenewChange(owner, at, leaseMs), t.record);
          NextIsReached(s.record);
          CommitKeepsInv(sha, e, s, id, RenewChange(owner, at, leaseMs), t, Looking(w.x.nextPhase.value), w.rounds);
        case FindReceipt(id) => MoveKeepsInv(sha, e, s, id, t, Worked(w.pc.phase), s.receipts);
        case FindNoReceipt(id) => MoveKeepsInv(sha, e, s, id, t, Preparing(w.pc.phase), s.receipts);
        case BeginWork(id) => MoveKeepsInv(sha, e, s, id, t, Working(w.pc.phase), s.receipts);
        case Heartbeat(id, owner, at, leaseMs) => CommitKeepsInv(sha, e, s, id, RenewChange(owner, at, leaseMs), t, w.pc, w.rounds);
        case WriteReceipt(id) => MoveKeepsInv(sha, e, s, id, t, Worked(w.pc.phase), s.receipts + {w.pc.phase});
        case Complete(id, owner, at) =>
          CommitKeepsInv(sha, e, s, id, CompleteChange(owner, w.pc.phase, at), t, Holding, w.rounds + 1);
        case GiveUp(id, change) => GivingUpKeepsInv(sha, e, s, id, change, t, t.record);
        case Stop(id) => StoppingKeepsInv(sha, e, s, id, t);
      }
    }
  }

  lemma NextIsReached(x: Execution)
    ensures x.nextPhase.Some? ==> Reached(x, x.nextPhase.value)
  {
  }

  lemma InvOfWorker(sha: Digest, e: Envelope, s: System, id: nat)
    requires Inv(sha, e, s) && id in s.workers
    ensures WorkerIsSound(s.record, s.receipts, s.workers[id])
  {
  }

  // ---------------------------------------------------------------- runs

  ghost predicate Connected(sha: Digest, e: Envelope, run: seq<System>, events: seq<Event>, i: int)
    requires 0 <= i < |events| && |run| == |events| + 1
  {
    Next(sha, e, run[i], events[i], run[i + 1])
  }

  /** A run that starts with a new execution, no receipts and no runners. */
  ghost predicate IsRun(sha: Digest, e: Envelope, run: seq<System>, events: seq<Event>)
  {
    && |run| == |events| + 1
    && ParseEnvelope(sha, e) == Ok(e)
    && run[0].receipts == {} && run[0].workers == map[]
    && Create(sha, e, run[0].record.executionId, run[0].record.createdAt) == Ok(run[0].record)
    && forall i :: 0 <= i < |events| ==> Connected(sha, e, run, events, i)
  }

  lemma NewExecutionIsSound(sha: Digest, e: Envelope, s: System)
    requires ParseEnvelope(sha, e) == Ok(e) && s.receipts == {} && s.workers == map[]
    requires Create(sha, e, s.record.executionId, s.record.createdAt) == Ok(s.record)
    ensures Inv(sha, e, s)
  {
    CreatedIsAccepted(sha, e, s.record.executionId, s.record.createdAt, s.record);
  }

  lemma {:induction false} RunKeepsInv(sha: Digest, e: Envelope, run: seq<System>, events: seq<Event>, n: nat)
    requires IsRun(sha, e, run, events) && n < |run|
    ensures Inv(sha, e, run[n])
  {
    hide Next, Inv, Create, ParseEnvelope;
    if n == 0 {
      NewExecutionIsSound(sha, e, run[0]);
    } else {
      RunKeepsInv(sha, e, run, events, n - 1);
      assert Connected(sha, e, run, events, n - 1);
      NextKeepsInv(sha, e, run[n - 1], events[n - 1], run[n]);
    }
  }

  /**
   Under any number of crashes, takeovers and retries: completed phases have receipts, and at most the next
   phase has a receipt besides.
   */
  lemma ReceiptsFollowTheCheckpoint(sha: Digest, e: Envelope, run: seq<System>, events: seq<Event>, n: nat)
    requires IsRun(sha, e, run, events) && n < |run|
    ensures var x := run[n].record;
            && (set p | p in x.completedPhases) <= run[n].receipts
            && run[n].receipts <= (set p | p in x.completedPhases) + (if x.nextPhase.Some? then {x.nextPhase.value} else {})
  {
    hide Next, Create, ParseEnvelope, ParseExecution;
    RunKeepsInv(sha, e, run, events, n);
  }

  /** A phase found without receipt is the next one, and every earlier phase of the plan has its receipt. */
  lemma WorkIsChosenInOrder(sha: Digest, e: Envelope, run: seq<System>, events: seq<Event>, n: nat)
    requires IsRun(sha, e, run, events) && n < |events| && events[n].FindNoReceipt? && events[n].id in run[n].workers
    ensures e.plan.Some?
    ensures var phases, p := e.plan.value.phases, run[n].workers[events[n].id].pc;
            && p.Looking? && run[n].record.nextPhase == Some(p.phase)
            && |run[n].record.completedPhases| < |phases| && phases[|run[n].record.completedPhases|] == p.phase
            && forall k :: 0 <= k < |run[n].record.completedPhases| ==> phases[k] in run[n].receipts
  {
    hide Create;
    RunKeepsInv(sha, e, run, events, n);
    assert Connected(sha, e, run, events, n);
    assert WorkerIsSound(run[n].record, run[n].receipts, run[n].workers[events[n].id]);
    var completed := run[n].record.completedPhases;
    forall k | 0 <= k < |completed| ensures e.plan.value.phases[k] in run[n].receipts {
      assert completed[k] in completed;
    }
  }

  /** A phase that was reached has a place in the plan, and the phases before that place have receipts. */
  lemma ReachedHasPlace(sha: Digest, e: Envelope, record: Execution, receipts: set<Phase>, p: Phase) returns (k: nat)
    requires Accepted(sha, record, e) && KeepsToPlan(record, e) && ReceiptsMatch(record, receipts) && Reached(record, p)
    ensures k < |e.plan.value.phases| && e.plan.value.phases[k] == p && k <= |record.completedPhases|
    ensures forall m :: 0 <= m < k ==> e.plan.value.phases[m] in receipts
  {
    hide ParseEnvelope, PlanMatches, StructureIsValid;
    var completed := record.completedPhases;
    if p in completed {
      k :| k < |completed| && completed[k] == p;
    } else {
      k := |completed|;
    }
    forall m | 0 <= m < k ensures e.plan.value.phases[m] in receipts {
      assert completed[m] in completed;
    }
  }

  /**
   When work on a phase begins, however long after its receipt was looked for, every earlier phase of the
   plan has its receipt.
   */
  lemma WorkStartsInOrder(sha: Digest, e: Envelope, run: seq<System>, events: seq<Event>, n: nat) returns (k: nat)
    requires IsRun(sha, e, run, events) && n < |events| && events[n].BeginWork? && events[n].id in run[n].workers
    ensures e.plan.Some? && run[n].workers[events[n].id].pc.Preparing?
    ensures k < |e.plan.value.phases| && e.plan.value.phases[k] == run[n].workers[events[n].id].pc.phase
    ensures k <= |run[n].record.completedPhases|
    ensures forall m :: 0 <= m < k ==> e.plan.value.phases[m] in run[n].receipts
  {
    hide Create, ParseExecution, ReceiptsMatch, Reached;
    RunKeepsInv(sha, e, run, events, n);
    assert Connected(sha, e, run, events, n);
    assert WorkerIsSound(run[n].record, run[n].receipts, run[n].workers[events[n].id]);
    k := ReachedHasPlace(sha, e, run[n].record, run[n].receipts, run[n].workers[events[n].id].pc.phase);
  }

  /** One call of the runner goes round its loop at most once for each phase that was left when it started. */
  lemma RoundsAreBounded(sha: Digest, e: Envelope, run: seq<System>, events: seq<Event>, n: nat, id: nat)
    requires IsRun(sha, e, run, events) && n < |run| && id in run[n].workers
    ensures e.plan.Some? && run[n].workers[id].start + run[n].workers[id].rounds <= |e.plan.value.phases|
  {
    hide Next, Create;
    RunKeepsInv(sha, e, run, events, n);
    assert WorkerIsSound(run[n].record, run[n].receipts, run[n].workers[id]);
  }

  /** The model's store call is the real store's, as far as this execution is concerned. */
  lemma StoreAgrees(sha: Digest, s: ExecutionStore.Stored, expectedRevision: int, c: Change, y: Execution)
    requires ExecutionStore.WellStored(sha, s)
    ensures Mutated(sha, s.envelope, s.execution, expectedRevision, c) == Ok(y) <==>
              var effect := ExecutionStore.Apply(sha, Some(s.envelope), Some(s), ExecutionStore.Mutate(expectedRevision, c));
              effect.Ok? && y == (if effect.value.Keep? then effect.value.execution else effect.value.stored.execution)
  {
    hide ParseExecution, ParseEnvelope;
    var y' := Transition(sha, s.execution, s.envelope, c);
    if y'.Ok? {
      ChangeShape(sha, s.execution, s.envelope, c, y'.value);
    }
  }
}
