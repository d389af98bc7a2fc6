/**
 The file store's lock (packages/plugin-installer/src/executionStore.ts:250-290, 440-516) and the record it
 protects. A lock file older than `staleMs` is taken away by whoever sees it first, but looking and taking
 are two steps, and the second takes whatever lock is there by then.
 */
module FileLock {
  import opened Results
  import opened PlanHash
  import opened Execution
  import opened ExecutionStore

  datatype LockFile = LockFile(owner: nat, modifiedAt: int)

  /** Where a process is: trying for the first or second time, about to take a stale lock away, or inside. */
  datatype Process =
    | Trying(attempt: nat)
    | Breaking
    | Holding(since: int, loaded: Option<Option<Stored>>)

  datatype System = System(
    lock: Option<LockFile>,
    processes: map<nat, Process>,
    clock: int,
    record: Option<Stored>,
    log: seq<CommitEntry>)

  datatype Event =
    | Start(id: nat)
    | Tick(to: int)
    | Open(id: nat)
    | SeeStale(id: nat)
    | Break(id: nat)
    | GiveUp(id: nat)
    | Load(id: nat)
    | Commit(id: nat, planRead: Option<Envelope>, request: Request)
    | Release(id: nat)
    | Crash(id: nat)

  predicate IsHolding(s: System, id: nat)
  {
    id in s.processes && s.processes[id].Holding?
  }

  ghost predicate ProcessStep(sha: Digest, staleMs: int, s: System, e: Event, t: System)
    requires !e.Start? && !e.Tick? && e.id in s.processes
  {
    var p := s.processes[e.id];
    match e
    case Start(_) => false
    case Tick(_) => false
    case Open(id) =>
      && p.Trying? && s.lock.None?
      && t == s.(lock := Some(LockFile(id, s.clock)), processes := s.processes[id := Holding(s.clock, None)])
    case SeeStale(id) =>
      && p == Trying(0) && s.lock.Some? && s.clock - s.lock.value.modifiedAt > staleMs
      && t == s.(processes := s.processes[id := Breaking])
    case Break(id) =>
      p.Breaking? && t == s.(lock := None, processes := s.processes[id := Trying(1)])
    case GiveUp(id) =>
      && p.Trying? && s.lock.Some? && (p.attempt > 0 || s.clock - s.lock.value.modifiedAt <= staleMs)
      && t == s.(processes := s.processes - {id})
    case Load(id) =>
      p.Holding? && t == s.(processes := s.processes[id := p.(loaded := Some(s.record))])
    case Commit(id, planRead, request) =>
      && p.Holding? && p.loaded.Some?
      && var effect := Apply(sha, planRead, p.loaded.value, request);
         && effect.Ok? && effect.value.Write?
         && t == s.(record := Some(effect.value.stored), processes := s.processes[id := p.(loaded := None)],
                    log := s.log + [CommitEntry(planRead, request, p.loaded.value, effect.value.stored)])
    case Release(id) =>
      p.Holding? && t == s.(lock := None, processes := s.processes - {id})
    case Crash(id) =>
      t == s.(processes := s.processes - {id})
  }

  ghost predicate Next(sha: Digest, staleMs: int, s: System, e: Event, t: System)
  {
    match e
    case Start(id) => id !in s.processes && t == s.(processes := s.processes[id := Trying(0)])
    case Tick(to) => s.clock <= to && t == s.(clock := to)
    case _ => e.id in s.processes && ProcessStep(sha, staleMs, s, e, t)
  }

  // ---------------------------------------------------------------- one step

  /** Whoever is inside owns the lock file that is there. */
  ghost predicate Exclusive(s: System)
  {
    forall id :: IsHolding(s, id) ==> s.lock == Some(LockFile(id, s.processes[id].since))
  }

  /** The step takes away the lock of a process that is still inside. */
  predicate TakesLiveLock(s: System, e: Event)
  {
    e.Break? && s.lock.Some? && IsHolding(s, s.lock.value.owner)
  }

  lemma ExclusiveMeansAlone(s: System, a: nat, b: nat)
    requires Exclusive(s) && IsHolding(s, a) && IsHolding(s, b)
    ensures a == b
  {
  }

  /** Exactly the steps that take a live lock away end the exclusion. */
  lemma ExclusionEndsExactlyHere(sha: Digest, staleMs: int, s: System, e: Event, t: System)
    requires Exclusive(s) && Next(sha, staleMs, s, e, t)
    ensures Exclusive(t) <==> !TakesLiveLock(s, e)
  {
    hide Apply;
    if TakesLiveLock(s, e) {
      assert IsHolding(t, s.lock.value.owner);
    } else {
      assert e.Release? ==> IsHolding(s, e.id);
      forall id | IsHolding(t, id) ensures t.lock == Some(LockFile(id, t.processes[id].since)) {
        assert IsHolding(s, id) || e == Open(id);
      }
    }
  }

  // ---------------------------------------------------------------- when no step does

  /** No critical section outlasts the time after which its lock counts as stale. */
  ghost predicate Prompt(staleMs: int, s: System)
  {
    forall id :: IsHolding(s, id) ==> s.clock - s.processes[id].since <= staleMs
  }

  predicate IsBreaking(s: System, id: nat)
  {
    id in s.processes && s.processes[id].Breaking?
  }

  /** At most one process is between seeing a stale lock and taking it away. */
  ghost predicate OneBreaker(s: System)
  {
    forall a, b :: IsBreaking(s, a) && IsBreaking(s, b) ==> a == b
  }

  /** The lock a process is about to take away belongs to nobody who is inside. */
  ghost predicate BrokenLocksAreDead(s: System)
  {
    forall id :: IsBreaking(s, id) ==> s.lock.Some? && !IsHolding(s, s.lock.value.owner)
  }

  ghost predicate LoadedIsCurrent(s: System)
  {
    forall id :: IsHolding(s, id) && s.processes[id].loaded.Some? ==> s.processes[id].loaded.value == s.record
  }

  lemma StaleLockIsDead(staleMs: int, s: System)
    requires Exclusive(s) && Prompt(staleMs, s) && s.lock.Some? && s.clock - s.lock.value.modifiedAt > staleMs
    ensures !IsHolding(s, s.lock.value.owner)
  {
  }

  lemma StepKeepsDeadLocks(sha: Digest, staleMs: int, s: System, e: Event, t: System)
    requires Next(sha, staleMs, s, e, t) && Exclusive(s) && BrokenLocksAreDead(s)
    requires Prompt(staleMs, s) && OneBreaker(s)
    ensures Exclusive(t) && BrokenLocksAreDead(t)
  {
    hide Apply;
    if e.Break? { assert IsBreaking(s, e.id); }
    ExclusionEndsExactlyHere(sha, staleMs, s, e, t);
    if e.SeeStale? { StaleLockIsDead(staleMs, s); }
    assert e.Release? ==> IsHolding(s, e.id);
    forall id | IsBreaking(t, id) ensures t.lock.Some? && !IsHolding(t, t.lock.value.owner) {
      assert e == SeeStale(id) || IsBreaking(s, id);
    }
  }

  lemma StepKeepsLoaded(sha: Digest, staleMs: int, s: System, e: Event, t: System)
    requires Next(sha, staleMs, s, e, t) && Exclusive(s) && LoadedIsCurrent(s)
    ensures LoadedIsCurrent(t)
  {
    hide Apply;
    assert e.Commit? ==> IsHolding(s, e.id);
    forall id | IsHolding(t, id) && t.processes[id].loaded.Some? ensures t.processes[id].loaded.value == t.record {
      assert IsHolding(s, id);
    }
  }

  lemma StepKeepsLog(sha: Digest, staleMs: int, s: System, e: Event, t: System)
    requires Next(sha, staleMs, s, e, t) && LoadedIsCurrent(s)
    requires AtomicRun(sha, s.log) && s.record == LastRecord(s.log)
    ensures AtomicRun(sha, t.log) && t.record == LastRecord(t.log)
  {
    hide Apply, AtomicRun;
    if e.Commit? {
      assert IsHolding(s, e.id);
      AppendKeepsRun(sha, s.log, t.log[|s.log|]);
      assert t.log == s.log + [t.log[|s.log|]];
    }
  }

  // ---------------------------------------------------------------- runs

  ghost predicate StepAt(sha: Digest, staleMs: int, run: seq<System>, events: seq<Event>, i: int)
    requires 0 <= i < |events| && |run| == |events| + 1
  {
    Next(sha, staleMs, run[i], events[i], run[i + 1])
  }

  ghost predicate IsRun(sha: Digest, staleMs: int, run: seq<System>, events: seq<Event>)
  {
    && |run| == |events| + 1
    && run[0].lock == None && run[0].processes == map[] && run[0].record == None && run[0].log == []
    && forall i :: 0 <= i < |events| ==> StepAt(sha, staleMs, run, events, i)
  }

  /** Over a run: whoever is inside owns the lock throughout, if and only if no step takes a live lock away. */
  lemma {:induction false} ExclusiveExactly(sha: Digest, staleMs: int, run: seq<System>, events: seq<Event>, n: nat)
    requires IsRun(sha, staleMs, run, events) && n < |run|
    ensures (forall m :: 0 <= m <= n ==> Exclusive(run[m])) <==> (forall m :: 0 <= m < n ==> !TakesLiveLock(run[m], events[m]))
  {
    hide Next, Exclusive, TakesLiveLock;
    if n == 0 {
      assert Exclusive(run[0]) by { NobodyInside(run[0]); }
    } else {
      ExclusiveExactly(sha, staleMs, run, events, n - 1);
      assert StepAt(sha, staleMs, run, events, n - 1);
      if Exclusive(run[n - 1]) {
        ExclusionEndsExactlyHere(sha, staleMs, run[n - 1], events[n - 1], run[n]);
      }
    }
  }

  lemma NobodyInside(s: System)
    requires s.processes == map[]
    ensures Exclusive(s)
  {
  }

  /**
   As long as no step takes a live lock away, the file store is the atomic store: one process inside at a
   time, what it loaded is the record in force, and no update is lost.
   */
  lemma {:induction false} FileStoreIsAtomic(sha: Digest, staleMs: int, run: seq<System>, events: seq<Event>, n: nat)
    requires IsRun(sha, staleMs, run, events) && n < |run|
    requires forall m :: 0 <= m < n ==> !TakesLiveLock(run[m], events[m])
    ensures Exclusive(run[n]) && LoadedIsCurrent(run[n])
    ensures AtomicRun(sha, run[n].log) && run[n].record == LastRecord(run[n].log)
    ensures forall a, b :: IsHolding(run[n], a) && IsHolding(run[n], b) ==> a == b
  {
    hide Next, AtomicRun, TakesLiveLock;
    ExclusiveExactly(sha, staleMs, run, events, n);
    if n == 0 {
      assert AtomicRun(sha, []) by { EmptyLogIsRun(sha); }
    } else {
      FileStoreIsAtomic(sha, staleMs, run, events, n - 1);
      assert StepAt(sha, staleMs, run, events, n - 1);
      StepKeepsLoaded(sha, staleMs, run[n - 1], events[n - 1], run[n]);
      StepKeepsLog(sha, staleMs, run[n - 1], events[n - 1], run[n]);
    }
    forall a, b | IsHolding(run[n], a) && IsHolding(run[n], b) ensures a == b {
      ExclusiveMeansAlone(run[n], a, b);
    }
  }

  lemma DeadLockIsTaken(s: System, e: Event)
    requires BrokenLocksAreDead(s) && (e.Break? ==> IsBreaking(s, e.id))
    ensures !TakesLiveLock(s, e)
  {
  }

  /**
   What callers can see to: with no critical section longer than `staleMs` and no two processes breaking a
   stale lock at once, no step ever takes a live lock away.
   */
  lemma {:induction false} PromptProcessesTakeNoLiveLock(sha: Digest, staleMs: int, run: seq<System>, events: seq<Event>, n: nat)
    requires IsRun(sha, staleMs, run, events) && n < |run|
    requires forall m :: 0 <= m < n ==> Prompt(staleMs, run[m]) && OneBreaker(run[m])
    ensures Exclusive(run[n]) && BrokenLocksAreDead(run[n])
    ensures forall m :: 0 <= m < n ==> !TakesLiveLock(run[m], events[m])
  {
    hide Prompt, OneBreaker, TakesLiveLock, Apply;
    if n == 0 {
      assert Exclusive(run[0]) by { NobodyInside(run[0]); }
    } else {
      PromptProcessesTakeNoLiveLock(sha, staleMs, run, events, n - 1);
      assert StepAt(sha, staleMs, run, events, n - 1);
      DeadLockIsTaken(run[n - 1], events[n - 1]);
      StepKeepsDeadLocks(sha, staleMs, run[n - 1], events[n - 1], run[n]);
    }
  }

  lemma EmptyLogIsRun(sha: Digest)
    ensures AtomicRun(sha, [])
  {
  }

  // ---------------------------------------------------------------- getting in

  predicate IsStale(staleMs: int, s: System)
  {
    s.lock.Some? && s.clock - s.lock.value.modifiedAt > staleMs
  }

  /** What a process can do next is decided by where it is and by the lock: this is all it can do besides dying. */
  lemma WhatIsPossible(sha: Digest, staleMs: int, s: System, id: nat)
    requires id in s.processes
    ensures var p := s.processes[id];
            && ((exists t :: Next(sha, staleMs, s, Open(id), t)) <==> p.Trying? && s.lock.None?)
            && ((exists t :: Next(sha, staleMs, s, SeeStale(id), t)) <==> p == Trying(0) && IsStale(staleMs, s))
            && ((exists t :: Next(sha, staleMs, s, GiveUp(id), t)) <==>
                  p.Trying? && s.lock.Some? && (p.attempt == 0 ==> !IsStale(staleMs, s)))
            && ((exists t :: Next(sha, staleMs, s, Break(id), t)) <==> p.Breaking?)
            && ((exists t :: Next(sha, staleMs, s, Release(id), t)) <==> p.Holding?)
  {
    hide Apply;
    var p := s.processes[id];
    if p.Trying? && s.lock.None? {
      assert Next(sha, staleMs, s, Open(id), s.(lock := Some(LockFile(id, s.clock)), processes := s.processes[id := Holding(s.clock, None)]));
    }
    if p == Trying(0) && IsStale(staleMs, s) {
      assert Next(sha, staleMs, s, SeeStale(id), s.(processes := s.processes[id := Breaking]));
    }
    if p.Trying? && s.lock.Some? && (p.attempt == 0 ==> !IsStale(staleMs, s)) {
      assert Next(sha, staleMs, s, GiveUp(id), s.(processes := s.processes - {id}));
    }
    if p.Breaking? {
      assert Next(sha, staleMs, s, Break(id), s.(lock := None, processes := s.processes[id := Trying(1)]));
    }
    if p.Holding? {
      assert Next(sha, staleMs, s, Release(id), s.(lock := None, processes := s.processes - {id}));
    }
  }

  ghost predicate IsPath(sha: Digest, staleMs: int, run: seq<System>, events: seq<Event>)
  {
    |run| == |events| + 1 && forall i :: 0 <= i < |events| ==> StepAt(sha, staleMs, run, events, i)
  }

  lemma OneStepFurther(sha: Digest, staleMs: int, run: seq<System>, events: seq<Event>, e: Event, t: System)
    requires IsPath(sha, staleMs, run, events) && Next(sha, staleMs, run[|events|], e, t)
    ensures IsPath(sha, staleMs, run + [t], events + [e])
  {
    hide Next;
    forall i | 0 <= i < |events| + 1 ensures StepAt(sha, staleMs, run + [t], events + [e], i) {
      assert i < |events| ==> StepAt(sha, staleMs, run, events, i);
    }
  }

  /** A process can get in where there is no lock, or one that is stale. */
  lemma ProcessGetsIn(sha: Digest, staleMs: int, s: System, id: nat) returns (run: seq<System>, events: seq<Event>)
    requires id !in s.processes && (s.lock.None? || IsStale(staleMs, s))
    ensures IsPath(sha, staleMs, run, events) && run[0] == s
    ensures run[|events|] == s.(lock := Some(LockFile(id, s.clock)), processes := s.processes[id := Holding(s.clock, None)])
  {
    hide Apply;
    var a := s.(processes := s.processes[id := Trying(0)]);
    var z := s.(lock := Some(LockFile(id, s.clock)), processes := s.processes[id := Holding(s.clock, None)]);
    run, events := [s] + [a], [Start(id)];
    assert IsPath(sha, staleMs, [s], []);
    OneStepFurther(sha, staleMs, [s], [], Start(id), a);
    if s.lock.Some? {
      var b, c := a.(processes := a.processes[id := Breaking]), a.(lock := None, processes := a.processes[id := Trying(1)]);
      OneStepFurther(sha, staleMs, run, events, SeeStale(id), b);
      OneStepFurther(sha, staleMs, run + [b], events + [SeeStale(id)], Break(id), c);
      run, events := run + [b] + [c], events + [SeeStale(id)] + [Break(id)];
    }
    OneStepFurther(sha, staleMs, run, events, Open(id), z);
    run, events := run + [z], events + [Open(id)];
  }

  /** From there it can make any change the store accepts, and leaves no lock behind. */
  lemma ProcessCanCommit(sha: Digest, staleMs: int, s: System, id: nat, planRead: Option<Envelope>, request: Request)
    returns (run: seq<System>, events: seq<Event>)
    requires id !in s.processes && (s.lock.None? || IsStale(staleMs, s))
    requires Apply(sha, planRead, s.record, request).Ok? && Apply(sha, planRead, s.record, request).value.Write?
    ensures IsPath(sha, staleMs, run, events) && run[0] == s
    ensures var stored := Apply(sha, planRead, s.record, request).value.stored;
            run[|events|] == System(None, s.processes, s.clock, Some(stored), s.log + [CommitEntry(planRead, request, s.record, stored)])
  {
    hide Apply;
    var stored := Apply(sha, planRead, s.record, request).value.stored;
    run, events := ProcessGetsIn(sha, staleMs, s, id);
    var a := run[|events|];
    var b := a.(processes := a.processes[id := Holding(s.clock, Some(s.record))]);
    var c := b.(record := Some(stored), processes := b.processes[id := Holding(s.clock, None)],
                log := s.log + [CommitEntry(planRead, request, s.record, stored)]);
    var d := c.(lock := None, processes := c.processes - {id});
    OneStepFurther(sha, staleMs, run, events, Load(id), b);
    OneStepFurther(sha, staleMs, run + [b], events + [Load(id)], Event.Commit(id, planRead, request), c);
    OneStepFurther(sha, staleMs, run + [b] + [c], events + [Load(id)] + [Event.Commit(id, planRead, request)], Release(id), d);
    assert d.processes == s.processes;
    run, events := run + [b] + [c] + [d], events + [Load(id)] + [Event.Commit(id, planRead, request)] + [Release(id)];
  }

  // ---------------------------------------------------------------- two breakers

  const DEAD: Option<LockFile> := Some(LockFile(0, 0))
  const INSIDE: Process := Holding(1_000, None)

  function At(lock: Option<LockFile>, clock: int, processes: map<nat, Process>): System
  {
    System(lock, processes, clock, None, [])
  }

  function Late(lock: Option<LockFile>, one: Process, two: Process): System
  {
    At(lock, 1_000, map[1 := one, 2 := two])
  }

  function TwoBreakersRun(i: int): System
  {
    match i
    case 0 => At(None, 0, map[])
    case 1 => At(None, 0, map[0 := Trying(0)])
    case 2 => At(DEAD, 0, map[0 := Holding(0, None)])
    case 3 => At(DEAD, 0, map[])
    case 4 => At(DEAD, 0, map[1 := Trying(0)])
    case 5 => At(DEAD, 0, map[1 := Trying(0), 2 := Trying(0)])
    case 6 => Late(DEAD, Trying(0), Trying(0))
    case 7 => Late(DEAD, Breaking, Trying(0))
    case 8 => Late(DEAD, Breaking, Breaking)
    case 9 => Late(None, Trying(1), Breaking)
    case 10 => Late(Some(LockFile(1, 1_000)), INSIDE, Breaking)
    case 11 => Late(None, INSIDE, Trying(1))
    case _ => Late(Some(LockFile(2, 1_000)), INSIDE, INSIDE)
  }

  function TwoBreakersEvent(i: int): Event
  {
    match i
    case 0 => Start(0)
    case 1 => Open(0)
    case 2 => Crash(0)
    case 3 => Start(1)
    case 4 => Start(2)
    case 5 => Tick(1_000)
    case 6 => SeeStale(1)
    case 7 => SeeStale(2)
    case 8 => Break(1)
    case 9 => Open(1)
    case 10 => Break(2)
    case _ => Open(2)
  }

  ghost predicate TwoBreakersStep(sha: Digest, i: int)
  {
    Next(sha, 10, TwoBreakersRun(i), TwoBreakersEvent(i), TwoBreakersRun(i + 1))
  }

  lemma TheFirstDiesInside(sha: Digest)
    ensures TwoBreakersStep(sha, 0) && TwoBreakersStep(sha, 1) && TwoBreakersStep(sha, 2)
  {
    assert map[0 := Trying(0)][0 := Holding(0, None)] == map[0 := Holding(0, None)];
    assert map[0 := Holding(0, None)] - {0} == map[];
  }

  lemma TwoMoreStart(sha: Digest)
    ensures TwoBreakersStep(sha, 3) && TwoBreakersStep(sha, 4) && TwoBreakersStep(sha, 5)
  {
    assert map[1 := Trying(0)][2 := Trying(0)] == map[1 := Trying(0), 2 := Trying(0)];
  }

  lemma BothSeeTheDeadLock(sha: Digest)
    ensures TwoBreakersStep(sha, 6) && TwoBreakersStep(sha, 7)
  {
    assert map[1 := Trying(0), 2 := Trying(0)][1 := Breaking] == map[1 := Breaking, 2 := Trying(0)];
    assert map[1 := Breaking, 2 := Trying(0)][2 := Breaking] == map[1 := Breaking, 2 := Breaking];
  }

  lemma OneEnters(sha: Digest)
    ensures TwoBreakersStep(sha, 8) && TwoBreakersStep(sha, 9)
  {
    assert map[1 := Breaking, 2 := Breaking][1 := Trying(1)] == map[1 := Trying(1), 2 := Breaking];
    assert map[1 := Trying(1), 2 := Breaking][1 := INSIDE] == map[1 := INSIDE, 2 := Breaking];
  }

  lemma TheOtherEntersToo(sha: Digest)
    ensures TwoBreakersStep(sha, 10) && TwoBreakersStep(sha, 11)
  {
    assert map[1 := INSIDE, 2 := Breaking][2 := Trying(1)] == map[1 := INSIDE, 2 := Trying(1)];
    assert map[1 := INSIDE, 2 := Trying(1)][2 := INSIDE] == map[1 := INSIDE, 2 := INSIDE];
  }

  /**
   Prompt processes are not enough. Process 0 dies inside; 1 and 2 both see its lock stale; 1 takes it away
   and enters; 2 then takes away the lock of 1 and enters as well.
   */
  lemma TwoBreakersBothEnter(sha: Digest)
    ensures IsRun(sha, 10, seq(13, TwoBreakersRun), seq(12, TwoBreakersEvent))
    ensures forall i :: 0 <= i < 13 ==> Prompt(10, TwoBreakersRun(i))
    ensures IsHolding(TwoBreakersRun(12), 1) && IsHolding(TwoBreakersRun(12), 2)
  {
    hide Next;
    var run, events := seq(13, TwoBreakersRun), seq(12, TwoBreakersEvent);
    TheFirstDiesInside(sha);
    TwoMoreStart(sha);
    BothSeeTheDeadLock(sha);
    OneEnters(sha);
    TheOtherEntersToo(sha);
    forall i | 0 <= i < 12 ensures StepAt(sha, 10, run, events, i) {
      assert run[i] == TwoBreakersRun(i) && run[i + 1] == TwoBreakersRun(i + 1) && events[i] == TwoBreakersEvent(i);
      assert TwoBreakersStep(sha, i);
    }
    forall i | 0 <= i < 13 ensures Prompt(10, TwoBreakersRun(i)) {
      RunIsPrompt(i);
    }
  }

  lemma RunIsPrompt(i: int)
    requires 0 <= i < 13
    ensures Prompt(10, TwoBreakersRun(i))
  {
  }
}
