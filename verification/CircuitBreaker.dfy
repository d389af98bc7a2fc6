/**
 The gateway's circuit breaker (packages/plugin-runtime/src/gateway.ts:104-225) as its callers use it,
 without an explicit time: every call reads a clock that does not go backwards.

 `Next` says what a call does to the breaker; the class does it. Runs are sequences of such calls.
 */
module CircuitBreaker {
  import opened Results

  datatype Policy = Policy(failureThreshold: int, openMs: int, maxTracked: int)
  {
    predicate Valid()
    {
      failureThreshold > 0 && openMs > 0 && maxTracked > 0
    }
  }

  datatype Key = Key(pluginId: string, operationId: string)

  datatype Circuit = Circuit(failures: nat, openedAt: Option<int>, probeInFlight: bool, touchedAt: int)

  datatype Lease = Lease(key: Key, isProbe: bool, completed: bool)

  datatype Breaker = Breaker(states: map<Key, Circuit>, leases: seq<Lease>, clock: int)

  datatype Event = Acquire(key: Key, at: int, granted: bool) | Complete(lease: nat, succeeded: bool, at: int)

  predicate MayEvict(states: map<Key, Circuit>, k: Key)
  {
    k in states && states[k].openedAt.None? && !states[k].probeInFlight
  }

  /** `evictClosedState`: a closed circuit that was touched no later than any other, if there is one. */
  ghost predicate Evicted(states: map<Key, Circuit>, after: map<Key, Circuit>)
  {
    || (after == states && forall k :: !MayEvict(states, k))
    || (exists k :: MayEvict(states, k) && after == states - {k}
                    && forall other :: MayEvict(states, other) ==> states[k].touchedAt <= states[other].touchedAt)
  }

  ghost predicate MadeRoom(p: Policy, states: map<Key, Circuit>, key: Key, after: map<Key, Circuit>)
  {
    if key !in states && |states| >= p.maxTracked then Evicted(states, after) else after == states
  }

  predicate IsOpen(c: Circuit)
  {
    c.openedAt.Some?
  }

  predicate Refuses(p: Policy, c: Circuit, at: int)
  {
    IsOpen(c) && (at < c.openedAt.value + p.openMs || c.probeInFlight)
  }

  function Touched(states: map<Key, Circuit>, key: Key, at: int): Circuit
  {
    if key in states then states[key].(touchedAt := at) else Circuit(0, None, false, at)
  }

  ghost predicate AcquireStep(p: Policy, b: Breaker, key: Key, at: int, granted: bool, room: map<Key, Circuit>, t: Breaker)
  {
    var c := Touched(room, key, at);
    && MadeRoom(p, b.states, key, room)
    && if key !in room && |room| >= p.maxTracked then !granted && t == Breaker(room, b.leases, at)
       else if Refuses(p, c, at) then !granted && t == Breaker(room[key := c], b.leases, at)
       else
         && granted
         && t == Breaker(room[key := if IsOpen(c) then c.(probeInFlight := true) else c],
                         b.leases + [Lease(key, IsOpen(c), false)], at)
  }

  function AfterFailure(p: Policy, c: Circuit, isProbe: bool, at: int): Circuit
  {
    Circuit(c.failures + 1, if isProbe || c.failures + 1 >= p.failureThreshold then Some(at) else c.openedAt, false, at)
  }

  function CompleteStep(p: Policy, b: Breaker, id: nat, succeeded: bool, at: int): Breaker
    requires id < |b.leases|
  {
    var lease := b.leases[id];
    if lease.completed then b.(clock := at)
    else
      var leases := b.leases[id := lease.(completed := true)];
      if lease.key !in b.states then Breaker(b.states, leases, at)
      else if succeeded then Breaker(b.states - {lease.key}, leases, at)
      else Breaker(b.states[lease.key := AfterFailure(p, b.states[lease.key], lease.isProbe, at)], leases, at)
  }

  ghost predicate Next(p: Policy, b: Breaker, e: Event, t: Breaker)
  {
    && b.clock <= e.at
    && match e
       case Acquire(key, at, granted) => exists room :: AcquireStep(p, b, key, at, granted, room, t)
       case Complete(id, succeeded, at) => id < |b.leases| && t == CompleteStep(p, b, id, succeeded, at)
  }

  // ---------------------------------------------------------------- what every call keeps

  /** The outstanding probe of a key. */
  predicate OutstandingProbe(leases: seq<Lease>, i: nat, key: Key)
  {
    i < |leases| && leases[i] == Lease(key, true, false)
  }

  ghost predicate CircuitIsSound(p: Policy, b: Breaker, k: Key)
    requires k in b.states
  {
    var c := b.states[k];
    && (!IsOpen(c) ==> c.failures < p.failureThreshold && !c.probeInFlight)
    && (IsOpen(c) ==> c.openedAt.value <= b.clock)
    && (c.probeInFlight ==> exists i: nat :: OutstandingProbe(b.leases, i, k))
  }

  /**
   A circuit that is not open has fewer failures than the threshold and no probe; a probe in flight is a
   lease still to be completed; the tracked circuits stay within their limit.
   */
  ghost predicate Inv(p: Policy, b: Breaker)
  {
    |b.states| <= p.maxTracked && forall k :: k in b.states ==> CircuitIsSound(p, b, k)
  }

  lemma RoomIsSmaller(p: Policy, states: map<Key, Circuit>, key: Key, room: map<Key, Circuit>)
    requires MadeRoom(p, states, key, room)
    ensures |room| <= |states| && (forall k :: k in room ==> k in states && room[k] == states[k])
    ensures forall k :: k in states && IsOpen(states[k]) ==> k in room
    ensures key in room <==> key in states
  {
    if room != states {
      var k :| MayEvict(states, k) && room == states - {k};
      assert room.Keys == states.Keys - {k};
    }
  }

  lemma SizeOfUpdate(states: map<Key, Circuit>, key: Key, c: Circuit)
    ensures |states[key := c]| == |states| + (if key in states then 0 else 1)
  {
    assert states[key := c].Keys == states.Keys + {key};
    if key in states { assert states.Keys + {key} == states.Keys; }
  }

  lemma SizeOfRemoval(states: map<Key, Circuit>, key: Key)
    ensures |states - {key}| <= |states|
  {
    assert (states - {key}).Keys == states.Keys - {key};
  }

  lemma ProbeStaysOutstanding(leases: seq<Lease>, more: seq<Lease>, k: Key)
    requires exists i: nat :: OutstandingProbe(leases, i, k)
    ensures exists i: nat :: OutstandingProbe(leases + more, i, k)
  {
    var i: nat :| OutstandingProbe(leases, i, k);
    assert OutstandingProbe(leases + more, i, k);
  }

  lemma AcquireKeepsInv(p: Policy, b: Breaker, key: Key, at: int, granted: bool, room: map<Key, Circuit>, t: Breaker)
    requires p.Valid() && Inv(p, b) && b.clock <= at && AcquireStep(p, b, key, at, granted, room, t)
    ensures Inv(p, t)
  {
    hide MadeRoom, OutstandingProbe;
    RoomIsSmaller(p, b.states, key, room);
    SizeOfUpdate(room, key, Touched(room, key, at));
    var probe := Lease(key, IsOpen(Touched(room, key, at)), false);
    assert probe.isProbe ==> OutstandingProbe(b.leases + [probe], |b.leases|, key) by { NewProbe(b.leases, key); }
    forall k | k in t.states ensures CircuitIsSound(p, t, k) {
      if k in b.states {
        assert CircuitIsSound(p, b, k);
        if exists i: nat :: OutstandingProbe(b.leases, i, k) {
          ProbeStaysOutstanding(b.leases, [probe], k);
        }
      }
    }
  }

  lemma NewProbe(leases: seq<Lease>, key: Key)
    ensures OutstandingProbe(leases + [Lease(key, true, false)], |leases|, key)
  {
  }

  lemma CompleteKeepsInv(p: Policy, b: Breaker, id: nat, succeeded: bool, at: int)
    requires p.Valid() && Inv(p, b) && b.clock <= at && id < |b.leases|
    ensures Inv(p, CompleteStep(p, b, id, succeeded, at))
  {
    var t, key := CompleteStep(p, b, id, succeeded, at), b.leases[id].key;
    SizeOfRemoval(b.states, key);
    if key in b.states { SizeOfUpdate(b.states, key, AfterFailure(p, b.states[key], b.leases[id].isProbe, at)); }
    forall k | k in t.states ensures CircuitIsSound(p, t, k) {
      assert CircuitIsSound(p, b, k);
      if t.states[k].probeInFlight {
        var i: nat :| OutstandingProbe(b.leases, i, k);
        assert OutstandingProbe(t.leases, i, k);
      }
    }
  }

  lemma NextKeepsInv(p: Policy, b: Breaker, e: Event, t: Breaker)
    requires p.Valid() && Inv(p, b) && Next(p, b, e, t)
    ensures Inv(p, t) && t.clock == e.at
  {
    hide Inv;
    match e
    case Acquire(key, at, granted) =>
      var room :| AcquireStep(p, b, key, at, granted, room, t);
      AcquireKeepsInv(p, b, key, at, granted, room, t);
    case Complete(id, succeeded, at) =>
      CompleteKeepsInv(p, b, id, succeeded, at);
  }

  // ---------------------------------------------------------------- runs

  ghost predicate StepAt(p: Policy, run: seq<Breaker>, events: seq<Event>, i: int)
    requires 0 <= i < |events| && |run| == |events| + 1
  {
    Next(p, run[i], events[i], run[i + 1])
  }

  ghost predicate IsRun(p: Policy, run: seq<Breaker>, events: seq<Event>)
  {
    && p.Valid() && |run| == |events| + 1
    && run[0].states == map[] && run[0].leases == []
    && forall i :: 0 <= i < |events| ==> StepAt(p, run, events, i)
  }

  lemma {:induction false} RunKeepsInv(p: Policy, run: seq<Breaker>, events: seq<Event>, n: nat)
    requires IsRun(p, run, events) && n < |run|
    ensures Inv(p, run[n])
  {
    hide Next;
    if n > 0 {
      RunKeepsInv(p, run, events, n - 1);
      assert StepAt(p, run, events, n - 1);
      NextKeepsInv(p, run[n - 1], events[n - 1], run[n]);
    }
  }

  // ---------------------------------------------------------------- the cooldown

  predicate OpenSince(b: Breaker, k: Key, t: int)
  {
    k in b.states && IsOpen(b.states[k]) && b.states[k].openedAt.value >= t
  }

  /** The call completes a lease of this key with success. */
  predicate Closes(b: Breaker, e: Event, k: Key)
  {
    e.Complete? && e.succeeded && e.lease < |b.leases| && b.leases[e.lease].key == k
  }

  /** An open circuit stays open, and is neither evicted nor opened earlier, until a lease of it succeeds. */
  lemma OpenStaysOpen(p: Policy, b: Breaker, e: Event, t: Breaker, k: Key, since: int)
    requires Inv(p, b) && Next(p, b, e, t) && OpenSince(b, k, since) && !Closes(b, e, k)
    ensures OpenSince(t, k, since)
  {
    hide MadeRoom, OutstandingProbe;
    assert CircuitIsSound(p, b, k);
    if e.Acquire? {
      var room :| AcquireStep(p, b, e.key, e.at, e.granted, room, t);
      RoomIsSmaller(p, b.states, e.key, room);
    }
  }

  lemma {:induction false} OpenUntilSuccess(p: Policy, run: seq<Breaker>, events: seq<Event>, i: nat, j: nat, k: Key, since: int)
    requires IsRun(p, run, events) && i <= j < |run| && OpenSince(run[i], k, since)
    requires forall m :: i <= m < j ==> !Closes(run[m], events[m], k)
    ensures OpenSince(run[j], k, since)
    decreases j
  {
    hide Next, Inv, OpenSince;
    if i < j {
      OpenUntilSuccess(p, run, events, i, j - 1, k, since);
      RunKeepsInv(p, run, events, j - 1);
      assert StepAt(p, run, events, j - 1);
      OpenStaysOpen(p, run[j - 1], events[j - 1], run[j], k, since);
    }
  }

  lemma OpenRefusesEarly(p: Policy, b: Breaker, e: Event, t: Breaker, since: int)
    requires e.Acquire? && Next(p, b, e, t) && OpenSince(b, e.key, since) && e.at < since + p.openMs
    ensures !e.granted
  {
    var room :| AcquireStep(p, b, e.key, e.at, e.granted, room, t);
    RoomIsSmaller(p, b.states, e.key, room);
  }

  /**
   Once a circuit has opened at `since`, no lease of it is granted before `since + openMs`, unless an
   outstanding lease of it succeeds in between.
   */
  lemma CooldownIsKept(p: Policy, run: seq<Breaker>, events: seq<Event>, i: nat, j: nat, since: int)
    requires IsRun(p, run, events) && i <= j < |events| && events[j].Acquire? && OpenSince(run[i], events[j].key, since)
    requires forall m :: i <= m < j ==> !Closes(run[m], events[m], events[j].key)
    requires events[j].at < since + p.openMs
    ensures !events[j].granted
  {
    hide Next, Inv, OpenSince;
    OpenUntilSuccess(p, run, events, i, j, events[j].key, since);
    assert StepAt(p, run, events, j);
    OpenRefusesEarly(p, run[j], events[j], run[j + 1], since);
  }

  // ---------------------------------------------------------------- when a lease is granted, and when a circuit opens

  /** The breaker tracks this key already, or it has room for it, or can make some. */
  ghost predicate CanTrack(p: Policy, b: Breaker, key: Key)
  {
    key in b.states || |b.states| < p.maxTracked || exists k :: MayEvict(b.states, k)
  }

  /** Cooling down, or with a probe still out. */
  predicate IsUnavailable(p: Policy, b: Breaker, key: Key, at: int)
  {
    key in b.states && IsOpen(b.states[key]) && (at < b.states[key].openedAt.value + p.openMs || b.states[key].probeInFlight)
  }

  lemma RoomIfPossible(p: Policy, states: map<Key, Circuit>, key: Key, room: map<Key, Circuit>)
    requires |states| <= p.maxTracked && MadeRoom(p, states, key, room)
    ensures key in room || |room| < p.maxTracked <==> key in states || |states| < p.maxTracked || exists k :: MayEvict(states, k)
    ensures forall k :: k in states && k !in room ==> MayEvict(states, k) && key !in states && |states| == p.maxTracked
  {
    RoomIsSmaller(p, states, key, room);
    if room != states {
      var k :| MayEvict(states, k) && room == states - {k};
      assert room.Keys == states.Keys - {k} && |room| == |room.Keys| && |states| == |states.Keys|;
    }
  }

  /**
   A lease is granted exactly when the key can be tracked and its circuit is closed, or cooled down without a
   probe; then the lease is a probe exactly if the circuit is open.
   */
  lemma GrantedExactly(p: Policy, b: Breaker, e: Event, t: Breaker)
    requires Inv(p, b) && e.Acquire? && Next(p, b, e, t)
    ensures e.granted <==> CanTrack(p, b, e.key) && !IsUnavailable(p, b, e.key, e.at)
    ensures var isProbe := e.key in b.states && IsOpen(b.states[e.key]);
            t.leases == if e.granted then b.leases + [Lease(e.key, isProbe, false)] else b.leases
    ensures CanTrack(p, b, e.key) ==>
              && e.key in t.states && t.states[e.key].touchedAt == e.at
              && (if e.key !in b.states then t.states[e.key].failures == 0 && !IsOpen(t.states[e.key])
                  else t.states[e.key].failures == b.states[e.key].failures && t.states[e.key].openedAt == b.states[e.key].openedAt)
    ensures e.granted ==> (t.states[e.key].probeInFlight <==> IsOpen(t.states[e.key]))
    ensures IsUnavailable(p, b, e.key, e.at) ==> t.states == b.states[e.key := b.states[e.key].(touchedAt := e.at)]
  {
    hide OutstandingProbe, MadeRoom, MayEvict;
    var room :| AcquireStep(p, b, e.key, e.at, e.granted, room, t);
    RoomIsSmaller(p, b.states, e.key, room);
    RoomIfPossible(p, b.states, e.key, room);
    assert e.key in b.states ==> CircuitIsSound(p, b, e.key);
  }

  /** An acquisition leaves the other circuits as they are, but for a closed one that has to make room for a new one. */
  lemma AcquireKeepsOthers(p: Policy, b: Breaker, e: Event, t: Breaker, k: Key)
    requires Inv(p, b) && e.Acquire? && Next(p, b, e, t) && k != e.key
    ensures k in t.states ==> k in b.states && t.states[k] == b.states[k]
    ensures k in b.states && k !in t.states ==>
              MayEvict(b.states, k) && e.key !in b.states && |b.states| == p.maxTracked
              && forall other :: MayEvict(b.states, other) ==> b.states[k].touchedAt <= b.states[other].touchedAt
  {
    var room :| AcquireStep(p, b, e.key, e.at, e.granted, room, t);
    RoomIsSmaller(p, b.states, e.key, room);
    RoomIfPossible(p, b.states, e.key, room);
  }

  /** The call is the failure of a lease of this key that was still to be completed. */
  predicate Fails(b: Breaker, e: Event, k: Key)
  {
    e.Complete? && !e.succeeded && e.lease < |b.leases| && b.leases[e.lease].key == k && !b.leases[e.lease].completed && k in b.states
  }

  /** The failure of a probe, or the one that reaches the threshold. */
  predicate Trips(p: Policy, b: Breaker, e: Event, k: Key)
  {
    Fails(b, e, k) && (b.leases[e.lease].isProbe || b.states[k].failures + 1 >= p.failureThreshold)
  }

  /** Completing a lease ends it, once; a success forgets the circuit and a failure is counted in it. */
  lemma CompletedMeans(p: Policy, b: Breaker, e: Event, t: Breaker, k: Key)
    requires e.Complete? && Next(p, b, e, t)
    ensures t.leases == b.leases[e.lease := b.leases[e.lease].(completed := true)]
    ensures k in t.states <==> k in b.states && !(Closes(b, e, k) && !b.leases[e.lease].completed)
    ensures Fails(b, e, k) ==>
              && k in t.states && t.states[k].failures == b.states[k].failures + 1
              && !t.states[k].probeInFlight && t.states[k].touchedAt == e.at
              && t.states[k].openedAt == (if Trips(p, b, e, k) then Some(e.at) else b.states[k].openedAt)
    ensures k in t.states && !Fails(b, e, k) ==> t.states[k] == b.states[k]
  {
  }

  /** A circuit opens exactly when a probe of it fails or its failures reach the threshold, and from that time on. */
  lemma OpensExactly(p: Policy, b: Breaker, e: Event, t: Breaker, k: Key)
    requires Inv(p, b) && Next(p, b, e, t) && !(k in b.states && IsOpen(b.states[k]))
    ensures k in t.states && IsOpen(t.states[k]) <==> Trips(p, b, e, k)
    ensures Trips(p, b, e, k) ==> t.states[k].openedAt == Some(e.at)
  {
    hide OutstandingProbe, MayEvict, MadeRoom, CompleteStep, AcquireStep;
    if e.Acquire? {
      AcquireOpensNothing(p, b, e, t, k);
    } else {
      CompletedMeans(p, b, e, t, k);
    }
  }

  lemma AcquireOpensNothing(p: Policy, b: Breaker, e: Event, t: Breaker, k: Key)
    requires e.Acquire? && Next(p, b, e, t)
    ensures k in t.states && IsOpen(t.states[k]) ==> k in b.states && IsOpen(b.states[k])
  {
    hide MadeRoom, MayEvict;
    var room :| AcquireStep(p, b, e.key, e.at, e.granted, room, t);
    RoomIsSmaller(p, b.states, e.key, room);
  }

  /** The failures of a key over a run, since the breaker last forgot it. */
  function FailuresSince(run: seq<Breaker>, events: seq<Event>, n: nat, k: Key): nat
    requires n < |run| && n <= |events|
  {
    if n == 0 || k !in run[n].states then 0
    else FailuresSince(run, events, n - 1, k) + (if Fails(run[n - 1], events[n - 1], k) then 1 else 0)
  }

  lemma ForgottenHasNoFailures(run: seq<Breaker>, events: seq<Event>, n: nat, k: Key)
    requires n < |run| && n <= |events| && k !in run[n].states
    ensures FailuresSince(run, events, n, k) == 0
  {
  }

  /** What a circuit counts is exactly the failures since it was last forgotten. */
  lemma {:induction false} FailuresAreCounted(p: Policy, run: seq<Breaker>, events: seq<Event>, n: nat, k: Key)
    requires IsRun(p, run, events) && n < |run|
    ensures k in run[n].states ==> run[n].states[k].failures == FailuresSince(run, events, n, k)
  {
    hide Inv, AcquireStep, CompleteStep, CanTrack, IsUnavailable, Trips;
    if n > 0 {
      var b, e, t := run[n - 1], events[n - 1], run[n];
      FailuresAreCounted(p, run, events, n - 1, k);
      RunKeepsInv(p, run, events, n - 1);
      assert StepAt(p, run, events, n - 1);
      if k !in b.states {
        ForgottenHasNoFailures(run, events, n - 1, k);
      }
      CountAfter(p, b, e, t, k);
    }
  }

  lemma CountAfter(p: Policy, b: Breaker, e: Event, t: Breaker, k: Key)
    requires Inv(p, b) && Next(p, b, e, t)
    ensures k in t.states ==> t.states[k].failures == (if k in b.states then b.states[k].failures else 0) + (if Fails(b, e, k) then 1 else 0)
  {
    hide Inv, AcquireStep, CompleteStep, IsUnavailable, Trips, IsOpen;
    if e.Complete? {
      CompletedMeans(p, b, e, t, k);
    } else if k != e.key {
      AcquireKeepsOthers(p, b, e, t, k);
    } else {
      GrantedExactly(p, b, e, t);
      TrackedIfPresent(p, b, e, t);
    }
  }

  lemma TrackedIfPresent(p: Policy, b: Breaker, e: Event, t: Breaker)
    requires Inv(p, b) && e.Acquire? && Next(p, b, e, t)
    ensures e.key in t.states ==> CanTrack(p, b, e.key)
  {
    hide MadeRoom, MayEvict, OutstandingProbe;
    var room :| AcquireStep(p, b, e.key, e.at, e.granted, room, t);
    RoomIfPossible(p, b.states, e.key, room);
  }

  // ---------------------------------------------------------------- probes

  /** Every outstanding probe is the one its open circuit has in flight. */
  ghost predicate ProbesTracked(b: Breaker)
  {
    forall i: nat, k: Key :: OutstandingProbe(b.leases, i, k) ==>
      && k in b.states && IsOpen(b.states[k]) && b.states[k].probeInFlight
      && forall j: nat :: OutstandingProbe(b.leases, j, k) ==> j == i
  }

  /** The call completes a lease taken while the circuit was closed, with a probe of the same key still out. */
  predicate CompletesBesideProbe(b: Breaker, e: Event)
  {
    && e.Complete? && e.lease < |b.leases| && !b.leases[e.lease].completed && !b.leases[e.lease].isProbe
    && exists i :: 0 <= i < |b.leases| && OutstandingProbe(b.leases, i, b.leases[e.lease].key)
  }

  lemma AcquireKeepsProbesTracked(p: Policy, b: Breaker, e: Event, room: map<Key, Circuit>, t: Breaker)
    requires e.Acquire? && AcquireStep(p, b, e.key, e.at, e.granted, room, t) && ProbesTracked(b)
    ensures ProbesTracked(t)
  {
    hide MadeRoom;
    RoomIsSmaller(p, b.states, e.key, room);
    forall i: nat, k: Key | OutstandingProbe(t.leases, i, k)
      ensures k in t.states && IsOpen(t.states[k]) && t.states[k].probeInFlight
      ensures forall j: nat :: OutstandingProbe(t.leases, j, k) ==> j == i
    {
      assert i < |b.leases| ==> OutstandingProbe(b.leases, i, k);
      forall j: nat | OutstandingProbe(t.leases, j, k) ensures j == i {
        assert j < |b.leases| ==> OutstandingProbe(b.leases, j, k);
      }
    }
  }

  lemma CompleteKeepsProbesTracked(p: Policy, b: Breaker, e: Event)
    requires e.Complete? && e.lease < |b.leases| && ProbesTracked(b) && !CompletesBesideProbe(b, e)
    ensures ProbesTracked(CompleteStep(p, b, e.lease, e.succeeded, e.at))
  {
    var t := CompleteStep(p, b, e.lease, e.succeeded, e.at);
    forall i: nat, k: Key | OutstandingProbe(t.leases, i, k)
      ensures k in t.states && IsOpen(t.states[k]) && t.states[k].probeInFlight
      ensures forall j: nat :: OutstandingProbe(t.leases, j, k) ==> j == i
    {
      assert OutstandingProbe(b.leases, i, k);
      assert !b.leases[e.lease].completed && b.leases[e.lease].isProbe ==> OutstandingProbe(b.leases, e.lease, b.leases[e.lease].key);
      forall j: nat | OutstandingProbe(t.leases, j, k) ensures j == i {
        assert OutstandingProbe(b.leases, j, k);
      }
    }
  }

  lemma CompletingBesideLosesTrack(p: Policy, b: Breaker, e: Event)
    requires ProbesTracked(b) && CompletesBesideProbe(b, e)
    ensures !ProbesTracked(CompleteStep(p, b, e.lease, e.succeeded, e.at))
  {
    var t, key := CompleteStep(p, b, e.lease, e.succeeded, e.at), b.leases[e.lease].key;
    var i: nat :| OutstandingProbe(b.leases, i, key);
    assert OutstandingProbe(t.leases, i, key);
  }

  /** The breaker loses track of its probe exactly when a lease of its closed days is completed beside it. */
  lemma TrackIsLostExactlyHere(p: Policy, b: Breaker, e: Event, t: Breaker)
    requires ProbesTracked(b) && Next(p, b, e, t)
    ensures ProbesTracked(t) <==> !CompletesBesideProbe(b, e)
  {
    hide AcquireStep, CompleteStep, ProbesTracked;
    if e.Acquire? {
      var room :| AcquireStep(p, b, e.key, e.at, e.granted, room, t);
      AcquireKeepsProbesTracked(p, b, e, room, t);
    } else if CompletesBesideProbe(b, e) {
      CompletingBesideLosesTrack(p, b, e);
    } else {
      CompleteKeepsProbesTracked(p, b, e);
    }
  }

  /** Over a run: the breaker keeps track of its probes throughout if and only if no call completes beside one. */
  lemma {:induction false} TrackedExactly(p: Policy, run: seq<Breaker>, events: seq<Event>, n: nat)
    requires IsRun(p, run, events) && n < |run|
    ensures (forall m :: 0 <= m <= n ==> ProbesTracked(run[m])) <==> (forall m :: 0 <= m < n ==> !CompletesBesideProbe(run[m], events[m]))
  {
    hide Next, ProbesTracked, CompletesBesideProbe;
    if n == 0 {
      NoLeasesNoProbes(run[0]);
    } else {
      TrackedExactly(p, run, events, n - 1);
      assert StepAt(p, run, events, n - 1);
      if ProbesTracked(run[n - 1]) {
        TrackIsLostExactlyHere(p, run[n - 1], events[n - 1], run[n]);
      }
    }
  }

  lemma NoLeasesNoProbes(b: Breaker)
    requires b.leases == []
    ensures ProbesTracked(b)
  {
  }

  /** As long as no lease taken while closed completes beside a probe, a key never has two probes outstanding. */
  lemma AtMostOneProbe(p: Policy, run: seq<Breaker>, events: seq<Event>, n: nat, i: nat, j: nat, k: Key)
    requires IsRun(p, run, events) && n < |run|
    requires forall m :: 0 <= m < n ==> !CompletesBesideProbe(run[m], events[m])
    requires OutstandingProbe(run[n].leases, i, k) && OutstandingProbe(run[n].leases, j, k)
    ensures i == j
  {
    hide IsRun, CompletesBesideProbe;
    TrackedExactly(p, run, events, n);
    assert ProbesTracked(run[n]);
  }

  // ---------------------------------------------------------------- what callers can see to

  predicate OutstandingClosed(leases: seq<Lease>, i: nat, key: Key)
  {
    i < |leases| && leases[i] == Lease(key, false, false)
  }

  /** At this time no lease taken while closed is outstanding in a circuit whose cooldown is over. */
  ghost predicate ClosedLeasesAreInTime(p: Policy, b: Breaker, at: int)
  {
    forall i: nat, k: Key :: OutstandingClosed(b.leases, i, k) && k in b.states && IsOpen(b.states[k]) ==>
      at < b.states[k].openedAt.value + p.openMs
  }

  /** No lease taken while closed is outstanding beside a probe. */
  ghost predicate ProbesAreAlone(b: Breaker)
  {
    forall i: nat, j: nat, k: Key :: OutstandingProbe(b.leases, i, k) ==> !OutstandingClosed(b.leases, j, k)
  }

  lemma AcquireKeepsAlone(p: Policy, b: Breaker, e: Event, room: map<Key, Circuit>, t: Breaker)
    requires e.Acquire? && AcquireStep(p, b, e.key, e.at, e.granted, room, t)
    requires ProbesTracked(b) && ProbesAreAlone(b) && ClosedLeasesAreInTime(p, b, e.at)
    ensures ProbesAreAlone(t)
  {
    hide MadeRoom;
    RoomIsSmaller(p, b.states, e.key, room);
    forall i: nat, j: nat, k: Key | OutstandingProbe(t.leases, i, k) ensures !OutstandingClosed(t.leases, j, k) {
      assert i < |b.leases| ==> OutstandingProbe(b.leases, i, k);
      assert j < |b.leases| && OutstandingClosed(t.leases, j, k) ==> OutstandingClosed(b.leases, j, k);
    }
  }

  lemma CompleteKeepsAlone(p: Policy, b: Breaker, e: Event)
    requires e.Complete? && e.lease < |b.leases| && ProbesAreAlone(b)
    ensures ProbesAreAlone(CompleteStep(p, b, e.lease, e.succeeded, e.at)) && !CompletesBesideProbe(b, e)
  {
    var t := CompleteStep(p, b, e.lease, e.succeeded, e.at);
    forall i: nat, j: nat, k: Key | OutstandingProbe(t.leases, i, k) ensures !OutstandingClosed(t.leases, j, k) {
      assert OutstandingProbe(b.leases, i, k);
      assert OutstandingClosed(t.leases, j, k) ==> OutstandingClosed(b.leases, j, k);
    }
    assert !b.leases[e.lease].completed && !b.leases[e.lease].isProbe ==> OutstandingClosed(b.leases, e.lease, b.leases[e.lease].key);
  }

  lemma {:induction false} TimelyCallersNeverCompleteBeside(p: Policy, run: seq<Breaker>, events: seq<Event>, n: nat)
    requires IsRun(p, run, events) && n < |run|
    requires forall m :: 0 <= m < n ==> ClosedLeasesAreInTime(p, run[m], events[m].at)
    ensures ProbesTracked(run[n]) && ProbesAreAlone(run[n])
    ensures forall m :: 0 <= m < n ==> !CompletesBesideProbe(run[m], events[m])
  {
    hide AcquireStep, CompleteStep, ProbesTracked, ClosedLeasesAreInTime, CompletesBesideProbe;
    if n == 0 {
      NoLeasesNoProbes(run[0]);
    } else {
      var b, e, t := run[n - 1], events[n - 1], run[n];
      TimelyCallersNeverCompleteBeside(p, run, events, n - 1);
      assert StepAt(p, run, events, n - 1);
      if e.Acquire? {
        var room :| AcquireStep(p, b, e.key, e.at, e.granted, room, t);
        AcquireKeepsAlone(p, b, e, room, t);
        AcquireCompletesNothing(b, e);
      } else {
        CompleteKeepsAlone(p, b, e);
      }
      TrackIsLostExactlyHere(p, b, e, t);
    }
  }

  lemma AcquireCompletesNothing(b: Breaker, e: Event)
    requires e.Acquire?
    ensures !CompletesBesideProbe(b, e)
  {
  }

  /** If every lease taken while closed is completed before the cooldown ends, at most one probe is outstanding. */
  lemma TimelyCallersGetOneProbe(p: Policy, run: seq<Breaker>, events: seq<Event>, n: nat, i: nat, j: nat, k: Key)
    requires IsRun(p, run, events) && n < |run|
    requires forall m :: 0 <= m < n ==> ClosedLeasesAreInTime(p, run[m], events[m].at)
    requires OutstandingProbe(run[n].leases, i, k) && OutstandingProbe(run[n].leases, j, k)
    ensures i == j
  {
    hide IsRun, CompletesBesideProbe, ClosedLeasesAreInTime;
    TimelyCallersNeverCompleteBeside(p, run, events, n);
    AtMostOneProbe(p, run, events, n, i, j, k);
  }

  // ---------------------------------------------------------------- what they may see otherwise

  /**
   A late failure beside a probe, in any circuit: once the cooldown it starts is over, a second probe is
   granted while the first one is still out.
   */
  lemma LateFailureAllowsSecondProbe(p: Policy, b: Breaker, e: Event, at: int) returns (t: Breaker, i: nat, j: nat)
    requires ProbesTracked(b) && CompletesBesideProbe(b, e) && !e.succeeded && b.clock <= e.at
    requires e.at <= at
    requires var key := b.leases[e.lease].key;
             key in b.states && at >= CompleteStep(p, b, e.lease, false, e.at).states[key].openedAt.value + p.openMs
    ensures Next(p, CompleteStep(p, b, e.lease, false, e.at), Acquire(b.leases[e.lease].key, at, true), t)
    ensures i != j && OutstandingProbe(t.leases, i, b.leases[e.lease].key) && OutstandingProbe(t.leases, j, b.leases[e.lease].key)
  {
    var key, after := b.leases[e.lease].key, CompleteStep(p, b, e.lease, false, e.at);
    i :| OutstandingProbe(b.leases, i, key);
    j := |after.leases|;
    var c := Touched(after.states, key, at);
    t := Breaker(after.states[key := c.(probeInFlight := true)], after.leases + [Lease(key, true, false)], at);
    assert AcquireStep(p, after, key, at, true, after.states, t);
  }

  // ---------------------------------------------------------------- a run with two probes

  const POLICY := Policy(1, 10, 5)
  const K := Key("plugin", "operation")

  function At(clock: int, c: Circuit, leases: seq<Lease>): Breaker
  {
    Breaker(map[K := c], leases, clock)
  }

  function TwoProbesRun(i: int): Breaker
  {
    var open, done, probe := Lease(K, false, false), Lease(K, false, true), Lease(K, true, false);
    match i
    case 0 => Breaker(map[], [], 0)
    case 1 => At(0, Circuit(0, None, false, 0), [open])
    case 2 => At(0, Circuit(0, None, false, 0), [open, open])
    case 3 => At(0, Circuit(1, Some(0), false, 0), [done, open])
    case 4 => At(10, Circuit(1, Some(0), true, 10), [done, open, probe])
    case 5 => At(11, Circuit(2, Some(11), false, 11), [done, done, probe])
    case _ => At(21, Circuit(2, Some(11), true, 21), [done, done, probe, probe])
  }

  function TwoProbesEvent(i: int): Event
  {
    match i
    case 0 => Acquire(K, 0, true)
    case 1 => Acquire(K, 0, true)
    case 2 => Complete(0, false, 0)
    case 3 => Acquire(K, 10, true)
    case 4 => Complete(1, false, 11)
    case _ => Acquire(K, 21, true)
  }

  lemma TwoLeasesAreTaken()
    ensures Next(POLICY, TwoProbesRun(0), TwoProbesEvent(0), TwoProbesRun(1))
    ensures Next(POLICY, TwoProbesRun(1), TwoProbesEvent(1), TwoProbesRun(2))
  {
    assert AcquireStep(POLICY, TwoProbesRun(0), K, 0, true, map[], TwoProbesRun(1));
    assert AcquireStep(POLICY, TwoProbesRun(1), K, 0, true, TwoProbesRun(1).states, TwoProbesRun(2));
  }

  lemma OneFailsAndProbes()
    ensures Next(POLICY, TwoProbesRun(2), TwoProbesEvent(2), TwoProbesRun(3))
    ensures Next(POLICY, TwoProbesRun(3), TwoProbesEvent(3), TwoProbesRun(4))
  {
    assert TwoProbesRun(2).leases[0 := Lease(K, false, true)] == TwoProbesRun(3).leases;
    assert AcquireStep(POLICY, TwoProbesRun(3), K, 10, true, TwoProbesRun(3).states, TwoProbesRun(4));
  }

  lemma TheOtherFailsLate()
    ensures Next(POLICY, TwoProbesRun(4), TwoProbesEvent(4), TwoProbesRun(5))
    ensures Next(POLICY, TwoProbesRun(5), TwoProbesEvent(5), TwoProbesRun(6))
  {
    assert TwoProbesRun(4).leases[1 := Lease(K, false, true)] == TwoProbesRun(5).leases;
    assert AcquireStep(POLICY, TwoProbesRun(5), K, 21, true, TwoProbesRun(5).states, TwoProbesRun(6));
  }

  /** From an empty breaker to two outstanding probes of one operation. */
  lemma TwoProbesCanBeOutstanding()
    ensures IsRun(POLICY, seq(7, TwoProbesRun), seq(6, TwoProbesEvent))
    ensures OutstandingProbe(TwoProbesRun(6).leases, 2, K) && OutstandingProbe(TwoProbesRun(6).leases, 3, K)
  {
    hide Next;
    var run, events := seq(7, TwoProbesRun), seq(6, TwoProbesEvent);
    TwoLeasesAreTaken();
    OneFailsAndProbes();
    TheOtherFailsLate();
    forall i | 0 <= i < 6 ensures StepAt(POLICY, run, events, i) {
      assert run[i] == TwoProbesRun(i) && run[i + 1] == TwoProbesRun(i + 1) && events[i] == TwoProbesEvent(i);
    }
  }

  // ---------------------------------------------------------------- the class

  class Controller {
    const policy: Policy
    var states: map<Key, Circuit>
    /** The leases handed out, each with the flag that makes completing it idempotent. */
    var leases: seq<Lease>
    ghost var clock: int

    ghost function State(): Breaker
      reads this
    {
      Breaker(states, leases, clock)
    }

    constructor (policy: Policy)
      requires policy.Valid()
      ensures this.policy == policy && State() == Breaker(map[], [], 0) && Inv(policy, State())
    {
      this.policy, states, leases, clock := policy, map[], [], 0;
    }

    /** `evictClosedState` */
    method EvictClosedState()
      modifies this`states
      ensures Evicted(old(states), states)
    {
      var oldest: Option<Key> := None;
      var pending := states.Keys;
      while pending != {}
        invariant pending <= states.Keys
        invariant oldest.None? ==> forall k :: k in states && k !in pending ==> !MayEvict(states, k)
        invariant oldest.Some? ==> MayEvict(states, oldest.value)
                                   && forall k :: k !in pending && MayEvict(states, k) ==> states[oldest.value].touchedAt <= states[k].touchedAt
      {
        var k :| k in pending;
        if MayEvict(states, k) && (oldest.None? || states[k].touchedAt < states[oldest.value].touchedAt) {
          oldest := Some(k);
        }
        pending := pending - {k};
      }
      if oldest.Some? {
        states := states - {oldest.value};
      }
    }

    method Acquire(key: Key, at: int) returns (lease: Option<nat>)
      requires policy.Valid() && Inv(policy, State()) && clock <= at
      modifies this
      ensures Next(policy, old(State()), Event.Acquire(key, at, lease.Some?), State())
      ensures Inv(policy, State())
      ensures lease.Some? ==> lease.value == |old(leases)|
    {
      hide Inv, Evicted, OutstandingProbe;
      ghost var before := State();
      clock := at;
      if key !in states && |states| >= policy.maxTracked {
        EvictClosedState();
      }
      ghost var room := states;
      if key !in states && |states| >= policy.maxTracked {
        lease := None;
      } else {
        var c := Touched(states, key, at);
        if Refuses(policy, c, at) {
          states := states[key := c];
          lease := None;
        } else {
          states := states[key := if IsOpen(c) then c.(probeInFlight := true) else c];
          lease := Some(|leases|);
          leases := leases + [Lease(key, IsOpen(c), false)];
        }
      }
      assert MadeRoom(policy, before.states, key, room);
      assert AcquireStep(policy, before, key, at, lease.Some?, room, State());
      NextKeepsInv(policy, before, Event.Acquire(key, at, lease.Some?), State());
    }

    method Complete(id: nat, succeeded: bool, at: int)
      requires policy.Valid() && Inv(policy, State()) && clock <= at && id < |leases|
      modifies this
      ensures Next(policy, old(State()), Event.Complete(id, succeeded, at), State())
      ensures Inv(policy, State())
    {
      hide Inv;
      ghost var before := State();
      clock := at;
      var lease := leases[id];
      if !lease.completed {
        leases := leases[id := lease.(completed := true)];
        if lease.key in states {
          if succeeded {
            states := states - {lease.key};
          } else {
            states := states[lease.key := AfterFailure(policy, states[lease.key], lease.isProbe, at)];
          }
        }
      }
      NextKeepsInv(policy, before, Event.Complete(id, succeeded, at), State());
    }
  }
}
