/**
 The gateway's admission control (packages/plugin-runtime/src/gateway.ts:239-352), with the clock as an
 argument that does not go backwards. A key is the list of parts the source hashes, so distinct lists are
 distinct keys here.

 The controller keeps one bucket per key and one counter per operation. What they mean is said by a log of
 all admissions and the list of all leases.
 */
module Admission {
  import opened Results

  datatype Policy = Policy(windowMs: int, maxPerSubject: int, maxPerPlugin: int, maxConcurrent: int, maxTracked: int)
  {
    /** What the constructor checks. */
    predicate Valid()
    {
      windowMs > 0 && maxPerSubject > 0 && maxPerPlugin > 0 && maxConcurrent > 0 && maxTracked > 0
    }

    /** The start of the aligned window of a time. */
    function WindowOf(at: int): int
      requires Valid()
    {
      at / windowMs * windowMs
    }

    function CapOf(k: Key): int
    {
      if k.SubjectKey? then maxPerSubject else maxPerPlugin
    }
  }

  datatype Input = Input(pluginId: string, operationId: string, tenantRef: Option<string>, subjectRef: string)
  {
    function Subject(): Key
    {
      SubjectKey(pluginId, operationId, if tenantRef.Some? then tenantRef.value else "deployment", subjectRef)
    }

    function Plugin(): Key
    {
      PluginKey(pluginId)
    }

    function Operation(): OperationKey
    {
      OperationKey(pluginId, operationId)
    }
  }

  datatype Key = SubjectKey(pluginId: string, operationId: string, tenant: string, subjectRef: string) | PluginKey(pluginId: string)

  datatype OperationKey = OperationKey(pluginId: string, operationId: string)

  datatype Bucket = Bucket(start: int, count: nat)

  datatype Outcome = Admitted(lease: nat) | RateLimited | ConcurrencyLimited

  datatype Lease = Lease(operation: OperationKey, released: bool)

  // ---------------------------------------------------------------- what was admitted

  datatype Admission = Admission(at: int, input: Input)

  predicate Charges(a: Admission, k: Key)
  {
    k == a.input.Subject() || k == a.input.Plugin()
  }

  /** Admissions charged to a key at times in `[from, to)`. */
  function CountBetween(log: seq<Admission>, k: Key, from: int, to: int): nat
  {
    if log == [] then 0 else
      var last := log[|log| - 1];
      CountBetween(log[..|log| - 1], k, from, to) + (if Charges(last, k) && from <= last.at < to then 1 else 0)
  }

  function CountInWindow(p: Policy, log: seq<Admission>, k: Key, start: int): nat
  {
    CountBetween(log, k, start, start + p.windowMs)
  }

  lemma CountOfAppend(log: seq<Admission>, a: Admission, k: Key, from: int, to: int)
    ensures CountBetween(log + [a], k, from, to)
              == CountBetween(log, k, from, to) + (if Charges(a, k) && from <= a.at < to then 1 else 0)
  {
    assert (log + [a])[..|log|] == log;
  }

  lemma {:induction false} NothingBeyondTheClock(log: seq<Admission>, k: Key, from: int, to: int)
    requires forall a :: a in log ==> a.at < from
    ensures CountBetween(log, k, from, to) == 0
  {
    if log != [] {
      assert log[|log| - 1] in log;
      NothingBeyondTheClock(log[..|log| - 1], k, from, to);
    }
  }

  lemma {:induction false} CountSplits(log: seq<Admission>, k: Key, from: int, middle: int, to: int)
    requires from <= middle <= to
    ensures CountBetween(log, k, from, to) == CountBetween(log, k, from, middle) + CountBetween(log, k, middle, to)
  {
    if log != [] {
      CountSplits(log[..|log| - 1], k, from, middle, to);
    }
  }

  lemma {:induction false} CountGrows(log: seq<Admission>, k: Key, from: int, to: int, from': int, to': int)
    requires from' <= from && to <= to'
    ensures CountBetween(log, k, from, to) <= CountBetween(log, k, from', to')
  {
    if log != [] {
      CountGrows(log[..|log| - 1], k, from, to, from', to');
    }
  }

  /** No aligned window holds more admissions for a key than its cap. */
  ghost predicate WithinCaps(p: Policy, log: seq<Admission>)
    requires p.Valid()
  {
    forall k: Key, start: int :: start == p.WindowOf(start) ==> CountInWindow(p, log, k, start) <= p.CapOf(k)
  }

  lemma WindowFacts(p: Policy, at: int)
    requires p.Valid()
    ensures p.WindowOf(at) <= at < p.WindowOf(at) + p.windowMs
    ensures p.WindowOf(p.WindowOf(at)) == p.WindowOf(at)
    ensures p.WindowOf(p.WindowOf(at) + p.windowMs) == p.WindowOf(at) + p.windowMs
  {
    var q := at / p.windowMs;
    Quotient(q * p.windowMs, p.windowMs, q, 0);
    Quotient(q * p.windowMs + p.windowMs, p.windowMs, q + 1, 0);
  }

  lemma WindowIsUnique(p: Policy, start: int, at: int)
    requires p.Valid() && start == p.WindowOf(start) && start <= at < start + p.windowMs
    ensures p.WindowOf(at) == start
  {
    var q := start / p.windowMs;
    assert at == q * p.windowMs + (at - start);
    assert at / p.windowMs == q by { Quotient(at, p.windowMs, q, at - start); }
  }

  lemma Quotient(a: int, w: int, q: int, r: int)
    requires w > 0 && a == q * w + r && 0 <= r < w
    ensures a / w == q
  {
    MultipleIsFar(a / w - q, w);
  }

  lemma MultipleIsFar(d: int, w: int)
    requires w > 0
    ensures d >= 1 ==> d * w >= w
    ensures d <= -1 ==> d * w <= -w
  {
  }

  /** Any interval as long as a window, aligned or not, admits at most twice the cap of a key. */
  lemma AnyIntervalAdmitsTwiceTheCap(p: Policy, log: seq<Admission>, k: Key, from: int)
    requires p.Valid() && WithinCaps(p, log)
    ensures CountBetween(log, k, from, from + p.windowMs) <= 2 * p.CapOf(k)
  {
    var start := p.WindowOf(from);
    WindowFacts(p, from);
    CountGrows(log, k, from, from + p.windowMs, start, start + p.windowMs + p.windowMs);
    CountSplits(log, k, start, start + p.windowMs, start + p.windowMs + p.windowMs);
    assert CountInWindow(p, log, k, start) <= p.CapOf(k);
    assert CountInWindow(p, log, k, start + p.windowMs) <= p.CapOf(k);
  }

  // ---------------------------------------------------------------- outstanding leases

  function Outstanding(leases: seq<Lease>, o: OperationKey): nat
  {
    if leases == [] then 0 else
      var last := leases[|leases| - 1];
      Outstanding(leases[..|leases| - 1], o) + (if last == Lease(o, false) then 1 else 0)
  }

  lemma OutstandingOfAppend(leases: seq<Lease>, l: Lease, o: OperationKey)
    ensures Outstanding(leases + [l], o) == Outstanding(leases, o) + (if l == Lease(o, false) then 1 else 0)
  {
    assert (leases + [l])[..|leases|] == leases;
  }

  /** Releasing a lease takes one off the count of its operation and leaves the others alone. */
  lemma {:induction false} OutstandingOfRelease(leases: seq<Lease>, i: nat, o: OperationKey)
    requires i < |leases| && !leases[i].released
    ensures Outstanding(leases, o)
              == Outstanding(leases[i := leases[i].(released := true)], o) + (if leases[i].operation == o then 1 else 0)
  {
    var n := |leases| - 1;
    var after := leases[i := leases[i].(released := true)];
    if i < n {
      assert after[..n] == leases[..n][i := leases[..n][i].(released := true)];
      OutstandingOfRelease(leases[..n], i, o);
    } else {
      assert after[..n] == leases[..n];
    }
  }

  // ---------------------------------------------------------------- the decision

  function Live(p: Policy, buckets: map<Key, Bucket>, now: int): map<Key, Bucket>
  {
    map k | k in buckets && buckets[k].start + p.windowMs > now :: buckets[k]
  }

  predicate HasRoom(p: Policy, tracked: set<Key>, input: Input)
  {
    |tracked| + 2 <= p.maxTracked || (input.Subject() in tracked && input.Plugin() in tracked)
  }

  /** The outcome, told from everything that was ever admitted rather than from the counters. */
  function Decision(p: Policy, log: seq<Admission>, leases: seq<Lease>, tracked: set<Key>, now: int, input: Input): Outcome
    requires p.Valid()
  {
    var start := p.WindowOf(now);
    if CountInWindow(p, log, input.Subject(), start) >= p.maxPerSubject
       || CountInWindow(p, log, input.Plugin(), start) >= p.maxPerPlugin then RateLimited
    else if Outstanding(leases, input.Operation()) >= p.maxConcurrent then ConcurrencyLimited
    else if !HasRoom(p, tracked, input) then RateLimited
    else Admitted(|leases|)
  }

  /** A request is admitted exactly when both keys are below their caps, and the operation and the buckets have room. */
  lemma AdmittedExactly(p: Policy, log: seq<Admission>, leases: seq<Lease>, tracked: set<Key>, now: int, input: Input)
    requires p.Valid()
    ensures var start, outcome := p.WindowOf(now), Decision(p, log, leases, tracked, now, input);
            var belowCaps := CountBetween(log, input.Subject(), start, start + p.windowMs) < p.maxPerSubject
                             && CountBetween(log, input.Plugin(), start, start + p.windowMs) < p.maxPerPlugin;
            var operationHasRoom := Outstanding(leases, input.Operation()) < p.maxConcurrent;
            && (outcome.Admitted? <==>
                  belowCaps && operationHasRoom
                  && (|tracked| + 2 <= p.maxTracked || (input.Subject() in tracked && input.Plugin() in tracked)))
            && (outcome.ConcurrencyLimited? <==> belowCaps && !operationHasRoom)
            && (outcome.Admitted? ==> outcome.lease == |leases|)
  {
    hide CountBetween, Outstanding;
  }

  /** Requests share a subject's bucket exactly when plugin, operation, tenant and subject are the same; no tenant is one of its own name. */
  lemma SubjectsAreShared(a: Input, b: Input)
    ensures a.Subject() == b.Subject() <==>
              a.pluginId == b.pluginId && a.operationId == b.operationId && a.subjectRef == b.subjectRef
              && (a.tenantRef == b.tenantRef || {a.tenantRef, b.tenantRef} == {None, Some("deployment")})
    ensures a.Plugin() == b.Plugin() <==> a.pluginId == b.pluginId
    ensures a.Operation() == b.Operation() <==> a.pluginId == b.pluginId && a.operationId == b.operationId
    ensures a.Subject() != b.Plugin()
  {
  }

  // ---------------------------------------------------------------- the controller's state

  /** A bucket counts the admissions of its own window. */
  ghost predicate BucketsMatch(p: Policy, log: seq<Admission>, buckets: map<Key, Bucket>, clock: int)
    requires p.Valid()
  {
    && (forall k :: k in buckets ==>
          && buckets[k].start == p.WindowOf(buckets[k].start) && buckets[k].start <= clock
          && 0 < buckets[k].count == CountInWindow(p, log, k, buckets[k].start))
    && (forall k: Key :: CountInWindow(p, log, k, p.WindowOf(clock)) > 0 ==>
          k in buckets && buckets[k].start == p.WindowOf(clock))
  }

  ghost predicate CountersMatch(p: Policy, leases: seq<Lease>, concurrent: map<OperationKey, nat>)
  {
    forall o: OperationKey ::
      && (if o in concurrent then concurrent[o] > 0 && concurrent[o] == Outstanding(leases, o) else Outstanding(leases, o) == 0)
      && Outstanding(leases, o) <= p.maxConcurrent
  }

  ghost predicate Earlier(log: seq<Admission>, clock: int)
  {
    forall a :: a in log ==> a.at <= clock
  }

  /** After the expired buckets are gone, each bucket left is the current window's, and none is missing. */
  lemma LiveBucketsAreCurrent(p: Policy, log: seq<Admission>, buckets: map<Key, Bucket>, clock: int, now: int)
    requires p.Valid() && Earlier(log, clock) && clock <= now && BucketsMatch(p, log, buckets, clock)
    ensures BucketsMatch(p, log, Live(p, buckets, now), now)
    ensures forall k :: k in Live(p, buckets, now) ==> Live(p, buckets, now)[k].start == p.WindowOf(now)
  {
    var live := Live(p, buckets, now);
    forall k | k in live ensures live[k].start == p.WindowOf(now) {
      WindowIsUnique(p, live[k].start, now);
    }
    WindowFacts(p, clock);
    WindowFacts(p, now);
    forall k: Key | CountInWindow(p, log, k, p.WindowOf(now)) > 0 ensures k in live {
      if p.WindowOf(now) > clock {
        NothingBeyondTheClock(log, k, p.WindowOf(now), p.WindowOf(now) + p.windowMs);
      } else {
        WindowIsUnique(p, p.WindowOf(now), clock);
      }
    }
  }

  /** The keys that are tracked when a request is decided on are those charged in the current window. */
  lemma TrackedAreTheCharged(p: Policy, log: seq<Admission>, buckets: map<Key, Bucket>, clock: int, now: int, k: Key)
    requires p.Valid() && Earlier(log, clock) && clock <= now && BucketsMatch(p, log, buckets, clock)
    ensures k in Live(p, buckets, now) <==> CountInWindow(p, log, k, p.WindowOf(now)) > 0
  {
    hide CountInWindow, Earlier;
    LiveBucketsAreCurrent(p, log, buckets, clock, now);
  }

  function Charge(buckets: map<Key, Bucket>, k: Key, start: int): map<Key, Bucket>
  {
    if k in buckets && buckets[k].start == start then buckets[k := Bucket(start, buckets[k].count + 1)]
    else buckets[k := Bucket(start, 1)]
  }

  /** What one more admission adds to the count of each key in the current window. */
  lemma CountsAfterAdmission(p: Policy, log: seq<Admission>, now: int, input: Input, k: Key)
    requires p.Valid()
    ensures var start := p.WindowOf(now);
            CountInWindow(p, log + [Admission(now, input)], k, start)
              == CountInWindow(p, log, k, start) + (if Charges(Admission(now, input), k) then 1 else 0)
  {
    WindowFacts(p, now);
    CountOfAppend(log, Admission(now, input), k, p.WindowOf(now), p.WindowOf(now) + p.windowMs);
  }

  /** A bucket of the current window after both keys are charged. */
  lemma ChargedBucket(live: map<Key, Bucket>, a: Key, b: Key, start: int, k: Key)
    requires a != b && forall k :: k in live ==> live[k].start == start
    ensures var charged := Charge(Charge(live, a, start), b, start);
            && (k in charged <==> k in live || k == a || k == b)
            && (k in charged ==> charged[k].start == start)
            && (k in charged ==> charged[k].count == (if k in live then live[k].count else 0) + (if k == a || k == b then 1 else 0))
  {
  }

  /** Charging both keys of an admitted request keeps the buckets in step with the log. */
  lemma ChargingKeepsBuckets(p: Policy, log: seq<Admission>, live: map<Key, Bucket>, now: int, input: Input)
    requires p.Valid() && Earlier(log, now) && BucketsMatch(p, log, live, now)
    requires forall k :: k in live ==> live[k].start == p.WindowOf(now)
    ensures BucketsMatch(p, log + [Admission(now, input)],
                         Charge(Charge(live, input.Subject(), p.WindowOf(now)), input.Plugin(), p.WindowOf(now)), now)
  {
    hide CountInWindow, Charge, Earlier;
    var after, start := log + [Admission(now, input)], p.WindowOf(now);
    var charged := Charge(Charge(live, input.Subject(), start), input.Plugin(), start);
    WindowFacts(p, now);
    forall k | k in charged ensures charged[k].start == start && 0 < charged[k].count == CountInWindow(p, after, k, start) {
      ChargedBucket(live, input.Subject(), input.Plugin(), start, k);
      CountsAfterAdmission(p, log, now, input, k);
    }
    forall k: Key | CountInWindow(p, after, k, start) > 0 ensures k in charged {
      ChargedBucket(live, input.Subject(), input.Plugin(), start, k);
      CountsAfterAdmission(p, log, now, input, k);
    }
  }

  lemma AdmittingKeepsCaps(p: Policy, log: seq<Admission>, now: int, input: Input)
    requires p.Valid() && WithinCaps(p, log)
    requires CountInWindow(p, log, input.Subject(), p.WindowOf(now)) < p.maxPerSubject
    requires CountInWindow(p, log, input.Plugin(), p.WindowOf(now)) < p.maxPerPlugin
    ensures WithinCaps(p, log + [Admission(now, input)])
  {
    var a := Admission(now, input);
    forall k: Key, start: int | start == p.WindowOf(start) ensures CountInWindow(p, log + [a], k, start) <= p.CapOf(k) {
      CountOfAppend(log, a, k, start, start + p.windowMs);
      assert CountInWindow(p, log, k, start) <= p.CapOf(k);
      if start <= now < start + p.windowMs {
        WindowIsUnique(p, start, now);
      }
    }
  }

  lemma ChargingTracksOneMore(buckets: map<Key, Bucket>, k: Key, start: int)
    ensures Charge(buckets, k, start).Keys == buckets.Keys + {k}
    ensures |Charge(buckets, k, start)| == |buckets| + (if k in buckets then 0 else 1)
  {
    assert Charge(buckets, k, start).Keys == buckets.Keys + {k};
    if k in buckets { assert buckets.Keys + {k} == buckets.Keys; }
  }

  lemma SubsetIsSmaller(a: set<Key>, b: set<Key>)
    requires a <= b
    ensures |a| <= |b|
  {
    assert b == a + (b - a);
  }

  class Controller {
    const policy: Policy
    var rateBuckets: map<Key, Bucket>
    var concurrent: map<OperationKey, nat>
    /** The leases handed out, each with the flag its `release` sets. */
    var leases: seq<Lease>
    ghost var log: seq<Admission>
    ghost var clock: int

    ghost predicate Valid()
      reads this
    {
      && policy.Valid() && Earlier(log, clock) && WithinCaps(policy, log)
      && BucketsMatch(policy, log, rateBuckets, clock)
      && CountersMatch(policy, leases, concurrent)
      && |rateBuckets| <= policy.maxTracked
    }

    constructor (policy: Policy)
      requires policy.Valid()
      ensures Valid() && this.policy == policy && log == [] && leases == []
    {
      this.policy := policy;
      rateBuckets, concurrent, leases, log, clock := map[], map[], [], [], 0;
    }

    /** `removeExpiredBuckets` */
    method RemoveExpiredBuckets(now: int)
      modifies this`rateBuckets
      ensures rateBuckets == Live(policy, old(rateBuckets), now)
    {
      var pending := rateBuckets.Keys;
      while pending != {}
        invariant pending <= rateBuckets.Keys <= old(rateBuckets).Keys
        invariant forall k :: k in rateBuckets ==> rateBuckets[k] == old(rateBuckets)[k]
        invariant forall k :: k in old(rateBuckets) && k !in pending ==>
                    (k in rateBuckets <==> old(rateBuckets)[k].start + policy.windowMs > now)
      {
        var k :| k in pending;
        if rateBuckets[k].start + policy.windowMs <= now {
          rateBuckets := rateBuckets - {k};
        }
        pending := pending - {k};
      }
    }

    function BucketCount(k: Key, start: int): nat
      reads this
    {
      if k in rateBuckets && rateBuckets[k].start == start then rateBuckets[k].count else 0
    }

    function ConcurrentCount(o: OperationKey): nat
      reads this
    {
      if o in concurrent then concurrent[o] else 0
    }

    /** The three checks of `acquire` on the counters come out as the decision on the log does. */
    ghost predicate Reflects(now: int)
      reads this
      requires policy.Valid()
    {
      && (forall k: Key :: BucketCount(k, policy.WindowOf(now)) == CountInWindow(policy, log, k, policy.WindowOf(now)))
      && (forall o: OperationKey :: ConcurrentCount(o) == Outstanding(leases, o))
    }

    /** Time moves on to `now`, and expired buckets go. */
    method Advance(now: int)
      requires Valid() && clock <= now
      modifies this`rateBuckets, this`clock
      ensures Valid() && clock == now && rateBuckets == Live(policy, old(rateBuckets), now)
      ensures forall k :: k in rateBuckets ==> rateBuckets[k].start == policy.WindowOf(now)
    {
      hide WithinCaps, Earlier, CountInWindow, BucketsMatch, CountersMatch;
      LiveBucketsAreCurrent(policy, log, rateBuckets, clock, now);
      SubsetIsSmaller(Live(policy, rateBuckets, now).Keys, rateBuckets.Keys);
      LaterClock(log, clock, now);
      RemoveExpiredBuckets(now);
      clock := now;
    }

    /** Charge both buckets and the operation's counter, and hand out a lease. */
    method Admit(input: Input, now: int) returns (lease: nat)
      requires Valid() && clock == now && HasRoom(policy, rateBuckets.Keys, input)
      requires forall k :: k in rateBuckets ==> rateBuckets[k].start == policy.WindowOf(now)
      requires CountInWindow(policy, log, input.Subject(), policy.WindowOf(now)) < policy.maxPerSubject
      requires CountInWindow(policy, log, input.Plugin(), policy.WindowOf(now)) < policy.maxPerPlugin
      requires Outstanding(leases, input.Operation()) < policy.maxConcurrent
      modifies this`rateBuckets, this`concurrent, this`leases, this`log
      ensures Valid() && lease == |old(leases)|
      ensures log == old(log) + [Admission(now, input)]
      ensures leases == old(leases) + [Lease(input.Operation(), false)]
    {
      hide WithinCaps, Earlier, CountInWindow, Outstanding, BucketsMatch;
      var start := policy.WindowOf(now);
      ChargingKeepsBuckets(policy, log, rateBuckets, now, input);
      AdmittingKeepsCaps(policy, log, now, input);
      ChargingTracksOneMore(rateBuckets, input.Subject(), start);
      ChargingTracksOneMore(Charge(rateBuckets, input.Subject(), start), input.Plugin(), start);
      LeasingKeepsCounters(policy, leases, concurrent, input.Operation());
      AdmittedNow(log, now, input);
      rateBuckets := Charge(rateBuckets, input.Subject(), start);
      rateBuckets := Charge(rateBuckets, input.Plugin(), start);
      concurrent := concurrent[input.Operation() := ConcurrentCount(input.Operation()) + 1];
      lease := |leases|;
      leases := leases + [Lease(input.Operation(), false)];
      log := log + [Admission(now, input)];
    }

    method Acquire(input: Input, now: int) returns (r: Outcome)
      requires Valid() && clock <= now
      modifies this
      ensures Valid() && clock == now
      ensures r == Decision(policy, old(log), old(leases), Live(policy, old(rateBuckets), now).Keys, now, input)
      ensures log == if r.Admitted? then old(log) + [Admission(now, input)] else old(log)
      ensures leases == if r.Admitted? then old(leases) + [Lease(input.Operation(), false)] else old(leases)
    {
      hide WithinCaps, Earlier, CountInWindow, Outstanding, BucketsMatch, CountersMatch, Live;
      Advance(now);
      CountersReflect(now);
      var start := policy.WindowOf(now);
      if BucketCount(input.Subject(), start) >= policy.maxPerSubject || BucketCount(input.Plugin(), start) >= policy.maxPerPlugin {
        return RateLimited;
      }
      if ConcurrentCount(input.Operation()) >= policy.maxConcurrent {
        return ConcurrencyLimited;
      }
      if |rateBuckets| + 2 > policy.maxTracked && (input.Subject() !in rateBuckets || input.Plugin() !in rateBuckets) {
        return RateLimited;
      }
      var lease := Admit(input, now);
      r := Admitted(lease);
    }

    lemma CountersReflect(now: int)
      requires policy.Valid() && BucketsMatch(policy, log, rateBuckets, now) && CountersMatch(policy, leases, concurrent)
      ensures Reflects(now)
    {
    }

    /** The `release` of lease `id`; releasing twice has no effect. */
    method Release(id: nat)
      requires Valid() && id < |leases|
      modifies this`concurrent, this`leases
      ensures Valid()
      ensures leases == old(leases)[id := old(leases)[id].(released := true)]
    {
      hide WithinCaps, Earlier, BucketsMatch, Outstanding;
      if leases[id].released {
        assert leases[id := leases[id].(released := true)] == leases;
        return;
      }
      var o := leases[id].operation;
      ReleasingKeepsCounters(policy, leases, concurrent, id);
      var count := ConcurrentCount(o);
      if count <= 1 {
        concurrent := concurrent - {o};
      } else {
        concurrent := concurrent[o := count - 1];
      }
      leases := leases[id := leases[id].(released := true)];
    }
  }

  lemma LaterClock(log: seq<Admission>, clock: int, now: int)
    requires Earlier(log, clock) && clock <= now
    ensures Earlier(log, now)
  {
  }

  lemma AdmittedNow(log: seq<Admission>, now: int, input: Input)
    requires Earlier(log, now)
    ensures Earlier(log + [Admission(now, input)], now)
  {
  }

  lemma LeasingKeepsCounters(p: Policy, leases: seq<Lease>, concurrent: map<OperationKey, nat>, o: OperationKey)
    requires CountersMatch(p, leases, concurrent) && Outstanding(leases, o) < p.maxConcurrent
    ensures CountersMatch(p, leases + [Lease(o, false)], concurrent[o := Outstanding(leases, o) + 1])
  {
    forall other: OperationKey
      ensures Outstanding(leases + [Lease(o, false)], other) == Outstanding(leases, other) + (if other == o then 1 else 0)
    {
      OutstandingOfAppend(leases, Lease(o, false), other);
    }
  }

  lemma ReleasingKeepsCounters(p: Policy, leases: seq<Lease>, concurrent: map<OperationKey, nat>, id: nat)
    requires CountersMatch(p, leases, concurrent) && id < |leases| && !leases[id].released
    ensures leases[id].operation in concurrent
    ensures var o := leases[id].operation;
            CountersMatch(p, leases[id := leases[id].(released := true)],
                          if concurrent[o] <= 1 then concurrent - {o} else concurrent[o := concurrent[o] - 1])
  {
    forall o: OperationKey
      ensures Outstanding(leases, o)
                == Outstanding(leases[id := leases[id].(released := true)], o) + (if leases[id].operation == o then 1 else 0)
    {
      OutstandingOfRelease(leases, id, o);
    }
  }
}
