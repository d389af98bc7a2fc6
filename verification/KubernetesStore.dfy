/**
 The execution record in one ConfigMap (packages/plugin-installer/src/kubernetesExecutionStore.ts:302-366,
 479-663): clients read it, compute a new record on their own copy, and replace it only if its
 `resourceVersion` is still the one they read. The interleavings of any number of clients refine the atomic
 store of `ExecutionStore`.
 */
module KubernetesStore {
  import opened Results
  import opened PlanHash
  import opened Execution
  import opened ExecutionStore

  datatype ConfigMap = ConfigMap(resourceVersion: nat, stored: Stored)

  function StoredIn(c: Option<ConfigMap>): Option<Stored>
  {
    if c.None? then None else Some(c.value.stored)
  }

  /** A client between its read and its write. */
  datatype Client = Client(request: Request, planRead: Option<Envelope>, snapshot: Option<ConfigMap>)

  datatype System = System(
    cluster: Option<ConfigMap>,
    nextVersion: nat,
    clients: map<nat, Client>,
    log: seq<CommitEntry>)

  datatype Event =
    | Read(client: nat, request: Request, planRead: Option<Envelope>)
    | Put(client: nat)
    | Refuse(client: nat)
    | Return(client: nat)
    | Crash(client: nat)

  /** `create` succeeds when there is no ConfigMap, `replace` when its version is the one that was read. */
  predicate ClusterAccepts(cluster: Option<ConfigMap>, snapshot: Option<ConfigMap>)
  {
    if snapshot.None? then cluster.None?
    else cluster.Some? && cluster.value.resourceVersion == snapshot.value.resourceVersion
  }

  function ClientEffect(sha: Digest, c: Client): Result<Effect, ErrorCode>
  {
    Apply(sha, c.planRead, StoredIn(c.snapshot), c.request)
  }

  predicate WantsWrite(sha: Digest, c: Client)
  {
    ClientEffect(sha, c).Ok? && ClientEffect(sha, c).value.Write?
  }

  /** The commit a client believes it makes: computed from the record it read, not from the one it replaces. */
  function CommitOf(sha: Digest, c: Client): CommitEntry
    requires WantsWrite(sha, c)
  {
    CommitEntry(c.planRead, c.request, StoredIn(c.snapshot), ClientEffect(sha, c).value.stored)
  }

  ghost predicate Next(sha: Digest, s: System, e: Event, t: System)
  {
    match e
    case Read(id, request, planRead) =>
      t == s.(clients := s.clients[id := Client(request, planRead, s.cluster)])
    case Put(id) =>
      && id in s.clients && WantsWrite(sha, s.clients[id]) && ClusterAccepts(s.cluster, s.clients[id].snapshot)
      && t == System(Some(ConfigMap(s.nextVersion, CommitOf(sha, s.clients[id]).after)), s.nextVersion + 1,
                     s.clients - {id}, s.log + [CommitOf(sha, s.clients[id])])
    case Refuse(id) =>
      && id in s.clients && WantsWrite(sha, s.clients[id]) && !ClusterAccepts(s.cluster, s.clients[id].snapshot)
      && t == s.(clients := s.clients - {id})
    case Return(id) =>
      id in s.clients && !WantsWrite(sha, s.clients[id]) && t == s.(clients := s.clients - {id})
    case Crash(id) =>
      id in s.clients && t == s.(clients := s.clients - {id})
  }

  // ---------------------------------------------------------------- the invariant

  /** A version names one record: a snapshot of the version in force is the record in force. */
  predicate SnapshotIsSound(s: System, snapshot: Option<ConfigMap>)
  {
    && (snapshot.Some? ==> snapshot.value.resourceVersion < s.nextVersion)
    && (snapshot.Some? && s.cluster.Some? && snapshot.value.resourceVersion == s.cluster.value.resourceVersion ==>
          snapshot == s.cluster)
  }

  ghost predicate Inv(sha: Digest, s: System)
  {
    && AtomicRun(sha, s.log)
    && StoredIn(s.cluster) == LastRecord(s.log)
    && SnapshotIsSound(s, s.cluster)
    && forall id :: id in s.clients ==> SnapshotIsSound(s, s.clients[id].snapshot)
  }

  lemma CommitIsStep(sha: Digest, c: Client)
    requires WantsWrite(sha, c)
    ensures IsStep(sha, CommitOf(sha, c))
  {
    hide Apply;
  }

  lemma NextKeepsInv(sha: Digest, s: System, e: Event, t: System)
    requires Inv(sha, s) && Next(sha, s, e, t)
    ensures Inv(sha, t)
  {
    hide Apply, AtomicRun;
    if e.Put? {
      var c := s.clients[e.client];
      assert SnapshotIsSound(s, c.snapshot);
      CommitIsStep(sha, c);
      AppendKeepsRun(sha, s.log, CommitOf(sha, c));
    }
  }

  // ---------------------------------------------------------------- runs

  ghost predicate Connected(sha: Digest, run: seq<System>, events: seq<Event>, i: int)
    requires 0 <= i < |events| && |run| == |events| + 1
  {
    Next(sha, run[i], events[i], run[i + 1])
  }

  /** A run from an empty cluster, with the events that connect its states. */
  ghost predicate IsRun(sha: Digest, run: seq<System>, events: seq<Event>)
  {
    && |run| == |events| + 1
    && run[0] == System(None, 0, map[], [])
    && forall i :: 0 <= i < |events| ==> Connected(sha, run, events, i)
  }

  lemma {:induction false} RunKeepsInv(sha: Digest, run: seq<System>, events: seq<Event>, n: nat)
    requires IsRun(sha, run, events) && n < |run|
    ensures Inv(sha, run[n])
  {
    hide Next, Inv;
    if n == 0 {
      EmptyClusterIsSound(sha);
    } else {
      RunKeepsInv(sha, run, events, n - 1);
      assert Connected(sha, run, events, n - 1);
      NextKeepsInv(sha, run[n - 1], events[n - 1], run[n]);
    }
  }

  lemma EmptyClusterIsSound(sha: Digest)
    ensures Inv(sha, System(None, 0, map[], []))
  {
  }

  /**
   Refinement: whatever the clients do, the commits form a run of the atomic store, and the ConfigMap holds
   the record of the last commit. In particular no commit is overwritten by one that did not see it.
   */
  lemma ClusterRefinesAtomicStore(sha: Digest, run: seq<System>, events: seq<Event>, n: nat)
    requires IsRun(sha, run, events) && n < |run|
    ensures AtomicRun(sha, run[n].log)
    ensures StoredIn(run[n].cluster) == LastRecord(run[n].log)
  {
    hide AtomicRun;
    RunKeepsInv(sha, run, events, n);
  }

  /** What readers of the ConfigMap may rely on, at any point of any run. */
  lemma ClusterRecordIsWellStored(sha: Digest, run: seq<System>, events: seq<Event>, n: nat)
    requires IsRun(sha, run, events) && n < |run| && run[n].cluster.Some?
    ensures WellStored(sha, run[n].cluster.value.stored)
  {
    hide AtomicRun, WellStored;
    ClusterRefinesAtomicStore(sha, run, events, n);
    EveryRecordIsWellStored(sha, run[n].log, |run[n].log| - 1);
  }

  /** The commits of an earlier state stay: the log only grows. */
  lemma {:induction false} CommitsStay(sha: Digest, run: seq<System>, events: seq<Event>, m: nat, n: nat)
    requires IsRun(sha, run, events) && m <= n < |run|
    ensures run[m].log <= run[n].log
    decreases n
  {
    hide Apply, ClusterAccepts;
    if m < n {
      CommitsStay(sha, run, events, m, n - 1);
      assert Connected(sha, run, events, n - 1);
    }
  }

  /** A client that has read can always go on: exactly one of writing, being refused and returning is possible. */
  lemma ClientsAreNeverStuck(sha: Digest, s: System, id: nat)
    requires id in s.clients
    ensures (exists t :: Next(sha, s, Put(id), t)) <==> WantsWrite(sha, s.clients[id]) && ClusterAccepts(s.cluster, s.clients[id].snapshot)
    ensures (exists t :: Next(sha, s, Refuse(id), t)) <==> WantsWrite(sha, s.clients[id]) && !ClusterAccepts(s.cluster, s.clients[id].snapshot)
    ensures (exists t :: Next(sha, s, Return(id), t)) <==> !WantsWrite(sha, s.clients[id])
  {
    hide Apply;
    var c, left := s.clients[id], s.(clients := s.clients - {id});
    if WantsWrite(sha, c) {
      if ClusterAccepts(s.cluster, c.snapshot) {
        assert Next(sha, s, Put(id), System(Some(ConfigMap(s.nextVersion, CommitOf(sha, c).after)), s.nextVersion + 1,
                                            s.clients - {id}, s.log + [CommitOf(sha, c)]));
      } else {
        assert Next(sha, s, Refuse(id), left);
      }
    } else {
      assert Next(sha, s, Return(id), left);
    }
  }

  /** A write right after its read is accepted: only other commits stand in its way. */
  lemma UncontendedWriteIsAccepted(sha: Digest, s: System, id: nat, request: Request, planRead: Option<Envelope>, t: System)
    requires Next(sha, s, Read(id, request, planRead), t)
    ensures id in t.clients && ClusterAccepts(t.cluster, t.clients[id].snapshot)
    ensures StoredIn(t.clients[id].snapshot) == StoredIn(s.cluster) && t.clients[id].request == request
  {
  }

  // ---------------------------------------------------------------- the client's own code

  /** The ConfigMap as one client meets it: before each of its commands, others may have committed. */
  class Cluster {
    var record: Option<ConfigMap>
    var nextVersion: nat
    /** What the others commit right before the n-th command, and how many commands there were. */
    const others: nat -> Option<Stored>
    var commands: nat
    /** The record each version was given to. */
    ghost var issued: map<nat, Stored>
    /** What the last commit replaced. */
    ghost var replaced: Option<ConfigMap>

    constructor (others: nat -> Option<Stored>)
      ensures Valid() && record == None && this.others == others && commands == 0
    {
      this.others := others;
      record, nextVersion, commands, issued, replaced := None, 0, 0, map[], None;
    }

    ghost predicate Valid()
      reads this
    {
      && (forall v :: v in issued ==> v < nextVersion)
      && (record.Some? ==> record.value.resourceVersion in issued && issued[record.value.resourceVersion] == record.value.stored)
    }

    method Commit(stored: Stored)
      requires Valid()
      modifies this`record, this`nextVersion, this`issued, this`replaced
      ensures Valid() && record == Some(ConfigMap(old(nextVersion), stored)) && commands == old(commands)
      ensures issued == old(issued)[old(nextVersion) := stored] && nextVersion == old(nextVersion) + 1
      ensures replaced == old(record)
    {
      replaced := record;
      record := Some(ConfigMap(nextVersion, stored));
      issued := issued[nextVersion := stored];
      nextVersion := nextVersion + 1;
    }

    /** Time passes between two commands. */
    method Interfere()
      requires Valid()
      modifies this
      ensures Valid() && (forall v :: v in old(issued) ==> v in issued && issued[v] == old(issued)[v])
      ensures commands == old(commands) + 1 && Follows(old(commands), old(record), old(nextVersion))
      ensures match others(old(commands))
              case None => record == old(record) && nextVersion == old(nextVersion)
              case Some(stored) => record == Some(ConfigMap(old(nextVersion), stored)) && nextVersion == old(nextVersion) + 1
    {
      if others(commands).Some? {
        Commit(others(commands).value);
      }
      commands := commands + 1;
    }

    /** Since the command numbered `from`, at which the record and the next version were these, only others have committed. */
    ghost predicate Follows(from: nat, before: Option<ConfigMap>, version: nat)
      reads this
    {
      from <= commands && (record, nextVersion) == Meanwhile(others, from, commands, before, version)
    }

    lemma FollowsMeans(from: nat, before: Option<ConfigMap>, version: nat)
      requires Follows(from, before, version)
      ensures from <= commands
      ensures Meanwhile(others, from, commands, before, version) == (record, nextVersion)
    {
    }

    lemma FollowsFurther(from: nat, before: Option<ConfigMap>, version: nat, middle: nat, r: Option<ConfigMap>, v: nat)
      requires from <= middle && Meanwhile(others, from, middle, before, version) == (r, v) && Follows(middle, r, v)
      ensures Follows(from, before, version)
    {
      MeanwhileGoesOn(others, from, middle, commands, before, version);
    }

    ghost predicate WasRead(c: Option<ConfigMap>)
      reads this
    {
      c.Some? ==> c.value.resourceVersion in issued && issued[c.value.resourceVersion] == c.value.stored
    }

    /** `readConfigMap` */
    method Get() returns (c: Option<ConfigMap>)
      requires Valid()
      modifies this
      ensures Valid() && c == record && WasRead(c)
      ensures commands == old(commands) + 1 && Follows(old(commands), old(record), old(nextVersion))
    {
      Interfere();
      c := record;
    }

    /**
     `writeConfigMap`. When the write goes through, the record it replaced was the one read, whatever the
     others wrote before; if it is still the one in force, the write fails only if they commit at this moment.
     */
    method Replace(current: Option<ConfigMap>, stored: Stored) returns (written: bool)
      requires Valid() && WasRead(current)
      modifies this
      ensures Valid() && commands == old(commands) + 1 && nextVersion >= old(nextVersion)
      ensures written ==> replaced == current && StoredIn(record) == Some(stored)
      ensures !written ==> record != current && Follows(old(commands), old(record), old(nextVersion))
      ensures old(record) == current ==> (written <==> others(old(commands)).None?)
    {
      hide Follows;
      Interfere();
      written := if current.None? then record.None?
                 else record.Some? && record.value.resourceVersion == current.value.resourceVersion;
      if written {
        Commit(stored);
      }
    }
  }

  /** The record and the next version after the others' commits at the commands from `from` up to `last`. */
  function Meanwhile(others: nat -> Option<Stored>, from: nat, last: nat, record: Option<ConfigMap>, nextVersion: nat): (Option<ConfigMap>, nat)
    requires from <= last
    decreases last
  {
    if from == last then (record, nextVersion) else
      var (before, version) := Meanwhile(others, from, last - 1, record, nextVersion);
      match others(last - 1)
      case None => (before, version)
      case Some(stored) => (Some(ConfigMap(version, stored)), version + 1)
  }

  lemma {:induction false} MeanwhileGoesOn(others: nat -> Option<Stored>, from: nat, middle: nat, last: nat, record: Option<ConfigMap>, nextVersion: nat)
    requires from <= middle <= last
    ensures var (r, v) := Meanwhile(others, from, middle, record, nextVersion);
            Meanwhile(others, middle, last, r, v) == Meanwhile(others, from, last, record, nextVersion)
    decreases last
  {
    if middle < last {
      MeanwhileGoesOn(others, from, middle, last - 1, record, nextVersion);
    }
  }

  /** What a successful call did: it kept the record it found, or replaced exactly that one by the one computed from it. */
  ghost predicate TookEffect(sha: Digest, plan: Option<Envelope>, r: Request, found: Option<ConfigMap>, cluster: Cluster, x: Execution)
    reads cluster
  {
    var effect := Apply(sha, plan, StoredIn(found), r);
    effect.Ok? && if effect.value.Keep? then x == effect.value.execution && cluster.record == found
                  else x == effect.value.stored.execution && StoredIn(cluster.record) == Some(effect.value.stored)
                       && cluster.replaced == found
  }

  /**
   `mutate`: one read, one conditional write. The answer is the atomic store's for the record found, unless
   another client commits between the two.
   */
  method MutateRecord(cluster: Cluster, sha: Digest, plan: Option<Envelope>, expectedRevision: int, change: Change)
    returns (r: Result<Execution, ErrorCode>, ghost found: Option<ConfigMap>)
    requires cluster.Valid()
    modifies cluster
    ensures cluster.Valid()
    ensures found == Meanwhile(cluster.others, old(cluster.commands), old(cluster.commands) + 1, old(cluster.record), old(cluster.nextVersion)).0
    ensures r.Ok? ==> TookEffect(sha, plan, Mutate(expectedRevision, change), found, cluster, r.value)
    ensures r.Err? ==> Apply(sha, plan, StoredIn(found), Mutate(expectedRevision, change)) == Err(r.error)
                       || (r.error == RevisionConflict && cluster.record != found && cluster.others(old(cluster.commands) + 1).Some?)
    ensures Apply(sha, plan, StoredIn(found), Mutate(expectedRevision, change)).Err? ==> r.Err? && cluster.record == found
  {
    hide Apply;
    var current := cluster.Get();
    found := current;
    var effect := Apply(sha, plan, StoredIn(current), Mutate(expectedRevision, change));
    match effect {
      case Err(error) => return Err(error), found;
      case Ok(Keep(x)) => return Ok(x), found;
      case Ok(Write(stored)) =>
        var written := cluster.Replace(current, stored);
        if !written {
          return Err(RevisionConflict), found;
        }
        return Ok(stored.execution), found;
    }
  }

  /**
   `initialize`: at most three rounds of reading and conditionally writing. The answer is the atomic store's
   for the record found last; every round but the last was lost to another client's commit, and a conflict is
   reported only after three such rounds.
   */
  method InitializeRecord(cluster: Cluster, sha: Digest, plan: Option<Envelope>, executionId: string, at: int, supersede: Option<int>)
    returns (r: Result<Execution, ErrorCode>, ghost found: Option<ConfigMap>, rounds: nat)
    requires cluster.Valid()
    modifies cluster
    ensures cluster.Valid() && 1 <= rounds <= 3
    ensures var from := old(cluster.commands);
            && found == Meanwhile(cluster.others, from, from + 2 * rounds - 1, old(cluster.record), old(cluster.nextVersion)).0
            && (forall k :: 1 <= k < rounds ==> cluster.others(from + 2 * k - 1).Some?)
    ensures r.Ok? ==> TookEffect(sha, plan, Initialize(executionId, at, supersede), found, cluster, r.value)
    ensures r.Err? ==> Apply(sha, plan, StoredIn(found), Initialize(executionId, at, supersede)) == Err(r.error)
                       || (r.error == RevisionConflict && rounds == 3 && cluster.others(old(cluster.commands) + 5).Some?)
    ensures Apply(sha, plan, StoredIn(found), Initialize(executionId, at, supersede)).Err? ==> r.Err? && cluster.record == found
  {
    hide Apply, Meanwhile, Cluster.WasRead, Cluster.Follows, StoredIn;
    ghost var from, record, version := cluster.commands, cluster.record, cluster.nextVersion;
    found, rounds := None, 0;
    NothingMeanwhile(cluster);
    while rounds < 3
      invariant cluster.Valid() && rounds <= 3 && cluster.commands == from + 2 * rounds
      invariant cluster.Follows(from, record, version)
      invariant rounds > 0 ==> found == Meanwhile(cluster.others, from, from + 2 * rounds - 1, record, version).0
      invariant forall k :: 1 <= k <= rounds ==> cluster.others(from + 2 * k - 1).Some?
      invariant rounds > 0 ==> Apply(sha, plan, StoredIn(found), Initialize(executionId, at, supersede)).Ok?
    {
      ghost var r0, v0 := cluster.record, cluster.nextVersion;
      cluster.FollowsMeans(from, record, version);
      rounds := rounds + 1;
      var current := cluster.Get();
      found := current;
      cluster.FollowsFurther(from, record, version, from + 2 * rounds - 2, r0, v0);
      cluster.FollowsMeans(from, record, version);
      ghost var v1 := cluster.nextVersion;
      var effect := Apply(sha, plan, StoredIn(current), Initialize(executionId, at, supersede));
      match effect {
        case Err(error) => return Err(error), found, rounds;
        case Ok(Keep(x)) => return Ok(x), found, rounds;
        case Ok(Write(stored)) =>
          var written := cluster.Replace(current, stored);
          if written {
            return Ok(stored.execution), found, rounds;
          }
          cluster.FollowsFurther(from, record, version, from + 2 * rounds - 1, current, v1);
      }
    }
    r := Err(RevisionConflict);
  }

  lemma NothingMeanwhile(cluster: Cluster)
    ensures cluster.Follows(cluster.commands, cluster.record, cluster.nextVersion)
  {
  }
}
