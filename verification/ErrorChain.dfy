/**
 Retrying database transactions (packages/backend-host/src/plugins/pluginDatabaseTransaction.ts:26-159).
 The errors of the drivers are objects that refer to one another, possibly in cycles; a transaction is
 retried when one of the objects behind its error carries the driver's code for contention.
 */
module ErrorChain {
  import opened Results

  /** A JavaScript value as far as the search looks at it; an object or function is known by its identity. */
  datatype Value = Undefined | Null | Number(number: int) | Text(text: string) | Ref(id: nat)

  datatype ErrorObject = ErrorObject(code: Value, errno: Value, errorNum: Value, driverError: Value, cause: Value, originalError: Value)
  {
    function Links(): seq<Value>
    {
      [driverError, cause, originalError]
    }
  }

  type Heap = map<nat, ErrorObject>

  /** Every reference leads to an object. */
  ghost predicate Closed(h: Heap)
  {
    forall id, v :: id in h && v in h[id].Links() && v.Ref? ==> v.id in h
  }

  datatype Signal = SpannerAborted | MySqlDeadlock | OracleDeadlock

  predicate Carries(signal: Signal, o: ErrorObject)
  {
    match signal
    case SpannerAborted => o.code == Number(10) || o.code == Text("10") || o.code == Text("ABORTED")
    case MySqlDeadlock => o.code == Text("ER_LOCK_DEADLOCK") || o.errno == Number(1213) || o.errno == Text("1213")
    case OracleDeadlock => o.code == Text("ORA-00060") || o.errorNum == Number(60) || o.errorNum == Text("60")
  }

  // ---------------------------------------------------------------- reachability

  predicate LinkAt(h: Heap, path: seq<nat>, i: int)
    requires 0 <= i < |path| - 1
  {
    path[i] in h && Ref(path[i + 1]) in h[path[i]].Links()
  }

  /** A path of references from the thrown value to an object. */
  ghost predicate IsPath(h: Heap, error: Value, path: seq<nat>)
  {
    path != [] && error == Ref(path[0]) && forall i :: 0 <= i < |path| - 1 ==> LinkAt(h, path, i)
  }

  ghost predicate Reachable(h: Heap, error: Value, id: nat)
  {
    exists path :: IsPath(h, error, path) && path[|path| - 1] == id
  }

  lemma StartIsReachable(h: Heap, id: nat)
    ensures Reachable(h, Ref(id), id)
  {
    assert IsPath(h, Ref(id), [id]);
  }

  lemma LinkedIsReachable(h: Heap, error: Value, id: nat, next: nat)
    requires Reachable(h, error, id) && id in h && Ref(next) in h[id].Links()
    ensures Reachable(h, error, next)
  {
    var path :| IsPath(h, error, path) && path[|path| - 1] == id;
    var longer := path + [next];
    forall i | 0 <= i < |longer| - 1 ensures LinkAt(h, longer, i) {
      if i < |path| - 1 { assert LinkAt(h, path, i); }
    }
    assert IsPath(h, error, longer) && longer[|longer| - 1] == next;
  }

  /** Reachable is what was thrown, and what the `driverError`, `cause` or `originalError` of something reachable is. */
  lemma ReachableExactly(h: Heap, error: Value, id: nat)
    ensures Reachable(h, error, id) <==>
              error == Ref(id)
              || exists k :: k in h && Reachable(h, error, k) && Ref(id) in {h[k].driverError, h[k].cause, h[k].originalError}
  {
    if error == Ref(id) {
      StartIsReachable(h, id);
    } else if k :| k in h && Reachable(h, error, k) && Ref(id) in {h[k].driverError, h[k].cause, h[k].originalError} {
      LinkedIsReachable(h, error, k, id);
    } else if Reachable(h, error, id) {
      var path :| IsPath(h, error, path) && path[|path| - 1] == id;
      PathWithoutItsEnd(h, error, path);
    }
  }

  lemma PathWithoutItsEnd(h: Heap, error: Value, path: seq<nat>)
    requires IsPath(h, error, path)
    ensures |path| > 1 ==>
              var k := path[|path| - 2];
              k in h && Reachable(h, error, k) && Ref(path[|path| - 1]) in {h[k].driverError, h[k].cause, h[k].originalError}
  {
    if |path| > 1 {
      var front := path[..|path| - 1];
      assert LinkAt(h, path, |path| - 2);
      forall i | 0 <= i < |front| - 1 ensures LinkAt(h, front, i) {
        assert LinkAt(h, path, i);
      }
      assert IsPath(h, error, front) && front[|front| - 1] == path[|path| - 2];
    }
  }

  /** A set with the start and with everything linked from it holds every reachable object. */
  ghost predicate ClosedUnderLinks(h: Heap, error: Value, s: set<nat>)
  {
    && (error.Ref? ==> error.id in s)
    && forall id, v :: id in s && id in h && v in h[id].Links() && v.Ref? ==> v.id in s
  }

  lemma {:induction false} ReachableIsInside(h: Heap, error: Value, s: set<nat>, path: seq<nat>, n: nat)
    requires ClosedUnderLinks(h, error, s) && IsPath(h, error, path) && n < |path|
    ensures path[n] in s
  {
    if n > 0 {
      ReachableIsInside(h, error, s, path, n - 1);
      assert LinkAt(h, path, n - 1);
    }
  }

  // ---------------------------------------------------------------- the search

  /** Everything linked from what was seen has been seen or is queued. */
  ghost predicate Frontier(h: Heap, error: Value, seen: set<nat>, queue: seq<Value>)
  {
    && (error.Ref? ==> error.id in seen || error in queue)
    && forall id, v :: id in seen && id in h && v in h[id].Links() && v.Ref? ==> v.id in seen || v in queue
  }

  ghost predicate QueueIsReachable(h: Heap, error: Value, queue: seq<Value>)
  {
    forall v :: v in queue && v.Ref? ==> v.id in h && Reachable(h, error, v.id)
  }

  lemma ExpandKeepsFrontier(h: Heap, error: Value, seen: set<nat>, queue: seq<Value>, id: nat)
    requires Closed(h) && id in h && queue != [] && queue[0] == Ref(id)
    requires Frontier(h, error, seen, queue) && QueueIsReachable(h, error, queue)
    ensures Frontier(h, error, seen + {id}, queue[1..] + h[id].Links())
    ensures QueueIsReachable(h, error, queue[1..] + h[id].Links())
  {
    var rest, links := queue[1..], h[id].Links();
    assert queue == [Ref(id)] + rest;
    forall v: Value | v in rest + links && v.Ref? ensures v.id in h && Reachable(h, error, v.id) {
      if v in links {
        assert v == Ref(v.id);
        LinkedIsReachable(h, error, id, v.id);
      }
    }
  }

  lemma SkipKeepsFrontier(h: Heap, error: Value, seen: set<nat>, queue: seq<Value>)
    requires queue != [] && (queue[0].Ref? ==> queue[0].id in seen)
    requires Frontier(h, error, seen, queue) && QueueIsReachable(h, error, queue)
    ensures Frontier(h, error, seen, queue[1..]) && QueueIsReachable(h, error, queue[1..])
  {
    assert queue == [queue[0]] + queue[1..];
  }

  /**
   The three worklist searches: true exactly when an object that can be reached from the error, through any
   number of links and in spite of cycles, carries the signal.
   */
  method Search(h: Heap, signal: Signal, error: Value) returns (found: bool)
    requires Closed(h) && (error.Ref? ==> error.id in h)
    ensures found <==> exists id :: id in h && Reachable(h, error, id) && Carries(signal, h[id])
  {
    hide Reachable, Carries, Frontier, QueueIsReachable, Closed;
    var queue := [error];
    var seen: set<nat> := {};
    StartIsQueued(h, error);
    while queue != []
      invariant seen <= h.Keys
      invariant Frontier(h, error, seen, queue) && QueueIsReachable(h, error, queue)
      invariant forall id :: id in seen ==> !Carries(signal, h[id])
      decreases |h.Keys - seen|, |queue|
    {
      var candidate := queue[0];
      QueuedIsReachable(h, error, queue);
      if !candidate.Ref? || candidate.id in seen {
        SkipKeepsFrontier(h, error, seen, queue);
        queue := queue[1..];
        continue;
      }
      var id := candidate.id;
      if Carries(signal, h[id]) {
        return true;
      }
      ExpandKeepsFrontier(h, error, seen, queue, id);
      SeeingOneMore(h.Keys, seen, id);
      seen := seen + {id};
      queue := queue[1..] + h[id].Links();
    }
    found := false;
    forall id | id in h && Reachable(h, error, id) ensures !Carries(signal, h[id]) {
      SeenIsEverything(h, error, seen, id);
    }
  }

  lemma SeenIsEverything(h: Heap, error: Value, seen: set<nat>, id: nat)
    requires Frontier(h, error, seen, []) && Reachable(h, error, id)
    ensures id in seen
  {
    var path :| IsPath(h, error, path) && path[|path| - 1] == id;
    assert ClosedUnderLinks(h, error, seen);
    ReachableIsInside(h, error, seen, path, |path| - 1);
  }

  lemma StartIsQueued(h: Heap, error: Value)
    requires error.Ref? ==> error.id in h
    ensures Frontier(h, error, {}, [error]) && QueueIsReachable(h, error, [error])
  {
    if error.Ref? { StartIsReachable(h, error.id); }
  }

  lemma QueuedIsReachable(h: Heap, error: Value, queue: seq<Value>)
    requires QueueIsReachable(h, error, queue) && queue != []
    ensures queue[0].Ref? ==> queue[0].id in h && Reachable(h, error, queue[0].id)
  {
    assert queue[0] in queue;
  }

  lemma SeeingOneMore(all: set<nat>, seen: set<nat>, id: nat)
    requires id in all && id !in seen
    ensures |all - (seen + {id})| < |all - seen|
  {
    assert all - seen == (all - (seen + {id})) + {id};
  }

  // ---------------------------------------------------------------- retries

  datatype Database = Spanner | MySql | MariaDb | Oracle | Other

  function SignalOf(db: Database): Option<Signal>
  {
    match db
    case Spanner => Some(SpannerAborted)
    case MySql => Some(MySqlDeadlock)
    case MariaDb => Some(MySqlDeadlock)
    case Oracle => Some(OracleDeadlock)
    case Other => None
  }

  function MaximumAttempts(db: Database): nat
  {
    match db
    case Oracle => 8
    case Other => 1
    case _ => 5
  }

  ghost predicate Retryable(h: Heap, db: Database, error: Value)
  {
    SignalOf(db).Some? && exists id :: id in h && Reachable(h, error, id) && Carries(SignalOf(db).value, h[id])
  }

  /** For each database, the codes by which an error behind the one thrown asks for another attempt. */
  lemma RetryableMeans(h: Heap, db: Database, error: Value)
    ensures Retryable(h, db, error) <==>
              exists id :: id in h && Reachable(h, error, id) &&
                match db
                case Spanner => h[id].code in {Number(10), Text("10"), Text("ABORTED")}
                case Oracle => h[id].code == Text("ORA-00060") || h[id].errorNum in {Number(60), Text("60")}
                case Other => false
                case _ => h[id].code == Text("ER_LOCK_DEADLOCK") || h[id].errno in {Number(1213), Text("1213")}
  {
    hide Reachable;
  }

  datatype Attempt<T> = Committed(value: T) | Aborted(error: Value)

  datatype Outcome<T> = Returned(value: T) | Rethrown(error: Value) | Exhausted

  method IsRetryable(h: Heap, db: Database, error: Value) returns (retryable: bool)
    requires Closed(h) && (error.Ref? ==> error.id in h)
    ensures retryable <==> Retryable(h, db, error)
  {
    if SignalOf(db).None? {
      return false;
    }
    retryable := Search(h, SignalOf(db).value, error);
  }

  /**
   `runPluginTransactionV1`: what the first attempt gives that commits, fails for good or is the last one
   allowed. The throw behind the loop is never reached.
   */
  method RunTransaction<T>(h: Heap, db: Database, attempts: nat -> Attempt<T>) returns (r: Outcome<T>, used: nat)
    requires Closed(h)
    requires forall n: nat :: attempts(n).Aborted? && attempts(n).error.Ref? ==> attempts(n).error.id in h
    ensures 1 <= used <= (if db == Oracle then 8 else if db == Other then 1 else 5)
    ensures forall n: nat :: 1 <= n < used ==> attempts(n).Aborted? && Retryable(h, db, attempts(n).error)
    ensures r == if attempts(used).Committed? then Returned(attempts(used).value) else Rethrown(attempts(used).error)
    ensures attempts(used).Aborted? ==> used == (if db == Oracle then 8 else if db == Other then 1 else 5) || !Retryable(h, db, attempts(used).error)
  {
    hide Retryable;
    var attempt := 1;
    used := attempt;
    while attempt <= MaximumAttempts(db)
      invariant 1 <= attempt <= MaximumAttempts(db)
      invariant forall n: nat :: 1 <= n < attempt ==> attempts(n).Aborted? && Retryable(h, db, attempts(n).error)
      decreases MaximumAttempts(db) - attempt
    {
      used := attempt;
      match attempts(attempt) {
        case Committed(value) => return Returned(value), used;
        case Aborted(error) =>
          var retryable := IsRetryable(h, db, error);
          if !retryable || attempt == MaximumAttempts(db) || MaximumAttempts(db) == 1 {
            return Rethrown(error), used;
          }
      }
      attempt := attempt + 1;
    }
    r := Exhausted;
  }
}
