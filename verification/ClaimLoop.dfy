/**
 Claiming work rows on Oracle (packages/backend-host/src/plugins/pluginDatabaseLock.ts:44-113): candidates
 are read without locks, then locked in small chunks, and checked again under the lock. The rows that can
 be locked do not change during one call.
 */
module ClaimLoop {
  import opened Results

  const CANDIDATE_MULTIPLIER := 4
  const CANDIDATE_MAXIMUM := 400

  datatype Row = Row(id: string, content: string)

  datatype ClaimError = ClaimLimitInvalid

  predicate LimitIsValid(limit: int)
  {
    1 <= limit <= CANDIDATE_MAXIMUM
  }

  /** `oraclePluginClaimCandidateWindowV1`: never narrower than the limit, never wider than the maximum. */
  function CandidateWindow(limit: int): (r: Result<int, ClaimError>)
    ensures r.Ok? <==> 1 <= limit <= 400
    ensures r.Ok? ==> limit <= r.value <= 400 && (if limit <= 100 then r.value == 4 * limit else r.value == 400)
  {
    if !LimitIsValid(limit) then Err(ClaimLimitInvalid)
    else Ok(if limit * CANDIDATE_MULTIPLIER < CANDIDATE_MAXIMUM then limit * CANDIDATE_MULTIPLIER else CANDIDATE_MAXIMUM)
  }

  // ---------------------------------------------------------------- the simple form

  predicate Mentions(candidates: seq<Option<Row>>, id: string)
  {
    exists i :: 0 <= i < |candidates| && candidates[i].Some? && candidates[i].value.id == id
  }

  /** The candidates, each id where it comes first. */
  function Distinct(candidates: seq<Option<Row>>): seq<Row>
  {
    if candidates == [] then [] else
      var before, last := candidates[..|candidates| - 1], candidates[|candidates| - 1];
      Distinct(before) + (if last.Some? && !Mentions(before, last.value.id) then [last.value] else [])
  }

  /** Of the candidates, the rows as they are under the lock, if they can be locked and are eligible. */
  function Claimable(rows: map<string, Row>, eligible: Row -> bool, candidates: seq<Row>): seq<Row>
  {
    if candidates == [] then [] else
      var id := candidates[|candidates| - 1].id;
      Claimable(rows, eligible, candidates[..|candidates| - 1]) + (if id in rows && eligible(rows[id]) then [rows[id]] else [])
  }

  function Wanted(rows: map<string, Row>, eligible: Row -> bool, candidates: seq<Option<Row>>): seq<Row>
  {
    Claimable(rows, eligible, Distinct(candidates))
  }

  lemma {:induction false} ClaimableOfConcat(rows: map<string, Row>, eligible: Row -> bool, a: seq<Row>, b: seq<Row>)
    ensures Claimable(rows, eligible, a + b) == Claimable(rows, eligible, a) + Claimable(rows, eligible, b)
  {
    if b == [] {
      assert a + b == a;
    } else {
      assert (a + b)[..|a + b| - 1] == a + b[..|b| - 1];
      ClaimableOfConcat(rows, eligible, a, b[..|b| - 1]);
    }
  }

  lemma {:induction false} ClaimableIsShorter(rows: map<string, Row>, eligible: Row -> bool, candidates: seq<Row>)
    ensures |Claimable(rows, eligible, candidates)| <= |candidates|
  {
    if candidates != [] {
      ClaimableIsShorter(rows, eligible, candidates[..|candidates| - 1]);
    }
  }

  /** The rows wanted are exactly the eligible rows among those the candidates name, each once. */
  lemma {:induction false} WantedAreTheEligible(rows: map<string, Row>, eligible: Row -> bool, candidates: seq<Option<Row>>)
    requires forall id :: id in rows ==> rows[id].id == id
    ensures forall r :: r in Wanted(rows, eligible, candidates) <==>
              Mentions(candidates, r.id) && r.id in rows && rows[r.id] == r && eligible(r)
    ensures forall i, j :: 0 <= i < j < |Wanted(rows, eligible, candidates)| ==>
              Wanted(rows, eligible, candidates)[i].id != Wanted(rows, eligible, candidates)[j].id
  {
    if candidates != [] {
      var before, last := candidates[..|candidates| - 1], candidates[|candidates| - 1];
      WantedAreTheEligible(rows, eligible, before);
      MentionsOneMore(candidates);
      WantedOneMore(rows, eligible, candidates);
    }
  }

  lemma WantedOneMore(rows: map<string, Row>, eligible: Row -> bool, candidates: seq<Option<Row>>)
    requires candidates != []
    ensures var before, last := candidates[..|candidates| - 1], candidates[|candidates| - 1];
            Wanted(rows, eligible, candidates) == Wanted(rows, eligible, before)
              + (if last.Some? && !Mentions(before, last.value.id) && last.value.id in rows && eligible(rows[last.value.id])
                 then [rows[last.value.id]] else [])
  {
    var before, last := candidates[..|candidates| - 1], candidates[|candidates| - 1];
    if last.Some? && !Mentions(before, last.value.id) {
      assert Distinct(candidates)[..|Distinct(candidates)| - 1] == Distinct(before);
    } else {
      assert Distinct(candidates) == Distinct(before);
    }
  }

  lemma MentionsOneMore(candidates: seq<Option<Row>>)
    requires candidates != []
    ensures var before, last := candidates[..|candidates| - 1], candidates[|candidates| - 1];
            forall id :: Mentions(candidates, id) <==> Mentions(before, id) || (last.Some? && last.value.id == id)
  {
    var before, n := candidates[..|candidates| - 1], |candidates| - 1;
    forall id | Mentions(before, id) ensures Mentions(candidates, id) {
      var i :| 0 <= i < n && before[i].Some? && before[i].value.id == id;
      assert candidates[i] == before[i];
    }
    forall id | Mentions(candidates, id) && !(candidates[n].Some? && candidates[n].value.id == id) ensures Mentions(before, id) {
      var i :| 0 <= i <= n && candidates[i].Some? && candidates[i].value.id == id;
      assert before[i] == candidates[i];
    }
  }

  /** More candidates only add rows at the end. */
  lemma {:induction false} WantedGrows(rows: map<string, Row>, eligible: Row -> bool, candidates: seq<Option<Row>>, n: nat)
    requires n <= |candidates|
    ensures Wanted(rows, eligible, candidates[..n]) <= Wanted(rows, eligible, candidates)
  {
    if n == |candidates| {
      assert candidates[..n] == candidates;
    } else {
      var before, last := candidates[..|candidates| - 1], candidates[|candidates| - 1];
      assert before[..n] == candidates[..n];
      WantedGrows(rows, eligible, before, n);
      WantedOneMore(rows, eligible, candidates);
    }
  }

  // ---------------------------------------------------------------- the chunked form

  class ClaimTransaction {
    /** The rows no other transaction holds, by id. */
    const rows: map<string, Row>
    const eligible: Row -> bool
    ghost var locked: set<string>

    ghost predicate Valid()
    {
      forall id :: id in rows ==> rows[id].id == id
    }

    constructor (rows: map<string, Row>, eligible: Row -> bool)
      requires forall id :: id in rows ==> rows[id].id == id
      ensures Valid() && this.rows == rows && this.eligible == eligible && locked == {}
    {
      this.rows, this.eligible, locked := rows, eligible, {};
    }

    /** `SELECT ... FOR UPDATE SKIP LOCKED` on the ids of a chunk. */
    method LockRows(chunk: seq<Row>) returns (lockedById: map<string, Row>)
      modifies this`locked
      ensures lockedById == map id | id in rows && (exists c :: c in chunk && c.id == id) :: rows[id]
      ensures locked == old(locked) + lockedById.Keys
    {
      lockedById := map id | id in rows && (exists c :: c in chunk && c.id == id) :: rows[id];
      locked := locked + lockedById.Keys;
    }

    /** The inner loop: the next distinct candidates, at most as many as remain to be claimed. */
    method FillChunk(candidates: seq<Option<Row>>, start: nat, seen: set<string>, remaining: nat)
      returns (chunk: seq<Row>, cursor: nat, seenNow: set<string>)
      requires start < |candidates| && remaining > 0
      requires forall id :: id in seen <==> Mentions(candidates[..start], id)
      ensures start < cursor <= |candidates| && |chunk| <= remaining
      ensures |chunk| == remaining || cursor == |candidates|
      ensures Distinct(candidates[..cursor]) == Distinct(candidates[..start]) + chunk
      ensures forall id :: id in seenNow <==> Mentions(candidates[..cursor], id)
    {
      chunk, cursor, seenNow := [], start, seen;
      while |chunk| < remaining && cursor < |candidates|
        invariant start <= cursor <= |candidates| && |chunk| <= remaining
        invariant chunk != [] ==> start < cursor
        invariant Distinct(candidates[..cursor]) == Distinct(candidates[..start]) + chunk
        invariant forall id :: id in seenNow <==> Mentions(candidates[..cursor], id)
      {
        var candidate := candidates[cursor];
        assert candidates[..cursor + 1][..cursor] == candidates[..cursor];
        MentionsOneMore(candidates[..cursor + 1]);
        cursor := cursor + 1;
        if candidate.Some? && candidate.value.id !in seenNow {
          seenNow := seenNow + {candidate.value.id};
          chunk := chunk + [candidate.value];
        }
      }
    }

    /** The loop over a chunk, no longer than what remains: nothing is left unclaimed at the break. */
    method ClaimChunk(chunk: seq<Row>, lockedById: map<string, Row>, before: seq<Row>, limit: nat) returns (claimed: seq<Row>)
      requires |before| + |chunk| <= limit
      requires lockedById == map id | id in rows && (exists c :: c in chunk && c.id == id) :: rows[id]
      ensures claimed == before + Claimable(rows, eligible, chunk)
    {
      claimed := before;
      var n := 0;
      while n < |chunk|
        invariant 0 <= n <= |chunk| && |claimed| <= |before| + n
        invariant claimed == before + Claimable(rows, eligible, chunk[..n])
      {
        assert chunk[..n + 1][..n] == chunk[..n];
        var candidate := chunk[n];
        n := n + 1;
        if candidate.id in lockedById && eligible(lockedById[candidate.id]) {
          claimed := claimed + [lockedById[candidate.id]];
          if |claimed| == limit {
            break;
          }
        }
      }
      assert chunk[..n] == chunk;
    }

    /**
     `lockOraclePluginClaimCandidatesV1`: the first `limit` distinct candidates that can be locked and are
     eligible, in candidate order; and no eligible row is locked without being claimed.
     */
    method LockClaimCandidates(candidates: seq<Option<Row>>, limit: int) returns (r: Result<seq<Row>, ClaimError>)
      requires Valid() && locked == {}
      modifies this`locked
      ensures r.Ok? <==> LimitIsValid(limit)
      ensures r.Ok? ==> var wanted := Wanted(rows, eligible, candidates);
                        r.value == if |wanted| <= limit then wanted else wanted[..limit]
      ensures r.Ok? ==> forall id :: id in locked ==> id in rows && (eligible(rows[id]) <==> rows[id] in r.value)
      ensures r.Ok? ==> forall row :: row in r.value ==> row.id in locked
      ensures r.Err? ==> locked == {}
    {
      if !(1 <= limit <= CANDIDATE_MAXIMUM) {
        return Err(ClaimLimitInvalid);
      }
      var claimed: seq<Row> := [];
      var seen: set<string> := {};
      var cursor := 0;
      while |claimed| < limit && cursor < |candidates|
        invariant 0 <= cursor <= |candidates| && |claimed| <= limit
        invariant forall id :: id in seen <==> Mentions(candidates[..cursor], id)
        invariant claimed == Wanted(rows, eligible, candidates[..cursor])
        invariant forall id :: id in locked <==> id in rows && Mentions(candidates[..cursor], id)
        decreases |candidates| - cursor
      {
        ghost var earlier := cursor;
        var chunk;
        chunk, cursor, seen := FillChunk(candidates, cursor, seen, limit - |claimed|);
        DistinctAreMentioned(candidates[..earlier]);
        DistinctAreMentioned(candidates[..cursor]);
        ClaimableOfConcat(rows, eligible, Distinct(candidates[..earlier]), chunk);
        if chunk != [] {
          var lockedById := LockRows(chunk);
          claimed := ClaimChunk(chunk, lockedById, claimed, limit);
          ClaimableIsShorter(rows, eligible, chunk);
        }
      }
      WantedGrows(rows, eligible, candidates, cursor);
      WantedAreTheEligible(rows, eligible, candidates[..cursor]);
      assert cursor == |candidates| ==> candidates[..cursor] == candidates;
      r := Ok(claimed);
    }
  }

  /** Distinct candidates name the ids the candidates mention. */
  lemma {:induction false} DistinctAreMentioned(candidates: seq<Option<Row>>)
    ensures forall id :: Mentions(candidates, id) <==> exists c :: c in Distinct(candidates) && c.id == id
  {
    if candidates != [] {
      var before := candidates[..|candidates| - 1];
      DistinctAreMentioned(before);
      MentionsOneMore(candidates);
      forall id | Mentions(candidates, id) ensures exists c :: c in Distinct(candidates) && c.id == id {
        if Mentions(before, id) {
          var c :| c in Distinct(before) && c.id == id;
          assert c in Distinct(candidates);
        } else {
          assert candidates[|candidates| - 1].value in Distinct(candidates);
        }
      }
    }
  }
}
