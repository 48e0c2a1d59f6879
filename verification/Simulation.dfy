/**
 Executing claimed copies and writing their outcomes is a run of the protocol too: a batch, however
 far it gets, leads from a database of the protocol to another one.
 */
module Simulation {
  import opened Collections
  import opened Domain
  import opened Execution
  import opened Store
  import opened Lease
  import opened Reachability
  import opened Handler

  /** From `first` on, the state holds fresh claims on the given copies, which nobody has executed yet. */
  ghost predicate Holds(s: State, first: nat, copies: seq<Option<Row>>, done: nat) {
    && |s.claims| == first + |copies|
    && forall i :: done <= i < |copies| ==>
         copies[i] == Some(s.claims[first + i].copy) && s.claims[first + i].progress == Held
  }

  /** The copies handed out by a claim are the rows as it leaves them. */
  lemma {:induction false} ClaimEachHolds(s: State, keys: seq<Key>, owner: string, lease: int)
    requires 1 <= lease && AllClaimable(s.db, keys) && Distinct(keys)
    ensures var s' := ClaimEach(s, keys, owner, lease);
            Holds(s', |s.claims|, CopiesOf(s'.db, keys), 0)
  {
    if keys != [] {
      var n := |keys| - 1;
      var front := keys[..n];
      ClaimEachHolds(s, front, owner, lease);
      var mid, end := ClaimEach(s, front, owner, lease), ClaimEach(s, keys, owner, lease);
      assert keys[n] !in front;
      forall i | 0 <= i < |keys|
        ensures CopiesOf(end.db, keys)[i] == Some(end.claims[|s.claims| + i].copy)
        ensures end.claims[|s.claims| + i].progress == Held
      {
        if i < n {
          assert CopiesOf(mid.db, front)[i] == Some(mid.claims[|s.claims| + i].copy);
          assert keys[i] == front[i] && keys[i] != keys[n];
          assert end.db.rows[keys[i]] == mid.db.rows[keys[i]];
        }
      }
    }
  }

  function CopiesOf(db: Db, keys: seq<Key>): seq<Option<Row>> {
    seq(|keys|, i requires 0 <= i < |keys| => if keys[i] in db.rows then Some(db.rows[keys[i]]) else None)
  }

  /** Writing the outcome of a held copy is one execution and one accepted persist. */
  lemma {:induction false} WroteReachable(s: State, c: nat, o: Observed, db: Db) returns (s': State)
    requires Reachable(s) && c < |s.claims| && s.claims[c].progress == Held && Wrote(s.db, s.claims[c].copy, o, db)
    ensures Reachable(s') && s'.db == db
    ensures |s'.claims| == |s.claims| && forall i :: 0 <= i < |s.claims| && i != c ==> s'.claims[i] == s.claims[i]
  {
    var copy := s.claims[c].copy;
    var listing :| IsListing(s.db.rows, copy.key.event, listing)
                   && Persist(s.db, Executed(copy, o), Deliver(copy, o).attempts, listing) == Some(db);
    ReachableNext(s, Execute(c, o));
    var mid := Next(s, Execute(c, o));
    assert Written(mid, c, listing) == Some(db);
    ReachableNext(mid, PersistOutcome(c, listing));
    s' := Next(mid, PersistOutcome(c, listing));
  }

  lemma NextReachable(s: State, first: nat, copies: seq<Option<Row>>, i: nat, o: Observed, db: Db) returns (s': State)
    requires Reachable(s) && i < |copies| && Holds(s, first, copies, i)
    requires if copies[i].None? then db == s.db else Wrote(s.db, copies[i].value, o, db)
    ensures Reachable(s') && s'.db == db && Holds(s', first, copies, i + 1)
  {
    s' := WroteReachable(s, first + i, o, db);
  }

  /** A batch of held copies, processed as far as it gets, is a run of executions and persists. */
  lemma {:induction false} ProcessedReachable(s: State, first: nat, dbs: seq<Db>, copies: seq<Option<Row>>,
                                              observed: seq<Observed>, stop: nat, n: nat) returns (s': State)
    requires Reachable(s) && Holds(s, first, copies, 0)
    requires Processed(dbs, copies, observed, stop) && dbs[0] == s.db && n <= stop
    ensures Reachable(s') && s'.db == dbs[n] && Holds(s', first, copies, n)
  {
    if n == 0 {
      s' := s;
    } else {
      var mid := ProcessedReachable(s, first, dbs, copies, observed, stop, n - 1);
      s' := NextReachable(mid, first, copies, n - 1, observed[n - 1], dbs[n]);
    }
  }

  /**
   A claim of distinct claimable rows and the processing of its copies, stopped anywhere, leads from a
   database of the protocol to a database of the protocol.
   */
  lemma ClaimedBatchReal(db: Db, keys: seq<Key>, owner: string, lease: int, dbs: seq<Db>, observed: seq<Observed>,
                         stop: nat)
    requires Real(db) && 1 <= lease && AllClaimable(db, keys) && Distinct(keys)
    requires Processed(dbs, CopiesOf(ClaimAll(db, keys, owner, lease), keys), observed, stop)
    requires dbs[0] == ClaimAll(db, keys, owner, lease)
    ensures Real(dbs[stop])
  {
    var s :| Reachable(s) && s.db == db;
    ClaimEachReachable(s, keys, owner, lease);
    ClaimEachHolds(s, keys, owner, lease);
    var claimed := ClaimEach(s, keys, owner, lease);
    var s' := ProcessedReachable(claimed, |s.claims|, dbs, CopiesOf(claimed.db, keys), observed, stop, stop);
  }
}
