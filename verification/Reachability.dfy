/**
 The databases the protocol reaches. Every transaction of the repository leads from one of them to
 another, so what is proved of all runs holds of the program's databases.
 */
module Reachability {
  import opened Collections
  import opened Domain
  import opened Store
  import opened Lease

  ghost predicate Reachable(s: State) {
    exists ss, steps :: IsRun(ss, steps) && ss[|steps|] == s
  }

  /** Some run of the protocol ends with this database. */
  ghost predicate Real(db: Db) {
    exists s :: Reachable(s) && s.db == db
  }

  lemma ReachableSafe(s: State)
    requires Reachable(s)
    ensures Safe(s)
  {
    var ss, steps :| IsRun(ss, steps) && ss[|steps|] == s;
    RunSafe(ss, steps, |steps|);
  }

  lemma ReachableNext(s: State, step: Step)
    requires Reachable(s) && Enabled(s, step)
    ensures Reachable(Next(s, step))
  {
    var ss, steps :| IsRun(ss, steps) && ss[|steps|] == s;
    var ss', steps' := ss + [Next(s, step)], steps + [step];
    forall i | 0 <= i < |steps'|
      ensures Enabled(ss'[i], steps'[i]) && ss'[i + 1] == Next(ss'[i], steps'[i])
    {
      if i < |steps| {
        assert ss'[i] == ss[i] && ss'[i + 1] == ss[i + 1] && steps'[i] == steps[i];
      }
    }
    assert IsRun(ss', steps') && ss'[|steps'|] == Next(s, step);
  }

  lemma RealNext(s: State, step: Step, db: Db)
    requires Reachable(s) && Enabled(s, step) && Next(s, step).db == db
    ensures Real(db)
  {
    ReachableNext(s, step);
  }

  lemma EmptyReal(now: Time)
    ensures Real(Db(now, map[], map[], []))
  {
    var s := State(Db(now, map[], map[], []), [], map[], multiset{});
    var ss, steps: seq<Step> := [s], [];
    assert IsRun(ss, steps) && ss[|steps|] == s;
    assert Reachable(s);
  }

  lemma InitializeReal(db: Db, ev: EventInput, subs: seq<Option<Subscription>>, at: Time)
    requires Real(db)
    ensures Real(Initialize(db, ev, subs, at))
  {
    var s :| Reachable(s) && s.db == db;
    RealNext(s, Init(ev, subs, at), Initialize(db, ev, subs, at));
  }

  lemma ReplayReal(db: Db, k: Key, at: Time, listing: seq<Key>)
    requires Real(db) && IsListing(db.rows, k.event, listing) && Replay(db, k, at, listing).Some?
    ensures Real(Replay(db, k, at, listing).value)
  {
    var s :| Reachable(s) && s.db == db;
    RealNext(s, ReplayRow(k, at, listing), Replay(db, k, at, listing).value);
  }

  /* Claims */

  ghost predicate AllClaimable(db: Db, keys: seq<Key>) {
    forall i :: 0 <= i < |keys| ==> keys[i] in db.rows && Claimable(db.rows[keys[i]], db.now)
  }

  /** The protocol state after claiming the keys one after the other at one instant. */
  ghost function ClaimEach(s: State, keys: seq<Key>, owner: string, lease: int): (s': State)
    requires 1 <= lease && AllClaimable(s.db, keys) && Distinct(keys)
    ensures s'.db == ClaimAll(s.db, keys, owner, lease)
  {
    if keys == [] then
      assert ClaimAll(s.db, keys, owner, lease).rows == s.db.rows;
      s
    else
      var n := |keys| - 1;
      var front := keys[..n];
      var s' := ClaimEach(s, front, owner, lease);
      assert keys[n] !in front;
      assert forall k :: k in keys <==> k in front || k == keys[n];
      var s'' := Next(s', ClaimRow(keys[n], owner, lease));
      assert s''.db.rows == ClaimAll(s.db, keys, owner, lease).rows;
      s''
  }

  /** A batch claim is a run of single claims. */
  lemma {:induction false} ClaimEachReachable(s: State, keys: seq<Key>, owner: string, lease: int)
    requires Reachable(s) && 1 <= lease && AllClaimable(s.db, keys) && Distinct(keys)
    ensures Reachable(ClaimEach(s, keys, owner, lease))
  {
    if keys != [] {
      var n := |keys| - 1;
      ClaimEachReachable(s, keys[..n], owner, lease);
      assert keys[n] !in keys[..n];
      ReachableNext(ClaimEach(s, keys[..n], owner, lease), ClaimRow(keys[n], owner, lease));
    }
  }

  lemma {:induction false} ClaimEachSafe(s: State, keys: seq<Key>, owner: string, lease: int)
    requires Safe(s) && 1 <= lease && AllClaimable(s.db, keys) && Distinct(keys)
    ensures Safe(ClaimEach(s, keys, owner, lease))
  {
    if keys != [] {
      var n := |keys| - 1;
      ClaimEachSafe(s, keys[..n], owner, lease);
      assert keys[n] !in keys[..n];
      StepSafe(ClaimEach(s, keys[..n], owner, lease), ClaimRow(keys[n], owner, lease));
    }
  }

  lemma ClaimReal(db: Db, keys: seq<Key>, owner: string, lease: int)
    requires Real(db) && 1 <= lease && AllClaimable(db, keys) && Distinct(keys)
    ensures Real(ClaimAll(db, keys, owner, lease))
  {
    var s :| Reachable(s) && s.db == db;
    ClaimEachReachable(s, keys, owner, lease);
  }

  /** Both claims take distinct rows that are claimable. */
  lemma EventClaimTakes(db: Db, ids: seq<string>, collation: string -> int, locked: set<Key>, limit: nat,
                        keys: seq<Key>)
    requires IsPick(EventWeights(db, ids, collation, locked), limit, keys)
    ensures AllClaimable(db, keys) && Distinct(keys)
  {
    assert forall i :: 0 <= i < |keys| ==> keys[i] in keys;
  }

  lemma PollTakes(db: Db, locked: set<Key>, limit: nat, keys: seq<Key>)
    requires IsPick(PollWeights(db, locked), limit, keys)
    ensures AllClaimable(db, keys) && Distinct(keys)
  {
    assert forall i :: 0 <= i < |keys| ==> keys[i] in keys;
  }

  /* Retention */

  lemma {:induction false} DeleteReachable(s: State, events: seq<string>, before: Time) returns (s': State)
    requires Reachable(s) && Distinct(events) && forall i :: 0 <= i < |events| ==> Deletable(s.db, events[i], before)
    ensures Reachable(s') && s'.db == DeleteEvents(s.db, events)
    ensures forall e :: Deletable(s.db, e, before) && e !in events ==> Deletable(s'.db, e, before)
  {
    if events == [] {
      s' := s;
    } else {
      var n := |events| - 1;
      var mid := DeleteReachable(s, events[..n], before);
      assert events[n] !in events[..n];
      ReachableNext(mid, Purge(events[n], before));
      s' := Next(mid, Purge(events[n], before));
    }
  }

  /** Deleting a batch of ended events is a run of single deletions. */
  lemma DeleteReal(db: Db, events: seq<string>, before: Time, collation: string -> int, locked: set<string>, limit: nat)
    requires Real(db) && IsPick(DeletableWeights(db, before, collation, locked), limit, events)
    ensures Real(DeleteEvents(db, events))
  {
    assert forall i :: 0 <= i < |events| ==> events[i] in events;
    var s :| Reachable(s) && s.db == db;
    var s' := DeleteReachable(s, events, before);
  }

  lemma {:induction false} RedactReachable(s: State, indices: seq<nat>, before: Time) returns (s': State)
    requires Reachable(s) && Distinct(indices)
    requires forall j :: 0 <= j < |indices| ==>
               indices[j] < |s.db.attempts| && Redactable(s.db.attempts[indices[j]], before)
    ensures Reachable(s') && s'.db == RedactAll(s.db, indices) && |s'.db.attempts| == |s.db.attempts|
    ensures forall i: nat :: i < |s.db.attempts| && i !in indices ==> s'.db.attempts[i] == s.db.attempts[i]
  {
    if indices == [] {
      s' := s;
    } else {
      var n := |indices| - 1;
      var mid := RedactReachable(s, indices[..n], before);
      assert indices[n] !in indices[..n];
      assert mid.db.attempts[indices[n]] == s.db.attempts[indices[n]];
      ReachableNext(mid, RedactBody(indices[n], before));
      s' := Next(mid, RedactBody(indices[n], before));
      assert indices == indices[..n] + [indices[n]];
    }
  }

  /** Clearing a batch of bodies is a run of single redactions. */
  lemma RedactReal(db: Db, indices: seq<nat>, before: Time, locked: set<nat>, limit: nat)
    requires Real(db) && IsPick(RedactableWeights(db, before, locked), limit, indices)
    requires forall j :: 0 <= j < |indices| ==> indices[j] < |db.attempts|
    ensures Real(RedactAll(db, indices))
  {
    assert forall j :: 0 <= j < |indices| ==> indices[j] in indices;
    var s :| Reachable(s) && s.db == db;
    var s' := RedactReachable(s, indices, before);
  }
}
