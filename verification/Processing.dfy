/**
 From a claim to its outcomes: the copies a claim hands out are processed one by one, for freshly
 consumed events and for the retry poller alike (internal/kafka/handler.go:268-297).
 */
module Processing {
  import opened Collections
  import opened Domain
  import opened Execution
  import opened Store
  import opened Lease
  import opened Reachability
  import opened Repository
  import opened Handler
  import opened Simulation

  /** No event and no row went away. */
  ghost predicate Grew(db: Db, db': Db) {
    db.events.Keys <= db'.events.Keys && db.rows.Keys <= db'.rows.Keys
  }

  /** Processing claimed copies neither adds nor removes events or rows. */
  lemma {:induction false} ProcessedGrew(dbs: seq<Db>, copies: seq<Option<Row>>, observed: seq<Observed>, stop: nat,
                                         n: nat)
    requires Processed(dbs, copies, observed, stop) && n <= stop
    ensures Grew(dbs[0], dbs[n]) && dbs[n].rows.Keys == dbs[0].rows.Keys
  {
    if n > 0 {
      ProcessedGrew(dbs, copies, observed, stop, n - 1);
    }
  }

  /** Wraps claimed rows into the objects the handler works on. */
  method Unwrap(claimed: seq<Claimed>) returns (batch: seq<Delivery>)
    ensures |batch| == |claimed| && fresh(batch)
    ensures forall i :: 0 <= i < |batch| ==> batch[i].row == claimed[i].row
    ensures forall i, j :: 0 <= i < j < |batch| ==> batch[i] != batch[j]
  {
    batch := [];
    for i := 0 to |claimed|
      invariant |batch| == i && fresh(batch)
      invariant forall j :: 0 <= j < i ==> batch[j].row == claimed[j].row
      invariant forall j, m :: 0 <= j < m < i ==> batch[j] != batch[m]
    {
      var delivery := new Delivery(claimed[i].row);
      batch := batch + [delivery];
    }
  }

  /**
   What happened to the rows of a batch: the database at the claim, the rows claimed, the database after
   each outcome.
   */
  datatype Trail = Trail(atClaim: Db, keys: seq<Key>, dbs: seq<Db>)

  function Observations(copies: seq<Option<Row>>, observe: Option<Row> -> Observed): seq<Observed> {
    seq(|copies|, i requires 0 <= i < |copies| => observe(copies[i]))
  }

  /** The rows were leased at one instant, and then executed and their outcomes written, in order, as far as it went. */
  ghost predicate Worked(t: Trail, owner: string, lease: int, observe: Option<Row> -> Observed, db: Db) {
    && Distinct(t.keys) && AllClaimable(t.atClaim, t.keys)
    && t.dbs != [] && t.dbs[0] == ClaimAll(t.atClaim, t.keys, owner, lease)
    && (var copies := CopiesOf(t.dbs[0], t.keys);
        Processed(t.dbs, copies, Observations(copies, observe), |t.dbs| - 1))
    && t.dbs[|t.dbs| - 1] == db
  }

  /** Every outcome has been written. */
  predicate Complete(t: Trail) {
    |t.dbs| == |t.keys| + 1
  }

  lemma ClaimedFresh(db: Db, keys: seq<Key>, owner: string, lease: int)
    requires Real(db) && AllClaimable(db, keys) && Distinct(keys)
    ensures Fresh(ClaimAll(db, keys, owner, lease), keys)
  {
    var s :| Reachable(s) && s.db == db;
    ReachableSafe(s);
    assert forall i :: 0 <= i < |keys| ==> keys[i] in keys && RowShape(keys[i], db.rows[keys[i]]);
  }

  /** The copies are leased, executable and of stored events, as a claim on a database of the protocol leaves them. */
  ghost predicate Fresh(db: Db, keys: seq<Key>) {
    && Distinct(keys)
    && forall i :: 0 <= i < |keys| ==>
         && keys[i] in db.rows && keys[i].event in db.events
         && var d := db.rows[keys[i]];
            d.key == keys[i] && d.status == Processing && d.owner.Some? && d.deadline.Some?
  }

  /** Nothing but an outside failure stops a batch of fresh copies. */
  lemma {:induction false} FreshGoesOn(dbs: seq<Db>, keys: seq<Key>, copies: seq<Option<Row>>,
                                       observed: seq<Observed>, stop: nat)
    requires Processed(dbs, copies, observed, stop) && stop < |keys|
    requires Fresh(dbs[0], keys) && copies == CopiesOf(dbs[0], keys)
    ensures copies[stop].Some?
    ensures var d := Executed(copies[stop].value, observed[stop]);
            Fence(dbs[stop].rows, d) && d.key.event in dbs[stop].events
  {
    assert forall i :: 0 <= i < |keys| ==> copies[i] == Some(dbs[0].rows[keys[i]]);
    assert Executable(copies) && DistinctKeys(copies);
    CurrentBatchGoesOn(dbs, copies, observed, stop);
    ProcessedGrew(dbs, copies, observed, stop, stop);
    ExecutedSettles(copies[stop].value, observed[stop]);
  }

  /** A trail keeps every row, and the database one of the protocol. */
  lemma TrailReal(t: Trail, owner: string, lease: int, observe: Option<Row> -> Observed, db: Db)
    requires Worked(t, owner, lease, observe, db)
    ensures Grew(t.atClaim, db) && db.rows.Keys == t.atClaim.rows.Keys
    ensures 1 <= lease && Real(t.atClaim) ==> Real(db)
  {
    var copies := CopiesOf(t.dbs[0], t.keys);
    var observed := Observations(copies, observe);
    ProcessedGrew(t.dbs, copies, observed, |t.dbs| - 1, |t.dbs| - 1);
    if 1 <= lease && Real(t.atClaim) {
      ClaimedBatchReal(t.atClaim, t.keys, owner, lease, t.dbs, observed, |t.dbs| - 1);
    }
  }

  /** On a database of the protocol a trail ends early only where an outcome could not be persisted. */
  lemma TrailGoesOn(t: Trail, owner: string, lease: int, observe: Option<Row> -> Observed, db: Db,
                    available: seq<bool>, failure: Failure)
    requires Worked(t, owner, lease, observe, db) && |available| == |t.keys| && Real(t.atClaim)
    requires var copies := CopiesOf(t.dbs[0], t.keys);
             StoppedAt(copies, Observations(copies, observe), available, |t.dbs| - 1, failure, db)
    ensures failure != NoFailure ==> |t.dbs| <= |t.keys| && !available[|t.dbs| - 1]
  {
    ClaimedFresh(t.atClaim, t.keys, owner, lease);
    if failure != NoFailure {
      var copies := CopiesOf(t.dbs[0], t.keys);
      FreshGoesOn(t.dbs, t.keys, copies, Observations(copies, observe), |t.dbs| - 1);
    }
  }

  lemma TrailDone(t: Trail, owner: string, lease: int, observe: Option<Row> -> Observed, db: Db,
                  available: seq<bool>, failure: Failure)
    requires AllClaimable(t.atClaim, t.keys) && Distinct(t.keys) && |available| == |t.keys|
    requires t.dbs != [] && t.dbs[0] == ClaimAll(t.atClaim, t.keys, owner, lease) && t.dbs[|t.dbs| - 1] == db
    requires var copies := CopiesOf(t.dbs[0], t.keys);
             && Processed(t.dbs, copies, Observations(copies, observe), |t.dbs| - 1)
             && StoppedAt(copies, Observations(copies, observe), available, |t.dbs| - 1, failure, db)
    ensures Worked(t, owner, lease, observe, db) && (failure == NoFailure <==> Complete(t))
    ensures failure != NoFailure && Real(t.atClaim) ==> |t.dbs| <= |t.keys| && !available[|t.dbs| - 1]
  {
    if Real(t.atClaim) {
      TrailGoesOn(t, owner, lease, observe, db, available, failure);
    }
  }

  /** Processes freshly claimed rows, until one outcome cannot be persisted. */
  method ProcessClaimed(repo: EventRepository, claimed: seq<Claimed>, available: nat -> bool,
                        observe: Option<Row> -> Observed, ghost atClaim: Db, ghost keys: seq<Key>, ghost owner: string,
                        ghost lease: int)
    returns (lists: Lists, failure: Failure, ghost trail: Trail)
    requires AllClaimable(atClaim, keys) && Distinct(keys) && repo.Db() == ClaimAll(atClaim, keys, owner, lease)
    requires |claimed| == |keys|
    requires forall i :: 0 <= i < |keys| ==> keys[i] in repo.rows && claimed[i].row == repo.rows[keys[i]]
    modifies repo
    ensures trail.atClaim == atClaim && trail.keys == keys && Worked(trail, owner, lease, observe, repo.Db())
    ensures failure == NoFailure <==> Complete(trail)
    ensures failure != NoFailure && Real(atClaim) ==> |trail.dbs| <= |keys| && !available(|trail.dbs| - 1)
  {
    var up := seq(|claimed|, i requires 0 <= i < |claimed| => available(i));
    ghost var dbs;
    lists, failure, dbs := ProcessCopies(repo, claimed, up, observe, keys);
    trail := Trail(atClaim, keys, dbs);
    TrailDone(trail, owner, lease, observe, repo.Db(), up, failure);
  }

  /** Wraps the claimed rows and hands them to the handler. */
  method ProcessCopies(repo: EventRepository, claimed: seq<Claimed>, available: seq<bool>,
                       observe: Option<Row> -> Observed, ghost keys: seq<Key>)
    returns (lists: Lists, failure: Failure, ghost dbs: seq<Db>)
    requires |claimed| == |keys| == |available|
    requires forall i :: 0 <= i < |keys| ==> keys[i] in repo.rows && claimed[i].row == repo.rows[keys[i]]
    modifies repo
    ensures dbs != [] && dbs[0] == old(repo.Db()) && dbs[|dbs| - 1] == repo.Db()
    ensures var copies := CopiesOf(old(repo.Db()), keys);
            && Processed(dbs, copies, Observations(copies, observe), |dbs| - 1)
            && StoppedAt(copies, Observations(copies, observe), available, |dbs| - 1, failure, repo.Db())
  {
    var batch := Unwrap(claimed);
    var copies := seq(|claimed|, i requires 0 <= i < |claimed| => Some(claimed[i].row));
    assert copies == CopiesOf(repo.Db(), keys);
    var observed := Observations(copies, observe);
    ghost var stop;
    lists, failure, dbs, stop := ProcessDeliveries(repo, batch, observed, available, copies);
  }
}
