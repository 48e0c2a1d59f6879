/**
 The delivery handler: executing a batch of claimed copies one by one and writing each outcome
 (internal/kafka/handler.go:299-329).
 */
module Handler {
  import opened Domain
  import opened Execution
  import opened Store
  import opened Repository

  /* Executing claimed copies */

  /** The outcome of executing `copy` was written to `db`, giving `db'`. */
  ghost predicate Wrote(db: Db, copy: Row, o: Observed, db': Db) {
    exists listing ::
      && IsListing(db.rows, copy.key.event, listing)
      && Persist(db, Executed(copy, o), Deliver(copy, o).attempts, listing) == Some(db')
  }

  /**
   `dbs` is the database after each of the first `stop` copies of a batch: a nil entry changes nothing,
   any other one has its outcome written.
   */
  ghost predicate Processed(dbs: seq<Db>, copies: seq<Option<Row>>, observed: seq<Observed>, stop: nat) {
    && |observed| == |copies| && stop <= |copies| && |dbs| == stop + 1
    && forall i :: 0 <= i < stop ==>
         if copies[i].None? then dbs[i + 1] == dbs[i] else Wrote(dbs[i], copies[i].value, observed[i], dbs[i + 1])
  }

  lemma ProcessedExtends(dbs: seq<Db>, copies: seq<Option<Row>>, observed: seq<Observed>, i: nat, db: Db)
    requires Processed(dbs, copies, observed, i) && i < |copies|
    requires if copies[i].None? then db == dbs[i] else Wrote(dbs[i], copies[i].value, observed[i], db)
    ensures Processed(dbs + [db], copies, observed, i + 1)
  {
    var dbs' := dbs + [db];
    assert forall j :: 0 <= j <= i ==> dbs'[j] == dbs[j];
    assert dbs'[i + 1] == db;
  }

  ghost predicate DistinctKeys(copies: seq<Option<Row>>) {
    forall i, j :: 0 <= i < j < |copies| && copies[i].Some? && copies[j].Some? ==>
      copies[i].value.key != copies[j].value.key
  }

  lemma WroteMeans(db: Db, copy: Row, o: Observed, db': Db)
    requires Wrote(db, copy, o, db') && copy.status == Processing
    ensures db'.now == db.now && copy.key in db.rows
    ensures db'.rows == db.rows[copy.key := Settled(db.rows[copy.key], Executed(copy, o))]
    ensures db'.attempts == db.attempts + Stamped(Deliver(copy, o).attempts, db.now)
    ensures db.rows[copy.key].status == Processing
    ensures db.rows[copy.key].owner == copy.owner && db.rows[copy.key].deadline == copy.deadline
  {
    ExecutedSettles(copy, o);
  }

  ghost predicate Executable(copies: seq<Option<Row>>) {
    forall c <- copies :: c.Some? ==> c.value.status == Processing
  }

  /** A row none of the first `n` copies is for stays as it was. */
  lemma {:induction false} BatchKeeps(dbs: seq<Db>, copies: seq<Option<Row>>, observed: seq<Observed>, stop: nat,
                                      n: nat, k: Key)
    requires Processed(dbs, copies, observed, stop) && Executable(copies) && n <= stop
    requires forall i :: 0 <= i < n && copies[i].Some? ==> copies[i].value.key != k
    ensures k in dbs[n].rows <==> k in dbs[0].rows
    ensures k in dbs[0].rows ==> dbs[n].rows[k] == dbs[0].rows[k]
  {
    if n > 0 {
      BatchKeeps(dbs, copies, observed, stop, n - 1, k);
      if copies[n - 1].Some? {
        assert copies[n - 1] in copies;
        WroteMeans(dbs[n - 1], copies[n - 1].value, observed[n - 1], dbs[n]);
      }
    }
  }

  /** The outcome of copy `i` stays in the database while the later copies are processed. */
  lemma {:induction false} BatchSettles(dbs: seq<Db>, copies: seq<Option<Row>>, observed: seq<Observed>, stop: nat,
                                        n: nat, i: nat)
    requires Processed(dbs, copies, observed, stop) && Executable(copies) && DistinctKeys(copies)
    requires i < n <= stop && copies[i].Some?
    ensures var k := copies[i].value.key;
            && k in dbs[0].rows && k in dbs[n].rows
            && dbs[n].rows[k] == Settled(dbs[0].rows[k], Executed(copies[i].value, observed[i]))
    decreases n
  {
    var m := n - 1;
    if i == m {
      assert copies[i] in copies;
      BatchKeeps(dbs, copies, observed, stop, i, copies[i].value.key);
      WroteMeans(dbs[i], copies[i].value, observed[i], dbs[n]);
    } else {
      BatchSettles(dbs, copies, observed, stop, m, i);
      if copies[m].Some? {
        assert copies[m] in copies;
        WroteMeans(dbs[m], copies[m].value, observed[m], dbs[n]);
      }
    }
  }

  /**
   Batch prefix: after a batch that stopped at index `stop`, exactly the non-nil copies before it have
   their outcome in the database, and every other row, in particular those from `stop` on with their
   leases, is as it was.
   */
  lemma {:induction false} BatchPrefix(dbs: seq<Db>, copies: seq<Option<Row>>, observed: seq<Observed>, stop: nat,
                                       k: Key)
    requires Processed(dbs, copies, observed, stop) && Executable(copies) && DistinctKeys(copies)
    ensures (exists i :: 0 <= i < stop && copies[i].Some? && copies[i].value.key == k) ==>
              && k in dbs[0].rows && k in dbs[stop].rows
              && exists i :: 0 <= i < stop && copies[i].Some? && copies[i].value.key == k &&
                             dbs[stop].rows[k] == Settled(dbs[0].rows[k], Executed(copies[i].value, observed[i]))
    ensures !(exists i :: 0 <= i < stop && copies[i].Some? && copies[i].value.key == k) ==>
              (k in dbs[stop].rows <==> k in dbs[0].rows) &&
              (k in dbs[0].rows ==> dbs[stop].rows[k] == dbs[0].rows[k])
  {
    if i :| 0 <= i < stop && copies[i].Some? && copies[i].value.key == k {
      BatchSettles(dbs, copies, observed, stop, stop, i);
    } else {
      BatchKeeps(dbs, copies, observed, stop, stop, k);
    }
  }

  /** A batch of copies that are still current does not stop by itself: the next write passes the fence. */
  lemma {:induction false} CurrentBatchGoesOn(dbs: seq<Db>, copies: seq<Option<Row>>, observed: seq<Observed>,
                                              stop: nat)
    requires Processed(dbs, copies, observed, stop) && Executable(copies) && DistinctKeys(copies)
    requires stop < |copies| && copies[stop].Some?
    requires var c := copies[stop].value;
             c.owner.Some? && c.deadline.Some? && c.key in dbs[0].rows && dbs[0].rows[c.key] == c
    ensures Fence(dbs[stop].rows, Executed(copies[stop].value, observed[stop]))
  {
    var c := copies[stop].value;
    assert copies[stop] in copies;
    BatchKeeps(dbs, copies, observed, stop, stop, c.key);
    ExecutedSettles(c, observed[stop]);
  }

  /** The result list a status belongs to. */
  datatype Bucket = InDelivered | InRetrying | InFailed | Nowhere

  function BucketOf(s: Status): Bucket {
    match s
    case Delivered => InDelivered
    case Retrying => InRetrying
    case Throttled => InRetrying
    case Failed => InFailed
    case _ => Nowhere
  }

  /** The list each entry of a batch ends up in; nil entries are in none. */
  function Buckets(copies: seq<Option<Row>>, observed: seq<Observed>): seq<Bucket>
    requires |copies| == |observed|
  {
    seq(|copies|, i requires 0 <= i < |copies| =>
      if copies[i].None? then Nowhere else BucketOf(Executed(copies[i].value, observed[i]).status))
  }

  /** The deliveries of one list, in order. */
  ghost function Sorted(batch: seq<Delivery?>, buckets: seq<Bucket>, b: Bucket): seq<Delivery>
    requires |batch| <= |buckets|
  {
    if batch == [] then []
    else
      var n := |batch| - 1;
      Sorted(batch[..n], buckets, b) + (if batch[n] != null && buckets[n] == b then [batch[n]] else [])
  }

  /** The three result lists after the first `n` entries of a batch. */
  datatype Lists = Lists(delivered: seq<Delivery>, retrying: seq<Delivery>, failed: seq<Delivery>)

  ghost predicate ListsOk(batch: seq<Delivery?>, buckets: seq<Bucket>, n: nat, lists: Lists)
    requires n <= |batch| <= |buckets|
  {
    && lists.delivered == Sorted(batch[..n], buckets, InDelivered)
    && lists.retrying == Sorted(batch[..n], buckets, InRetrying)
    && lists.failed == Sorted(batch[..n], buckets, InFailed)
  }

  /** Appends a finished delivery to the list its status names. */
  function Sort(lists: Lists, delivery: Delivery, s: Status): Lists {
    match s
    case Delivered => lists.(delivered := lists.delivered + [delivery])
    case Retrying => lists.(retrying := lists.retrying + [delivery])
    case Throttled => lists.(retrying := lists.retrying + [delivery])
    case Failed => lists.(failed := lists.failed + [delivery])
    case _ => lists
  }

  lemma SortOk(batch: seq<Delivery?>, buckets: seq<Bucket>, n: nat, lists: Lists, s: Status)
    requires n < |batch| <= |buckets| && ListsOk(batch, buckets, n, lists)
    requires batch[n] != null ==> buckets[n] == BucketOf(s)
    ensures ListsOk(batch, buckets, n + 1, if batch[n] == null then lists else Sort(lists, batch[n], s))
  {
    assert batch[..n + 1][..n] == batch[..n];
  }

  /** One round: the rate check and the call, the effect on the copy, and the fenced write. */
  method ProcessOne(repo: EventRepository, delivery: Delivery, o: Observed, available: bool) returns (failure: Failure)
    modifies repo, delivery
    ensures delivery.row == Executed(old(delivery.row), o)
    ensures failure == NoFailure ==> Wrote(old(repo.Db()), old(delivery.row), o, repo.Db())
    ensures failure != NoFailure ==> repo.Db() == old(repo.Db())
    ensures failure != NoFailure && available ==>
              (failure == ClaimLost && !Fence(repo.rows, delivery.row)) || delivery.row.key.event !in repo.events
  {
    var result := Deliver(delivery.row, o);
    ApplyDeliveryResult(delivery, result, o);
    ghost var listing;
    failure, listing := WriteOutcome(repo, delivery.row, result.attempts, available);
  }

  method WriteOutcome(repo: EventRepository, copy: Row, made: seq<AttemptRow>, available: bool)
    returns (failure: Failure, ghost listing: seq<Key>)
    modifies repo
    ensures failure == NoFailure ==>
              IsListing(old(repo.rows), copy.key.event, listing)
              && Persist(old(repo.Db()), copy, made, listing) == Some(repo.Db())
    ensures failure != NoFailure ==> repo.Db() == old(repo.Db())
    ensures failure != NoFailure && available ==>
              (failure == ClaimLost && !Fence(repo.rows, copy)) || copy.key.event !in repo.events
  {
    var listed;
    failure, listed := repo.PersistClaimedDeliveryOutcome(Some(copy), made, available);
    listing := listed;
  }

  /** How a batch ended: all of it processed, or stopped at a copy whose outcome could not be written. */
  ghost predicate StoppedAt(copies: seq<Option<Row>>, observed: seq<Observed>, available: seq<bool>, stop: nat,
                            failure: Failure, db: Db)
    requires |observed| == |available| == |copies|
  {
    if failure == NoFailure then stop == |copies|
    else
      && stop < |copies| && copies[stop].Some?
      && (available[stop] ==>
            var d := Executed(copies[stop].value, observed[stop]);
            !Fence(db.rows, d) || d.key.event !in db.events)
  }

  /** From index `n` on the deliveries still hold the rows they were claimed with. */
  ghost predicate Untouched(batch: seq<Delivery?>, copies: seq<Option<Row>>, n: nat)
    reads set d | d in batch && d != null :: d
  {
    |copies| == |batch| &&
    forall i :: n <= i < |batch| ==>
      copies[i] == if batch[i] == null then None else assert batch[i] in batch; Some(batch[i].row)
  }

  /** The first `n` deliveries hold what executing them gave. */
  ghost predicate Handled(batch: seq<Delivery?>, copies: seq<Option<Row>>, observed: seq<Observed>, n: nat)
    reads set d | d in batch && d != null :: d
  {
    |copies| == |batch| == |observed| && n <= |batch| &&
    forall i :: 0 <= i < n && batch[i] != null ==>
      assert batch[i] in batch; copies[i].Some? && batch[i].row == Executed(copies[i].value, observed[i])
  }

  /**
   One iteration: nil entries are skipped, any other delivery is processed and listed before its failure is
   looked at.
   */
  method ProcessNext(repo: EventRepository, batch: seq<Delivery?>, o: Observed, available: bool, before: Lists, i: nat,
                     ghost copies: seq<Option<Row>>, ghost observed: seq<Observed>)
    returns (lists: Lists, failure: Failure)
    requires i < |batch| && |observed| == |copies| && Untouched(batch, copies, i) && observed[i] == o
    requires forall m, j :: 0 <= m < j < |batch| && batch[m] != null ==> batch[m] != batch[j]
    requires ListsOk(batch, Buckets(copies, observed), i, before) && Handled(batch, copies, observed, i)
    modifies repo, set d | d in batch && d != null :: d
    ensures Untouched(batch, copies, i + 1)
    ensures ListsOk(batch, Buckets(copies, observed), i + 1, lists) && Handled(batch, copies, observed, i + 1)
    ensures failure != NoFailure ==> repo.Db() == old(repo.Db()) && copies[i].Some?
    ensures failure != NoFailure && available ==>
              var d := Executed(copies[i].value, o);
              !Fence(repo.rows, d) || d.key.event !in repo.events
    ensures failure == NoFailure ==>
              if copies[i].None? then repo.Db() == old(repo.Db())
              else Wrote(old(repo.Db()), copies[i].value, o, repo.Db())
  {
    lists, failure := before, NoFailure;
    var delivery := batch[i];
    if delivery == null {
      SortOk(batch, Buckets(copies, observed), i, lists, Pending);
      return;
    }
    assert delivery in batch;
    failure := ProcessOne(repo, delivery, o, available);
    SortOk(batch, Buckets(copies, observed), i, lists, delivery.row.status);
    lists := Sort(lists, delivery, delivery.row.status);
  }

  /** The source's loop over claimed deliveries; it stops at the first outcome that cannot be persisted. */
  method ProcessDeliveries(repo: EventRepository, batch: seq<Delivery?>, observed: seq<Observed>, available: seq<bool>,
                           ghost copies: seq<Option<Row>>)
    returns (lists: Lists, failure: Failure, ghost dbs: seq<Db>, ghost stop: nat)
    requires |observed| == |batch| == |available| == |copies|
    requires forall i, j :: 0 <= i < j < |batch| && batch[i] != null ==> batch[i] != batch[j]
    requires Untouched(batch, copies, 0)
    modifies repo, set d | d in batch && d != null :: d
    ensures Processed(dbs, copies, observed, stop) && dbs[0] == old(repo.Db()) && dbs[stop] == repo.Db()
    ensures StoppedAt(copies, observed, available, stop, failure, repo.Db())
    ensures Untouched(batch, copies, if failure == NoFailure then stop else stop + 1)
    ensures ListsOk(batch, Buckets(copies, observed), if failure == NoFailure then stop else stop + 1, lists)
    ensures Handled(batch, copies, observed, if failure == NoFailure then stop else stop + 1)
    ensures Executable(copies) ==> Partitioned(batch, if failure == NoFailure then stop else stop + 1, lists)
    ensures forall d <- lists.delivered :: d.row.status == Delivered
    ensures forall d <- lists.retrying :: d.row.status == Retrying || d.row.status == Throttled
    ensures forall d <- lists.failed :: d.row.status == Failed
  {
    assert SameNils(batch, copies);
    lists, failure, dbs, stop := ProcessInOrder(repo, batch, observed, available, copies);
    ListsPartition(batch, copies, observed, if failure == NoFailure then stop else stop + 1, lists);
    ListsStatuses(batch, copies, observed, if failure == NoFailure then stop else stop + 1, lists);
  }

  /** Each list holds deliveries of its own statuses only. */
  lemma ListsStatuses(batch: seq<Delivery?>, copies: seq<Option<Row>>, observed: seq<Observed>, n: nat, lists: Lists)
    requires Handled(batch, copies, observed, n) && ListsOk(batch, Buckets(copies, observed), n, lists)
    ensures forall d <- lists.delivered :: d.row.status == Delivered
    ensures forall d <- lists.retrying :: d.row.status == Retrying || d.row.status == Throttled
    ensures forall d <- lists.failed :: d.row.status == Failed
  {
    var buckets := Buckets(copies, observed);
    forall d | d in lists.delivered {
      SortedFrom(batch[..n], buckets, InDelivered, d);
    }
    forall d | d in lists.retrying {
      SortedFrom(batch[..n], buckets, InRetrying, d);
    }
    forall d | d in lists.failed {
      SortedFrom(batch[..n], buckets, InFailed, d);
    }
  }

  lemma {:induction false} SortedFrom(batch: seq<Delivery?>, buckets: seq<Bucket>, b: Bucket, d: Delivery)
    requires |batch| <= |buckets| && d in Sorted(batch, buckets, b)
    ensures exists i :: 0 <= i < |batch| && batch[i] == d && buckets[i] == b
  {
    var n := |batch| - 1;
    if d in Sorted(batch[..n], buckets, b) {
      SortedFrom(batch[..n], buckets, b, d);
      var i :| 0 <= i < n && batch[..n][i] == d && buckets[i] == b;
      assert batch[i] == d;
    } else {
      assert batch[n] == d;
    }
  }

  /** Together the lists hold each of the first `n` deliveries once. */
  ghost predicate Partitioned(batch: seq<Delivery?>, n: nat, lists: Lists)
    requires n <= |batch|
  {
    multiset(lists.delivered + lists.retrying + lists.failed) == multiset(NonNil(batch[..n]))
  }

  method ProcessInOrder(repo: EventRepository, batch: seq<Delivery?>, observed: seq<Observed>, available: seq<bool>,
                        ghost copies: seq<Option<Row>>)
    returns (lists: Lists, failure: Failure, ghost dbs: seq<Db>, ghost stop: nat)
    requires |observed| == |batch| == |available| == |copies|
    requires forall i, j :: 0 <= i < j < |batch| && batch[i] != null ==> batch[i] != batch[j]
    requires Untouched(batch, copies, 0)
    modifies repo, set d | d in batch && d != null :: d
    ensures Processed(dbs, copies, observed, stop) && dbs[0] == old(repo.Db()) && dbs[stop] == repo.Db()
    ensures StoppedAt(copies, observed, available, stop, failure, repo.Db())
    ensures Untouched(batch, copies, if failure == NoFailure then stop else stop + 1)
    ensures ListsOk(batch, Buckets(copies, observed), if failure == NoFailure then stop else stop + 1, lists)
    ensures Handled(batch, copies, observed, if failure == NoFailure then stop else stop + 1)
  {
    lists, failure := Lists([], [], []), NoFailure;
    dbs, stop := [repo.Db()], 0;
    for i := 0 to |batch|
      invariant stop == i && failure == NoFailure
      invariant Processed(dbs, copies, observed, i) && dbs[0] == old(repo.Db()) && dbs[i] == repo.Db()
      invariant Untouched(batch, copies, i)
      invariant ListsOk(batch, Buckets(copies, observed), i, lists) && Handled(batch, copies, observed, i)
    {
      lists, failure := ProcessNext(repo, batch, observed[i], available[i], lists, i, copies, observed);
      if failure != NoFailure {
        return;
      }
      ProcessedExtends(dbs, copies, observed, i, repo.Db());
      dbs, stop := dbs + [repo.Db()], i + 1;
    }
  }

  predicate SameNils(batch: seq<Delivery?>, copies: seq<Option<Row>>) {
    |batch| == |copies| && forall i :: 0 <= i < |batch| ==> (batch[i] == null <==> copies[i].None?)
  }

  /** The three lists after `n` copies of processing rows hold each delivery handled so far once. */
  lemma ListsPartition(batch: seq<Delivery?>, copies: seq<Option<Row>>, observed: seq<Observed>, n: nat, lists: Lists)
    requires |copies| == |observed| && SameNils(batch, copies) && n <= |batch|
    requires ListsOk(batch, Buckets(copies, observed), n, lists)
    ensures Executable(copies) ==> Partitioned(batch, n, lists)
  {
    if Executable(copies) {
      var buckets := Buckets(copies, observed);
      forall i | 0 <= i < n && batch[i] != null
        ensures buckets[i] != Nowhere
      {
        BucketsSettled(copies, observed, i);
      }
      SortedPartition(batch[..n], buckets);
    }
  }

  /** Every handled delivery is in exactly one of the three lists: together they hold each of them once. */
  lemma {:induction false} SortedPartition(batch: seq<Delivery?>, buckets: seq<Bucket>)
    requires |batch| <= |buckets|
    requires forall i :: 0 <= i < |batch| && batch[i] != null ==> buckets[i] != Nowhere
    ensures multiset(Sorted(batch, buckets, InDelivered) + Sorted(batch, buckets, InRetrying)
                     + Sorted(batch, buckets, InFailed)) == multiset(NonNil(batch))
  {
    if batch != [] {
      SortedPartition(batch[..|batch| - 1], buckets);
    }
  }

  /** Copies of processing rows always end up in one of the three lists. */
  lemma BucketsSettled(copies: seq<Option<Row>>, observed: seq<Observed>, i: nat)
    requires |copies| == |observed| && Executable(copies) && i < |copies| && copies[i].Some?
    ensures Buckets(copies, observed)[i] != Nowhere
  {
    assert copies[i] in copies;
    ExecutedSettles(copies[i].value, observed[i]);
  }

  function NonNil(batch: seq<Delivery?>): seq<Delivery> {
    if batch == [] then []
    else NonNil(batch[..|batch| - 1]) + (if batch[|batch| - 1] == null then [] else [batch[|batch| - 1]])
  }
}
