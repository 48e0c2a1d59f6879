/**
 Outcome and replay transactions that overlap, as READ COMMITTED lets them
 (internal/repository/postgres/event.go:168-194, 309-349, 464-485): each writes its row, lists the
 committed rows of its event together with its own, and later commits the projection of what it listed.
 Claims and inserts commit in between. All rows here belong to one event.
 */
module Overlap {
  import opened Domain
  import opened Projection
  import opened Execution
  import opened Store
  import opened Agreement

  /** A transaction between its listing and its commit; `missed` is the siblings committed since it listed. */
  datatype Txn = Txn(key: Key, row: Row, view: map<Key, Row>, written: EventProjection, missed: set<Key>)

  /** The committed rows, the stored event, the transactions under way, and the one committed last. */
  datatype Board = Board(rows: map<Key, Row>, stored: EventProjection, open: seq<Txn>, last: Option<Txn>)

  datatype Step =
    | Insert(row: Row)
    | Lease(key: Key, owner: string, lease: int, now: Time)
    | BeginOutcome(copy: Row, observed: Observed, listing: seq<Key>, now: Time)
    | BeginReplay(key: Key, at: Time, listing: seq<Key>, now: Time)
    | Finish(index: nat)
    | Abort(index: nat)

  predicate Locked(open: seq<Txn>, k: Key) {
    exists t <- open :: t.key == k
  }

  /** What a transaction on `k` lists: the committed rows, and its own as it will be. */
  function View(rows: map<Key, Row>, row: Row): map<Key, Row> {
    rows[row.key := row]
  }

  /** The row an outcome, or a replay, writes. */
  function Written(b: Board, copy: Row, o: Observed): Row
    requires copy.key in b.rows
  {
    Settled(b.rows[copy.key], Executed(copy, o))
  }

  ghost predicate Enabled(b: Board, step: Step, e: string) {
    match step
    case Insert(row) => row.key !in b.rows && row.key.event == e && row.status == Pending
    case Lease(k, _, _, now) => k in b.rows && Claimable(b.rows[k], now) && !Locked(b.open, k)
    case BeginOutcome(copy, o, listing, _) =>
      && copy.status == Processing && Fence(b.rows, copy) && !Locked(b.open, copy.key)
      && IsListing(View(b.rows, Written(b, copy, o)), e, listing)
    case BeginReplay(k, at, listing, _) =>
      && k in b.rows && AsReplayed(b.rows[k], at).Some? && !Locked(b.open, k)
      && IsListing(View(b.rows, AsReplayed(b.rows[k], at).value), e, listing)
    case Finish(i) => i < |b.open|
    case Abort(i) => i < |b.open|
  }

  function Begin(b: Board, row: Row, listing: seq<Key>, now: Time): Board
    requires forall k <- listing :: k in View(b.rows, row)
  {
    var view := View(b.rows, row);
    b.(open := b.open + [Txn(row.key, row, view, Project(Listed(view, listing), now), {})])
  }

  function Without(open: seq<Txn>, i: nat): seq<Txn>
    requires i < |open|
  {
    open[..i] + open[i + 1..]
  }

  function Missing(open: seq<Txn>, k: Key): seq<Txn> {
    seq(|open|, i requires 0 <= i < |open| => open[i].(missed := open[i].missed + {k}))
  }

  ghost function Next(b: Board, step: Step, e: string): Board
    requires Enabled(b, step, e)
  {
    match step
    case Insert(row) => b.(rows := b.rows[row.key := row])
    case Lease(k, owner, lease, now) => b.(rows := b.rows[k := Leased(b.rows[k], owner, lease, now)])
    case BeginOutcome(copy, o, listing, now) => Begin(b, Written(b, copy, o), listing, now)
    case BeginReplay(k, at, listing, now) => Begin(b, AsReplayed(b.rows[k], at).value, listing, now)
    case Finish(i) =>
      var t := b.open[i];
      Board(b.rows[t.key := t.row], t.written, Missing(Without(b.open, i), t.key), Some(t))
    case Abort(i) => b.(open := Without(b.open, i))
  }

  ghost predicate IsRun(bs: seq<Board>, steps: seq<Step>, e: string) {
    && |bs| == |steps| + 1
    && bs[0].rows == map[] && bs[0].open == [] && bs[0].last == None
    && forall i :: 0 <= i < |steps| ==> Enabled(bs[i], steps[i], e) && bs[i + 1] == Next(bs[i], steps[i], e)
  }

  /* The invariant */

  ghost predicate RowsOk(rows: map<Key, Row>, e: string) {
    forall k <- rows :: k.event == e && rows[k].key == k
  }

  /** What a transaction lists and writes belong together. */
  ghost predicate Consistent(t: Txn, e: string) {
    && RowsOk(t.view, e) && t.key in t.view && t.view[t.key] == t.row && t.key !in t.missed
    && Mirrors(t.view, e, t.written)
    && (Terminal(t.written.status) <==> Ended(t.view, e))
    && (t.written.status == Delivered <==> !SomeFailed(t.view) && Ended(t.view, e))
  }

  ghost predicate SomeFailed(rows: map<Key, Row>) {
    exists k <- rows :: rows[k].status == Failed
  }

  /**
   A sibling it did not miss is as it was listed, or has been opened since; one listed as delivered is as it
   was in any case.
   */
  ghost predicate UpToDate(rows: map<Key, Row>, t: Txn, k: Key) {
    k in rows ==>
      && (k in t.missed || (k in t.view && t.view[k] == rows[k]) || !Terminal(rows[k].status))
      && (k in t.view && t.view[k].status == Delivered ==> t.view[k] == rows[k])
  }

  ghost predicate TxnOk(rows: map<Key, Row>, t: Txn, e: string) {
    Consistent(t, e) && t.view.Keys <= rows.Keys && forall k <- rows :: k != t.key ==> UpToDate(rows, t, k)
  }

  /** The row a transaction has locked is there, and not delivered. */
  ghost predicate LockOk(rows: map<Key, Row>, t: Txn) {
    t.key in rows && rows[t.key].status != Delivered
  }

  ghost predicate LastOk(b: Board, e: string) {
    match b.last
    case None => forall k <- b.rows :: !Terminal(b.rows[k].status)
    case Some(t) => TxnOk(b.rows, t, e) && UpToDate(b.rows, t, t.key) && b.stored == t.written
  }

  ghost predicate BoardOk(b: Board, e: string) {
    && RowsOk(b.rows, e)
    && (forall t <- b.open :: TxnOk(b.rows, t, e) && LockOk(b.rows, t))
    && (forall i, j :: 0 <= i < j < |b.open| ==> b.open[i].key != b.open[j].key)
    && LastOk(b, e)
  }

  /** Opening a row, or adding an open one, keeps a transaction up to date. */
  lemma OpenedOk(rows: map<Key, Row>, k: Key, row: Row, t: Txn, e: string)
    requires TxnOk(rows, t, e) && !Terminal(row.status) && (k in rows ==> rows[k].status != Delivered)
    ensures TxnOk(rows[k := row], t, e)
    ensures UpToDate(rows, t, t.key) ==> UpToDate(rows[k := row], t, t.key)
  {
    var rows' := rows[k := row];
    forall j | j in rows' && j != t.key
      ensures UpToDate(rows', t, j)
    {
      assert j in rows ==> UpToDate(rows, t, j);
    }
  }

  /** A listing projects to an ended event exactly when all rows have ended, and to a delivered one when none failed. */
  lemma ProjectedEnds(view: map<Key, Row>, e: string, listing: seq<Key>, now: Time)
    requires IsListing(view, e, listing) && RowsOk(view, e)
    ensures Terminal(Project(Listed(view, listing), now).status) <==> Ended(view, e)
    ensures Project(Listed(view, listing), now).status == Delivered <==> !SomeFailed(view) && Ended(view, e)
  {
    ListedMembers(view, e, listing);
    TopStatusEnds(Listed(view, listing));
  }

  lemma BeginOk(b: Board, row: Row, listing: seq<Key>, now: Time, e: string)
    requires BoardOk(b, e) && row.key in b.rows && b.rows[row.key].status != Delivered && !Locked(b.open, row.key)
    requires IsListing(View(b.rows, row), e, listing)
    ensures BoardOk(Begin(b, row, listing, now), e)
  {
    var b' := Begin(b, row, listing, now);
    BegunOk(b.rows, row, listing, now, e);
    assert forall t <- b'.open :: t in b.open || t == b'.open[|b.open|];
  }

  lemma BegunOk(rows: map<Key, Row>, row: Row, listing: seq<Key>, now: Time, e: string)
    requires RowsOk(rows, e) && row.key in rows && IsListing(View(rows, row), e, listing)
    ensures var view := View(rows, row);
            TxnOk(rows, Txn(row.key, row, view, Project(Listed(view, listing), now), {}), e)
  {
    var view := View(rows, row);
    assert RowsOk(view, e) && row.key in view;
    ReprojectMirrors(view, e, listing, now);
    ProjectedEnds(view, e, listing, now);
  }

  /** A sibling's commit is missed by every other transaction under way. */
  lemma MissedOk(rows: map<Key, Row>, done: Txn, t: Txn, e: string)
    requires TxnOk(rows, t, e) && TxnOk(rows, done, e) && t.key != done.key && LockOk(rows, done)
    ensures TxnOk(rows[done.key := done.row], t.(missed := t.missed + {done.key}), e)
  {
    var t' := t.(missed := t.missed + {done.key});
    forall k | k in rows && k != t.key
      ensures UpToDate(rows[done.key := done.row], t', k)
    {
      assert UpToDate(rows, t, k);
    }
  }

  lemma FinishedOpen(b: Board, i: nat, j: nat, e: string)
    requires BoardOk(b, e) && i < |b.open| && j < |b.open| - 1
    ensures var done, open' := b.open[i], Missing(Without(b.open, i), b.open[i].key);
            && open'[j].key == b.open[if j < i then j else j + 1].key
            && TxnOk(b.rows[done.key := done.row], open'[j], e) && LockOk(b.rows[done.key := done.row], open'[j])
  {
    var was := if j < i then j else j + 1;
    assert b.open[was] in b.open && b.open[i] in b.open;
    MissedOk(b.rows, b.open[i], b.open[was], e);
  }

  /** The transaction just committed is up to date with its own row, and as before with the others. */
  lemma FinishedLast(rows: map<Key, Row>, done: Txn, e: string)
    requires TxnOk(rows, done, e)
    ensures TxnOk(rows[done.key := done.row], done, e) && UpToDate(rows[done.key := done.row], done, done.key)
  {
    forall k | k in rows && k != done.key
      ensures UpToDate(rows[done.key := done.row], done, k)
    {
      assert UpToDate(rows, done, k);
    }
  }

  lemma FinishOk(b: Board, i: nat, e: string)
    requires BoardOk(b, e) && i < |b.open|
    ensures BoardOk(Next(b, Finish(i), e), e)
  {
    var b' := Next(b, Finish(i), e);
    assert b.open[i] in b.open;
    FinishedLast(b.rows, b.open[i], e);
    forall j | 0 <= j < |b'.open|
      ensures b'.open[j].key == b.open[if j < i then j else j + 1].key
      ensures TxnOk(b'.rows, b'.open[j], e) && LockOk(b'.rows, b'.open[j])
    {
      FinishedOpen(b, i, j, e);
    }
  }

  lemma StepOk(b: Board, step: Step, e: string)
    requires BoardOk(b, e) && Enabled(b, step, e)
    ensures BoardOk(Next(b, step, e), e)
  {
    match step
    case Insert(row) => OpenedBoard(b, row, e);
    case Lease(k, owner, lease, now) => OpenedBoard(b, Leased(b.rows[k], owner, lease, now), e);
    case BeginOutcome(copy, o, listing, now) => BeginOk(b, Written(b, copy, o), listing, now, e);
    case BeginReplay(k, at, listing, now) => BeginOk(b, AsReplayed(b.rows[k], at).value, listing, now, e);
    case Finish(i) => FinishOk(b, i, e);
    case Abort(i) => AbortOk(b, i, e);
  }

  lemma OpenedBoard(b: Board, row: Row, e: string)
    requires BoardOk(b, e) && row.key.event == e && !Terminal(row.status)
    requires row.key in b.rows ==> b.rows[row.key].status != Delivered
    ensures BoardOk(b.(rows := b.rows[row.key := row]), e)
  {
    forall t | t in b.open || b.last == Some(t) {
      OpenedOk(b.rows, row.key, row, t, e);
    }
  }

  lemma AbortOk(b: Board, i: nat, e: string)
    requires BoardOk(b, e) && i < |b.open|
    ensures BoardOk(b.(open := Without(b.open, i)), e)
  {
    assert forall t <- Without(b.open, i) :: t in b.open;
  }

  lemma {:induction false} RunOk(bs: seq<Board>, steps: seq<Step>, e: string, i: nat)
    requires IsRun(bs, steps, e) && i < |bs|
    ensures BoardOk(bs[i], e)
  {
    if i > 0 {
      RunOk(bs, steps, e, i - 1);
      StepOk(bs[i - 1], steps[i - 1], e);
    }
  }

  /* When the stored event tells the truth */

  /** Some sibling the transaction listed as open was committed before it. */
  ghost predicate Overtaken(t: Txn) {
    exists k <- t.missed :: k in t.view && !Terminal(t.view[k].status)
  }

  /** A sibling inserted since the listing ended failed, and nothing that was listed had failed. */
  ghost predicate NewFailure(rows: map<Key, Row>, t: Txn) {
    && !SomeFailed(t.view)
    && exists k <- t.missed :: k in rows && k !in t.view && rows[k].status == Failed
  }

  /** Some row was listed as failed; every such one was replayed and delivered since, and no new one failed. */
  ghost predicate Healed(rows: map<Key, Row>, t: Txn) {
    && SomeFailed(t.view)
    && (forall k <- t.view :: t.view[k].status == Failed ==> k in t.missed && k in rows && rows[k].status == Delivered)
    && (forall k <- t.missed :: k in rows && k !in t.view ==> rows[k].status != Failed)
  }

  /** What the stored status of an event should be once all its rows have ended. */
  ghost function TrueStatus(rows: map<Key, Row>): Status {
    if SomeFailed(rows) then Failed else Delivered
  }

  /** What is known of the last transaction once all rows have ended. */
  lemma {:induction false} LastKnown(bs: seq<Board>, steps: seq<Step>, e: string, i: nat)
    requires IsRun(bs, steps, e) && i < |bs| && HasRows(bs[i].rows, e) && Ended(bs[i].rows, e)
    ensures bs[i].last.Some? && RowsOk(bs[i].rows, e)
    ensures var rows, t := bs[i].rows, bs[i].last.value;
            TxnOk(rows, t, e) && UpToDate(rows, t, t.key) && bs[i].stored == t.written
  {
    RunOk(bs, steps, e, i);
    var k :| k in bs[i].rows && k.event == e;
  }

  /**
   In every reachable state in which all rows of the event have ended, the event is stored as ended if
   and only if the transaction committed last was not overtaken: no sibling it had listed as open was
   committed between its listing and its own commit.
   */
  lemma {:induction false} EndedExact(bs: seq<Board>, steps: seq<Step>, e: string, i: nat)
    requires IsRun(bs, steps, e) && i < |bs| && HasRows(bs[i].rows, e) && Ended(bs[i].rows, e)
    ensures bs[i].last.Some?
    ensures Terminal(bs[i].stored.status) <==> !Overtaken(bs[i].last.value)
  {
    LastKnown(bs, steps, e, i);
    ListedEnds(bs[i].rows, bs[i].last.value, e);
  }

  lemma ListedEnds(rows: map<Key, Row>, t: Txn, e: string)
    requires TxnOk(rows, t, e) && UpToDate(rows, t, t.key) && RowsOk(rows, e) && Ended(rows, e)
    ensures forall k <- rows :: k in t.missed || (k in t.view && t.view[k] == rows[k])
    ensures Ended(t.view, e) <==> !Overtaken(t)
    ensures t.missed == {} ==> t.view == rows
  {
    forall k | k in rows
      ensures k in t.missed || (k in t.view && t.view[k] == rows[k])
    {
      assert UpToDate(rows, t, k);
    }
    if t.missed == {} {
      assert t.view.Keys == rows.Keys;
    }
  }

  /** The listed rows tell apart failed from delivered as the present ones do, exactly when neither case applies. */
  lemma ListedFailures(rows: map<Key, Row>, t: Txn, e: string)
    requires TxnOk(rows, t, e) && UpToDate(rows, t, t.key) && RowsOk(rows, e) && Ended(rows, e) && Ended(t.view, e)
    ensures (SomeFailed(t.view) <==> SomeFailed(rows)) <==> !NewFailure(rows, t) && !Healed(rows, t)
  {
    ListedEnds(rows, t, e);
    forall k | k in rows
      ensures k in t.view && t.view[k].status == Delivered ==> t.view[k] == rows[k]
    {
      assert UpToDate(rows, t, k);
    }
    if SomeFailed(rows) && !SomeFailed(t.view) {
      var k :| k in rows && rows[k].status == Failed;
      assert k !in t.view;
      assert k in t.missed;
    }
    if SomeFailed(t.view) && !SomeFailed(rows) {
      assert forall k <- rows :: rows[k].status == Delivered;
      assert Healed(rows, t);
    }
    if Healed(rows, t) {
      forall k | k in rows
        ensures rows[k].status != Failed
      {
        assert k in t.view ==> t.view[k].status == Failed || t.view[k].status == Delivered;
      }
    }
  }

  /**
   The exact condition for the stored status: in every reachable state in which all rows have ended, the
   event is stored as delivered if all were delivered and as failed otherwise, if and only if the last
   transaction was not overtaken, no sibling inserted since its listing was the first to fail, and the
   failures it listed have not all been replayed and delivered since.
   */
  lemma {:induction false} StatusExact(bs: seq<Board>, steps: seq<Step>, e: string, i: nat)
    requires IsRun(bs, steps, e) && i < |bs| && HasRows(bs[i].rows, e) && Ended(bs[i].rows, e)
    ensures bs[i].last.Some?
    ensures var rows, t := bs[i].rows, bs[i].last.value;
            bs[i].stored.status == TrueStatus(rows) <==> !Overtaken(t) && !NewFailure(rows, t) && !Healed(rows, t)
  {
    LastKnown(bs, steps, e, i);
    var rows, t := bs[i].rows, bs[i].last.value;
    ListedEnds(rows, t, e);
    if !Overtaken(t) {
      ListedFailures(rows, t, e);
    }
  }

  /** Every sibling it missed had been listed, as open: none was inserted or replayed in the meantime. */
  ghost predicate OnlyOutcomes(t: Txn) {
    forall k <- t.missed :: k in t.view && !Terminal(t.view[k].status)
  }

  /**
   The exact condition for the whole stored event, when neither an insert nor a replay fell between the
   listing and the commit: it is the projection of the rows if and only if nothing was missed.
   */
  lemma {:induction false} AgreementExact(bs: seq<Board>, steps: seq<Step>, e: string, i: nat)
    requires IsRun(bs, steps, e) && i < |bs| && HasRows(bs[i].rows, e) && Ended(bs[i].rows, e)
    ensures bs[i].last.Some?
    ensures bs[i].last.value.missed == {} ==> Mirrors(bs[i].rows, e, bs[i].stored)
    ensures OnlyOutcomes(bs[i].last.value) ==>
              (Mirrors(bs[i].rows, e, bs[i].stored) <==> bs[i].last.value.missed == {})
  {
    LastKnown(bs, steps, e, i);
    var rows, t := bs[i].rows, bs[i].last.value;
    ListedEnds(rows, t, e);
    if OnlyOutcomes(t) && t.missed != {} {
      var k :| k in t.missed;
      assert Overtaken(t);
      var listing := ListingExists(rows, e);
      if Mirrors(rows, e, bs[i].stored) {
        AgreementMeans(rows, e, listing, bs[i].stored);
      }
    }
  }

  /* Every event has a listing */

  lemma {:induction false} LatestOf(rows: map<Key, Row>, keys: set<Key>) returns (k: Key)
    requires keys != {} && keys <= rows.Keys
    ensures k in keys && forall j <- keys :: rows[j].created <= rows[k].created
  {
    k :| k in keys;
    var rest := keys - {k};
    assert keys == rest + {k};
    if rest != {} {
      var other := LatestOf(rows, rest);
      if rows[k].created < rows[other].created {
        k := other;
      }
    }
  }

  /** The keys, each once, by creation time. */
  lemma {:induction false} SortedKeys(rows: map<Key, Row>, keys: set<Key>) returns (listing: seq<Key>)
    requires keys <= rows.Keys
    ensures forall k :: k in listing <==> k in keys
    ensures forall i, j :: 0 <= i < j < |listing| ==> listing[i] != listing[j]
    ensures forall i, j :: 0 <= i < j < |listing| && listing[i] in rows && listing[j] in rows ==>
              rows[listing[i]].created <= rows[listing[j]].created
  {
    listing := [];
    if keys != {} {
      var k := LatestOf(rows, keys);
      var front := SortedKeys(rows, keys - {k});
      assert forall i :: 0 <= i < |front| ==> front[i] in front;
      listing := front + [k];
    }
  }

  lemma ListingExists(rows: map<Key, Row>, e: string) returns (listing: seq<Key>)
    ensures IsListing(rows, e, listing)
  {
    listing := SortedKeys(rows, set k | k in rows && k.event == e);
  }

  /** Without overlap nothing is missed, so the stored event is right whenever all rows have ended. */
  lemma {:induction false} SerialMissesNothing(bs: seq<Board>, steps: seq<Step>, e: string, i: nat)
    requires IsRun(bs, steps, e) && i < |bs| && forall j :: 0 <= j < |bs| ==> |bs[j].open| <= 1
    ensures forall t <- bs[i].open :: t.missed == {}
    ensures bs[i].last.Some? ==> bs[i].last.value.missed == {}
  {
    if i > 0 {
      SerialMissesNothing(bs, steps, e, i - 1);
      var b, step := bs[i - 1], steps[i - 1];
      assert |b.open| <= 1 && bs[i] == Next(b, step, e);
    }
  }

  /** Once every row is delivered and no transaction is under way, only a new row can change the stored event again. */
  lemma StaysAsStored(b: Board, step: Step, e: string)
    requires b.open == [] && (forall k <- b.rows :: b.rows[k].status == Delivered) && Enabled(b, step, e)
    ensures step.Insert?
  {
  }
}
