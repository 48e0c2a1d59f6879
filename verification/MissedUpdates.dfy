/**
 What overlapping transactions can do to the stored event of an event whose rows have all ended: leave it
 processing, call it delivered although a row failed, or failed although all were delivered.
 */
module MissedUpdates {
  import opened Domain
  import opened Projection
  import opened Execution
  import opened Store
  import opened Overlap

  /** Some run ends here. */
  ghost predicate Reaches(b: Board, e: string) {
    exists bs, steps :: IsRun(bs, steps, e) && bs[|steps|] == b
  }

  lemma ReachesNext(b: Board, step: Step, e: string)
    requires Reaches(b, e) && Enabled(b, step, e)
    ensures Reaches(Next(b, step, e), e)
  {
    var bs, steps :| IsRun(bs, steps, e) && bs[|steps|] == b;
    var bs', steps' := bs + [Next(b, step, e)], steps + [step];
    forall i | 0 <= i < |steps'|
      ensures Enabled(bs'[i], steps'[i], e) && bs'[i + 1] == Next(bs'[i], steps'[i], e)
    {
      if i < |steps| {
        assert bs'[i] == bs[i] && bs'[i + 1] == bs[i + 1] && steps'[i] == steps[i];
      }
    }
    assert IsRun(bs', steps', e) && bs'[|steps'|] == Next(b, step, e);
  }

  const EMPTY := Board(map[], EventProjection(Pending, 0, None, None, None), [], None)

  lemma EmptyReaches(e: string)
    ensures Reaches(EMPTY, e)
  {
    var bs, steps: seq<Step> := [EMPTY], [];
    assert IsRun(bs, steps, e) && bs[|steps|] == EMPTY;
  }

  function Sibling(k: Key): Row {
    Row(k, Target("t", "s", "d", "u", None, 1), Pending, 0, 5, 1, None, None, None, None, 0, 0, None)
  }

  const SUCCESS := Observed(Called(Response(200, "", "")), 1, 0, 1)
  const REFUSED := Observed(Called(Response(400, "", "refused")), 1, 0, 1)

  /** A new row, claimed at once. */
  function Taken(k: Key): Row {
    Leased(Sibling(k), "w", 1, 0)
  }

  lemma TakeNew(b: Board, k: Key, e: string) returns (b': Board)
    requires Reaches(b, e) && k !in b.rows && k.event == e && forall t <- b.open :: t.key in b.rows
    ensures Reaches(b', e) && b' == b.(rows := b.rows[k := Taken(k)])
  {
    var mid := Next(b, Insert(Sibling(k)), e);
    ReachesNext(b, Insert(Sibling(k)), e);
    var step := Lease(k, "w", 1, 0);
    ReachesNext(mid, step, e);
    b' := Next(mid, step, e);
    assert b'.rows == b.rows[k := Taken(k)];
  }

  /** A list of two keys is a listing of two rows created at the same time. */
  lemma TwoListed(rows: map<Key, Row>, a: Key, b: Key, e: string)
    requires a != b && a.event == e && b.event == e && rows.Keys == {a, b} && rows[a].created == rows[b].created
    ensures IsListing(rows, e, [a, b])
  {
  }

  /** What a listing of two projects to. */
  lemma TwoProjected(rows: map<Key, Row>, a: Key, b: Key)
    requires a in rows && b in rows
    ensures Project(Listed(rows, [a, b]), 1).status == Higher(rows[a].status, rows[b].status)
  {
    var ds := Listed(rows, [a, b]);
    assert ds[..1] == [rows[a]] && ds[..1][..0] == [] && ds == [rows[a]] + [rows[b]];
    ProjectExtends([], rows[a]);
    ProjectExtends([rows[a]], rows[b]);
    assert [] + [rows[a]] == [rows[a]];
  }

  /** The transaction that writes the outcome of `copy` while `other` is the only other row. */
  lemma BeginOne(b: Board, k: Key, other: Key, o: Observed, e: string) returns (b': Board, t: Txn)
    requires Reaches(b, e) && k != other && k.event == e && other.event == e && b.rows.Keys == {k, other}
    requires b.rows[k].key == k && b.rows[k].created == b.rows[other].created
    requires b.rows[k].status == Processing && b.rows[k].owner.Some? && b.rows[k].deadline.Some? && !Locked(b.open, k)
    ensures Reaches(b', e) && b' == b.(open := b.open + [t])
    ensures t.key == k && t.missed == {} && t.view == b.rows[k := t.row] && t.row == Written(b, b.rows[k], o)
    ensures t.written.status == Higher(t.row.status, b.rows[other].status)
  {
    var copy := b.rows[k];
    var view := View(b.rows, Written(b, copy, o));
    TwoListed(view, k, other, e);
    TwoProjected(view, k, other);
    var step := BeginOutcome(copy, o, [k, other], 1);
    ReachesNext(b, step, e);
    b' := Next(b, step, e);
    t := b'.open[|b.open|];
  }

  lemma Settles(row: Row, o: Observed)
    requires row.status == Processing
    ensures o == SUCCESS ==> Settled(row, Executed(row, o)).status == Delivered
    ensures o == REFUSED ==> Settled(row, Executed(row, o)).status == Failed
    ensures Settled(row, Executed(row, o)).created == row.created && Settled(row, Executed(row, o)).key == row.key
  {
  }

  /** Two rows of one event, both claimed. */
  lemma BothTaken(a: Key, b: Key, e: string) returns (end: Board)
    requires a != b && a.event == e && b.event == e
    ensures Reaches(end, e) && end == EMPTY.(rows := map[a := Taken(a), b := Taken(b)])
  {
    EmptyReaches(e);
    end := TakeNew(EMPTY, a, e);
    end := TakeNew(end, b, e);
    assert end.rows == map[a := Taken(a), b := Taken(b)];
  }

  lemma FinishAt(b: Board, i: nat, e: string) returns (b': Board)
    requires Reaches(b, e) && i < |b.open|
    ensures Reaches(b', e) && b' == Next(b, Finish(i), e)
  {
    ReachesNext(b, Finish(i), e);
    b' := Next(b, Finish(i), e);
  }

  /** Of two transactions under way the second commits first, so the first one misses it. */
  lemma SecondFirst(b: Board, t: Txn, t': Txn, e: string) returns (end: Board)
    requires Reaches(b, e) && b.open == [t, t']
    ensures Reaches(end, e) && end.open == [] && end.stored == t.written
    ensures end.rows == b.rows[t'.key := t'.row][t.key := t.row]
    ensures end.last == Some(t.(missed := t.missed + {t'.key}))
  {
    var mid := FinishAt(b, 1, e);
    assert mid.open == [t.(missed := t.missed + {t'.key})];
    end := FinishAt(mid, 0, e);
  }

  /**
   Both deliveries succeed, each transaction lists before the other commits, and the event is left as
   processing although all its rows are delivered, so retention never removes it.
   */
  lemma SiblingsMissEachOther(a: Key, b: Key, e: string) returns (end: Board)
    requires a != b && a.event == e && b.event == e
    ensures Reaches(end, e) && end.open == [] && end.rows.Keys == {a, b}
    ensures (forall k <- end.rows :: end.rows[k].status == Delivered) && end.stored.status == Processing
  {
    end := BothTaken(a, b, e);
    Settles(Taken(a), SUCCESS);
    Settles(Taken(b), SUCCESS);
    var t, t';
    end, t := BeginOne(end, a, b, SUCCESS, e);
    end, t' := BeginOne(end, b, a, SUCCESS, e);
    end := FirstFirst(end, t, t', e);
  }

  /** Of two transactions under way the first commits first. */
  lemma FirstFirst(b: Board, t: Txn, t': Txn, e: string) returns (end: Board)
    requires Reaches(b, e) && b.open == [t, t']
    ensures Reaches(end, e) && end.open == [] && end.stored == t'.written
    ensures end.rows == b.rows[t.key := t.row][t'.key := t'.row]
  {
    var mid := FinishAt(b, 0, e);
    assert mid.open == [t'.(missed := t'.missed + {t.key})];
    end := FinishAt(mid, 0, e);
  }

  /** One row claimed, its successful outcome written and listed as the only one. */
  lemma OneAlone(a: Key, e: string) returns (end: Board, t: Txn)
    requires a.event == e
    ensures Reaches(end, e) && end.rows == map[a := Taken(a)] && end.open == [t] && end.last == None
    ensures t.key == a && t.missed == {} && t.view == map[a := t.row] && t.row.status == Delivered && t.row.created == 0
    ensures t.written.status == Delivered
  {
    EmptyReaches(e);
    end := TakeNew(EMPTY, a, e);
    assert end.rows == map[a := Taken(a)];
    Settles(Taken(a), SUCCESS);
    OneProjected(View(end.rows, Written(end, Taken(a), SUCCESS)), a, e);
    var step := BeginOutcome(Taken(a), SUCCESS, [a], 1);
    ReachesNext(end, step, e);
    end := Next(end, step, e);
    t := end.open[0];
    assert t.view == map[a := t.row];
  }

  /** A single row is its own listing, and gives the event its status. */
  lemma OneProjected(rows: map<Key, Row>, a: Key, e: string)
    requires a.event == e && rows.Keys == {a}
    ensures IsListing(rows, e, [a]) && Project(Listed(rows, [a]), 1).status == rows[a].status
  {
    assert Listed(rows, [a]) == [] + [rows[a]];
    ProjectExtends([], rows[a]);
  }

  /**
   A re-initialization adds a second row while the first row's transaction is between its listing and its
   commit; the new row fails and commits first. The event is left as delivered although a row failed.
   */
  lemma NewFailureMissed(a: Key, b: Key, e: string) returns (end: Board)
    requires a != b && a.event == e && b.event == e
    ensures Reaches(end, e) && end.open == [] && end.rows.Keys == {a, b}
    ensures end.rows[a].status == Delivered && end.rows[b].status == Failed && end.stored.status == Delivered
    ensures end.last.Some? && !Overtaken(end.last.value) && NewFailure(end.rows, end.last.value)
  {
    var t, t';
    end, t := OneAlone(a, e);
    end := TakeNew(end, b, e);
    Settles(Taken(b), REFUSED);
    end, t' := BeginOne(end, b, a, REFUSED, e);
    end := SecondFirst(end, t, t', e);
  }

  /** One of two rows has failed; the other's successful outcome is written and listed. */
  lemma OneFailed(a: Key, b: Key, e: string) returns (end: Board, t: Txn)
    requires a != b && a.event == e && b.event == e
    ensures Reaches(end, e) && end.rows.Keys == {a, b} && end.open == [t] && end.rows[a].status == Processing
    ensures end.rows[b].status == Failed && end.rows[b].key == b && end.rows[b].created == 0 && end.rows[a].created == 0
    ensures t.key == a && t.missed == {} && t.view == end.rows[a := t.row] && t.row.status == Delivered
    ensures t.row.created == 0 && t.written.status == Failed
  {
    end := BothTaken(a, b, e);
    Settles(Taken(a), SUCCESS);
    Settles(Taken(b), REFUSED);
    var t';
    end, t' := BeginOne(end, b, a, REFUSED, e);
    end := FinishAt(end, 0, e);
    end, t := BeginOne(end, a, b, SUCCESS, e);
  }

  /** The failed row replayed, and claimed again. */
  lemma ReplayedAndTaken(before: Board, a: Key, b: Key, t: Txn, e: string) returns (end: Board)
    requires Reaches(before, e) && a != b && a.event == e && b.event == e
    requires before.rows.Keys == {a, b} && before.open == [t] && t.key == a
    requires before.rows[b].status == Failed && before.rows[b].key == b
    requires before.rows[b].created == before.rows[a].created
    ensures Reaches(end, e) && end.rows.Keys == {a, b} && end.rows[a] == before.rows[a]
    ensures end.open == [t.(missed := t.missed + {b})]
    ensures var d := end.rows[b];
            && d.status == Processing && d.key == b && d.created == before.rows[b].created
            && d.owner.Some? && d.deadline.Some?
  {
    end := Replayed(before, a, b, t, e);
    var take := Lease(b, "w", 1, 1);
    ReachesNext(end, take, e);
    end := Next(end, take, e);
  }

  /** The failed row replayed, behind the back of the other row's transaction. */
  lemma Replayed(before: Board, a: Key, b: Key, t: Txn, e: string) returns (end: Board)
    requires Reaches(before, e) && a != b && a.event == e && b.event == e
    requires before.rows.Keys == {a, b} && before.open == [t] && t.key == a
    requires before.rows[b].status == Failed && before.rows[b].key == b
    requires before.rows[b].created == before.rows[a].created
    ensures Reaches(end, e) && end.open == [t.(missed := t.missed + {b})]
    ensures end.rows == before.rows[b := AsReplayed(before.rows[b], 1).value]
  {
    TwoListed(View(before.rows, AsReplayed(before.rows[b], 1).value), a, b, e);
    var step := BeginReplay(b, 1, [a, b], 1);
    ReachesNext(before, step, e);
    end := FinishAt(Next(before, step, e), 1, e);
    assert end.open == [t.(missed := t.missed + {b})];
  }

  /**
   A failed row is replayed and delivered while its sibling's transaction is between its listing and its
   commit. The event is left as failed although all its rows are delivered.
   */
  lemma HealingMissed(a: Key, b: Key, e: string) returns (end: Board)
    requires a != b && a.event == e && b.event == e
    ensures Reaches(end, e) && end.open == [] && end.rows.Keys == {a, b}
    ensures (forall k <- end.rows :: end.rows[k].status == Delivered) && end.stored.status == Failed
    ensures end.last.Some? && !Overtaken(end.last.value) && Healed(end.rows, end.last.value)
  {
    var t, t';
    end, t := OneFailed(a, b, e);
    end := ReplayedAndTaken(end, a, b, t, e);
    Settles(end.rows[b], SUCCESS);
    end, t' := BeginOne(end, b, a, SUCCESS, e);
    end := SecondFirst(end, end.open[0], t', e);
  }
}
