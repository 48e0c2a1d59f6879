/**
 The event projection (internal/domain/delivery.go:129-199): the loop over an event's deliveries,
 proved against order-free lattice operations (maximum rank, maximum attempts, earliest next time,
 latest delivery time), and the invariance of everything but the last error under reordering.
 */
module Projection {
  import opened Domain

  datatype EventProjection = EventProjection(
    status: Status,
    attempts: int,
    next: Option<Time>,
    lastError: Option<string>,
    deliveredAt: Option<Time>)

  /** processing > retrying > throttled > pending > failed > delivered */
  function Rank(s: Status): nat {
    match s
    case Delivered => 0
    case Failed => 1
    case Pending => 2
    case Throttled => 3
    case Retrying => 4
    case Processing => 5
  }

  /** `s` is the top status of the rows: reached by one of them (or no row is above delivered), never exceeded. */
  ghost predicate IsTopStatus(rows: seq<Row>, s: Status) {
    && (forall d <- rows :: Rank(d.status) <= Rank(s))
    && (s == Delivered || exists d <- rows :: d.status == s)
  }

  /** `n` is the larger of zero and the largest attempt count. */
  ghost predicate IsMaxAttempts(rows: seq<Row>, n: int) {
    && 0 <= n
    && (forall d <- rows :: d.attempts <= n)
    && (n == 0 || exists d <- rows :: d.attempts == n)
  }

  /** `t` is the earliest next time, absent when no row has one. */
  ghost predicate IsEarliestNext(rows: seq<Row>, t: Option<Time>) {
    && (forall d <- rows :: d.next.Some? ==> t.Some? && t.value <= d.next.value)
    && (t.Some? ==> exists d <- rows :: d.next == t)
  }

  ghost predicate AllDelivered(rows: seq<Row>) {
    forall d <- rows :: d.status == Delivered
  }

  ghost predicate IsLatestDelivery(rows: seq<Row>, t: Option<Time>) {
    && (forall d <- rows :: d.deliveredAt.Some? ==> t.Some? && d.deliveredAt.value <= t.value)
    && (t.Some? ==> exists d <- rows :: d.deliveredAt == t)
  }

  /** The part of a projection that does not depend on the order of the rows. */
  ghost predicate Agrees(rows: seq<Row>, p: EventProjection) {
    && IsTopStatus(rows, p.status)
    && IsMaxAttempts(rows, p.attempts)
    && IsEarliestNext(rows, p.next)
    && (if AllDelivered(rows) then IsLatestDelivery(rows, p.deliveredAt) else p.deliveredAt == None)
  }

  function LastError(rows: seq<Row>): Option<string> {
    if rows == [] then None
    else if rows[|rows| - 1].lastError.Some? then rows[|rows| - 1].lastError
    else LastError(rows[..|rows| - 1])
  }

  /** The non-nil entries, in order. */
  function Present(ds: seq<Option<Row>>): seq<Row> {
    if ds == [] then []
    else Present(ds[..|ds| - 1]) + (if ds[|ds| - 1].Some? then [ds[|ds| - 1].value] else [])
  }

  function Higher(s: Status, t: Status): Status {
    if Rank(s) < Rank(t) then t else s
  }

  function TopStatus(rows: seq<Row>): Status {
    if rows == [] then Delivered else Higher(TopStatus(rows[..|rows| - 1]), rows[|rows| - 1].status)
  }

  function MaxAttempts(rows: seq<Row>): int {
    if rows == [] then 0
    else var m := MaxAttempts(rows[..|rows| - 1]);
         if m < rows[|rows| - 1].attempts then rows[|rows| - 1].attempts else m
  }

  predicate Sooner(current: Option<Time>, candidate: Option<Time>) {
    candidate.Some? && (current.None? || candidate.value < current.value)
  }

  predicate Later(current: Option<Time>, candidate: Option<Time>) {
    candidate.Some? && (current.None? || candidate.value > current.value)
  }

  function EarliestNext(rows: seq<Row>): Option<Time> {
    if rows == [] then None
    else var t := EarliestNext(rows[..|rows| - 1]);
         if Sooner(t, rows[|rows| - 1].next) then rows[|rows| - 1].next else t
  }

  function LatestDelivery(rows: seq<Row>): Option<Time> {
    if rows == [] then None
    else var t := LatestDelivery(rows[..|rows| - 1]);
         if Later(t, rows[|rows| - 1].deliveredAt) then rows[|rows| - 1].deliveredAt else t
  }

  /** The projection of a list, as a value; `now` is read only for the empty list. */
  function Project(rows: seq<Row>, now: Time): EventProjection {
    if rows == [] then EventProjection(Delivered, 0, None, None, Some(now))
    else EventProjection(TopStatus(rows), MaxAttempts(rows), EarliestNext(rows), LastError(rows),
                         if TopStatus(rows) == Delivered then LatestDelivery(rows) else None)
  }

  /** How each ingredient grows by one row. */
  lemma ProjectExtends(rows: seq<Row>, d: Row)
    ensures TopStatus(rows + [d]) == Higher(TopStatus(rows), d.status)
    ensures MaxAttempts(rows + [d]) == if MaxAttempts(rows) < d.attempts then d.attempts else MaxAttempts(rows)
    ensures EarliestNext(rows + [d]) == if Sooner(EarliestNext(rows), d.next) then d.next else EarliestNext(rows)
    ensures LatestDelivery(rows + [d]) ==
            if Later(LatestDelivery(rows), d.deliveredAt) then d.deliveredAt else LatestDelivery(rows)
    ensures LastError(rows + [d]) == if d.lastError.Some? then d.lastError else LastError(rows)
  {
    assert (rows + [d])[..|rows|] == rows;
  }

  lemma {:induction false} TopStatusMeans(rows: seq<Row>)
    ensures IsTopStatus(rows, TopStatus(rows))
    ensures TopStatus(rows) == Delivered <==> AllDelivered(rows)
  {
    if rows != [] {
      var front, d := rows[..|rows| - 1], rows[|rows| - 1];
      TopStatusMeans(front);
      assert rows == front + [d];
    }
  }

  /** The top status is delivered, or terminal, exactly when all are. */
  lemma TopStatusEnds(ds: seq<Row>)
    ensures TopStatus(ds) == Delivered <==> forall d <- ds :: d.status == Delivered
    ensures Terminal(TopStatus(ds)) <==> forall d <- ds :: Terminal(d.status)
  {
    TopStatusMeans(ds);
  }

  lemma {:induction false} MaxAttemptsMeans(rows: seq<Row>)
    ensures IsMaxAttempts(rows, MaxAttempts(rows))
  {
    if rows != [] {
      var front, d := rows[..|rows| - 1], rows[|rows| - 1];
      MaxAttemptsMeans(front);
      assert rows == front + [d];
    }
  }

  lemma {:induction false} EarliestNextMeans(rows: seq<Row>)
    ensures IsEarliestNext(rows, EarliestNext(rows))
  {
    if rows != [] {
      var front, d := rows[..|rows| - 1], rows[|rows| - 1];
      EarliestNextMeans(front);
      assert rows == front + [d];
    }
  }

  lemma {:induction false} LatestDeliveryMeans(rows: seq<Row>)
    ensures IsLatestDelivery(rows, LatestDelivery(rows))
  {
    if rows != [] {
      var front, d := rows[..|rows| - 1], rows[|rows| - 1];
      LatestDeliveryMeans(front);
      assert rows == front + [d];
    }
  }

  /** What the projection means for a non-empty list: lattice maxima, and the last error in order. */
  lemma ProjectMeans(rows: seq<Row>, now: Time)
    requires rows != []
    ensures Agrees(rows, Project(rows, now))
    ensures Project(rows, now).lastError == LastError(rows)
  {
    TopStatusMeans(rows);
    MaxAttemptsMeans(rows);
    EarliestNextMeans(rows);
    LatestDeliveryMeans(rows);
  }

  /** The order-free part is determined: two projections that agree with the same rows coincide. */
  lemma {:induction false} AgreesUnique(rows: seq<Row>, rows': seq<Row>, p: EventProjection, p': EventProjection)
    requires forall d :: d in rows <==> d in rows'
    requires Agrees(rows, p) && Agrees(rows', p')
    ensures p' == p.(lastError := p'.lastError)
  {
    assert Rank(p.status) <= Rank(p'.status) by {
      if p.status != Delivered {
        var d :| d in rows && d.status == p.status;
        assert d in rows';
      }
    }
    assert Rank(p'.status) <= Rank(p.status) by {
      if p'.status != Delivered {
        var d :| d in rows' && d.status == p'.status;
        assert d in rows;
      }
    }
    assert AllDelivered(rows) == AllDelivered(rows');
    MaxAttemptsUnique(rows, rows', p.attempts, p'.attempts);
    EarliestNextUnique(rows, rows', p.next, p'.next);
    if AllDelivered(rows) {
      LatestDeliveryUnique(rows, rows', p.deliveredAt, p'.deliveredAt);
    }
  }

  lemma MaxAttemptsUnique(rows: seq<Row>, rows': seq<Row>, n: int, n': int)
    requires forall d :: d in rows <==> d in rows'
    requires IsMaxAttempts(rows, n) && IsMaxAttempts(rows', n')
    ensures n == n'
  {
    if n != 0 {
      var d :| d in rows && d.attempts == n;
      assert d in rows';
    }
    if n' != 0 {
      var d :| d in rows' && d.attempts == n';
      assert d in rows;
    }
  }

  lemma EarliestNextUnique(rows: seq<Row>, rows': seq<Row>, t: Option<Time>, t': Option<Time>)
    requires forall d :: d in rows <==> d in rows'
    requires IsEarliestNext(rows, t) && IsEarliestNext(rows', t')
    ensures t == t'
  {
    if t.Some? {
      var d :| d in rows && d.next == t;
      assert d in rows';
    }
    if t'.Some? {
      var d :| d in rows' && d.next == t';
      assert d in rows;
    }
  }

  lemma LatestDeliveryUnique(rows: seq<Row>, rows': seq<Row>, t: Option<Time>, t': Option<Time>)
    requires forall d :: d in rows <==> d in rows'
    requires IsLatestDelivery(rows, t) && IsLatestDelivery(rows', t')
    ensures t == t'
  {
    if t.Some? {
      var d :| d in rows && d.deliveredAt == t;
      assert d in rows';
    }
    if t'.Some? {
      var d :| d in rows' && d.deliveredAt == t';
      assert d in rows;
    }
  }

  /** Reordering (or repeating) the rows changes nothing but the last error. */
  lemma {:induction false} ProjectIgnoresOrder(rows: seq<Row>, rows': seq<Row>, now: Time, now': Time)
    requires rows != []
    requires forall d :: d in rows <==> d in rows'
    ensures Project(rows', now') == Project(rows, now).(lastError := LastError(rows'))
  {
    assert rows[0] in rows';
    ProjectMeans(rows, now);
    ProjectMeans(rows', now');
    AgreesUnique(rows, rows', Project(rows, now), Project(rows', now'));
  }

  /** The last error is the one of the last row that has any; it does depend on the order. */
  lemma {:induction false} LastErrorMeans(rows: seq<Row>)
    ensures LastError(rows).None? ==> forall d <- rows :: d.lastError.None?
    ensures LastError(rows).Some? ==>
              exists i :: 0 <= i < |rows| && rows[i].lastError == LastError(rows) &&
                          forall j :: i < j < |rows| ==> rows[j].lastError.None?
  {
    if rows != [] {
      var front, d := rows[..|rows| - 1], rows[|rows| - 1];
      LastErrorMeans(front);
      if d.lastError.Some? {
        assert rows[|rows| - 1].lastError == LastError(rows);
      } else if LastError(front).Some? {
        var i :| 0 <= i < |front| && front[i].lastError == LastError(front) &&
                 forall j :: i < j < |front| ==> front[j].lastError.None?;
        assert rows[i] == front[i];
        assert forall j :: i < j < |front| ==> rows[j] == front[j];
      }
    }
  }

  /** The source's loop. Nil entries are skipped; a list of nils projects like no failure and no delivery. */
  method ProjectEventFromDeliveries(deliveries: seq<Option<Row>>, now: Time) returns (p: EventProjection)
    ensures Present(deliveries) != [] || deliveries == [] ==> p == Project(Present(deliveries), now)
    ensures Present(deliveries) == [] && deliveries != [] ==> p == EventProjection(Delivered, 0, None, None, None)
  {
    if |deliveries| == 0 {
      return EventProjection(Delivered, 0, None, None, Some(now));
    }
    p := EventProjection(Delivered, 0, None, None, None);
    var allDelivered := true;
    var deliveredAt: Option<Time> := None;
    ghost var seen: seq<Row> := [];
    for i := 0 to |deliveries|
      invariant seen == Present(deliveries[..i])
      invariant p == EventProjection(TopStatus(seen), MaxAttempts(seen), EarliestNext(seen), LastError(seen), None)
      invariant allDelivered <==> p.status == Delivered
      invariant deliveredAt == LatestDelivery(seen)
    {
      assert deliveries[..i + 1][..i] == deliveries[..i];
      if deliveries[i].None? {
        continue;
      }
      var d := deliveries[i].value;
      ProjectExtends(seen, d);
      seen := seen + [d];
      if d.attempts > p.attempts {
        p := p.(attempts := d.attempts);
      }
      if Sooner(p.next, d.next) {
        p := p.(next := d.next);
      }
      if d.lastError.Some? {
        p := p.(lastError := d.lastError);
      }
      if d.deliveredAt.Some? && (deliveredAt.None? || d.deliveredAt.value > deliveredAt.value) {
        deliveredAt := d.deliveredAt;
      }
      match d.status {
        case Processing =>
          p := p.(status := Processing);
          allDelivered := false;
        case Retrying =>
          if p.status != Processing {
            p := p.(status := Retrying);
          }
          allDelivered := false;
        case Throttled =>
          if p.status != Processing && p.status != Retrying {
            p := p.(status := Throttled);
          }
          allDelivered := false;
        case Pending =>
          if p.status != Processing && p.status != Retrying && p.status != Throttled {
            p := p.(status := Pending);
          }
          allDelivered := false;
        case Failed =>
          if p.status == Delivered {
            p := p.(status := Failed);
          }
          allDelivered := false;
        case Delivered =>
      }
    }
    assert deliveries[..|deliveries|] == deliveries;
    if allDelivered {
      p := p.(status := Delivered);
      p := p.(deliveredAt := deliveredAt);
    }
  }
}
