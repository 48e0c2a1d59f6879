/**
 The entities of the delivery store: delivery rows, event rows and attempt rows, and the state
 transitions of one delivery (internal/domain/delivery.go, internal/domain/event.go).

 Times are integers in microseconds. Rows are keyed by the pair (event, subscription).
 */
module Domain {

  datatype Option<+T> = None | Some(value: T)

  type Time = int

  /** Delivery rows and event rows use the same six values. */
  datatype Status = Pending | Processing | Delivered | Retrying | Throttled | Failed

  predicate Terminal(s: Status) {
    s == Delivered || s == Failed
  }

  datatype Key = Key(event: string, sub: string)

  /** What initialization copies from the event and the subscription and no step changes again. */
  datatype Target = Target(eventType: string, source: string, data: string,
                           url: string, secret: Option<string>, rate: int)

  datatype Row = Row(
    key: Key,
    target: Target,
    status: Status,
    attempts: int,
    maxAttempts: int,
    generation: int,
    next: Option<Time>,
    lastError: Option<string>,
    owner: Option<string>,
    deadline: Option<Time>,
    created: Time,
    updated: Time,
    deliveredAt: Option<Time>)

  datatype EventRow = EventRow(
    eventType: string,
    source: string,
    data: string,
    status: Status,
    attempts: int,
    maxAttempts: int,
    next: Option<Time>,
    lastError: Option<string>,
    created: Time,
    updated: Time,
    deliveredAt: Option<Time>)

  datatype AttemptRow = AttemptRow(
    key: Key,
    number: int,
    generation: int,
    code: Option<int>,
    body: Option<string>,
    error: Option<string>,
    created: Time)

  const DEFAULT_MAX_DELIVERY_RATE := 100

  datatype Subscription = Subscription(id: string, url: string, eventTypes: seq<string>,
                                       secret: Option<string>, maxRate: int, active: bool)

  function EffectiveRate(maxRate: int): int {
    if maxRate <= 0 then DEFAULT_MAX_DELIVERY_RATE else maxRate
  }

  /* Values after each transition of a delivery. */

  function AsDelivered(d: Row, at: Time): Row {
    d.(status := Delivered, deliveredAt := Some(at), next := None, lastError := None, updated := at)
  }

  function AsRetrying(d: Row, next: Time, error: string, at: Time): Row {
    d.(status := Retrying, attempts := d.attempts + 1, next := Some(next), lastError := Some(error), updated := at)
  }

  function AsThrottled(d: Row, next: Time, error: string, at: Time): Row {
    d.(status := Throttled, next := Some(next), lastError := Some(error), updated := at)
  }

  function AsFailed(d: Row, error: string, at: Time): Row {
    d.(status := Failed, lastError := Some(error), next := None, updated := at)
  }

  /** A replay is refused (None) unless the delivery has failed. */
  function AsReplayed(d: Row, at: Time): Option<Row> {
    if d.status != Failed then None
    else Some(d.(generation := d.generation + 1, status := Retrying, attempts := 0, next := Some(at),
                 lastError := None, deliveredAt := None, owner := None, deadline := None, updated := at))
  }

  /** The in-memory delivery a worker holds and mutates. */
  class Delivery {
    var row: Row

    constructor (row: Row)
      ensures this.row == row
    {
      this.row := row;
    }

    method MarkAsDelivered(at: Time)
      modifies this
      ensures row == AsDelivered(old(row), at)
    {
      row := row.(status := Delivered);
      row := row.(deliveredAt := Some(at));
      row := row.(next := None);
      row := row.(lastError := None);
      row := row.(updated := at);
    }

    method MarkAsRetrying(next: Time, error: string, at: Time)
      modifies this
      ensures row == AsRetrying(old(row), next, error, at)
    {
      row := row.(status := Retrying);
      row := row.(attempts := row.attempts + 1);
      row := row.(next := Some(next));
      row := row.(lastError := Some(error));
      row := row.(updated := at);
    }

    method MarkAsThrottled(next: Time, error: string, at: Time)
      modifies this
      ensures row == AsThrottled(old(row), next, error, at)
    {
      row := row.(status := Throttled);
      row := row.(next := Some(next));
      row := row.(lastError := Some(error));
      row := row.(updated := at);
    }

    method MarkAsFailed(error: string, at: Time)
      modifies this
      ensures row == AsFailed(old(row), error, at)
    {
      row := row.(status := Failed);
      row := row.(lastError := Some(error));
      row := row.(next := None);
      row := row.(updated := at);
    }

    method ScheduleReplay(at: Time) returns (ok: bool)
      modifies this
      ensures ok == (old(row).status == Failed)
      ensures row == if ok then AsReplayed(old(row), at).value else old(row)
    {
      if row.status != Failed {
        return false;
      }
      row := row.(generation := row.generation + 1);
      row := row.(status := Retrying);
      row := row.(attempts := 0);
      row := row.(next := Some(at));
      row := row.(lastError := None);
      row := row.(deliveredAt := None);
      row := row.(owner := None, deadline := None);
      row := row.(updated := at);
      return true;
    }
  }

  /** The textual id of a row: the two ids joined by a colon. */
  function DeliveryId(k: Key): string {
    k.event + ":" + k.sub
  }

  /** No event id of the set continues another one of it past a colon. */
  ghost predicate Apart(events: set<string>) {
    forall e <- events, e' <- events :: !(e + ":" <= e')
  }

  /** The textual id determines the pair, for these events and all subscriptions. */
  ghost predicate Determines(events: set<string>) {
    forall k: Key, k': Key :: k.event in events && k'.event in events && DeliveryId(k) == DeliveryId(k') ==> k == k'
  }

  /** Equal ids with one event id the shorter: the longer continues it past a colon. */
  lemma SharedId(k: Key, k': Key)
    requires DeliveryId(k) == DeliveryId(k') && k != k' && |k.event| <= |k'.event|
    ensures k.event + ":" <= k'.event
  {
    var a, b := DeliveryId(k), DeliveryId(k');
    assert k.event + ":" == a[..|k.event| + 1] && k'.event == b[..|k'.event|];
    if |k.event| == |k'.event| {
      SameLength(k, k');
    }
  }

  lemma SameLength(k: Key, k': Key)
    requires DeliveryId(k) == DeliveryId(k') && |k.event| == |k'.event|
    ensures k == k'
  {
    var a, b := DeliveryId(k), DeliveryId(k');
    assert k.event == a[..|k.event|] && k.sub == a[|k.event| + 1..];
    assert k'.event == b[..|k'.event|] && k'.sub == b[|k'.event| + 1..];
  }

  /**
   The textual id is as good a key as the pair exactly when no event id in use continues another one
   past a colon.
   */
  lemma {:induction false} DeliveryIdDetermines(events: set<string>)
    ensures Determines(events) <==> Apart(events)
  {
    if !Apart(events) {
      var e, e' :| e in events && e' in events && e + ":" <= e';
      var k, k' := Key(e, e'[|e| + 1..] + ":"), Key(e', "");
      assert e' == e + ":" + e'[|e| + 1..];
      assert DeliveryId(k) == DeliveryId(k');
      assert k.event in events && k'.event in events;
    } else {
      forall k: Key, k': Key | k.event in events && k'.event in events && DeliveryId(k) == DeliveryId(k')
        ensures k == k'
      {
        if k != k' {
          if |k.event| <= |k'.event| {
            SharedId(k, k');
          } else {
            SharedId(k', k);
          }
        }
      }
    }
  }

  lemma ColonInside(e: string, e': string)
    requires e + ":" <= e'
    ensures |e| < |e'| && ':' in e'
  {
    assert e'[|e|] == ':';
  }

  /** In particular when no event id contains a colon, and for any single event. */
  lemma ColonFreeApart(events: set<string>)
    requires (forall e <- events :: ':' !in e) || exists e :: events == {e}
    ensures Apart(events)
  {
    forall e, e' | e in events && e' in events
      ensures !(e + ":" <= e')
    {
      if e + ":" <= e' {
        ColonInside(e, e');
      }
    }
  }
}
