/**
 The database as a value, and each transaction as a function from database to database
 (internal/repository/postgres/event.go, internal/repository/postgres/retention.go).
 One SQL transaction or statement is one atomic step; `now` is the database clock.
 */
module Store {
  import opened Domain
  import opened Projection

  datatype Db = Db(now: Time, events: map<string, EventRow>, rows: map<Key, Row>, attempts: seq<AttemptRow>)

  /* Initialization */

  /** The event handed to initialization; None stands for the zero value of a field. */
  datatype EventInput = EventInput(id: string, eventType: string, source: string, data: string,
                                   status: Option<Status>, attempts: int, maxAttempts: int,
                                   next: Option<Time>, lastError: Option<string>,
                                   created: Option<Time>, updated: Option<Time>, deliveredAt: Option<Time>)

  const DEFAULT_MAX_ATTEMPTS := 5

  function MaxAttemptsOf(ev: EventInput): int {
    if ev.maxAttempts == 0 then DEFAULT_MAX_ATTEMPTS else ev.maxAttempts
  }

  function NewEvent(ev: EventInput, noSubscriptions: bool, at: Time): EventRow {
    var created := if ev.created.Some? then ev.created.value else at;
    EventRow(ev.eventType, ev.source, ev.data,
             if noSubscriptions then Delivered else if ev.status.Some? then ev.status.value else Pending,
             ev.attempts, MaxAttemptsOf(ev), ev.next, ev.lastError, created,
             if ev.updated.Some? then ev.updated.value else created,
             if noSubscriptions && ev.deliveredAt.None? then Some(at) else ev.deliveredAt)
  }

  function NewRow(ev: EventInput, sub: Subscription, at: Time): Row {
    Row(Key(ev.id, sub.id),
        Target(ev.eventType, ev.source, ev.data, sub.url, sub.secret, EffectiveRate(sub.maxRate)),
        Pending, ev.attempts, MaxAttemptsOf(ev), 1, None, None, None, None, at, at, None)
  }

  /** Rows after inserting one per non-nil subscription, an existing row winning every conflict. */
  function InsertRows(rows: map<Key, Row>, ev: EventInput, subs: seq<Option<Subscription>>, at: Time): map<Key, Row> {
    if subs == [] then rows
    else
      var done := InsertRows(rows, ev, subs[..|subs| - 1], at);
      var sub := subs[|subs| - 1];
      if sub.None? || Key(ev.id, sub.value.id) in done then done
      else done[Key(ev.id, sub.value.id) := NewRow(ev, sub.value, at)]
  }

  function Initialize(db: Db, ev: EventInput, subs: seq<Option<Subscription>>, at: Time): Db {
    db.(events := if ev.id in db.events then db.events else db.events[ev.id := NewEvent(ev, subs == [], at)],
        rows := InsertRows(db.rows, ev, subs, at))
  }

  /** A new row of this initialization would carry the textual id of another row. */
  ghost predicate Clashes(rows: map<Key, Row>, ev: EventInput, subs: seq<Option<Subscription>>) {
    exists k <- rows, s <- subs :: s.Some? && Key(ev.id, s.value.id) !in rows && Shares(k, Key(ev.id, s.value.id))
  }

  predicate Shares(k: Key, k': Key) {
    k != k' && DeliveryId(k) == DeliveryId(k')
  }

  /* Claims */

  /** Pending, due, or holding an expired lease. */
  predicate Claimable(d: Row, now: Time) {
    || d.status == Pending
    || (d.status in {Retrying, Throttled} && d.next.Some? && d.next.value <= now)
    || (d.status == Processing && d.deadline.Some? && d.deadline.value <= now)
  }

  function Leased(d: Row, owner: string, lease: int, now: Time): Row {
    d.(status := Processing, owner := Some(owner), deadline := Some(now + lease), updated := now)
  }

  function ClaimOne(db: Db, k: Key, owner: string, lease: int): Db
    requires k in db.rows
  {
    db.(rows := db.rows[k := Leased(db.rows[k], owner, lease, db.now)])
  }

  /** A batch of claims, made at one instant. */
  function ClaimAll(db: Db, keys: seq<Key>, owner: string, lease: int): Db {
    db.(rows := map k | k in db.rows :: if k in keys then Leased(db.rows[k], owner, lease, db.now) else db.rows[k])
  }

  /** COALESCE(next_attempt_at, processing_deadline, created_at) */
  function SortKey(d: Row): Time {
    if d.next.Some? then d.next.value else if d.deadline.Some? then d.deadline.value else d.created
  }

  /** The place of a row in an ORDER BY: compared component by component. */
  datatype Weight = Weight(rank: int, time: int, tie: int)

  predicate Lighter(w: Weight, w': Weight) {
    || w.rank < w'.rank
    || (w.rank == w'.rank && w.time < w'.time)
    || (w.rank == w'.rank && w.time == w'.time && w.tie < w'.tie)
  }

  /**
   `picked` is what a query ordered by weight and limited to `limit` may return: distinct, in order,
   as many as there are, and none of the others lighter than one of them.
   */
  ghost predicate IsPick<K(!new)>(weights: map<K, Weight>, limit: nat, picked: seq<K>) {
    && (forall k <- picked :: k in weights)
    && (forall i, j :: 0 <= i < j < |picked| ==> picked[i] != picked[j])
    && (forall i, j :: 0 <= i < j < |picked| ==>
          picked[i] in weights && picked[j] in weights && !Lighter(weights[picked[j]], weights[picked[i]]))
    && |picked| <= limit
    && (|picked| < limit ==> forall k <- weights :: k in picked)
    && (forall k <- picked, j <- weights :: j !in picked && k in weights ==> !Lighter(weights[j], weights[k]))
  }

  /** The poller's claim order: by sort key, then by creation. */
  function PollWeight(d: Row): Weight {
    Weight(0, SortKey(d), d.created)
  }

  predicate Before(d: Row, d': Row) {
    Lighter(PollWeight(d), PollWeight(d'))
  }

  /** The rows a poll may take, weighed; rows locked by other transactions are passed over. */
  function PollWeights(db: Db, locked: set<Key>): map<Key, Weight> {
    map k | k in db.rows && Claimable(db.rows[k], db.now) && k !in locked :: PollWeight(db.rows[k])
  }

  /** The rows a claim for given events may take: by event first, in the database's own order of event ids. */
  function EventWeights(db: Db, events: seq<string>, collation: string -> int, locked: set<Key>): map<Key, Weight> {
    map k | k in db.rows && Claimable(db.rows[k], db.now) && k.event in events && k !in locked ::
      Weight(collation(k.event), SortKey(db.rows[k]), db.rows[k].created)
  }

  /** A lease in nanoseconds as whole microseconds, truncated, but never rounded down to nothing. */
  function PostgresInterval(nanos: int): (micros: int)
    ensures 1 <= micros <==> 0 < nanos
    ensures 0 < nanos < 1000 ==> micros == 1
    ensures 1000 <= nanos ==> 1000 * micros <= nanos < 1000 * (micros + 1)
    ensures nanos <= 0 ==> 1000 * (micros - 1) < nanos <= 1000 * micros
  {
    var whole := if nanos >= 0 then nanos / 1000 else -((-nanos) / 1000);
    if nanos > 0 && whole == 0 then 1 else whole
  }

  /* Outcome persistence */

  /** The listing of an event's rows: each exactly once, by creation time. */
  ghost predicate IsListing(rows: map<Key, Row>, event: string, listing: seq<Key>) {
    && (forall k <- listing :: k in rows && k.event == event)
    && (forall k <- rows :: k.event == event ==> k in listing)
    && (forall i, j :: 0 <= i < j < |listing| ==> listing[i] != listing[j])
    && (forall i, j :: 0 <= i < j < |listing| && listing[i] in rows && listing[j] in rows ==>
          rows[listing[i]].created <= rows[listing[j]].created)
  }

  function Listed(rows: map<Key, Row>, listing: seq<Key>): (ds: seq<Row>)
    requires forall k <- listing :: k in rows
  {
    seq(|listing|, i requires 0 <= i < |listing| => rows[listing[i]])
  }

  /** The event row rewritten from the projection of its rows. */
  function Projected(e: EventRow, p: EventProjection, now: Time): EventRow {
    e.(status := p.status, attempts := p.attempts, next := p.next, lastError := p.lastError,
       deliveredAt := p.deliveredAt, updated := now)
  }

  /** The columns an outcome writes; generation, limits and the frozen target are not among them. */
  function Settled(row: Row, d: Row): Row {
    row.(status := d.status, attempts := d.attempts, next := d.next, lastError := d.lastError,
         owner := None, deadline := None, updated := d.updated, deliveredAt := d.deliveredAt)
  }

  /** The fence: still processing under the owner and the deadline the copy was claimed with. */
  predicate Fence(rows: map<Key, Row>, d: Row) {
    && d.owner.Some? && d.deadline.Some?
    && d.key in rows
    && rows[d.key].status == Processing
    && rows[d.key].owner == d.owner
    && rows[d.key].deadline == d.deadline
  }

  function Stamped(made: seq<AttemptRow>, now: Time): seq<AttemptRow> {
    seq(|made|, i requires 0 <= i < |made| => made[i].(created := now))
  }

  /** Rewrites the stored event from its rows; None when the event row is missing. */
  function Reproject(db: Db, event: string, listing: seq<Key>): Option<Db>
    requires forall k <- listing :: k in db.rows
  {
    if event !in db.events then None
    else Some(db.(events := db.events[event := Projected(db.events[event],
                                                         Project(Listed(db.rows, listing), db.now), db.now)]))
  }

  /** A worker's outcome; None (nothing written) when the claim is lost or the event is missing. */
  function Persist(db: Db, d: Row, made: seq<AttemptRow>, listing: seq<Key>): Option<Db>
    requires forall k <- listing :: k in db.rows
  {
    if !Fence(db.rows, d) then None
    else Reproject(db.(rows := db.rows[d.key := Settled(db.rows[d.key], d)],
                       attempts := db.attempts + Stamped(made, db.now)), d.key.event, listing)
  }

  /** A replay; None when there is no such row, it has not failed, or the event is missing. */
  function Replay(db: Db, k: Key, at: Time, listing: seq<Key>): Option<Db>
    requires forall j <- listing :: j in db.rows
  {
    if k !in db.rows || AsReplayed(db.rows[k], at).None? then None
    else Reproject(db.(rows := db.rows[k := AsReplayed(db.rows[k], at).value]), k.event, listing)
  }

  /* Retention */

  predicate Redactable(a: AttemptRow, before: Time) {
    a.body.Some? && a.created < before
  }

  function Redact(db: Db, i: nat): Db
    requires i < |db.attempts|
  {
    db.(attempts := db.attempts[i := db.attempts[i].(body := None)])
  }

  predicate Deletable(db: Db, event: string, before: Time) {
    && event in db.events
    && db.events[event].updated < before
    && Terminal(db.events[event].status)
    && forall k <- db.rows :: k.event == event ==> Terminal(db.rows[k].status)
  }

  /** The events a deletion may take, weighed; those locked by other transactions are passed over. */
  function DeletableWeights(db: Db, before: Time, collation: string -> int, locked: set<string>): map<string, Weight> {
    map e | e in db.events && Deletable(db, e, before) && e !in locked ::
      Weight(0, db.events[e].updated, collation(e))
  }

  /** The attempts a redaction may take, weighed; they are numbered in the order of their insertion. */
  function RedactableWeights(db: Db, before: Time, locked: set<nat>): map<nat, Weight> {
    map i: nat | i < |db.attempts| && Redactable(db.attempts[i], before) && i !in locked ::
      Weight(0, db.attempts[i].created, i)
  }

  function WithoutEvent(attempts: seq<AttemptRow>, event: string): seq<AttemptRow> {
    if attempts == [] then []
    else WithoutEvent(attempts[..|attempts| - 1], event) +
         (if attempts[|attempts| - 1].key.event == event then [] else [attempts[|attempts| - 1]])
  }

  /** Deleting an event takes its rows and their attempts with it. */
  function DeleteEvent(db: Db, event: string): Db {
    db.(events := db.events - {event},
        rows := map k | k in db.rows && k.event != event :: db.rows[k],
        attempts := WithoutEvent(db.attempts, event))
  }

  function DeleteEvents(db: Db, events: seq<string>): Db {
    if events == [] then db else DeleteEvent(DeleteEvents(db, events[..|events| - 1]), events[|events| - 1])
  }

  function RedactAll(db: Db, indices: seq<nat>): Db
    requires forall j :: 0 <= j < |indices| ==> indices[j] < |db.attempts|
    ensures |RedactAll(db, indices).attempts| == |db.attempts|
  {
    if indices == [] then db
    else
      Redact(RedactAll(db, indices[..|indices| - 1]), indices[|indices| - 1])
  }

  /* Initialization, as a caller sees it. */

  /** The first subscription of the list with this id. */
  function FirstFor(subs: seq<Option<Subscription>>, id: string): Option<Subscription> {
    if subs == [] then None
    else
      var earlier, last := FirstFor(subs[..|subs| - 1], id), subs[|subs| - 1];
      if earlier.Some? then earlier else if last.Some? && last.value.id == id then last else None
  }

  /** A row just created, column by column: where it goes, what it carries, and that nothing has happened to it yet. */
  ghost predicate DeliversTo(d: Row, k: Key, ev: EventInput, sub: Subscription, at: Time) {
    && k == Key(ev.id, sub.id) && d.key == k
    && d.target.eventType == ev.eventType && d.target.source == ev.source && d.target.data == ev.data
    && d.target.url == sub.url && d.target.secret == sub.secret
    && d.target.rate == (if sub.maxRate > 0 then sub.maxRate else 100)
    && d.status == Pending && d.generation == 1
    && d.attempts == ev.attempts && d.maxAttempts == (if ev.maxAttempts == 0 then 5 else ev.maxAttempts)
    && d.next == None && d.lastError == None && d.owner == None && d.deadline == None && d.deliveredAt == None
    && d.created == at && d.updated == at
  }

  ghost predicate Wanted(k: Key, ev: EventInput, subs: seq<Option<Subscription>>) {
    k.event == ev.id && exists s <- subs :: s.Some? && s.value.id == k.sub
  }

  /** Exactly the wanted rows are there afterwards, and no row that was there changed in any field. */
  lemma {:induction false} InsertRowsMeans(rows: map<Key, Row>, ev: EventInput, subs: seq<Option<Subscription>>,
                                           at: Time)
    ensures var after := InsertRows(rows, ev, subs, at);
            && (forall k :: k in after <==> k in rows || Wanted(k, ev, subs))
            && (forall k <- rows :: k in after && after[k] == rows[k])
            && (forall k <- after :: k !in rows ==>
                  var sub := FirstFor(subs, k.sub); sub.Some? && DeliversTo(after[k], k, ev, sub.value, at))
            && (forall k: Key :: Wanted(k, ev, subs) <==> k.event == ev.id && FirstFor(subs, k.sub).Some?)
  {
    if subs != [] {
      var front, sub := subs[..|subs| - 1], subs[|subs| - 1];
      InsertRowsMeans(rows, ev, front, at);
      assert subs == front + [sub];
      WantedNext(ev, front, sub);
      var done := InsertRows(rows, ev, front, at);
      if sub.Some? {
        var k := Key(ev.id, sub.value.id);
        if k !in done {
          assert !Wanted(k, ev, front);
          assert FirstFor(subs, k.sub) == sub;
        }
      }
    }
  }

  lemma WantedNext(ev: EventInput, subs: seq<Option<Subscription>>, sub: Option<Subscription>)
    ensures forall k :: Wanted(k, ev, subs + [sub]) <==>
                        Wanted(k, ev, subs) || (sub.Some? && k == Key(ev.id, sub.value.id))
  {
    assert sub in subs + [sub];
    forall k
      ensures Wanted(k, ev, subs + [sub]) <==> Wanted(k, ev, subs) || (sub.Some? && k == Key(ev.id, sub.value.id))
    {
      if s :| s in subs && s.Some? && s.value.id == k.sub {
        assert s in subs + [sub];
      }
    }
  }

  /** Re-initialization leaves the database alone exactly when every destination it names already has its row. */
  lemma {:induction false} ReinitializeIdentity(db: Db, ev: EventInput, subs: seq<Option<Subscription>>, at: Time)
    ensures Initialize(db, ev, subs, at) == db <==>
            ev.id in db.events && forall s <- subs :: s.Some? ==> Key(ev.id, s.value.id) in db.rows
  {
    InsertRowsMeans(db.rows, ev, subs, at);
    var after := InsertRows(db.rows, ev, subs, at);
    if forall s <- subs :: s.Some? ==> Key(ev.id, s.value.id) in db.rows {
      assert forall k :: Wanted(k, ev, subs) ==> k in db.rows;
      assert after == db.rows;
    } else {
      var s :| s in subs && s.Some? && Key(ev.id, s.value.id) !in db.rows;
      assert Wanted(Key(ev.id, s.value.id), ev, subs);
      assert Key(ev.id, s.value.id) in after;
    }
  }

  /** Repeating an initialization, at any later time, equals doing it once. */
  lemma {:induction false} InitializeIdempotent(db: Db, ev: EventInput, subs: seq<Option<Subscription>>, at: Time,
                                                at': Time)
    ensures Initialize(Initialize(db, ev, subs, at), ev, subs, at') == Initialize(db, ev, subs, at)
  {
    var once := Initialize(db, ev, subs, at);
    InsertRowsMeans(db.rows, ev, subs, at);
    forall s | s in subs && s.Some?
      ensures Key(ev.id, s.value.id) in once.rows
    {
      assert Wanted(Key(ev.id, s.value.id), ev, subs);
    }
    ReinitializeIdentity(once, ev, subs, at');
  }

  /**
   The destination set of an event is not frozen: a later initialization that matches one more
   subscription adds a row, whatever the state of the event's existing rows.
   */
  lemma DestinationSetGrows(db: Db, ev: EventInput, sub: Subscription, at: Time)
    requires ev.id in db.events && Key(ev.id, sub.id) !in db.rows
    ensures Key(ev.id, sub.id) in Initialize(db, ev, [Some(sub)], at).rows
    ensures forall k <- db.rows ::
              var after := Initialize(db, ev, [Some(sub)], at).rows;
              k in after && after[k] == db.rows[k]
  {
    InsertRowsMeans(db.rows, ev, [Some(sub)], at);
    assert Some(sub) in [Some(sub)];
    assert Wanted(Key(ev.id, sub.id), ev, [Some(sub)]);
  }
}
