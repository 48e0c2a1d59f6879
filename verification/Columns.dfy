/**
 What each transaction writes, column by column, apart from the functions that compute it: the columns
 named in the UPDATE, INSERT and DELETE statements of internal/repository/postgres/event.go and
 internal/repository/postgres/retention.go, and that everything else stays.
 */
module Columns {
  import opened Collections
  import opened Domain
  import opened Projection
  import opened Store

  /* Claims */

  /** The row was leased: four columns are written, all others are as before. */
  ghost predicate LeaseTaken(d: Row, d': Row, owner: string, until: Time, now: Time) {
    && d'.status == Processing && d'.owner == Some(owner) && d'.deadline == Some(until) && d'.updated == now
    && d'.key == d.key && d'.target == d.target && d'.attempts == d.attempts && d'.maxAttempts == d.maxAttempts
    && d'.generation == d.generation && d'.next == d.next && d'.lastError == d.lastError
    && d'.created == d.created && d'.deliveredAt == d.deliveredAt
  }

  /** Exactly these rows were leased, and nothing else changed. */
  ghost predicate LeasesTaken(db: Db, db': Db, keys: seq<Key>, owner: string, until: Time) {
    && db'.now == db.now && db'.events == db.events && db'.attempts == db.attempts
    && db'.rows.Keys == db.rows.Keys
    && (forall k <- db.rows :: k in keys ==> LeaseTaken(db.rows[k], db'.rows[k], owner, until, db.now))
    && (forall k <- db.rows :: k !in keys ==> db'.rows[k] == db.rows[k])
  }

  lemma ClaimAllWrites(db: Db, keys: seq<Key>, owner: string, lease: int)
    ensures LeasesTaken(db, ClaimAll(db, keys, owner, lease), keys, owner, db.now + lease)
  {
  }

  /** The time a claim sorts a row by: its next time, else its deadline, else its creation. */
  ghost predicate SortsAt(d: Row, t: Time) {
    || d.next == Some(t)
    || (d.next.None? && d.deadline == Some(t))
    || (d.next.None? && d.deadline.None? && d.created == t)
  }

  /** `d` may be taken before `d'`: it does not sort later, and was not created later among equals. */
  ghost predicate NotLater(d: Row, d': Row) {
    exists t, t' :: SortsAt(d, t) && SortsAt(d', t') && (t < t' || (t == t' && d.created <= d'.created))
  }

  lemma SortKeySorts(d: Row)
    ensures SortsAt(d, SortKey(d))
  {
  }

  /**
   A poll takes claimable unlocked rows, as many as the limit allows, in order, and passes over none that
   sorts before one it takes.
   */
  ghost predicate TakenInOrder(db: Db, keys: seq<Key>, locked: set<Key>, limit: nat) {
    && |keys| <= limit
    && (forall k <- keys :: k in db.rows && k !in locked && Claimable(db.rows[k], db.now))
    && (|keys| < limit ==> forall k <- db.rows :: Claimable(db.rows[k], db.now) && k !in locked ==> k in keys)
    && (forall i, j :: 0 <= i < j < |keys| && keys[i] in db.rows && keys[j] in db.rows ==>
          NotLater(db.rows[keys[i]], db.rows[keys[j]]))
    && (forall k <- keys, j <- db.rows ::
          k in db.rows && Claimable(db.rows[j], db.now) && j !in locked && j !in keys ==>
            NotLater(db.rows[k], db.rows[j]))
  }

  lemma NotLighterNotLater(d: Row, d': Row)
    requires !Lighter(PollWeight(d'), PollWeight(d))
    ensures NotLater(d, d')
  {
    SortKeySorts(d);
    SortKeySorts(d');
  }

  lemma PollOrders(db: Db, keys: seq<Key>, locked: set<Key>, limit: nat)
    requires IsPick(PollWeights(db, locked), limit, keys)
    ensures TakenInOrder(db, keys, locked, limit)
  {
    var weights := PollWeights(db, locked);
    assert forall k <- db.rows :: Claimable(db.rows[k], db.now) && k !in locked ==> k in weights;
    forall i, j | 0 <= i < j < |keys| && keys[i] in db.rows && keys[j] in db.rows
      ensures NotLater(db.rows[keys[i]], db.rows[keys[j]])
    {
      assert keys[i] in weights && keys[j] in weights;
      NotLighterNotLater(db.rows[keys[i]], db.rows[keys[j]]);
    }
    forall k, j | k in keys && j in db.rows && k in db.rows && Claimable(db.rows[j], db.now)
                  && j !in locked && j !in keys
      ensures NotLater(db.rows[k], db.rows[j])
    {
      assert j in weights && k in weights;
      NotLighterNotLater(db.rows[k], db.rows[j]);
    }
  }

  /** A claim for given events takes theirs only, and goes by event first, then as a poll does. */
  ghost predicate EventOrdered(db: Db, keys: seq<Key>, ids: seq<string>, collation: string -> int, locked: set<Key>,
                               limit: nat) {
    && |keys| <= limit
    && (forall k <- keys :: k.event in ids && k in db.rows && k !in locked && Claimable(db.rows[k], db.now))
    && (|keys| < limit ==>
          forall k <- db.rows :: k.event in ids && Claimable(db.rows[k], db.now) && k !in locked ==> k in keys)
    && (forall k <- keys, j <- db.rows ::
          k in db.rows && Claimable(db.rows[j], db.now) && j.event in ids && j !in locked && j !in keys ==>
            || collation(k.event) < collation(j.event)
            || (collation(k.event) == collation(j.event) && NotLater(db.rows[k], db.rows[j])))
  }

  lemma EventClaimOrders(db: Db, keys: seq<Key>, ids: seq<string>, collation: string -> int, locked: set<Key>,
                         limit: nat)
    requires IsPick(EventWeights(db, ids, collation, locked), limit, keys)
    ensures EventOrdered(db, keys, ids, collation, locked, limit)
  {
    var weights := EventWeights(db, ids, collation, locked);
    assert forall k <- db.rows :: k.event in ids && Claimable(db.rows[k], db.now) && k !in locked ==> k in weights;
    forall k, j | k in keys && j in db.rows && k in db.rows && Claimable(db.rows[j], db.now) && j.event in ids
                  && j !in locked && j !in keys
      ensures || collation(k.event) < collation(j.event)
              || (collation(k.event) == collation(j.event) && NotLater(db.rows[k], db.rows[j]))
    {
      assert j in weights && k in weights;
      SortKeySorts(db.rows[k]);
      SortKeySorts(db.rows[j]);
    }
  }

  /* Event rewriting */

  /** The projected columns of an event row. */
  function Stored(e: EventRow): EventProjection {
    EventProjection(e.status, e.attempts, e.next, e.lastError, e.deliveredAt)
  }

  /** The event now says what its rows say, open or ended; its other columns are as before. */
  ghost predicate EventRewritten(e: EventRow, e': EventRow, ds: seq<Row>, now: Time) {
    && (ds != [] ==> Agrees(ds, Stored(e')) && e'.lastError == LastError(ds))
    && (ds == [] ==> Stored(e') == EventProjection(Delivered, 0, None, None, Some(now)))
    && e'.updated == now
    && e'.eventType == e.eventType && e'.source == e.source && e'.data == e.data
    && e'.maxAttempts == e.maxAttempts && e'.created == e.created
  }

  /** One event was rewritten from a listing of its rows; the others are as before. */
  ghost predicate EventUpdated(db: Db, db': Db, event: string, listing: seq<Key>) {
    && event in db.events && db'.events.Keys == db.events.Keys
    && (forall k <- listing :: k in db'.rows)
    && EventRewritten(db.events[event], db'.events[event], Listed(db'.rows, listing), db.now)
    && forall e <- db.events :: e != event ==> db'.events[e] == db.events[e]
  }

  lemma ReprojectWrites(db: Db, event: string, listing: seq<Key>)
    requires (forall k <- listing :: k in db.rows) && Reproject(db, event, listing).Some?
    ensures var db' := Reproject(db, event, listing).value;
            && EventUpdated(db, db', event, listing)
            && db'.rows == db.rows && db'.attempts == db.attempts && db'.now == db.now
  {
    var ds := Listed(db.rows, listing);
    if ds != [] {
      ProjectMeans(ds, db.now);
    }
  }

  /* Outcomes and replays */

  /** The row took the outcome of the copy: eight columns are written, two of them cleared, the others are as before. */
  ghost predicate OutcomeTaken(d: Row, copy: Row, d': Row) {
    && d'.status == copy.status && d'.attempts == copy.attempts && d'.next == copy.next
    && d'.lastError == copy.lastError && d'.updated == copy.updated && d'.deliveredAt == copy.deliveredAt
    && d'.owner == None && d'.deadline == None
    && d'.key == d.key && d'.target == d.target && d'.maxAttempts == d.maxAttempts
    && d'.generation == d.generation && d'.created == d.created
  }

  /** The attempts were appended, stamped with the database's clock and otherwise as they were made. */
  ghost predicate AttemptsAdded(before: seq<AttemptRow>, after: seq<AttemptRow>, made: seq<AttemptRow>, now: Time) {
    && |after| == |before| + |made| && after[..|before|] == before
    && forall i :: 0 <= i < |made| ==>
         var a, m := after[|before| + i], made[i];
         && a.key == m.key && a.number == m.number && a.generation == m.generation
         && a.code == m.code && a.body == m.body && a.error == m.error && a.created == now
  }

  /** An accepted outcome: one row, its attempts and its event. */
  ghost predicate OutcomeWritten(db: Db, db': Db, copy: Row, made: seq<AttemptRow>, listing: seq<Key>) {
    && db'.now == db.now && db'.rows.Keys == db.rows.Keys && copy.key in db.rows
    && OutcomeTaken(db.rows[copy.key], copy, db'.rows[copy.key])
    && (forall k <- db.rows :: k != copy.key ==> db'.rows[k] == db.rows[k])
    && AttemptsAdded(db.attempts, db'.attempts, made, db.now)
    && EventUpdated(db, db', copy.key.event, listing)
  }

  /** The copy's claim is still on the row: processing, under the same owner and the same deadline. */
  ghost predicate ClaimStands(rows: map<Key, Row>, copy: Row) {
    && copy.owner != None && copy.deadline != None && copy.key in rows
    && rows[copy.key].status == Processing
    && rows[copy.key].owner == copy.owner && rows[copy.key].deadline == copy.deadline
  }

  lemma PersistWrites(db: Db, copy: Row, made: seq<AttemptRow>, listing: seq<Key>)
    requires IsListing(db.rows, copy.key.event, listing)
    ensures Persist(db, copy, made, listing).Some? <==> ClaimStands(db.rows, copy) && copy.key.event in db.events
    ensures Persist(db, copy, made, listing).Some? ==>
              OutcomeWritten(db, Persist(db, copy, made, listing).value, copy, made, listing)
  {
    if Fence(db.rows, copy) {
      var rows' := db.rows[copy.key := Settled(db.rows[copy.key], copy)];
      var mid := db.(rows := rows', attempts := db.attempts + Stamped(made, db.now));
      if Reproject(mid, copy.key.event, listing).Some? {
        ReprojectWrites(mid, copy.key.event, listing);
      }
    }
  }

  /** A failed row starts over: a new generation without attempts, due at the given time. */
  ghost predicate StartedOver(d: Row, d': Row, at: Time) {
    && d.status == Failed && d'.status == Retrying && d'.generation == d.generation + 1 && d'.attempts == 0
    && d'.next == Some(at) && d'.lastError == None && d'.deliveredAt == None
    && d'.owner == None && d'.deadline == None && d'.updated == at
    && d'.key == d.key && d'.target == d.target && d'.maxAttempts == d.maxAttempts && d'.created == d.created
  }

  ghost predicate ReplayWritten(db: Db, db': Db, k: Key, at: Time, listing: seq<Key>) {
    && db'.now == db.now && db'.attempts == db.attempts && db'.rows.Keys == db.rows.Keys && k in db.rows
    && StartedOver(db.rows[k], db'.rows[k], at)
    && (forall j <- db.rows :: j != k ==> db'.rows[j] == db.rows[j])
    && EventUpdated(db, db', k.event, listing)
  }

  lemma ReplayWrites(db: Db, k: Key, at: Time, listing: seq<Key>)
    requires IsListing(db.rows, k.event, listing) && Replay(db, k, at, listing).Some?
    ensures ReplayWritten(db, Replay(db, k, at, listing).value, k, at, listing)
  {
    ReprojectWrites(db.(rows := db.rows[k := AsReplayed(db.rows[k], at).value]), k.event, listing);
  }

  /* Initialization */

  /** An event just stored; without subscriptions it is delivered at once. */
  ghost predicate EventCreated(e: EventRow, ev: EventInput, noSubscriptions: bool, at: Time) {
    && e.eventType == ev.eventType && e.source == ev.source && e.data == ev.data
    && e.attempts == ev.attempts && e.maxAttempts == (if ev.maxAttempts == 0 then 5 else ev.maxAttempts)
    && e.next == ev.next && e.lastError == ev.lastError
    && (if noSubscriptions then e.status == Delivered && (ev.deliveredAt == None ==> e.deliveredAt == Some(at))
        else (ev.status == None ==> e.status == Pending) && (ev.status.Some? ==> e.status == ev.status.value)
             && e.deliveredAt == ev.deliveredAt)
    && (ev.deliveredAt.Some? ==> e.deliveredAt == ev.deliveredAt)
    && (ev.created == None ==> e.created == at) && (ev.created.Some? ==> e.created == ev.created.value)
    && (ev.updated == None ==> e.updated == e.created) && (ev.updated.Some? ==> e.updated == ev.updated.value)
  }

  /** The event and the missing rows were added; whatever was there is as it was. */
  ghost predicate EventInitialized(db: Db, db': Db, ev: EventInput, subs: seq<Option<Subscription>>, at: Time) {
    && db'.now == db.now && db'.attempts == db.attempts
    && db'.events.Keys == db.events.Keys + {ev.id}
    && (forall e <- db.events :: db'.events[e] == db.events[e])
    && (ev.id !in db.events ==> EventCreated(db'.events[ev.id], ev, |subs| == 0, at))
    && (forall k <- db.rows :: k in db'.rows && db'.rows[k] == db.rows[k])
    && (forall s <- subs :: s.Some? ==> Key(ev.id, s.value.id) in db'.rows)
    && (forall k <- db'.rows :: k !in db.rows ==>
          var sub := FirstFor(subs, k.sub); sub.Some? && DeliversTo(db'.rows[k], k, ev, sub.value, at))
  }

  lemma InitializeWrites(db: Db, ev: EventInput, subs: seq<Option<Subscription>>, at: Time)
    ensures EventInitialized(db, Initialize(db, ev, subs, at), ev, subs, at)
  {
    InsertRowsMeans(db.rows, ev, subs, at);
    forall s | s in subs && s.Some?
      ensures Key(ev.id, s.value.id) in Initialize(db, ev, subs, at).rows
    {
      assert Wanted(Key(ev.id, s.value.id), ev, subs);
    }
  }

  /* Retention */

  /** An event that may go: not touched since the cut-off, ended, with no open row, and not locked. */
  ghost predicate MayGo(db: Db, e: string, before: Time, locked: set<string>) {
    && e in db.events && e !in locked && db.events[e].updated < before
    && db.events[e].status in {Delivered, Failed}
    && forall k <- db.rows :: k.event == e ==> db.rows[k].status in {Delivered, Failed}
  }

  /** The attempts of the other events, in order. */
  function AttemptsWithout(attempts: seq<AttemptRow>, gone: set<string>): seq<AttemptRow> {
    if attempts == [] then []
    else AttemptsWithout(attempts[..|attempts| - 1], gone) +
         (if attempts[|attempts| - 1].key.event in gone then [] else [attempts[|attempts| - 1]])
  }

  /** These events went, with their rows and attempts, the least recently updated first; nothing else changed. */
  ghost predicate EventsDeleted(db: Db, db': Db, gone: set<string>, before: Time, limit: nat, locked: set<string>) {
    && (forall e <- gone :: MayGo(db, e, before, locked))
    && |gone| <= limit
    && (forall e <- gone, e' <- db.events :: e in db.events && e' !in gone && MayGo(db, e', before, locked) ==>
          db.events[e].updated <= db.events[e'].updated)
    && (|gone| < limit ==> forall e <- db.events :: MayGo(db, e, before, locked) ==> e in gone)
    && db'.now == db.now
    && db'.events == db.events - gone
    && db'.rows == (map k | k in db.rows && k.event !in gone :: db.rows[k])
    && db'.attempts == AttemptsWithout(db.attempts, gone)
  }

  lemma {:induction false} WithoutOneMore(attempts: seq<AttemptRow>, gone: set<string>, e: string)
    ensures WithoutEvent(AttemptsWithout(attempts, gone), e) == AttemptsWithout(attempts, gone + {e})
  {
    if attempts != [] {
      var front, a := attempts[..|attempts| - 1], attempts[|attempts| - 1];
      WithoutOneMore(front, gone, e);
      var kept := AttemptsWithout(front, gone);
      if a.key.event !in gone {
        assert (kept + [a])[..|kept|] == kept;
      } else {
        assert kept + [] == kept;
      }
    }
  }

  lemma {:induction false} WithoutNone(attempts: seq<AttemptRow>)
    ensures AttemptsWithout(attempts, {}) == attempts
  {
    if attempts != [] {
      WithoutNone(attempts[..|attempts| - 1]);
    }
  }

  lemma {:induction false} DeletesEach(db: Db, events: seq<string>)
    ensures var db' := DeleteEvents(db, events);
            && db'.now == db.now && db'.events == db.events - Elements(events)
            && db'.rows == (map k | k in db.rows && k.event !in Elements(events) :: db.rows[k])
            && db'.attempts == AttemptsWithout(db.attempts, Elements(events))
  {
    if events == [] {
      assert Elements(events) == {};
      WithoutNone(db.attempts);
    } else {
      var front, e := events[..|events| - 1], events[|events| - 1];
      DeletesEach(db, front);
      assert Elements(events) == Elements(front) + {e} by {
        assert events == front + [e];
      }
      WithoutOneMore(db.attempts, Elements(front), e);
    }
  }

  lemma DeletableMeans(db: Db, before: Time, collation: string -> int, locked: set<string>, e: string)
    ensures e in DeletableWeights(db, before, collation, locked) <==> MayGo(db, e, before, locked)
  {
  }

  lemma {:induction false} DeleteWrites(db: Db, before: Time, limit: nat, collation: string -> int, locked: set<string>,
                                        picked: seq<string>)
    requires IsPick(DeletableWeights(db, before, collation, locked), limit, picked)
    ensures EventsDeleted(db, DeleteEvents(db, picked), Elements(picked), before, limit, locked)
    ensures |Elements(picked)| == |picked|
  {
    var weights := DeletableWeights(db, before, collation, locked);
    DeletesEach(db, picked);
    ElementsSize(picked);
    forall e
      ensures e in weights <==> MayGo(db, e, before, locked)
    {
      DeletableMeans(db, before, collation, locked, e);
    }
    forall e, e' | e in Elements(picked) && e' in db.events && e' !in Elements(picked) && MayGo(db, e', before, locked)
      ensures db.events[e].updated <= db.events[e'].updated
    {
      assert e in picked && e in weights && e' in weights;
    }
  }

  /** An attempt whose body may be cleared: it has one, was made before the cut-off, and is not locked. */
  ghost predicate MayClear(db: Db, i: int, before: Time, locked: set<nat>) {
    && 0 <= i < |db.attempts| && i !in locked
    && db.attempts[i].body != None && db.attempts[i].created < before
  }

  /** The attempt lost its body and nothing else. */
  ghost predicate Cleared(a: AttemptRow, a': AttemptRow) {
    && a'.body == None && a'.key == a.key && a'.number == a.number && a'.generation == a.generation
    && a'.code == a.code && a'.error == a.error && a'.created == a.created
  }

  /** These attempts lost their bodies, the oldest first; nothing else changed. */
  ghost predicate BodiesCleared(db: Db, db': Db, done: set<nat>, before: Time, limit: nat, locked: set<nat>) {
    && db'.now == db.now && db'.events == db.events && db'.rows == db.rows && |db'.attempts| == |db.attempts|
    && |done| <= limit
    && (forall i <- done ::
          MayClear(db, i, before, locked) && i < |db'.attempts| && Cleared(db.attempts[i], db'.attempts[i]))
    && (forall i: nat :: i < |db.attempts| && i !in done ==> db'.attempts[i] == db.attempts[i])
    && (forall i <- done, j: nat :: i < |db.attempts| && j !in done && MayClear(db, j, before, locked) ==>
          db.attempts[i].created <= db.attempts[j].created)
    && (|done| < limit ==> forall j: nat :: MayClear(db, j, before, locked) ==> j in done)
  }

  lemma {:induction false} ClearsEach(db: Db, indices: seq<nat>)
    requires forall j :: 0 <= j < |indices| ==> indices[j] < |db.attempts|
    ensures var db' := RedactAll(db, indices);
            && db'.now == db.now && db'.events == db.events && db'.rows == db.rows && |db'.attempts| == |db.attempts|
            && (forall i: nat :: i < |db.attempts| ==>
                  db'.attempts[i] == if i in indices then db.attempts[i].(body := None) else db.attempts[i])
  {
    if indices != [] {
      var front, i := indices[..|indices| - 1], indices[|indices| - 1];
      ClearsEach(db, front);
      assert indices == front + [i];
    }
  }

  lemma {:induction false} RedactWrites(db: Db, before: Time, limit: nat, locked: set<nat>, picked: seq<nat>)
    requires IsPick(RedactableWeights(db, before, locked), limit, picked)
    requires forall j :: 0 <= j < |picked| ==> picked[j] < |db.attempts|
    ensures BodiesCleared(db, RedactAll(db, picked), Elements(picked), before, limit, locked)
    ensures |Elements(picked)| == |picked|
  {
    var weights := RedactableWeights(db, before, locked);
    ClearsEach(db, picked);
    ElementsSize(picked);
    assert forall i: nat :: i in weights <==> MayClear(db, i, before, locked);
    forall i, j: nat | i in Elements(picked) && i < |db.attempts| && j !in Elements(picked)
                       && MayClear(db, j, before, locked)
      ensures db.attempts[i].created <= db.attempts[j].created
    {
      assert i in picked && i in weights && j in weights;
    }
  }
}
