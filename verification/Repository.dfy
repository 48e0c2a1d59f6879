/**
 The event repository as an object: its methods work through tables step by step, as the SQL and the
 Go code around it do, and each is proved to be the corresponding transaction on the database value
 (internal/repository/postgres/event.go, internal/repository/postgres/retention.go).
 */
module Repository {
  import opened Collections
  import opened Domain
  import opened Projection
  import opened Store
  import opened Columns
  import opened Reachability

  /** ORDER BY ... LIMIT: repeatedly moves a lightest remaining entry to the end of the result. */
  method TakeLightest<K(==, !new)>(weights: map<K, Weight>, limit: nat) returns (picked: seq<K>)
    ensures IsPick(weights, limit, picked)
  {
    picked := [];
    var rest := weights.Keys;
    while |picked| < limit && rest != {}
      invariant |picked| <= limit && rest <= weights.Keys
      invariant forall k <- weights :: k in rest <==> k !in picked
      invariant forall k <- picked :: k in weights
      invariant forall i, j :: 0 <= i < j < |picked| ==> picked[i] != picked[j]
      invariant forall i, j :: 0 <= i < j < |picked| ==> !Lighter(weights[picked[j]], weights[picked[i]])
      invariant forall k <- picked, j <- rest :: !Lighter(weights[j], weights[k])
      decreases |rest|
    {
      var lightest := Lightest(weights, rest);
      picked := picked + [lightest];
      rest := rest - {lightest};
    }
  }

  method Lightest<K(==)>(weights: map<K, Weight>, keys: set<K>) returns (lightest: K)
    requires keys != {} && keys <= weights.Keys
    ensures lightest in keys
    ensures forall k <- keys :: !Lighter(weights[k], weights[lightest])
  {
    var rest := keys;
    lightest :| lightest in rest;
    rest := rest - {lightest};
    while rest != {}
      invariant rest <= keys && lightest in keys
      invariant forall k <- keys :: k !in rest ==> !Lighter(weights[k], weights[lightest])
    {
      var k :| k in rest;
      if Lighter(weights[k], weights[lightest]) {
        lightest := k;
      }
      rest := rest - {k};
    }
  }

  datatype Claimed = Claimed(row: Row, reclaimed: bool)

  datatype Failure = NoFailure | Unavailable | InvalidInput | ClaimLost | NotFound | NotEligible | IdTaken

  class EventRepository {
    var now: Time
    var events: map<string, EventRow>
    var rows: map<Key, Row>
    var attempts: seq<AttemptRow>

    ghost function Db(): Db
      reads this
    {
      Store.Db(now, events, rows, attempts)
    }

    constructor (now: Time)
      ensures Db() == Store.Db(now, map[], map[], []) && Real(Db())
    {
      this.now, events, rows, attempts := now, map[], map[], [];
      EmptyReal(now);
    }

    /** The keys of an event's rows by creation time. */
    method ListDeliveries(event: string) returns (listing: seq<Key>)
      ensures IsListing(rows, event, listing)
    {
      var weights := map k | k in rows && k.event == event :: Weight(0, rows[k].created, 0);
      listing := TakeLightest(weights, |weights|);
      assert forall k <- weights :: k in listing by {
        if |listing| == |weights| {
          AllTaken(weights.Keys, listing);
          assert weights.Keys == Elements(listing);
        }
      }
    }

    /**
     Inserts the event and one row per non-nil subscription. An existing row of the same pair wins every
     conflict; a new row whose textual id belongs to another pair violates the primary key and undoes all.
     */
    method InitializeEventDeliveries(event: Option<EventInput>, subs: seq<Option<Subscription>>, at: Time,
                                     available: bool)
      returns (failure: Failure, listing: seq<Key>)
      modifies this
      ensures event.None? ==> failure == InvalidInput
      ensures event.Some? && !available ==> failure == Unavailable
      ensures failure != NoFailure ==> Db() == old(Db())
      ensures event.Some? && available ==>
                failure == if Clashes(old(rows), event.value, subs) then IdTaken else NoFailure
      ensures failure == NoFailure ==>
                && EventInitialized(old(Db()), Db(), event.value, subs, at)
                && Db() == Initialize(old(Db()), event.value, subs, at) && IsListing(rows, event.value.id, listing)
      ensures Real(old(Db())) ==> Real(Db())
    {
      listing := [];
      if event.None? {
        return InvalidInput, [];
      }
      if !available {
        return Unavailable, [];
      }
      var ev := event.value;
      var eventsBefore, rowsBefore := events, rows;
      InsertEvent(ev, |subs| == 0, at);
      var clash := InsertDeliveries(ev, subs, at);
      if clash {
        events, rows := eventsBefore, rowsBefore;
        return IdTaken, [];
      }
      listing := ListDeliveries(ev.id);
      failure := NoFailure;
      InitializeWrites(old(Db()), ev, subs, at);
      if Real(old(Db())) {
        InitializeReal(old(Db()), ev, subs, at);
      }
    }

    /** The event of an initialization, unless there is one already; without subscriptions it is delivered at once. */
    method InsertEvent(ev: EventInput, noSubscriptions: bool, at: Time)
      modifies this`events
      ensures events == if ev.id in old(events) then old(events)
                        else old(events)[ev.id := NewEvent(ev, noSubscriptions, at)]
    {
      var created := if ev.created.None? then at else ev.created.value;
      var updated := if ev.updated.None? then created else ev.updated.value;
      var maxAttempts := ev.maxAttempts;
      if maxAttempts == 0 {
        maxAttempts := DEFAULT_MAX_ATTEMPTS;
      }
      var status := if ev.status.None? then Pending else ev.status.value;
      var deliveredAt := ev.deliveredAt;
      if noSubscriptions {
        status := Delivered;
        if deliveredAt.None? {
          deliveredAt := Some(at);
        }
      }
      if ev.id !in events {
        events := events[ev.id := EventRow(ev.eventType, ev.source, ev.data, status, ev.attempts, maxAttempts,
                                           ev.next, ev.lastError, created, updated, deliveredAt)];
      }
    }

    /** The rows of an initialization, up to the first one whose textual id is taken. */
    method InsertDeliveries(ev: EventInput, subs: seq<Option<Subscription>>, at: Time) returns (clash: bool)
      modifies this`rows
      ensures clash <==> Clashes(old(rows), ev, subs)
      ensures !clash ==> rows == InsertRows(old(rows), ev, subs, at)
    {
      for i := 0 to |subs|
        invariant rows == InsertRows(old(rows), ev, subs[..i], at)
        invariant !Clashes(old(rows), ev, subs[..i])
      {
        assert subs[..i + 1] == subs[..i] + [subs[i]];
        InsertRowsNext(old(rows), ev, subs[..i], subs[i], at);
        ClashesNext(old(rows), ev, subs[..i], subs[i], at);
        if subs[i].None? {
          continue;
        }
        var row := NewRow(ev, subs[i].value, at);
        if row.key !in rows {
          if exists k <- rows :: Shares(k, row.key) {
            ClashesPrefix(old(rows), ev, subs, i + 1);
            return true;
          }
          rows := rows[row.key := row];
        }
      }
      assert subs[..|subs|] == subs;
      return false;
    }

    /** Leases the given rows, all at this instant, and returns the leased copies. */
    method LeaseRows(keys: seq<Key>, owner: string, lease: int) returns (claimed: seq<Claimed>)
      requires forall k <- keys :: k in rows
      requires forall i, j :: 0 <= i < j < |keys| ==> keys[i] != keys[j]
      modifies this
      ensures Db() == ClaimAll(old(Db()), keys, owner, lease)
      ensures |claimed| == |keys|
      ensures forall i :: 0 <= i < |keys| ==>
                keys[i] in rows && claimed[i].row == rows[keys[i]] &&
                claimed[i].reclaimed == (old(rows)[keys[i]].status == Processing)
    {
      claimed := [];
      for i := 0 to |keys|
        invariant Db() == ClaimAll(old(Db()), keys[..i], owner, lease) && |claimed| == i
        invariant forall j :: 0 <= j < i ==>
                    && claimed[j].row == Leased(old(rows)[keys[j]], owner, lease, now)
                    && claimed[j].reclaimed == (old(rows)[keys[j]].status == Processing)
      {
        var k := keys[i];
        ClaimAllNext(old(Db()), keys[..i], k, owner, lease);
        assert keys[..i + 1] == keys[..i] + [k];
        var reclaimed := rows[k].status == Processing;
        rows := rows[k := Leased(rows[k], owner, lease, now)];
        claimed := claimed + [Claimed(rows[k], reclaimed)];
      }
      assert keys[..|keys|] == keys;
    }

    /** The poller's claim. */
    method ClaimDeliveries(owner: string, leaseNanos: int, limit: nat, locked: set<Key>)
      returns (keys: seq<Key>, claimed: seq<Claimed>)
      modifies this
      ensures IsPick(PollWeights(old(Db()), locked), limit, keys) && TakenInOrder(old(Db()), keys, locked, limit)
      ensures LeasesTaken(old(Db()), Db(), keys, owner, old(now) + PostgresInterval(leaseNanos))
      ensures Db() == ClaimAll(old(Db()), keys, owner, PostgresInterval(leaseNanos))
      ensures leaseNanos > 0 && Real(old(Db())) ==> Real(Db())
      ensures |claimed| == |keys|
      ensures forall i :: 0 <= i < |keys| ==>
                keys[i] in rows && claimed[i].row == rows[keys[i]] &&
                claimed[i].reclaimed == (keys[i] in old(rows) && old(rows)[keys[i]].status == Processing)
    {
      var weights := map k | k in rows && Claimable(rows[k], now) && k !in locked :: PollWeight(rows[k]);
      assert weights == PollWeights(Db(), locked);
      keys := TakeLightest(weights, limit);
      PollTakes(Db(), locked, limit, keys);
      PollOrders(Db(), keys, locked, limit);
      claimed := LeaseAll(keys, owner, PostgresInterval(leaseNanos));
    }

    /** Leases the given rows, and nothing else. */
    method LeaseAll(keys: seq<Key>, owner: string, lease: int) returns (claimed: seq<Claimed>)
      requires AllClaimable(Db(), keys) && Distinct(keys)
      modifies this
      ensures Db() == ClaimAll(old(Db()), keys, owner, lease)
      ensures LeasesTaken(old(Db()), Db(), keys, owner, old(now) + lease)
      ensures 1 <= lease && Real(old(Db())) ==> Real(Db())
      ensures |claimed| == |keys|
      ensures forall i :: 0 <= i < |keys| ==>
                keys[i] in rows && claimed[i].row == rows[keys[i]] &&
                claimed[i].reclaimed == (keys[i] in old(rows) && old(rows)[keys[i]].status == Processing)
    {
      ClaimAllWrites(Db(), keys, owner, lease);
      if 1 <= lease && Real(Db()) {
        ClaimReal(Db(), keys, owner, lease);
      }
      claimed := LeaseRows(keys, owner, lease);
    }

    /** The claimable rows of the events, in claim order, up to the limit. */
    method PickEventRows(eventIds: seq<string>, limit: nat, collation: string -> int, locked: set<Key>)
      returns (keys: seq<Key>)
      ensures IsPick(EventWeights(Db(), eventIds, collation, locked), limit, keys)
    {
      var weights := map k | k in rows && Claimable(rows[k], now) && k.event in eventIds && k !in locked ::
        Weight(collation(k.event), SortKey(rows[k]), rows[k].created);
      assert weights == EventWeights(Db(), eventIds, collation, locked);
      keys := TakeLightest(weights, limit);
    }

    /** The claim of freshly consumed events; nothing for no events or no limit. */
    method ClaimEventDeliveries(eventIds: seq<string>, owner: string, leaseNanos: int, limit: int,
                                collation: string -> int, locked: set<Key>)
      returns (keys: seq<Key>, claimed: seq<Claimed>)
      modifies this
      ensures IsPick(EventWeights(old(Db()), eventIds, collation, locked), if limit <= 0 then 0 else limit, keys)
      ensures eventIds != [] && limit > 0 ==> EventOrdered(old(Db()), keys, eventIds, collation, locked, limit)
      ensures eventIds == [] || limit <= 0 ==> keys == []
      ensures LeasesTaken(old(Db()), Db(), keys, owner, old(now) + PostgresInterval(leaseNanos))
      ensures Db() == ClaimAll(old(Db()), keys, owner, PostgresInterval(leaseNanos))
      ensures leaseNanos > 0 && Real(old(Db())) ==> Real(Db())
      ensures |claimed| == |keys|
      ensures forall i :: 0 <= i < |keys| ==>
                keys[i] in rows && claimed[i].row == rows[keys[i]] &&
                claimed[i].reclaimed == (keys[i] in old(rows) && old(rows)[keys[i]].status == Processing)
    {
      keys, claimed := [], [];
      if |eventIds| == 0 || limit <= 0 {
        NothingClaimed(Db(), eventIds, collation, locked, if limit <= 0 then 0 else limit, owner,
                       PostgresInterval(leaseNanos));
        return;
      }
      keys, claimed := ClaimForEvents(eventIds, owner, PostgresInterval(leaseNanos), limit, collation, locked);
    }

    method ClaimForEvents(eventIds: seq<string>, owner: string, lease: int, limit: nat, collation: string -> int,
                          locked: set<Key>)
      returns (keys: seq<Key>, claimed: seq<Claimed>)
      modifies this
      ensures IsPick(EventWeights(old(Db()), eventIds, collation, locked), limit, keys)
      ensures EventOrdered(old(Db()), keys, eventIds, collation, locked, limit)
      ensures LeasesTaken(old(Db()), Db(), keys, owner, old(now) + lease)
      ensures Db() == ClaimAll(old(Db()), keys, owner, lease)
      ensures 1 <= lease && Real(old(Db())) ==> Real(Db())
      ensures |claimed| == |keys|
      ensures forall i :: 0 <= i < |keys| ==>
                keys[i] in rows && claimed[i].row == rows[keys[i]] &&
                claimed[i].reclaimed == (keys[i] in old(rows) && old(rows)[keys[i]].status == Processing)
    {
      keys := PickEventRows(eventIds, limit, collation, locked);
      EventClaimTakes(Db(), eventIds, collation, locked, limit, keys);
      EventClaimOrders(Db(), keys, eventIds, collation, locked, limit);
      claimed := LeaseAll(keys, owner, lease);
    }

    /** Rewrites the stored event from its rows. */
    method UpdateEventProjection(event: string) returns (failure: Failure, listing: seq<Key>)
      modifies this`events
      ensures IsListing(rows, event, listing)
      ensures failure == if event in old(events) then NoFailure else NotFound
      ensures Reproject(old(Db()), event, listing) == if failure == NoFailure then Some(Db()) else None
      ensures failure != NoFailure ==> events == old(events)
      ensures failure == NoFailure ==> EventUpdated(old(Db()), Db(), event, listing)
    {
      listing := ListDeliveries(event);
      var table := rows;
      var ds := seq(|listing|, i requires 0 <= i < |listing| => Some(table[listing[i]]));
      var p := ProjectEventFromDeliveries(ds, now);
      PresentAll(Listed(rows, listing), ds);
      if event !in events {
        return NotFound, listing;
      }
      ReprojectWrites(Db(), event, listing);
      events := events[event := Projected(events[event], p, now)];
      failure := NoFailure;
    }

    /** A worker's outcome, fenced by the owner and deadline of its copy; all or nothing. */
    method PersistClaimedDeliveryOutcome(delivery: Option<Row>, made: seq<AttemptRow>, available: bool)
      returns (failure: Failure, listing: seq<Key>)
      modifies this
      ensures failure != NoFailure ==> Db() == old(Db())
      ensures delivery.None? ==> failure == ClaimLost
      ensures delivery.Some? ==> IsListing(old(rows), delivery.value.key.event, listing)
      ensures delivery.Some? && available ==>
                Persist(old(Db()), delivery.value, made, listing) == (if failure == NoFailure then Some(Db()) else None)
      ensures delivery.Some? && available ==>
                (failure == ClaimLost <==> !ClaimStands(old(rows), delivery.value))
      ensures delivery.Some? && failure == NoFailure ==>
                OutcomeWritten(old(Db()), Db(), delivery.value, made, listing)
      ensures !available ==> failure == Unavailable || failure == ClaimLost
    {
      listing := [];
      if delivery.None? {
        return ClaimLost, [];
      }
      var d := delivery.value;
      listing := ListDeliveries(d.key.event);
      if d.owner.None? || d.deadline.None? {
        return ClaimLost, listing;
      }
      if !available {
        return Unavailable, listing;
      }
      if d.key !in rows || rows[d.key].status != Processing || rows[d.key].owner != d.owner
         || rows[d.key].deadline != d.deadline {
        return ClaimLost, listing;
      }
      var rowsBefore, attemptsBefore := rows, attempts;
      rows := rows[d.key := Settled(rows[d.key], d)];
      for i := 0 to |made|
        invariant attempts == attemptsBefore + Stamped(made, now)[..i]
        invariant now == old(now) && events == old(events) && rows == old(rows)[d.key := Settled(old(rows)[d.key], d)]
      {
        attempts := attempts + [made[i].(created := now)];
      }
      assert Stamped(made, now)[..|made|] == Stamped(made, now);
      failure, listing := UpdateEventProjection(d.key.event);
      RelistSettled(rowsBefore, rows, d.key, listing);
      if failure != NoFailure {
        rows, attempts := rowsBefore, attemptsBefore;
      }
      PersistWrites(old(Db()), d, made, listing);
    }

    /** Schedules a new generation of a failed delivery. */
    method ReplayFailedDelivery(k: Key, at: Time, available: bool) returns (failure: Failure, listing: seq<Key>)
      modifies this
      ensures failure != NoFailure ==> Db() == old(Db())
      ensures !available ==> failure == Unavailable
      ensures Real(old(Db())) ==> Real(Db())
      ensures available ==>
                && IsListing(old(rows), k.event, listing)
                && Replay(old(Db()), k, at, listing) == (if failure == NoFailure then Some(Db()) else None)
                && (k !in old(rows) ==> failure == NotFound)
                && (k in old(rows) && old(rows)[k].status != Failed ==> failure == NotEligible)
                && (failure == NoFailure ==> ReplayWritten(old(Db()), Db(), k, at, listing))
    {
      listing := [];
      if !available {
        return Unavailable, [];
      }
      if k !in rows {
        listing := ListDeliveries(k.event);
        return NotFound, listing;
      }
      var delivery := new Delivery(rows[k]);
      var eligible := delivery.ScheduleReplay(at);
      if !eligible {
        listing := ListDeliveries(k.event);
        return NotEligible, listing;
      }
      var rowsBefore := rows;
      rows := rows[k := delivery.row];
      failure, listing := UpdateEventProjection(k.event);
      RelistSettled(rowsBefore, rows, k, listing);
      if failure != NoFailure {
        rows := rowsBefore;
      } else {
        ReplayWrites(old(Db()), k, at, listing);
        if Real(old(Db())) {
          ReplayReal(old(Db()), k, at, listing);
        }
      }
    }

    /** Clears the oldest response bodies that nobody has locked, at most `limit` of them. */
    method RedactAttemptBodies(before: Time, limit: nat, locked: set<nat>) returns (count: nat)
      modifies this`attempts
      ensures exists picked: seq<nat> ::
                && IsPick(RedactableWeights(old(Db()), before, locked), limit, picked)
                && (forall j :: 0 <= j < |picked| ==> picked[j] < |old(attempts)|)
                && Db() == RedactAll(old(Db()), picked)
                && BodiesCleared(old(Db()), Db(), Elements(picked), before, limit, locked)
                && count == |Elements(picked)|
      ensures Real(old(Db())) ==> Real(Db())
    {
      var weights := map i: nat | i < |attempts| && Redactable(attempts[i], before) && i !in locked ::
        Weight(0, attempts[i].created, i);
      assert weights == RedactableWeights(Db(), before, locked);
      var picked := TakeLightest(weights, limit);
      for n := 0 to |picked|
        invariant forall j :: 0 <= j < n ==> picked[j] < |old(attempts)|
        invariant Db() == RedactAll(old(Db()), picked[..n])
      {
        assert picked[n] in picked;
        assert picked[..n + 1][..n] == picked[..n];
        attempts := attempts[picked[n] := attempts[picked[n]].(body := None)];
      }
      assert picked[..|picked|] == picked;
      count := |picked|;
      RedactWrites(old(Db()), before, limit, locked, picked);
      if Real(old(Db())) {
        RedactReal(old(Db()), picked, before, locked, limit);
      }
    }

    /**
     Deletes the oldest ended events that nobody has locked, at most `limit` of them, with their rows and
     attempts.
     */
    method DeleteTerminalEvents(before: Time, limit: nat, collation: string -> int, locked: set<string>)
      returns (count: nat)
      modifies this
      ensures exists picked: seq<string> ::
                && IsPick(DeletableWeights(old(Db()), before, collation, locked), limit, picked)
                && Db() == DeleteEvents(old(Db()), picked)
                && EventsDeleted(old(Db()), Db(), Elements(picked), before, limit, locked)
                && count == |Elements(picked)|
      ensures Real(old(Db())) ==> Real(Db())
    {
      var picked := PickEnded(before, limit, collation, locked);
      RemoveEvents(picked);
      count := |picked|;
      DeleteWrites(old(Db()), before, limit, collation, locked, picked);
      if Real(old(Db())) {
        DeleteReal(old(Db()), picked, before, collation, locked, limit);
      }
    }

    /** The ended events that may be deleted, the least recently updated first, up to the limit. */
    method PickEnded(before: Time, limit: nat, collation: string -> int, locked: set<string>)
      returns (picked: seq<string>)
      ensures IsPick(DeletableWeights(Db(), before, collation, locked), limit, picked)
    {
      var weights := map e | e in events && Terminal(events[e].status) && events[e].updated < before
                             && (forall k <- rows :: k.event == e ==> Terminal(rows[k].status)) && e !in locked ::
        Weight(0, events[e].updated, collation(e));
      assert weights == DeletableWeights(Db(), before, collation, locked);
      picked := TakeLightest(weights, limit);
    }

    /** Deletes these events with their rows and attempts. */
    method RemoveEvents(picked: seq<string>)
      modifies this
      ensures Db() == DeleteEvents(old(Db()), picked)
    {
      for n := 0 to |picked|
        invariant Db() == DeleteEvents(old(Db()), picked[..n])
      {
        assert picked[..n + 1][..n] == picked[..n];
        var e := picked[n];
        events := events - {e};
        rows := map k | k in rows && k.event != e :: rows[k];
        attempts := WithoutEvent(attempts, e);
      }
      assert picked[..|picked|] == picked;
    }
  }

  /** One more subscription clashes exactly when its new row shares its id with a row there by then. */
  lemma ClashesNext(rows: map<Key, Row>, ev: EventInput, subs: seq<Option<Subscription>>, sub: Option<Subscription>,
                    at: Time)
    requires !Clashes(rows, ev, subs)
    ensures var done := InsertRows(rows, ev, subs, at);
            Clashes(rows, ev, subs + [sub]) <==>
            sub.Some? && Key(ev.id, sub.value.id) !in done && exists k <- done :: Shares(k, Key(ev.id, sub.value.id))
  {
    InsertRowsMeans(rows, ev, subs, at);
    var done := InsertRows(rows, ev, subs, at);
    if sub.Some? {
      var added := Key(ev.id, sub.value.id);
      assert sub in subs + [sub];
      forall k | k in done && k !in rows
        ensures !Shares(k, added)
      {
        assert k.event == added.event;
        SameEventApart(k, added);
      }
      if added in done && added !in rows {
        assert Wanted(added, ev, subs);
        var s :| s in subs && s.Some? && s.value.id == added.sub;
        assert forall k <- rows :: !Shares(k, added);
      }
    }
  }

  lemma ClashesPrefix(rows: map<Key, Row>, ev: EventInput, subs: seq<Option<Subscription>>, n: nat)
    requires n <= |subs| && Clashes(rows, ev, subs[..n])
    ensures Clashes(rows, ev, subs)
  {
  }

  lemma SameEventApart(k: Key, k': Key)
    requires k.event == k'.event
    ensures !Shares(k, k')
  {
    assert k.sub == DeliveryId(k)[|k.event| + 1..] && k'.sub == DeliveryId(k')[|k.event| + 1..];
  }

  lemma InsertRowsNext(rows: map<Key, Row>, ev: EventInput, subs: seq<Option<Subscription>>,
                       sub: Option<Subscription>, at: Time)
    ensures var done := InsertRows(rows, ev, subs, at);
            InsertRows(rows, ev, subs + [sub], at) ==
            if sub.None? || Key(ev.id, sub.value.id) in done then done
            else done[Key(ev.id, sub.value.id) := NewRow(ev, sub.value, at)]
  {
    assert (subs + [sub])[..|subs|] == subs;
  }

  /** No events, or no limit: there is nothing to pick, and claiming nothing changes nothing. */
  lemma NothingClaimed(db: Db, ids: seq<string>, collation: string -> int, locked: set<Key>, limit: nat, owner: string,
                       lease: int)
    requires ids == [] || limit == 0
    ensures IsPick(EventWeights(db, ids, collation, locked), limit, [])
    ensures ClaimAll(db, [], owner, lease) == db && LeasesTaken(db, db, [], owner, db.now + lease)
  {
    assert ClaimAll(db, [], owner, lease).rows == db.rows;
  }

  /** A batch claim is one claim after the other. */
  lemma ClaimAllNext(db: Db, keys: seq<Key>, k: Key, owner: string, lease: int)
    requires k in db.rows && k !in keys
    ensures ClaimAll(db, keys, owner, lease).rows[k] == db.rows[k]
    ensures ClaimAll(db, keys + [k], owner, lease) == ClaimOne(ClaimAll(db, keys, owner, lease), k, owner, lease)
  {
    var before := ClaimAll(db, keys, owner, lease);
    assert ClaimAll(db, keys + [k], owner, lease).rows == ClaimOne(before, k, owner, lease).rows;
  }

  lemma {:induction false} PresentAll(rows: seq<Row>, ds: seq<Option<Row>>)
    requires |ds| == |rows| && forall i :: 0 <= i < |ds| ==> ds[i] == Some(rows[i])
    ensures Present(ds) == rows
  {
    if ds != [] {
      var n := |ds| - 1;
      PresentAll(rows[..n], ds[..n]);
      assert rows == rows[..n] + [rows[n]];
    }
  }

  /** Settling a row moves it in no listing. */
  lemma RelistSettled(rows: map<Key, Row>, rows': map<Key, Row>, k: Key, listing: seq<Key>)
    requires k in rows && rows'.Keys == rows.Keys
    requires forall j <- rows :: rows'[j].created == rows[j].created
    requires IsListing(rows', k.event, listing)
    ensures IsListing(rows, k.event, listing)
  {
  }
}
