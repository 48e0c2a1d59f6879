/**
 From consumed messages to durable work: subscription loading, initialization of every message, the
 claim of the batch's rows and their processing (internal/kafka/handler.go:236-291, 331-376).
 */
module Intake {
  import opened Collections
  import opened Domain
  import opened Projection
  import opened Execution
  import opened Store
  import opened Columns
  import opened Subscriptions
  import opened Repository
  import opened Handler
  import opened Reachability
  import opened Simulation
  import opened Processing
  import Agreement

  datatype Message = Message(id: string, eventType: string, source: string, data: string, maxAttempts: int,
                             attempt: int)

  /** The attempt limit of a message; a missing one is the policy's. */
  function LimitOf(msg: Message): int {
    if msg.maxAttempts == 0 then POLICY_MAX_ATTEMPTS else msg.maxAttempts
  }

  /** The event a message stands for. */
  function EventOf(msg: Message, at: Time): EventInput {
    EventInput(msg.id, msg.eventType, msg.source, msg.data, Some(Pending), msg.attempt,
               LimitOf(msg),
               None, None, Some(at), Some(at), None)
  }

  function Somes(subs: seq<Subscription>): (r: seq<Option<Subscription>>)
    ensures |r| == |subs| && forall i :: 0 <= i < |subs| ==> r[i] == Some(subs[i])
    ensures forall s <- subs :: Some(s) in r
  {
    var r := seq(|subs|, i requires 0 <= i < |subs| => Some(subs[i]));
    assert forall i :: 0 <= i < |subs| ==> r[i] == Some(subs[i]);
    r
  }

  /** A message is durable: its event is stored, with a row for each of the destinations loaded for it. */
  ghost predicate Durable(db: Db, id: string, subs: seq<Subscription>) {
    id in db.events && forall s <- subs :: Key(id, s.id) in db.rows
  }

  function LoadedFor(loaded: map<string, seq<Subscription>>, msg: Message): seq<Subscription> {
    if msg.eventType in loaded then loaded[msg.eventType] else []
  }

  lemma InitializeDurable(db: Db, msg: Message, subs: seq<Subscription>, at: Time)
    ensures Durable(Initialize(db, EventOf(msg, at), Somes(subs), at), msg.id, subs)
    ensures Grew(db, Initialize(db, EventOf(msg, at), Somes(subs), at))
  {
    InsertRowsMeans(db.rows, EventOf(msg, at), Somes(subs), at);
    forall s | s in subs
      ensures Key(msg.id, s.id) in Initialize(db, EventOf(msg, at), Somes(subs), at).rows
    {
      assert Some(s) in Somes(subs);
      assert Wanted(Key(msg.id, s.id), EventOf(msg, at), Somes(subs));
    }
  }

  /** A row created for a message carries the message, goes to the subscription of its key, and is fresh. */
  ghost predicate CarriesMessage(d: Row, k: Key, msg: Message, subs: seq<Subscription>, at: Time) {
    exists sub <- subs ::
      && k == Key(msg.id, sub.id) && d.key == k
      && d.target == Target(msg.eventType, msg.source, msg.data, sub.url, sub.secret,
                            if sub.maxRate > 0 then sub.maxRate else 100)
      && d.status == Pending && d.generation == 1 && d.attempts == msg.attempt
      && d.maxAttempts == (if msg.maxAttempts == 0 then 5 else msg.maxAttempts)
      && d.next == None && d.lastError == None && d.owner == None && d.deadline == None && d.deliveredAt == None
      && d.created == at && d.updated == at
  }

  /** The event created for a message; one that nobody wants is delivered at once. */
  ghost predicate EventOfMessage(e: EventRow, msg: Message, unwanted: bool, at: Time) {
    && e.eventType == msg.eventType && e.source == msg.source && e.data == msg.data
    && e.attempts == msg.attempt && e.maxAttempts == (if msg.maxAttempts == 0 then 5 else msg.maxAttempts)
    && e.status == (if unwanted then Delivered else Pending) && e.deliveredAt == (if unwanted then Some(at) else None)
    && e.next == None && e.lastError == None && e.created == at && e.updated == at
  }

  /** What initializing a message adds to the database, in terms of the message. */
  lemma {:induction false} MessageStored(db: Db, msg: Message, subs: seq<Subscription>, at: Time)
    ensures var db' := Initialize(db, EventOf(msg, at), Somes(subs), at);
            && (forall k <- db'.rows :: k !in db.rows ==> CarriesMessage(db'.rows[k], k, msg, subs, at))
            && (msg.id !in db.events ==> EventOfMessage(db'.events[msg.id], msg, subs == [], at))
  {
    var db' := Initialize(db, EventOf(msg, at), Somes(subs), at);
    InitializeWrites(db, EventOf(msg, at), Somes(subs), at);
    forall k | k in db'.rows && k !in db.rows
      ensures CarriesMessage(db'.rows[k], k, msg, subs, at)
    {
      var sub := FirstFor(Somes(subs), k.sub).value;
      FirstForListed(Somes(subs), k.sub);
      assert sub in subs;
    }
  }

  lemma {:induction false} FirstForListed(subs: seq<Option<Subscription>>, id: string)
    requires FirstFor(subs, id).Some?
    ensures FirstFor(subs, id) in subs
  {
    if FirstFor(subs[..|subs| - 1], id).Some? {
      FirstForListed(subs[..|subs| - 1], id);
    }
  }

  lemma DurableStays(db: Db, db': Db, id: string, subs: seq<Subscription>)
    requires Durable(db, id, subs) && Grew(db, db')
    ensures Durable(db', id, subs)
  {
  }

  /* Claim coverage */

  function RowsAmong(db: Db, ids: seq<string>): set<Key> {
    set k | k in db.rows && k.event in ids
  }

  function Ids(msgs: seq<Message>): seq<string> {
    seq(|msgs|, i requires 0 <= i < |msgs| => msgs[i].id)
  }

  /** Initializing one more message adds at most the rows its listing counts. */
  lemma {:induction false} ListingCovers(db: Db, db': Db, ids: seq<string>, id: string, listing: seq<Key>, total: nat)
    requires |RowsAmong(db, ids)| <= total
    requires forall k <- db'.rows :: k !in db.rows ==> k.event == id
    requires IsListing(db'.rows, id, listing)
    ensures |RowsAmong(db', ids + [id])| <= total + |listing|
  {
    var listed := Elements(listing);
    assert RowsAmong(db', ids + [id]) <= RowsAmong(db, ids) + listed;
    SubsetSize(RowsAmong(db', ids + [id]), RowsAmong(db, ids) + listed);
    ElementsSize(listing);
  }

  ghost predicate AllDurable(db: Db, msgs: seq<Message>, n: nat, loaded: map<string, seq<Subscription>>)
    requires n <= |msgs|
  {
    forall i :: 0 <= i < n ==> Durable(db, msgs[i].id, LoadedFor(loaded, msgs[i]))
  }

  lemma AllDurableStays(db: Db, db': Db, msgs: seq<Message>, n: nat, loaded: map<string, seq<Subscription>>)
    requires n <= |msgs| && AllDurable(db, msgs, n, loaded) && Grew(db, db')
    ensures AllDurable(db', msgs, n, loaded)
  {
    forall i | 0 <= i < n
      ensures Durable(db', msgs[i].id, LoadedFor(loaded, msgs[i]))
    {
      DurableStays(db, db', msgs[i].id, LoadedFor(loaded, msgs[i]));
    }
  }

  /** The database after initializing the messages in order. */
  function InitializedBy(db: Db, msgs: seq<Message>, loaded: map<string, seq<Subscription>>, at: Time): Db {
    if msgs == [] then db
    else
      var msg := msgs[|msgs| - 1];
      Initialize(InitializedBy(db, msgs[..|msgs| - 1], loaded, at), EventOf(msg, at), Somes(LoadedFor(loaded, msg)), at)
  }

  /** These messages have been initialized, and their events have at most `total` rows. */
  ghost predicate Begun(start: Db, db: Db, msgs: seq<Message>, loaded: map<string, seq<Subscription>>, at: Time,
                        total: nat) {
    && db == InitializedBy(start, msgs, loaded, at)
    && AllDurable(db, msgs, |msgs|, loaded)
    && |RowsAmong(db, Ids(msgs))| <= total
    && Grew(start, db) && (Real(start) ==> Real(db))
  }

  lemma BegunNext(start: Db, db: Db, msgs: seq<Message>, msg: Message, loaded: map<string, seq<Subscription>>, at: Time,
                  listing: seq<Key>, total: nat)
    requires Begun(start, db, msgs, loaded, at, total)
    requires IsListing(Initialize(db, EventOf(msg, at), Somes(LoadedFor(loaded, msg)), at).rows, msg.id, listing)
    ensures Begun(start, Initialize(db, EventOf(msg, at), Somes(LoadedFor(loaded, msg)), at), msgs + [msg], loaded, at,
                  total + |listing|)
  {
    var subs := LoadedFor(loaded, msg);
    var db' := Initialize(db, EventOf(msg, at), Somes(subs), at);
    assert (msgs + [msg])[..|msgs|] == msgs;
    InitializeDurable(db, msg, subs, at);
    AllDurableStays(db, db', msgs, |msgs|, loaded);
    assert AllDurable(db', msgs + [msg], |msgs| + 1, loaded);
    InitializedRows(db, msg, subs, at);
    assert Ids(msgs + [msg]) == Ids(msgs) + [msg.id];
    ListingCovers(db, db', Ids(msgs), msg.id, listing, total);
    if Real(start) {
      InitializeReal(db, EventOf(msg, at), Somes(subs), at);
    }
  }

  /** Only rows of the message's own event are new. */
  lemma InitializedRows(db: Db, msg: Message, subs: seq<Subscription>, at: Time)
    ensures forall k <- Initialize(db, EventOf(msg, at), Somes(subs), at).rows :: k !in db.rows ==> k.event == msg.id
  {
    InsertRowsMeans(db.rows, EventOf(msg, at), Somes(subs), at);
  }

  /** The event ids of stored rows and of messages. */
  ghost function IdsInUse(db: Db, msgs: seq<Message>): set<string> {
    RowEvents(db) + Elements(Ids(msgs))
  }

  ghost function RowEvents(db: Db): set<string> {
    set k | k in db.rows :: k.event
  }

  lemma {:induction false} InitializedEvents(db: Db, msgs: seq<Message>, loaded: map<string, seq<Subscription>>,
                                             at: Time)
    ensures RowEvents(InitializedBy(db, msgs, loaded, at)) <= IdsInUse(db, msgs)
  {
    if msgs != [] {
      var front, msg := msgs[..|msgs| - 1], msgs[|msgs| - 1];
      InitializedEvents(db, front, loaded, at);
      NextEvents(InitializedBy(db, front, loaded, at), msg, LoadedFor(loaded, msg), at);
      assert Ids(msgs) == Ids(front) + [msg.id];
      assert Elements(Ids(msgs)) == Elements(Ids(front)) + {msg.id};
    }
  }

  lemma NextEvents(db: Db, msg: Message, subs: seq<Subscription>, at: Time)
    ensures RowEvents(Initialize(db, EventOf(msg, at), Somes(subs), at)) <= RowEvents(db) + {msg.id}
  {
    InitializedRows(db, msg, subs, at);
  }

  /** With event ids apart no new row takes the textual id of another one. */
  lemma ApartNoClash(rows: map<Key, Row>, ev: EventInput, subs: seq<Option<Subscription>>, events: set<string>)
    requires Apart(events) && ev.id in events && forall k <- rows :: k.event in events
    ensures !Clashes(rows, ev, subs)
  {
    DeliveryIdDetermines(events);
  }

  lemma BatchNoClash(db: Db, msgs: seq<Message>, i: nat, loaded: map<string, seq<Subscription>>, at: Time)
    requires i < |msgs| && Apart(IdsInUse(db, msgs))
    ensures var mid := InitializedBy(db, msgs[..i], loaded, at);
            !Clashes(mid.rows, EventOf(msgs[i], at), Somes(LoadedFor(loaded, msgs[i])))
  {
    var mid := InitializedBy(db, msgs[..i], loaded, at);
    InitializedEvents(db, msgs[..i], loaded, at);
    assert Ids(msgs)[i] == msgs[i].id;
    assert Ids(msgs[..i]) == Ids(msgs)[..i];
    assert forall k <- mid.rows :: k.event in RowEvents(mid);
    ApartNoClash(mid.rows, EventOf(msgs[i], at), Somes(LoadedFor(loaded, msgs[i])), IdsInUse(db, msgs));
  }

  /** Initializes one message for the subscriptions loaded for it. */
  method InitializeMessage(repo: EventRepository, msg: Message, subs: seq<Subscription>, at: Time, available: bool)
    returns (failure: Failure, listing: seq<Key>)
    modifies repo
    ensures failure == NoFailure ==>
              && available && repo.Db() == Initialize(old(repo.Db()), EventOf(msg, at), Somes(subs), at)
              && IsListing(repo.rows, msg.id, listing)
    ensures failure != NoFailure ==>
              repo.Db() == old(repo.Db()) && (!available || Clashes(repo.rows, EventOf(msg, at), Somes(subs)))
  {
    failure, listing := repo.InitializeEventDeliveries(Some(EventOf(msg, at)), Somes(subs), at, available);
  }

  /** Initializes one more message after the ones initialized already. */
  method InitializeNext(repo: EventRepository, begun: seq<Message>, msg: Message,
                        loaded: map<string, seq<Subscription>>, at: Time, available: bool, total: nat, ghost start: Db)
    returns (failure: Failure, total': nat)
    requires Begun(start, repo.Db(), begun, loaded, at, total)
    modifies repo
    ensures failure == NoFailure ==> available && Begun(start, repo.Db(), begun + [msg], loaded, at, total')
    ensures failure != NoFailure ==>
              && repo.Db() == old(repo.Db()) && total' == total
              && (!available || Clashes(repo.rows, EventOf(msg, at), Somes(LoadedFor(loaded, msg))))
  {
    var listing;
    failure, listing := InitializeMessage(repo, msg, LoadedFor(loaded, msg), at, available);
    total' := total;
    if failure == NoFailure {
      BegunNext(start, old(repo.Db()), begun, msg, loaded, at, listing, total);
      total' := total + |listing|;
    }
  }

  /** Initializes the messages in order, counting the rows each listing shows; stops at the first failure. */
  method InitializeAll(repo: EventRepository, msgs: seq<Message>, loaded: map<string, seq<Subscription>>, at: Time,
                       available: nat -> bool) returns (failure: Failure, total: nat, ghost done: nat)
    modifies repo
    ensures done <= |msgs| && Begun(old(repo.Db()), repo.Db(), msgs[..done], loaded, at, total)
    ensures failure == NoFailure <==> done == |msgs|
    ensures forall i: nat :: i < done ==> available(i)
    ensures done < |msgs| ==>
              !available(done) || Clashes(repo.rows, EventOf(msgs[done], at), Somes(LoadedFor(loaded, msgs[done])))
  {
    failure, total, done := NoFailure, 0, 0;
    assert RowsAmong(repo.Db(), Ids(msgs[..0])) == {};
    for i := 0 to |msgs|
      invariant failure == NoFailure && done == i
      invariant Begun(old(repo.Db()), repo.Db(), msgs[..i], loaded, at, total)
      invariant forall j: nat :: j < i ==> available(j)
    {
      assert msgs[..i + 1] == msgs[..i] + [msgs[i]];
      failure, total := InitializeNext(repo, msgs[..i], msgs[i], loaded, at, available(i), total, old(repo.Db()));
      if failure != NoFailure {
        return;
      }
      done := i + 1;
    }
  }

  /**
   Claim coverage: a claim for the batch's events whose limit is at least the number of their rows
   takes every claimable one that no other transaction has locked.
   */
  lemma {:induction false} ClaimCovers(db: Db, ids: seq<string>, collation: string -> int, locked: set<Key>,
                                       limit: nat, keys: seq<Key>)
    requires |RowsAmong(db, ids)| <= limit
    requires IsPick(EventWeights(db, ids, collation, locked), limit, keys)
    ensures forall k <- db.rows :: k.event in ids && Claimable(db.rows[k], db.now) && k !in locked ==> k in keys
  {
    var weights := EventWeights(db, ids, collation, locked);
    assert weights.Keys <= RowsAmong(db, ids);
    SubsetSize(weights.Keys, RowsAmong(db, ids));
    if |keys| == limit {
      AllTaken(weights.Keys, keys);
    }
    assert forall k <- weights :: k in keys || k in Elements(keys);
    assert forall k <- db.rows :: k.event in ids && Claimable(db.rows[k], db.now) && k !in locked ==> k in weights;
  }

  /* The batch */

  /** Which of the outside operations succeed during one batch, by message and by outcome. */
  datatype Health = Health(load: bool, init: nat -> bool, claim: bool, persist: nat -> bool, read: nat -> bool)

  /** Everything outside works, for a batch of `n` messages. */
  ghost predicate Healthy(h: Health, n: nat) {
    h.load && h.claim && (forall i: nat :: h.persist(i)) && forall i: nat :: i < n ==> h.init(i) && h.read(i)
  }

  /** The event types of the messages, each once. */
  method TypesOf(msgs: seq<Message>) returns (types: seq<string>)
    ensures Distinct(types)
    ensures forall t :: t in types <==> exists i :: 0 <= i < |msgs| && msgs[i].eventType == t
  {
    types := [];
    for i := 0 to |msgs|
      invariant Distinct(types)
      invariant forall t :: t in types <==> exists j :: 0 <= j < i && msgs[j].eventType == t
    {
      var t := msgs[i].eventType;
      if t !in types {
        types := types + [t];
      }
    }
  }

  /** What was loaded for a message is exactly the active subscriptions that want its type. */
  ghost predicate LoadedExactly(subs: seq<Subscription>, loaded: map<string, seq<Subscription>>, msg: Message) {
    forall sub :: sub in LoadedFor(loaded, msg) <==> sub in subs && sub.active && Wants(sub, msg.eventType)
  }

  /** Loads the subscriptions for the event types of the messages. */
  method SubscriptionsForMessages(subRepo: SubscriptionRepository, msgs: seq<Message>)
    returns (loaded: map<string, seq<Subscription>>)
    ensures forall i :: 0 <= i < |msgs| ==> LoadedExactly(subRepo.subs, loaded, msgs[i])
  {
    var types := TypesOf(msgs);
    loaded := subRepo.GetByEventTypes(types);
    forall i | 0 <= i < |msgs|
      ensures LoadedExactly(subRepo.subs, loaded, msgs[i])
    {
      var t := msgs[i].eventType;
      AskedMeans(types, t);
      forall sub {
        WantingMeans(subRepo.subs, t, Asked(types, t), sub);
      }
    }
  }

  /** No claimable row of these events was left out of the claim, unless another transaction held its lock. */
  ghost predicate Covered(t: Trail, ids: seq<string>, locked: set<Key>) {
    forall k <- t.atClaim.rows ::
      k.event in ids && Claimable(t.atClaim.rows[k], t.atClaim.now) && k !in locked ==> k in t.keys
  }

  /** Claims the rows of freshly initialized events and processes them. */
  method ClaimAndProcess(repo: EventRepository, ids: seq<string>, owner: string, leaseNanos: int, total: nat,
                         collation: string -> int, locked: set<Key>, available: nat -> bool,
                         observe: Option<Row> -> Observed)
    returns (failure: Failure, ghost trail: Trail)
    requires |RowsAmong(repo.Db(), ids)| <= total
    modifies repo
    ensures trail.atClaim == old(repo.Db()) && Covered(trail, ids, locked)
    ensures Worked(trail, owner, PostgresInterval(leaseNanos), observe, repo.Db())
    ensures failure == NoFailure <==> Complete(trail)
    ensures failure != NoFailure && Real(old(repo.Db())) ==> !available(|trail.dbs| - 1)
  {
    ghost var atClaim := repo.Db();
    var keys, claimed := repo.ClaimEventDeliveries(ids, owner, leaseNanos, total, collation, locked);
    ClaimCovers(atClaim, ids, collation, locked, total, keys);
    EventClaimTakes(atClaim, ids, collation, locked, total, keys);
    var lists;
    lists, failure, trail := ProcessClaimed(repo, claimed, available, observe, atClaim, keys, owner,
                                            PostgresInterval(leaseNanos));
  }

  /**
   The handling of one batch. When it reports no failure, every message is durable with a row for each
   active subscription that wanted its type when the subscriptions were loaded; every claimable row of
   the batch's events was claimed, executed and its outcome written; and the messages are sorted by
   the state of their rows. On a database of the protocol, with event ids apart, only an outside failure
   makes a batch fail. A failure anywhere removes nothing, and whatever happens the database stays one
   of the protocol.
   */
  method ProcessBatch(repo: EventRepository, subRepo: SubscriptionRepository, msgs: seq<Message>, owner: string,
                      leaseNanos: int, collation: string -> int, locked: set<Key>, at: Time, health: Health,
                      observe: Option<Row> -> Observed)
    returns (lists: Categories, failure: Failure, ghost loaded: map<string, seq<Subscription>>, ghost trail: Trail)
    modifies repo
    ensures Grew(old(repo.Db()), repo.Db())
    ensures leaseNanos > 0 && Real(old(repo.Db())) ==> Real(repo.Db())
    ensures RowEvents(repo.Db()) <= IdsInUse(old(repo.Db()), msgs)
    ensures Real(old(repo.Db())) && Healthy(health, |msgs|) && Apart(IdsInUse(old(repo.Db()), msgs)) ==>
              failure == NoFailure
    ensures failure == NoFailure && msgs != [] ==>
              health.load && forall i: nat :: i < |msgs| ==> health.init(i) && health.read(i)
    ensures failure == NoFailure ==>
              && trail.atClaim == InitializedBy(old(repo.Db()), msgs, loaded, at)
              && AllDurable(repo.Db(), msgs, |msgs|, loaded)
              && (forall i :: 0 <= i < |msgs| ==> LoadedExactly(subRepo.subs, loaded, msgs[i]))
              && Covered(trail, Ids(msgs), locked)
              && Worked(trail, owner, PostgresInterval(leaseNanos), observe, repo.Db()) && Complete(trail)
              && CategoriesOk(repo.rows, msgs, |msgs|, lists)
    ensures failure != NoFailure ==> lists == Categories([], [], [])
    ensures !health.load && msgs != [] ==> failure != NoFailure && repo.Db() == old(repo.Db())
  {
    lists, failure, loaded, trail := Categories([], [], []), NoFailure, map[], Trail(repo.Db(), [], [repo.Db()]);
    assert ClaimAll(repo.Db(), [], owner, PostgresInterval(leaseNanos)).rows == repo.rows;
    if |msgs| == 0 {
      return;
    }
    var total;
    failure, total, loaded := Prepare(repo, subRepo, msgs, at, health);
    if failure != NoFailure {
      return;
    }
    ghost var before := repo.Db();
    failure, trail := WorkOff(repo, Ids(msgs), owner, leaseNanos, total, collation, locked, health, observe);
    AllDurableStays(before, repo.Db(), msgs, |msgs|, loaded);
    if failure != NoFailure {
      return;
    }
    lists, failure := CategorizeMessages(repo, msgs, health.read);
  }

  /** Loads the subscriptions and initializes the messages. */
  method Prepare(repo: EventRepository, subRepo: SubscriptionRepository, msgs: seq<Message>, at: Time, health: Health)
    returns (failure: Failure, total: nat, ghost loaded: map<string, seq<Subscription>>)
    modifies repo
    ensures Grew(old(repo.Db()), repo.Db()) && (Real(old(repo.Db())) ==> Real(repo.Db()))
    ensures RowEvents(repo.Db()) <= IdsInUse(old(repo.Db()), msgs)
    ensures !health.load ==> failure != NoFailure && repo.Db() == old(repo.Db())
    ensures failure != NoFailure && health.load && Apart(IdsInUse(old(repo.Db()), msgs)) ==>
              exists i: nat :: i < |msgs| && !health.init(i)
    ensures failure == NoFailure ==>
              && health.load && (forall i: nat :: i < |msgs| ==> health.init(i))
              && repo.Db() == InitializedBy(old(repo.Db()), msgs, loaded, at)
              && AllDurable(repo.Db(), msgs, |msgs|, loaded)
              && (forall i :: 0 <= i < |msgs| ==> LoadedExactly(subRepo.subs, loaded, msgs[i]))
              && |RowsAmong(repo.Db(), Ids(msgs))| <= total
  {
    total, loaded := 0, map[];
    if !health.load {
      return Unavailable, 0, map[];
    }
    var found := SubscriptionsForMessages(subRepo, msgs);
    loaded := found;
    ghost var done;
    failure, total, done := InitializeAll(repo, msgs, found, at, health.init);
    if done < |msgs| && Apart(IdsInUse(old(repo.Db()), msgs)) {
      BatchNoClash(old(repo.Db()), msgs, done, loaded, at);
    }
    InitializedEvents(old(repo.Db()), msgs[..done], loaded, at);
    assert Ids(msgs[..done]) == Ids(msgs)[..done];
    if failure == NoFailure {
      assert msgs[..done] == msgs;
    }
  }

  /** The claim of the batch's rows, if there are any, and their processing. */
  method WorkOff(repo: EventRepository, ids: seq<string>, owner: string, leaseNanos: int, total: nat,
                 collation: string -> int, locked: set<Key>, health: Health, observe: Option<Row> -> Observed)
    returns (failure: Failure, ghost trail: Trail)
    requires |RowsAmong(repo.Db(), ids)| <= total
    modifies repo
    ensures Grew(old(repo.Db()), repo.Db()) && repo.rows.Keys == old(repo.rows).Keys
    ensures leaseNanos > 0 && Real(old(repo.Db())) ==> Real(repo.Db())
    ensures Real(old(repo.Db())) && health.claim && (forall i: nat :: health.persist(i)) ==> failure == NoFailure
    ensures failure == NoFailure ==>
              && trail.atClaim == old(repo.Db()) && Covered(trail, ids, locked)
              && Worked(trail, owner, PostgresInterval(leaseNanos), observe, repo.Db()) && Complete(trail)
  {
    failure, trail := NoFailure, Trail(repo.Db(), [], [repo.Db()]);
    if total == 0 {
      NothingToClaim(repo.Db(), ids, owner, PostgresInterval(leaseNanos));
      return;
    }
    if !health.claim {
      failure := Unavailable;
      return;
    }
    failure, trail := ClaimAndProcess(repo, ids, owner, leaseNanos, total, collation, locked, health.persist, observe);
    TrailReal(trail, owner, PostgresInterval(leaseNanos), observe, repo.Db());
  }

  lemma NothingToClaim(db: Db, ids: seq<string>, owner: string, lease: int)
    requires |RowsAmong(db, ids)| == 0
    ensures ClaimAll(db, [], owner, lease) == db
    ensures forall k <- db.rows :: k.event !in ids
  {
    assert ClaimAll(db, [], owner, lease).rows == db.rows;
    forall k | k in db.rows
      ensures k.event !in ids
    {
      assert k !in RowsAmong(db, ids);
    }
  }

  /**
   An uninterrupted batch leaves no claimable row of its events behind: each has left the claimable
   states of the moment of the claim, holds no lease, and shows the outcome of one execution of it.
   */
  lemma {:induction false} BatchLeavesNothing(t: Trail, ids: seq<string>, owner: string, lease: int,
                                              observe: Option<Row> -> Observed, locked: set<Key>, db: Db, k: Key)
    requires Worked(t, owner, lease, observe, db) && Complete(t) && Covered(t, ids, locked) && k !in locked
    requires forall j <- t.atClaim.rows :: t.atClaim.rows[j].key == j
    requires k in t.atClaim.rows && k.event in ids && Claimable(t.atClaim.rows[k], t.atClaim.now)
    ensures k in db.rows
    ensures var leased := Leased(t.atClaim.rows[k], owner, lease, t.atClaim.now);
            db.rows[k] == Settled(leased, Executed(leased, observe(Some(leased))))
    ensures db.rows[k].status in {Delivered, Retrying, Throttled, Failed} && db.rows[k].owner.None?
  {
    var copies := CopiesOf(t.dbs[0], t.keys);
    var observed := Observations(copies, observe);
    var i :| 0 <= i < |t.keys| && t.keys[i] == k;
    assert forall j :: 0 <= j < |t.keys| ==> t.keys[j] in t.keys && copies[j].Some? && copies[j].value.key == t.keys[j];
    BatchSettles(t.dbs, copies, observed, |t.keys|, |t.keys|, i);
    ExecutedSettles(copies[i].value, observed[i]);
  }

  /* The three lists the consumer reports */

  datatype Categories = Categories(successes: seq<Message>, retries: seq<Message>, failures: seq<Message>)

  datatype Category = Succeeded | InProgress | GaveUp

  /** Done when every row of the event is delivered, given up when all have ended otherwise, in progress before that. */
  ghost function CategoryOf(rows: map<Key, Row>, event: string): Category {
    if forall k <- rows :: k.event == event ==> rows[k].status == Delivered then Succeeded
    else if forall k <- rows :: k.event == event ==> Terminal(rows[k].status) then GaveUp
    else InProgress
  }

  /** The messages by id, a later one of the same id replacing an earlier one. */
  function ById(msgs: seq<Message>): map<string, Message> {
    if msgs == [] then map[]
    else
      var msg := msgs[|msgs| - 1];
      ById(msgs[..|msgs| - 1])[msg.id := msg.(maxAttempts := LimitOf(msg))]
  }

  lemma {:induction false} ByIdMeans(msgs: seq<Message>, id: string)
    ensures id in ById(msgs) <==> id in Ids(msgs)
    ensures id in ById(msgs) ==> IsLastNamed(msgs, id, ById(msgs)[id])
  {
    if msgs != [] {
      var front, msg := msgs[..|msgs| - 1], msgs[|msgs| - 1];
      ByIdMeans(front, id);
      assert Ids(msgs) == Ids(front) + [msg.id];
      if msg.id == id {
        assert SameMessage(msgs[|msgs| - 1], ById(msgs)[id]);
      } else if id in ById(front) {
        LastNamedStays(front, msg, id, ById(front)[id]);
        assert front + [msg] == msgs;
      }
    }
  }

  lemma LastNamedStays(front: seq<Message>, msg: Message, id: string, named: Message)
    requires IsLastNamed(front, id, named) && msg.id != id
    ensures IsLastNamed(front + [msg], id, named)
  {
    var i :| 0 <= i < |front| && front[i].id == id && (forall j :: i < j < |front| ==> front[j].id != id)
             && SameMessage(front[i], named);
    var msgs := front + [msg];
    assert msgs[i] == front[i] && forall j :: i < j < |front| ==> msgs[j] == front[j];
  }

  /** The message itself, a missing limit being five. */
  predicate SameMessage(msg: Message, msg': Message) {
    && msg'.id == msg.id && msg'.eventType == msg.eventType && msg'.source == msg.source && msg'.data == msg.data
    && msg'.attempt == msg.attempt && msg'.maxAttempts == (if msg.maxAttempts == 0 then 5 else msg.maxAttempts)
  }

  /** The last message of the batch with this id. */
  ghost predicate IsLastNamed(msgs: seq<Message>, id: string, msg: Message) {
    exists i :: 0 <= i < |msgs| && msgs[i].id == id && (forall j :: i < j < |msgs| ==> msgs[j].id != id)
                && SameMessage(msgs[i], msg)
  }

  /** The messages of one category, in the order of the batch, repeated ids standing for the last of them. */
  ghost function OfCategory(rows: map<Key, Row>, msgs: seq<Message>, byId: map<string, Message>,
                            c: Category): seq<Message> {
    if msgs == [] then []
    else
      var msg := msgs[|msgs| - 1];
      OfCategory(rows, msgs[..|msgs| - 1], byId, c) +
      (if CategoryOf(rows, msg.id) == c && msg.id in byId then [byId[msg.id]] else [])
  }

  ghost predicate CategoriesOk(rows: map<Key, Row>, msgs: seq<Message>, n: nat, lists: Categories)
    requires n <= |msgs|
  {
    && lists.successes == OfCategory(rows, msgs[..n], ById(msgs), Succeeded)
    && lists.retries == OfCategory(rows, msgs[..n], ById(msgs), InProgress)
    && lists.failures == OfCategory(rows, msgs[..n], ById(msgs), GaveUp)
  }

  /** The messages as the lists name them. */
  function Named(msgs: seq<Message>, byId: map<string, Message>): seq<Message> {
    if msgs == [] then []
    else
      var msg := msgs[|msgs| - 1];
      Named(msgs[..|msgs| - 1], byId) + (if msg.id in byId then [byId[msg.id]] else [])
  }

  lemma {:induction false} CategorySplit(rows: map<Key, Row>, msgs: seq<Message>, byId: map<string, Message>)
    ensures multiset(OfCategory(rows, msgs, byId, Succeeded)) + multiset(OfCategory(rows, msgs, byId, InProgress))
            + multiset(OfCategory(rows, msgs, byId, GaveUp)) == multiset(Named(msgs, byId))
  {
    if msgs != [] {
      CategorySplit(rows, msgs[..|msgs| - 1], byId);
    }
  }

  lemma {:induction false} NamedAll(msgs: seq<Message>, all: seq<Message>)
    requires forall i :: 0 <= i < |msgs| ==> msgs[i].id in Ids(all)
    ensures |Named(msgs, ById(all))| == |msgs|
    ensures forall i :: 0 <= i < |msgs| ==> IsLastNamed(all, msgs[i].id, Named(msgs, ById(all))[i])
  {
    if msgs != [] {
      NamedAll(msgs[..|msgs| - 1], all);
      ByIdMeans(all, msgs[|msgs| - 1].id);
    }
  }

  /**
   Every message of a batch is in exactly one of the lists: together they hold, for each message of the
   batch, the last one with its id, once.
   */
  lemma CategoriesPartition(rows: map<Key, Row>, msgs: seq<Message>, lists: Categories)
    requires CategoriesOk(rows, msgs, |msgs|, lists)
    ensures multiset(lists.successes) + multiset(lists.retries) + multiset(lists.failures)
            == multiset(Named(msgs, ById(msgs)))
    ensures |Named(msgs, ById(msgs))| == |msgs|
    ensures forall i :: 0 <= i < |msgs| ==> IsLastNamed(msgs, msgs[i].id, Named(msgs, ById(msgs))[i])
  {
    assert msgs[..|msgs|] == msgs;
    CategorySplit(rows, msgs, ById(msgs));
    assert forall i :: 0 <= i < |msgs| ==> Ids(msgs)[i] == msgs[i].id;
    NamedAll(msgs, msgs);
  }

  /** The projection of an event's rows decides its category. */
  lemma ProjectionDecides(rows: map<Key, Row>, event: string, listing: seq<Key>, now: Time)
    requires IsListing(rows, event, listing)
    ensures var status := Project(Listed(rows, listing), now).status;
            CategoryOf(rows, event) ==
            if status == Delivered then Succeeded else if status == Failed then GaveUp else InProgress
  {
    Agreement.ListedMembers(rows, event, listing);
    TopStatusEnds(Listed(rows, listing));
  }

  /** Reads the rows of one message's event and appends the message to the list its projection names. */
  method CategorizeNext(repo: EventRepository, msgs: seq<Message>, byId: map<string, Message>, before: Categories,
                        i: nat)
    returns (lists: Categories)
    requires i < |msgs| && byId == ById(msgs) && CategoriesOk(repo.rows, msgs, i, before)
    ensures CategoriesOk(repo.rows, msgs, i + 1, lists)
  {
    lists := before;
    var listing := repo.ListDeliveries(msgs[i].id);
    var table := repo.rows;
    var ds := seq(|listing|, j requires 0 <= j < |listing| => Some(table[listing[j]]));
    var p := ProjectEventFromDeliveries(ds, repo.now);
    PresentAll(Listed(repo.rows, listing), ds);
    ProjectionDecides(repo.rows, msgs[i].id, listing, repo.now);
    assert msgs[..i + 1][..i] == msgs[..i];
    ByIdMeans(msgs, msgs[i].id);
    assert Ids(msgs)[i] == msgs[i].id;
    var event := byId[msgs[i].id];
    match p.status {
      case Delivered => lists := lists.(successes := lists.successes + [event]);
      case Failed => lists := lists.(failures := lists.failures + [event]);
      case _ => lists := lists.(retries := lists.retries + [event]);
    }
  }

  method CategorizeMessages(repo: EventRepository, msgs: seq<Message>, available: nat -> bool)
    returns (lists: Categories, failure: Failure)
    ensures failure == NoFailure <==> forall i: nat :: i < |msgs| ==> available(i)
    ensures if failure == NoFailure then CategoriesOk(repo.rows, msgs, |msgs|, lists)
            else lists == Categories([], [], [])
  {
    lists, failure := Categories([], [], []), NoFailure;
    var byId := ById(msgs);
    for i := 0 to |msgs|
      invariant CategoriesOk(repo.rows, msgs, i, lists)
      invariant forall j: nat :: j < i ==> available(j)
    {
      if !available(i) {
        return Categories([], [], []), Unavailable;
      }
      lists := CategorizeNext(repo, msgs, byId, lists, i);
    }
  }
}
