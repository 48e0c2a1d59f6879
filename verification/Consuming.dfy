/**
 One consumer as an object: collecting messages, processing them and handing them to the broker
 (internal/kafka/consumer.go:135-276). What the broker and the database do is given per round.
 */
module Consuming {
  import opened Collections
  import opened Domain
  import opened Execution
  import opened Store
  import opened Subscriptions
  import opened Repository
  import opened Reachability
  import opened Processing
  import opened Intake
  import opened Consumer

  /** How one fetch ends: nothing in time or an error, or a message. */
  datatype Poll = NoMessage | Got(message: Fetched)

  /** The messages of a sequence of fetches whose body parses, or does not, in order. */
  function Parsed(polls: seq<Poll>, good: bool): seq<Fetched> {
    if polls == [] then []
    else
      var p := polls[|polls| - 1];
      Parsed(polls[..|polls| - 1], good) +
      (if p.Got? && p.message.content.Some? == good then [p.message] else [])
  }

  function Fetches(polls: seq<Poll>): seq<Fetched> {
    if polls == [] then []
    else Fetches(polls[..|polls| - 1]) + (if polls[|polls| - 1].Got? then [polls[|polls| - 1].message] else [])
  }

  /** No message is lost or doubled by the collection. */
  lemma {:induction false} ParsedPartition(polls: seq<Poll>)
    ensures multiset(Parsed(polls, true) + Parsed(polls, false)) == multiset(Fetches(polls))
    ensures forall f <- Parsed(polls, true) :: f.content.Some?
    ensures forall f <- Parsed(polls, false) :: f.content.None?
  {
    if polls != [] {
      ParsedPartition(polls[..|polls| - 1]);
    }
  }

  /** The contents of parsed messages. */
  ghost predicate Contents(batch: seq<Fetched>, events: seq<Message>) {
    |events| == |batch| && forall i :: 0 <= i < |batch| ==> batch[i].content == Some(events[i])
  }

  /** The event of a message is stored, with a row for every active subscription that wants it. */
  ghost predicate Stored(db: Db, subs: seq<Subscription>, f: Fetched) {
    f.content.Some? ==>
      && f.content.value.id in db.events
      && forall sub <- subs :: sub.active && Wants(sub, f.content.value.eventType) ==>
           Key(f.content.value.id, sub.id) in db.rows
  }

  ghost predicate AllStored(db: Db, subs: seq<Subscription>, fs: seq<Fetched>) {
    forall f <- fs :: Stored(db, subs, f)
  }

  lemma AllStoredStays(db: Db, db': Db, subs: seq<Subscription>, fs: seq<Fetched>)
    requires AllStored(db, subs, fs) && Grew(db, db')
    ensures AllStored(db', subs, fs)
  {
    forall f | f in fs
      ensures Stored(db', subs, f)
    {
      assert Stored(db, subs, f);
    }
  }

  lemma AllStoredBoth(db: Db, subs: seq<Subscription>, a: seq<Fetched>, b: seq<Fetched>)
    requires AllStored(db, subs, a) && AllStored(db, subs, b)
    ensures AllStored(db, subs, a + b)
  {
  }

  /** A message that does not parse asks for nothing. */
  lemma MalformedStored(db: Db, subs: seq<Subscription>, polls: seq<Poll>)
    ensures AllStored(db, subs, Parsed(polls, false))
  {
    ParsedPartition(polls);
  }

  /** What a batch without failure leaves is what a commit needs. */
  lemma {:induction false} DurableStored(db: Db, subs: seq<Subscription>, loaded: map<string, seq<Subscription>>,
                                         batch: seq<Fetched>, events: seq<Message>)
    requires Contents(batch, events) && AllDurable(db, events, |events|, loaded)
    requires forall i :: 0 <= i < |events| ==> LoadedExactly(subs, loaded, events[i])
    ensures AllStored(db, subs, batch)
  {
    forall f | f in batch
      ensures Stored(db, subs, f)
    {
      var i :| 0 <= i < |batch| && batch[i] == f;
      assert Durable(db, events[i].id, LoadedFor(loaded, events[i]));
      assert LoadedExactly(subs, loaded, events[i]);
    }
  }

  /** What one pass of the loop meets: its fetches, the clock, and how the outside behaves. */
  datatype Round = Round(polls: seq<Poll>, at: Time, health: Health, observe: Option<Row> -> Observed, locked: set<Key>)

  /** Nothing outside fails in this round. */
  ghost predicate Sound(round: Round) {
    Healthy(round.health, |Parsed(round.polls, true)|)
  }

  /** The event ids of fetched messages. */
  ghost function MessageIds(fs: seq<Fetched>): set<string> {
    set f | f in fs && f.content.Some? :: f.content.value.id
  }

  ghost function RoundIds(rounds: seq<Round>): set<string> {
    if rounds == [] then {}
    else RoundIds(rounds[..|rounds| - 1]) + MessageIds(Parsed(rounds[|rounds| - 1].polls, true))
  }

  function CommittedIn(round: Round, failure: Failure): seq<Fetched> {
    Parsed(round.polls, false) + if failure == NoFailure then Parsed(round.polls, true) else []
  }

  function CommittedBy(rounds: seq<Round>, failures: seq<Failure>): seq<Fetched>
    requires |failures| == |rounds|
  {
    if rounds == [] then []
    else
      var n := |rounds| - 1;
      CommittedBy(rounds[..n], failures[..n]) + CommittedIn(rounds[n], failures[n])
  }

  lemma ContentsIds(batch: seq<Fetched>, events: seq<Message>)
    requires Contents(batch, events)
    ensures Elements(Ids(events)) == MessageIds(batch)
  {
    forall id
      ensures id in Elements(Ids(events)) <==> id in MessageIds(batch)
    {
      if id in Elements(Ids(events)) {
        var i :| 0 <= i < |events| && Ids(events)[i] == id;
        assert batch[i] in batch && batch[i].content.value.id == id;
      }
      if id in MessageIds(batch) {
        var f :| f in batch && f.content.Some? && f.content.value.id == id;
        var i :| 0 <= i < |batch| && batch[i] == f;
        assert Ids(events)[i] == id;
      }
    }
  }

  /** What one round did: `db` and `committed` before, `db'` and `committed'` after it. */
  ghost predicate Passed(round: Round, failure: Failure, subs: seq<Subscription>, leaseNanos: int,
                         db: Db, committed: seq<Fetched>, db': Db, committed': seq<Fetched>) {
    && committed' == committed + CommittedIn(round, failure)
    && Grew(db, db')
    && (leaseNanos > 0 && Real(db) ==> Real(db'))
    && AllStored(db', subs, CommittedIn(round, failure))
    && (var ids := MessageIds(Parsed(round.polls, true));
        && RowEvents(db') <= RowEvents(db) + ids
        && (Sound(round) && Real(db) && Apart(RowEvents(db) + ids) ==> failure == NoFailure))
  }

  /** What any number of rounds did. */
  ghost predicate Ran(rounds: seq<Round>, failures: seq<Failure>, subs: seq<Subscription>, leaseNanos: int,
                      db: Db, committed: seq<Fetched>, db': Db, committed': seq<Fetched>) {
    && |failures| == |rounds|
    && committed' == committed + CommittedBy(rounds, failures)
    && Grew(db, db')
    && (leaseNanos > 0 && Real(db) ==> Real(db'))
    && AllStored(db', subs, CommittedBy(rounds, failures))
    && RowEvents(db') <= RowEvents(db) + RoundIds(rounds)
    && (leaseNanos > 0 && Real(db) && Apart(RowEvents(db) + RoundIds(rounds)) ==>
          forall i :: 0 <= i < |rounds| && Sound(rounds[i]) ==> failures[i] == NoFailure)
  }

  lemma ApartSubset(a: set<string>, b: set<string>)
    requires a <= b && Apart(b)
    ensures Apart(a)
  {
  }

  lemma {:induction false} RanNext(rounds: seq<Round>, failures: seq<Failure>, subs: seq<Subscription>, leaseNanos: int,
                                   db: Db, committed: seq<Fetched>, mid: Db, committed': seq<Fetched>,
                                   round: Round, failure: Failure, end: Db, committed'': seq<Fetched>)
    requires Ran(rounds, failures, subs, leaseNanos, db, committed, mid, committed')
    requires Passed(round, failure, subs, leaseNanos, mid, committed', end, committed'')
    ensures Ran(rounds + [round], failures + [failure], subs, leaseNanos, db, committed, end, committed'')
  {
    var rounds', failures' := rounds + [round], failures + [failure];
    assert rounds'[..|rounds|] == rounds && failures'[..|rounds|] == failures;
    var before, more := CommittedBy(rounds, failures), CommittedIn(round, failure);
    assert CommittedBy(rounds', failures') == before + more;
    assert committed + before + more == committed + (before + more);
    AllStoredStays(mid, end, subs, before);
    AllStoredBoth(end, subs, before, more);
    var ids := MessageIds(Parsed(round.polls, true));
    assert RoundIds(rounds') == RoundIds(rounds) + ids;
    if Apart(RowEvents(db) + RoundIds(rounds')) {
      ApartSubset(RowEvents(db) + RoundIds(rounds), RowEvents(db) + RoundIds(rounds'));
      ApartSubset(RowEvents(mid) + ids, RowEvents(db) + RoundIds(rounds'));
    }
  }

  class KafkaConsumer {
    const repo: EventRepository
    const subRepo: SubscriptionRepository
    const instance: string
    const leaseNanos: int
    const collation: string -> int
    var committed: seq<Fetched>

    constructor (repo: EventRepository, subRepo: SubscriptionRepository, instance: string, leaseNanos: int,
                 collation: string -> int)
      ensures this.repo == repo && this.subRepo == subRepo && committed == []
    {
      this.repo, this.subRepo, this.instance, this.leaseNanos, this.collation, committed :=
        repo, subRepo, instance, leaseNanos, collation, [];
    }

    method CommitMessages(messages: seq<Fetched>)
      modifies this
      ensures committed == old(committed) + messages
    {
      if |messages| == 0 {
        return;
      }
      committed := committed + messages;
    }

    /** Fetches until the deadline; a message that does not parse is committed on the spot and dropped. */
    method CollectBatch(polls: seq<Poll>) returns (batch: seq<Fetched>, events: seq<Message>)
      modifies this
      ensures batch == Parsed(polls, true) && Contents(batch, events)
      ensures committed == old(committed) + Parsed(polls, false)
    {
      batch, events := [], [];
      for i := 0 to |polls|
        invariant batch == Parsed(polls[..i], true) && Contents(batch, events)
        invariant committed == old(committed) + Parsed(polls[..i], false)
      {
        assert polls[..i + 1][..i] == polls[..i];
        if polls[i].NoMessage? {
          continue;
        }
        var msg := polls[i].message;
        if msg.content.None? {
          CommitMessages([msg]);
          continue;
        }
        batch, events := batch + [msg], events + [msg.content.value];
      }
      assert polls[..|polls|] == polls;
    }

    /** Processes a batch and hands it to the broker only if processing reported no failure. */
    method ProcessBatchAndCommit(batch: seq<Fetched>, events: seq<Message>, round: Round) returns (failure: Failure)
      requires Contents(batch, events)
      modifies this, repo
      ensures Grew(old(repo.Db()), repo.Db())
      ensures leaseNanos > 0 && Real(old(repo.Db())) ==> Real(repo.Db())
      ensures RowEvents(repo.Db()) <= RowEvents(old(repo.Db())) + MessageIds(batch)
      ensures committed == old(committed) + if failure == NoFailure then batch else []
      ensures Real(old(repo.Db())) && Healthy(round.health, |batch|) ==>
                (Apart(RowEvents(old(repo.Db())) + MessageIds(batch)) ==> failure == NoFailure)
      ensures failure == NoFailure ==> AllStored(repo.Db(), subRepo.subs, batch)
    {
      failure := NoFailure;
      if |events| == 0 {
        return;
      }
      ContentsIds(batch, events);
      var lists;
      ghost var loaded, trail;
      lists, failure, loaded, trail := ProcessBatch(repo, subRepo, events, instance, leaseNanos, collation,
                                                    round.locked, round.at, round.health, round.observe);
      if failure != NoFailure {
        return;
      }
      DurableStored(repo.Db(), subRepo.subs, loaded, batch, events);
      CommitMessages(batch);
    }

    method RunOnce(round: Round) returns (failure: Failure)
      modifies this, repo
      ensures Passed(round, failure, subRepo.subs, leaseNanos, old(repo.Db()), old(committed), repo.Db(), committed)
    {
      failure := NoFailure;
      ghost var kept, bad := committed, Parsed(round.polls, false);
      var batch, events := CollectBatch(round.polls);
      if |batch| > 0 {
        failure := ProcessBatchAndCommit(batch, events, round);
      }
      MalformedStored(repo.Db(), subRepo.subs, round.polls);
      if failure == NoFailure {
        AllStoredBoth(repo.Db(), subRepo.subs, bad, batch);
        assert kept + bad + batch == kept + (bad + batch);
      } else {
        assert bad + [] == bad;
      }
    }

    /**
     Rounds of the loop, a failed batch being left behind uncommitted. Committed are exactly the
     malformed messages and the batches without failure, in order; with event ids apart a batch fails
     only when something outside does; and whatever is committed is stored.
     */
    method ConsumeLoop(rounds: seq<Round>) returns (failures: seq<Failure>)
      modifies this, repo
      ensures Ran(rounds, failures, subRepo.subs, leaseNanos, old(repo.Db()), old(committed), repo.Db(), committed)
    {
      failures := [];
      for i := 0 to |rounds|
        invariant Ran(rounds[..i], failures, subRepo.subs, leaseNanos, old(repo.Db()), old(committed),
                      repo.Db(), committed)
      {
        ghost var mid, done := repo.Db(), committed;
        var failure := RunOnce(rounds[i]);
        RanNext(rounds[..i], failures, subRepo.subs, leaseNanos, old(repo.Db()), old(committed), mid, done,
                rounds[i], failure, repo.Db(), committed);
        assert rounds[..i + 1] == rounds[..i] + [rounds[i]];
        failures := failures + [failure];
      }
      assert rounds[..|rounds|] == rounds;
    }
  }
}
