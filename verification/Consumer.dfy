/**
 The Kafka consumers on top of the lease protocol: any number of them fetch, process and commit,
 interleaved with every protocol step, with crashes and failed batches at any point
 (internal/kafka/consumer.go:135-276). "Committed" is the set of messages handed to the broker.
 */
module Consumer {
  import opened Domain
  import opened Store
  import opened Subscriptions
  import opened Lease
  import opened Fencing
  import opened Intake

  /** A broker message; one whose body does not parse has no content. */
  datatype Fetched = Fetched(partition: int, offset: int, content: Option<Message>)

  /**
   What a message is initialized from: what the subscription query saw, the fan-out map built from it, and
   the events purged by the time of the initialization.
   */
  datatype Loaded = Loaded(subs: seq<Subscription>, byType: map<string, seq<Subscription>>, purged: multiset<string>)

  /**
   Where a consumer is: collecting, initializing its batch message by message, working on the rows, or about
   to commit.
   */
  datatype Session =
    | Collecting(batch: seq<Fetched>)
    | Initializing(batch: seq<Fetched>, loaded: Loaded, begun: seq<Loaded>)
    | Working(batch: seq<Fetched>, begun: seq<Loaded>)
    | Ready(batch: seq<Fetched>, begun: seq<Loaded>)

  datatype Receipt = Receipt(message: Fetched, loaded: Option<Loaded>)

  datatype World = World(state: State, subs: seq<Subscription>, sessions: map<nat, Session>, committed: seq<Receipt>)

  datatype Action =
    | Join(worker: nat)
    | Fetch(worker: nat, message: Fetched)
    | Load(worker: nat, byType: map<string, seq<Subscription>>)
    | InitNext(worker: nat, at: Time)
    | StartWork(worker: nat)
    | FinishWork(worker: nat)
    | CommitBatch(worker: nat)
    | FailBatch(worker: nat)
    | Die(worker: nat)
    | Protocol(step: Step)
    | ChangeSubscriptions(subs: seq<Subscription>)

  ghost predicate Possible(w: World, a: Action) {
    match a
    case Join(i) => i !in w.sessions
    case Fetch(i, _) => i in w.sessions && w.sessions[i].Collecting?
    case Load(i, byType) =>
      && i in w.sessions && w.sessions[i].Collecting? && w.sessions[i].batch != []
      && forall m <- w.sessions[i].batch :: m.content.Some? ==> LoadedExactly(w.subs, byType, m.content.value)
    case InitNext(i, _) =>
      i in w.sessions && w.sessions[i].Initializing? && |w.sessions[i].begun| < |w.sessions[i].batch|
    case StartWork(i) =>
      i in w.sessions && w.sessions[i].Initializing? && |w.sessions[i].begun| == |w.sessions[i].batch|
    case FinishWork(i) => i in w.sessions && w.sessions[i].Working?
    case CommitBatch(i) => i in w.sessions && w.sessions[i].Ready?
    case FailBatch(i) => i in w.sessions && !w.sessions[i].Collecting?
    case Die(i) => i in w.sessions
    // Only the consumers' handler initializes events (internal/kafka/handler.go:265).
    case Protocol(step) => Enabled(w.state, step) && !step.Init?
    case ChangeSubscriptions(_) => true
  }

  /** The protocol step that initializes message `n` of a session's batch. */
  function InitStep(session: Session, n: nat, at: Time): Step
    requires session.Initializing? && n < |session.batch| && session.batch[n].content.Some?
  {
    var msg := session.batch[n].content.value;
    Init(EventOf(msg, at), Somes(LoadedFor(session.loaded.byType, msg)), at)
  }

  function Commits(batch: seq<Fetched>, begun: seq<Loaded>): seq<Receipt> {
    seq(|batch|, i requires 0 <= i < |batch| => Receipt(batch[i], if i < |begun| then Some(begun[i]) else None))
  }

  /** What the next message of a session is initialized from. */
  function LoadedNow(w: World, session: Session): Loaded
    requires session.Initializing?
  {
    session.loaded.(purged := w.state.purged)
  }

  ghost function Act(w: World, a: Action): World
    requires Possible(w, a)
  {
    match a
    case Join(i) => w.(sessions := w.sessions[i := Collecting([])])
    case Fetch(i, m) =>
      // A malformed message is committed at once, in the middle of the collection.
      if m.content.None? then w.(committed := w.committed + [Receipt(m, None)])
      else w.(sessions := w.sessions[i := Collecting(w.sessions[i].batch + [m])])
    case Load(i, byType) =>
      w.(sessions := w.sessions[i := Initializing(w.sessions[i].batch, Loaded(w.subs, byType, w.state.purged), [])])
    case InitNext(i, at) =>
      var session := w.sessions[i];
      var w' := w.(sessions := w.sessions[i := session.(begun := session.begun + [LoadedNow(w, session)])]);
      if session.batch[|session.begun|].content.None? then w'
      else w'.(state := Next(w.state, InitStep(session, |session.begun|, at)))
    case StartWork(i) => w.(sessions := w.sessions[i := Working(w.sessions[i].batch, w.sessions[i].begun)])
    case FinishWork(i) => w.(sessions := w.sessions[i := Ready(w.sessions[i].batch, w.sessions[i].begun)])
    case CommitBatch(i) =>
      w.(sessions := w.sessions[i := Collecting([])],
         committed := w.committed + Commits(w.sessions[i].batch, w.sessions[i].begun))
    case FailBatch(i) => w.(sessions := w.sessions[i := Collecting([])])
    case Die(i) => w.(sessions := w.sessions - {i})
    case Protocol(step) => w.(state := Next(w.state, step))
    case ChangeSubscriptions(subs) => w.(subs := subs)
  }

  ghost predicate Fresh(w: World) {
    Initial(w.state) && w.sessions == map[] && w.committed == []
  }

  ghost predicate IsHistory(ws: seq<World>, actions: seq<Action>) {
    && |ws| == |actions| + 1
    && Fresh(ws[0])
    && forall i :: 0 <= i < |actions| ==> Possible(ws[i], actions[i]) && ws[i + 1] == Act(ws[i], actions[i])
  }

  /* The invariant */

  /** Retention has removed the event of this message since the message was initialized. */
  predicate RemovedSince(s: State, msg: Message, loaded: Loaded) {
    s.purged[msg.id] > loaded.purged[msg.id]
  }

  /** The work of a message is in the database, or its finished event has since been removed by retention. */
  ghost predicate Kept(s: State, msg: Message, loaded: Loaded) {
    loaded.purged[msg.id] <= s.purged[msg.id] &&
    (RemovedSince(s, msg, loaded) || Durable(s.db, msg.id, LoadedFor(loaded.byType, msg)))
  }

  ghost predicate KeptAll(s: State, batch: seq<Fetched>, begun: seq<Loaded>) {
    |begun| <= |batch| &&
    forall i :: 0 <= i < |begun| && batch[i].content.Some? ==>
      && Kept(s, batch[i].content.value, begun[i])
      && LoadedExactly(begun[i].subs, begun[i].byType, batch[i].content.value)
  }

  ghost predicate LoadedAll(batch: seq<Fetched>, loaded: Loaded) {
    forall m <- batch :: m.content.Some? ==> LoadedExactly(loaded.subs, loaded.byType, m.content.value)
  }

  ghost predicate SessionOk(s: State, session: Session) {
    match session
    case Collecting(_) => true
    case Initializing(batch, loaded, begun) => LoadedAll(batch, loaded) && KeptAll(s, batch, begun)
    case Working(batch, begun) => |begun| == |batch| && KeptAll(s, batch, begun)
    case Ready(batch, begun) => |begun| == |batch| && KeptAll(s, batch, begun)
  }

  ghost predicate CommitOk(s: State, c: Receipt) {
    c.message.content.Some? ==>
      && c.loaded.Some?
      && Kept(s, c.message.content.value, c.loaded.value)
      && LoadedExactly(c.loaded.value.subs, c.loaded.value.byType, c.message.content.value)
  }

  ghost predicate WorldOk(w: World) {
    && Safe(w.state)
    && (forall i <- w.sessions :: SessionOk(w.state, w.sessions[i]))
    && (forall c <- w.committed :: CommitOk(w.state, c))
  }

  /** What is durable stays durable through every protocol step, until retention removes the event. */
  lemma {:induction false} StepKeeps(s: State, step: Step, msg: Message, loaded: Loaded)
    requires Safe(s) && Enabled(s, step) && Kept(s, msg, loaded)
    ensures Kept(Next(s, step), msg, loaded)
  {
    var s' := Next(s, step);
    assert s.purged[msg.id] <= s'.purged[msg.id];
    if !RemovedSince(s', msg, loaded) {
      assert msg.id in s'.db.events;
      forall sub | sub in LoadedFor(loaded.byType, msg)
        ensures Key(msg.id, sub.id) in s'.db.rows
      {
        StepKeepsWork(s, step, Key(msg.id, sub.id));
      }
    }
  }

  lemma SessionKeeps(s: State, step: Step, session: Session)
    requires Safe(s) && Enabled(s, step) && SessionOk(s, session)
    ensures SessionOk(Next(s, step), session)
  {
    forall msg, loaded | Kept(s, msg, loaded)
      ensures Kept(Next(s, step), msg, loaded)
    {
      StepKeeps(s, step, msg, loaded);
    }
  }

  /** A protocol step keeps every session and every commit in order. */
  lemma {:induction false} StepKeepsWorld(w: World, step: Step)
    requires WorldOk(w) && Enabled(w.state, step)
    ensures WorldOk(w.(state := Next(w.state, step)))
  {
    StepSafe(w.state, step);
    forall i | i in w.sessions
      ensures SessionOk(Next(w.state, step), w.sessions[i])
    {
      SessionKeeps(w.state, step, w.sessions[i]);
    }
    forall c | c in w.committed
      ensures CommitOk(Next(w.state, step), c)
    {
      assert CommitOk(w.state, c);
      if c.message.content.Some? {
        StepKeeps(w.state, step, c.message.content.value, c.loaded.value);
      }
    }
  }

  /** Initializing a message makes it durable, with all the destinations loaded for it. */
  lemma {:induction false} SessionInitOk(w: World, i: nat, at: Time)
    requires WorldOk(w) && Possible(w, InitNext(i, at))
    ensures SessionOk(Act(w, InitNext(i, at)).state, Act(w, InitNext(i, at)).sessions[i])
  {
    var session := w.sessions[i];
    var n := |session.begun|;
    assert SessionOk(w.state, session);
    if session.batch[n].content.Some? {
      var msg, step := session.batch[n].content.value, InitStep(session, n, at);
      InitializeDurable(w.state.db, msg, LoadedFor(session.loaded.byType, msg), at);
      StepKeepsWorld(w, step);
      assert SessionOk(Next(w.state, step), session);
      assert Kept(Next(w.state, step), msg, LoadedNow(w, session));
      assert session.batch[n] in session.batch;
    }
  }

  lemma {:induction false} InitNextOk(w: World, i: nat, at: Time)
    requires WorldOk(w) && Possible(w, InitNext(i, at))
    ensures WorldOk(Act(w, InitNext(i, at)))
  {
    var session := w.sessions[i];
    SessionInitOk(w, i, at);
    if session.batch[|session.begun|].content.Some? {
      StepKeepsWorld(w, InitStep(session, |session.begun|, at));
    }
  }

  lemma {:induction false} ActOk(w: World, a: Action)
    requires WorldOk(w) && Possible(w, a)
    ensures WorldOk(Act(w, a))
  {
    match a
    case Protocol(step) => StepKeepsWorld(w, step);
    case InitNext(i, at) => InitNextOk(w, i, at);
    case CommitBatch(i) =>
      var batch, begun := w.sessions[i].batch, w.sessions[i].begun;
      forall c | c in Commits(batch, begun)
        ensures CommitOk(w.state, c)
      {
        var n :| 0 <= n < |batch| && c == Commits(batch, begun)[n];
        assert SessionOk(w.state, w.sessions[i]);
      }
    case _ =>
  }

  lemma {:induction false} HistoryOk(ws: seq<World>, actions: seq<Action>, i: nat)
    requires IsHistory(ws, actions) && i < |ws|
    ensures WorldOk(ws[i])
  {
    if i == 0 {
      InitialSafe(ws[0].state);
    } else {
      HistoryOk(ws, actions, i - 1);
      ActOk(ws[i - 1], actions[i - 1]);
    }
  }

  /**
   Commit safety: over every history, each well-formed message ever committed has its event stored and
   a row for every subscription that was active and wanted it when its batch was loaded, each of these
   rows terminal or claimable from a known time on; unless retention has since removed the finished event.
   */
  lemma {:induction false} CommittedWorkIsSafe(ws: seq<World>, actions: seq<Action>, i: nat, c: Receipt,
                                               sub: Subscription)
    requires IsHistory(ws, actions) && i < |ws| && c in ws[i].committed && c.message.content.Some?
    ensures c.loaded.Some?
    ensures var msg, s := c.message.content.value, ws[i].state;
            !RemovedSince(s, msg, c.loaded.value) ==>
              && msg.id in s.db.events
              && (sub in c.loaded.value.subs && sub.active && Wants(sub, msg.eventType) ==>
                    var k := Key(msg.id, sub.id);
                    && k in s.db.rows
                    && (Terminal(s.db.rows[k].status) || Recoverable(s.db.rows[k])))
  {
    HistoryOk(ws, actions, i);
    assert CommitOk(ws[i].state, c);
  }

  /** Claimable from some time on, whatever happens to the worker that may hold it. */
  ghost predicate Recoverable(d: Row) {
    forall now: Time :: WakesAt(d).None? || WakesAt(d).value <= now ==> Claimable(d, now)
  }
}
