/**
 What a commit means as a per-partition watermark (internal/kafka/consumer.go:135-265): committing an
 offset passes every earlier message of its partition. That is safe exactly as long as no message
 passed over was dropped, and the ways to drop one are a failed batch and the death of a worker.
 */
module Watermark {
  import opened Domain
  import opened Store
  import opened Lease
  import opened Intake
  import opened Consumer

  /** A session that has the message and has still to initialize it. */
  ghost predicate WaitsFor(session: Session, m: Fetched) {
    exists n :: 0 <= n < |session.batch| && session.batch[n] == m &&
                (session.Collecting? || (session.Initializing? && |session.begun| <= n))
  }

  ghost predicate Held(w: World, m: Fetched) {
    exists i <- w.sessions :: WaitsFor(w.sessions[i], m)
  }

  /** This action initializes the message. */
  ghost predicate Reaches(w: World, a: Action, m: Fetched) {
    && a.InitNext? && Possible(w, a)
    && w.sessions[a.worker].batch[|w.sessions[a.worker].begun|] == m
  }

  /** This action ends a session of worker `i` without a commit. */
  predicate Ends(a: Action, i: nat) {
    a == FailBatch(i) || a == Die(i)
  }

  /** Worker `i` initialized the message between the actions `j` and `k`. */
  ghost predicate ReachedBetween(ws: seq<World>, actions: seq<Action>, j: int, k: int, i: nat, m: Fetched)
    requires |ws| == |actions| + 1
  {
    exists n :: 0 <= n < |actions| && j < n < k && actions[n].InitNext? && actions[n].worker == i
                && Reaches(ws[n], actions[n], m)
  }

  /** The fetch at `j` came to nothing: its worker failed or died before it initialized the message. */
  ghost predicate Wasted(ws: seq<World>, actions: seq<Action>, j: int)
    requires |ws| == |actions| + 1 && 0 <= j < |actions| && actions[j].Fetch?
  {
    exists k :: j < k < |actions| && Ends(actions[k], actions[j].worker)
                && !ReachedBetween(ws, actions, j, k, actions[j].worker, actions[j].message)
  }

  ghost predicate IsFetched(actions: seq<Action>, m: Fetched) {
    exists j :: 0 <= j < |actions| && actions[j].Fetch? && actions[j].message == m
  }

  /** Every fetch of the message came to nothing. */
  ghost predicate Dropped(ws: seq<World>, actions: seq<Action>, m: Fetched)
    requires |ws| == |actions| + 1
  {
    forall j :: 0 <= j < |actions| && actions[j].Fetch? && actions[j].message == m ==> Wasted(ws, actions, j)
  }

  /** The message was initialized with the subscriptions its batch had loaded, and that work is kept to this day. */
  ghost predicate Secured(ws: seq<World>, actions: seq<Action>, m: Fetched)
    requires |ws| == |actions| + 1 && m.content.Some?
  {
    exists n :: 0 <= n < |actions| && Reaches(ws[n], actions[n], m)
                && KeptUnder(ws[|actions|].state, m.content.value, LoadedNow(ws[n], ws[n].sessions[actions[n].worker]))
  }

  ghost predicate KeptUnder(s: State, msg: Message, loaded: Loaded) {
    Kept(s, msg, loaded) && LoadedExactly(loaded.subs, loaded.byType, msg)
  }

  /** This action commits an offset at or past the message, in its partition: a malformed message, or a batch. */
  ghost predicate Passes(w: World, a: Action, m: Fetched) {
    && Possible(w, a)
    && match a
       case Fetch(_, f) => f.content.None? && f.partition == m.partition && m.offset <= f.offset
       case CommitBatch(i) => exists f <- w.sessions[i].batch :: f.partition == m.partition && m.offset <= f.offset
       case _ => false
  }

  ghost predicate PassedOver(ws: seq<World>, actions: seq<Action>, m: Fetched)
    requires |ws| == |actions| + 1
  {
    exists n :: 0 <= n < |actions| && Passes(ws[n], actions[n], m)
  }

  /** Watermark safety: a fetched message the watermark has passed is secured, or some session still holds it. */
  ghost predicate WatermarkSafe(ws: seq<World>, actions: seq<Action>)
    requires |ws| == |actions| + 1
  {
    forall m: Fetched :: m.content.Some? && IsFetched(actions, m) && Below(ws[|actions|].committed, m) ==>
      Secured(ws, actions, m) || Held(ws[|actions|], m)
  }

  /** An offset at or past the message, in its partition, has been handed to the broker. */
  ghost predicate Below(committed: seq<Receipt>, m: Fetched) {
    exists c <- committed :: c.message.partition == m.partition && m.offset <= c.message.offset
  }

  /* Which actions commit */

  lemma BelowNext(w: World, a: Action, m: Fetched)
    requires Possible(w, a)
    ensures Below(Act(w, a).committed, m) <==> Below(w.committed, m) || Passes(w, a, m)
  {
    var committed' := Act(w, a).committed;
    match a
    case Fetch(_, f) =>
      if f.content.None? {
        assert committed' == w.committed + [Receipt(f, None)];
        assert committed'[|w.committed|] == Receipt(f, None);
        assert forall c <- w.committed :: c in committed';
      }
    case CommitBatch(i) =>
      var more := Commits(w.sessions[i].batch, w.sessions[i].begun);
      assert committed' == w.committed + more;
      assert forall c <- w.committed :: c in committed';
      if f :| f in w.sessions[i].batch && f.partition == m.partition && m.offset <= f.offset {
        var n :| 0 <= n < |w.sessions[i].batch| && w.sessions[i].batch[n] == f;
        assert more[n] in committed' && more[n].message == f;
      }
      if c :| c in more && c.message.partition == m.partition && m.offset <= c.message.offset {
        var n :| 0 <= n < |more| && more[n] == c;
        assert w.sessions[i].batch[n] in w.sessions[i].batch;
      }
    case _ =>
  }

  /** Offsets are committed by exactly these actions. */
  lemma {:induction false} BelowByActions(ws: seq<World>, actions: seq<Action>, t: nat, m: Fetched)
    requires IsHistory(ws, actions) && t <= |actions|
    ensures Below(ws[t].committed, m) <==> exists n :: 0 <= n < t && Passes(ws[n], actions[n], m)
  {
    if t > 0 {
      BelowByActions(ws, actions, t - 1, m);
      BelowNext(ws[t - 1], actions[t - 1], m);
    }
  }

  /* Where a message is */

  /** A message in a session's batch was fetched by its worker, who has neither failed nor died since. */
  lemma {:induction false} FetchedBefore(ws: seq<World>, actions: seq<Action>, t: nat, i: nat, m: Fetched)
    requires IsHistory(ws, actions) && t <= |actions| && i in ws[t].sessions && m in ws[t].sessions[i].batch
    ensures exists j :: 0 <= j < t && actions[j] == Fetch(i, m) && NoEnd(actions, j, t, i)
  {
    if t > 0 {
      if actions[t - 1] == Fetch(i, m) {
        assert NoEnd(actions, t - 1, t, i);
      } else {
        BatchEarlier(ws, actions, t, i, m);
        FetchedBefore(ws, actions, t - 1, i, m);
        var j :| 0 <= j < t - 1 && actions[j] == Fetch(i, m) && NoEnd(actions, j, t - 1, i);
        NoEndNext(actions, j, t, i);
      }
    }
  }

  lemma BatchEarlier(ws: seq<World>, actions: seq<Action>, t: nat, i: nat, m: Fetched)
    requires IsHistory(ws, actions) && 0 < t <= |actions| && i in ws[t].sessions && m in ws[t].sessions[i].batch
    requires actions[t - 1] != Fetch(i, m)
    ensures i in ws[t - 1].sessions && m in ws[t - 1].sessions[i].batch && !Ends(actions[t - 1], i)
  {
    var w, a := ws[t - 1], actions[t - 1];
    assert Possible(w, a) && ws[t] == Act(w, a);
    BatchBefore(w, a, i, m);
  }

  lemma NoEndNext(actions: seq<Action>, j: int, t: nat, i: nat)
    requires 0 < t <= |actions| && NoEnd(actions, j, t - 1, i) && !Ends(actions[t - 1], i)
    ensures NoEnd(actions, j, t, i)
  {
  }

  ghost predicate NoEnd(actions: seq<Action>, j: int, t: int, i: nat) {
    forall k :: 0 <= k < |actions| && j < k < t ==> !Ends(actions[k], i)
  }

  lemma BatchBefore(w: World, a: Action, i: nat, m: Fetched)
    requires Possible(w, a) && a != Fetch(i, m) && i in Act(w, a).sessions && m in Act(w, a).sessions[i].batch
    ensures i in w.sessions && m in w.sessions[i].batch && !Ends(a, i)
  {
  }

  /** A session that waits for a message goes on waiting, initializes it, or ends. */
  lemma WaitsNext(w: World, a: Action, i: nat, m: Fetched)
    requires Possible(w, a) && i in w.sessions && WaitsFor(w.sessions[i], m) && !Ends(a, i)
    requires !(a.InitNext? && a.worker == i && Reaches(w, a, m))
    ensures i in Act(w, a).sessions && WaitsFor(Act(w, a).sessions[i], m)
  {
    var session := w.sessions[i];
    var n :| 0 <= n < |session.batch| && session.batch[n] == m &&
             (session.Collecting? || (session.Initializing? && |session.begun| <= n));
    assert i in Act(w, a).sessions;
    var session' := Act(w, a).sessions[i];
    assert n < |session'.batch| && session'.batch[n] == m;
  }

  /** A fetch that was not wasted has been followed up, or is still held. */
  lemma {:induction false} FollowedUp(ws: seq<World>, actions: seq<Action>, j: nat, t: nat)
    requires IsHistory(ws, actions) && j < t <= |actions|
    requires actions[j].Fetch? && actions[j].message.content.Some? && !Wasted(ws, actions, j)
    ensures var i, m := actions[j].worker, actions[j].message;
            ReachedBetween(ws, actions, j, t, i, m) || (i in ws[t].sessions && WaitsFor(ws[t].sessions[i], m))
    decreases t
  {
    var i, m := actions[j].worker, actions[j].message;
    if t == j + 1 {
      var batch := ws[t].sessions[i].batch;
      assert batch[|batch| - 1] == m;
    } else {
      FollowedUp(ws, actions, j, t - 1);
      var n := t - 1;
      if !ReachedBetween(ws, actions, j, t, i, m) {
        assert !ReachedBetween(ws, actions, j, n, i, m);
        assert !Ends(actions[n], i);
        WaitsNext(ws[n], actions[n], i, m);
      }
    }
  }

  /** Initialized work is kept, through every later action. */
  lemma {:induction false} ReachedKept(ws: seq<World>, actions: seq<Action>, n: nat, t: nat, m: Fetched)
    requires IsHistory(ws, actions) && n < t <= |actions| && Reaches(ws[n], actions[n], m) && m.content.Some?
    ensures KeptUnder(ws[t].state, m.content.value, LoadedNow(ws[n], ws[n].sessions[actions[n].worker]))
    decreases t
  {
    var i := actions[n].worker;
    var loaded := LoadedNow(ws[n], ws[n].sessions[i]);
    if t == n + 1 {
      HistoryOk(ws, actions, t);
      assert SessionOk(ws[t].state, ws[t].sessions[i]);
      var done := |ws[n].sessions[i].begun|;
      assert ws[t].sessions[i].batch[done] == m && ws[t].sessions[i].begun[done] == loaded;
    } else {
      ReachedKept(ws, actions, n, t - 1, m);
      HistoryOk(ws, actions, t - 1);
      ActKeeps(ws[t - 1], actions[t - 1], m.content.value, loaded);
    }
  }

  lemma ActKeeps(w: World, a: Action, msg: Message, loaded: Loaded)
    requires WorldOk(w) && Possible(w, a) && Kept(w.state, msg, loaded)
    ensures Kept(Act(w, a).state, msg, loaded)
  {
    match a
    case Protocol(step) => StepKeeps(w.state, step, msg, loaded);
    case InitNext(i, at) =>
      var session := w.sessions[i];
      if session.batch[|session.begun|].content.Some? {
        StepKeeps(w.state, InitStep(session, |session.begun|, at), msg, loaded);
      }
    case _ =>
  }

  /** A message once initialized was not dropped. */
  lemma {:induction false} ReachedNotDropped(ws: seq<World>, actions: seq<Action>, n: nat, m: Fetched)
    requires IsHistory(ws, actions) && n < |actions| && Reaches(ws[n], actions[n], m)
    ensures !Dropped(ws, actions, m)
  {
    var i := actions[n].worker;
    assert m in ws[n].sessions[i].batch;
    FetchedBefore(ws, actions, n, i, m);
    var j :| 0 <= j < n && actions[j] == Fetch(i, m) && NoEnd(actions, j, n, i);
    forall k | j < k < |actions| && Ends(actions[k], i)
      ensures ReachedBetween(ws, actions, j, k, i, m)
    {
      assert k > n;
    }
    assert !Wasted(ws, actions, j);
  }

  lemma {:induction false} HeldNotDropped(ws: seq<World>, actions: seq<Action>, m: Fetched)
    requires IsHistory(ws, actions) && Held(ws[|actions|], m)
    ensures !Dropped(ws, actions, m)
  {
    var t := |actions|;
    var i :| i in ws[t].sessions && WaitsFor(ws[t].sessions[i], m);
    FetchedBefore(ws, actions, t, i, m);
    var j :| 0 <= j < t && actions[j] == Fetch(i, m) && NoEnd(actions, j, t, i);
    assert !Wasted(ws, actions, j);
  }

  /** The fate of one fetched message: secured or still held, exactly when it was not dropped. */
  lemma {:induction false} SafeIffNotDropped(ws: seq<World>, actions: seq<Action>, m: Fetched)
    requires IsHistory(ws, actions) && m.content.Some? && IsFetched(actions, m)
    ensures Secured(ws, actions, m) || Held(ws[|actions|], m) <==> !Dropped(ws, actions, m)
  {
    var t := |actions|;
    if Secured(ws, actions, m) {
      var n :| 0 <= n < |actions| && Reaches(ws[n], actions[n], m);
      ReachedNotDropped(ws, actions, n, m);
    } else if Held(ws[t], m) {
      HeldNotDropped(ws, actions, m);
    } else if !Dropped(ws, actions, m) {
      var j :| 0 <= j < |actions| && actions[j].Fetch? && actions[j].message == m && !Wasted(ws, actions, j);
      FollowedUp(ws, actions, j, t);
      if n :| 0 <= n < |actions| && Reaches(ws[n], actions[n], m) {
        ReachedKept(ws, actions, n, t, m);
      }
    }
  }

  /**
   When a watermark is safe, exactly: over every history, all messages it has passed are secured or held
   if and only if none of them was dropped, that is, no message past which a malformed message or a batch
   was committed lost every worker that fetched it, by a failed batch or a death, before its turn came.
   */
  lemma {:induction false} WatermarkExact(ws: seq<World>, actions: seq<Action>)
    requires IsHistory(ws, actions)
    ensures WatermarkSafe(ws, actions) <==>
            forall m: Fetched :: m.content.Some? && IsFetched(actions, m) && PassedOver(ws, actions, m) ==>
              !Dropped(ws, actions, m)
  {
    forall m: Fetched | m.content.Some? && IsFetched(actions, m)
      ensures Below(ws[|actions|].committed, m) <==> PassedOver(ws, actions, m)
      ensures Secured(ws, actions, m) || Held(ws[|actions|], m) <==> !Dropped(ws, actions, m)
    {
      BelowByActions(ws, actions, |actions|, m);
      SafeIffNotDropped(ws, actions, m);
    }
  }

  /* A dropped message leaves nothing behind */

  ghost predicate Traced(w: World, id: string) {
    id in w.state.db.events || id in w.state.purged
  }

  /** This action initializes a message of this event. */
  ghost predicate Names(w: World, a: Action, id: string) {
    && a.InitNext? && Possible(w, a)
    && var m := w.sessions[a.worker].batch[|w.sessions[a.worker].begun|];
       m.content.Some? && m.content.value.id == id
  }

  lemma TracedNext(w: World, a: Action, id: string)
    requires Possible(w, a) && Traced(Act(w, a), id) && !Traced(w, id)
    ensures Names(w, a, id)
  {
  }

  lemma TracedAt(ws: seq<World>, actions: seq<Action>, t: nat, id: string)
    requires IsHistory(ws, actions) && 0 < t <= |actions| && Traced(ws[t], id) && !Traced(ws[t - 1], id)
    ensures Names(ws[t - 1], actions[t - 1], id)
  {
    assert Possible(ws[t - 1], actions[t - 1]) && ws[t] == Act(ws[t - 1], actions[t - 1]);
    TracedNext(ws[t - 1], actions[t - 1], id);
  }

  ghost predicate NamedBefore(ws: seq<World>, actions: seq<Action>, t: nat, id: string)
    requires t <= |actions| && |ws| == |actions| + 1
  {
    exists n :: 0 <= n < t && Names(ws[n], actions[n], id)
  }

  /** The database hears of an event only when a message of it is initialized. */
  ghost predicate Hears(ws: seq<World>, actions: seq<Action>, u: nat, id: string)
    requires 0 < u <= |actions| && |ws| == |actions| + 1
  {
    Traced(ws[u], id) ==> Traced(ws[u - 1], id) || Names(ws[u - 1], actions[u - 1], id)
  }

  lemma {:induction false} HeardOf(ws: seq<World>, actions: seq<Action>, t: nat, id: string)
    requires t <= |actions| && |ws| == |actions| + 1 && Traced(ws[t], id) && !Traced(ws[0], id)
    requires forall u :: 0 < u <= |actions| ==> Hears(ws, actions, u, id)
    ensures NamedBefore(ws, actions, t, id)
  {
    if t > 0 {
      assert Hears(ws, actions, t, id);
      if !Names(ws[t - 1], actions[t - 1], id) {
        HeardOf(ws, actions, t - 1, id);
      }
    }
  }

  /** Whatever the database knows of an event, it knows from the initialization of a message. */
  lemma {:induction false} TracedByInit(ws: seq<World>, actions: seq<Action>, t: nat, id: string)
    requires IsHistory(ws, actions) && t <= |actions| && Traced(ws[t], id)
    ensures NamedBefore(ws, actions, t, id)
  {
    forall u | 0 < u <= |actions|
      ensures Hears(ws, actions, u, id)
    {
      if Traced(ws[u], id) && !Traced(ws[u - 1], id) {
        TracedAt(ws, actions, u, id);
      }
    }
    HeardOf(ws, actions, t, id);
  }

  /** If every message of an event was dropped, the database has never heard of it. */
  lemma {:induction false} DroppedLeavesNoTrace(ws: seq<World>, actions: seq<Action>, id: string)
    requires IsHistory(ws, actions)
    requires forall m: Fetched :: m.content.Some? && m.content.value.id == id ==> Dropped(ws, actions, m)
    ensures id !in ws[|actions|].state.db.events && id !in ws[|actions|].state.purged
  {
    if Traced(ws[|actions|], id) {
      TracedByInit(ws, actions, |actions|, id);
      var n :| 0 <= n < |actions| && Names(ws[n], actions[n], id);
      var session := ws[n].sessions[actions[n].worker];
      var m := session.batch[|session.begun|];
      ReachedNotDropped(ws, actions, n, m);
    }
  }

  /* Two histories in which an offset is committed past lost work */

  /** A history one action longer. */
  lemma Extend(ws: seq<World>, actions: seq<Action>, a: Action)
    requires IsHistory(ws, actions) && Possible(ws[|actions|], a)
    ensures IsHistory(ws + [Act(ws[|actions|], a)], actions + [a])
  {
    var ws', actions' := ws + [Act(ws[|actions|], a)], actions + [a];
    forall i | 0 <= i < |actions'|
      ensures Possible(ws'[i], actions'[i]) && ws'[i + 1] == Act(ws'[i], actions'[i])
    {
      if i < |actions| {
        assert ws'[i] == ws[i] && ws'[i + 1] == ws[i + 1] && actions'[i] == actions[i];
      }
    }
  }

  lemma Then(ws: seq<World>, actions: seq<Action>, a: Action) returns (ws': seq<World>, actions': seq<Action>)
    requires IsHistory(ws, actions) && Possible(ws[|actions|], a)
    ensures IsHistory(ws', actions') && actions' == actions + [a]
    ensures ws'[|actions'|] == Act(ws[|actions|], a)
  {
    Extend(ws, actions, a);
    ws', actions' := ws + [Act(ws[|actions|], a)], actions + [a];
  }

  /** A fetched message whose batch fails leaves the world as it was. */
  lemma FailOne(ws: seq<World>, actions: seq<Action>, m: Fetched) returns (ws': seq<World>, actions': seq<Action>)
    requires IsHistory(ws, actions) && m.content.Some?
    requires ws[|actions|].subs == [] && ws[|actions|].sessions == map[0 := Collecting([])]
    ensures IsHistory(ws', actions') && ws'[|actions'|] == ws[|actions|] && Fetch(0, m) in actions'
  {
    var w := ws[|actions|];
    ws', actions' := Then(ws, actions, Fetch(0, m));
    assert [] + [m] == [m];
    assert ws'[|actions'|].sessions == map[0 := Collecting([m])];
    ws', actions' := Then(ws', actions', Load(0, map[]));
    ws', actions' := Then(ws', actions', FailBatch(0));
    assert ws'[|actions'|].sessions == w.sessions;
  }

  /** A fetched message nobody subscribed to is initialized and its batch is ready to commit. */
  lemma PrepareOne(ws: seq<World>, actions: seq<Action>, m: Fetched) returns (ws': seq<World>, actions': seq<Action>)
    requires IsHistory(ws, actions) && m.content.Some?
    requires ws[|actions|].subs == [] && ws[|actions|].sessions == map[0 := Collecting([])]
    requires m.content.value.id !in ws[|actions|].state.db.events
    ensures IsHistory(ws', actions') && actions <= actions'
    ensures var w, w' := ws[|actions|], ws'[|actions'|];
            && w'.sessions == map[0 := Working([m], [Loaded([], map[], w.state.purged)])]
            && w'.committed == w.committed && w'.state.purged == w.state.purged
            && w'.state.db.events.Keys == w.state.db.events.Keys + {m.content.value.id}
  {
    ws', actions' := Then(ws, actions, Fetch(0, m));
    assert [] + [m] == [m];
    assert ws'[|actions'|].sessions == map[0 := Collecting([m])];
    ws', actions' := Then(ws', actions', Load(0, map[]));
    ws', actions' := Then(ws', actions', InitNext(0, 0));
    assert [] + [Loaded([], map[], ws[|actions|].state.purged)] == [Loaded([], map[], ws[|actions|].state.purged)];
    ws', actions' := Then(ws', actions', StartWork(0));
  }

  /**
   Read as a per-partition watermark, a commit promises too much: a consumer goes on fetching after a
   failed batch, so an offset can be committed while an earlier message of the same partition was
   fetched, never initialized, and left no trace.
   */
  lemma WatermarkCanSkipWork(first: Message, second: Message) returns (ws: seq<World>, actions: seq<Action>)
    requires first.id != second.id
    ensures IsHistory(ws, actions)
    ensures Fetch(0, Fetched(0, 0, Some(first))) in actions
    ensures var end := ws[|actions|];
            && (exists c <- end.committed :: c.message == Fetched(0, 1, Some(second)))
            && first.id !in end.state.db.events && first.id !in end.state.purged
  {
    var state := State(Db(0, map[], map[], []), [], map[], multiset{});
    ws, actions := [World(state, [], map[], [])], [];
    ws, actions := Then(ws, actions, Join(0));
    ws, actions := FailOne(ws, actions, Fetched(0, 0, Some(first)));
    var m := Fetched(0, 1, Some(second));
    ws, actions := PrepareOne(ws, actions, m);
    ws, actions := Then(ws, actions, FinishWork(0));
    ws, actions := Then(ws, actions, CommitBatch(0));
    assert ws[|actions|].committed[0].message == m;
  }

  /**
   The second route needs no failed batch: a malformed message is committed in the middle of a collection,
   and the worker dies before the messages collected so far are initialized.
   */
  lemma MalformedCanSkipWork(first: Message) returns (ws: seq<World>, actions: seq<Action>)
    ensures IsHistory(ws, actions) && forall i :: FailBatch(i) !in actions
    ensures Fetch(0, Fetched(0, 0, Some(first))) in actions
    ensures var end := ws[|actions|];
            && (exists c <- end.committed :: c.message == Fetched(0, 1, None))
            && first.id !in end.state.db.events && first.id !in end.state.purged && end.sessions == map[]
  {
    var state := State(Db(0, map[], map[], []), [], map[], multiset{});
    ws, actions := [World(state, [], map[], [])], [];
    ws, actions := Then(ws, actions, Join(0));
    ws, actions := Then(ws, actions, Fetch(0, Fetched(0, 0, Some(first))));
    ws, actions := Then(ws, actions, Fetch(0, Fetched(0, 1, None)));
    assert ws[|actions|].committed == [Receipt(Fetched(0, 1, None), None)];
    assert ws[|actions|].committed[0].message == Fetched(0, 1, None);
    ws, actions := Then(ws, actions, Die(0));
  }
}
