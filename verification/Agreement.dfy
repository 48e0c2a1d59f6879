/**
 The stored event row agrees with its deliveries whenever their work has ended, although claims and
 re-initialization never write it (internal/repository/postgres/event.go:92-130, 188, 342, 464-485).
 */
module Agreement {
  import opened Domain
  import opened Projection
  import opened Store
  import opened Columns
  import opened Lease

  ghost predicate HasRows(rows: map<Key, Row>, e: string) {
    exists k <- rows :: k.event == e
  }

  ghost predicate Ended(rows: map<Key, Row>, e: string) {
    forall k <- rows :: k.event == e ==> Terminal(rows[k].status)
  }

  /**
   Whatever order the rows are listed in, the stored event is their projection (but for the order-bound last
   error).
   */
  ghost predicate Mirrors(rows: map<Key, Row>, e: string, p: EventProjection) {
    forall listing :: IsListing(rows, e, listing) ==> Agrees(Listed(rows, listing), p)
  }

  ghost predicate EventsOk(s: State) {
    forall e <- s.db.events :: HasRows(s.db.rows, e) && Ended(s.db.rows, e) ==>
      Mirrors(s.db.rows, e, Stored(s.db.events[e]))
  }

  /** Agreement looks only at which rows are listed. */
  lemma AgreesSameMembers(ds: seq<Row>, ds': seq<Row>, p: EventProjection)
    requires forall d :: d in ds <==> d in ds'
    requires Agrees(ds, p)
    ensures Agrees(ds', p)
  {
    if p.status != Delivered {
      var d :| d in ds && d.status == p.status;
      assert d in ds';
    }
    if p.attempts != 0 {
      var d :| d in ds && d.attempts == p.attempts;
      assert d in ds';
    }
    if p.next.Some? {
      var d :| d in ds && d.next == p.next;
      assert d in ds';
    }
    assert AllDelivered(ds) == AllDelivered(ds');
    if AllDelivered(ds) && p.deliveredAt.Some? {
      var d :| d in ds && d.deliveredAt == p.deliveredAt;
      assert d in ds';
    }
  }

  lemma ListedMembers(rows: map<Key, Row>, e: string, listing: seq<Key>)
    requires IsListing(rows, e, listing)
    ensures forall k <- rows :: k.event == e ==> rows[k] in Listed(rows, listing)
    ensures forall d <- Listed(rows, listing) :: exists k <- rows :: k.event == e && rows[k] == d
  {
    var ds := Listed(rows, listing);
    forall k | k in rows && k.event == e
      ensures rows[k] in ds
    {
      var i :| 0 <= i < |listing| && listing[i] == k;
      assert ds[i] == rows[k];
    }
    forall d | d in ds
      ensures exists k <- rows :: k.event == e && rows[k] == d
    {
      var i :| 0 <= i < |ds| && ds[i] == d;
      assert listing[i] in listing;
    }
  }

  lemma {:induction false} TwoListings(rows: map<Key, Row>, e: string, l: seq<Key>, l': seq<Key>, p: EventProjection)
    requires IsListing(rows, e, l) && IsListing(rows, e, l') && Agrees(Listed(rows, l), p)
    ensures Agrees(Listed(rows, l'), p)
  {
    ListedMembers(rows, e, l);
    ListedMembers(rows, e, l');
    AgreesSameMembers(Listed(rows, l), Listed(rows, l'), p);
  }

  ghost predicate SameEventRows(rows: map<Key, Row>, rows': map<Key, Row>, e: string) {
    forall k: Key :: k.event == e ==> (k in rows <==> k in rows') && (k in rows && k in rows' ==> rows[k] == rows'[k])
  }

  /** Rows of other events do not matter. */
  lemma {:induction false} SameRowsSameMirror(rows: map<Key, Row>, rows': map<Key, Row>, e: string, p: EventProjection)
    requires SameEventRows(rows, rows', e)
    ensures HasRows(rows, e) == HasRows(rows', e) && Ended(rows, e) == Ended(rows', e)
    ensures Mirrors(rows, e, p) ==> Mirrors(rows', e, p)
  {
    if Mirrors(rows, e, p) {
      forall listing | IsListing(rows', e, listing)
        ensures Agrees(Listed(rows', listing), p)
      {
        assert IsListing(rows, e, listing);
        assert Listed(rows, listing) == Listed(rows', listing);
      }
    }
  }

  /** Rewriting the event from a listing of its rows makes it mirror them. */
  lemma {:induction false} ReprojectMirrors(rows: map<Key, Row>, e: string, listing: seq<Key>, now: Time)
    requires IsListing(rows, e, listing) && HasRows(rows, e)
    ensures Mirrors(rows, e, Project(Listed(rows, listing), now))
  {
    var k :| k in rows && k.event == e;
    ListedMembers(rows, e, listing);
    assert Listed(rows, listing) != [];
    ProjectMeans(Listed(rows, listing), now);
    forall l | IsListing(rows, e, l)
      ensures Agrees(Listed(rows, l), Project(Listed(rows, listing), now))
    {
      TwoListings(rows, e, listing, l, Project(Listed(rows, listing), now));
    }
  }

  lemma SameListing(rows: map<Key, Row>, rows': map<Key, Row>, e: string, listing: seq<Key>)
    requires IsListing(rows, e, listing)
    requires rows'.Keys == rows.Keys && forall k <- rows :: rows'[k].created == rows[k].created
    ensures IsListing(rows', e, listing)
  {
  }

  /** What a step must do for agreement to survive: for each event it leaves with ended rows, either
      rewrite it from them or touch neither it nor them. */
  ghost predicate Refreshed(s: State, s': State, e: string)
    requires e in s'.db.events
  {
    || !(HasRows(s'.db.rows, e) && Ended(s'.db.rows, e))
    || (e in s.db.events && s'.db.events[e] == s.db.events[e] && SameEventRows(s.db.rows, s'.db.rows, e))
    || Mirrors(s'.db.rows, e, Stored(s'.db.events[e]))
  }

  lemma {:induction false} RefreshedOk(s: State, s': State)
    requires EventsOk(s) && forall e <- s'.db.events :: Refreshed(s, s', e)
    ensures EventsOk(s')
  {
    forall e | e in s'.db.events && HasRows(s'.db.rows, e) && Ended(s'.db.rows, e)
      ensures Mirrors(s'.db.rows, e, Stored(s'.db.events[e]))
    {
      assert Refreshed(s, s', e);
      if !Mirrors(s'.db.rows, e, Stored(s'.db.events[e])) {
        SameRowsSameMirror(s.db.rows, s'.db.rows, e, Stored(s.db.events[e]));
      }
    }
  }

  /** An outcome of one event leaves the others alone. */
  lemma PersistLeavesOthers(s: State, c: nat, listing: seq<Key>, e: string)
    requires Safe(s) && Enabled(s, PersistOutcome(c, listing)) && e in s.db.events
    requires Written(s, c, listing).None? || e != s.claims[c].copy.key.event
    ensures Refreshed(s, Next(s, PersistOutcome(c, listing)), e)
  {
    WrittenMeans(s, c, listing);
  }

  lemma {:induction false} PersistRefreshes(s: State, c: nat, listing: seq<Key>, e: string)
    requires Safe(s) && Enabled(s, PersistOutcome(c, listing)) && e in Next(s, PersistOutcome(c, listing)).db.events
    ensures Refreshed(s, Next(s, PersistOutcome(c, listing)), e)
  {
    WrittenMeans(s, c, listing);
    var s' := Next(s, PersistOutcome(c, listing));
    var k := s.claims[c].copy.key;
    if Written(s, c, listing).Some? && e == k.event {
      SameListing(s.db.rows, s'.db.rows, e, listing);
      assert k in s'.db.rows;
      ReprojectMirrors(s'.db.rows, e, listing, s.db.now);
    } else {
      PersistLeavesOthers(s, c, listing, e);
    }
  }

  lemma {:induction false} InitRefreshes(s: State, ev: EventInput, subs: seq<Option<Subscription>>, at: Time, e: string)
    requires Safe(s) && e in Next(s, Init(ev, subs, at)).db.events
    ensures Refreshed(s, Next(s, Init(ev, subs, at)), e)
  {
    InitMeans(s, ev, subs, at);
    var s' := Next(s, Init(ev, subs, at));
    if HasRows(s'.db.rows, e) && Ended(s'.db.rows, e) {
      assert SameEventRows(s.db.rows, s'.db.rows, e);
      var k :| k in s'.db.rows && k.event == e;
      assert k in s.db.rows;
    }
  }

  lemma ClaimRefreshes(s: State, k: Key, owner: string, lease: int, e: string)
    requires Enabled(s, ClaimRow(k, owner, lease)) && e in s.db.events
    ensures Refreshed(s, Next(s, ClaimRow(k, owner, lease)), e)
  {
    assert k in Next(s, ClaimRow(k, owner, lease)).db.rows;
  }

  lemma ReplayRefreshes(s: State, k: Key, at: Time, listing: seq<Key>, e: string)
    requires Enabled(s, ReplayRow(k, at, listing)) && e in s.db.events
    ensures Refreshed(s, Next(s, ReplayRow(k, at, listing)), e)
  {
    assert k in s.db.rows ==> k in Next(s, ReplayRow(k, at, listing)).db.rows;
  }

  lemma PurgeRefreshes(s: State, purged: string, before: Time, e: string)
    requires Enabled(s, Purge(purged, before)) && e in Next(s, Purge(purged, before)).db.events
    ensures Refreshed(s, Next(s, Purge(purged, before)), e)
  {
  }

  lemma StepRefreshes(s: State, step: Step, e: string)
    requires Safe(s) && Enabled(s, step) && e in Next(s, step).db.events
    ensures Refreshed(s, Next(s, step), e)
  {
    match step
    case Init(ev, subs, at) => InitRefreshes(s, ev, subs, at, e);
    case PersistOutcome(c, listing) => PersistRefreshes(s, c, listing, e);
    case ClaimRow(k, owner, lease) => ClaimRefreshes(s, k, owner, lease, e);
    case ReplayRow(k, at, listing) => ReplayRefreshes(s, k, at, listing, e);
    case Purge(purged, before) => PurgeRefreshes(s, purged, before, e);
    case _ =>
  }

  lemma {:induction false} StepEvents(s: State, step: Step)
    requires Safe(s) && EventsOk(s) && Enabled(s, step)
    ensures EventsOk(Next(s, step))
  {
    var s' := Next(s, step);
    forall e | e in s'.db.events
      ensures Refreshed(s, s', e)
    {
      StepRefreshes(s, step, e);
    }
    RefreshedOk(s, s');
  }

  lemma {:induction false} RunEvents(ss: seq<State>, steps: seq<Step>, i: nat)
    requires IsRun(ss, steps) && i < |ss|
    ensures EventsOk(ss[i])
  {
    if i > 0 {
      RunEvents(ss, steps, i - 1);
      RunSafe(ss, steps, i - 1);
      StepEvents(ss[i - 1], steps[i - 1]);
    }
  }

  /**
   Right after every accepted outcome or replay, in every run, the stored event mirrors its rows, whether
   they have ended or not.
   */
  lemma {:induction false} RewriteMirrors(ss: seq<State>, steps: seq<Step>, i: nat)
    requires IsRun(ss, steps) && i < |steps|
    ensures var s, s' := ss[i], ss[i + 1];
            match steps[i]
            case PersistOutcome(c, listing) =>
              var e := s.claims[c].copy.key.event;
              Written(s, c, listing).Some? ==> e in s'.db.events && Mirrors(s'.db.rows, e, Stored(s'.db.events[e]))
            case ReplayRow(k, at, listing) =>
              Replay(s.db, k, at, listing).Some? ==>
                k.event in s'.db.events && Mirrors(s'.db.rows, k.event, Stored(s'.db.events[k.event]))
            case _ => true
  {
    RunSafe(ss, steps, i);
    var s, s' := ss[i], ss[i + 1];
    match steps[i]
    case PersistOutcome(c, listing) =>
      if Written(s, c, listing).Some? {
        WrittenMeans(s, c, listing);
        UpdatedMirrors(s.db, s'.db, s.claims[c].copy.key, listing);
      }
    case ReplayRow(k, at, listing) =>
      if Replay(s.db, k, at, listing).Some? {
        UpdatedMirrors(s.db, s'.db, k, listing);
      }
    case _ =>
  }

  lemma UpdatedMirrors(db: Db, db': Db, k: Key, listing: seq<Key>)
    requires k in db'.rows && k.event in db'.events && IsListing(db.rows, k.event, listing)
    requires db'.rows.Keys == db.rows.Keys && forall j <- db.rows :: db'.rows[j].created == db.rows[j].created
    requires Stored(db'.events[k.event]) == Project(Listed(db'.rows, listing), db.now)
    ensures Mirrors(db'.rows, k.event, Stored(db'.events[k.event]))
  {
    SameListing(db.rows, db'.rows, k.event, listing);
    ReprojectMirrors(db'.rows, k.event, listing, db.now);
  }

  /**
   When work ends the stored event tells the truth: in every reachable state where an event has rows
   and all are terminal, it is stored as delivered if all were delivered and as failed otherwise, and
   its attempts, next time and delivery time are those of its rows.
   */
  lemma {:induction false} StoredEventAgrees(ss: seq<State>, steps: seq<Step>, i: nat, e: string, listing: seq<Key>)
    requires IsRun(ss, steps) && i < |ss|
    requires HasRows(ss[i].db.rows, e) && Ended(ss[i].db.rows, e) && IsListing(ss[i].db.rows, e, listing)
    ensures e in ss[i].db.events
    ensures var rows, stored := ss[i].db.rows, ss[i].db.events[e];
            && Agrees(Listed(rows, listing), Stored(stored))
            && (stored.status == Delivered <==> forall k <- rows :: k.event == e ==> rows[k].status == Delivered)
            && (stored.status == Delivered || stored.status == Failed)
  {
    RunSafe(ss, steps, i);
    RunEvents(ss, steps, i);
    var k :| k in ss[i].db.rows && k.event == e;
    AgreementMeans(ss[i].db.rows, e, listing, Stored(ss[i].db.events[e]));
  }

  lemma AgreementMeans(rows: map<Key, Row>, e: string, listing: seq<Key>, p: EventProjection)
    requires Mirrors(rows, e, p) && IsListing(rows, e, listing) && Ended(rows, e)
    ensures Agrees(Listed(rows, listing), p)
    ensures p.status == Delivered <==> forall k <- rows :: k.event == e ==> rows[k].status == Delivered
    ensures p.status == Delivered || p.status == Failed
  {
    ListedMembers(rows, e, listing);
  }
}
