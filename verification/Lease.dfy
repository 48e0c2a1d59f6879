/**
 The lease protocol as a state machine over the database, the clock and the copies workers hold.
 Any number of workers, with any owner names and any positive leases, interleave freely; a worker
 may crash or stall at any point and write late.
 */
module Lease {
  import opened Domain
  import opened Projection
  import opened Execution
  import opened Store

  /** How far a worker got with one claimed copy. */
  datatype Progress = Held | Reported(observed: Observed) | Committed | Lost

  /**
   One claim ever made: the copy handed to the worker, the row's incarnation and the attempts that one
   started from, how far the worker got, and whether a call was made.
   */
  datatype Claim = Claim(copy: Row, epoch: nat, base: int, progress: Progress, called: bool) {
    predicate Live() {
      progress.Held? || progress.Reported?
    }
  }

  /** How many times a row was inserted under this key, and the attempt count of the latest insertion. */
  datatype Birth = Birth(epoch: nat, base: int)

  /** The claims, births and purges are history; the program itself stores only the database. */
  datatype State = State(db: Db, claims: seq<Claim>, births: map<Key, Birth>, purged: multiset<string>)

  datatype Step =
    | Tick(elapsed: nat)
    | Init(ev: EventInput, subs: seq<Option<Subscription>>, at: Time)
    | ClaimRow(key: Key, owner: string, lease: int)
    | Execute(claim: nat, observed: Observed)
    | PersistOutcome(claim: nat, listing: seq<Key>)
    | ReplayRow(key: Key, at: Time, listing: seq<Key>)
    | RedactBody(index: nat, before: Time)
    | Purge(event: string, before: Time)
    | Crash(claim: nat)

  ghost predicate Enabled(s: State, step: Step) {
    match step
    case Tick(_) => true
    case Init(_, _, _) => true
    case ClaimRow(k, _, lease) => k in s.db.rows && Claimable(s.db.rows[k], s.db.now) && 1 <= lease
    case Execute(c, _) => c < |s.claims| && s.claims[c].progress.Held?
    case PersistOutcome(c, listing) =>
      && c < |s.claims| && s.claims[c].progress.Reported?
      && IsListing(s.db.rows, s.claims[c].copy.key.event, listing)
    case ReplayRow(k, _, listing) => IsListing(s.db.rows, k.event, listing)
    case RedactBody(i, before) => i < |s.db.attempts| && Redactable(s.db.attempts[i], before)
    case Purge(e, before) => Deletable(s.db, e, before)
    case Crash(c) => c < |s.claims| && s.claims[c].Live()
  }

  function Born(births: map<Key, Birth>, before: map<Key, Row>, after: map<Key, Row>): map<Key, Birth> {
    map k | k in births.Keys + after.Keys ::
      if k in after && k !in before
      then Birth(if k in births then births[k].epoch + 1 else 1, after[k].attempts)
      else if k in births then births[k] else Birth(0, 0)
  }

  /** The database after the outcome of claim `c` is persisted, if the store accepts it. */
  function Written(s: State, c: nat, listing: seq<Key>): Option<Db>
    requires c < |s.claims| && s.claims[c].progress.Reported?
    requires forall k <- listing :: k in s.db.rows
  {
    var copy, o := s.claims[c].copy, s.claims[c].progress.observed;
    Persist(s.db, Executed(copy, o), Deliver(copy, o).attempts, listing)
  }

  ghost function Next(s: State, step: Step): State
    requires Enabled(s, step)
  {
    match step
    case Tick(elapsed) => s.(db := s.db.(now := s.db.now + elapsed))
    case Init(ev, subs, at) =>
      var db := Initialize(s.db, ev, subs, at);
      s.(db := db, births := Born(s.births, s.db.rows, db.rows))
    case ClaimRow(k, owner, lease) =>
      var db := ClaimOne(s.db, k, owner, lease);
      var birth := if k in s.births then s.births[k] else Birth(0, 0);
      s.(db := db, claims := s.claims + [Claim(db.rows[k], birth.epoch, birth.base, Held, false)])
    case Execute(c, o) =>
      s.(claims := s.claims[c := s.claims[c].(progress := Reported(o), called := o.verdict.Called?)])
    case PersistOutcome(c, listing) =>
      var written := Written(s, c, listing);
      if written.Some?
      then s.(db := written.value, claims := s.claims[c := s.claims[c].(progress := Committed)])
      else s.(claims := s.claims[c := s.claims[c].(progress := Lost)])
    case ReplayRow(k, at, listing) =>
      var replayed := Replay(s.db, k, at, listing);
      if replayed.Some? then s.(db := replayed.value) else s
    case RedactBody(i, _) => s.(db := Redact(s.db, i))
    case Purge(e, _) => s.(db := DeleteEvent(s.db, e), purged := s.purged + multiset{e})
    case Crash(c) => s.(claims := s.claims[c := s.claims[c].(progress := Lost)])
  }

  ghost predicate Initial(s: State) {
    && s.db.events == map[] && s.db.rows == map[] && s.db.attempts == []
    && s.claims == [] && s.births == map[] && s.purged == multiset{}
  }

  /** A run: states joined by steps, from an empty store. */
  ghost predicate IsRun(ss: seq<State>, steps: seq<Step>) {
    && |ss| == |steps| + 1
    && Initial(ss[0])
    && forall i :: 0 <= i < |steps| ==> Enabled(ss[i], steps[i]) && ss[i + 1] == Next(ss[i], steps[i])
  }

  /* The lease invariant. */

  /**
   The columns of a row that go together: lease with processing, next time with waiting, delivery time with
   delivered.
   */
  ghost predicate RowShape(k: Key, d: Row) {
    && d.key == k
    && 1 <= d.generation
    && d.maxAttempts != 0
    && (d.status == Processing <==> d.owner.Some?)
    && (d.status == Processing <==> d.deadline.Some?)
    && (d.status in {Retrying, Throttled} ==> d.next.Some?)
    && (d.status in {Delivered, Failed} ==> d.next.None?)
    && (d.status == Delivered <==> d.deliveredAt.Some?)
  }

  ghost predicate RowsOk(s: State) {
    forall k <- s.db.rows :: RowShape(k, s.db.rows[k]) && k.event in s.db.events && k in s.births
  }

  ghost predicate CopyOk(c: Claim) {
    RowShape(c.copy.key, c.copy) && c.copy.status == Processing
  }

  /** The row still carries this claim, and is, column for column, what the worker read. */
  ghost predicate Current(s: State, c: Claim) {
    && c.copy.key in s.db.rows && s.db.rows[c.copy.key] == c.copy
    && c.copy.key in s.births && c.epoch == s.births[c.copy.key].epoch
  }

  /** The lease ran out, and whatever lease the row carries now ends later. */
  ghost predicate Superseded(s: State, c: Claim)
    requires CopyOk(c)
  {
    && c.copy.deadline.value <= s.db.now
    && (c.copy.key in s.db.rows && s.db.rows[c.copy.key].deadline.Some? ==>
          c.copy.deadline.value < s.db.rows[c.copy.key].deadline.value)
  }

  ghost predicate ClaimsOk(s: State) {
    forall i :: 0 <= i < |s.claims| ==>
      CopyOk(s.claims[i]) && (s.claims[i].Live() ==> Current(s, s.claims[i]) || Superseded(s, s.claims[i]))
  }

  /** Two copies of one row, both of which may still be written. */
  predicate SameRow(c: Claim, c': Claim) {
    c.Live() && c'.Live() && c.copy.key == c'.copy.key
  }

  /** Two claims on one row that may both still be written never share a deadline, whoever owns them. */
  ghost predicate DeadlinesDiffer(s: State)
    requires ClaimsOk(s)
  {
    forall i, j :: 0 <= i < j < |s.claims| && SameRow(s.claims[i], s.claims[j]) ==>
      s.claims[i].copy.deadline != s.claims[j].copy.deadline
  }

  ghost predicate Safe(s: State) {
    RowsOk(s) && ClaimsOk(s) && DeadlinesDiffer(s)
  }

  lemma InitialSafe(s: State)
    requires Initial(s)
    ensures Safe(s)
  {
  }

  /** Steps that change at most the clock, the events and the attempt table keep the invariant. */
  lemma QuietSafe(s: State, s': State)
    requires Safe(s)
    requires s'.claims == s.claims && s'.births == s.births && s'.db.rows == s.db.rows
    requires s.db.now <= s'.db.now && s.db.events.Keys <= s'.db.events.Keys
    ensures Safe(s')
  {
  }

  /** What initialization does to rows and births: old ones stay, new ones start pending with their base recorded. */
  lemma {:induction false} InitMeans(s: State, ev: EventInput, subs: seq<Option<Subscription>>, at: Time)
    ensures var s' := Next(s, Init(ev, subs, at));
            && (forall k <- s.db.rows :: k in s'.db.rows && s'.db.rows[k] == s.db.rows[k])
            && (forall k <- s.db.rows :: k in s.births ==> k in s'.births && s'.births[k] == s.births[k])
            && (forall k <- s'.db.rows :: k !in s.db.rows ==>
                  && k.event == ev.id
                  && s'.db.rows[k].status == Pending
                  && RowShape(k, s'.db.rows[k])
                  && s'.db.rows[k].generation == 1
                  && s'.db.rows[k].attempts == ev.attempts
                  && k in s'.births
                  && s'.births[k] == Birth(if k in s.births then s.births[k].epoch + 1 else 1, ev.attempts))
  {
    InsertRowsMeans(s.db.rows, ev, subs, at);
    var s' := Next(s, Init(ev, subs, at));
    forall k | k in s'.db.rows && k !in s.db.rows
      ensures k.event == ev.id && RowShape(k, s'.db.rows[k]) && s'.db.rows[k].status == Pending
      ensures s'.db.rows[k].generation == 1 && s'.db.rows[k].attempts == ev.attempts
    {
      assert Wanted(k, ev, subs);
    }
  }

  lemma {:induction false} InitSafe(s: State, ev: EventInput, subs: seq<Option<Subscription>>, at: Time)
    requires Safe(s)
    ensures Safe(Next(s, Init(ev, subs, at)))
  {
    InitMeans(s, ev, subs, at);
    var s' := Next(s, Init(ev, subs, at));
    assert RowsOk(s');
    forall i | 0 <= i < |s.claims| && s.claims[i].Live()
      ensures Current(s', s.claims[i]) || Superseded(s', s.claims[i])
    {
    }
  }

  lemma {:induction false} ClaimSafe(s: State, k: Key, owner: string, lease: int)
    requires Safe(s) && Enabled(s, ClaimRow(k, owner, lease))
    ensures Safe(Next(s, ClaimRow(k, owner, lease)))
  {
    var s' := Next(s, ClaimRow(k, owner, lease));
    assert Current(s', s'.claims[|s.claims|]);
    forall i | 0 <= i < |s.claims| && s.claims[i].Live()
      ensures Current(s', s.claims[i]) || Superseded(s', s.claims[i])
      ensures s.claims[i].copy.key == k ==> s.claims[i].copy.deadline != s'.db.rows[k].deadline
    {
    }
  }

  /** Changing how far one claim got, towards finished or reported, keeps the invariant. */
  lemma ProgressSafe(s: State, c: nat, progress: Progress, called: bool)
    requires Safe(s) && c < |s.claims| && s.claims[c].Live()
    ensures Safe(s.(claims := s.claims[c := s.claims[c].(progress := progress, called := called)]))
  {
  }

  /** The heart of the fence: a match means the row is exactly the copy, so the write is not stale. */
  lemma FenceMeansCurrent(s: State, c: nat)
    requires Safe(s) && c < |s.claims| && s.claims[c].Live()
    requires Fence(s.db.rows, s.claims[c].copy)
    ensures Current(s, s.claims[c])
    ensures forall j :: 0 <= j < |s.claims| && j != c && SameRow(s.claims[j], s.claims[c]) ==>
              Superseded(s, s.claims[j])
  {
    forall j | 0 <= j < |s.claims| && j != c && SameRow(s.claims[j], s.claims[c])
      ensures Superseded(s, s.claims[j])
    {
      assert s.claims[j].copy.deadline != s.claims[c].copy.deadline;
    }
  }

  /** What an accepted outcome does to the database: one row settled, its attempts appended, its event rewritten. */
  lemma WrittenMeans(s: State, c: nat, listing: seq<Key>)
    requires Safe(s) && Enabled(s, PersistOutcome(c, listing))
    ensures var copy, o := s.claims[c].copy, s.claims[c].progress.observed;
            var k := copy.key;
            var written := Written(s, c, listing);
            && (written.Some? <==> Fence(s.db.rows, copy))
            && (written.Some? ==>
                  && Current(s, s.claims[c])
                  && written.value.now == s.db.now
                  && written.value.rows == s.db.rows[k := Settled(copy, Executed(copy, o))]
                  && written.value.attempts == s.db.attempts + Stamped(Deliver(copy, o).attempts, s.db.now)
                  && written.value.events == s.db.events[k.event :=
                       Projected(s.db.events[k.event], Project(Listed(written.value.rows, listing), s.db.now),
                                 s.db.now)])
  {
    var copy, o := s.claims[c].copy, s.claims[c].progress.observed;
    ExecutedSettles(copy, o);
    if Fence(s.db.rows, copy) {
      FenceMeansCurrent(s, c);
    }
  }

  /**
   Once an outcome is accepted its row is well-formed again, and every other live claim is where it was or
   superseded.
   */
  lemma {:induction false} AcceptedSafe(s: State, c: nat, listing: seq<Key>, j: nat)
    requires Safe(s) && Enabled(s, PersistOutcome(c, listing)) && Written(s, c, listing).Some?
    requires j < |s.claims| && j != c && s.claims[j].Live()
    ensures var s' := Next(s, PersistOutcome(c, listing));
            Current(s', s.claims[j]) || Superseded(s', s.claims[j])
  {
    WrittenMeans(s, c, listing);
    FenceMeansCurrent(s, c);
    if s.claims[j].copy.key == s.claims[c].copy.key {
      assert Superseded(s, s.claims[j]);
    }
  }

  lemma AcceptedRows(s: State, c: nat, listing: seq<Key>)
    requires Safe(s) && Enabled(s, PersistOutcome(c, listing)) && Written(s, c, listing).Some?
    ensures RowsOk(Next(s, PersistOutcome(c, listing)))
  {
    WrittenMeans(s, c, listing);
    var claim := s.claims[c];
    ExecutedSettles(claim.copy, claim.progress.observed);
    assert RowShape(claim.copy.key, Settled(claim.copy, Executed(claim.copy, claim.progress.observed)));
  }

  lemma {:induction false} PersistSafe(s: State, c: nat, listing: seq<Key>)
    requires Safe(s) && Enabled(s, PersistOutcome(c, listing))
    ensures Safe(Next(s, PersistOutcome(c, listing)))
  {
    if Written(s, c, listing).Some? {
      AcceptedRows(s, c, listing);
      forall j | 0 <= j < |s.claims| && j != c && s.claims[j].Live()
        ensures var s' := Next(s, PersistOutcome(c, listing));
                Current(s', s.claims[j]) || Superseded(s', s.claims[j])
      {
        AcceptedSafe(s, c, listing, j);
      }
    } else {
      ProgressSafe(s, c, Lost, s.claims[c].called);
    }
  }

  lemma {:induction false} ReplaySafe(s: State, k: Key, at: Time, listing: seq<Key>)
    requires Safe(s) && Enabled(s, ReplayRow(k, at, listing))
    ensures Safe(Next(s, ReplayRow(k, at, listing)))
  {
    var s' := Next(s, ReplayRow(k, at, listing));
    if s' != s {
      forall i | 0 <= i < |s.claims| && s.claims[i].Live()
        ensures Current(s', s.claims[i]) || Superseded(s', s.claims[i])
      {
      }
    }
  }

  lemma {:induction false} PurgeSafe(s: State, e: string, before: Time)
    requires Safe(s) && Enabled(s, Purge(e, before))
    ensures Safe(Next(s, Purge(e, before)))
  {
    var s' := Next(s, Purge(e, before));
    forall i | 0 <= i < |s.claims| && s.claims[i].Live()
      ensures Current(s', s.claims[i]) || Superseded(s', s.claims[i])
    {
      if Current(s, s.claims[i]) {
        assert s.claims[i].copy.key.event != e;
      }
    }
  }

  lemma StepSafe(s: State, step: Step)
    requires Safe(s) && Enabled(s, step)
    ensures Safe(Next(s, step))
  {
    match step
    case Tick(_) => QuietSafe(s, Next(s, step));
    case Init(ev, subs, at) => InitSafe(s, ev, subs, at);
    case ClaimRow(k, owner, lease) => ClaimSafe(s, k, owner, lease);
    case Execute(c, o) => ProgressSafe(s, c, Reported(o), o.verdict.Called?);
    case PersistOutcome(c, listing) => PersistSafe(s, c, listing);
    case ReplayRow(k, at, listing) => ReplaySafe(s, k, at, listing);
    case RedactBody(_, _) => QuietSafe(s, Next(s, step));
    case Purge(e, before) => PurgeSafe(s, e, before);
    case Crash(c) => ProgressSafe(s, c, Lost, s.claims[c].called);
  }

  lemma {:induction false} RunSafe(ss: seq<State>, steps: seq<Step>, i: nat)
    requires IsRun(ss, steps) && i < |ss|
    ensures Safe(ss[i])
  {
    if i == 0 {
      InitialSafe(ss[0]);
    } else {
      RunSafe(ss, steps, i - 1);
      StepSafe(ss[i - 1], steps[i - 1]);
    }
  }
}
