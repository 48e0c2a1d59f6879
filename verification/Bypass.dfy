/**
 Bounded bypass: the poller's claim takes a prefix of the candidate order, so every poll that passes a
 due row takes its whole limit from the rows ahead of it. Rows get ahead of it later only by lease expiry
 or back-dated times; without those a due row with r rows ahead is claimed within floor(r / n) + 1 polls.
 */
module Bypass {
  import opened Collections
  import opened Domain
  import opened Execution
  import opened Store
  import opened Lease
  import opened Reachability

  function ClaimableKeys(db: Db): set<Key> {
    set k | k in db.rows && Claimable(db.rows[k], db.now)
  }

  /** A poll of the retry scheduler, passing over the rows other transactions have locked, or any other step. */
  datatype Macro =
    | Poll(keys: seq<Key>, locked: set<Key>, limit: nat, owner: string, lease: int)
    | Single(step: Step)

  ghost predicate Allowed(s: State, m: Macro) {
    match m
    case Poll(keys, locked, limit, _, lease) => 1 <= lease && IsPick(PollWeights(s.db, locked), limit, keys)
    case Single(step) => Enabled(s, step)
  }

  ghost function After(s: State, m: Macro): State
    requires Allowed(s, m)
  {
    match m
    case Poll(keys, _, _, owner, lease) => ClaimEach(s, keys, owner, lease)
    case Single(step) => Next(s, step)
  }

  /** The claimable rows the order may serve before `r`. */
  ghost function Ahead(s: State, r: Key): set<Key> {
    if r !in s.db.rows then {}
    else set k | k in ClaimableKeys(s.db) && k != r && !Before(s.db.rows[r], s.db.rows[k])
  }

  ghost predicate Due(s: State, r: Key) {
    r in s.db.rows && Claimable(s.db.rows[r], s.db.now)
  }

  /** `r` is claimable and was already due at an earlier instant. */
  ghost predicate Overdue(s: State, r: Key) {
    Due(s, r) && SortKey(s.db.rows[r]) < s.db.now
  }

  /** No lease of a row ahead of `r` runs out in this step, and nothing is scheduled or created in the past. */
  ghost predicate Punctual(s: State, m: Macro, r: Key)
    requires r in s.db.rows && Allowed(s, m)
  {
    match m
    case Single(Tick(elapsed)) =>
      forall k <- s.db.rows :: s.db.rows[k].status == Processing && s.db.rows[k].deadline.Some?
                               && s.db.now < s.db.rows[k].deadline.value <= s.db.now + elapsed ==>
        Before(s.db.rows[r], s.db.rows[k])
    case Single(Init(_, _, at)) => s.db.now <= at
    case Single(ReplayRow(_, at, _)) => s.db.now <= at
    case Single(PersistOutcome(c, _)) =>
      var next := Executed(s.claims[c].copy, s.claims[c].progress.observed).next;
      next.Some? ==> s.db.now <= next.value
    case _ => true
  }

  /** The row of `r` has been claimed, or settled by the worker that held it. */
  ghost predicate Served(s: State, s': State, r: Key)
    requires r in s.db.rows
  {
    r !in s'.db.rows || s'.db.rows[r] != s.db.rows[r]
  }

  /** A row that waits for a claim, rather than for its lease to run out, is served only by a claim. */
  lemma WaitingServedByClaim(s: State, step: Step, r: Key)
    requires Safe(s) && Enabled(s, step) && r in s.db.rows && s.db.rows[r].status in {Pending, Retrying, Throttled}
    requires Served(s, Next(s, step), r)
    ensures step.ClaimRow? && step.key == r && r in Next(s, step).db.rows
    ensures Next(s, step).db.rows[r].status == Processing
  {
    match step
    case Init(ev, subs, at) => InitMeans(s, ev, subs, at);
    case PersistOutcome(c, listing) => WrittenMeans(s, c, listing);
    case _ =>
  }

  /** A step other than a poll lets no row overtake `r`. */
  lemma {:induction false} SingleKeepsOrder(s: State, step: Step, r: Key, k: Key)
    requires Safe(s) && Enabled(s, step) && Overdue(s, r) && Punctual(s, Single(step), r)
    requires !Served(s, Next(s, step), r) && k in Ahead(Next(s, step), r)
    ensures k in Ahead(s, r)
  {
    var s' := Next(s, step);
    assert k in s'.db.rows && Claimable(s'.db.rows[k], s'.db.now);
    match step
    case Init(ev, subs, at) =>
      InitMeans(s, ev, subs, at);
      InsertRowsMeans(s.db.rows, ev, subs, at);
    case PersistOutcome(c, listing) =>
      WrittenMeans(s, c, listing);
      ExecutedSettles(s.claims[c].copy, s.claims[c].progress.observed);
    case _ =>
  }

  /** A poll that does not serve `r` takes its whole limit from the rows ahead of it, and puts none there. */
  lemma {:induction false} PollShortensQueue(s: State, m: Macro, r: Key)
    requires Safe(s) && m.Poll? && Allowed(s, m) && Due(s, r) && r !in m.locked
    requires !Served(s, After(s, m), r)
    ensures Due(After(s, m), r) && After(s, m).db.now == s.db.now
    ensures Ahead(After(s, m), r) <= Ahead(s, r) && |Ahead(After(s, m), r)| + m.limit <= |Ahead(s, r)|
  {
    var s' := After(s, m);
    var taken := Elements(m.keys);
    assert s'.db == ClaimAll(s.db, m.keys, m.owner, m.lease);
    assert r !in m.keys;
    assert r in PollWeights(s.db, m.locked);
    assert |m.keys| == m.limit;
    ElementsSize(m.keys);
    assert taken <= Ahead(s, r);
    assert Ahead(s', r) <= Ahead(s, r) - taken;
    SubsetSize(Ahead(s', r), Ahead(s, r) - taken);
  }

  function Polls(ms: seq<Macro>): nat {
    if ms == [] then 0 else Polls(ms[..|ms| - 1]) + (if ms[|ms| - 1].Poll? then 1 else 0)
  }

  /** One step that does not serve `r`, a poll taking at least `n` rows and seeing `r`. */
  ghost predicate Passes(s: State, m: Macro, s': State, r: Key, n: nat) {
    && r in s.db.rows
    && Allowed(s, m)
    && s' == After(s, m)
    && !Served(s, s', r)
    && (m.Poll? ==> n <= m.limit && r !in m.locked)
  }

  /** A stretch of a run during which `r` is due and not served. */
  ghost predicate Passed(ss: seq<State>, ms: seq<Macro>, r: Key, n: nat) {
    && |ss| == |ms| + 1
    && Safe(ss[0]) && Due(ss[0], r)
    && forall i :: 0 <= i < |ms| ==> Passes(ss[i], ms[i], ss[i + 1], r, n)
  }

  /** The rows that got ahead of `r` in the first `n` steps, counted each time they did. */
  ghost function Overtakers(ss: seq<State>, r: Key, n: nat): nat
    requires n < |ss|
  {
    if n == 0 then 0 else Overtakers(ss, r, n - 1) + |Ahead(ss[n], r) - Ahead(ss[n - 1], r)|
  }

  lemma SingleStaysDue(s: State, step: Step, r: Key)
    requires Enabled(s, step) && Due(s, r) && !Served(s, Next(s, step), r)
    ensures Due(Next(s, step), r) && s.db.now <= Next(s, step).db.now
  {
  }

  lemma {:induction false} MacroShrinksQueue(s: State, m: Macro, s': State, r: Key, n: nat)
    requires Safe(s) && Due(s, r) && Passes(s, m, s', r, n)
    ensures Safe(s') && Due(s', r) && s.db.now <= s'.db.now
    ensures |Ahead(s', r)| + (if m.Poll? then n else 0) <= |Ahead(s, r)| + |Ahead(s', r) - Ahead(s, r)|
  {
    match m
    case Poll(keys, _, _, owner, lease) =>
      ClaimEachSafe(s, keys, owner, lease);
      PollShortensQueue(s, m, r);
    case Single(step) =>
      StepSafe(s, step);
      SingleStaysDue(s, step, r);
      GrowthSize(Ahead(s', r), Ahead(s, r));
  }

  lemma GrowthSize(a: set<Key>, b: set<Key>)
    ensures |a| <= |b| + |a - b|
  {
    SubsetSize(a, b + (a - b));
  }

  /**
   The accounting of the queue, with no assumption on clocks or leases: in any stretch of a run in which a
   due row is not served, the rows ahead of it at the end and `n` for every poll that passed it come out of
   the rows ahead of it at the start and those that got ahead of it in between.
   */
  lemma {:induction false} QueueAccounted(ss: seq<State>, ms: seq<Macro>, r: Key, n: nat, i: nat)
    requires Passed(ss, ms, r, n) && i <= |ms|
    ensures Safe(ss[i]) && Due(ss[i], r) && ss[0].db.now <= ss[i].db.now
    ensures |Ahead(ss[i], r)| + n * Polls(ms[..i]) <= |Ahead(ss[0], r)| + Overtakers(ss, r, i)
  {
    if i > 0 {
      QueueAccounted(ss, ms, r, n, i - 1);
      assert Passes(ss[i - 1], ms[i - 1], ss[i], r, n);
      AccountNext(ss[i - 1], ms, ss[i], r, n, i - 1, |Ahead(ss[0], r)| + Overtakers(ss, r, i - 1));
    }
  }

  lemma AccountNext(s: State, ms: seq<Macro>, s': State, r: Key, n: nat, i: nat, total: nat)
    requires i < |ms| && Safe(s) && Due(s, r) && Passes(s, ms[i], s', r, n)
    requires |Ahead(s, r)| + n * Polls(ms[..i]) <= total
    ensures Safe(s') && Due(s', r) && s.db.now <= s'.db.now
    ensures |Ahead(s', r)| + n * Polls(ms[..i + 1]) <= total + |Ahead(s', r) - Ahead(s, r)|
  {
    MacroShrinksQueue(s, ms[i], s', r, n);
    PollsExtend(ms, n, i);
  }

  lemma PollsExtend(ms: seq<Macro>, n: nat, i: nat)
    requires i < |ms|
    ensures n * Polls(ms[..i + 1]) == n * Polls(ms[..i]) + if ms[i].Poll? then n else 0
  {
    assert ms[..i + 1][..i] == ms[..i];
  }

  /** Every step of the stretch is punctual. */
  ghost predicate AllPunctual(ss: seq<State>, ms: seq<Macro>, r: Key, n: nat)
    requires Passed(ss, ms, r, n)
  {
    forall i :: 0 <= i < |ms| ==> Passes(ss[i], ms[i], ss[i + 1], r, n) && Punctual(ss[i], ms[i], r)
  }

  lemma RowUnchanged(ss: seq<State>, ms: seq<Macro>, r: Key, n: nat, i: nat)
    requires Passed(ss, ms, r, n) && i <= |ms|
    ensures r in ss[i].db.rows && ss[i].db.rows[r] == ss[0].db.rows[r]
  {
    if i > 0 {
      RowUnchanged(ss, ms, r, n, i - 1);
      assert Passes(ss[i - 1], ms[i - 1], ss[i], r, n);
    }
  }

  lemma {:induction false} StepOvertakesNone(s: State, m: Macro, s': State, r: Key, n: nat)
    requires Safe(s) && Overdue(s, r) && Passes(s, m, s', r, n) && Punctual(s, m, r)
    ensures Ahead(s', r) - Ahead(s, r) == {}
  {
    match m
    case Poll(_, _, _, _, _) => PollShortensQueue(s, m, r);
    case Single(step) =>
      forall k | k in Ahead(s', r)
        ensures k in Ahead(s, r)
      {
        SingleKeepsOrder(s, step, r, k);
      }
  }

  /** In a punctual stretch nothing gets ahead of an overdue row. */
  lemma {:induction false} NoOvertakers(ss: seq<State>, ms: seq<Macro>, r: Key, n: nat, i: nat)
    requires Passed(ss, ms, r, n) && AllPunctual(ss, ms, r, n) && Overdue(ss[0], r) && i <= |ms|
    ensures Overtakers(ss, r, i) == 0
  {
    if i > 0 {
      NoOvertakers(ss, ms, r, n, i - 1);
      PunctualAt(ss, ms, r, n, i - 1);
    }
  }

  lemma {:induction false} PunctualAt(ss: seq<State>, ms: seq<Macro>, r: Key, n: nat, i: nat)
    requires Passed(ss, ms, r, n) && AllPunctual(ss, ms, r, n) && Overdue(ss[0], r) && i < |ms|
    ensures Ahead(ss[i + 1], r) - Ahead(ss[i], r) == {}
  {
    QueueAccounted(ss, ms, r, n, i);
    RowUnchanged(ss, ms, r, n, i);
    StepOvertakesNone(ss[i], ms[i], ss[i + 1], r, n);
  }

  /**
   Bounded bypass: in any stretch of a run without back-dating and without lease expiry ahead of `r`,
   polls of at least `n` rows that keep passing an overdue row number at most floor(ahead / n), so it
   is served by poll floor(ahead / n) + 1 at the latest.
   */
  lemma {:induction false} BoundedBypass(ss: seq<State>, ms: seq<Macro>, r: Key, n: nat)
    requires 1 <= n && Passed(ss, ms, r, n) && AllPunctual(ss, ms, r, n) && Overdue(ss[0], r)
    ensures Polls(ms) < |Ahead(ss[0], r)| / n + 1
  {
    QueueAccounted(ss, ms, r, n, |ms|);
    NoOvertakers(ss, ms, r, n, |ms|);
    assert ms[..|ms|] == ms;
    DivideBound(|Ahead(ss[0], r)|, n, Polls(ms));
  }

  lemma DivideBound(a: nat, n: nat, p: nat)
    requires 1 <= n && n * p <= a
    ensures p <= a / n
  {
    assert a == n * (a / n) + a % n;
    assert n * p < n * (a / n + 1);
  }
}
