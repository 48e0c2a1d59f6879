/**
 The attempt history of a row is exact, and the number of HTTP calls is bounded: over every run of
 the lease protocol the committed attempt numbers of each generation count up from the base with no
 gap and no repeat, and a receiver is called at most once more per claim that never committed.
 */
module History {
  import opened Domain
  import opened Execution
  import opened Store
  import opened Lease

  /** The attempt numbers recorded for one row and generation, in table order. */
  function Numbers(attempts: seq<AttemptRow>, k: Key, g: int): seq<int> {
    if attempts == [] then []
    else
      var a := attempts[|attempts| - 1];
      Numbers(attempts[..|attempts| - 1], k, g) + (if a.key == k && a.generation == g then [a.number] else [])
  }

  lemma {:induction false} NumbersAppend(attempts: seq<AttemptRow>, more: seq<AttemptRow>, k: Key, g: int)
    ensures Numbers(attempts + more, k, g) == Numbers(attempts, k, g) + Numbers(more, k, g)
  {
    if more == [] {
      assert attempts + more == attempts;
    } else {
      NumbersAppend(attempts, more[..|more| - 1], k, g);
      assert (attempts + more)[..|attempts + more| - 1] == attempts + more[..|more| - 1];
    }
  }

  /** Deleting an event takes exactly its own rows' history. */
  lemma {:induction false} NumbersWithoutEvent(attempts: seq<AttemptRow>, e: string, k: Key, g: int)
    ensures Numbers(WithoutEvent(attempts, e), k, g) == if k.event == e then [] else Numbers(attempts, k, g)
  {
    if attempts != [] {
      var front, a := attempts[..|attempts| - 1], attempts[|attempts| - 1];
      NumbersWithoutEvent(front, e, k, g);
      if a.key.event != e {
        NumbersAppend(WithoutEvent(front, e), [a], k, g);
        assert [a][..0] == [];
        assert Numbers([a], k, g) == if a.key == k && a.generation == g then [a.number] else [];
      } else {
        assert WithoutEvent(attempts, e) == WithoutEvent(front, e);
      }
    }
  }

  /** Redacting a body leaves the history readable. */
  lemma {:induction false} NumbersRedact(attempts: seq<AttemptRow>, i: nat, k: Key, g: int)
    requires i < |attempts|
    ensures Numbers(attempts[i := attempts[i].(body := None)], k, g) == Numbers(attempts, k, g)
  {
    var redacted := attempts[i := attempts[i].(body := None)];
    var n := |attempts| - 1;
    if i < n {
      NumbersRedact(attempts[..n], i, k, g);
      assert redacted[..n] == attempts[..n][i := attempts[..n][i].(body := None)];
    } else {
      assert redacted[..n] == attempts[..n];
    }
  }

  /* Counting claims */

  datatype Which = All | CommittedOnly | UncommittedOnly

  /** A claim on incarnation `n`, generation `g` of row `k` under which the receiver was called. */
  predicate Counts(c: Claim, k: Key, n: nat, g: int, which: Which) {
    && c.copy.key == k && c.epoch == n && c.copy.generation == g && c.called
    && (which == CommittedOnly ==> c.progress == Committed)
    && (which == UncommittedOnly ==> c.progress != Committed)
  }

  function Calls(claims: seq<Claim>, k: Key, n: nat, g: int, which: Which): nat {
    if claims == [] then 0
    else Calls(claims[..|claims| - 1], k, n, g, which) +
         (if Counts(claims[|claims| - 1], k, n, g, which) then 1 else 0)
  }

  lemma {:induction false} CallsUpdate(claims: seq<Claim>, i: nat, c: Claim, k: Key, n: nat, g: int, which: Which)
    requires i < |claims|
    ensures Calls(claims[i := c], k, n, g, which) + (if Counts(claims[i], k, n, g, which) then 1 else 0)
            == Calls(claims, k, n, g, which) + (if Counts(c, k, n, g, which) then 1 else 0)
  {
    var last := |claims| - 1;
    if i < last {
      CallsUpdate(claims[..last], i, c, k, n, g, which);
      assert claims[i := c][..last] == claims[..last][i := c];
    } else {
      assert claims[i := c][..last] == claims[..last];
    }
  }

  lemma {:induction false} CallsSplit(claims: seq<Claim>, k: Key, n: nat, g: int)
    ensures Calls(claims, k, n, g, All) ==
            Calls(claims, k, n, g, CommittedOnly) + Calls(claims, k, n, g, UncommittedOnly)
  {
    if claims != [] {
      CallsSplit(claims[..|claims| - 1], k, n, g);
    }
  }

  lemma {:induction false} NoCallsYet(claims: seq<Claim>, k: Key, n: nat, g: int, which: Which)
    requires forall c <- claims :: c.copy.key == k ==> c.epoch < n
    ensures Calls(claims, k, n, g, which) == 0
  {
    if claims != [] {
      var front := claims[..|claims| - 1];
      assert forall c <- front :: c in claims;
      NoCallsYet(front, k, n, g, which);
    }
  }

  /* The invariant */

  /** The count a generation starts from: the message's for the first, zero after a replay. */
  function Base(s: State, k: Key, g: int): int
    requires k in s.births
  {
    if g == 1 then s.births[k].base else 0
  }

  function Larger(a: int, b: int): int {
    if a < b then b else a
  }

  /** The recorded numbers are base+1, base+2, ... */
  predicate CountsUp(ns: seq<int>, base: int) {
    forall i :: 0 <= i < |ns| ==> ns[i] == base + 1 + i
  }

  /** The history of generation `g` of row `k` is exact, within its limit, and matches the committed calls. */
  ghost predicate Exact(s: State, k: Key, g: int)
    requires k in s.db.rows && k in s.births
  {
    var d, ns, base := s.db.rows[k], Numbers(s.db.attempts, k, g), Base(s, k, g);
    && CountsUp(ns, base)
    && (g == d.generation ==> base + |ns| == d.attempts)
    && (g < 1 || d.generation < g ==> ns == [])
    && base + |ns| <= Larger(d.maxAttempts, base + 1)
    && Calls(s.claims, k, s.births[k].epoch, g, CommittedOnly) == |ns|
  }

  /** An open row has attempts left, or has not been tried in this generation. */
  ghost predicate HasTries(s: State, k: Key)
    requires k in s.db.rows && k in s.births
  {
    var d := s.db.rows[k];
    Terminal(d.status) || d.attempts == Base(s, k, d.generation) || d.attempts < d.maxAttempts
  }

  ghost predicate HistoryOk(s: State)
    requires Safe(s)
  {
    && (forall k <- s.db.rows :: HasTries(s, k))
    && (forall k, g :: k in s.db.rows ==> Exact(s, k, g))
    && (forall k, g :: k !in s.db.rows ==> Numbers(s.db.attempts, k, g) == [])
    && (forall c <- s.claims :: c.copy.key in s.births && c.epoch <= s.births[c.copy.key].epoch)
  }

  /** If rows, births, recorded numbers and committed calls of `k` stay, so does the exactness of its history. */
  lemma SameExact(s: State, s': State, k: Key, g: int)
    requires k in s.db.rows && k in s.births && Exact(s, k, g)
    requires k in s'.db.rows && k in s'.births && s'.births[k] == s.births[k]
    requires s'.db.rows[k].generation == s.db.rows[k].generation
    requires s'.db.rows[k].attempts == s.db.rows[k].attempts
    requires s'.db.rows[k].maxAttempts == s.db.rows[k].maxAttempts
    requires Numbers(s'.db.attempts, k, g) == Numbers(s.db.attempts, k, g)
    requires Calls(s'.claims, k, s.births[k].epoch, g, CommittedOnly)
             == Calls(s.claims, k, s.births[k].epoch, g, CommittedOnly)
    ensures Exact(s', k, g)
  {
  }

  /** A row just inserted has no history. */
  lemma NewExact(s: State, s': State, k: Key, g: int)
    requires Safe(s) && HistoryOk(s) && k !in s.db.rows && s'.claims == s.claims && s'.db.attempts == s.db.attempts
    requires k in s'.db.rows && k in s'.births
    requires s'.births[k] == Birth(if k in s.births then s.births[k].epoch + 1 else 1, s'.db.rows[k].attempts)
    requires s'.db.rows[k].generation == 1
    ensures Exact(s', k, g)
  {
    NoCallsYet(s.claims, k, s'.births[k].epoch, g, CommittedOnly);
  }

  lemma {:induction false} InitHistory(s: State, ev: EventInput, subs: seq<Option<Subscription>>, at: Time)
    requires Safe(s) && HistoryOk(s)
    requires Safe(Next(s, Init(ev, subs, at)))
    ensures HistoryOk(Next(s, Init(ev, subs, at)))
  {
    var s' := Next(s, Init(ev, subs, at));
    InitMeans(s, ev, subs, at);
    forall k, g | k in s'.db.rows
      ensures Exact(s', k, g)
    {
      if k in s.db.rows {
        SameExact(s, s', k, g);
      } else {
        NewExact(s, s', k, g);
      }
    }
    forall c | c in s.claims
      ensures c.copy.key in s'.births && c.epoch <= s'.births[c.copy.key].epoch
    {
    }
  }

  lemma {:induction false} ClaimHistory(s: State, k: Key, owner: string, lease: int)
    requires Safe(s) && HistoryOk(s) && Enabled(s, ClaimRow(k, owner, lease))
    requires Safe(Next(s, ClaimRow(k, owner, lease)))
    ensures HistoryOk(Next(s, ClaimRow(k, owner, lease)))
  {
    var s' := Next(s, ClaimRow(k, owner, lease));
    assert s'.claims[..|s.claims|] == s.claims;
    forall j, g | j in s'.db.rows
      ensures Exact(s', j, g)
    {
      SameExact(s, s', j, g);
    }
    assert HasTries(s, k);
  }

  /** Moving an uncommitted claim along, without committing it, records nothing. */
  lemma {:induction false} ProgressHistory(s: State, c: nat, progress: Progress, called: bool)
    requires Safe(s) && HistoryOk(s) && c < |s.claims| && s.claims[c].Live() && progress != Committed
    requires Safe(s.(claims := s.claims[c := s.claims[c].(progress := progress, called := called)]))
    ensures HistoryOk(s.(claims := s.claims[c := s.claims[c].(progress := progress, called := called)]))
  {
    var claim := s.claims[c].(progress := progress, called := called);
    var s' := s.(claims := s.claims[c := claim]);
    forall k, g | k in s'.db.rows
      ensures Exact(s', k, g)
    {
      CallsUpdate(s.claims, c, claim, k, s.births[k].epoch, g, CommittedOnly);
      SameExact(s, s', k, g);
    }
    assert forall k <- s.db.rows :: HasTries(s, k);
  }

  /** What a commit records: nothing for a refused attempt, otherwise the next number of the row's generation. */
  lemma {:induction false} CommitNumbers(s: State, c: nat, listing: seq<Key>, k: Key, g: int)
    requires Safe(s) && Enabled(s, PersistOutcome(c, listing)) && Written(s, c, listing).Some?
    ensures var copy := s.claims[c].copy;
            var s' := Next(s, PersistOutcome(c, listing));
            Numbers(s'.db.attempts, k, g) ==
            Numbers(s.db.attempts, k, g) +
            (if k == copy.key && g == copy.generation && s.claims[c].progress.observed.verdict.Called?
             then [copy.attempts + 1] else [])
  {
    WrittenMeans(s, c, listing);
    var copy, o := s.claims[c].copy, s.claims[c].progress.observed;
    var made := Stamped(Deliver(copy, o).attempts, s.db.now);
    NumbersAppend(s.db.attempts, made, k, g);
    if o.verdict.Called? {
      assert made == [AttemptOf(copy, o.verdict.http, o.at).(created := s.db.now)];
      assert made[..0] == [];
    } else {
      assert made == [];
    }
  }

  /** A reported claim is marked called exactly when the receiver was called. */
  ghost predicate CalledAsReported(s: State) {
    forall c <- s.claims :: (c.progress.Held? ==> !c.called)
                         && (c.progress.Reported? ==> (c.called <==> c.progress.observed.verdict.Called?))
  }

  ghost predicate Recorded(s: State) {
    Safe(s) && HistoryOk(s) && CalledAsReported(s)
  }

  /** What a commit does to the rows: only its own row moves, by one attempt if a call was made. */
  lemma CommitRow(s: State, c: nat, listing: seq<Key>, k: Key)
    requires Safe(s) && Enabled(s, PersistOutcome(c, listing)) && Written(s, c, listing).Some?
    requires k in s.db.rows
    ensures var d, s' := s.db.rows[k], Next(s, PersistOutcome(c, listing));
            var called := k == s.claims[c].copy.key && s.claims[c].progress.observed.verdict.Called?;
            && s'.births == s.births
            && k in s'.db.rows
            && s'.db.rows[k].generation == d.generation
            && s'.db.rows[k].maxAttempts == d.maxAttempts
            && s'.db.rows[k].attempts == d.attempts + (if called then 1 else 0)
            && (Terminal(s'.db.rows[k].status) ||
                (if called then d.attempts + 1 < d.maxAttempts else !Terminal(d.status)))
            && 1 <= d.generation && (called ==> !Terminal(d.status))
    ensures k == s.claims[c].copy.key ==>
              Current(s, s.claims[c]) && s.db.rows[k] == s.claims[c].copy && s.claims[c].epoch == s.births[k].epoch
  {
    WrittenMeans(s, c, listing);
    ExecutedSettles(s.claims[c].copy, s.claims[c].progress.observed);
  }

  /** What a commit adds to the committed calls of a row. */
  lemma CommitCalls(s: State, c: nat, listing: seq<Key>, k: Key, g: int)
    requires Safe(s) && Enabled(s, PersistOutcome(c, listing)) && Written(s, c, listing).Some?
    requires s.claims[c].called <==> s.claims[c].progress.observed.verdict.Called?
    requires k in s.db.rows && k in s.births
    ensures var copy, n := s.claims[c].copy, s.births[k].epoch;
            Calls(Next(s, PersistOutcome(c, listing)).claims, k, n, g, CommittedOnly)
            == Calls(s.claims, k, n, g, CommittedOnly) +
               (if k == copy.key && g == s.db.rows[k].generation && s.claims[c].progress.observed.verdict.Called?
                then 1 else 0)
  {
    CommitRow(s, c, listing, k);
    CallsUpdate(s.claims, c, s.claims[c].(progress := Committed), k, s.births[k].epoch, g, CommittedOnly);
  }

  /** One more committed call on an open row, recorded under the next number, keeps its history exact. */
  lemma NextExact(s: State, s': State, k: Key, g: int, called: bool)
    requires k in s.db.rows && k in s.births && Exact(s, k, g) && HasTries(s, k)
    requires 1 <= s.db.rows[k].generation && (called ==> !Terminal(s.db.rows[k].status))
    requires k in s'.db.rows && k in s'.births && s'.births[k] == s.births[k]
    requires var d, d' := s.db.rows[k], s'.db.rows[k];
             && d'.generation == d.generation && d'.maxAttempts == d.maxAttempts
             && d'.attempts == d.attempts + (if called then 1 else 0)
             && (Terminal(d'.status) || (if called then d.attempts + 1 < d.maxAttempts else !Terminal(d.status)))
    requires var more := called && g == s.db.rows[k].generation;
             && Numbers(s'.db.attempts, k, g) ==
                Numbers(s.db.attempts, k, g) + (if more then [s.db.rows[k].attempts + 1] else [])
             && Calls(s'.claims, k, s.births[k].epoch, g, CommittedOnly)
                == Calls(s.claims, k, s.births[k].epoch, g, CommittedOnly) + (if more then 1 else 0)
    ensures Exact(s', k, g) && HasTries(s', k)
  {
  }

  lemma {:induction false} CommitExact(s: State, c: nat, listing: seq<Key>, k: Key, g: int)
    requires Safe(s) && Enabled(s, PersistOutcome(c, listing)) && Written(s, c, listing).Some?
    requires s.claims[c].called <==> s.claims[c].progress.observed.verdict.Called?
    requires k in s.db.rows && k in s.births && Exact(s, k, g) && HasTries(s, k)
    ensures var s' := Next(s, PersistOutcome(c, listing));
            k in s'.db.rows && k in s'.births && Exact(s', k, g) && HasTries(s', k)
  {
    CommitRow(s, c, listing, k);
    CommitNumbers(s, c, listing, k, g);
    CommitCalls(s, c, listing, k, g);
    var s' := Next(s, PersistOutcome(c, listing));
    var called := s.claims[c].progress.observed.verdict.Called?;
    if k == s.claims[c].copy.key {
      NextExact(s, s', k, g, called);
    } else {
      NextExact(s, s', k, g, false);
    }
  }

  lemma {:induction false} CommitHistory(s: State, c: nat, listing: seq<Key>)
    requires Recorded(s) && Enabled(s, PersistOutcome(c, listing)) && Written(s, c, listing).Some?
    requires Safe(Next(s, PersistOutcome(c, listing)))
    ensures HistoryOk(Next(s, PersistOutcome(c, listing)))
  {
    WrittenMeans(s, c, listing);
    var s' := Next(s, PersistOutcome(c, listing));
    forall k, g | k in s'.db.rows
      ensures Exact(s', k, g) && HasTries(s', k)
    {
      CommitExact(s, c, listing, k, g);
    }
    forall k | k in s'.db.rows
      ensures HasTries(s', k)
    {
      CommitExact(s, c, listing, k, 1);
    }
    forall k, g | k !in s'.db.rows
      ensures Numbers(s'.db.attempts, k, g) == []
    {
      CommitNumbers(s, c, listing, k, g);
    }
  }

  lemma {:induction false} ReplayHistory(s: State, k: Key, at: Time, listing: seq<Key>)
    requires Safe(s) && HistoryOk(s) && Enabled(s, ReplayRow(k, at, listing))
    requires Safe(Next(s, ReplayRow(k, at, listing)))
    ensures HistoryOk(Next(s, ReplayRow(k, at, listing)))
  {
    var s' := Next(s, ReplayRow(k, at, listing));
    if s' != s {
      forall j, g | j in s'.db.rows
        ensures Exact(s', j, g)
      {
        ReplayExact(s, k, at, listing, j, g);
      }
      assert forall j <- s.db.rows :: HasTries(s, j);
    }
  }

  lemma ReplayExact(s: State, k: Key, at: Time, listing: seq<Key>, j: Key, g: int)
    requires Safe(s) && HistoryOk(s) && Enabled(s, ReplayRow(k, at, listing))
    requires Replay(s.db, k, at, listing).Some? && j in s.db.rows
    ensures var s' := Next(s, ReplayRow(k, at, listing));
            j in s'.db.rows && j in s'.births && Exact(s', j, g)
  {
    assert Exact(s, j, g);
    if j != k {
      SameExact(s, Next(s, ReplayRow(k, at, listing)), j, g);
    }
  }

  lemma {:induction false} PurgeHistory(s: State, e: string, before: Time)
    requires Safe(s) && HistoryOk(s) && Enabled(s, Purge(e, before))
    requires Safe(Next(s, Purge(e, before)))
    ensures HistoryOk(Next(s, Purge(e, before)))
  {
    var s' := Next(s, Purge(e, before));
    forall k, g
      ensures k in s'.db.rows ==> Exact(s', k, g)
      ensures k !in s'.db.rows ==> Numbers(s'.db.attempts, k, g) == []
    {
      NumbersWithoutEvent(s.db.attempts, e, k, g);
      if k in s'.db.rows {
        SameExact(s, s', k, g);
      }
    }
    assert forall k <- s.db.rows :: HasTries(s, k);
  }

  /** Steps that touch neither rows, claims nor births, and keep every recorded number. */
  lemma {:induction false} QuietHistory(s: State, s': State)
    requires Safe(s) && HistoryOk(s) && Safe(s')
    requires s'.claims == s.claims && s'.births == s.births && s'.db.rows == s.db.rows
    requires forall k, g :: Numbers(s'.db.attempts, k, g) == Numbers(s.db.attempts, k, g)
    ensures HistoryOk(s')
  {
    forall k, g | k in s'.db.rows
      ensures Exact(s', k, g)
    {
      SameExact(s, s', k, g);
    }
    assert forall k <- s.db.rows :: HasTries(s, k);
  }

  lemma {:induction false} RedactHistory(s: State, i: nat, before: Time)
    requires Safe(s) && HistoryOk(s) && Enabled(s, RedactBody(i, before)) && Safe(Next(s, RedactBody(i, before)))
    ensures HistoryOk(Next(s, RedactBody(i, before)))
  {
    forall k, g
      ensures Numbers(Redact(s.db, i).attempts, k, g) == Numbers(s.db.attempts, k, g)
    {
      NumbersRedact(s.db.attempts, i, k, g);
    }
    QuietHistory(s, Next(s, RedactBody(i, before)));
  }

  lemma {:induction false} PersistHistory(s: State, c: nat, listing: seq<Key>)
    requires Recorded(s) && Enabled(s, PersistOutcome(c, listing)) && Safe(Next(s, PersistOutcome(c, listing)))
    ensures HistoryOk(Next(s, PersistOutcome(c, listing)))
  {
    if Written(s, c, listing).Some? {
      CommitHistory(s, c, listing);
    } else {
      ProgressHistory(s, c, Lost, s.claims[c].called);
    }
  }

  lemma StepCalled(s: State, step: Step)
    requires CalledAsReported(s) && Enabled(s, step)
    ensures CalledAsReported(Next(s, step))
  {
  }

  lemma {:induction false} StepRecorded(s: State, step: Step)
    requires Recorded(s) && Enabled(s, step)
    ensures Recorded(Next(s, step))
  {
    StepSafe(s, step);
    StepCalled(s, step);
    StepHistory(s, step);
  }

  lemma {:induction false} StepHistory(s: State, step: Step)
    requires Recorded(s) && Enabled(s, step) && Safe(Next(s, step))
    ensures HistoryOk(Next(s, step))
  {
    match step
    case Tick(_) => QuietHistory(s, Next(s, step));
    case Init(ev, subs, at) => InitHistory(s, ev, subs, at);
    case ClaimRow(k, owner, lease) => ClaimHistory(s, k, owner, lease);
    case Execute(c, o) => ProgressHistory(s, c, Reported(o), o.verdict.Called?);
    case PersistOutcome(c, listing) => PersistHistory(s, c, listing);
    case ReplayRow(k, at, listing) => ReplayHistory(s, k, at, listing);
    case RedactBody(i, before) => RedactHistory(s, i, before);
    case Purge(e, before) => PurgeHistory(s, e, before);
    case Crash(c) => ProgressHistory(s, c, Lost, s.claims[c].called);
  }

  lemma {:induction false} RunRecorded(ss: seq<State>, steps: seq<Step>, i: nat)
    requires IsRun(ss, steps) && i < |ss|
    ensures Recorded(ss[i])
  {
    if i == 0 {
      InitialSafe(ss[0]);
    } else {
      RunRecorded(ss, steps, i - 1);
      StepRecorded(ss[i - 1], steps[i - 1]);
    }
  }

  /**
   Attempt history is exact: in every reachable state the committed attempt numbers of a row, in each
   of its generations, are base+1..base+n with no gap or repeat; for the current generation the last
   one is the row's attempt count; other generations have none.
   */
  lemma {:induction false} AttemptHistoryExact(ss: seq<State>, steps: seq<Step>, i: nat, k: Key, g: int)
    requires IsRun(ss, steps) && i < |ss| && k in ss[i].db.rows
    ensures k in ss[i].births
    ensures var d, ns := ss[i].db.rows[k], Numbers(ss[i].db.attempts, k, g);
            var base := if g == 1 then ss[i].births[k].base else 0;
            && (forall m :: 0 <= m < |ns| ==> ns[m] == base + 1 + m)
            && (g == d.generation ==> d.attempts == base + |ns|)
            && (!(1 <= g <= d.generation) ==> ns == [])
  {
    RunRecorded(ss, steps, i);
    assert Exact(ss[i], k, g);
  }

  /**
   Duplicate calls: the calls ever made in one generation of a row are its committed attempts plus
   the calls under claims that have not committed; the committed ones never exceed the limit (or one,
   when the generation starts at or past it).
   */
  lemma {:induction false} CallsBounded(ss: seq<State>, steps: seq<Step>, i: nat, k: Key, g: int)
    requires IsRun(ss, steps) && i < |ss| && k in ss[i].db.rows
    ensures k in ss[i].births
    ensures var s := ss[i];
            var epoch := s.births[k].epoch;
            var base := if g == 1 then s.births[k].base else 0;
            var lost := Calls(s.claims, k, epoch, g, UncommittedOnly);
            && Calls(s.claims, k, epoch, g, All) == |Numbers(s.db.attempts, k, g)| + lost
            && Calls(s.claims, k, epoch, g, All) <= Larger(s.db.rows[k].maxAttempts - base, 1) + lost
  {
    RunRecorded(ss, steps, i);
    assert Exact(ss[i], k, g);
    CallsSplit(ss[i].claims, k, ss[i].births[k].epoch, g);
  }
}
