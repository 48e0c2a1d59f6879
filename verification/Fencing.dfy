/**
 What the lease invariant gives over whole runs: a superseded claim never commits, work is never
 stuck or lost, and terminal rows stay put.
 */
module Fencing {
  import opened Domain
  import opened Execution
  import opened Store
  import opened Columns
  import opened Lease

  /* Fencing */

  /** Claims are never forgotten, their copies never change, and a finished claim stays finished. */
  lemma ClaimsPersist(s: State, step: Step, c: nat)
    requires Enabled(s, step) && c < |s.claims|
    ensures c < |Next(s, step).claims|
    ensures Next(s, step).claims[c].copy == s.claims[c].copy
    ensures !s.claims[c].Live() ==> Next(s, step).claims[c] == s.claims[c]
  {
  }

  /** Once superseded, a claim stays superseded through every step, and no step commits it. */
  lemma {:induction false} SupersededStep(s: State, step: Step, c: nat)
    requires Safe(s) && Enabled(s, step)
    requires c < |s.claims| && Superseded(s, s.claims[c]) && s.claims[c].progress != Committed
    ensures CopyOk(Next(s, step).claims[c]) && Superseded(Next(s, step), Next(s, step).claims[c])
    ensures Next(s, step).claims[c].progress != Committed
  {
    ClaimsPersist(s, step, c);
    match step
    case Init(ev, subs, at) => InitMeans(s, ev, subs, at);
    case PersistOutcome(c', listing) =>
      WrittenMeans(s, c', listing);
      ExecutedSettles(s.claims[c'].copy, s.claims[c'].progress.observed);
    case _ =>
  }

  lemma {:induction false} SupersededForever(ss: seq<State>, steps: seq<Step>, i: nat, j: nat, c: nat)
    requires IsRun(ss, steps) && i <= j < |ss|
    requires c < |ss[i].claims| && ss[i].claims[c].progress != Committed
    requires CopyOk(ss[i].claims[c]) && Superseded(ss[i], ss[i].claims[c])
    ensures c < |ss[j].claims| && ss[j].claims[c].copy == ss[i].claims[c].copy
    ensures ss[j].claims[c].progress != Committed
    ensures CopyOk(ss[j].claims[c]) && Superseded(ss[j], ss[j].claims[c])
    decreases j
  {
    if i < j {
      SupersededForever(ss, steps, i, j - 1, c);
      RunSafe(ss, steps, j - 1);
      ClaimsPersist(ss[j - 1], steps[j - 1], c);
      SupersededStep(ss[j - 1], steps[j - 1], c);
    }
  }

  /**
   Fencing: as soon as a row is claimed again, by anyone and under any owner name, no older copy of
   it can ever commit, through every later persist, replay, deletion and re-creation of the row; and
   every lease the row carries from then on ends strictly later than the older one.
   */
  lemma {:induction false} ReclaimFencesOlderClaims(ss: seq<State>, steps: seq<Step>, i: nat, j: nat, c: nat)
    requires IsRun(ss, steps) && i < j < |ss|
    requires c < |ss[i].claims| && ss[i].claims[c].Live()
    requires steps[i].ClaimRow? && steps[i].key == ss[i].claims[c].copy.key
    ensures c < |ss[j].claims| && ss[j].claims[c].progress != Committed
    ensures var k := steps[i].key;
            k in ss[j].db.rows && ss[j].db.rows[k].status == Processing ==>
              ss[j].db.rows[k].deadline.Some? && ss[i].claims[c].copy.deadline.Some? &&
              ss[i].claims[c].copy.deadline.value < ss[j].db.rows[k].deadline.value
  {
    RunSafe(ss, steps, i);
    StepSafe(ss[i], steps[i]);
    var k := steps[i].key;
    var s' := ss[i + 1];
    assert s'.claims[c] == ss[i].claims[c];
    assert s'.db.rows[k].deadline != ss[i].db.rows[k].deadline;
    assert Superseded(s', s'.claims[c]);
    SupersededForever(ss, steps, i + 1, j, c);
    RunSafe(ss, steps, j);
  }

  /**
   Why leases must be positive. A copy claimed under lease `lease`, and the same row reclaimed at a
   later time `now'` by the same owner under lease `lease'`: the old copy still passes the fence
   exactly when the new lease gives back the old deadline. No positive lease does; the lease of no
   length, taken at the moment the old one ends, does.
   */
  lemma FenceSeparatesReclaims(db: Db, k: Key, owner: string, lease: int, now': Time, lease': int)
    requires k in db.rows && db.rows[k].key == k && db.now <= now'
    requires Claimable(ClaimOne(db, k, owner, lease).rows[k], now')
    ensures var first := ClaimOne(db, k, owner, lease);
            var second := ClaimOne(first.(now := now'), k, owner, lease');
            && (Fence(second.rows, first.rows[k]) <==> now' + lease' == db.now + lease)
            && (1 <= lease' ==> !Fence(second.rows, first.rows[k]))
            && (lease' == 0 && now' == db.now + lease ==> Fence(second.rows, first.rows[k]))
  {
  }

  /* No stuck work */

  /** When an open row becomes claimable; None means at once. */
  function WakesAt(d: Row): Option<Time> {
    match d.status
    case Processing => d.deadline
    case Pending => None
    case _ => d.next
  }

  /**
   In every reachable state an open row is claimable exactly from a known finite time on, and its lease
   columns agree.
   */
  lemma {:induction false} NoStuckWork(ss: seq<State>, steps: seq<Step>, i: nat, k: Key)
    requires IsRun(ss, steps) && i < |ss| && k in ss[i].db.rows
    ensures var d := ss[i].db.rows[k];
            && (d.status == Processing <==> d.owner.Some? && d.deadline.Some?)
            && (!Terminal(d.status) ==>
                  forall now: Time :: Claimable(d, now) <==> WakesAt(d).None? || WakesAt(d).value <= now)
            && (Terminal(d.status) ==> forall now: Time :: !Claimable(d, now))
  {
    RunSafe(ss, steps, i);
  }

  /* How long a lease lasts */

  /** No step from `i` on, before `j`, claims the row again or persists the claim `c`. */
  ghost predicate LeftAlone(steps: seq<Step>, i: nat, j: nat, k: Key, c: nat) {
    forall m :: 0 <= m < |steps| && i < m < j ==>
      !(steps[m].ClaimRow? && steps[m].key == k) && !(steps[m].PersistOutcome? && steps[m].claim == c)
  }

  /** Until the row is claimed again, no claim on it is newer than this one. */
  lemma {:induction false} NoNewerClaim(ss: seq<State>, steps: seq<Step>, i: nat, j: nat, n: nat)
    requires IsRun(ss, steps) && i < j < |ss| && steps[i].ClaimRow? && |ss[i].claims| < n < |ss[j].claims|
    requires LeftAlone(steps, i, j, steps[i].key, |ss[i].claims|)
    ensures ss[j].claims[n].copy.key != steps[i].key
    decreases j
  {
    RunSafe(ss, steps, j - 1);
    NewClaims(ss[j - 1], steps[j - 1]);
    if i + 1 < j && n < |ss[j - 1].claims| {
      NoNewerClaim(ss, steps, i, j - 1, n);
      ClaimsPersist(ss[j - 1], steps[j - 1], n);
    }
  }

  /** A step adds at most one claim, on the row it claims. */
  lemma NewClaims(s: State, step: Step)
    requires Safe(s) && Enabled(s, step)
    ensures |Next(s, step).claims| == |s.claims| + if step.ClaimRow? then 1 else 0
    ensures step.ClaimRow? ==> Next(s, step).claims[|s.claims|].copy.key == step.key
  {
  }

  /** A processing row changes only by a claim or by an accepted outcome of it. */
  lemma {:induction false} ProcessingStays(s: State, step: Step, k: Key)
    requires Safe(s) && Enabled(s, step) && k in s.db.rows && s.db.rows[k].status == Processing
    requires !(step.ClaimRow? && step.key == k)
    requires step.PersistOutcome? ==> s.claims[step.claim].copy.key != k || Written(s, step.claim, step.listing).None?
    ensures k in Next(s, step).db.rows && Next(s, step).db.rows[k] == s.db.rows[k]
  {
    match step
    case Init(ev, subs, at) => InitMeans(s, ev, subs, at);
    case PersistOutcome(c, listing) => WrittenMeans(s, c, listing);
    case _ =>
  }

  /** An outcome accepted in a step marks its claim as committed. */
  lemma AcceptedCommits(s: State, c: nat, listing: seq<Key>)
    requires Enabled(s, PersistOutcome(c, listing)) && Written(s, c, listing).Some?
    ensures Next(s, PersistOutcome(c, listing)).claims[c].progress == Committed
  {
  }

  lemma {:induction false} LiveBefore(ss: seq<State>, steps: seq<Step>, i: nat, j: nat, n: nat)
    requires IsRun(ss, steps) && i <= j < |ss| && n < |ss[i].claims|
    ensures n < |ss[j].claims| && ss[j].claims[n].copy == ss[i].claims[n].copy
    ensures ss[j].claims[n].Live() ==> ss[i].claims[n].Live()
    decreases j
  {
    if i < j {
      LiveBefore(ss, steps, i, j - 1, n);
      ClaimsPersist(ss[j - 1], steps[j - 1], n);
    }
  }

  /** A step that neither claims the row nor persists its present claim leaves it alone. */
  lemma {:induction false} LeaseUndisturbed(ss: seq<State>, steps: seq<Step>, i: nat, j: nat)
    requires IsRun(ss, steps) && i + 1 < j < |ss| && steps[i].ClaimRow?
    requires LeftAlone(steps, i, j, steps[i].key, |ss[i].claims|)
    requires steps[i].key in ss[j - 1].db.rows && ss[j - 1].db.rows[steps[i].key].status == Processing
    ensures steps[i].key in ss[j].db.rows && ss[j].db.rows[steps[i].key] == ss[j - 1].db.rows[steps[i].key]
  {
    var k, s, step := steps[i].key, ss[j - 1], steps[j - 1];
    RunSafe(ss, steps, j - 1);
    if step.PersistOutcome? && s.claims[step.claim].copy.key == k && Written(s, step.claim, step.listing).Some? {
      AcceptedCommits(s, step.claim, step.listing);
      OnlyOwnClaim(ss, steps, i, j);
    } else {
      ProcessingStays(s, step, k);
    }
  }

  /** No other claim on the row is accepted in the meantime: older ones are fenced, and there are no newer ones. */
  lemma {:induction false} OnlyOwnClaim(ss: seq<State>, steps: seq<Step>, i: nat, j: nat)
    requires IsRun(ss, steps) && i + 1 < j < |ss| && steps[i].ClaimRow?
    requires LeftAlone(steps, i, j, steps[i].key, |ss[i].claims|)
    requires steps[j - 1].PersistOutcome? && ss[j - 1].claims[steps[j - 1].claim].copy.key == steps[i].key
    ensures steps[j - 1].claim < |ss[j].claims| && ss[j].claims[steps[j - 1].claim].progress != Committed
  {
    var c := steps[j - 1].claim;
    if c < |ss[i].claims| {
      LiveBefore(ss, steps, i, j - 1, c);
      ReclaimFencesOlderClaims(ss, steps, i, j, c);
    } else {
      NoNewerClaim(ss, steps, i, j - 1, c);
    }
  }

  /**
   How long a lease lasts: from a claim on, until the row is claimed again or that claim is persisted, the
   row carries exactly the owner, the deadline and the time of the claim and is otherwise as it was; and it
   is claimable at a time exactly when the lease has run out by then.
   */
  lemma {:induction false} LeaseLasts(ss: seq<State>, steps: seq<Step>, i: nat, j: nat)
    requires IsRun(ss, steps) && i < j < |ss| && steps[i].ClaimRow?
    requires LeftAlone(steps, i, j, steps[i].key, |ss[i].claims|)
    ensures var k, now, until := steps[i].key, ss[i].db.now, ss[i].db.now + steps[i].lease;
            && k in ss[i].db.rows && k in ss[j].db.rows
            && LeaseTaken(ss[i].db.rows[k], ss[j].db.rows[k], steps[i].owner, until, now)
            && forall t: Time :: Claimable(ss[j].db.rows[k], t) <==> until <= t
    decreases j
  {
    if j == i + 1 {
      assert Enabled(ss[i], steps[i]) && ss[j] == Next(ss[i], steps[i]);
    } else {
      LeaseLasts(ss, steps, i, j - 1);
      LeaseUndisturbed(ss, steps, i, j);
    }
  }

  /** Open rows are never removed; delivered rows change only by removal, failed rows only by replay or removal. */
  lemma {:induction false} StepKeepsWork(s: State, step: Step, k: Key)
    requires Safe(s) && Enabled(s, step) && k in s.db.rows
    ensures var rows' := Next(s, step).db.rows;
            && (k !in rows' ==> step.Purge? && Terminal(s.db.rows[k].status))
            && (k in rows' && s.db.rows[k].status == Delivered ==> rows'[k] == s.db.rows[k])
            && (k in rows' && s.db.rows[k].status == Failed && rows'[k] != s.db.rows[k] ==>
                  step.ReplayRow? && step.key == k && AsReplayed(s.db.rows[k], step.at) == Some(rows'[k]))
            && (k in rows' ==> rows'[k].target == s.db.rows[k].target)
  {
    match step
    case Init(ev, subs, at) => InitMeans(s, ev, subs, at);
    case PersistOutcome(c, listing) =>
      WrittenMeans(s, c, listing);
    case _ =>
  }

  /** A delivered row is the same row for as long as it exists; so is the frozen target of any row. */
  lemma {:induction false} DeliveredForever(ss: seq<State>, steps: seq<Step>, i: nat, j: nat, k: Key)
    requires IsRun(ss, steps) && i <= j < |ss| && k in ss[i].db.rows && ss[i].db.rows[k].status == Delivered
    requires forall m :: i <= m < j ==> !(steps[m].Purge? && steps[m].event == k.event)
    ensures k in ss[j].db.rows && ss[j].db.rows[k] == ss[i].db.rows[k]
    decreases j
  {
    if i < j {
      DeliveredForever(ss, steps, i, j - 1, k);
      RunSafe(ss, steps, j - 1);
      StepKeepsWork(ss[j - 1], steps[j - 1], k);
    }
  }
}
