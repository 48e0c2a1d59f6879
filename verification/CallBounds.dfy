/**
 The bound on HTTP calls for every incarnation a row ever had: also those that retention has removed,
 and the late calls of workers that still hold copies of them.
 */
module CallBounds {
  import opened Domain
  import opened Lease
  import opened History

  /** How many committed calls the generation of this claim may have: its limit less its base, and at least one. */
  function Allowed(c: Claim): int {
    Larger(c.copy.maxAttempts - (if c.copy.generation == 1 then c.base else 0), 1)
  }

  /** The calls made in the incarnation and generation of this claim. */
  function CallsLike(claims: seq<Claim>, c: Claim, which: Which): nat {
    Calls(claims, c.copy.key, c.epoch, c.copy.generation, which)
  }

  ghost predicate Bounded(s: State) {
    forall c <- s.claims :: CallsLike(s.claims, c, CommittedOnly) <= Allowed(c)
  }

  /** A claim on the present incarnation of a row agrees with it on limit and base. */
  ghost predicate Agreeing(s: State, c: Claim) {
    var k := c.copy.key;
    k in s.db.rows && k in s.births && c.epoch == s.births[k].epoch ==>
      c.copy.maxAttempts == s.db.rows[k].maxAttempts && c.base == s.births[k].base
  }

  ghost predicate AllAgree(s: State) {
    forall c <- s.claims :: Agreeing(s, c)
  }

  /** Exactness of the present incarnation gives its bound. */
  lemma ExactBounded(s: State, c: Claim)
    requires c.copy.key in s.db.rows && c.copy.key in s.births && c.epoch == s.births[c.copy.key].epoch
    requires Agreeing(s, c) && Exact(s, c.copy.key, c.copy.generation)
    ensures CallsLike(s.claims, c, CommittedOnly) <= Allowed(c)
  {
  }

  /** Moving a claim along without committing it leaves the committed calls alone. */
  lemma ProgressBounded(s: State, i: nat, c: Claim)
    requires Bounded(s) && i < |s.claims| && s.claims[i].progress != Committed && c.progress != Committed
    requires c.copy == s.claims[i].copy && c.epoch == s.claims[i].epoch && c.base == s.claims[i].base
    ensures Bounded(s.(claims := s.claims[i := c]))
  {
    var claims' := s.claims[i := c];
    forall d | d in claims'
      ensures CallsLike(claims', d, CommittedOnly) <= Allowed(d)
    {
      CallsUpdate(s.claims, i, c, d.copy.key, d.epoch, d.copy.generation, CommittedOnly);
      if d == c {
        assert s.claims[i] in s.claims;
      }
    }
  }

  lemma ClaimBounded(s: State, k: Key, owner: string, lease: int)
    requires Recorded(s) && Bounded(s) && AllAgree(s) && Enabled(s, ClaimRow(k, owner, lease))
    ensures Bounded(Next(s, ClaimRow(k, owner, lease)))
  {
    var s' := Next(s, ClaimRow(k, owner, lease));
    var n := |s.claims|;
    assert s'.claims[..n] == s.claims;
    forall d | d in s'.claims
      ensures CallsLike(s'.claims, d, CommittedOnly) <= Allowed(d)
    {
      assert CallsLike(s'.claims, d, CommittedOnly) == CallsLike(s.claims, d, CommittedOnly);
      if d == s'.claims[n] {
        assert Exact(s, k, d.copy.generation);
        ExactBounded(s, d);
      }
    }
  }

  lemma PresentBounded(s: State, c: Claim)
    requires Recorded(s) && AllAgree(s) && c in s.claims
    requires c.copy.key in s.db.rows && c.copy.key in s.births && c.epoch == s.births[c.copy.key].epoch
    ensures CallsLike(s.claims, c, CommittedOnly) <= Allowed(c)
  {
    assert Exact(s, c.copy.key, c.copy.generation);
    ExactBounded(s, c);
  }

  lemma CommitBounded(s: State, i: nat, listing: seq<Key>)
    requires Recorded(s) && Bounded(s) && Enabled(s, PersistOutcome(i, listing)) && Written(s, i, listing).Some?
    requires var s' := Next(s, PersistOutcome(i, listing)); Recorded(s') && AllAgree(s')
    ensures Bounded(Next(s, PersistOutcome(i, listing)))
  {
    var s' := Next(s, PersistOutcome(i, listing));
    forall n | 0 <= n < |s'.claims|
      ensures CallsLike(s'.claims, s'.claims[n], CommittedOnly) <= Allowed(s'.claims[n])
    {
      CommittedStay(s, i, listing, n);
      var d := s'.claims[n];
      if d.copy.key == s.claims[i].copy.key && d.epoch == s.claims[i].epoch {
        PresentBounded(s', d);
      }
    }
    EachBounded(s');
  }

  lemma EachBounded(s: State)
    requires forall n :: 0 <= n < |s.claims| ==> CallsLike(s.claims, s.claims[n], CommittedOnly) <= Allowed(s.claims[n])
    ensures Bounded(s)
  {
  }

  /** A commit leaves the committed calls of every other incarnation alone, and its own is the present one. */
  lemma CommittedStay(s: State, i: nat, listing: seq<Key>, n: nat)
    requires Recorded(s) && Bounded(s) && Enabled(s, PersistOutcome(i, listing)) && Written(s, i, listing).Some?
    requires n < |s.claims|
    ensures var s', own := Next(s, PersistOutcome(i, listing)), s.claims[i];
            var d := s'.claims[n];
            && own.copy.key in s'.db.rows && own.copy.key in s'.births && own.epoch == s'.births[own.copy.key].epoch
            && (d.copy.key != own.copy.key || d.epoch != own.epoch ==>
                  CallsLike(s'.claims, d, CommittedOnly) <= Allowed(d))
  {
    WrittenMeans(s, i, listing);
    var own, d := s.claims[i], s.claims[n];
    assert d in s.claims;
    CallsUpdate(s.claims, i, own.(progress := Committed), d.copy.key, d.epoch, d.copy.generation, CommittedOnly);
  }

  lemma StepAgrees(s: State, step: Step, c: Claim)
    requires Recorded(s) && Enabled(s, step) && c in s.claims && Agreeing(s, c)
    ensures Agreeing(Next(s, step), c)
  {
    match step
    case Init(ev, subs, at) => InitMeans(s, ev, subs, at);
    case PersistOutcome(i, listing) => WrittenMeans(s, i, listing);
    case _ =>
  }

  /** Every claim after a step is one from before, moved along, or the new one. */
  lemma StepAllAgree(s: State, step: Step)
    requires Recorded(s) && AllAgree(s) && Enabled(s, step)
    ensures AllAgree(Next(s, step))
  {
    var s' := Next(s, step);
    forall i | 0 <= i < |s'.claims|
      ensures Agreeing(s', s'.claims[i])
    {
      if i < |s.claims| {
        StepAgrees(s, step, s.claims[i]);
      }
    }
  }

  lemma StepBounded(s: State, step: Step)
    requires Recorded(s) && Bounded(s) && AllAgree(s) && Enabled(s, step)
    ensures Bounded(Next(s, step))
  {
    match step
    case ClaimRow(k, owner, lease) => ClaimBounded(s, k, owner, lease);
    case Execute(i, o) => ProgressBounded(s, i, s.claims[i].(progress := Reported(o), called := o.verdict.Called?));
    case PersistOutcome(i, listing) =>
      if Written(s, i, listing).Some? {
        StepRecorded(s, step);
        StepAllAgree(s, step);
        CommitBounded(s, i, listing);
      } else {
        ProgressBounded(s, i, s.claims[i].(progress := Lost));
      }
    case Crash(i) => ProgressBounded(s, i, s.claims[i].(progress := Lost));
    case _ => assert Next(s, step).claims == s.claims;
  }

  lemma {:induction false} RunBounded(ss: seq<State>, steps: seq<Step>, i: nat)
    requires IsRun(ss, steps) && i < |ss|
    ensures Bounded(ss[i]) && AllAgree(ss[i])
  {
    if i > 0 {
      RunBounded(ss, steps, i - 1);
      RunRecorded(ss, steps, i - 1);
      StepBounded(ss[i - 1], steps[i - 1]);
      StepAllAgree(ss[i - 1], steps[i - 1]);
    }
  }

  /**
   Duplicate calls, for every claim ever made: the calls in its incarnation and generation of the row,
   whether that still exists or not, are the committed ones, at most the limit (or one, where the
   generation starts at or past it), plus the calls under claims that have not committed.
   */
  lemma {:induction false} EveryCallBounded(ss: seq<State>, steps: seq<Step>, i: nat, n: nat)
    requires IsRun(ss, steps) && i < |ss| && n < |ss[i].claims|
    ensures var claims, c := ss[i].claims, ss[i].claims[n];
            && CallsLike(claims, c, All) == CallsLike(claims, c, CommittedOnly) + CallsLike(claims, c, UncommittedOnly)
            && CallsLike(claims, c, All) <= Allowed(c) + CallsLike(claims, c, UncommittedOnly)
  {
    RunBounded(ss, steps, i);
    var c := ss[i].claims[n];
    assert c in ss[i].claims;
    CallsSplit(ss[i].claims, c.copy.key, c.epoch, c.copy.generation);
  }
}
