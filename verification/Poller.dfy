/**
 The retry scheduler (internal/retry/poller.go:77-241): a coordinator with bounded batch slots, the
 batches it starts, their completion channel and the callers of Stop, as a step relation. Each step is
 one communication or one shared update; any interleaving of the goroutines is a run.
 */
module Poller {
  import opened Domain

  /** `capacity` is that of the completion channel. */
  datatype Config = Config(slots: nat, batchSize: int, capacity: nat)

  /** NewPoller (lines 84-113): zero values are replaced; a negative channel capacity panics. */
  function NewPoller(maxConcurrentBatches: int, batchSize: int): Option<Config> {
    var slots := if maxConcurrentBatches == 0 then 1 else maxConcurrentBatches;
    if slots < 0 then None
    else Some(Config(slots, if batchSize == 0 then 100 else batchSize, slots))
  }

  /** Where the coordinator is in Start. */
  datatype Pc =
    | Unstarted
    | Head      // the guard of the inner loop, line 135
    | Checking  // the select with a default, line 136
    | Claiming  // the claim, line 146
    | Waiting   // the blocking select, line 168
    | Exited    // returned, with `done` closed

  datatype State = State(
    pc: Pc,
    active: int,          // activeBatches
    draining: bool,
    stopped: bool,        // stopCh is closed or the context is done
    processing: nat,      // batches inside processRetryBatch
    finishing: nat,       // batches about to send their completion
    buffered: nat,        // completions in the channel
    sent: nat,            // batches between their send and wg.Done
    wg: int,
    atSelect: nat,        // callers of Stop before its select, line 186
    awaitDone: nat,       // at line 188
    awaitBatches: nat,    // at line 192
    returned: nat)

  const INIT := State(Unstarted, 0, true, false, 0, 0, 0, 0, 0, 0, 0, 0, 0)

  datatype Outcome = Errored | Claimed(count: nat)

  datatype Step =
    | Start
    | Guard
    | Check
    | Claim(outcome: Outcome)
    | Tick
    | Receive
    | Leave
    | Process
    | Send
    | Release
    | Cancel
    | Stop
    | Choose
    | SeeDone
    | SeeBatches

  /** A failed, an empty or a partial claim. */
  predicate Short(c: Config, o: Outcome) {
    o.Errored? || o.count == 0 || o.count < c.batchSize
  }

  predicate Launches(o: Outcome) {
    o.Claimed? && o.count > 0
  }

  predicate Enabled(c: Config, s: State, step: Step) {
    match step
    case Start => s.pc == Unstarted
    case Guard => s.pc == Head
    case Check => s.pc == Checking
    case Claim(_) => s.pc == Claiming
    case Tick => s.pc == Waiting
    case Receive => s.pc == Waiting && s.buffered > 0
    case Leave => s.pc == Waiting && s.stopped
    case Process => s.processing > 0
    case Send => s.finishing > 0 && s.buffered < c.capacity
    case Release => s.sent > 0
    case Cancel => true
    case Stop => true
    case Choose => s.atSelect > 0
    case SeeDone => s.awaitDone > 0 && s.pc == Exited
    case SeeBatches => s.awaitBatches > 0 && s.wg == 0
  }

  function Next(c: Config, s: State, step: Step): State
    requires Enabled(c, s, step)
  {
    match step
    case Start => s.(pc := Head)
    case Guard => s.(pc := if s.draining && s.active < c.slots then Checking else Waiting)
    case Check => s.(pc := if s.stopped then Exited else Claiming)
    case Claim(o) =>
      if Launches(o) then
        s.(pc := Head, active := s.active + 1, draining := s.draining && !Short(c, o),
        processing := s.processing + 1, wg := s.wg + 1)
      else s.(pc := Waiting, draining := false)
    case Tick => s.(pc := Head, draining := true)
    case Receive => s.(pc := Head, active := s.active - 1, buffered := s.buffered - 1)
    case Leave => s.(pc := Exited)
    case Process => s.(processing := s.processing - 1, finishing := s.finishing + 1)
    case Send => s.(finishing := s.finishing - 1, buffered := s.buffered + 1, sent := s.sent + 1)
    case Release => s.(sent := s.sent - 1, wg := s.wg - 1)
    case Cancel => s.(stopped := true)
    case Stop => s.(stopped := true, atSelect := s.atSelect + 1)
    case Choose =>
      if s.pc == Unstarted then s.(atSelect := s.atSelect - 1, returned := s.returned + 1)
      else s.(atSelect := s.atSelect - 1, awaitDone := s.awaitDone + 1)
    case SeeDone => s.(awaitDone := s.awaitDone - 1, awaitBatches := s.awaitBatches + 1)
    case SeeBatches => s.(awaitBatches := s.awaitBatches - 1, returned := s.returned + 1)
  }

  ghost predicate IsRun(c: Config, s: State, steps: seq<Step>)
    decreases |steps|
  {
    steps == [] || (Enabled(c, s, steps[0]) && IsRun(c, Next(c, s, steps[0]), steps[1..]))
  }

  function After(c: Config, s: State, steps: seq<Step>): State
    requires IsRun(c, s, steps)
    decreases |steps|
  {
    if steps == [] then s else After(c, Next(c, s, steps[0]), steps[1..])
  }

  /* Slots */

  /** Every batch is in exactly one place, and the coordinator counts them all. */
  predicate Conserved(c: Config, s: State) {
    && s.processing + s.finishing + s.buffered == s.active <= c.slots
    && s.wg == s.processing + s.finishing + s.sent
  }

  /** What the coordinator knows at each place. */
  predicate Placed(c: Config, s: State) {
    && (s.pc in {Checking, Claiming} ==> s.draining && s.active < c.slots)
    && (s.pc == Waiting ==> !s.draining || s.active == c.slots)
    && (s.pc == Unstarted ==> s.draining && s.active == 0 && s.sent == 0)
  }

  /** Nothing is left to do: no batch exists and none will be started. */
  predicate Quiet(s: State) {
    && s.stopped
    && s.processing == s.finishing == s.sent == 0
    && (s.pc == Exited || (s.pc in {Unstarted, Head, Checking} && s.draining && s.active == 0))
  }

  predicate Good(c: Config, s: State) {
    && 0 < c.slots <= c.capacity
    && Conserved(c, s)
    && Placed(c, s)
    && (s.atSelect + s.awaitDone + s.awaitBatches + s.returned > 0 ==> s.stopped)
    && (s.awaitDone > 0 ==> s.pc != Unstarted)
    && (s.awaitBatches > 0 ==> s.pc == Exited)
    && (s.returned > 0 ==> Quiet(s))
  }

  /** The configuration the constructor makes gives the channel one place per slot. */
  lemma InitGood(maxConcurrentBatches: int, batchSize: int)
    ensures NewPoller(maxConcurrentBatches, batchSize).Some? <==> maxConcurrentBatches >= 0
    ensures maxConcurrentBatches >= 0 ==> Good(NewPoller(maxConcurrentBatches, batchSize).value, INIT)
  {
  }

  lemma StepGood(c: Config, s: State, step: Step)
    requires Good(c, s) && Enabled(c, s, step)
    ensures Good(c, Next(c, s, step))
  {
  }

  lemma {:induction false} RunGood(c: Config, s: State, steps: seq<Step>)
    requires Good(c, s) && IsRun(c, s, steps)
    ensures Good(c, After(c, s, steps))
    decreases |steps|
  {
    if steps != [] {
      StepGood(c, s, steps[0]);
      RunGood(c, Next(c, s, steps[0]), steps[1..]);
    }
  }

  /**
   Slot conservation, in every state of every run: batches still at work and buffered completions are
   exactly the active ones, never more than the slots; the wait group counts the goroutines; and a
   batch that finishes can always send, whether or not the coordinator is still there to receive.
   */
  lemma SlotsConserved(maxConcurrentBatches: nat, batchSize: int, steps: seq<Step>)
    requires IsRun(NewPoller(maxConcurrentBatches, batchSize).value, INIT, steps)
    ensures var c := NewPoller(maxConcurrentBatches, batchSize).value;
            var s := After(c, INIT, steps);
            && s.processing + s.finishing + s.buffered == s.active <= c.slots
            && s.wg == s.processing + s.finishing + s.sent
            && (s.finishing > 0 ==> Enabled(c, s, Send))
  {
    InitGood(maxConcurrentBatches, batchSize);
    RunGood(NewPoller(maxConcurrentBatches, batchSize).value, INIT, steps);
  }

  /* Claims over a run */

  function ClaimsIn(steps: seq<Step>): nat {
    if steps == [] then 0 else (if steps[0].Claim? then 1 else 0) + ClaimsIn(steps[1..])
  }

  /** Every claim is made with a free slot, while draining. */
  lemma {:induction false} ClaimHasSlot(c: Config, s: State, steps: seq<Step>, i: nat)
    requires Good(c, s) && IsRun(c, s, steps) && i < |steps| && steps[i].Claim?
    ensures IsRun(c, s, steps[..i])
    ensures var before := After(c, s, steps[..i]); before.draining && before.active < c.slots
    decreases i
  {
    if i > 0 {
      StepGood(c, s, steps[0]);
      ClaimHasSlot(c, Next(c, s, steps[0]), steps[1..], i - 1);
      assert steps[..i][1..] == steps[1..][..i - 1];
    }
  }

  /** Once not draining, a claim needs a tick first. */
  lemma {:induction false} TickBeforeClaim(c: Config, s: State, steps: seq<Step>, j: nat)
    requires Good(c, s) && !s.draining && IsRun(c, s, steps) && j < |steps| && steps[j].Claim?
    ensures Tick in steps[..j]
    decreases j
  {
    if steps[0] != Tick {
      StepGood(c, s, steps[0]);
      TickBeforeClaim(c, Next(c, s, steps[0]), steps[1..], j - 1);
      assert steps[1..][..j - 1] == steps[1..j];
      assert forall x <- steps[1..j] :: x in steps[..j];
    }
  }

  /** Drain discipline: between a failed, empty or partial claim and the next claim there is a tick. */
  lemma {:induction false} DrainDiscipline(c: Config, s: State, steps: seq<Step>, i: nat, j: nat)
    requires Good(c, s) && IsRun(c, s, steps) && i < j < |steps|
    requires steps[i].Claim? && Short(c, steps[i].outcome) && steps[j].Claim?
    ensures Tick in steps[i + 1..j]
    decreases i
  {
    StepGood(c, s, steps[0]);
    var s' := Next(c, s, steps[0]);
    if i > 0 {
      DrainDiscipline(c, s', steps[1..], i - 1, j - 1);
      assert steps[1..][i..j - 1] == steps[i + 1..j];
    } else {
      TickBeforeClaim(c, s', steps[1..], j - 1);
      assert steps[1..][..j - 1] == steps[1..j];
    }
  }

  /** After the stop signal at most the one claim already past its check is made. */
  lemma {:induction false} ClaimsAfterStop(c: Config, s: State, steps: seq<Step>)
    requires s.stopped && IsRun(c, s, steps)
    ensures ClaimsIn(steps) <= if s.pc == Claiming then 1 else 0
    decreases |steps|
  {
    if steps != [] {
      ClaimsAfterStop(c, Next(c, s, steps[0]), steps[1..]);
    }
  }

  /* Claims do come */

  /** The steps the coordinator takes; all the others belong to batches and callers. */
  predicate Own(step: Step) {
    step in {Start, Guard, Check, Tick, Receive, Leave} || step.Claim?
  }

  function OwnIn(steps: seq<Step>): nat {
    if steps == [] then 0 else (if Own(steps[0]) then 1 else 0) + OwnIn(steps[1..])
  }

  /** No stop signal and no cancellation among these steps. */
  predicate NeverStops(steps: seq<Step>) {
    Stop !in steps && Cancel !in steps
  }

  /** The coordinator is on its way to a claim: work to drain, a free slot, and no stop signal. */
  predicate Near(c: Config, s: State) {
    && !s.stopped
    && (s.pc in {Checking, Claiming} || (s.pc == Head && s.draining && s.active < c.slots))
  }

  /** Its next own step, and how many there are up to and including the claim. */
  function OwnNext(pc: Pc): Step {
    match pc
    case Head => Guard
    case Checking => Check
    case _ => Claim(Errored)
  }

  function StepsToClaim(pc: Pc): nat {
    match pc
    case Head => 3
    case Checking => 2
    case _ => 1
  }

  /** On its way to a claim the coordinator is never blocked, and makes it unless a stop comes first. */
  lemma {:induction false} NearClaims(c: Config, s: State, steps: seq<Step>)
    requires Near(c, s) && IsRun(c, s, steps) && NeverStops(steps)
    ensures Enabled(c, s, OwnNext(s.pc))
    ensures OwnIn(steps) >= StepsToClaim(s.pc) ==> ClaimsIn(steps) >= 1
    decreases |steps|
  {
    if steps != [] && !steps[0].Claim? {
      var s' := Next(c, s, steps[0]);
      assert steps[0] in steps && forall x <- steps[1..] :: x in steps;
      NearClaims(c, s', steps[1..]);
    }
  }

  /** The first claim comes with the start. */
  lemma StartClaims(c: Config, s: State, steps: seq<Step>)
    requires Good(c, s) && s.pc == Unstarted && !s.stopped
    requires IsRun(c, Next(c, s, Start), steps) && NeverStops(steps)
    ensures OwnIn(steps) >= 3 ==> ClaimsIn(steps) >= 1
  {
    NearClaims(c, Next(c, s, Start), steps);
  }

  /** A tick with a free slot brings the coordinator back to claiming: within three steps of its own, unless stopped. */
  lemma TickClaims(c: Config, s: State, steps: seq<Step>)
    requires s.pc == Waiting && s.active < c.slots && !s.stopped
    requires IsRun(c, Next(c, s, Tick), steps) && NeverStops(steps)
    ensures OwnIn(steps) >= 3 ==> ClaimsIn(steps) >= 1
  {
    NearClaims(c, Next(c, s, Tick), steps);
  }

  /** After a full claim with a slot still free it claims again, without waiting for a tick. */
  lemma FullClaimAgain(c: Config, s: State, count: nat, steps: seq<Step>)
    requires Good(c, s) && s.pc == Claiming && !s.stopped
    requires 0 < count && c.batchSize <= count && s.active + 1 < c.slots
    requires IsRun(c, Next(c, s, Claim(Claimed(count))), steps) && NeverStops(steps)
    ensures OwnIn(steps) >= 3 ==> ClaimsIn(steps) >= 1
  {
    NearClaims(c, Next(c, s, Claim(Claimed(count))), steps);
  }

  /** A slot that becomes free while there is work to drain is used, without waiting for a tick. */
  lemma FreedSlotClaims(c: Config, s: State, steps: seq<Step>)
    requires Good(c, s) && s.pc == Waiting && s.draining && s.buffered > 0 && !s.stopped
    requires IsRun(c, Next(c, s, Receive), steps) && NeverStops(steps)
    ensures OwnIn(steps) >= 3 ==> ClaimsIn(steps) >= 1
  {
    NearClaims(c, Next(c, s, Receive), steps);
  }

  /** The configuration as given, with one slot and a hundred rows for zero values, and one place per slot. */
  lemma NewPollerMeans(maxConcurrentBatches: nat, batchSize: int)
    ensures var c := NewPoller(maxConcurrentBatches, batchSize);
            && c.Some? && c.value.capacity == c.value.slots
            && (maxConcurrentBatches > 0 ==> c.value.slots == maxConcurrentBatches)
            && (maxConcurrentBatches == 0 ==> c.value.slots == 1)
            && (batchSize != 0 ==> c.value.batchSize == batchSize) && (batchSize == 0 ==> c.value.batchSize == 100)
  {
  }

  /* Stop */

  /** How many batches are running, through a run: those started less those that have ended. */
  function LaunchesIn(steps: seq<Step>): nat {
    if steps == [] then 0
    else (if steps[0].Claim? && Launches(steps[0].outcome) then 1 else 0) + LaunchesIn(steps[1..])
  }

  function EndsIn(steps: seq<Step>): nat {
    if steps == [] then 0 else (if steps[0].Release? then 1 else 0) + EndsIn(steps[1..])
  }

  lemma {:induction false} WaitGroupCounts(c: Config, s: State, steps: seq<Step>)
    requires IsRun(c, s, steps)
    ensures After(c, s, steps).wg == s.wg + LaunchesIn(steps) - EndsIn(steps)
    decreases |steps|
  {
    if steps != [] {
      WaitGroupCounts(c, Next(c, s, steps[0]), steps[1..]);
    }
  }

  /** A run in two parts. */
  lemma {:induction false} RunSplits(c: Config, s: State, first: seq<Step>, second: seq<Step>)
    requires IsRun(c, s, first + second)
    ensures IsRun(c, s, first) && IsRun(c, After(c, s, first), second)
    ensures After(c, s, first + second) == After(c, After(c, s, first), second)
    decreases |first|
  {
    if first == [] {
      assert first + second == second;
    } else {
      assert (first + second)[1..] == first[1..] + second;
      RunSplits(c, Next(c, s, first[0]), first[1..], second);
    }
  }

  lemma {:induction false} QuietForever(c: Config, s: State, steps: seq<Step>)
    requires Quiet(s) && Good(c, s) && IsRun(c, s, steps)
    ensures Quiet(After(c, s, steps)) && ClaimsIn(steps) == 0
    decreases |steps|
  {
    ClaimsAfterStop(c, s, steps);
    if steps != [] {
      StepGood(c, s, steps[0]);
      QuietForever(c, Next(c, s, steps[0]), steps[1..]);
    }
  }

  /**
   Stop returns only when every batch ever started has ended, also when it ran before Start did; and
   however the run goes on, no claim follows.
   */
  lemma StopWaitsForAll(c: Config, steps: seq<Step>, more: seq<Step>)
    requires Good(c, INIT) && IsRun(c, INIT, steps + more)
    ensures IsRun(c, INIT, steps)
    ensures After(c, INIT, steps).returned > 0 ==> LaunchesIn(steps) == EndsIn(steps) && ClaimsIn(more) == 0
  {
    RunSplits(c, INIT, steps, more);
    RunGood(c, INIT, steps);
    WaitGroupCounts(c, INIT, steps);
    var s := After(c, INIT, steps);
    if s.returned > 0 {
      QuietForever(c, s, more);
    }
  }

  /* Shutdown terminates */

  /** Ticks, cancellation, new callers of Stop and Start itself come from outside. */
  predicate External(step: Step) {
    step in {Tick, Cancel, Stop, Start}
  }

  function PcRank(pc: Pc): nat {
    match pc
    case Exited => 0
    case Waiting => 1
    case Checking => 1
    case Head => 2
    case Claiming => 9
    case Unstarted => 2
  }

  function Rank(s: State): nat {
    PcRank(s.pc) + 6 * s.processing + 5 * s.finishing + 3 * s.buffered + s.sent
    + 3 * s.atSelect + 2 * s.awaitDone + s.awaitBatches
  }

  /** The coordinator is gone, or never came; no batch is left and every call of Stop has returned. */
  predicate ShutDown(s: State) {
    && s.pc in {Exited, Unstarted}
    && s.processing == s.finishing == s.sent == 0
    && s.atSelect == s.awaitDone == s.awaitBatches == 0
  }

  /** The internal step to take next. */
  function Pending(s: State): Step {
    if s.pc == Head then Guard
    else if s.pc == Checking then Check
    else if s.pc == Claiming then Claim(Errored)
    else if s.pc == Waiting then Leave
    else if s.processing > 0 then Process
    else if s.finishing > 0 then Send
    else if s.sent > 0 then Release
    else if s.atSelect > 0 then Choose
    else if s.awaitDone > 0 then SeeDone
    else SeeBatches
  }

  /** No deadlock: after the stop signal some goroutine can move until the shutdown is complete. */
  lemma ShutdownProgress(c: Config, s: State)
    requires Good(c, s) && s.stopped && !ShutDown(s)
    ensures Enabled(c, s, Pending(s)) && !External(Pending(s))
  {
  }

  function CountInternal(steps: seq<Step>): nat {
    if steps == [] then 0 else (if External(steps[0]) then 0 else 1) + CountInternal(steps[1..])
  }

  /** What outside steps can add to the work left. */
  function ExternalWork(steps: seq<Step>): nat {
    if steps == [] then 0
    else (if steps[0].Tick? then 1 else if steps[0].Stop? then 3 else 0) + ExternalWork(steps[1..])
  }

  /** After the stop signal every internal step leaves less to do, and an outside one adds a bounded amount. */
  lemma RankFalls(c: Config, s: State, step: Step)
    requires s.stopped && Enabled(c, s, step)
    ensures Next(c, s, step).stopped
    ensures Rank(Next(c, s, step)) + (if External(step) then 0 else 1)
            <= Rank(s) + (if step.Tick? then 1 else if step.Stop? then 3 else 0)
  {
  }

  /**
   No livelock: after the stop signal the steps the goroutines take are bounded by the work left, plus
   what ticks and further callers of Stop add.
   */
  lemma {:induction false} ShutdownBounded(c: Config, s: State, steps: seq<Step>)
    requires s.stopped && IsRun(c, s, steps)
    ensures CountInternal(steps) + Rank(After(c, s, steps)) <= Rank(s) + ExternalWork(steps)
    decreases |steps|
  {
    if steps != [] {
      RankFalls(c, s, steps[0]);
      ShutdownBounded(c, Next(c, s, steps[0]), steps[1..]);
    }
  }

  /* The capacity is exact */

  ghost predicate Reaches(c: Config, s: State, s': State) {
    exists steps :: IsRun(c, s, steps) && After(c, s, steps) == s'
  }

  lemma ReachesSelf(c: Config, s: State)
    ensures Reaches(c, s, s)
  {
    assert IsRun(c, s, []) && After(c, s, []) == s;
  }

  /** One more step at the front. */
  lemma ReachesBy(c: Config, s: State, step: Step, s': State)
    requires Enabled(c, s, step) && Reaches(c, Next(c, s, step), s')
    ensures Reaches(c, s, s')
  {
    var steps :| IsRun(c, Next(c, s, step), steps) && After(c, Next(c, s, step), steps) == s';
    assert ([step] + steps)[1..] == steps;
    assert IsRun(c, s, [step] + steps) && After(c, s, [step] + steps) == s';
  }

  /**
   The coordinator at the head of its loop with `n` batches processing, `k` finishing and `b` completions
   buffered.
   */
  function Busy(n: nat, k: nat, b: nat): State {
    State(Head, n + k + b, true, false, n, k, b, b, n + k + b, 0, 0, 0, 0)
  }

  /** The coordinator gone and a caller of Stop waiting for it. */
  function Abandoned(k: nat, b: nat): State {
    State(Exited, k + b, true, true, 0, k, b, b, k + b, 0, 1, 0, 0)
  }

  lemma LeaveBusy(c: Config, k: nat, b: nat)
    requires k + b <= c.slots
    ensures Reaches(c, Busy(0, k, b), Abandoned(k, b))
  {
    var s := Busy(0, k, b);
    var s1 := Next(c, s, Stop);
    var s2 := Next(c, s1, Guard);
    var leave := if s2.pc == Checking then Check else Leave;
    var s3 := Next(c, s2, leave);
    ReachesSelf(c, Abandoned(k, b));
    ReachesBy(c, s3, Choose, Abandoned(k, b));
    ReachesBy(c, s2, leave, Abandoned(k, b));
    ReachesBy(c, s1, Guard, Abandoned(k, b));
    ReachesBy(c, s, Stop, Abandoned(k, b));
  }

  /** The finishing batches fill the channel. */
  lemma {:induction false} FillChannel(c: Config, k: nat, b: nat)
    requires k + b == c.capacity + 1 <= c.slots && 0 < k
    ensures Reaches(c, Busy(0, k, b), Abandoned(1, c.capacity))
    decreases k
  {
    if k == 1 {
      LeaveBusy(c, k, b);
    } else {
      FillChannel(c, k - 1, b + 1);
      var s := Busy(0, k, b);
      assert Next(c, s, Send) == s.(finishing := k - 1, buffered := b + 1, sent := b + 1);
      ReachesBy(c, s, Send, Abandoned(1, c.capacity));
    }
  }

  lemma {:induction false} FinishAll(c: Config, n: nat, k: nat)
    requires n + k == c.capacity + 1 <= c.slots
    ensures Reaches(c, Busy(n, k, 0), Abandoned(1, c.capacity))
    decreases n
  {
    if n == 0 {
      FillChannel(c, k, 0);
    } else {
      FinishAll(c, n - 1, k + 1);
      ReachesBy(c, Busy(n, k, 0), Process, Abandoned(1, c.capacity));
    }
  }

  lemma {:induction false} LaunchAll(c: Config, n: nat)
    requires n <= c.capacity + 1 <= c.slots
    ensures Reaches(c, Busy(n, 0, 0), Abandoned(1, c.capacity))
    decreases c.capacity + 1 - n
  {
    if n == c.capacity + 1 {
      FinishAll(c, n, 0);
    } else {
      LaunchAll(c, n + 1);
      var s, full := Busy(n, 0, 0), Claim(Claimed(if c.batchSize > 0 then c.batchSize else 1));
      var s1 := Next(c, s, Guard);
      var s2 := Next(c, s1, Check);
      assert Next(c, s2, full) == Busy(n + 1, 0, 0);
      ReachesBy(c, s2, full, Abandoned(1, c.capacity));
      ReachesBy(c, s1, Check, Abandoned(1, c.capacity));
      ReachesBy(c, s, Guard, Abandoned(1, c.capacity));
    }
  }

  /** A batch is stuck at its send with nobody to receive, and a caller of Stop waits for it. */
  predicate Stuck(c: Config, s: State) {
    s.pc == Exited && s.finishing > 0 && s.buffered == c.capacity && s.wg >= s.finishing && s.returned == 0
    && s.awaitDone + s.awaitBatches > 0
  }

  /** Stuck is for ever: the batch never ends and no call of Stop returns. */
  lemma {:induction false} StuckForever(c: Config, s: State, steps: seq<Step>)
    requires Stuck(c, s) && s.wg == s.processing + s.finishing + s.sent && IsRun(c, s, steps)
    ensures Stuck(c, After(c, s, steps))
    decreases |steps|
  {
    if steps != [] {
      StuckForever(c, Next(c, s, steps[0]), steps[1..]);
    }
  }

  lemma {:induction false} RunNotStuck(c: Config, s: State)
    requires Good(c, INIT) && Reaches(c, INIT, s)
    ensures !Stuck(c, s)
  {
    var steps :| IsRun(c, INIT, steps) && After(c, INIT, steps) == s;
    RunGood(c, INIT, steps);
  }

  /** A stuck state can be reached exactly when the channel has fewer places than there are slots. */
  lemma {:induction false} CapacityExact(c: Config)
    requires c.slots > 0
    ensures (exists s :: Reaches(c, INIT, s) && Stuck(c, s)) <==> c.capacity < c.slots
  {
    if c.capacity < c.slots {
      LaunchAll(c, 0);
      ReachesBy(c, INIT, Start, Abandoned(1, c.capacity));
      assert Stuck(c, Abandoned(1, c.capacity));
    } else {
      forall s | Reaches(c, INIT, s)
        ensures !Stuck(c, s)
      {
        RunNotStuck(c, s);
      }
    }
  }
}
