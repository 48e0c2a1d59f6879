/**
 The coordinator's loop itself (internal/retry/poller.go:117-181), as an object whose method works on
 its own counters and on what it shares with the batches and the callers of Stop. It is proved to
 make only runs of the step relation, so everything proved of those runs holds of the loop.
 */
module Scheduling {
  import opened Poller

  /**
   One turn of the schedule: what the other goroutines do before the coordinator looks for a stop, and
   between that check and its claim; how the claim ends if it makes one; and which ready branch its
   blocking select takes.
   */
  datatype Turn = Turn(others: seq<Step>, late: seq<Step>, outcome: Outcome, branch: Step)

  /** The states a run goes through, from the start. */
  ghost predicate Path(c: Config, states: seq<State>, trace: seq<Step>) {
    && |states| == |trace| + 1 && states[0] == INIT
    && forall i :: 0 <= i < |trace| ==> Enabled(c, states[i], trace[i]) && states[i + 1] == Next(c, states[i], trace[i])
  }

  lemma PathExtends(c: Config, states: seq<State>, trace: seq<Step>, step: Step)
    requires Path(c, states, trace) && Enabled(c, states[|trace|], step)
    ensures Path(c, states + [Next(c, states[|trace|], step)], trace + [step])
  {
    var states', trace' := states + [Next(c, states[|trace|], step)], trace + [step];
    forall i | 0 <= i < |trace'|
      ensures Enabled(c, states'[i], trace'[i]) && states'[i + 1] == Next(c, states'[i], trace'[i])
    {
      if i < |trace| {
        assert states'[i] == states[i] && states'[i + 1] == states[i + 1] && trace'[i] == trace[i];
      }
    }
  }

  /** Such a path is a run of the step relation that ends in its last state. */
  lemma {:induction false} PathIsRun(c: Config, states: seq<State>, trace: seq<Step>, i: nat)
    requires Path(c, states, trace) && i <= |trace|
    ensures IsRun(c, states[i], trace[i..]) && After(c, states[i], trace[i..]) == states[|trace|]
    decreases |trace| - i
  {
    if i < |trace| {
      PathIsRun(c, states, trace, i + 1);
      assert trace[i..][0] == trace[i] && trace[i..][1..] == trace[i + 1..];
    }
  }

  /** What the other goroutines do of the given steps: those they can take, in order. */
  function Perform(c: Config, s: State, steps: seq<Step>): (s': State)
    ensures s'.pc == s.pc && s'.active == s.active && s'.draining == s.draining
  {
    if steps == [] then s
    else
      var before, step := Perform(c, s, steps[..|steps| - 1]), steps[|steps| - 1];
      if !Own(step) && Enabled(c, before, step) then Next(c, before, step) else before
  }

  /**
   One turn: with work to drain and a free slot the coordinator checks for a stop and claims;
   otherwise it waits in its select until the chosen branch is ready.
   */
  function Turned(c: Config, s: State, turn: Turn): (s': State)
    requires s.pc in {Head, Waiting}
    ensures s'.pc in {Exited, Head, Waiting}
  {
    if s.pc == Head && s.draining && s.active < c.slots then
      var ready := Perform(c, s.(pc := Checking), turn.others);
      if ready.stopped then ready.(pc := Exited)
      else Batched(c, Perform(c, ready.(pc := Claiming), turn.late), turn.outcome)
    else
      Selected(c, s.(pc := Waiting), turn)
  }

  /** A claim of some rows starts a batch, and ends the draining if it was not full; any other ends it and waits. */
  function Batched(c: Config, s: State, outcome: Outcome): (s': State)
    ensures s'.pc in {Head, Waiting}
  {
    if outcome.Claimed? && 0 < outcome.count then
      s.(pc := Head, active := s.active + 1, draining := s.draining && c.batchSize <= outcome.count,
         processing := s.processing + 1, wg := s.wg + 1)
    else s.(pc := Waiting, draining := false)
  }

  /** The select: a stop ends it, a tick starts draining, a completion frees a slot, each only when ready. */
  function Selected(c: Config, s: State, turn: Turn): (s': State)
    requires s.pc == Waiting
    ensures s'.pc in {Exited, Head, Waiting}
  {
    var ready := Perform(c, s, turn.others);
    if turn.branch == Leave && ready.stopped then ready.(pc := Exited)
    else if turn.branch == Tick then ready.(pc := Head, draining := true)
    else if turn.branch == Receive && ready.buffered > 0 then
      ready.(pc := Head, active := ready.active - 1, buffered := ready.buffered - 1)
    else ready
  }

  /** The state after the first `t` turns, the coordinator having returned once it has seen a stop. */
  function Drive(c: Config, s: State, turns: seq<Turn>, t: nat): (s': State)
    requires s.pc in {Exited, Head, Waiting} && t <= |turns|
    ensures s'.pc in {Exited, Head, Waiting}
  {
    if t == 0 then s
    else
      var before := Drive(c, s, turns, t - 1);
      if before.pc == Exited then before else Turned(c, before, turns[t - 1])
  }

  /** This turn finds work to drain, a free slot, and no stop signal before the coordinator looks for one. */
  predicate FindsWork(c: Config, s: State, turn: Turn) {
    && s.pc == Head && s.draining && s.active < c.slots
    && !s.stopped && NeverStops(turn.others)
  }

  /** How many of the first `t` turns do. */
  function ClaimTurns(c: Config, s: State, turns: seq<Turn>, t: nat): nat
    requires s.pc in {Exited, Head, Waiting} && t <= |turns|
  {
    if t == 0 then 0
    else
      ClaimTurns(c, s, turns, t - 1) + (if FindsWork(c, Drive(c, s, turns, t - 1), turns[t - 1]) then 1 else 0)
  }

  lemma {:induction false} PerformStops(c: Config, s: State, steps: seq<Step>)
    ensures Perform(c, s, steps).stopped <==> s.stopped || !NeverStops(steps)
  {
    if steps != [] {
      var n := |steps| - 1;
      PerformStops(c, s, steps[..n]);
      assert steps == steps[..n] + [steps[n]];
    }
  }

  lemma {:induction false} ClaimsAppend(steps: seq<Step>, step: Step)
    ensures ClaimsIn(steps + [step]) == ClaimsIn(steps) + if step.Claim? then 1 else 0
  {
    if steps == [] {
      assert [] + [step] == [step] && [step][1..] == [];
    } else {
      assert (steps + [step])[1..] == steps[1..] + [step];
      ClaimsAppend(steps[1..], step);
    }
  }

  /** The turn after a tick finds work whenever a slot is free and no stop has come by its check. */
  lemma TickThenWork(c: Config, s: State, turn: Turn, next: Turn)
    requires s.pc in {Head, Waiting} && !(s.pc == Head && s.draining && s.active < c.slots) && turn.branch == Tick
    ensures var s' := Turned(c, s, turn);
            && s'.active == s.active
            && (s.active < c.slots && !s.stopped && NeverStops(turn.others) && NeverStops(next.others) ==>
                  FindsWork(c, s', next))
  {
    PerformStops(c, s.(pc := Waiting), turn.others);
  }

  /** The turn after a full claim finds work whenever a slot is still free and no stop has come by its check. */
  lemma FullThenWork(c: Config, s: State, turn: Turn, next: Turn)
    requires FindsWork(c, s, turn) && turn.outcome.Claimed?
    requires 0 < turn.outcome.count && c.batchSize <= turn.outcome.count
    ensures var s' := Turned(c, s, turn);
            && s'.active == s.active + 1
            && (s.active + 1 < c.slots && NeverStops(turn.late) && NeverStops(next.others) ==> FindsWork(c, s', next))
  {
    var ready := Perform(c, s.(pc := Checking), turn.others);
    PerformStops(c, s.(pc := Checking), turn.others);
    PerformStops(c, ready.(pc := Claiming), turn.late);
  }

  /** Once the coordinator has seen a stop it takes no further turn. */
  lemma {:induction false} ExitedStays(c: Config, s: State, turns: seq<Turn>, t: nat, n: nat)
    requires s.pc in {Exited, Head, Waiting} && t <= n <= |turns| && Drive(c, s, turns, t).pc == Exited
    ensures Drive(c, s, turns, n) == Drive(c, s, turns, t)
    ensures ClaimTurns(c, s, turns, n) == ClaimTurns(c, s, turns, t)
    decreases n - t
  {
    if t < n {
      ExitedNext(c, s, turns, t);
      ExitedStays(c, s, turns, t + 1, n);
    }
  }

  lemma ExitedNext(c: Config, s: State, turns: seq<Turn>, t: nat)
    requires s.pc in {Exited, Head, Waiting} && t < |turns| && Drive(c, s, turns, t).pc == Exited
    ensures Drive(c, s, turns, t + 1) == Drive(c, s, turns, t)
    ensures ClaimTurns(c, s, turns, t + 1) == ClaimTurns(c, s, turns, t)
  {
  }

  /** One turn further. */
  lemma TurnTaken(c: Config, start: State, turns: seq<Turn>, t: nat, s: State, s': State)
    requires start.pc in {Exited, Head, Waiting} && t < |turns| && s == Drive(c, start, turns, t)
    requires s.pc != Exited && s' == Turned(c, s, turns[t])
    ensures s' == Drive(c, start, turns, t + 1)
    ensures ClaimTurns(c, start, turns, t + 1) ==
            ClaimTurns(c, start, turns, t) + if FindsWork(c, s, turns[t]) then 1 else 0
  {
  }

  class Scheduler {
    const config: Config
    var shared: State
    ghost var trace: seq<Step>
    ghost var states: seq<State>

    constructor (config: Config)
      ensures this.config == config && Running(Unstarted, 0, true)
    {
      this.config, shared, trace, states := config, INIT, [], [INIT];
    }

    /** The whole state: what is shared, with the coordinator's place and its two local variables. */
    ghost function At(pc: Pc, active: int, draining: bool): State
      reads this
    {
      shared.(pc := pc, active := active, draining := draining)
    }

    ghost predicate Running(pc: Pc, active: int, draining: bool)
      reads this
    {
      Path(config, states, trace) && states[|trace|] == At(pc, active, draining)
    }

    /** The other goroutines take those of the given steps they can take. */
    method Others(steps: seq<Step>, pc: Pc, active: int, draining: bool)
      requires Running(pc, active, draining)
      modifies this
      ensures Running(pc, active, draining)
      ensures At(pc, active, draining) == Perform(config, old(At(pc, active, draining)), steps)
      ensures ClaimsIn(trace) == ClaimsIn(old(trace))
    {
      for i := 0 to |steps|
        invariant Running(pc, active, draining)
        invariant At(pc, active, draining) == Perform(config, old(At(pc, active, draining)), steps[..i])
        invariant ClaimsIn(trace) == ClaimsIn(old(trace))
      {
        assert steps[..i + 1][..i] == steps[..i];
        var state := shared.(pc := pc, active := active, draining := draining);
        if !Own(steps[i]) && Enabled(config, state, steps[i]) {
          PathExtends(config, states, trace, steps[i]);
          ClaimsAppend(trace, steps[i]);
          shared := Next(config, state, steps[i]);
          trace, states := trace + [steps[i]], states + [shared];
        }
      }
      assert steps[..|steps|] == steps;
    }

    /** Records a step of the coordinator whose effect has been worked out. */
    ghost method Record(step: Step, s: State, s': State)
      requires Path(config, states, trace) && states[|trace|] == s
      requires Enabled(config, s, step) && s' == Next(config, s, step)
      modifies this`trace, this`states
      ensures Path(config, states, trace) && states[|trace|] == s'
      ensures ClaimsIn(trace) == ClaimsIn(old(trace)) + if step.Claim? then 1 else 0
    {
      PathExtends(config, states, trace, step);
      ClaimsAppend(trace, step);
      trace, states := trace + [step], states + [s'];
    }

    /** Starts the goroutine of a claimed batch. */
    method StartBatch()
      modifies this`shared
      ensures shared == old(shared).(processing := old(shared).processing + 1, wg := old(shared).wg + 1)
    {
      shared := shared.(wg := shared.wg + 1);
      shared := shared.(processing := shared.processing + 1);
    }

    /** The claim of the inner loop and what follows from its result. */
    method ClaimBatch(outcome: Outcome, active: int) returns (pc: Pc, active': int, draining: bool)
      requires Running(Claiming, active, true)
      modifies this
      ensures Running(pc, active', draining)
      ensures At(pc, active', draining) == Batched(config, old(At(Claiming, active, true)), outcome)
      ensures ClaimsIn(trace) == ClaimsIn(old(trace)) + 1
    {
      ghost var before := At(Claiming, active, true);
      active', draining := active, true;
      if outcome.Errored? || outcome.count == 0 {
        draining, pc := false, Waiting;
      } else {
        active' := active + 1;
        if outcome.count < config.batchSize {
          draining := false;
        }
        StartBatch();
        pc := Head;
      }
      Record(Claim(outcome), before, At(pc, active', draining));
    }

    /** One pass of the inner loop: the non-blocking check, then the claim. */
    method TryClaim(turn: Turn, active: int) returns (pc: Pc, active': int, draining: bool)
      requires Running(Head, active, true) && active < config.slots
      modifies this
      ensures Running(pc, active', draining)
      ensures At(pc, active', draining) == Turned(config, old(At(Head, active, true)), turn)
      ensures ClaimsIn(trace) == ClaimsIn(old(trace)) +
                if FindsWork(config, old(At(Head, active, true)), turn) then 1 else 0
    {
      PerformStops(config, At(Checking, active, true), turn.others);
      Record(Guard, At(Head, active, true), At(Checking, active, true));
      Others(turn.others, Checking, active, true);
      if shared.stopped {
        Record(Check, At(Checking, active, true), At(Exited, active, true));
        return Exited, active, true;
      }
      Record(Check, At(Checking, active, true), At(Claiming, active, true));
      Others(turn.late, Claiming, active, true);
      pc, active', draining := ClaimBatch(turn.outcome, active);
    }

    /** The blocking select: stays where it is as long as the branch it would take is not ready. */
    method Select(turn: Turn, active: int, draining: bool) returns (pc: Pc, active': int, draining': bool)
      requires Running(Waiting, active, draining)
      modifies this
      ensures Running(pc, active', draining')
      ensures At(pc, active', draining') == Selected(config, old(At(Waiting, active, draining)), turn)
      ensures ClaimsIn(trace) == ClaimsIn(old(trace))
    {
      Others(turn.others, Waiting, active, draining);
      pc, active', draining' := Waiting, active, draining;
      ghost var before := At(Waiting, active, draining);
      if turn.branch == Leave && shared.stopped {
        pc := Exited;
        Record(Leave, before, At(pc, active', draining'));
      } else if turn.branch == Tick {
        pc, draining' := Head, true;
        Record(Tick, before, At(pc, active', draining'));
      } else if turn.branch == Receive && shared.buffered > 0 {
        shared := shared.(buffered := shared.buffered - 1);
        pc, active' := Head, active - 1;
        Record(Receive, before, At(pc, active', draining'));
      }
    }

    /** The end of one pass of the outer loop, with nothing to claim: wait for a branch of the select. */
    method Wait(turn: Turn, pc: Pc, active: int, draining: bool) returns (pc': Pc, active': int, draining': bool)
      requires Running(pc, active, draining) && pc in {Head, Waiting}
      requires !(pc == Head && draining && active < config.slots)
      modifies this
      ensures Running(pc', active', draining')
      ensures At(pc', active', draining') == Turned(config, old(At(pc, active, draining)), turn)
      ensures ClaimsIn(trace) == ClaimsIn(old(trace))
    {
      if pc == Head {
        Record(Guard, At(Head, active, draining), At(Waiting, active, draining));
      }
      pc', active', draining' := Select(turn, active, draining);
    }

    /** After `t` turns of the schedule the coordinator is here, and has made this many claims. */
    ghost predicate Reached(start: State, turns: seq<Turn>, t: nat, pc: Pc, active: int, draining: bool, before: nat)
      requires start.pc == Head
      reads this
    {
      && t <= |turns| && Running(pc, active, draining) && At(pc, active, draining) == Drive(config, start, turns, t)
      && ClaimsIn(trace) == before + ClaimTurns(config, start, turns, t)
    }

    /** The inner loop: claims while there is work to drain and a free slot. */
    method Drain(turns: seq<Turn>, t: nat, pc: Pc, active: int, draining: bool, ghost start: State,
                 ghost before: nat)
      returns (t': nat, pc': Pc, active': int, draining': bool)
      requires start.pc == Head && Reached(start, turns, t, pc, active, draining, before)
      modifies this
      ensures t <= t' && Reached(start, turns, t', pc', active', draining', before)
      ensures t' == |turns| || !(pc' == Head && draining' && active' < config.slots)
    {
      t', pc', active', draining' := t, pc, active, draining;
      while pc' == Head && draining' && active' < config.slots && t' < |turns|
        invariant t <= t' && Reached(start, turns, t', pc', active', draining', before)
        decreases |turns| - t'
      {
        pc', active', draining' := ClaimTurn(turns, t', active', start, before);
        t' := t' + 1;
      }
    }

    /** A turn of the inner loop. */
    method ClaimTurn(turns: seq<Turn>, t: nat, active: int, ghost start: State, ghost before: nat)
      returns (pc: Pc, active': int, draining: bool)
      requires start.pc == Head && Reached(start, turns, t, Head, active, true, before)
      requires t < |turns| && active < config.slots
      modifies this
      ensures Reached(start, turns, t + 1, pc, active', draining, before)
    {
      ghost var s := At(Head, active, true);
      pc, active', draining := TryClaim(turns[t], active);
      TurnTaken(config, start, turns, t, s, At(pc, active', draining));
    }

    /** A turn of the select. */
    method WaitTurn(turns: seq<Turn>, t: nat, pc: Pc, active: int, draining: bool, ghost start: State,
                    ghost before: nat)
      returns (pc': Pc, active': int, draining': bool)
      requires start.pc == Head && Reached(start, turns, t, pc, active, draining, before) && t < |turns|
      requires pc in {Head, Waiting} && !(pc == Head && draining && active < config.slots)
      modifies this
      ensures Reached(start, turns, t + 1, pc', active', draining', before)
    {
      ghost var s := At(pc, active, draining);
      pc', active', draining' := Wait(turns[t], pc, active, draining);
      TurnTaken(config, start, turns, t, s, At(pc', active', draining'));
    }

    /** One pass of the outer loop: claim as long as there is work and a free slot, then wait. */
    method Pass(turns: seq<Turn>, t: nat, pc: Pc, active: int, draining: bool, ghost start: State, ghost before: nat)
      returns (t': nat, pc': Pc, active': int, draining': bool)
      requires start.pc == Head && Reached(start, turns, t, pc, active, draining, before)
      requires pc != Exited && t < |turns|
      modifies this
      ensures (t < t' || pc' == Exited) && t <= t' && Reached(start, turns, t', pc', active', draining', before)
    {
      t', pc', active', draining' := Drain(turns, t, pc, active, draining, start, before);
      if pc' == Exited || t' == |turns| {
        return;
      }
      pc', active', draining' := WaitTurn(turns, t', pc', active', draining', start, before);
      t' := t' + 1;
    }

    /**
     The loop, for as many turns as the schedule has. It claims in exactly those turns that find work to
     drain, a free slot and no stop signal.
     */
    method Start(turns: seq<Turn>) returns (pc: Pc, activeBatches: int, draining: bool)
      requires Running(Unstarted, 0, true)
      modifies this
      ensures Running(pc, activeBatches, draining)
      ensures IsRun(config, INIT, trace) && After(config, INIT, trace) == At(pc, activeBatches, draining)
      ensures At(pc, activeBatches, draining) == Drive(config, old(At(Head, 0, true)), turns, |turns|)
      ensures ClaimsIn(trace) == ClaimsIn(old(trace)) + ClaimTurns(config, old(At(Head, 0, true)), turns, |turns|)
    {
      ghost var start, before := At(Head, 0, true), ClaimsIn(trace);
      pc, activeBatches, draining := Head, 0, true;
      Record(Poller.Start, At(Unstarted, 0, true), start);
      var t := 0;
      while pc != Exited && t < |turns|
        invariant Reached(start, turns, t, pc, activeBatches, draining, before)
        decreases |turns| - t, if pc == Exited then 0 else 1
      {
        t, pc, activeBatches, draining := Pass(turns, t, pc, activeBatches, draining, start, before);
      }
      if pc == Exited {
        ExitedStays(config, start, turns, t, |turns|);
      }
      PathIsRun(config, states, trace, 0);
      assert trace[0..] == trace;
    }
  }
}
