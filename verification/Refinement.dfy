/**
 Every run of the multi-worker lease protocol, seen through any one row, is a run of the one-worker
 delivery machine: each commit applies to exactly the attempts and generation its worker read, and
 claims, expiries, lost writes and crashes are stutter steps.
 */
module Refinement {
  import opened Domain
  import opened Execution
  import opened Store
  import opened Lease

  function MachineAt(s: State, k: Key): Machine {
    if k in s.db.rows then Seen(s.db.rows[k]) else Absent
  }

  /** Where a delivery of this event to this subscription goes, and what it carries. */
  function Destination(ev: EventInput, sub: Subscription): Target {
    Target(ev.eventType, ev.source, ev.data, sub.url, sub.secret, if sub.maxRate > 0 then sub.maxRate else 100)
  }

  /** The move a step makes on the row `k`; None for the steps that leave its machine where it is. */
  ghost function MoveOf(s: State, step: Step, k: Key): Option<Move>
    requires Enabled(s, step)
  {
    match step
    case Init(ev, subs, at) =>
      var sub := FirstFor(subs, k.sub);
      if k !in s.db.rows && k.event == ev.id && sub.Some?
      then Some(Create(ev.attempts, if ev.maxAttempts == 0 then 5 else ev.maxAttempts, Destination(ev, sub.value)))
      else None
    case PersistOutcome(c, listing) =>
      var claim := s.claims[c];
      if claim.copy.key == k && Written(s, c, listing).Some?
      then Some(Commit(claim.copy.attempts, claim.copy.generation, claim.progress.observed)) else None
    case ReplayRow(key, at, listing) =>
      if key == k && Replay(s.db, key, at, listing).Some? then Some(Restart(at)) else None
    case Purge(e, _) => if k in s.db.rows && k.event == e then Some(Remove) else None
    case _ => None
  }

  /** The machine makes the move, or stays where it is. */
  ghost predicate Follows(before: Machine, move: Option<Move>, after: Machine) {
    match move
    case None => after == before
    case Some(m) => Play(before, m) == Some(after)
  }

  lemma InitRefines(s: State, ev: EventInput, subs: seq<Option<Subscription>>, at: Time, k: Key)
    requires Safe(s)
    ensures var step := Init(ev, subs, at);
            Follows(MachineAt(s, k), MoveOf(s, step, k), MachineAt(Next(s, step), k))
  {
    InitMeans(s, ev, subs, at);
    InsertRowsMeans(s.db.rows, ev, subs, at);
  }

  lemma PersistRefines(s: State, c: nat, listing: seq<Key>, k: Key)
    requires Safe(s) && Enabled(s, PersistOutcome(c, listing))
    ensures var step := PersistOutcome(c, listing);
            Follows(MachineAt(s, k), MoveOf(s, step, k), MachineAt(Next(s, step), k))
  {
    WrittenMeans(s, c, listing);
    ExecutedSettles(s.claims[c].copy, s.claims[c].progress.observed);
  }

  /** One step of the protocol is one move of the row's machine, or none. */
  lemma {:induction false} StepRefines(s: State, step: Step, k: Key)
    requires Safe(s) && Enabled(s, step)
    ensures Follows(MachineAt(s, k), MoveOf(s, step, k), MachineAt(Next(s, step), k))
  {
    match step
    case Init(ev, subs, at) => InitRefines(s, ev, subs, at, k);
    case PersistOutcome(c, listing) => PersistRefines(s, c, listing, k);
    case _ =>
  }

  /** The moves a run makes on one row, in order. */
  ghost function Moves(ss: seq<State>, steps: seq<Step>, k: Key, n: nat): seq<Move>
    requires IsRun(ss, steps) && n <= |steps|
  {
    if n == 0 then []
    else
      var move := MoveOf(ss[n - 1], steps[n - 1], k);
      Moves(ss, steps, k, n - 1) + (if move.Some? then [move.value] else [])
  }

  /** The machine after a sequence of moves; None as soon as one of them is not possible. */
  function PlayAll(m: Machine, moves: seq<Move>): Option<Machine> {
    if moves == [] then Some(m)
    else
      var before := PlayAll(m, moves[..|moves| - 1]);
      if before.None? then None else Play(before.value, moves[|moves| - 1])
  }

  /** Refinement: the moves of a run, on any row, form a run of the one-worker machine that ends where the row is. */
  lemma {:induction false} RunRefines(ss: seq<State>, steps: seq<Step>, k: Key, n: nat)
    requires IsRun(ss, steps) && n <= |steps|
    ensures PlayAll(Absent, Moves(ss, steps, k, n)) == Some(MachineAt(ss[n], k))
  {
    if n > 0 {
      RunRefines(ss, steps, k, n - 1);
      RunSafe(ss, steps, n - 1);
      StepRefines(ss[n - 1], steps[n - 1], k);
      var before := Moves(ss, steps, k, n - 1);
      var move := MoveOf(ss[n - 1], steps[n - 1], k);
      if move.Some? {
        assert (before + [move.value])[..|before|] == before;
      } else {
        assert before + [] == before;
      }
    }
  }
}
