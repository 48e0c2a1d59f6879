/**
 One turn of work of the retry poller: the claim of due rows and the processing of the batch
 (internal/retry/poller.go:146-166, 195-259).
 */
module Polling {
  import opened Domain
  import opened Execution
  import opened Store
  import opened Reachability
  import opened Repository
  import opened Processing
  import Poller

  /**
   Claims the due rows that come first and processes them. The outcome is what the scheduler goes by;
   on a database of the protocol the batch stops only where an outcome cannot be persisted, and the
   database stays one of the protocol.
   */
  method PollOnce(repo: EventRepository, owner: string, leaseNanos: int, limit: nat, locked: set<Key>, claim: bool,
                  persist: nat -> bool, observe: Option<Row> -> Observed)
    returns (outcome: Poller.Outcome, failure: Failure, ghost trail: Trail)
    modifies repo
    ensures leaseNanos > 0 && Real(old(repo.Db())) ==> Real(repo.Db())
    ensures !claim ==> outcome == Poller.Errored && repo.Db() == old(repo.Db())
    ensures claim ==>
              && trail.atClaim == old(repo.Db()) && outcome == Poller.Claimed(|trail.keys|)
              && IsPick(PollWeights(old(repo.Db()), locked), limit, trail.keys)
              && Worked(trail, owner, PostgresInterval(leaseNanos), observe, repo.Db())
              && (failure == NoFailure <==> Complete(trail))
              && (failure != NoFailure && Real(old(repo.Db())) ==> !persist(|trail.dbs| - 1))
  {
    ghost var atClaim := repo.Db();
    trail := Trail(atClaim, [], [atClaim]);
    if !claim {
      return Poller.Errored, Unavailable, trail;
    }
    var keys, claimed := repo.ClaimDeliveries(owner, leaseNanos, limit, locked);
    PollTakes(atClaim, locked, limit, keys);
    outcome := Poller.Claimed(|claimed|);
    var lists;
    lists, failure, trail := ProcessClaimed(repo, claimed, persist, observe, atClaim, keys, owner,
                                            PostgresInterval(leaseNanos));
    TrailReal(trail, owner, PostgresInterval(leaseNanos), observe, repo.Db());
  }
}
