/**
 The Redis sliding-window rate limiter (internal/resilience/redis_ratelimiter.go:47-87): the script
 works on a sorted set in place, and is proved to agree with a plain log of admissions.
 Times are milliseconds; the workers' clocks and the Redis clock are taken to agree.
 */
module Limiter {
  import opened Domain

  /** A sorted-set member: the caller's clock and its own counter. */
  datatype Member = Member(at: int, counter: nat)

  /** One Redis key: its members with their scores, and when it expires. */
  datatype Zset = Zset(entries: map<Member, int>, expires: Option<int>)

  const EMPTY := Zset(map[], None)

  datatype Call = Call(now: int, limit: int, member: Member)

  /** The key as Redis shows it at time `now`: gone once it has expired. */
  function Visible(z: Zset, now: int): map<Member, int> {
    if z.expires.Some? && z.expires.value <= now then map[] else z.entries
  }

  /** ZREMRANGEBYSCORE key 0 (now - window) */
  function Trimmed(entries: map<Member, int>, now: int, window: int): map<Member, int> {
    map m | m in entries && !(0 <= entries[m] <= now - window) :: entries[m]
  }

  /** PEXPIRE: no effect on a missing key, and a time to live of nothing deletes the key. */
  function Expiring(entries: map<Member, int>, now: int, window: int): Zset {
    if entries == map[] || window <= 0 then EMPTY else Zset(entries, Some(now + window))
  }

  function Script(z: Zset, c: Call, window: int): (Zset, bool) {
    var entries := Trimmed(Visible(z, c.now), c.now, window);
    if |entries| < c.limit then (Expiring(entries[c.member := c.now], c.now, window), true)
    else (Expiring(entries, c.now, window), false)
  }

  datatype Decision = Decision(allowed: bool, retryAfter: int)

  /** The Redis side, mutated by the script. */
  class SortedSet {
    var entries: map<Member, int>
    var expires: Option<int>

    ghost function Value(): Zset
      reads this
    {
      Zset(entries, expires)
    }

    constructor ()
      ensures Value() == EMPTY
    {
      entries, expires := map[], None;
    }

    method Expire(now: int, window: int)
      modifies this
      ensures Value() == Expiring(old(entries), now, window)
    {
      if window <= 0 {
        entries := map[];
      }
      expires := if entries == map[] then None else Some(now + window);
    }

    method RunScript(c: Call, window: int) returns (allowed: bool)
      modifies this
      ensures (Value(), allowed) == Script(old(Value()), c, window)
    {
      if expires.Some? && expires.value <= c.now {
        entries := map[];
      }
      entries := map m | m in entries && !(0 <= entries[m] <= c.now - window) :: entries[m];
      var count := |entries|;
      if count < c.limit {
        entries := entries[c.member := c.now];
        Expire(c.now, window);
        return true;
      }
      Expire(c.now, window);
      return false;
    }
  }

  /** One worker's limiter; the counter is its own and the window is in nanoseconds. */
  class RedisRateLimiter {
    const window: int
    var counter: nat

    ghost predicate Valid()
      reads this
    {
      0 < window
    }

    constructor (configured: int)
      ensures Valid() && counter == 0
      ensures window == if configured <= 0 then 1_000_000_000 else configured
    {
      window := if configured <= 0 then 1_000_000_000 else configured;
      counter := 0;
    }

    /** Fails closed when Redis does not answer; otherwise the script decides. */
    method Allow(key: SortedSet, requestsPerSecond: int, now: int, reachable: bool)
      returns (d: Decision, ghost call: Call)
      requires Valid()
      modifies this, key
      ensures Valid()
      ensures counter == old(counter) + 1
      ensures call == Call(now, if requestsPerSecond > 0 then requestsPerSecond else 100, Member(now, counter))
      ensures !reachable ==> d == Decision(false, window) && key.Value() == old(key.Value())
      ensures reachable ==>
                && (key.Value(), d.allowed) == Script(old(key.Value()), call, window / 1_000_000)
                && d.retryAfter == if d.allowed then 0 else window
    {
      var limit := requestsPerSecond;
      if limit <= 0 {
        limit := DEFAULT_MAX_DELIVERY_RATE;
      }
      counter := counter + 1;
      var c := Call(now, limit, Member(now, counter));
      call := c;
      if !reachable {
        return Decision(false, window), call;
      }
      var allowed := key.RunScript(c, window / 1_000_000);
      d := if allowed then Decision(true, 0) else Decision(false, window);
    }
  }

  /* Whole call sequences */

  /** Calls, or admissions, in the order they were made. */
  datatype Log = Nothing | Then(before: Log, last: Call)

  function Size(log: Log): nat {
    if log.Nothing? then 0 else Size(log.before) + 1
  }

  predicate Has(log: Log, c: Call) {
    log.Then? && (log.last == c || Has(log.before, c))
  }

  function Members(log: Log): set<Member> {
    if log.Nothing? then {} else Members(log.before) + {log.last.member}
  }

  /** The admissions of a log in the half-open window (lo, hi]. */
  function Recent(log: Log, lo: int, hi: int): Log {
    if log.Nothing? then Nothing
    else if lo < log.last.now <= hi then Then(Recent(log.before, lo, hi), log.last)
    else Recent(log.before, lo, hi)
  }

  /** The key and the admissions after some calls. */
  datatype Trace = Trace(z: Zset, log: Log)

  /** One call of the script, with its effect on the log. */
  function Step(t: Trace, c: Call, window: nat): Trace {
    var (z, allowed) := Script(t.z, c, window);
    Trace(z, if allowed then Then(t.log, c) else t.log)
  }

  function Exec(calls: Log, window: nat): Trace {
    if calls.Nothing? then Trace(EMPTY, Nothing) else Step(Exec(calls.before, window), calls.last, window)
  }

  /** Admit while fewer than the limit lie within the window. */
  function Decide(log: Log, c: Call, window: nat): Log {
    if Size(Recent(log, c.now - window, c.now)) < c.limit then Then(log, c) else log
  }

  /** The reference: nothing but a log of admissions. */
  function Reference(calls: Log, window: nat): Log {
    if calls.Nothing? then Nothing else Decide(Reference(calls.before, window), calls.last, window)
  }

  /** A call carries a member stamped with its own time. */
  predicate WellStamped(c: Call) {
    0 <= c.now && c.member.at == c.now
  }

  predicate AllStamped(log: Log) {
    log.Then? ==> WellStamped(log.last) && AllStamped(log.before)
  }

  /** Every member is stored under the time it carries. */
  ghost predicate Scored(entries: map<Member, int>) {
    forall m <- entries :: entries[m] == m.at
  }

  predicate NoneAfter(log: Log, now: int) {
    log.Then? ==> log.last.now <= now && NoneAfter(log.before, now)
  }

  /** Calls as the workers make them: stamped, and time does not go back. */
  predicate Ordered(calls: Log) {
    calls.Then? ==> Ordered(calls.before) && WellStamped(calls.last) && NoneAfter(calls.before, calls.last.now)
  }

  /** No two calls share a member. */
  predicate DistinctMembers(calls: Log) {
    calls.Then? ==> DistinctMembers(calls.before) && calls.last.member !in Members(calls.before)
  }

  /** The members of a window are those admitted at all whose own stamp lies in it. */
  lemma {:induction false} WindowMeans(log: Log, lo: int, hi: int, m: Member)
    requires AllStamped(log)
    ensures m in Members(Recent(log, lo, hi)) <==> m in Members(log) && lo < m.at <= hi
  {
    if log.Then? {
      WindowMeans(log.before, lo, hi, m);
    }
  }

  lemma {:induction false} MemberTimes(log: Log, now: int, m: Member)
    requires AllStamped(log) && NoneAfter(log, now) && m in Members(log)
    ensures 0 <= m.at <= now
  {
    if m != log.last.member {
      MemberTimes(log.before, now, m);
    }
  }

  lemma {:induction false} NoneAfterLater(log: Log, earlier: int, now: int)
    requires NoneAfter(log, earlier) && earlier <= now
    ensures NoneAfter(log, now)
  {
    if log.Then? {
      NoneAfterLater(log.before, earlier, now);
    }
  }

  /** The stored set is the set of members admitted within the window, whether or not members collide. */
  ghost predicate Agrees(t: Trace, now: int, window: nat) {
    && t.z.entries.Keys == Members(Recent(t.log, now - window, now))
    && Scored(t.z.entries)
    && NoneAfter(t.log, now)
    && AllStamped(t.log)
    && (t.z.expires.Some? ==> t.z.expires.value == now + window)
  }

  /** Whatever the window held earlier, a member is still in it later exactly when its time is. */
  lemma WindowMoves(log: Log, earlier: int, now: int, window: nat, m: Member)
    requires NoneAfter(log, earlier) && AllStamped(log) && earlier <= now
    ensures m in Members(Recent(log, earlier - window, earlier)) ==> 0 <= m.at <= earlier
    ensures m in Members(Recent(log, now - window, now)) <==>
            m in Members(Recent(log, earlier - window, earlier)) && now - window < m.at
  {
    WindowMeans(log, earlier - window, earlier, m);
    WindowMeans(log, now - window, now, m);
    if m in Members(log) {
      MemberTimes(log, earlier, m);
    }
  }

  /** Trimming a key that agrees at an earlier time gives the window at the later one. */
  lemma TrimmedIsWindow(t: Trace, earlier: int, now: int, window: nat)
    requires Agrees(t, earlier, window) && earlier <= now
    ensures Trimmed(t.z.entries, now, window).Keys == Members(Recent(t.log, now - window, now))
  {
    forall m
      ensures m in Trimmed(t.z.entries, now, window) <==> m in Members(Recent(t.log, now - window, now))
    {
      WindowMoves(t.log, earlier, now, window, m);
    }
  }

  /** Once the key may have expired, trimming leaves nothing of it. */
  lemma ExpiredIsTrimmed(t: Trace, earlier: int, now: int, window: nat)
    requires Agrees(t, earlier, window) && earlier + window <= now
    ensures Trimmed(t.z.entries, now, window) == map[]
  {
    forall m
      ensures m !in Trimmed(t.z.entries, now, window)
    {
      WindowMoves(t.log, earlier, now, window, m);
    }
  }

  /** The script counts the window at `now`, and expiry makes no difference to it. */
  lemma TrimmedAgrees(t: Trace, earlier: int, now: int, window: nat)
    requires Agrees(t, earlier, window) && earlier <= now
    ensures Trimmed(Visible(t.z, now), now, window).Keys == Members(Recent(t.log, now - window, now))
    ensures Trimmed(Visible(t.z, now), now, window) == Trimmed(t.z.entries, now, window)
    ensures Scored(Trimmed(t.z.entries, now, window))
  {
    TrimmedIsWindow(t, earlier, now, window);
    if t.z.expires.Some? && t.z.expires.value <= now {
      ExpiredIsTrimmed(t, earlier, now, window);
    }
  }

  lemma {:induction false} RecentNone(log: Log, t: int)
    ensures Recent(log, t, t) == Nothing
  {
    if log.Then? {
      RecentNone(log.before, t);
    }
  }

  /** Setting the expiry keeps agreement. */
  lemma ExpiringAgrees(entries: map<Member, int>, log: Log, now: int, window: nat)
    requires window > 0 ==> entries.Keys == Members(Recent(log, now - window, now))
    requires Scored(entries) && NoneAfter(log, now) && AllStamped(log)
    ensures Agrees(Trace(Expiring(entries, now, window), log), now, window)
  {
    if window == 0 {
      RecentNone(log, now);
    }
  }

  /** Admitting a call whose window is stored keeps agreement. */
  lemma AdmittedAgrees(entries: map<Member, int>, log: Log, c: Call, window: nat)
    requires entries.Keys == Members(Recent(log, c.now - window, c.now))
    requires Scored(entries) && NoneAfter(log, c.now) && AllStamped(log) && WellStamped(c)
    ensures Agrees(Trace(Expiring(entries[c.member := c.now], c.now, window), Then(log, c)), c.now, window)
  {
    GrownEntries(entries, c.member);
    ExpiringAgrees(entries[c.member := c.now], Then(log, c), c.now, window);
  }

  lemma GrownEntries(entries: map<Member, int>, m: Member)
    requires Scored(entries)
    ensures entries[m := m.at].Keys == entries.Keys + {m} && Scored(entries[m := m.at])
  {
  }

  lemma ScriptAgrees(t: Trace, earlier: int, c: Call, window: nat)
    requires Agrees(t, earlier, window) && earlier <= c.now && WellStamped(c)
    ensures Agrees(Step(t, c, window), c.now, window)
  {
    TrimmedAgrees(t, earlier, c.now, window);
    NoneAfterLater(t.log, earlier, c.now);
    EitherAgrees(Trimmed(Visible(t.z, c.now), c.now, window), t.log, c, window);
  }

  /** Admitted or not, agreement is kept. */
  lemma EitherAgrees(entries: map<Member, int>, log: Log, c: Call, window: nat)
    requires entries.Keys == Members(Recent(log, c.now - window, c.now))
    requires Scored(entries) && NoneAfter(log, c.now) && AllStamped(log) && WellStamped(c)
    ensures Agrees(Trace(Expiring(entries[c.member := c.now], c.now, window), Then(log, c)), c.now, window)
    ensures Agrees(Trace(Expiring(entries, c.now, window), log), c.now, window)
  {
    AdmittedAgrees(entries, log, c, window);
    ExpiringAgrees(entries, log, c.now, window);
  }

  lemma {:induction false} ExecAgrees(calls: Log, window: nat)
    requires Ordered(calls) && calls.Then?
    ensures Agrees(Exec(calls, window), calls.last.now, window)
  {
    if calls.before.Nothing? {
      ScriptAgrees(Exec(calls.before, window), calls.last.now, calls.last, window);
    } else {
      ExecAgrees(calls.before, window);
      ScriptAgrees(Exec(calls.before, window), calls.before.last.now, calls.last, window);
    }
  }

  /** A log has as many members as admissions exactly when no member repeats. */
  lemma {:induction false} CountMembers(log: Log)
    ensures |Members(log)| <= Size(log)
    ensures DistinctMembers(log) <==> |Members(log)| == Size(log)
  {
    if log.Then? {
      CountMembers(log.before);
    }
  }

  lemma {:induction false} RecentMembers(log: Log, lo: int, hi: int)
    ensures Members(Recent(log, lo, hi)) <= Members(log) && Size(Recent(log, lo, hi)) <= Size(log)
  {
    if log.Then? {
      RecentMembers(log.before, lo, hi);
    }
  }

  lemma {:induction false} RecentDistinct(log: Log, lo: int, hi: int)
    requires DistinctMembers(log)
    ensures DistinctMembers(Recent(log, lo, hi))
  {
    if log.Then? {
      RecentDistinct(log.before, lo, hi);
      RecentMembers(log.before, lo, hi);
    }
  }

  /** After any calls, the script counts the members admitted within the window. */
  lemma {:induction false} ScriptCount(calls: Log, now: int, window: nat)
    requires Ordered(calls) && NoneAfter(calls, now)
    ensures var t := Exec(calls, window);
            |Trimmed(Visible(t.z, now), now, window)| == |Members(Recent(t.log, now - window, now))|
  {
    var t := Exec(calls, window);
    if calls.Then? {
      ExecAgrees(calls, window);
      TrimmedAgrees(t, calls.last.now, now, window);
    }
    CountKeys(Trimmed(Visible(t.z, now), now, window));
  }

  lemma CountKeys(entries: map<Member, int>)
    ensures |entries| == |entries.Keys|
  {
  }

  lemma StepDecides(t: Trace, c: Call, window: nat)
    ensures Step(t, c, window).log ==
            if |Trimmed(Visible(t.z, c.now), c.now, window)| < c.limit then Then(t.log, c) else t.log
  {
  }

  /** A log that counts members where the reference counts admissions. */
  function ByMembers(calls: Log, window: nat): Log {
    if calls.Nothing? then Nothing
    else
      var log, c := ByMembers(calls.before, window), calls.last;
      if |Members(Recent(log, c.now - window, c.now))| < c.limit then Then(log, c) else log
  }

  /** What the script does, whether or not members collide: it keeps exactly that log. */
  lemma {:induction false} ScriptGoesByMembers(calls: Log, window: nat)
    requires Ordered(calls)
    ensures Exec(calls, window).log == ByMembers(calls, window)
  {
    if calls.Then? {
      ScriptGoesByMembers(calls.before, window);
      ScriptCount(calls.before, calls.last.now, window);
      StepDecides(Exec(calls.before, window), calls.last, window);
    }
  }

  /** With distinct members the two counts coincide. */
  lemma {:induction false} SameCount(log: Log, lo: int, hi: int)
    requires DistinctMembers(log)
    ensures |Members(Recent(log, lo, hi))| == Size(Recent(log, lo, hi))
  {
    RecentDistinct(log, lo, hi);
    CountMembers(Recent(log, lo, hi));
  }

  lemma {:induction false} SameLog(calls: Log, window: nat)
    requires DistinctMembers(calls)
    ensures ByMembers(calls, window) == Reference(calls, window)
    ensures DistinctMembers(Reference(calls, window)) && Members(Reference(calls, window)) <= Members(calls)
  {
    if calls.Then? {
      SameLog(calls.before, window);
      SameCount(Reference(calls.before, window), calls.last.now - window, calls.last.now);
    }
  }

  /**
   The sliding window refines a log: for every sequence of calls with non-decreasing times and distinct
   members, the script admits exactly the calls the reference log admits.
   */
  lemma WindowRefinesLog(calls: Log, window: nat)
    requires Ordered(calls) && DistinctMembers(calls)
    ensures Exec(calls, window).log == Reference(calls, window)
  {
    ScriptGoesByMembers(calls, window);
    SameLog(calls, window);
  }

  lemma {:induction false} MembersMeans(log: Log, lo: int, hi: int, m: Member)
    ensures m in Members(Recent(log, lo, hi)) <==> exists c :: Has(log, c) && c.member == m && lo < c.now <= hi
  {
    if log.Then? {
      MembersMeans(log.before, lo, hi, m);
      assert Has(log, log.last);
      if c :| Has(log.before, c) && c.member == m && lo < c.now <= hi {
        assert Has(log, c);
      }
    }
  }

  /**
   After the last call the key holds exactly the members admitted in the half-open window that ends at
   it, each under the time of its admission; members may collide.
   */
  lemma StoredIsWindow(calls: Log, window: nat)
    requires Ordered(calls) && calls.Then?
    ensures var t, now := Exec(calls, window), calls.last.now;
            && (forall m :: m in t.z.entries <==>
                  exists c :: Has(t.log, c) && c.member == m && now - window < c.now <= now)
            && Scored(t.z.entries)
  {
    ExecAgrees(calls, window);
    AgreesMeans(Exec(calls, window), calls.last.now, window);
  }

  lemma AgreesMeans(t: Trace, now: int, window: nat)
    requires Agrees(t, now, window)
    ensures forall m :: m in t.z.entries <==>
                        exists c :: Has(t.log, c) && c.member == m && now - window < c.now <= now
  {
    forall m
      ensures m in t.z.entries <==> exists c :: Has(t.log, c) && c.member == m && now - window < c.now <= now
    {
      MembersMeans(t.log, now - window, now, m);
    }
  }

  /** Key expiry changes no decision: the next call sees the same members as if keys never expired. */
  lemma ExpiryChangesNothing(calls: Log, window: nat, now: int)
    requires Ordered(calls) && NoneAfter(calls, now)
    ensures var z := Exec(calls, window).z;
            Trimmed(Visible(z, now), now, window) == Trimmed(z.entries, now, window)
  {
    if calls.Then? {
      ExecAgrees(calls, window);
      TrimmedAgrees(Exec(calls, window), calls.last.now, now, window);
    }
  }

  /* The limit */

  /** A window that starts no earlier and reaches only into silent time holds no more. */
  lemma {:induction false} RecentNarrower(log: Log, lo: int, hi: int, lo': int, hi': int)
    requires lo <= lo' && NoneAfter(log, hi)
    ensures Size(Recent(log, lo', hi')) <= Size(Recent(log, lo, hi))
  {
    if log.Then? {
      RecentNarrower(log.before, lo, hi, lo', hi');
    }
  }

  predicate AllLimits(calls: Log, limit: nat) {
    calls.Then? ==> calls.last.limit == limit && AllLimits(calls.before, limit)
  }

  lemma {:induction false} ReferenceTimes(calls: Log, window: nat, now: int)
    requires NoneAfter(calls, now)
    ensures NoneAfter(Reference(calls, window), now)
  {
    if calls.Then? {
      ReferenceTimes(calls.before, window, now);
    }
  }

  /** One more decision overfills no window. */
  lemma DecisionFits(log: Log, c: Call, window: nat, t: int)
    requires Size(Recent(log, t - window, t)) <= c.limit && NoneAfter(log, c.now)
    ensures Size(Recent(Decide(log, c, window), t - window, t)) <= c.limit
  {
    if t - window < c.now <= t {
      RecentNarrower(log, c.now - window, c.now, t - window, t);
    }
  }

  /** With one fixed limit, no window of length W, wherever it is placed, holds more admissions than the limit. */
  lemma {:induction false} EveryWindowWithinLimit(calls: Log, window: nat, limit: nat, t: int)
    requires Ordered(calls) && AllLimits(calls, limit)
    ensures Size(Recent(Reference(calls, window), t - window, t)) <= limit
  {
    if calls.Then? {
      EveryWindowWithinLimit(calls.before, window, limit, t);
      ReferenceTimes(calls.before, window, calls.last.now);
      DecisionFits(Reference(calls.before, window), calls.last, window, t);
    }
  }

  /** The limit, for the script itself. */
  lemma ScriptWithinLimit(calls: Log, window: nat, limit: nat, t: int)
    requires Ordered(calls) && DistinctMembers(calls) && AllLimits(calls, limit)
    ensures Size(Recent(Exec(calls, window).log, t - window, t)) <= limit
  {
    WindowRefinesLog(calls, window);
    EveryWindowWithinLimit(calls, window, limit, t);
  }

  /* Exactly when the limiter is right */

  predicate IsPrefix(some: Log, calls: Log) {
    some == calls || (calls.Then? && IsPrefix(some, calls.before))
  }

  /** The same calls, at the same times and with the same members, under other limits. */
  predicate Relimited(calls: Log, calls': Log) {
    if calls.Nothing? then calls'.Nothing?
    else
      && calls'.Then? && calls'.last == calls.last.(limit := calls'.last.limit)
      && Relimited(calls.before, calls'.before)
  }

  predicate Follows(before: Log, c: Call) {
    WellStamped(c) && NoneAfter(before, c.now)
  }

  /** After these calls the script and the log decide alike on any call that may come next. */
  ghost predicate RightNext(before: Log, window: nat) {
    forall c :: Follows(before, c) ==> Exec(Then(before, c), window).log == Reference(Then(before, c), window)
  }

  /** The script decides as the log does, whatever the limits: after any number of these calls, under any limits. */
  ghost predicate AlwaysRight(calls: Log, window: nat) {
    forall some, before :: IsPrefix(some, calls) && Relimited(some, before) ==> RightNext(before, window)
  }

  lemma {:induction false} RelimitedTimes(calls: Log, calls': Log, now: int)
    requires Relimited(calls, calls') && NoneAfter(calls, now)
    ensures NoneAfter(calls', now)
  {
    if calls.Then? {
      RelimitedTimes(calls.before, calls'.before, now);
    }
  }

  lemma {:induction false} RelimitedKeeps(calls: Log, calls': Log)
    requires Relimited(calls, calls')
    ensures Members(calls') == Members(calls)
    ensures DistinctMembers(calls) <==> DistinctMembers(calls')
    ensures Ordered(calls) ==> Ordered(calls')
  {
    if calls.Then? {
      RelimitedKeeps(calls.before, calls'.before);
      if Ordered(calls) {
        RelimitedTimes(calls.before, calls'.before, calls.last.now);
      }
    }
  }

  lemma {:induction false} PrefixKeeps(some: Log, calls: Log)
    requires IsPrefix(some, calls)
    ensures Ordered(calls) ==> Ordered(some)
    ensures DistinctMembers(calls) ==> DistinctMembers(some)
  {
    if some != calls {
      PrefixKeeps(some, calls.before);
    }
  }

  /** One more call, whatever its member, is decided as the log decides it. */
  lemma NextRight(before: Log, c: Call, window: nat)
    requires Ordered(before) && DistinctMembers(before) && Follows(before, c)
    ensures Exec(Then(before, c), window).log == Reference(Then(before, c), window)
  {
    ScriptGoesByMembers(Then(before, c), window);
    SameNext(before, c, window);
  }

  lemma SameNext(before: Log, c: Call, window: nat)
    requires DistinctMembers(before)
    ensures ByMembers(Then(before, c), window) == Reference(Then(before, c), window)
  {
    SameLog(before, window);
    SameCount(Reference(before, window), c.now - window, c.now);
  }

  lemma {:induction false} DistinctAlwaysRight(calls: Log, window: nat)
    requires Ordered(calls) && DistinctMembers(calls)
    ensures AlwaysRight(calls, window)
  {
    forall some, before | IsPrefix(some, calls) && Relimited(some, before)
      ensures RightNext(before, window)
    {
      PrefixKeeps(some, calls);
      RelimitedKeeps(some, before);
      forall c | Follows(before, c)
        ensures Exec(Then(before, c), window).log == Reference(Then(before, c), window)
      {
        NextRight(before, c, window);
      }
    }
  }

  function Raised(calls: Log, limit: nat): Log {
    if calls.Nothing? then Nothing else Then(Raised(calls.before, limit), calls.last.(limit := limit))
  }

  lemma {:induction false} RaisedRelimits(calls: Log, limit: nat)
    ensures Relimited(calls, Raised(calls, limit)) && AllLimits(Raised(calls, limit), limit)
    ensures Size(Raised(calls, limit)) == Size(calls)
  {
    if calls.Then? {
      RaisedRelimits(calls.before, limit);
    }
  }

  /** With room for everything, both logs admit everything. */
  lemma {:induction false} AllAdmitted(calls: Log, window: nat, limit: nat)
    requires AllLimits(calls, limit) && Size(calls) <= limit
    ensures ByMembers(calls, window) == calls && Reference(calls, window) == calls
  {
    if calls.Then? {
      AllAdmitted(calls.before, window, limit);
      WindowFits(calls.before, calls.last.now - window, calls.last.now);
    }
  }

  lemma WindowFits(log: Log, lo: int, hi: int)
    ensures |Members(Recent(log, lo, hi))| <= Size(log) && Size(Recent(log, lo, hi)) <= Size(log)
  {
    RecentMembers(log, lo, hi);
    CountMembers(Recent(log, lo, hi));
  }

  lemma {:induction false} OrderedStamped(calls: Log)
    requires Ordered(calls)
    ensures AllStamped(calls)
  {
    if calls.Then? {
      OrderedStamped(calls.before);
    }
  }

  lemma {:induction false} SomeCollision(calls: Log) returns (some: Log)
    requires !DistinctMembers(calls)
    ensures IsPrefix(some, calls) && some.Then? && some.last.member in Members(some.before)
  {
    some := calls;
    if calls.last.member !in Members(calls.before) {
      some := SomeCollision(calls.before);
    }
  }

  /** A call that repeats an earlier member repeats it within its own window. */
  lemma CollidesInWindow(calls: Log, window: nat)
    requires Ordered(calls) && calls.Then? && calls.last.member in Members(calls.before) && 0 < window
    ensures !DistinctMembers(Recent(calls, calls.last.now - window, calls.last.now))
  {
    OrderedStamped(calls);
    WindowMeans(calls.before, calls.last.now - window, calls.last.now, calls.last.member);
  }

  /** After a collision, a call whose limit is the admissions of the window is refused by the log only. */
  lemma Misjudged(before: Log, window: nat) returns (c: Call)
    requires Ordered(before) && before.Then? && before.last.member in Members(before.before) && 0 < window
    requires ByMembers(before, window) == before && Reference(before, window) == before
    ensures Follows(before, c)
    ensures Exec(Then(before, c), window).log == Then(before, c) && Reference(Then(before, c), window) == before
  {
    var now := before.last.now;
    var recent := Recent(before, now - window, now);
    CollidesInWindow(before, window);
    CountMembers(recent);
    c := Call(now, Size(recent), Member(now, 0));
    ScriptGoesByMembers(Then(before, c), window);
  }

  /** From a collision on there are limits and a next call that the script gets wrong. */
  lemma {:induction false} CollisionWrong(calls: Log, window: nat) returns (some: Log, before: Log, c: Call)
    requires Ordered(calls) && 0 < window && !DistinctMembers(calls)
    ensures IsPrefix(some, calls) && Relimited(some, before) && Follows(before, c)
    ensures Exec(Then(before, c), window).log == Then(before, c) && Reference(Then(before, c), window) == before
  {
    some := SomeCollision(calls);
    before := Raised(some, Size(some));
    PrefixKeeps(some, calls);
    RaisedRelimits(some, Size(some));
    RelimitedKeeps(some, before);
    RelimitedKeeps(some.before, before.before);
    AllAdmitted(before, window, Size(some));
    c := Misjudged(before, window);
  }

  /** A window of no length holds nothing, and both admit alike. */
  lemma {:induction false} EmptyWindow(calls: Log)
    ensures ByMembers(calls, 0) == Reference(calls, 0)
  {
    if calls.Then? {
      EmptyWindow(calls.before);
      RecentNone(Reference(calls.before, 0), calls.last.now);
    }
  }

  lemma EmptyAlwaysRight(calls: Log)
    requires Ordered(calls)
    ensures AlwaysRight(calls, 0)
  {
    forall some, before, c | IsPrefix(some, calls) && Relimited(some, before) && Follows(before, c)
      ensures Exec(Then(before, c), 0).log == Reference(Then(before, c), 0)
    {
      PrefixKeeps(some, calls);
      RelimitedKeeps(some, before);
      ScriptGoesByMembers(Then(before, c), 0);
      EmptyWindow(Then(before, c));
    }
  }

  /**
   The exact condition on the calls: the script decides as the log does under all limits if and only if
   no two calls share a member (or the window is shorter than a millisecond, and holds nothing).
   */
  lemma AlwaysRightIff(calls: Log, window: nat)
    requires Ordered(calls)
    ensures AlwaysRight(calls, window) <==> DistinctMembers(calls) || window == 0
  {
    if window == 0 {
      EmptyAlwaysRight(calls);
    } else if DistinctMembers(calls) {
      DistinctAlwaysRight(calls, window);
    } else {
      var some, before, c := CollisionWrong(calls, window);
      assert !RightNext(before, window);
    }
  }

  /* Exactly when a fixed limit is kept */

  /** `all` goes on from `before` with calls whose members are new. */
  predicate Continues(before: Log, all: Log) {
    all == before || (all.Then? && Continues(before, all.before) && all.last.member !in Members(all.before))
  }

  /** The admissions in the window that ends at `t`. */
  function AdmittedAt(log: Log, window: nat, t: int): nat {
    Size(Recent(log, t - window, t))
  }

  /** No window of the script, wherever placed, holds more than the limit. */
  ghost predicate Within(calls: Log, window: nat, limit: nat) {
    forall t :: AdmittedAt(Exec(calls, window).log, window, t) <= limit
  }

  /** Whatever the one limit is, after any of these calls and any further ones with new members it is kept. */
  ghost predicate AlwaysWithin(calls: Log, window: nat) {
    forall some, limit, all ::
      IsPrefix(some, calls) && AllLimits(all, limit) && Continues(Raised(some, limit), all) && Ordered(all) ==>
        Within(all, window, limit)
  }

  lemma {:induction false} ContinuesDistinct(before: Log, all: Log)
    requires Continues(before, all) && DistinctMembers(before)
    ensures DistinctMembers(all)
  {
    if all != before {
      ContinuesDistinct(before, all.before);
    }
  }

  lemma {:induction false} DistinctAlwaysWithin(calls: Log, window: nat)
    requires DistinctMembers(calls)
    ensures AlwaysWithin(calls, window)
  {
    forall some, limit, all | IsPrefix(some, calls) && AllLimits(all, limit) && Continues(Raised(some, limit), all)
                              && Ordered(all)
      ensures Within(all, window, limit)
    {
      PrefixKeeps(some, calls);
      RaisedRelimits(some, limit);
      RelimitedKeeps(some, Raised(some, limit));
      ContinuesDistinct(Raised(some, limit), all);
      forall t
        ensures AdmittedAt(Exec(all, window).log, window, t) <= limit
      {
        ScriptWithinLimit(all, window, limit, t);
      }
    }
  }

  /** A counter no call has used. */
  function Unused(log: Log): nat {
    if log.Nothing? then 0
    else if Unused(log.before) <= log.last.member.counter then log.last.member.counter + 1
    else Unused(log.before)
  }

  lemma {:induction false} UnusedIsNew(log: Log, now: int, counter: nat)
    requires Unused(log) <= counter
    ensures Member(now, counter) !in Members(log)
  {
    if log.Then? {
      UnusedIsNew(log.before, now, counter);
    }
  }

  /** One more call at the same instant, with a new member. */
  function OneMore(all: Log, now: int, limit: nat): Log {
    Then(all, Call(now, limit, Member(now, Unused(all))))
  }

  /** A further call is admitted while the members of the window leave room, and adds one to both counts. */
  lemma MoreAdmitted(all: Log, now: int, window: nat, limit: nat)
    requires Ordered(all) && NoneAfter(all, now) && 0 <= now && 0 < window
    requires ByMembers(all, window) == all && |Members(Recent(all, now - window, now))| < limit
    ensures var more := OneMore(all, now, limit);
            && Ordered(more) && NoneAfter(more, now) && ByMembers(more, window) == more
            && Continues(all, more)
            && Size(Recent(more, now - window, now)) == Size(Recent(all, now - window, now)) + 1
            && |Members(Recent(more, now - window, now))| == |Members(Recent(all, now - window, now))| + 1
  {
    var recent := Recent(all, now - window, now);
    UnusedIsNew(all, now, Unused(all));
    RecentMembers(all, now - window, now);
    assert Member(now, Unused(all)) !in Members(recent);
  }

  lemma {:induction false} ContinuesOn(before: Log, all: Log, more: Log)
    requires Continues(before, all) && Continues(all, more)
    ensures Continues(before, more)
  {
    if more != all {
      ContinuesOn(before, all, more.before);
    }
  }

  /** Calls at one instant fill the window up to the limit in members, so past it in admissions. */
  lemma {:induction false} FillWindow(before: Log, all: Log, now: int, window: nat, limit: nat) returns (full: Log)
    requires Ordered(all) && NoneAfter(all, now) && 0 <= now && 0 < window && AllLimits(all, limit)
    requires ByMembers(all, window) == all && Continues(before, all)
    requires var recent := Recent(all, now - window, now);
             |Members(recent)| < Size(recent) && |Members(recent)| <= limit
    ensures Ordered(full) && AllLimits(full, limit) && ByMembers(full, window) == full && Continues(before, full)
    ensures Size(Recent(full, now - window, now)) > limit
    decreases limit - |Members(Recent(all, now - window, now))|
  {
    if |Members(Recent(all, now - window, now))| == limit {
      full := all;
    } else {
      MoreAdmitted(all, now, window, limit);
      ContinuesOn(before, all, OneMore(all, now, limit));
      full := FillWindow(before, OneMore(all, now, limit), now, window, limit);
    }
  }

  /** From a collision on there is a limit, and further calls with new members, for which a window overflows. */
  lemma {:induction false} CollisionOverflows(calls: Log, window: nat) returns (some: Log, limit: nat, full: Log)
    requires Ordered(calls) && 0 < window && !DistinctMembers(calls)
    ensures IsPrefix(some, calls) && AllLimits(full, limit) && Continues(Raised(some, limit), full) && Ordered(full)
    ensures !Within(full, window, limit)
  {
    some := SomeCollision(calls);
    limit := Size(some);
    PrefixKeeps(some, calls);
    var now := RaisedCollides(some, window);
    full := FillWindow(Raised(some, limit), Raised(some, limit), now, window, limit);
    Overflows(full, now, window, limit);
  }

  lemma Overflows(full: Log, now: int, window: nat, limit: nat)
    requires Ordered(full) && ByMembers(full, window) == full && Size(Recent(full, now - window, now)) > limit
    ensures !Within(full, window, limit)
  {
    ScriptGoesByMembers(full, window);
    assert AdmittedAt(Exec(full, window).log, window, now) > limit;
  }

  /** Calls that end in a collision, under a limit as large as they are many: all admitted, and one member too few. */
  lemma RaisedCollides(some: Log, window: nat) returns (now: int)
    requires Ordered(some) && some.Then? && some.last.member in Members(some.before) && 0 < window
    ensures var limit := Size(some);
            var before := Raised(some, limit);
            var recent := Recent(before, now - window, now);
            && Ordered(before) && NoneAfter(before, now) && 0 <= now && AllLimits(before, limit)
            && ByMembers(before, window) == before
            && |Members(recent)| < Size(recent) && |Members(recent)| <= limit
  {
    var limit := Size(some);
    var before := Raised(some, limit);
    RaisedRelimits(some, limit);
    RelimitedKeeps(some, before);
    RelimitedKeeps(some.before, before.before);
    AllAdmitted(before, window, limit);
    now := before.last.now;
    CollidesCounted(before, window);
    WindowFits(before, now - window, now);
  }

  lemma CollidesCounted(calls: Log, window: nat)
    requires Ordered(calls) && calls.Then? && calls.last.member in Members(calls.before) && 0 < window
    ensures var recent := Recent(calls, calls.last.now - window, calls.last.now);
            |Members(recent)| < Size(recent)
  {
    CollidesInWindow(calls, window);
    CountMembers(Recent(calls, calls.last.now - window, calls.last.now));
  }

  /**
   The exact condition for the limit itself: under every one limit, after any of these calls and any
   further ones with new members, no window of the script exceeds the limit, if and only if no two calls
   share a member (or the window is shorter than a millisecond).
   */
  lemma AlwaysWithinIff(calls: Log, window: nat)
    requires Ordered(calls)
    ensures AlwaysWithin(calls, window) <==> DistinctMembers(calls) || window == 0
  {
    if window == 0 {
      EmptyAlwaysWithin(calls);
    } else if DistinctMembers(calls) {
      DistinctAlwaysWithin(calls, window);
    } else {
      var some, limit, full := CollisionOverflows(calls, window);
    }
  }

  lemma EmptyAlwaysWithin(calls: Log)
    ensures AlwaysWithin(calls, 0)
  {
    forall all, limit: nat
      ensures Within(all, 0, limit)
    {
      forall t
        ensures AdmittedAt(Exec(all, 0).log, 0, t) <= limit
      {
        RecentNone(Exec(all, 0).log, t);
      }
    }
  }

  /** Two workers whose counters agree can admit three calls under a limit of two. */
  lemma CollisionExceedsLimit()
    ensures var same, other := Member(5, 1), Member(5, 2);
            var twice := Then(Then(Nothing, Call(5, 2, same)), Call(5, 2, same));
            var calls := Then(twice, Call(5, 2, other));
            Ordered(calls) && Size(Recent(Exec(calls, 1000).log, 5 - 1000, 5)) == 3
  {
    var same, other := Member(5, 1), Member(5, 2);
    var once := Then(Nothing, Call(5, 2, same));
    var twice := Then(once, Call(5, 2, same));
    var calls := Then(twice, Call(5, 2, other));
    ScriptGoesByMembers(calls, 1000);
    assert Recent(once, 5 - 1000, 5) == once && Recent(twice, 5 - 1000, 5) == twice;
    assert Members(twice) == {same};
    assert ByMembers(once, 1000) == once;
    assert ByMembers(twice, 1000) == twice;
    assert ByMembers(calls, 1000) == calls;
  }
}
