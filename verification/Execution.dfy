/**
 One delivery attempt: the rate check, the HTTP call, the retry decision and its effect on the
 worker's copy (internal/kafka/delivery.go, internal/kafka/handler.go:378-411), and the simple
 one-worker delivery machine it is measured against.
 */
module Execution {
  import opened Domain

  /** What the outbound call gave: a response with its code, or no response at all. */
  datatype HttpResult = Response(code: int, body: string, error: string) | NoResponse(error: string)

  /** The rate limiter refused the attempt, or the call was made. */
  datatype Verdict = Limited(retryAfter: int) | Called(http: HttpResult)

  /**
   Everything a worker observes while executing one claim: the verdict, its clock when the result is
   known, one backoff draw, and its clock when the copy is stamped.
   */
  datatype Observed = Observed(verdict: Verdict, at: Time, backoff: int, stamped: Time)

  datatype Outcome = Success | Throttle | Retry | Failure

  datatype Result = Result(outcome: Outcome, attempts: seq<AttemptRow>, lastError: string,
                           deliveredAt: Option<Time>, retryAfter: int)

  const RATE_LIMITED := "rate limited"
  const POLICY_MAX_ATTEMPTS := 5

  predicate IsPermanentFailure(code: int) {
    code in {400, 401, 403, 404, 405, 406, 410, 411, 413, 414, 415, 422, 426, 431}
  }

  predicate IsRetryableFailure(code: int) {
    code in {408, 429, 500, 502, 503, 504}
  }

  predicate Accepted(http: HttpResult) {
    http.Response? && 200 <= http.code < 300
  }

  /** The attempt record of a call; its number and generation come from the worker's copy. */
  function AttemptOf(d: Row, http: HttpResult, at: Time): AttemptRow {
    AttemptRow(d.key, d.attempts + 1, d.generation,
               if http.Response? then Some(http.code) else None,
               if http.Response? && http.body != "" then Some(http.body) else None,
               if Accepted(http) then None else Some(http.error),
               at)
  }

  function Deliver(d: Row, o: Observed): Result {
    match o.verdict
    case Limited(retryAfter) => Result(Throttle, [], RATE_LIMITED, None, retryAfter)
    case Called(http) =>
      var attempt := AttemptOf(d, http, o.at);
      if Accepted(http) then Result(Success, [attempt], "", Some(o.at), 0)
      else if http.Response? && IsPermanentFailure(http.code) then Result(Failure, [attempt], http.error, None, 0)
      else
        var maxAttempts := if d.maxAttempts == 0 then POLICY_MAX_ATTEMPTS else d.maxAttempts;
        var attemptsLeft := d.attempts + 1 < maxAttempts;
        var canRetry := if http.Response? then attemptsLeft && IsRetryableFailure(http.code) else attemptsLeft;
        Result(if canRetry then Retry else Failure, [attempt], http.error, None, 0)
  }

  function RetryDelay(r: Result, backoff: int): int {
    if r.retryAfter > 0 then r.retryAfter else backoff
  }

  /** The worker's copy after its result has been applied. */
  function ApplyResult(d: Row, r: Result, o: Observed): Row {
    match r.outcome
    case Success =>
      var counted := if |r.attempts| > 0 then d.(attempts := d.attempts + 1) else d;
      AsDelivered(counted, if r.deliveredAt.Some? then r.deliveredAt.value else o.at)
    case Retry => AsRetrying(d, o.at + RetryDelay(r, o.backoff), r.lastError, o.stamped)
    case Throttle => AsThrottled(d, o.at + RetryDelay(r, o.backoff), r.lastError, o.stamped)
    case Failure =>
      var counted := if |r.attempts| > 0 then d.(attempts := d.attempts + 1) else d;
      AsFailed(counted, r.lastError, o.stamped)
  }

  /** The source's applyDeliveryResult, on the mutable delivery. */
  method ApplyDeliveryResult(delivery: Delivery, r: Result, o: Observed)
    modifies delivery
    ensures delivery.row == ApplyResult(old(delivery.row), r, o)
  {
    match r.outcome {
      case Success =>
        if |r.attempts| > 0 {
          delivery.row := delivery.row.(attempts := delivery.row.attempts + 1);
        }
        var deliveredAt := o.at;
        if r.deliveredAt.Some? {
          deliveredAt := r.deliveredAt.value;
        }
        delivery.MarkAsDelivered(deliveredAt);
      case Retry =>
        delivery.MarkAsRetrying(o.at + RetryDelay(r, o.backoff), r.lastError, o.stamped);
      case Throttle =>
        delivery.MarkAsThrottled(o.at + RetryDelay(r, o.backoff), r.lastError, o.stamped);
      case Failure =>
        if |r.attempts| > 0 {
          delivery.row := delivery.row.(attempts := delivery.row.attempts + 1);
        }
        delivery.MarkAsFailed(r.lastError, o.stamped);
    }
  }

  /** The copy a worker persists after executing the claim `d`. */
  function Executed(d: Row, o: Observed): Row {
    ApplyResult(d, Deliver(d, o), o)
  }

  /* The one-worker machine: no leases, no copies, no lost updates. */

  datatype Phase = Open | Done | Dead

  datatype Machine =
    | Absent
    | Live(phase: Phase, attempts: int, maxAttempts: int, generation: int, target: Target,
           next: Option<Time>, lastError: Option<string>, deliveredAt: Option<Time>)

  datatype Move =
    | Create(base: int, maxAttempts: int, target: Target)
    | Commit(attemptsRead: int, generationRead: int, observed: Observed)
    | Restart(at: Time)
    | Remove

  /** A call that may be tried again: no response, or one of the transient codes. */
  predicate Transient(http: HttpResult) {
    http.NoResponse? || http.code in {408, 429, 500, 502, 503, 504}
  }

  /** One move of the machine; None when the move is not possible from this state. */
  function Play(m: Machine, move: Move): Option<Machine> {
    match move
    case Create(base, maxAttempts, target) =>
      if m.Absent? then Some(Live(Open, base, maxAttempts, 1, target, None, None, None)) else None
    case Commit(attemptsRead, generationRead, o) =>
      if m.Live? && m.phase == Open && m.attempts == attemptsRead && m.generation == generationRead
      then Some(Settle(m, o)) else None
    case Restart(at) =>
      if m.Live? && m.phase == Dead
      then Some(m.(phase := Open, attempts := 0, generation := m.generation + 1, next := Some(at), lastError := None))
      else None
    case Remove =>
      if m.Live? && m.phase != Open then Some(Absent) else None
  }

  /** A limit of zero stands for the policy's. */
  function Allowance(maxAttempts: int): int {
    if maxAttempts == 0 then POLICY_MAX_ATTEMPTS else maxAttempts
  }

  /** How an open delivery settles: only a call costs an attempt, and only attempts run out. */
  function Settle(m: Machine, o: Observed): Machine
    requires m.Live?
  {
    match o.verdict
    case Limited(wait) =>
      m.(next := Some(o.at + if wait > 0 then wait else o.backoff), lastError := Some(RATE_LIMITED))
    case Called(http) =>
      var spent := m.(attempts := m.attempts + 1);
      if Accepted(http) then spent.(phase := Done, next := None, lastError := None, deliveredAt := Some(o.at))
      else if Transient(http) && spent.attempts < Allowance(m.maxAttempts)
      then spent.(next := Some(o.at + o.backoff), lastError := Some(http.error))
      else spent.(phase := Dead, next := None, lastError := Some(http.error))
  }

  function PhaseOf(s: Status): Phase {
    match s
    case Delivered => Done
    case Failed => Dead
    case _ => Open
  }

  /** A row seen as a machine state: the lease columns and the flavour of "open" are forgotten. */
  function Seen(d: Row): Machine {
    Live(PhaseOf(d.status), d.attempts, d.maxAttempts, d.generation, d.target, d.next, d.lastError, d.deliveredAt)
  }

  /** Executing a claim on an open row settles the machine, and never leaves the row processing. */
  lemma ExecutedSettles(d: Row, o: Observed)
    requires d.status == Processing
    ensures Seen(Executed(d, o)) == Settle(Seen(d), o)
    ensures Executed(d, o).status in {Delivered, Retrying, Throttled, Failed}
    ensures Executed(d, o).status in {Retrying, Throttled} ==> Executed(d, o).next.Some?
    ensures Executed(d, o).status == Delivered ==> Executed(d, o).deliveredAt.Some?
    ensures Executed(d, o).key == d.key && Executed(d, o).owner == d.owner && Executed(d, o).deadline == d.deadline
  {
    if o.verdict.Called? && o.verdict.http.Response? && IsPermanentFailure(o.verdict.http.code) {
      assert !Transient(o.verdict.http);
    }
  }

  /* The decision, case by case */

  /**
   What executing a claim decides, and what it writes, in terms of what was observed: delivered on a 2xx
   response, throttled when the limiter refused, retried after no response or one of six codes while
   attempts are left, failed otherwise.
   */
  lemma DecisionMeans(d: Row, o: Observed)
    requires d.status == Processing
    ensures var d' := Executed(d, o);
            var left := d.attempts + 1 < (if d.maxAttempts == 0 then 5 else d.maxAttempts);
            match o.verdict
            case Limited(wait) =>
              && d'.status == Throttled && d'.attempts == d.attempts
              && d'.next == Some(o.at + if wait > 0 then wait else o.backoff) && d'.lastError == Some("rate limited")
              && d'.updated == o.stamped && d'.deliveredAt == d.deliveredAt
            case Called(http) =>
              && d'.attempts == d.attempts + 1
              && if http.Response? && 200 <= http.code <= 299 then
                   && d'.status == Delivered && d'.next == None && d'.lastError == None
                   && d'.deliveredAt == Some(o.at) && d'.updated == o.at
                 else if left && (http.NoResponse? || http.code in {408, 429, 500, 502, 503, 504}) then
                   && d'.status == Retrying && d'.next == Some(o.at + o.backoff) && d'.lastError == Some(http.error)
                   && d'.updated == o.stamped && d'.deliveredAt == d.deliveredAt
                 else
                   && d'.status == Failed && d'.next == None && d'.lastError == Some(http.error)
                   && d'.updated == o.stamped && d'.deliveredAt == d.deliveredAt
    ensures var d' := Executed(d, o);
            && d'.key == d.key && d'.target == d.target && d'.maxAttempts == d.maxAttempts
            && d'.generation == d.generation && d'.owner == d.owner && d'.deadline == d.deadline
            && d'.created == d.created
  {
    ExecutedSettles(d, o);
  }

  /** The attempt on record: one per call, numbered next, with the response's code, body and error. */
  lemma RecordMeans(d: Row, o: Observed)
    ensures var made := Deliver(d, o).attempts;
            match o.verdict
            case Limited(_) => made == []
            case Called(http) =>
              && |made| == 1
              && made[0].key == d.key && made[0].number == d.attempts + 1 && made[0].generation == d.generation
              && made[0].code == (if http.Response? then Some(http.code) else None)
              && made[0].body == (if http.Response? && http.body != "" then Some(http.body) else None)
              && made[0].error == (if http.Response? && 200 <= http.code <= 299 then None else Some(http.error))
  {
  }
}
