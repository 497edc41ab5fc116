/** What one delivery attempt decides: done, dead or to be retried, and when. */
module Verdict {
  import opened Model
  import opened Arithmetic
  import opened Backoff
  import opened Simulation
  import opened System
  import opened Delivery

  datatype Failure = NoError | BlockedTarget | BadRequestSpec | OtherError

  datatype Response = Response(code: int, failure: Failure, retryAfter: RetryAfter)

  datatype Outcome = Success | Retryable | Permanent

  /** Success is a 2xx answer and nothing else; an attempt is given up at once on a request that must not or cannot be
      sent and on 3xx and 4xx answers other than 408 and 429; everything else is worth another try. */
  function Classify(code: int, failure: Failure): (o: Outcome)
    ensures o.Success? <==> failure.NoError? && 200 <= code <= 299
    ensures o.Permanent? <==> failure.BlockedTarget? || failure.BadRequestSpec?
                              || (failure.NoError? && 300 <= code <= 499 && code !in {408, 429})
  {
    if !failure.NoError? then
      if failure.BlockedTarget? || failure.BadRequestSpec? then Permanent else Retryable
    else if code >= 200 && code < 300 then Success
    else if code == 408 || code == 429 then Retryable
    else if code >= 500 then Retryable
    else if code >= 300 && code < 400 then Permanent
    else if code >= 400 then Permanent
    else Retryable
  }

  function PermanentReason(failure: Failure): string {
    match failure
    case NoError => "permanent_response"
    case BlockedTarget => "blocked_target"
    case BadRequestSpec => "bad_request_spec"
    case OtherError => "permanent_error"
  }

  // The server's word on when to come back replaces the computed delay.
  function DelayFor(res: Response, backoff: int, maxBackoff: int): int {
    if !res.failure.NoError? then backoff
    else
      var ra := ParseRetryAfter(res.retryAfter, maxBackoff);
      if ra.Some? then ra.value else backoff
  }

  /** The operation a delivery ends in: exactly one of success, burial and retry. */
  function Judge(l: Limits, t: Task, res: Response, backoff: int, maxBackoff: int, now: int): (op: Op)
    ensures op.Succeed? || op.Bury? || op.Retry?
  {
    var id, attempt := t.spec.id, t.attempts + 1;
    match Classify(res.code, res.failure)
    case Success => Succeed(id, now)
    case Permanent => Bury(id, PermanentReason(res.failure), now)
    case Retryable =>
      if attempt >= l.MaxFor(t.spec.policy) then Bury(id, "max_attempts", now)
      else
        var nextAt := now + Quot(DelayFor(res, backoff, maxBackoff), MILLISECOND);
        if nextAt >= t.spec.createdAt + l.DeadlineFor(t.spec.policy) then Bury(id, "deadline_exceeded", now)
        else Retry(id, nextAt, now)
  }

  /** Whatever the vendor answers to a request that went out, the outcome recorded is one the accounting allows. */
  lemma JudgedIsPossible(l: Limits, w: World, id: string, res: Response, backoff: int, maxBackoff: int, now: int)
    requires WorldInv(l, w) && id in w.sent && MIN_DELAY <= backoff && MIN_DELAY <= maxBackoff
    requires id in w.clock ==> w.clock[id] <= now
    ensures Possible(l, w, Do(Judge(l, w.sys.mem.tasks[id], res, backoff, maxBackoff, now)))
  {
    assert TaskOk(id, w.sys.mem.tasks[id]);
    WaitsAreLong(DelayFor(res, backoff, maxBackoff));
  }

  lemma WaitsAreLong(delay: int)
    requires MIN_DELAY <= delay
    ensures LEAST_WAIT <= Quot(delay, MILLISECOND)
  {
    QuotGrows(MIN_DELAY, delay);
    assert MIN_DELAY / MILLISECOND == LEAST_WAIT;
  }

  /** A retry is never sooner than the least delay nor later than the cap, whatever Retry-After says, wrapping
      included. */
  lemma RetriesAreSpaced(l: Limits, t: Task, res: Response, backoff: int, maxBackoff: int, now: int)
    requires MIN_DELAY <= backoff <= maxBackoff
    requires Judge(l, t, res, backoff, maxBackoff, now).Retry?
    ensures var nextAt := Judge(l, t, res, backoff, maxBackoff, now).nextAt;
            && now + 100 <= nextAt <= now + maxBackoff / MILLISECOND
            && nextAt < t.spec.createdAt + l.DeadlineFor(t.spec.policy)
  {
    var d := DelayFor(res, backoff, maxBackoff);
    assert MIN_DELAY / MILLISECOND == 100;
    QuotGrows(MIN_DELAY, d);
    QuotGrows(d, maxBackoff);
  }

  lemma QuotGrows(x: int, y: int)
    requires 0 <= x <= y
    ensures x / MILLISECOND <= y / MILLISECOND
  {}

  // ---- The verdict in numbers ----

  /** Failures worth another try: no answer at all, a request timeout, too many requests, the server's own fault, or a
      code below 200. */
  predicate MayPass(res: Response) {
    res.failure.OtherError?
    || (res.failure.NoError? && (res.code < 200 || res.code == 408 || res.code == 429 || res.code >= 500))
  }

  /** Answers that settle the matter at once. */
  lemma SettledAtOnce(l: Limits, t: Task, res: Response, backoff: int, maxBackoff: int, now: int)
    ensures var op, id, code := Judge(l, t, res, backoff, maxBackoff, now), t.spec.id, res.code;
            match res.failure
            case BlockedTarget => op == Bury(id, "blocked_target", now)
            case BadRequestSpec => op == Bury(id, "bad_request_spec", now)
            case OtherError => MayPass(res)
            case NoError =>
              if 200 <= code <= 299 then op == Succeed(id, now)
              else if 300 <= code <= 499 && code != 408 && code != 429 then op == Bury(id, "permanent_response", now)
              else MayPass(res)
  {}

  /** A task is buried at the last failure its limit allows, and not for its limit before. */
  lemma LastFailureBuries(l: Limits, t: Task, res: Response, backoff: int, maxBackoff: int, now: int, n: int)
    requires MayPass(res) && HasAttempts(l, t.spec.policy, n)
    ensures Judge(l, t, res, backoff, maxBackoff, now) == Bury(t.spec.id, "max_attempts", now) <==> t.attempts + 1 >= n
  {}

  /** An earlier failure is followed by a retry after `wait` milliseconds, or by a burial if that is too late. */
  ghost predicate RetriedAfter(op: Op, t: Task, wait: int, deadline: int, now: int) {
    op == if now + wait < t.spec.createdAt + deadline then Retry(t.spec.id, now + wait, now)
          else Bury(t.spec.id, "deadline_exceeded", now)
  }

  /** The wait in milliseconds: what the server asked for, in seconds or up to a date, from 100 ms up to the cap; the
      backoff drawn where it asked for nothing that can be read. */
  ghost predicate IsWait(res: Response, backoff: int, maxBackoff: int, wait: int) {
    var ra := res.retryAfter;
    if res.failure.NoError? && ra.Seconds? && ra.secs >= 0 then
      && ra.secs <= 9_223_372_036
      && wait == if ra.secs == 0 then 100
                 else if ra.secs * 1_000_000_000 <= maxBackoff then ra.secs * 1000
                 else maxBackoff / 1_000_000
    else if res.failure.NoError? && ra.Date? && ra.fromNow > 0 then
      wait == if ra.fromNow < 100_000_000 then 100
              else if ra.fromNow <= maxBackoff then ra.fromNow / 1_000_000
              else maxBackoff / 1_000_000
    else wait == backoff / 1_000_000
  }

  lemma WaitIsObeyed(l: Limits, t: Task, res: Response, backoff: int, maxBackoff: int, now: int, n: int, deadline: int,
                     wait: int)
    requires MayPass(res) && HasAttempts(l, t.spec.policy, n) && t.attempts + 1 < n
    requires HasMillis(l, t.spec.policy, deadline) && MIN_DELAY <= backoff && MIN_DELAY <= maxBackoff
    requires IsWait(res, backoff, maxBackoff, wait)
    ensures RetriedAfter(Judge(l, t, res, backoff, maxBackoff, now), t, wait, deadline, now)
  {
    DeadlineIs(l, t.spec.policy, deadline);
    WaitIs(res, backoff, maxBackoff, wait);
  }

  lemma WaitIs(res: Response, backoff: int, maxBackoff: int, wait: int)
    requires IsWait(res, backoff, maxBackoff, wait) && MIN_DELAY <= backoff && MIN_DELAY <= maxBackoff
    ensures Quot(DelayFor(res, backoff, maxBackoff), MILLISECOND) == wait
  {
    var ra := res.retryAfter;
    assert MIN_DELAY / MILLISECOND == 100;
    if res.failure.NoError? && ra.Seconds? && 0 < ra.secs && ra.secs * SECOND <= maxBackoff {
      assert DelayFor(res, backoff, maxBackoff) == ra.secs * SECOND;
      assert ra.secs * SECOND / MILLISECOND == ra.secs * 1000;
    }
  }

  // What an outcome makes of the task.
  function Effect(t: Task, op: Op): Task {
    match op
    case Succeed(_, now) => t.Delivered(now)
    case Bury(_, why, now) => t.Buried(why, now)
    case Retry(_, nextAt, now) => t.Retried(nextAt, now)
    case _ => t
  }

  lemma LeadsToEffect(c: Config, s: Sys, op: Op, s': Sys)
    requires Leads(c, s, op, s') && (op.Succeed? || op.Bury? || op.Retry?)
    ensures op.id in s.mem.tasks && op.id in s'.mem.tasks && s'.mem.tasks[op.id] == Effect(s.mem.tasks[op.id], op)
  {}

  ghost predicate Used(t: Task, t': Task, now: int) {
    t'.attempts == t.attempts + 1 && t'.updatedAt == now && t'.spec.createdAt == t.spec.createdAt
  }

  // A failure that may pass uses up an attempt: the last one ends in a burial, as does one with no time left to wait.
  ghost predicate FailedOnce(t: Task, t': Task, l: Limits, res: Response, backoff: int, maxBackoff: int, now: int) {
    forall n, deadline, wait | HasAttempts(l, t.spec.policy, n) && HasMillis(l, t.spec.policy, deadline)
                               && IsWait(res, backoff, maxBackoff, wait) ::
      if t.attempts + 1 >= n then t'.state.Dead? && t'.deadReason == "max_attempts"
      else if now + wait >= t.spec.createdAt + deadline then t'.state.Dead? && t'.deadReason == "deadline_exceeded"
      else t'.state.Waiting? && t'.nextAt == now + wait
  }

  // Any other answer settles the matter.
  ghost predicate Settled(t': Task, res: Response) {
    match res.failure
    case NoError =>
      if 200 <= res.code <= 299 then t'.state.Succeeded? else t'.state.Dead? && t'.deadReason == "permanent_response"
    case BlockedTarget => t'.state.Dead? && t'.deadReason == "blocked_target"
    case BadRequestSpec => t'.state.Dead? && t'.deadReason == "bad_request_spec"
    case OtherError => false
  }

  ghost predicate AsAnswered(t: Task, t': Task, l: Limits, res: Response, backoff: int, maxBackoff: int, now: int) {
    && Used(t, t', now)
    && (MayPass(res) ==> FailedOnce(t, t', l, res, backoff, maxBackoff, now))
    && (!MayPass(res) ==> Settled(t', res))
  }

  /** The whole verdict in numbers: which answers end in a delivery, a burial and for what reason, or a retry and
      when. */
  lemma EffectInNumbers(l: Limits, t: Task, res: Response, backoff: int, maxBackoff: int, now: int)
    requires MIN_DELAY <= backoff && MIN_DELAY <= maxBackoff
    ensures AsAnswered(t, Effect(t, Judge(l, t, res, backoff, maxBackoff, now)), l, res, backoff, maxBackoff, now)
  {
    SettledAtOnce(l, t, res, backoff, maxBackoff, now);
    if MayPass(res) {
      var t' := Effect(t, Judge(l, t, res, backoff, maxBackoff, now));
      forall n, deadline, wait | HasAttempts(l, t.spec.policy, n) && HasMillis(l, t.spec.policy, deadline)
                                 && IsWait(res, backoff, maxBackoff, wait)
        ensures if t.attempts + 1 >= n then t'.state.Dead? && t'.deadReason == "max_attempts"
                else if now + wait >= t.spec.createdAt + deadline
                then t'.state.Dead? && t'.deadReason == "deadline_exceeded"
                else t'.state.Waiting? && t'.nextAt == now + wait
      {
        LastFailureBuries(l, t, res, backoff, maxBackoff, now, n);
        if t.attempts + 1 < n {
          WaitIsObeyed(l, t, res, backoff, maxBackoff, now, n, deadline, wait);
        }
      }
    }
  }

  // ---- Attempts or deadline: which runs out first ----

  // The i-th attempt of a task: when it began, how long its request took (ms), and the delay drawn after it failed
  // (ns).
  datatype Try = Try(start: int, took: int, delay: int) {
    function RetryTime(): int { start + took + Quot(delay, MILLISECOND) }
  }

  // When the i-th attempt falls due: at creation, or at the retry time of the attempt before.
  function DueTime(tries: seq<Try>, createdAt: int, i: nat): int
    requires i < |tries|
  {
    if i == 0 then createdAt else tries[i - 1].RetryTime()
  }

  /** Attempts that each begin when due, take at most `timeout` ms, and are followed by a delay within their window. */
  ghost predicate OnTime(tries: seq<Try>, createdAt: int, timeout: int, base: int, maxWindow: int) {
    forall i | 0 <= i < |tries| ::
      && tries[i].start == DueTime(tries, createdAt, i)
      && 0 <= tries[i].took <= timeout
      && 0 <= tries[i].delay <= Max(MIN_DELAY, Window(i + 1, base, maxWindow))
  }

  lemma TryCost(took: int, delay: int, timeout: int, window: int)
    requires took <= timeout && 0 <= delay <= window
    ensures (took + Quot(delay, MILLISECOND)) * MILLISECOND <= timeout * MILLISECOND + window
  {}

  // The most nanoseconds that n attempts and the waits after them can take.
  function Spent(n: nat, timeout: int, base: int, maxWindow: int): int {
    if n == 0 then 0 else Spent(n - 1, timeout, base, maxWindow) + timeout * MILLISECOND + Window(n, base, maxWindow)
  }

  lemma {:induction false} SpentIs(n: nat, timeout: int, base: int, maxWindow: int)
    ensures Spent(n, timeout, base, maxWindow) == n * (timeout * MILLISECOND) + WindowSum(n, base, maxWindow)
  {
    if n == 0 {
    } else {
      SpentIs(n - 1, timeout, base, maxWindow);
      OneMoreTime(n, timeout * MILLISECOND);
    }
  }

  lemma OneMoreTime(n: nat, x: int)
    requires n > 0
    ensures n * x == (n - 1) * x + x
  {}

  lemma DelayInWindow(n: nat, delay: int, base: int, maxWindow: int)
    requires n >= 1 && MIN_DELAY <= base && MIN_DELAY <= maxWindow
    requires delay <= Max(MIN_DELAY, Window(n, base, maxWindow))
    ensures delay <= Window(n, base, maxWindow)
  {
    TimesGrows(base, 1, Pow(2, n - 1));
  }

  lemma {:induction false} OnTimeElapsed(tries: seq<Try>, createdAt: int, timeout: int, base: int, maxWindow: int)
    requires tries != [] && OnTime(tries, createdAt, timeout, base, maxWindow)
    requires MIN_DELAY <= base && MIN_DELAY <= maxWindow
    ensures (tries[|tries| - 1].RetryTime() - createdAt) * MILLISECOND <= Spent(|tries|, timeout, base, maxWindow)
  {
    var m := |tries|;
    var last, init := tries[m - 1], tries[..m - 1];
    DelayInWindow(m, last.delay, base, maxWindow);
    TryCost(last.took, last.delay, timeout, Window(m, base, maxWindow));
    if m > 1 {
      assert forall i | 0 <= i < m - 1 :: DueTime(init, createdAt, i) == DueTime(tries, createdAt, i);
      OnTimeElapsed(init, createdAt, timeout, base, maxWindow);
      assert last.start == init[m - 2].RetryTime();
    } else {
      assert Spent(0, timeout, base, maxWindow) == 0;
    }
  }

  /** If all waits and requests together fit in the deadline, an on-time task never dies of its deadline. */
  lemma DeadlineIsSpare(l: Limits, t: Task, tries: seq<Try>, timeout: int, base: int, maxWindow: int, res: Response)
    requires OnTime(tries, t.spec.createdAt, timeout, base, maxWindow) && 1 <= |tries| == t.attempts + 1
    requires MIN_DELAY <= base && MIN_DELAY <= maxWindow && timeout >= 0 && res.retryAfter.Absent?
    requires (|tries| * (timeout * MILLISECOND) + WindowSum(|tries|, base, maxWindow))
             < l.DeadlineFor(t.spec.policy) * MILLISECOND
    ensures var last := tries[|tries| - 1];
            Judge(l, t, res, last.delay, maxWindow, last.start + last.took)
            != Bury(t.spec.id, "deadline_exceeded", last.start + last.took)
  {
    OnTimeElapsed(tries, t.spec.createdAt, timeout, base, maxWindow);
    SpentIs(|tries|, timeout, base, maxWindow);
  }

  lemma {:induction false} WindowSumGrows(m: nat, n: nat, base: int, maxWindow: int)
    requires m <= n && base >= 0 && maxWindow >= 0
    ensures WindowSum(m, base, maxWindow) <= WindowSum(n, base, maxWindow)
  {
    if m == n {
    } else {
      WindowSumGrows(m, n - 1, base, maxWindow);
      TimesGrows(base, 0, Pow(2, n - 1));
    }
  }

  /** With the default settings (1 s, 1 h, 24 attempts, 24 h) and requests of at most 5 s, the deadline is never what
      ends an on-time task: its attempts run out first, after at most 43,810 s. */
  lemma DefaultsNeverReachDeadline(l: Limits, t: Task, tries: seq<Try>, res: Response)
    requires l.maxAttempts == 24 && l.deadline == 24 * 3600 * SECOND
    requires t.spec.policy.maxAttempts <= 0 && t.spec.policy.deadlineMS <= 0
    requires OnTime(tries, t.spec.createdAt, 5000, SECOND, 3600 * SECOND) && 1 <= |tries| == t.attempts + 1
    requires res.retryAfter.Absent?
    ensures var last := tries[|tries| - 1];
            Judge(l, t, res, last.delay, 3600 * SECOND, last.start + last.took)
            != Bury(t.spec.id, "deadline_exceeded", last.start + last.took)
  {
    if |tries| < 24 {
      DefaultWaits();
      WindowSumGrows(|tries|, 23, SECOND, 3600 * SECOND);
      assert l.DeadlineFor(t.spec.policy) == 86_400_000;
      DeadlineIsSpare(l, t, tries, 5000, SECOND, 3600 * SECOND, res);
    }
  }
}
