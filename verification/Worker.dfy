/** What a worker does with the task it was handed: one request, then exactly one outcome in the queue and its log. */
module Worker {
  import opened Model
  import opened Backoff
  import opened System
  import opened Delivery
  import opened Verdict
  import opened DueHeap
  import opened Queue

  // There is a next attempt to wait for.
  predicate Waits(l: Limits, p: Policy, attempts: int, res: Response) {
    Classify(res.code, res.failure).Retryable? && attempts + 1 < l.MaxFor(p)
  }

  ghost predicate Answered(id: string, before: map<string, Task>, after: map<string, Task>, l: Limits, res: Response,
                           backoff: int, maxBackoff: int, now: int)
  {
    id in before && id in after && AsAnswered(before[id], after[id], l, res, backoff, maxBackoff, now)
  }

  lemma JudgedIsAnswered(c: Config, s: Sys, s': Sys, id: string, l: Limits, res: Response, backoff: int,
                         maxBackoff: int, now: int)
    requires id in s.mem.tasks && s.mem.tasks[id].spec.id == id && MIN_DELAY <= backoff && MIN_DELAY <= maxBackoff
    requires Leads(c, s, Judge(l, s.mem.tasks[id], res, backoff, maxBackoff, now), s')
    ensures Answered(id, s.mem.tasks, s'.mem.tasks, l, res, backoff, maxBackoff, now)
  {
    LeadsToEffect(c, s, Judge(l, s.mem.tasks[id], res, backoff, maxBackoff, now), s');
    EffectInNumbers(l, s.mem.tasks[id], res, backoff, maxBackoff, now);
  }

  /** Records the outcome of one attempt as Judge decides it.  The draw of the backoff can panic, on settings no sane
      service has; then nothing is recorded. */
  method Deliver(q: Queue, t: TaskRef, l: Limits, res: Response, base: int, maxBackoff: int, pick: int -> int,
                 now: int)
    returns (panicked: bool, ghost backoff: int)
    requires q.Valid() && q.OnLoan(t) && IsInt64(base) && IsInt64(maxBackoff) && Draws(pick)
    modifies q`wake, q`dueIds, q`values, q`active, q`unstripped, q.due, t, q.store, q.store.disk
    ensures q.Valid()
    ensures if panicked then q.SysOf() == old(q.SysOf()) else
              Leads(q.cfg, old(q.SysOf()), Judge(l, old(t.Value()), res, backoff, maxBackoff, now), q.SysOf())
    ensures 0 <= base && 0 <= maxBackoff <= TWO_62 ==>
              !panicked && (Waits(l, t.policy, old(t.attempts), res) ==>
                              FullJitter(old(t.attempts) + 1, base, maxBackoff, pick, backoff))
    ensures !panicked && MIN_DELAY <= maxBackoff ==>
              Answered(t.id, old(q.values), q.values, l, res, backoff, maxBackoff, now)
  {
    ghost var s, task := q.SysOf(), t.Value();
    assert s.mem.tasks[t.id] == task by {
      assert q.Home(t.id, {});
    }
    panicked, backoff := false, MIN_DELAY;
    match Classify(res.code, res.failure) {
      case Success => q.OnSuccess(t, now);
      case Permanent => q.OnDead(t, PermanentReason(res.failure), now);
      case Retryable => panicked, backoff := RetryOrBury(q, t, l, res, base, maxBackoff, pick, now);
    }
    if !panicked && MIN_DELAY <= maxBackoff {
      JudgedIsAnswered(q.cfg, s, q.SysOf(), t.id, l, res, backoff, maxBackoff, now);
    }
  }

  // A failure that may pass: the two reasons to give up all the same come first.
  method RetryOrBury(q: Queue, t: TaskRef, l: Limits, res: Response, base: int, maxBackoff: int,
                     pick: int -> int, now: int)
    returns (panicked: bool, ghost backoff: int)
    requires q.Valid() && q.OnLoan(t) && IsInt64(base) && IsInt64(maxBackoff) && Draws(pick)
    requires Classify(res.code, res.failure).Retryable?
    modifies q`wake, q`dueIds, q`values, q`active, q.due, t, q.store, q.store.disk
    ensures q.Valid()
    ensures if panicked then q.SysOf() == old(q.SysOf()) else
              Leads(q.cfg, old(q.SysOf()), Judge(l, old(t.Value()), res, backoff, maxBackoff, now), q.SysOf())
    ensures 0 <= base && 0 <= maxBackoff <= TWO_62 ==>
              !panicked && (Waits(l, t.policy, old(t.attempts), res) ==>
                              FullJitter(old(t.attempts) + 1, base, maxBackoff, pick, backoff))
    ensures MIN_DELAY <= backoff
  {
    ghost var task := t.Value();
    if t.attempts + 1 >= l.MaxFor(t.policy) {
      assert Judge(l, task, res, MIN_DELAY, maxBackoff, now) == Bury(t.id, "max_attempts", now);
      q.OnDead(t, "max_attempts", now);
      return false, MIN_DELAY;
    }
    var drawn := Backoff.Backoff(t.attempts + 1, base, maxBackoff, pick);
    if drawn.None? {
      return true, MIN_DELAY;
    }
    panicked, backoff := false, drawn.value;
    var nextAt := now + Quot(DelayFor(res, drawn.value, maxBackoff), MILLISECOND);
    ghost var op := Judge(l, task, res, backoff, maxBackoff, now);
    if nextAt >= t.createdAt + l.DeadlineFor(t.policy) {
      assert op == Bury(t.id, "deadline_exceeded", now);
      q.OnDead(t, "deadline_exceeded", now);
    } else {
      assert op == Retry(t.id, nextAt, now);
      q.OnRetry(t, nextAt, now);
    }
  }
}
