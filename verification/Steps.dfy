/** Recognising a step: what an operation does to memory and journal, put as one transition of the state machine. */
module Steps {
  import opened Model
  import opened Replay
  import opened QueueSpec
  import opened System
  import opened Recovery

  lemma IsSubmit(c: Config, s: Sys, s': Sys, spec: Spec, now: int)
    requires MemOk(c, s.mem) && spec.idemKey != "" && spec.idemKey !in s.mem.idem && s.mem.active < c.queueMax
    requires spec.id !in s.mem.tasks && spec.id !in Fold(s.disk).tasks
    requires s' == Sys(Submitted(s.mem, spec), s.disk + [Enqueue(spec, now)], |s.disk| + 1)
    ensures Leads(c, s, Submit(spec, now), s') && MemOk(c, s'.mem)
  {
    SingleMemOk(c, s, Submit(spec, now));
  }

  lemma IsLease(c: Config, s: Sys, s': Sys, id: string, now: int)
    requires MemOk(c, s.mem) && id in s.mem.due && id in s.mem.tasks && s.mem.tasks[id].nextAt <= now
    requires forall other | other in s.mem.due && other in s.mem.tasks ::
               s.mem.tasks[id].nextAt <= s.mem.tasks[other].nextAt
    requires s' == s.(mem := Leased(s.mem, id, now))
    ensures Leads(c, s, Lease(id, now), s') && MemOk(c, s'.mem)
  {
    SingleMemOk(c, s, Lease(id, now));
  }

  // What recording an outcome does: the task moves on, and one record says so.
  ghost predicate RetryRecorded(s: Sys, s': Sys, id: string, nextAt: int, now: int) {
    && id in s.mem.tasks && s.mem.tasks[id].state.Sending?
    && s' == Sys(Retried(s.mem, id, nextAt, now),
                 s.disk + [Attempt(id, s.mem.tasks[id].attempts + 1, nextAt, now)], s.synced)
  }

  lemma RetryPosted(s: Sys, s1: Sys, s': Sys, id: string, n: int, nextAt: int, now: int)
    requires id in s.mem.tasks && s.mem.tasks[id].state.Sending? && n == s.mem.tasks[id].attempts + 1
    requires s1.mem == s.mem.(tasks := s.mem.tasks[id := s.mem.tasks[id].Retried(nextAt, now)])
    requires s1.disk == s.disk + [Attempt(id, n, nextAt, now)] && s1.synced == s.synced
    requires s' == s1.(mem := s1.mem.(due := s1.mem.due + {id}, wake := true))
    ensures RetryRecorded(s, s', id, nextAt, now)
  {}

  lemma IsRetry(c: Config, s: Sys, s': Sys, id: string, nextAt: int, now: int)
    requires MemOk(c, s.mem) && RetryRecorded(s, s', id, nextAt, now)
    ensures Leads(c, s, Retry(id, nextAt, now), s') && MemOk(c, s'.mem)
  {
    SingleMemOk(c, s, Retry(id, nextAt, now));
  }

  ghost predicate SuccessRecorded(s: Sys, s': Sys, id: string, now: int) {
    && id in s.mem.tasks && s.mem.tasks[id].state.Sending?
    && s' == Sys(QueueSpec.Delivered(s.mem, id, now),
                 s.disk + [Model.Done(id, s.mem.tasks[id].attempts + 1, now)], s.synced)
  }

  lemma SuccessPosted(s: Sys, s': Sys, id: string, n: int, now: int)
    requires id in s.mem.tasks && s.mem.tasks[id].state.Sending? && n == s.mem.tasks[id].attempts + 1
    requires s'.mem.tasks == s.mem.tasks[id := s.mem.tasks[id].Delivered(now)]
    requires s'.mem.idem == s.mem.idem && s'.mem.due == s.mem.due && s'.mem.active == s.mem.active - 1
    requires s'.mem.unstripped == s.mem.unstripped + 1 && s'.mem.wake == s.mem.wake
    requires s'.disk == s.disk + [Model.Done(id, n, now)] && s'.synced == s.synced
    ensures SuccessRecorded(s, s', id, now)
  {}

  lemma IsSucceed(c: Config, s: Sys, s': Sys, id: string, now: int)
    requires MemOk(c, s.mem) && SuccessRecorded(s, s', id, now)
    ensures Leads(c, s, Succeed(id, now), s') && MemOk(c, s'.mem)
  {
    SingleMemOk(c, s, Succeed(id, now));
  }

  ghost predicate DeathRecorded(s: Sys, s': Sys, id: string, why: string, now: int) {
    && id in s.mem.tasks && s.mem.tasks[id].state.Sending?
    && s' == Sys(QueueSpec.Buried(s.mem, id, why, now),
                 s.disk + [Model.Buried(id, s.mem.tasks[id].attempts + 1, why, now)], s.synced)
  }

  lemma IsBury(c: Config, s: Sys, s': Sys, id: string, why: string, now: int)
    requires MemOk(c, s.mem) && DeathRecorded(s, s', id, why, now)
    ensures Leads(c, s, Bury(id, why, now), s') && MemOk(c, s'.mem)
  {
    SingleMemOk(c, s, Bury(id, why, now));
  }

  ghost predicate RevivalRecorded(s: Sys, s': Sys, id: string, now: int) {
    && id in s.mem.tasks && s.mem.tasks[id].state.Dead?
    && s' == Sys(Revived(s.mem, id, now), s.disk + [Attempt(id, 0, now, now)], s.synced)
  }

  lemma IsRevive(c: Config, s: Sys, s': Sys, id: string, now: int)
    requires MemOk(c, s.mem) && s.mem.active < c.queueMax && RevivalRecorded(s, s', id, now)
    ensures Leads(c, s, Revive(id, now), s') && MemOk(c, s'.mem)
  {
    SingleMemOk(c, s, Revive(id, now));
  }

  lemma IsDefer(c: Config, s: Sys, s': Sys, id: string, nextAt: int)
    requires MemOk(c, s.mem) && id in s.mem.tasks && s.mem.tasks[id].state.Sending? && s.mem.tasks[id].nextAt <= nextAt
    requires s' == s.(mem := Deferred(s.mem, id, nextAt))
    ensures Leads(c, s, Defer(id, nextAt), s') && MemOk(c, s'.mem)
  {
    SingleMemOk(c, s, Defer(id, nextAt));
  }

  lemma IsDrop(c: Config, s: Sys, s': Sys, ids: set<string>)
    requires MemOk(c, s.mem) && forall id | id in ids :: id in s.mem.tasks && !s.mem.tasks[id].Live()
    requires s' == s.(mem := Dropped(s.mem, ids))
    ensures Leads(c, s, Drop(ids), s') && MemOk(c, s'.mem)
  {
    DroppedMemOk(c, s, Drop(ids));
  }

  /** A compaction and, with nothing in between, the reset of the counter. */
  ghost predicate Compacted(c: Config, s: Sys, order: seq<string>, s': Sys) {
    Leads(c, s, Compact(order), s'.(mem := s.mem)) && s'.mem == s.mem.(unstripped := 0)
  }

  // What a compaction that may not be worthwhile adds to a run.
  function CompactRun(compacted: bool, order: seq<string>): seq<Op> {
    if compacted then [Compact(order), ResetCount] else []
  }

  lemma ThenCompacted(c: Config, s: Sys, order: seq<string>, s': Sys)
    requires Compacted(c, s, order, s')
    ensures Reaches(c, s, CompactRun(true, order), s')
  {
    RunOfTwo(c, s, Compact(order), s'.(mem := s.mem), ResetCount, s');
  }

  // Two drops, and perhaps a compaction with its reset.
  ghost predicate IsUpkeep(ops: seq<Op>) {
    |ops| in {2, 4} && ops[0].Drop? && ops[1].Drop? && (|ops| == 4 ==> ops[2].Compact? && ops[3].ResetCount?)
  }

  lemma UpkeepRun(c: Config, s: Sys, drops: seq<Op>, s1: Sys, compacted: bool, order: seq<string>, s2: Sys)
    requires Reaches(c, s, drops, s1) && |drops| == 2 && drops[0].Drop? && drops[1].Drop?
    requires Reaches(c, s1, CompactRun(compacted, order), s2)
    ensures Reaches(c, s, drops + CompactRun(compacted, order), s2) && IsUpkeep(drops + CompactRun(compacted, order))
  {
    RunsJoin(c, s, drops, s1, CompactRun(compacted, order), s2);
  }

  lemma IsCompact(c: Config, s: Sys, order: seq<string>)
    requires MemOk(c, s.mem) && Visits(order, s.mem.tasks.Keys)
    ensures Leads(c, s, Compact(order), InstalledLate(s, s, order))
  {}
}
