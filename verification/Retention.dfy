/** How long finished tasks are kept: each class for its own time, counted from the moment it was finished. */
module Retention {
  import opened Model
  import opened Replay
  import opened QueueSpec
  import opened Simulation
  import opened System
  import opened Eviction

  /** What a purge at `now` takes: delivered tasks after one time, dead ones after another, nothing else. */
  ghost predicate IsPurge(m: Mem, ids: set<string>, now: int, u: Upkeep) {
    forall id :: id in ids <==>
      && id in m.tasks
      && ((m.tasks[id].state.Succeeded? && m.tasks[id].updatedAt + u.retention < now)
          || (m.tasks[id].state.Dead? && m.tasks[id].updatedAt + u.deadRetention < now))
  }

  lemma ExpiredIsPurge(m: Mem, now: int, u: Upkeep)
    ensures IsPurge(m, ExpiredIds(m.tasks, now, u), now, u)
  {}

  // All that a run drops it drops as expired, at the times given and none of them past `limit`.
  ghost predicate PurgesUntil(c: Config, u: Upkeep, s: Sys, ops: seq<Op>, times: seq<int>, limit: int)
    requires Legal(c, s, ops) && |times| == |ops|
    decreases |ops|
  {
    ops == [] ||
    var init, last, now := ops[..|ops| - 1], ops[|ops| - 1], times[|ops| - 1];
    && PurgesUntil(c, u, s, init, times[..|ops| - 1], limit)
    && (last.Drop? ==> IsPurge(Exec(c, s, init).mem, last.ids, now, u) && now <= limit)
  }

  ghost predicate NotRevived(ops: seq<Op>, id: string) {
    forall i | 0 <= i < |ops| :: !(ops[i].Revive? && ops[i].id == id)
  }

  // Until then it is there, as it was, and its key leads to it if it did.
  ghost predicate StillThere(m: Mem, m': Mem, id: string)
    requires id in m.tasks
  {
    && id in m'.tasks && m'.tasks[id] == m.tasks[id]
    && var key := m.tasks[id].spec.idemKey;
       (key in m.idem && m.idem[key] == id ==> key in m'.idem && m'.idem[key] == id)
  }

  lemma StepKeepsFinished(c: Config, s: Sys, op: Op, id: string)
    requires MemOk(c, s.mem) && Enabled(c, s, op) && id in s.mem.tasks && !s.mem.tasks[id].Live()
    requires !op.Crash? && !(op.Revive? && op.id == id) && !(op.Drop? && id in op.ids)
    ensures StillThere(s.mem, Next(c, s, op).mem, id)
  {
    if op.Lease? {
      assert op.id in ScheduledIds(s.mem.tasks);
    }
  }

  /** A finished task is kept, and a duplicate of it recognised, through every purge that comes no later than its
      retention time after it was finished: one time for delivered tasks, another for dead ones left unrevived. */
  lemma {:induction false} FinishedIsKept(c: Config, u: Upkeep, s: Sys, ops: seq<Op>, times: seq<int>, id: string)
    requires Inv(c, s) && Legal(c, s, ops) && NoCrash(ops) && NotRevived(ops, id) && |times| == |ops|
    requires id in s.mem.tasks && (s.mem.tasks[id].state.Succeeded? || s.mem.tasks[id].state.Dead?)
    requires PurgesUntil(c, u, s, ops, times, s.mem.tasks[id].updatedAt
                                              + if s.mem.tasks[id].state.Succeeded? then u.retention
                                                else u.deadRetention)
    ensures StillThere(s.mem, Exec(c, s, ops).mem, id)
    decreases |ops|
  {
    if ops == [] {
    } else {
      var init, last := ops[..|ops| - 1], ops[|ops| - 1];
      FinishedIsKept(c, u, s, init, times[..|ops| - 1], id);
      RunKeepsInv(c, s, init);
      StepKeepsFinished(c, Exec(c, s, init), last, id);
    }
  }

  /** And any later purge takes it, its key with it. */
  lemma FinishedIsPurged(m: Mem, ids: set<string>, now: int, u: Upkeep, id: string)
    requires IsPurge(m, ids, now, u) && id in m.tasks && (m.tasks[id].state.Succeeded? || m.tasks[id].state.Dead?)
    requires m.tasks[id].updatedAt + (if m.tasks[id].state.Succeeded? then u.retention else u.deadRetention) < now
    ensures id !in Dropped(m, ids).tasks
    ensures var key := m.tasks[id].spec.idemKey;
            key != "" && key in m.idem && m.idem[key] == id ==> key !in Dropped(m, ids).idem
  {}

  /** A success and a burial count from their own moment, and so does everything a restart brings back. */
  lemma FinishedAt(c: Config, s: Sys, op: Op)
    requires Enabled(c, s, op) && (op.Succeed? || op.Bury?)
    ensures op.id in Next(c, s, op).mem.tasks
    ensures var t := Next(c, s, op).mem.tasks[op.id];
            && t.updatedAt == op.now && t.attempts == s.mem.tasks[op.id].attempts + 1
            && (if op.Succeed? then t.state.Succeeded? else t.state.Dead? && t.deadReason == op.why)
  {}

  // ---- What a restart brings back of it ----

  /** Replaying the record of an outcome does to a task what the outcome did to it, in every field. */
  lemma ReplayEchoes(t: Task, nextAt: int, why: string, now: int)
    ensures Advance(t, Attempt(t.spec.id, t.attempts + 1, nextAt, now)) == t.Retried(nextAt, now)
    ensures Advance(t, Model.Done(t.spec.id, t.attempts + 1, now)) == t.Delivered(now)
    ensures Advance(t, Model.Buried(t.spec.id, t.attempts + 1, why, now)) == t.Buried(why, now)
  {}
}
