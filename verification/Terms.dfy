/** What a task was accepted under, and which of it a restart gives back: its key, its policy and the start of its
    deadline. */
module Terms {
  import opened Model
  import opened Replay
  import opened QueueSpec
  import opened Simulation
  import opened System
  import opened Recovery

  ghost predicate SameTerms(a: Task, b: Task) {
    a.spec.idemKey == b.spec.idemKey && a.spec.policy == b.spec.policy && a.spec.createdAt == b.spec.createdAt
  }

  lemma {:induction false} OutcomesKeepTerms(v: View, rs: seq<Record>, id: string)
    requires id in v.tasks && forall r | r in rs :: !r.kind.RecEnqueue?
    ensures id in FoldFrom(v, rs).tasks && SameTerms(FoldFrom(v, rs).tasks[id], v.tasks[id])
  {
    if rs == [] {
    } else {
      OutcomesKeepTerms(v, rs[..|rs| - 1], id);
    }
  }

  /** Every cut a crash can make of the journal replays to the same terms. */
  lemma CutsKeepTerms(s: Sys, n: nat, id: string)
    requires EnqueuesSynced(s) && s.synced <= n <= |s.disk| && id in Fold(s.disk[..n]).tasks
    ensures id in Fold(s.disk).tasks && SameTerms(Fold(s.disk).tasks[id], Fold(s.disk[..n]).tasks[id])
  {
    assert s.disk == s.disk[..n] + s.disk[n..];
    FoldFromAppend(EMPTY, s.disk[..n], s.disk[n..]);
    OutcomesKeepTerms(Fold(s.disk[..n]), s.disk[n..], id);
  }

  // ---- The deadline of a revived task ----

  // The journal's idea of when the task came.
  ghost predicate JournaledAt(s: Sys, id: string, at: int) {
    id in Fold(s.disk).tasks && Fold(s.disk).tasks[id].spec.createdAt == at
  }

  ghost predicate CreatedAt(s: Sys, id: string, at: int) {
    id in s.mem.tasks && s.mem.tasks[id].spec.createdAt == at
  }

  // Others, and the task's own attempts, leave both alone; a compaction brings them together.
  predicate LeavesAlone(op: Op, id: string) {
    !op.Crash? && !(op.Revive? && op.id == id) && !(op.Drop? && id in op.ids)
  }

  lemma LoggedKeepsStart(s: Sys, r: Record, id: string, before: int)
    requires JournaledAt(s, id, before) && (r.kind.RecEnqueue? ==> r.task.Some? && r.task.value.id != id)
    ensures JournaledAt(s.(disk := s.disk + [r]), id, before)
  {
    FoldSnoc(s.disk, r);
  }

  lemma StepKeepsStart(c: Config, s: Sys, op: Op, id: string, now: int, before: int)
    requires Inv(c, s) && Enabled(c, s, op) && LeavesAlone(op, id)
    requires CreatedAt(s, id, now) && JournaledAt(s, id, before)
    ensures CreatedAt(Next(c, s, op), id, now) && JournaledAt(Next(c, s, op), id, if op.Compact? then now else before)
  {
    var s' := Next(c, s, op);
    if op.Compact? {
      SnapshotReplays(s.mem.tasks, op.order);
      assert s'.disk == Snapshot(s.mem.tasks, op.order);
    } else if Logged(s.mem, op).Some? {
      LoggedKeepsStart(s, Logged(s.mem, op).value, id, before);
      assert s'.disk == s.disk + [Logged(s.mem, op).value];
    } else {
      assert s'.disk == s.disk;
    }
  }

  lemma {:induction false} RunKeepsStart(c: Config, s: Sys, ops: seq<Op>, id: string, now: int, before: int)
    requires Inv(c, s) && Legal(c, s, ops) && forall i | 0 <= i < |ops| :: LeavesAlone(ops[i], id)
    requires CreatedAt(s, id, now) && JournaledAt(s, id, before)
    ensures CreatedAt(Exec(c, s, ops), id, now)
    ensures JournaledAt(Exec(c, s, ops), id, if Compacts(ops) then now else before)
    decreases |ops|
  {
    if ops == [] {
    } else {
      var init := ops[..|ops| - 1];
      RunKeepsStart(c, s, init, id, now, before);
      RunKeepsInv(c, s, init);
      StepKeepsStart(c, Exec(c, s, init), ops[|ops| - 1], id, now, if Compacts(init) then now else before);
    }
  }

  lemma ReviveStarts(c: Config, s: Sys, revive: Op)
    requires Inv(c, s) && revive.Revive? && Enabled(c, s, revive)
    ensures revive.id in Fold(s.disk).tasks
    ensures CreatedAt(Next(c, s, revive), revive.id, revive.now)
    ensures JournaledAt(Next(c, s, revive), revive.id, Fold(s.disk).tasks[revive.id].spec.createdAt)
  {
    var id := revive.id;
    assert Matches(Fold(s.disk).tasks[id], s.mem.tasks[id]);
    LoggedKeepsStart(s, Attempt(id, 0, revive.now, revive.now), id, Fold(s.disk).tasks[id].spec.createdAt);
  }

  lemma CrashGivesStart(c: Config, s: Sys, crash: Op, id: string, at: int)
    requires Inv(c, s) && crash.Crash? && Enabled(c, s, crash) && id in s.mem.tasks && JournaledAt(s, id, at)
    ensures CreatedAt(Next(c, s, crash), id, at)
  {
    DurableHoldsAll(c, s, crash.kept);
    CutsKeepTerms(s, crash.kept, id);
  }

  /** A revived task starts its deadline anew; a crash, whatever it leaves of the journal, gives that new start back
      if and only if a compaction came in between, and the old one otherwise (unless the two are the same). */
  lemma RevivedDeadlineSurvivesIff(c: Config, s: Sys, revive: Op, later: seq<Op>, crash: Op)
    requires Inv(c, s) && revive.Revive? && Enabled(c, s, revive)
    requires Legal(c, Next(c, s, revive), later) && forall i | 0 <= i < |later| :: LeavesAlone(later[i], revive.id)
    requires crash.Crash? && Enabled(c, Exec(c, Next(c, s, revive), later), crash)
    ensures revive.id in Fold(s.disk).tasks
    ensures var before := Fold(s.disk).tasks[revive.id].spec.createdAt;
            var back := Next(c, Exec(c, Next(c, s, revive), later), crash);
            && CreatedAt(back, revive.id, if Compacts(later) then revive.now else before)
            && (CreatedAt(back, revive.id, revive.now) <==> Compacts(later) || before == revive.now)
  {
    var id, s1 := revive.id, Next(c, s, revive);
    ReviveStarts(c, s, revive);
    StepKeepsInv(c, s, revive);
    var before := Fold(s.disk).tasks[id].spec.createdAt;
    RunKeepsStart(c, s1, later, id, revive.now, before);
    RunKeepsInv(c, s1, later);
    CrashGivesStart(c, Exec(c, s1, later), crash, id, if Compacts(later) then revive.now else before);
  }
}
