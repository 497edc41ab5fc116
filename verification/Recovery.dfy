/** What a restart gives back: the guarantees over whole runs, with any number of crashes and compactions. */
module Recovery {
  import opened Model
  import opened Replay
  import opened QueueSpec
  import opened Simulation
  import opened System

  /** `now`, rebuilt after a crash, is the past memory `past` as far as the queue promises. */
  ghost predicate Recovers(past: Mem, now: Mem) {
    && (forall id | id in past.tasks ::
          && id in now.tasks
          && Matches(now.tasks[id], past.tasks[id])
          && (past.tasks[id].Live() ==> now.tasks[id].state.Pending? && id in now.due))
    && (forall id | id in now.tasks && id !in past.tasks :: !now.tasks[id].Live())
    && now.active == past.active && now.wake && now.unstripped == 0
  }

  lemma PrefixLegal(c: Config, s: Sys, ops: seq<Op>, i: nat)
    requires Legal(c, s, ops) && i <= |ops|
    ensures Legal(c, s, ops[..i])
    decreases |ops|
  {
    if i == |ops| {
      assert ops[..i] == ops;
    } else {
      PrefixLegal(c, s, ops[..|ops| - 1], i);
      assert ops[..|ops| - 1][..i] == ops[..i];
    }
  }

  ghost function At(c: Config, s: Sys, ops: seq<Op>, i: nat): Sys
    requires Legal(c, s, ops) && i <= |ops|
  {
    PrefixLegal(c, s, ops, i);
    Exec(c, s, ops[..i])
  }

  lemma AtShorter(c: Config, s: Sys, ops: seq<Op>, i: nat)
    requires Legal(c, s, ops) && i < |ops|
    ensures Legal(c, s, ops[..|ops| - 1]) && At(c, s, ops[..|ops| - 1], i) == At(c, s, ops, i)
  {
    assert ops[..|ops| - 1][..i] == ops[..i];
  }

  lemma AtEnd(c: Config, s: Sys, ops: seq<Op>)
    requires Legal(c, s, ops)
    ensures At(c, s, ops, |ops|) == Exec(c, s, ops)
  {
    assert ops[..|ops|] == ops;
  }

  // One step either extends the journal by at most a record, rewrites it durably, or cuts it.
  lemma JournalShape(c: Config, s: Sys, op: Op, n: nat)
    requires Enabled(c, s, op) && s.synced <= |s.disk|
    requires Next(c, s, op).synced <= n <= |Next(c, s, op).disk|
    ensures n == |Next(c, s, op).disk| || (s.synced <= n <= |s.disk| && Next(c, s, op).disk[..n] == s.disk[..n])
  {}

  /** Every journal a crash can leave behind is one the run had before, at a moment `i` of its own past. */
  lemma {:induction false} CutsAreHistory(c: Config, s: Sys, ops: seq<Op>, n: nat) returns (i: nat)
    requires Inv(c, s) && s.disk == [] && Legal(c, s, ops)
    requires Exec(c, s, ops).synced <= n <= |Exec(c, s, ops).disk|
    ensures i <= |ops| && At(c, s, ops, i).disk == Exec(c, s, ops).disk[..n]
    decreases |ops|
  {
    var last := Exec(c, s, ops);
    if n == |last.disk| {
      i := |ops|;
      AtEnd(c, s, ops);
      assert last.disk[..n] == last.disk;
    } else {
      var init := ops[..|ops| - 1];
      RunKeepsInv(c, s, init);
      JournalShape(c, Exec(c, s, init), ops[|ops| - 1], n);
      i := CutsAreHistory(c, s, init, n);
      if i < |ops| {
        AtShorter(c, s, ops, i);
      }
    }
  }

  /** Crash refinement: after any run and any crash, the queue is back in a state it had when its journal was as long
      as what survived, up to terminal extras, with unfinished work pending again and due no later than before. */
  lemma CrashRefinement(c: Config, ops: seq<Op>, crash: Op) returns (i: nat)
    requires c.queueMax >= 0 && Legal(c, INITIAL, ops) && crash.Crash? && Enabled(c, Exec(c, INITIAL, ops), crash)
    ensures i <= |ops|
    ensures At(c, INITIAL, ops, i).disk == Exec(c, INITIAL, ops).disk[..crash.kept]
    ensures Recovers(At(c, INITIAL, ops, i).mem, Next(c, Exec(c, INITIAL, ops), crash).mem)
  {
    InitialInv(c);
    RunKeepsInv(c, INITIAL, ops);
    i := CutsAreHistory(c, INITIAL, ops, crash.kept);
    PastRecovers(c, ops, i, Exec(c, INITIAL, ops).disk[..crash.kept]);
  }

  /** The same holds of every past moment with that journal, not of one chosen well. */
  lemma PastRecovers(c: Config, ops: seq<Op>, i: nat, cut: seq<Record>)
    requires c.queueMax >= 0 && Legal(c, INITIAL, ops) && i <= |ops|
    requires At(c, INITIAL, ops, i).disk == cut
    ensures Recovers(At(c, INITIAL, ops, i).mem, Restored(Fold(cut)))
  {
    InitialInv(c);
    PrefixLegal(c, INITIAL, ops, i);
    RunKeepsInv(c, INITIAL, ops[..i]);
    var past, v := At(c, INITIAL, ops, i).mem, Fold(cut);
    SimLive(past.tasks, v);
    forall id | id in past.tasks
      ensures id in v.tasks && Matches(Restored(v).tasks[id], past.tasks[id])
    {
      assert Matches(v.tasks[id], past.tasks[id]);
      assert TaskOk(id, past.tasks[id]);
    }
  }

  // ---- Accepted work is never lost ----

  /** The promise kept for an accepted request: same key, policy and submitter, and the full target until delivered. */
  ghost predicate Keeps(t: Task, spec: Spec) {
    && t.spec.id == spec.id && t.spec.idemKey == spec.idemKey
    && t.spec.policy == spec.policy && t.spec.keyID == spec.keyID
    && t.spec.target.url == spec.target.url && t.spec.target.verb == spec.target.verb
    && (if t.state.Succeeded?
        then t.spec.target.headers == map[] && t.spec.target.body == t.spec.target.bodyEncoding == ""
        else t.spec.target == spec.target)
  }

  ghost predicate Held(tasks: map<string, Task>, spec: Spec) {
    spec.id in tasks && Keeps(tasks[spec.id], spec)
  }

  // In memory, and in whatever a crash can leave of the journal.
  ghost predicate Safe(s: Sys, spec: Spec) {
    && s.synced <= |s.disk|
    && Held(s.mem.tasks, spec)
    && (forall n | s.synced <= n <= |s.disk| :: Held(Fold(s.disk[..n]).tasks, spec))
  }

  lemma ApplyKeepsHeld(v: View, r: Record, spec: Spec)
    requires Held(v.tasks, spec)
    requires r.kind.RecEnqueue? ==> r.task.Some? && r.task.value.id != spec.id
    requires v.tasks[spec.id].state.Succeeded? ==>
               r.id != spec.id || r.kind.RecDone? || r.kind.RecEnqueue? || r.kind.RecUnknown?
    ensures Held(Apply(v, r).tasks, spec)
  {}

  lemma SubmittedIsSafe(c: Config, s: Sys, op: Op)
    requires Inv(c, s) && Enabled(c, s, op) && op.Submit?
    ensures Safe(Next(c, s, op), op.spec)
  {
    var s' := Next(c, s, op);
    FoldSnoc(s.disk, Enqueue(op.spec, op.now));
    assert s'.disk[..|s'.disk|] == s'.disk;
  }

  lemma SingleKeepsHeld(c: Config, s: Sys, op: Op, spec: Spec)
    requires MemOk(c, s.mem) && Enabled(c, s, op) && SingleTask(op) && Held(s.mem.tasks, spec)
    ensures Held(NextMem(c, s, op).tasks, spec)
  {
    assert TaskOk(spec.id, s.mem.tasks[spec.id]);
  }

  lemma SingleKeepsSafe(c: Config, s: Sys, op: Op, spec: Spec)
    requires Inv(c, s) && Enabled(c, s, op) && SingleTask(op) && Safe(s, spec)
    ensures Safe(Next(c, s, op), spec)
  {
    var s', r := Next(c, s, op), Logged(s.mem, op);
    SingleKeepsHeld(c, s, op, spec);
    if r.Some? {
      assert s.disk[..|s.disk|] == s.disk;
      assert Matches(Fold(s.disk).tasks[spec.id], s.mem.tasks[spec.id]);
      FoldSnoc(s.disk, r.value);
      ApplyKeepsHeld(Fold(s.disk), r.value, spec);
      forall n | s'.synced <= n <= |s'.disk| ensures Held(Fold(s'.disk[..n]).tasks, spec) {
        if n == |s'.disk| {
          assert s'.disk[..n] == s'.disk;
        } else {
          assert s'.disk[..n] == s.disk[..n];
        }
      }
    }
  }

  // Held in memory is held in its snapshot.
  lemma SnapshotHolds(tasks: map<string, Task>, order: seq<string>, spec: Spec)
    requires TasksOk(tasks) && Visits(order, tasks.Keys) && Held(tasks, spec)
    ensures Held(Fold(Snapshot(tasks, order)).tasks, spec)
  {
    SnapshotSim(tasks, order);
    assert Matches(Fold(Snapshot(tasks, order)).tasks[spec.id], tasks[spec.id]);
  }

  lemma CompactKeepsSafe(c: Config, s: Sys, op: Op, spec: Spec)
    requires MemOk(c, s.mem) && Enabled(c, s, op) && op.Compact? && Held(s.mem.tasks, spec)
    ensures Safe(Next(c, s, op), spec)
  {
    var snapshot := Snapshot(s.mem.tasks, op.order);
    SnapshotHolds(s.mem.tasks, op.order, spec);
    assert Next(c, s, op) == Sys(s.mem, snapshot, |snapshot|);
    assert snapshot[..|snapshot|] == snapshot;
  }

  lemma CrashKeepsSafe(c: Config, s: Sys, op: Op, spec: Spec)
    requires Enabled(c, s, op) && op.Crash? && Safe(s, spec)
    ensures Safe(Next(c, s, op), spec)
  {
    var s' := Next(c, s, op);
    assert Held(Fold(s.disk[..op.kept]).tasks, spec);
    forall n | s'.synced <= n <= |s'.disk| ensures Held(Fold(s'.disk[..n]).tasks, spec) {
      assert s'.disk[..n] == s.disk[..n];
    }
  }

  lemma StepKeepsSafe(c: Config, s: Sys, op: Op, spec: Spec)
    requires Inv(c, s) && Enabled(c, s, op) && Safe(s, spec)
    requires op.Drop? ==> spec.id !in op.ids
    ensures Safe(Next(c, s, op), spec)
  {
    if SingleTask(op) {
      SingleKeepsSafe(c, s, op, spec);
    } else if op.Compact? {
      CompactKeepsSafe(c, s, op, spec);
    } else if op.Crash? {
      CrashKeepsSafe(c, s, op, spec);
    }
  }

  /** Once Submit has accepted a request it is never lost: whatever follows, crashes and compactions included, the task
      is in memory with its own request until maintenance drops it, which it does to finished tasks only. */
  lemma {:induction false} AcceptedIsNeverLost(c: Config, s: Sys, submit: Op, later: seq<Op>)
    requires Inv(c, s) && submit.Submit? && Enabled(c, s, submit)
    requires Legal(c, Next(c, s, submit), later)
    requires forall i | 0 <= i < |later| :: later[i].Drop? ==> submit.spec.id !in later[i].ids
    ensures Safe(Exec(c, Next(c, s, submit), later), submit.spec)
    decreases |later|
  {
    StepKeepsInv(c, s, submit);
    if later == [] {
      SubmittedIsSafe(c, s, submit);
    } else {
      var init, last := later[..|later| - 1], later[|later| - 1];
      AcceptedIsNeverLost(c, s, submit, init);
      RunKeepsInv(c, Next(c, s, submit), init);
      StepKeepsSafe(c, Exec(c, Next(c, s, submit), init), last, submit.spec);
    }
  }

  ghost predicate HoldsNoCredentials(t: Task) {
    t.state.Succeeded? ==>
      t.spec.target.headers == map[] && t.spec.target.body == "" && t.spec.target.bodyEncoding == ""
  }

  /** In every reachable state a delivered task holds neither headers nor payload: not in memory, and not in what any
      crash can bring back. */
  lemma DeliveredHoldsNoCredentials(c: Config, ops: seq<Op>, n: nat, id: string)
    requires c.queueMax >= 0 && Legal(c, INITIAL, ops)
    requires Exec(c, INITIAL, ops).synced <= n <= |Exec(c, INITIAL, ops).disk|
    ensures var s := Exec(c, INITIAL, ops);
            && (id in s.mem.tasks ==> HoldsNoCredentials(s.mem.tasks[id]))
            && (id in Fold(s.disk[..n]).tasks ==> HoldsNoCredentials(Fold(s.disk[..n]).tasks[id]))
  {
    InitialInv(c);
    RunKeepsInv(c, INITIAL, ops);
    var s := Exec(c, INITIAL, ops);
    assert id in s.mem.tasks ==> TaskOk(id, s.mem.tasks[id]);
    assert ViewOk(c, Fold(s.disk[..n]));
    assert id in Fold(s.disk[..n]).tasks ==> TaskOk(id, Fold(s.disk[..n]).tasks[id]);
  }

  // ---- The durable part ----

  // No cut at or past the durable part loses a task.
  lemma DurableHoldsAll(c: Config, s: Sys, n: nat)
    requires Inv(c, s) && s.synced <= n <= |s.disk|
    ensures s.mem.tasks.Keys <= Fold(s.disk[..n]).tasks.Keys
  {
    assert s.disk == s.disk[..n] + s.disk[n..];
    FoldFromAppend(EMPTY, s.disk[..n], s.disk[n..]);
    FoldKeepsIds(Fold(s.disk[..n]), s.disk[n..]);
  }

  /** In every reachable state the durable part of the journal alone holds an enqueue record of every task in memory. */
  lemma DurablePartHoldsAll(c: Config, ops: seq<Op>)
    requires c.queueMax >= 0 && Legal(c, INITIAL, ops)
    ensures var s := Exec(c, INITIAL, ops);
            s.synced <= |s.disk| && s.mem.tasks.Keys <= Fold(s.disk[..s.synced]).tasks.Keys
  {
    InitialInv(c);
    RunKeepsInv(c, INITIAL, ops);
    DurableHoldsAll(c, Exec(c, INITIAL, ops), Exec(c, INITIAL, ops).synced);
  }

  /** The counter of unfinished tasks is exact and within its limit in every reachable state, and so it is after a
      crash that leaves any possible cut of the journal. */
  lemma ActiveIsBounded(c: Config, ops: seq<Op>, crash: Op)
    requires c.queueMax >= 0 && Legal(c, INITIAL, ops) && crash.Crash? && Enabled(c, Exec(c, INITIAL, ops), crash)
    ensures var m := Exec(c, INITIAL, ops).mem; m.active == |LiveIds(m.tasks)| <= c.queueMax
    ensures var m := Next(c, Exec(c, INITIAL, ops), crash).mem; m.active == |LiveIds(m.tasks)| <= c.queueMax
  {
    InitialInv(c);
    RunKeepsInv(c, INITIAL, ops);
    StepKeepsInv(c, Exec(c, INITIAL, ops), crash);
  }

  // ---- A crash inside a compaction ----

  /** The journals a crash can leave while a compaction is under way, the old one cut or the snapshot whole, are those
      of a crash that came before the compaction or after it: nothing in between.  `durable` of their records are so. */
  lemma CrashInCompaction(c: Config, s: Sys, order: seq<string>, rs: seq<Record>, durable: nat) returns (ops: seq<Op>)
    requires Inv(c, s) && Visits(order, s.mem.tasks.Keys)
    requires (rs == Snapshot(s.mem.tasks, order) && durable == |rs|) || (s.synced <= durable <= |rs| && rs <= s.disk)
    ensures Legal(c, s, ops) && ops != [] && ops[|ops| - 1].Crash?
    ensures Exec(c, s, ops) == Sys(Restored(Fold(rs)), rs, durable)
    ensures s.mem.tasks.Keys <= Exec(c, s, ops).mem.tasks.Keys
  {
    var crash := Crash(|rs|, durable);
    if s.synced <= durable && rs <= s.disk {
      ops := [crash];
      assert rs == s.disk[..|rs|];
      OneStep(c, s, crash);
      assert Next(c, s, crash) == Sys(Restored(Fold(rs)), rs, durable);
      DurableHoldsAll(c, s, |rs|);
    } else {
      ops := [Compact(order), crash];
      assert Next(c, s, Compact(order)) == Sys(s.mem, rs, |rs|) && rs == rs[..|rs|];
      TwoSteps(c, s, Compact(order), crash);
      SnapshotSim(s.mem.tasks, order);
    }
  }

  lemma OneStep(c: Config, s: Sys, op: Op)
    requires Enabled(c, s, op)
    ensures Legal(c, s, [op]) && Exec(c, s, [op]) == Next(c, s, op)
  {
    assert [op][..0] == [];
  }

  lemma TwoSteps(c: Config, s: Sys, a: Op, b: Op)
    requires Enabled(c, s, a) && Enabled(c, Next(c, s, a), b)
    ensures Legal(c, s, [a, b]) && Exec(c, s, [a, b]) == Next(c, Next(c, s, a), b)
  {
    OneStep(c, s, a);
    assert [a, b][..1] == [a];
  }

  // ---- A refused submission ----

  /** What an enqueue leaves behind when its fsync fails: a record nobody was told of. */
  function LeftBehind(s: Sys, spec: Spec, now: int): Sys { s.(disk := s.disk + [Enqueue(spec, now)]) }

  /** A crash before anything else is appended brings a refused task to life if and only if it keeps that record; any
      shorter cut is one of the journal as it was. */
  lemma RefusedReturnsIff(c: Config, s: Sys, spec: Spec, now: int, n: nat)
    requires Inv(c, s) && Enabled(c, s, Submit(spec, now)) && s.synced <= n <= |s.disk| + 1
    ensures var disk := LeftBehind(s, spec, now).disk;
            var back := Restored(Fold(disk[..n]));
            && (spec.id in back.tasks <==> n == |disk|)
            && (n == |disk| ==> back.tasks[spec.id].state.Pending? && spec.id in back.due
                                && back == Restored(Apply(Fold(s.disk), Enqueue(spec, now))))
            && (n < |disk| ==> back == Restored(Fold(s.disk[..n])))
  {
    var disk := LeftBehind(s, spec, now).disk;
    if n == |disk| {
      assert disk[..n] == disk;
      FoldSnoc(s.disk, Enqueue(spec, now));
    } else {
      assert disk[..n] == s.disk[..n] && s.disk == s.disk[..n] + s.disk[n..];
      FoldFromAppend(EMPTY, s.disk[..n], s.disk[n..]);
      FoldKeepsIds(Fold(s.disk[..n]), s.disk[n..]);
    }
  }

  // ---- Compaction under two locks ----

  /** A snapshot taken at `s0` and installed later, at `s1`, as the source's two separate locks allow. */
  function InstalledLate(s0: Sys, s1: Sys, order: seq<string>): Sys
    requires forall id | id in order :: id in s0.mem.tasks
  {
    var snapshot := Snapshot(s0.mem.tasks, order);
    Sys(s1.mem, snapshot, |snapshot|)
  }

  // Once memory is sound, all that can go wrong is that the snapshot no longer stands for it.
  lemma LateInstallInv(c: Config, s0: Sys, s1: Sys, order: seq<string>)
    requires Inv(c, s0) && Inv(c, s1) && Visits(order, s0.mem.tasks.Keys)
    ensures Inv(c, InstalledLate(s0, s1, order)) <==> Sim(s1.mem.tasks, Fold(Snapshot(s0.mem.tasks, order)))
  {
    SnapshotViewOk(c, s0.mem, order);
    SnapshotReadable(s0.mem.tasks, order);
    var late := InstalledLate(s0, s1, order);
    if Sim(late.mem.tasks, Fold(late.disk)) {
      DurableInv(c, late);
    }
  }

  // What a run appends, compactions apart.
  ghost function Appended(c: Config, s: Sys, ops: seq<Op>): seq<Record>
    requires Legal(c, s, ops)
    decreases |ops|
  {
    if ops == [] then []
    else
      var init := ops[..|ops| - 1];
      var r := Logged(Exec(c, s, init).mem, ops[|ops| - 1]);
      Appended(c, s, init) + (if r.Some? then [r.value] else [])
  }

  predicate Names(rs: seq<Record>, id: string) { exists i :: 0 <= i < |rs| && rs[i].id == id }

  /** What other callers may do between the two locks: anything but crash, compact (only one routine does) or revive. */
  ghost predicate Meanwhile(ops: seq<Op>) {
    forall i | 0 <= i < |ops| :: !ops[i].Crash? && !ops[i].Compact? && !ops[i].Revive?
  }

  lemma {:induction false} MeanwhileAppends(c: Config, s: Sys, ops: seq<Op>)
    requires Legal(c, s, ops) && Meanwhile(ops)
    ensures Exec(c, s, ops).disk == s.disk + Appended(c, s, ops)
    decreases |ops|
  {
    if ops == [] {
    } else {
      MeanwhileAppends(c, s, ops[..|ops| - 1]);
    }
  }

  // How far a task has moved from what a snapshot taken at `m0` says of it.
  ghost predicate Drifted(m0: Mem, m: Mem, touched: bool, id: string) {
    && (id in m.tasks && !touched ==> id in m0.tasks && Matches(m0.tasks[id], m.tasks[id]))
    && (id in m.tasks && id in m0.tasks && touched ==> m0.tasks[id].attempts < m.tasks[id].attempts)
    && (id in m0.tasks && id !in m.tasks && !touched ==> !m0.tasks[id].Live())
    && (id in m0.tasks && touched ==> m0.tasks[id].Live())
  }

  lemma StepDrifts(c: Config, m0: Mem, s: Sys, op: Op, touched: bool, id: string)
    requires MemOk(c, s.mem) && Enabled(c, s, op) && !op.Crash? && !op.Compact? && !op.Revive?
    requires op.Submit? ==> op.spec.id !in m0.tasks
    requires Drifted(m0, s.mem, touched, id)
    ensures var r := Logged(s.mem, op); Drifted(m0, NextMem(c, s, op), touched || (r.Some? && r.value.id == id), id)
  {
    if op.Lease? {
      assert op.id in ScheduledIds(s.mem.tasks);
    }
  }

  lemma NamesSnoc(rs: seq<Record>, r: Record, id: string)
    ensures Names(rs + [r], id) <==> Names(rs, id) || r.id == id
  {
    if Names(rs, id) {
      var i :| 0 <= i < |rs| && rs[i].id == id;
      assert (rs + [r])[i].id == id;
    }
    assert (rs + [r])[|rs|] == r;
  }

  // No task of the old memory can be submitted again.
  lemma MeanwhileIsFresh(c: Config, s0: Sys, ops: seq<Op>)
    requires Inv(c, s0) && Legal(c, s0, ops) && Meanwhile(ops)
    ensures s0.mem.tasks.Keys <= Fold(Exec(c, s0, ops).disk).tasks.Keys
  {
    MeanwhileAppends(c, s0, ops);
    FoldFromAppend(EMPTY, s0.disk, Appended(c, s0, ops));
    FoldKeepsIds(Fold(s0.disk), Appended(c, s0, ops));
  }

  lemma {:induction false} RunDrifts(c: Config, s0: Sys, ops: seq<Op>, id: string)
    requires Inv(c, s0) && Legal(c, s0, ops) && Meanwhile(ops)
    ensures Drifted(s0.mem, Exec(c, s0, ops).mem, Names(Appended(c, s0, ops), id), id)
    decreases |ops|
  {
    if ops == [] {
    } else {
      var init, last := ops[..|ops| - 1], ops[|ops| - 1];
      var s := Exec(c, s0, init);
      RunDrifts(c, s0, init, id);
      RunKeepsInv(c, s0, init);
      MeanwhileIsFresh(c, s0, init);
      StepDrifts(c, s0.mem, s, last, Names(Appended(c, s0, init), id), id);
      var r, rs := Logged(s.mem, last), Appended(c, s0, init);
      assert Exec(c, s0, ops).mem == NextMem(c, s, last);
      if r.Some? {
        NamesSnoc(rs, r.value, id);
        assert Appended(c, s0, ops) == rs + [r.value];
      } else {
        assert Appended(c, s0, ops) == rs;
      }
    }
  }

  /** Installing a stale snapshot keeps the invariant everything rests on if and only if all that was appended in
      between is about tasks that came and went in between.  A success, a retry or a burial of any other task spoils
      it. */
  lemma LateInstallIsSafeIff(c: Config, s0: Sys, between: seq<Op>, order: seq<string>)
    requires Inv(c, s0) && Legal(c, s0, between) && Meanwhile(between) && Visits(order, s0.mem.tasks.Keys)
    ensures var s1 := Exec(c, s0, between);
            Inv(c, InstalledLate(s0, s1, order)) <==>
            forall r | r in Appended(c, s0, between) :: r.id !in s0.mem.tasks && r.id !in s1.mem.tasks
  {
    var s1, rs, v := Exec(c, s0, between), Appended(c, s0, between), Fold(Snapshot(s0.mem.tasks, order));
    RunKeepsInv(c, s0, between);
    LateInstallInv(c, s0, s1, order);
    SnapshotReplays(s0.mem.tasks, order);
    forall id
      ensures Drifted(s0.mem, s1.mem, Names(rs, id), id)
      ensures id in v.tasks <==> id in s0.mem.tasks
      ensures id in v.tasks ==> Matches(v.tasks[id], s0.mem.tasks[id])
    {
      RunDrifts(c, s0, between, id);
    }
    StaleStandsIff(s0.mem, s1.mem, rs, v);
  }

  lemma StaleStandsIff(m0: Mem, m1: Mem, rs: seq<Record>, v: View)
    requires forall id :: Drifted(m0, m1, Names(rs, id), id)
    requires forall id :: id in v.tasks <==> id in m0.tasks
    requires forall id | id in v.tasks :: Matches(v.tasks[id], m0.tasks[id])
    ensures Sim(m1.tasks, v) <==> forall r | r in rs :: r.id !in m0.tasks && r.id !in m1.tasks
  {
    if Sim(m1.tasks, v) {
      forall r | r in rs ensures r.id !in m0.tasks && r.id !in m1.tasks {
        assert Drifted(m0, m1, Names(rs, r.id), r.id) && Names(rs, r.id);
      }
    } else if id :| id in m1.tasks && !(id in v.tasks && Matches(v.tasks[id], m1.tasks[id])) {
      assert Drifted(m0, m1, Names(rs, id), id);
      assert Names(rs, id);
    } else {
      var id :| id in v.tasks && id !in m1.tasks && v.tasks[id].Live();
      assert Drifted(m0, m1, Names(rs, id), id);
    }
  }

  // A task no record names is as the snapshot has it, or was dropped as finished.
  ghost predicate Unmoved(m0: Mem, m: Mem, id: string) {
    && (id in m.tasks ==> id in m0.tasks && Matches(m0.tasks[id], m.tasks[id]))
    && (id in m0.tasks && id !in m.tasks ==> !m0.tasks[id].Live())
  }

  lemma StepUnmoved(c: Config, m0: Mem, s: Sys, op: Op, id: string)
    requires MemOk(c, s.mem) && Enabled(c, s, op) && !op.Crash? && Unmoved(m0, s.mem, id)
    requires Logged(s.mem, op).Some? ==> Logged(s.mem, op).value.id != id
    ensures Unmoved(m0, NextMem(c, s, op), id)
  {
    if op.Lease? {
      assert op.id in ScheduledIds(s.mem.tasks);
    }
  }

  lemma {:induction false} RunUnmoved(c: Config, s0: Sys, ops: seq<Op>, id: string)
    requires Inv(c, s0) && Legal(c, s0, ops) && NoCrash(ops) && !Names(Appended(c, s0, ops), id)
    ensures Unmoved(s0.mem, Exec(c, s0, ops).mem, id)
    decreases |ops|
  {
    if ops == [] {
    } else {
      var init, last := ops[..|ops| - 1], ops[|ops| - 1];
      var s := Exec(c, s0, init);
      var r, rs := Logged(s.mem, last), Appended(c, s0, init);
      if r.Some? {
        NamesSnoc(rs, r.value, id);
        assert Appended(c, s0, ops) == rs + [r.value];
      } else {
        assert Appended(c, s0, ops) == rs;
      }
      RunUnmoved(c, s0, init, id);
      RunKeepsInv(c, s0, init);
      StepUnmoved(c, s0.mem, s, last, id);
      assert Exec(c, s0, ops).mem == NextMem(c, s, last);
    }
  }

  /** The condition suffices in every gap without a crash, revivals included. */
  lemma LateInstallIsSafe(c: Config, s0: Sys, between: seq<Op>, order: seq<string>)
    requires Inv(c, s0) && Legal(c, s0, between) && NoCrash(between) && Visits(order, s0.mem.tasks.Keys)
    requires forall r | r in Appended(c, s0, between) ::
               r.id !in s0.mem.tasks && r.id !in Exec(c, s0, between).mem.tasks
    ensures Inv(c, InstalledLate(s0, Exec(c, s0, between), order))
  {
    var s1, rs, v := Exec(c, s0, between), Appended(c, s0, between), Fold(Snapshot(s0.mem.tasks, order));
    RunKeepsInv(c, s0, between);
    LateInstallInv(c, s0, s1, order);
    SnapshotReplays(s0.mem.tasks, order);
    forall id | id in s0.mem.tasks || id in s1.mem.tasks
      ensures Unmoved(s0.mem, s1.mem, id)
    {
      RunUnmoved(c, s0, between, id);
    }
    UnmovedStands(s0.mem, s1.mem, v);
  }

  lemma UnmovedStands(m0: Mem, m1: Mem, v: View)
    requires forall id | id in m0.tasks || id in m1.tasks :: Unmoved(m0, m1, id)
    requires forall id :: id in v.tasks <==> id in m0.tasks
    requires forall id | id in v.tasks :: Matches(v.tasks[id], m0.tasks[id])
    ensures Sim(m1.tasks, v)
  {}

  /** In particular it is safe when nothing is appended in between. */
  lemma QuietInstallIsSafe(c: Config, s0: Sys, between: seq<Op>, order: seq<string>)
    requires Inv(c, s0) && Legal(c, s0, between) && Meanwhile(between) && Visits(order, s0.mem.tasks.Keys)
    requires Appended(c, s0, between) == []
    ensures Inv(c, InstalledLate(s0, Exec(c, s0, between), order))
  {
    LateInstallIsSafeIff(c, s0, between, order);
  }

  lemma LoggedSpoils(c: Config, s: Sys, op: Op, v: View)
    requires MemOk(c, s.mem) && Enabled(c, s, op) && Logged(s.mem, op).Some?
    requires forall id :: id in v.tasks <==> id in s.mem.tasks
    requires forall id | id in v.tasks :: Matches(v.tasks[id], s.mem.tasks[id])
    ensures !Sim(NextMem(c, s, op).tasks, v)
  {
    var id := Subject(op);
    assert id in NextMem(c, s, op).tasks && (id in v.tasks ==> !Matches(v.tasks[id], NextMem(c, s, op).tasks[id]));
  }

  lemma UnloggedStands(c: Config, s: Sys, op: Op, v: View)
    requires MemOk(c, s.mem) && Enabled(c, s, op) && Logged(s.mem, op).None? && !op.Crash?
    requires forall id :: id in v.tasks <==> id in s.mem.tasks
    requires forall id | id in v.tasks :: Matches(v.tasks[id], s.mem.tasks[id])
    ensures Sim(NextMem(c, s, op).tasks, v)
  {
    var m' := NextMem(c, s, op);
    forall id | id in s.mem.tasks || id in m'.tasks ensures Unmoved(s.mem, m', id) {
      StepUnmoved(c, s.mem, s, op, id);
    }
    UnmovedStands(s.mem, m', v);
  }

  /** And a single step in between, revivals included, is harmless if and only if it appends nothing. */
  lemma OneStepBetweenIsSafeIff(c: Config, s0: Sys, op: Op, order: seq<string>)
    requires Inv(c, s0) && Enabled(c, s0, op) && !op.Crash? && Visits(order, s0.mem.tasks.Keys)
    ensures Inv(c, InstalledLate(s0, Next(c, s0, op), order)) <==> Logged(s0.mem, op).None?
  {
    StepKeepsInv(c, s0, op);
    LateInstallInv(c, s0, Next(c, s0, op), order);
    SnapshotReplays(s0.mem.tasks, order);
    assert Next(c, s0, op).mem == NextMem(c, s0, op);
    if Logged(s0.mem, op).Some? {
      LoggedSpoils(c, s0, op, Fold(Snapshot(s0.mem.tasks, order)));
    } else {
      UnloggedStands(c, s0, op, Fold(Snapshot(s0.mem.tasks, order)));
    }
  }

  // Of ids alone: which tasks are on disk after a late install.
  ghost predicate AllOnDisk(s: Sys) { s.mem.tasks.Keys <= Fold(s.disk).tasks.Keys }

  /** Every task in memory is still on disk, whatever its record says of it, if and only if none was submitted in
      between. */
  lemma LateInstallKeepsIdsIff(c: Config, s0: Sys, between: seq<Op>, order: seq<string>)
    requires Inv(c, s0) && Legal(c, s0, between) && Visits(order, s0.mem.tasks.Keys)
    requires forall i | 0 <= i < |between| :: !between[i].Crash?
    ensures var s1 := Exec(c, s0, between);
            AllOnDisk(InstalledLate(s0, s1, order)) <==>
            !exists i :: 0 <= i < |between| && between[i].Submit?
                         && between[i].spec.id in s1.mem.tasks && between[i].spec.id !in s0.mem.tasks
  {
    SnapshotReplays(s0.mem.tasks, order);
    var s1 := Exec(c, s0, between);
    forall id | id in s1.mem.tasks && id !in s0.mem.tasks
      ensures exists i :: 0 <= i < |between| && between[i].Submit? && between[i].spec.id == id
    {
      NewIdsAreSubmitted(c, s0, between, id);
    }
  }

  /** So a single Submit between the two locks always loses its task, although the caller was told it is safe. */
  lemma LateInstallLosesSubmit(c: Config, s0: Sys, submit: Op, order: seq<string>)
    requires Inv(c, s0) && submit.Submit? && Enabled(c, s0, submit) && Visits(order, s0.mem.tasks.Keys)
    ensures submit.spec.id in Next(c, s0, submit).mem.tasks
    ensures submit.spec.id !in Fold(InstalledLate(s0, Next(c, s0, submit), order).disk).tasks
  {
    SnapshotReplays(s0.mem.tasks, order);
  }

  lemma {:induction false} NewIdsAreSubmitted(c: Config, s: Sys, ops: seq<Op>, id: string)
    requires Legal(c, s, ops) && id in Exec(c, s, ops).mem.tasks && id !in s.mem.tasks
    requires forall i | 0 <= i < |ops| :: !ops[i].Crash?
    ensures exists i :: 0 <= i < |ops| && ops[i].Submit? && ops[i].spec.id == id
    decreases |ops|
  {
    var init, last := ops[..|ops| - 1], ops[|ops| - 1];
    if id in Exec(c, s, init).mem.tasks {
      NewIdsAreSubmitted(c, s, init, id);
      var i :| 0 <= i < |init| && init[i].Submit? && init[i].spec.id == id;
      assert ops[i] == init[i];
    } else {
      assert last.Submit? && last.spec.id == id;
    }
  }
}
