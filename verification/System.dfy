/** The queue and its journal as one state machine: every locked operation is a step, and so is a crash.
    A crash loses the memory and may cut the journal anywhere at or past its durable length. */
module System {
  import opened Model
  import opened Replay
  import opened QueueSpec
  import opened Simulation

  datatype Config = Config(queueMax: int, tasksMax: int)

  // `disk` is everything appended, buffered records included; the first `synced` of them are durable.
  datatype Sys = Sys(mem: Mem, disk: seq<Record>, synced: nat)

  const INITIAL := Sys(Restored(EMPTY), [], 0)

  datatype Op =
    | Submit(spec: Spec, now: int)
    | Lease(id: string, now: int)
    | Retry(id: string, nextAt: int, now: int)
    | Succeed(id: string, now: int)
    | Bury(id: string, why: string, now: int)
    | Revive(id: string, now: int)
    | Defer(id: string, nextAt: int)
    | Drop(ids: set<string>)
    | TakeWake
    | Sync
    | Compact(order: seq<string>)
    | ResetCount
    | Crash(kept: nat, durable: nat)

  ghost predicate Enabled(c: Config, s: Sys, op: Op) {
    var m := s.mem;
    match op
    case Submit(spec, _) =>
      && spec.idemKey != "" && spec.idemKey !in m.idem
      && m.active < c.queueMax
      && spec.id !in m.tasks && spec.id !in Fold(s.disk).tasks
    case Lease(id, now) =>
      && id in m.due && id in m.tasks && m.tasks[id].nextAt <= now
      && (forall other | other in m.due && other in m.tasks :: m.tasks[id].nextAt <= m.tasks[other].nextAt)
    case Retry(id, _, _) => id in m.tasks && m.tasks[id].state.Sending?
    case Succeed(id, _) => id in m.tasks && m.tasks[id].state.Sending?
    case Bury(id, _, _) => id in m.tasks && m.tasks[id].state.Sending?
    case Revive(id, _) => id in m.tasks && m.tasks[id].state.Dead? && m.active < c.queueMax
    case Defer(id, nextAt) => id in m.tasks && m.tasks[id].state.Sending? && m.tasks[id].nextAt <= nextAt
    case Drop(ids) => forall id | id in ids :: id in m.tasks && !m.tasks[id].Live()
    case TakeWake => m.wake
    case Sync => true
    case Compact(order) => Visits(order, m.tasks.Keys)
    case ResetCount => true
    case Crash(kept, durable) => s.synced <= durable <= kept <= |s.disk|
  }

  // The record an operation appends, if any.
  function Logged(m: Mem, op: Op): Option<Record> {
    match op
    case Submit(spec, now) => Some(Enqueue(spec, now))
    case Retry(id, nextAt, now) =>
      if id in m.tasks then Some(Attempt(id, m.tasks[id].attempts + 1, nextAt, now)) else None
    case Succeed(id, now) =>
      if id in m.tasks then Some(Model.Done(id, m.tasks[id].attempts + 1, now)) else None
    case Bury(id, why, now) =>
      if id in m.tasks then Some(Model.Buried(id, m.tasks[id].attempts + 1, why, now)) else None
    case Revive(id, now) => Some(Attempt(id, 0, now, now))
    case _ => None
  }

  ghost function NextMem(c: Config, s: Sys, op: Op): Mem
    requires Enabled(c, s, op)
  {
    var m := s.mem;
    match op
    case Submit(spec, _) => Submitted(m, spec)
    case Lease(id, now) => Leased(m, id, now)
    case Retry(id, nextAt, now) => Retried(m, id, nextAt, now)
    case Succeed(id, now) => QueueSpec.Delivered(m, id, now)
    case Bury(id, why, now) => QueueSpec.Buried(m, id, why, now)
    case Revive(id, now) => Revived(m, id, now)
    case Defer(id, nextAt) => Deferred(m, id, nextAt)
    case Drop(ids) => Dropped(m, ids)
    case TakeWake => m.(wake := false)
    case Sync => m
    case Compact(_) => m
    case ResetCount => m.(unstripped := 0)
    case Crash(kept, _) => Restored(Fold(s.disk[..kept]))
  }

  ghost function Next(c: Config, s: Sys, op: Op): Sys
    requires Enabled(c, s, op)
  {
    var m := NextMem(c, s, op);
    match op
    case Submit(spec, now) => Sys(m, s.disk + [Enqueue(spec, now)], |s.disk| + 1)
    case Sync => Sys(m, s.disk, |s.disk|)
    case Compact(order) =>
      var snapshot := Snapshot(s.mem.tasks, order);
      Sys(m, snapshot, |snapshot|)
    case Crash(kept, durable) => Sys(m, s.disk[..kept], durable)
    case _ =>
      var r := Logged(s.mem, op);
      Sys(m, if r.Some? then s.disk + [r.value] else s.disk, s.synced)
  }

  /** `s` may take the step `op`, and it leads to `s'`. */
  ghost predicate Leads(c: Config, s: Sys, op: Op, s': Sys) {
    Enabled(c, s, op) && s' == Next(c, s, op)
  }

  ghost predicate Legal(c: Config, s: Sys, ops: seq<Op>)
    decreases |ops|, 0
  {
    ops == [] || (Legal(c, s, ops[..|ops| - 1]) && Enabled(c, Exec(c, s, ops[..|ops| - 1]), ops[|ops| - 1]))
  }

  // The state a run of operations reaches.
  ghost function Exec(c: Config, s: Sys, ops: seq<Op>): Sys
    requires Legal(c, s, ops)
    decreases |ops|, 1
  {
    if ops == [] then s else Next(c, Exec(c, s, ops[..|ops| - 1]), ops[|ops| - 1])
  }

  /** The run `ops` is legal from `s` and leads to `s'`. */
  ghost predicate Reaches(c: Config, s: Sys, ops: seq<Op>, s': Sys) {
    Legal(c, s, ops) && Exec(c, s, ops) == s'
  }

  lemma ReachesSelf(c: Config, s: Sys)
    ensures Reaches(c, s, [], s)
  {}

  lemma ReachesFurther(c: Config, s: Sys, ops: seq<Op>, s1: Sys, op: Op, s2: Sys)
    requires Reaches(c, s, ops, s1) && Leads(c, s1, op, s2)
    ensures Reaches(c, s, ops + [op], s2)
  {
    assert (ops + [op])[..|ops|] == ops;
  }

  lemma {:induction false} RunsJoin(c: Config, s: Sys, a: seq<Op>, s1: Sys, b: seq<Op>, s2: Sys)
    requires Reaches(c, s, a, s1) && Reaches(c, s1, b, s2)
    ensures Reaches(c, s, a + b, s2)
    decreases |b|
  {
    if b == [] {
      assert a + b == a;
    } else {
      var init := b[..|b| - 1];
      RunsJoin(c, s, a, s1, init, Exec(c, s1, init));
      assert (a + b)[..|a + b| - 1] == a + init;
    }
  }

  lemma RunOfTwo(c: Config, s: Sys, a: Op, s1: Sys, b: Op, s2: Sys)
    requires Leads(c, s, a, s1) && Leads(c, s1, b, s2)
    ensures Reaches(c, s, [a, b], s2)
  {
    ReachesSelf(c, s);
    ReachesFurther(c, s, [], s, a, s1);
    assert [] + [a] == [a] && [a] + [b] == [a, b];
    ReachesFurther(c, s, [a], s1, b, s2);
  }

  ghost predicate NoCrash(ops: seq<Op>) { forall i | 0 <= i < |ops| :: !ops[i].Crash? }

  predicate Compacts(ops: seq<Op>) { ops != [] && (ops[|ops| - 1].Compact? || Compacts(ops[..|ops| - 1])) }

  // ---- Invariants ----

  ghost predicate Indexed(tasks: map<string, Task>, idem: map<string, string>) {
    forall k | k in idem :: k != "" && idem[k] in tasks && tasks[idem[k]].spec.idemKey == k
  }

  ghost predicate MemOk(c: Config, m: Mem) {
    && TasksOk(m.tasks)
    && Indexed(m.tasks, m.idem)
    && m.due == ScheduledIds(m.tasks)
    && m.active == |LiveIds(m.tasks)| <= c.queueMax
  }

  ghost predicate ViewOk(c: Config, v: View) {
    && TasksOk(v.tasks)
    && Indexed(v.tasks, v.idem)
    && |LiveIds(v.tasks)| <= c.queueMax
  }

  // Everything past the durable part is an outcome: a lost suffix never takes an enqueue with it.
  ghost predicate EnqueuesSynced(s: Sys) {
    && s.synced <= |s.disk|
    && (forall i | s.synced <= i < |s.disk| :: !s.disk[i].kind.RecEnqueue?)
  }

  ghost predicate CutsOk(c: Config, s: Sys) {
    s.synced <= |s.disk| && forall n | s.synced <= n <= |s.disk| :: ViewOk(c, Fold(s.disk[..n]))
  }

  // No restart will refuse the journal.
  predicate Readable(rs: seq<Record>) {
    forall i | 0 <= i < |rs| :: rs[i].Acceptable()
  }

  ghost predicate Inv(c: Config, s: Sys) {
    && Readable(s.disk)
    && MemOk(c, s.mem)
    && Sim(s.mem.tasks, Fold(s.disk))
    && EnqueuesSynced(s)
    && CutsOk(c, s)
  }

  lemma RestoredOk(c: Config, v: View)
    requires ViewOk(c, v)
    ensures MemOk(c, Restored(v)) && Sim(Restored(v).tasks, v)
  {
    var m := Restored(v);
    forall id ensures id in LiveIds(m.tasks) <==> id in LiveIds(v.tasks) {}
    assert LiveIds(m.tasks) == LiveIds(v.tasks);
    assert m.due == ScheduledIds(m.tasks);
  }

  lemma CountWithout(ids: set<string>, id: string)
    ensures |ids - {id}| == |ids| - (if id in ids then 1 else 0)
  {
    if id in ids {
      assert ids == ids - {id} + {id};
    } else {
      assert ids - {id} == ids;
    }
  }

  lemma OthersStayLive(before: map<string, Task>, after: map<string, Task>, id: string)
    requires forall other | other != id :: (other in before <==> other in after)
                                           && (other in before ==> before[other].Live() == after[other].Live())
    ensures LiveIds(after) - {id} == LiveIds(before) - {id}
  {
    forall other | other != id ensures other in LiveIds(after) <==> other in LiveIds(before) {}
  }

  // Adding an id to, or taking one from, the live set moves the count by one.
  lemma LiveCount(before: map<string, Task>, after: map<string, Task>, id: string)
    requires id in after
    requires forall other | other != id :: (other in before <==> other in after)
                                           && (other in before ==> before[other].Live() == after[other].Live())
    ensures var was := id in before && before[id].Live();
            |LiveIds(after)| == |LiveIds(before)| - (if was then 1 else 0) + (if after[id].Live() then 1 else 0)
  {
    OthersStayLive(before, after, id);
    CountWithout(LiveIds(before), id);
    CountWithout(LiveIds(after), id);
  }

  // The operations that change exactly one task.
  ghost predicate SingleTask(op: Op) {
    op.Submit? || op.Lease? || op.Retry? || op.Succeed? || op.Bury? || op.Revive? || op.Defer?
  }

  ghost function Subject(op: Op): string
    requires SingleTask(op)
  {
    if op.Submit? then op.spec.id else op.id
  }

  // Replacing (or adding) one task keeps the memory sound if the due set and the counter follow it.
  lemma PutMemOk(c: Config, m: Mem, m': Mem, t: Task)
    requires MemOk(c, m) && TaskOk(t.spec.id, t)
    requires m'.tasks == m.tasks[t.spec.id := t]
    requires t.spec.id in m.tasks ==> m.tasks[t.spec.id].spec.idemKey == t.spec.idemKey && m'.idem == m.idem
    requires t.spec.id !in m.tasks ==> m'.idem == m.idem[t.spec.idemKey := t.spec.id]
    requires m'.due == if t.state.Scheduled() then m.due + {t.spec.id} else m.due - {t.spec.id}
    requires m'.active == m.active - (if t.spec.id in m.tasks && m.tasks[t.spec.id].Live() then 1 else 0)
                                   + (if t.Live() then 1 else 0) <= c.queueMax
    ensures MemOk(c, m')
  {
    LiveCount(m.tasks, m'.tasks, t.spec.id);
    assert m'.due == ScheduledIds(m'.tasks);
  }

  lemma SingleMemOk(c: Config, s: Sys, op: Op)
    requires MemOk(c, s.mem) && Enabled(c, s, op) && SingleTask(op)
    ensures MemOk(c, NextMem(c, s, op))
  {
    var m' := NextMem(c, s, op);
    if !op.Submit? {
      assert TaskOk(op.id, s.mem.tasks[op.id]);
      assert op.id in ScheduledIds(s.mem.tasks) <==> op.id in s.mem.due;
    }
    PutMemOk(c, s.mem, m', m'.tasks[Subject(op)]);
  }

  lemma DroppedMemOk(c: Config, s: Sys, op: Op)
    requires MemOk(c, s.mem) && Enabled(c, s, op) && op.Drop?
    ensures MemOk(c, NextMem(c, s, op))
  {
    var m, m' := s.mem, NextMem(c, s, op);
    assert LiveIds(m'.tasks) == LiveIds(m.tasks);
    forall id ensures id in m'.due <==> id in ScheduledIds(m'.tasks) {
      assert id in m.due <==> id in ScheduledIds(m.tasks);
    }
  }

  lemma PutSim(tasks: map<string, Task>, v: View, v': View, t: Task, a: Task)
    requires Sim(tasks, v) && Matches(a, t)
    requires v'.tasks == v.tasks[t.spec.id := a]
    ensures Sim(tasks[t.spec.id := t], v')
  {}

  // The record an operation appends changes its own task only, and makes of it what memory does.
  lemma LoggedMatches(c: Config, s: Sys, op: Op)
    requires MemOk(c, s.mem) && Sim(s.mem.tasks, Fold(s.disk))
    requires Enabled(c, s, op) && SingleTask(op) && Logged(s.mem, op).Some?
    ensures var id, v := Subject(op), Fold(s.disk);
            var v' := Apply(v, Logged(s.mem, op).value);
            && id in v'.tasks && v'.tasks == v.tasks[id := v'.tasks[id]]
            && Matches(v'.tasks[id], NextMem(c, s, op).tasks[id])
  {
    if !op.Submit? {
      assert TaskOk(op.id, s.mem.tasks[op.id]) && Matches(Fold(s.disk).tasks[op.id], s.mem.tasks[op.id]);
    }
  }

  lemma SingleSim(c: Config, s: Sys, op: Op)
    requires MemOk(c, s.mem) && Sim(s.mem.tasks, Fold(s.disk))
    requires Enabled(c, s, op) && SingleTask(op)
    ensures Sim(Next(c, s, op).mem.tasks, Fold(Next(c, s, op).disk))
  {
    var r, id, v, m' := Logged(s.mem, op), Subject(op), Fold(s.disk), NextMem(c, s, op);
    assert m'.tasks == s.mem.tasks[id := m'.tasks[id]] && m'.tasks[id].spec.id == id by {
      assert !op.Submit? ==> TaskOk(id, s.mem.tasks[id]);
    }
    if r.Some? {
      LoggedMatches(c, s, op);
      FoldSnoc(s.disk, r.value);
      PutSim(s.mem.tasks, v, Apply(v, r.value), m'.tasks[id], Apply(v, r.value).tasks[id]);
    } else {
      assert Matches(v.tasks[id], s.mem.tasks[id]);
      assert v.tasks == v.tasks[id := v.tasks[id]];
      PutSim(s.mem.tasks, v, v, m'.tasks[id], v.tasks[id]);
    }
  }

  lemma PutViewOk(c: Config, v: View, v': View, a: Task)
    requires ViewOk(c, v) && TaskOk(a.spec.id, a)
    requires v'.tasks == v.tasks[a.spec.id := a]
    requires a.spec.id in v.tasks ==> v.tasks[a.spec.id].spec.idemKey == a.spec.idemKey && v'.idem == v.idem
    requires a.spec.id !in v.tasks ==> v'.idem == v.idem[a.spec.idemKey := a.spec.id]
    requires |LiveIds(v'.tasks)| <= c.queueMax
    ensures ViewOk(c, v')
  {}

  // The task it concerns stays one of its id and key; the index gains a key only by a submission.
  lemma LoggedKeeps(c: Config, s: Sys, op: Op)
    requires MemOk(c, s.mem) && Sim(s.mem.tasks, Fold(s.disk)) && ViewOk(c, Fold(s.disk))
    requires Enabled(c, s, op) && SingleTask(op) && Logged(s.mem, op).Some?
    ensures var v, id := Fold(s.disk), Subject(op);
            var v' := Apply(v, Logged(s.mem, op).value);
            && id in v'.tasks && TaskOk(id, v'.tasks[id])
            && (id in v.tasks ==> v.tasks[id].spec.idemKey == v'.tasks[id].spec.idemKey && v'.idem == v.idem)
            && (id !in v.tasks ==> v'.idem == v.idem[v'.tasks[id].spec.idemKey := id])
  {
    if !op.Submit? {
      assert TaskOk(op.id, Fold(s.disk).tasks[op.id]) && TaskOk(op.id, s.mem.tasks[op.id]);
    }
  }

  // What an operation appends leaves the journal replayable to a sound view.
  lemma AppendedViewOk(c: Config, s: Sys, op: Op)
    requires MemOk(c, s.mem) && Sim(s.mem.tasks, Fold(s.disk)) && ViewOk(c, Fold(s.disk))
    requires Enabled(c, s, op) && SingleTask(op) && Logged(s.mem, op).Some?
    ensures ViewOk(c, Fold(Next(c, s, op).disk))
  {
    var v, r, id := Fold(s.disk), Logged(s.mem, op).value, Subject(op);
    FoldSnoc(s.disk, r);
    SingleSim(c, s, op);
    SingleMemOk(c, s, op);
    SimLive(NextMem(c, s, op).tasks, Apply(v, r));
    LoggedMatches(c, s, op);
    LoggedKeeps(c, s, op);
    PutViewOk(c, v, Apply(v, r), Apply(v, r).tasks[id]);
  }

  // A sound state stays sound when one record is appended, if what it replays to is sound.
  lemma AppendKeepsInv(c: Config, s: Sys, s': Sys, r: Record)
    requires Inv(c, s)
    requires s'.disk == s.disk + [r] && s'.synced == if r.kind.RecEnqueue? then |s'.disk| else s.synced
    requires MemOk(c, s'.mem) && Sim(s'.mem.tasks, Fold(s'.disk)) && ViewOk(c, Fold(s'.disk)) && r.Acceptable()
    ensures Inv(c, s')
  {
    forall n | s'.synced <= n <= |s'.disk| ensures ViewOk(c, Fold(s'.disk[..n])) {
      if n == |s'.disk| {
        assert s'.disk[..n] == s'.disk;
      } else {
        assert s'.disk[..n] == s.disk[..n];
      }
    }
  }

  lemma ReplayableNow(c: Config, s: Sys)
    requires Inv(c, s)
    ensures ViewOk(c, Fold(s.disk))
  {
    assert s.disk[..|s.disk|] == s.disk;
  }

  lemma SingleStep(c: Config, s: Sys, op: Op)
    requires Inv(c, s) && Enabled(c, s, op) && SingleTask(op)
    ensures Inv(c, Next(c, s, op))
  {
    var s', r := Next(c, s, op), Logged(s.mem, op);
    SingleMemOk(c, s, op);
    SingleSim(c, s, op);
    if r.Some? {
      ReplayableNow(c, s);
      AppendedViewOk(c, s, op);
      AppendKeepsInv(c, s, s', r.value);
    } else {
      assert s'.disk == s.disk && s'.synced == s.synced;
    }
  }

  // The last position in `order` that holds a task with key `k`, or -1.
  function LastOf(tasks: map<string, Task>, order: seq<string>, k: string): (p: int)
    requires forall id | id in order :: id in tasks
    ensures -1 <= p < |order|
    ensures p >= 0 ==> tasks[order[p]].spec.idemKey == k
    ensures forall i | p < i < |order| :: tasks[order[i]].spec.idemKey != k
  {
    if order == [] then -1
    else if tasks[order[|order| - 1]].spec.idemKey == k then |order| - 1
    else LastOf(tasks, order[..|order| - 1], k)
  }

  /** The index a snapshot replays to sends every key to the last task of that key in the order walked. */
  lemma {:induction false} SnapshotIndex(tasks: map<string, Task>, order: seq<string>, k: string)
    requires TasksOk(tasks)
    requires forall id | id in order :: id in tasks
    ensures var idem, p := Fold(Snapshot(tasks, order)).idem, LastOf(tasks, order, k);
            if p < 0 then k !in idem else k in idem && idem[k] == order[p]
  {
    if order == [] {
    } else {
      var init, last := order[..|order| - 1], order[|order| - 1];
      SnapshotIndex(tasks, init, k);
      FoldFromAppend(EMPTY, Snapshot(tasks, init), SnapshotOf(tasks[last]));
      assert TaskOk(last, tasks[last]);
      SnapshotOfReplays(Fold(Snapshot(tasks, init)), tasks[last]);
    }
  }

  lemma SnapshotViewOk(c: Config, m: Mem, order: seq<string>)
    requires MemOk(c, m) && Visits(order, m.tasks.Keys)
    ensures ViewOk(c, Fold(Snapshot(m.tasks, order)))
  {
    var v := Fold(Snapshot(m.tasks, order));
    SnapshotSim(m.tasks, order);
    SimLive(m.tasks, v);
    forall id | id in v.tasks ensures TaskOk(id, v.tasks[id]) {
      assert Matches(v.tasks[id], m.tasks[id]) && TaskOk(id, m.tasks[id]);
    }
    forall k | k in v.idem ensures k != "" && v.idem[k] in v.tasks && v.tasks[v.idem[k]].spec.idemKey == k {
      SnapshotIndex(m.tasks, order, k);
      var id := v.idem[k];
      assert TaskOk(id, m.tasks[id]) && Matches(v.tasks[id], m.tasks[id]);
    }
  }

  lemma {:induction false} SnapshotReadable(tasks: map<string, Task>, order: seq<string>)
    requires forall id | id in order :: id in tasks
    ensures Readable(Snapshot(tasks, order))
  {
    if order == [] {
    } else {
      SnapshotReadable(tasks, order[..|order| - 1]);
    }
  }

  lemma DurableInv(c: Config, s: Sys)
    requires MemOk(c, s.mem) && Sim(s.mem.tasks, Fold(s.disk)) && ViewOk(c, Fold(s.disk))
    requires s.synced == |s.disk| && Readable(s.disk)
    ensures Inv(c, s)
  {
    assert s.disk[..|s.disk|] == s.disk;
  }

  lemma CompactStep(c: Config, s: Sys, op: Op)
    requires MemOk(c, s.mem) && Enabled(c, s, op) && op.Compact?
    ensures Inv(c, Next(c, s, op))
  {
    var s', snapshot := Next(c, s, op), Snapshot(s.mem.tasks, op.order);
    SnapshotSim(s.mem.tasks, op.order);
    SnapshotViewOk(c, s.mem, op.order);
    SnapshotReadable(s.mem.tasks, op.order);
    assert s' == Sys(s.mem, snapshot, |snapshot|);
    DurableInv(c, s');
  }

  lemma CrashStep(c: Config, s: Sys, op: Op)
    requires Inv(c, s) && Enabled(c, s, op) && op.Crash?
    ensures Inv(c, Next(c, s, op))
  {
    var s' := Next(c, s, op);
    RestoredOk(c, Fold(s'.disk));
    forall n | s'.synced <= n <= |s'.disk| ensures ViewOk(c, Fold(s'.disk[..n])) {
      assert s'.disk[..n] == s.disk[..n];
    }
  }

  /** Every step, crashes and compactions included, keeps the invariant. */
  lemma StepKeepsInv(c: Config, s: Sys, op: Op)
    requires Inv(c, s) && Enabled(c, s, op)
    ensures Inv(c, Next(c, s, op))
  {
    if SingleTask(op) {
      SingleStep(c, s, op);
    } else if op.Drop? {
      DroppedMemOk(c, s, op);
    } else if op.Compact? {
      CompactStep(c, s, op);
    } else if op.Crash? {
      CrashStep(c, s, op);
    }
  }

  lemma InitialInv(c: Config)
    requires c.queueMax >= 0
    ensures Inv(c, INITIAL)
  {
    assert LiveIds(EMPTY.tasks) == {};
    RestoredOk(c, EMPTY);
    forall n | 0 <= n <= |INITIAL.disk| ensures INITIAL.disk[..n] == [] {}
  }

  lemma {:induction false} RunKeepsInv(c: Config, s: Sys, ops: seq<Op>)
    requires Inv(c, s) && Legal(c, s, ops)
    ensures Inv(c, Exec(c, s, ops))
    decreases |ops|
  {
    if ops == [] {
    } else {
      RunKeepsInv(c, s, ops[..|ops| - 1]);
      StepKeepsInv(c, Exec(c, s, ops[..|ops| - 1]), ops[|ops| - 1]);
    }
  }
}
