/** A submission refused because its fsync failed: what its record in the journal can do, and exactly when it does no
    harm. */
module Refused {
  import opened Model
  import opened Replay
  import opened QueueSpec
  import opened Simulation
  import opened System
  import opened Recovery
  import opened Index

  // ---- A retry beside it ----

  // The memory with both, as the retry leaves it and as a crash brings it back.
  function Retried(first: Spec, again: Spec): Sys {
    Sys(Mem(map[again.id := Fresh(again, again.createdAt)], map[again.idemKey := again.id], {again.id}, 1, 0, true),
        [Enqueue(first, 0), Enqueue(again, 0)], 2)
  }

  function Doubled(first: Spec, again: Spec): Sys {
    var tasks := map[first.id := Fresh(first, 0), again.id := Fresh(again, 0)];
    Sys(Mem(tasks, map[again.idemKey := again.id], {first.id, again.id}, 2, 0, true),
        [Enqueue(first, 0), Enqueue(again, 0)], 2)
  }

  lemma RetryAccepted(c: Config, first: Spec, again: Spec)
    requires c.queueMax >= 1 && again.idemKey != "" && first.id != again.id
    ensures Leads(c, LeftBehind(INITIAL, first, 0), Submit(again, 0), Retried(first, again))
  {
    var a := Enqueue(first, 0);
    FoldSnoc([], a);
    assert [] + [a] == [a] && LeftBehind(INITIAL, first, 0).disk == [a];
    assert LiveIds(EMPTY.tasks) == {};
  }

  lemma RetryCrashes(c: Config, first: Spec, again: Spec)
    requires first.idemKey == again.idemKey != "" && first.id != again.id
    ensures Leads(c, Retried(first, again), Crash(2, 2), Doubled(first, again))
  {
    var rs := Retried(first, again).disk;
    assert rs[..2] == rs;
    Scenario.FoldTwo(rs[0], rs[1]);
    assert LiveIds(Fold(rs).tasks) == {first.id, again.id};
  }

  /** The caller told of the failure tries again and is accepted: its fsync makes the refused record durable too.  After
      any crash both tasks are there, unfinished, under one key; and where the limit was one task, there are two. */
  lemma RetryDoublesTask(c: Config, first: Spec, again: Spec) returns (ops: seq<Op>)
    requires c.queueMax >= 1 && first.idemKey == again.idemKey != "" && first.id != again.id
    ensures Enabled(c, INITIAL, Submit(first, 0)) && Legal(c, LeftBehind(INITIAL, first, 0), ops)
    ensures forall i | 0 <= i < |ops| :: !ops[i].Revive? && !ops[i].Compact?
    ensures var m := Exec(c, LeftBehind(INITIAL, first, 0), ops).mem;
            ShareAKey(m.tasks, first.id, again.id) && m.active == 2
  {
    Scenario.SubmitFirst(c, first);
    RetryAccepted(c, first, again);
    RetryCrashes(c, first, again);
    ops := [Submit(again, 0), Crash(2, 2)];
    RunOfTwo(c, LeftBehind(INITIAL, first, 0), ops[0], Retried(first, again), ops[1], Doubled(first, again));
  }

  // ---- The run beside the run ----

  // No record of the stretch is about the task.
  ghost predicate Foreign(rs: seq<Record>, id: string) {
    forall r | r in rs :: r.id != id && (r.task.Some? ==> r.task.value.id != id)
  }

  lemma ForeignApplies(v: View, w: View, r: Record, spec: Spec, t: Task)
    requires spec.id !in v.tasks && w.tasks == v.tasks[spec.id := t]
    requires r.id != spec.id && (r.task.Some? ==> r.task.value.id != spec.id)
    ensures spec.id !in Apply(v, r).tasks && Apply(w, r).tasks == Apply(v, r).tasks[spec.id := t]
  {}

  // With a record of its own inserted, the replay has one task more, untouched.
  lemma {:induction false} InsertedReplays(a: seq<Record>, b: seq<Record>, spec: Spec, now: int)
    requires spec.id !in Fold(a).tasks && Foreign(b, spec.id)
    ensures spec.id !in Fold(a + b).tasks
    ensures Fold(a + [Enqueue(spec, now)] + b).tasks == Fold(a + b).tasks[spec.id := Fresh(spec, now)]
  {
    var e := Enqueue(spec, now);
    if b == [] {
      assert a + b == a && a + [e] + b == a + [e];
      FoldSnoc(a, e);
    } else {
      var init, r := b[..|b| - 1], b[|b| - 1];
      InsertedReplays(a, init, spec, now);
      assert a + b == a + init + [r] && a + [e] + b == a + [e] + init + [r];
      FoldSnoc(a + init, r);
      FoldSnoc(a + [e] + init, r);
      ForeignApplies(Fold(a + init), Fold(a + [e] + init), r, spec, Fresh(spec, now));
    }
  }

  // `t` is `s` with the refused record after the first p of its journal.
  ghost predicate Shadows(s: Sys, t: Sys, p: nat, spec: Spec, now: int) {
    && p <= |s.disk| && t.mem == s.mem
    && t.disk == s.disk[..p] + [Enqueue(spec, now)] + s.disk[p..]
    && s.synced == (if t.synced <= p then t.synced else t.synced - 1)
    && spec.id !in Fold(s.disk[..p]).tasks && Foreign(s.disk[p..], spec.id)
  }

  ghost predicate Calm(ops: seq<Op>) {
    forall i | 0 <= i < |ops| :: !ops[i].Crash? && !ops[i].Compact? && !ops[i].Revive?
  }

  lemma ShadowReplays(s: Sys, t: Sys, p: nat, spec: Spec, now: int)
    requires Shadows(s, t, p, spec, now)
    ensures spec.id !in Fold(s.disk).tasks && Fold(t.disk).tasks == Fold(s.disk).tasks[spec.id := Fresh(spec, now)]
  {
    InsertedReplays(s.disk[..p], s.disk[p..], spec, now);
    assert s.disk == s.disk[..p] + s.disk[p..];
  }

  lemma ShadowAppends(s: Sys, t: Sys, p: nat, spec: Spec, now: int, r: Record, m: Mem)
    requires Shadows(s, t, p, spec, now) && r.id != spec.id && (r.task.Some? ==> r.task.value.id != spec.id)
    ensures Shadows(Sys(m, s.disk + [r], s.synced), Sys(m, t.disk + [r], t.synced), p, spec, now)
    ensures Shadows(Sys(m, s.disk + [r], |s.disk| + 1), Sys(m, t.disk + [r], |t.disk| + 1), p, spec, now)
  {
    assert (s.disk + [r])[..p] == s.disk[..p] && (s.disk + [r])[p..] == s.disk[p..] + [r];
    assert t.disk + [r] == s.disk[..p] + [Enqueue(spec, now)] + (s.disk[p..] + [r]);
  }

  lemma ShadowStep(c: Config, s: Sys, t: Sys, p: nat, spec: Spec, now: int, op: Op)
    requires Inv(c, s) && Shadows(s, t, p, spec, now) && Enabled(c, t, op)
    requires !op.Crash? && !op.Compact? && !op.Revive?
    ensures Enabled(c, s, op) && Shadows(Next(c, s, op), Next(c, t, op), p, spec, now)
  {
    ShadowReplays(s, t, p, spec, now);
    if op.Submit? {
      assert op.spec.id != spec.id;
    } else if SingleTask(op) {
      assert op.id in Fold(s.disk).tasks;
    }
    var r := Logged(s.mem, op);
    if r.Some? {
      ShadowAppends(s, t, p, spec, now, r.value, NextMem(c, s, op));
    }
  }

  lemma {:induction false} ShadowRun(c: Config, s: Sys, t: Sys, p: nat, spec: Spec, now: int, ops: seq<Op>)
    requires Inv(c, s) && Shadows(s, t, p, spec, now) && Legal(c, t, ops) && Calm(ops)
    ensures Legal(c, s, ops) && Shadows(Exec(c, s, ops), Exec(c, t, ops), p, spec, now)
    decreases |ops|
  {
    if ops == [] {
    } else {
      var init := ops[..|ops| - 1];
      ShadowRun(c, s, t, p, spec, now, init);
      RunKeepsInv(c, s, init);
      ShadowStep(c, Exec(c, s, init), Exec(c, t, init), p, spec, now, ops[|ops| - 1]);
    }
  }

  lemma LeftShadows(c: Config, s: Sys, spec: Spec, now: int)
    requires Inv(c, s) && Enabled(c, s, Submit(spec, now))
    ensures Shadows(s, LeftBehind(s, spec, now), |s.disk|, spec, now)
  {
    assert s.disk[..|s.disk|] == s.disk && s.disk[|s.disk|..] == [];
  }

  lemma {:induction false} CalmIsOwned(c: Config, s: Sys, ops: seq<Op>)
    requires Legal(c, s, ops) && Calm(ops)
    ensures OwnedRun(c, s, ops)
    decreases |ops|
  {
    if ops == [] {
    } else {
      CalmIsOwned(c, s, ops[..|ops| - 1]);
    }
  }

  // ---- What a crash makes of it ----

  // A cut that keeps the refused record replays to one unfinished task more than the same cut without it.
  lemma CutWithRefused(s: Sys, t: Sys, p: nat, spec: Spec, now: int, n: nat)
    requires Shadows(s, t, p, spec, now) && p < n <= |t.disk|
    ensures spec.id !in Fold(s.disk[..n - 1]).tasks
    ensures Fold(t.disk[..n]).tasks == Fold(s.disk[..n - 1]).tasks[spec.id := Fresh(spec, now)]
  {
    var b := s.disk[p..n - 1];
    assert t.disk[..n] == s.disk[..p] + [Enqueue(spec, now)] + b;
    assert s.disk[..n - 1] == s.disk[..p] + b;
    forall r | r in b ensures r in s.disk[p..] {}
    InsertedReplays(s.disk[..p], b, spec, now);
  }

  // Room for one more, and a key no unfinished task has.
  ghost predicate Spare(c: Config, tasks: map<string, Task>, key: string) {
    |LiveIds(tasks)| < c.queueMax && forall id | id in tasks && tasks[id].Live() :: tasks[id].spec.idemKey != key
  }

  ghost predicate Sound(c: Config, m: Mem) { m.active <= c.queueMax && OneLivePerKey(m.tasks) }

  lemma OneMoreLive(tasks: map<string, Task>, t: Task)
    requires t.spec.id !in tasks && t.Live()
    ensures |LiveIds(tasks[t.spec.id := t])| == |LiveIds(tasks)| + 1
  {
    assert LiveIds(tasks[t.spec.id := t]) == LiveIds(tasks) + {t.spec.id};
  }

  lemma RestoredLive(v: View)
    ensures LiveIds(Restored(v).tasks) == LiveIds(v.tasks)
    ensures OneLivePerKey(Restored(v).tasks) <==> OneLivePerKey(v.tasks)
  {
    forall id
      ensures id in LiveIds(Restored(v).tasks) <==> id in LiveIds(v.tasks)
      ensures id in v.tasks ==> Restored(v).tasks[id].spec == v.tasks[id].spec
    {}
    if OneLivePerKey(v.tasks) {
      forall a, b | a in v.tasks && b in v.tasks && Restored(v).tasks[a].Live() && Restored(v).tasks[b].Live()
                    && Restored(v).tasks[a].spec.idemKey == Restored(v).tasks[b].spec.idemKey
        ensures a == b
      {}
    } else {
      var a, b :| a in v.tasks && b in v.tasks && v.tasks[a].Live() && v.tasks[b].Live()
                  && v.tasks[a].spec.idemKey == v.tasks[b].spec.idemKey && a != b;
      assert Restored(v).tasks[a].Live() && Restored(v).tasks[b].Live();
    }
  }

  // One task more is sound exactly when it was spared for.
  lemma OneMoreIsSoundIff(c: Config, v: View, w: View, spec: Spec, now: int)
    requires spec.id !in v.tasks && w.tasks == v.tasks[spec.id := Fresh(spec, now)] && OneLivePerKey(v.tasks)
    ensures Sound(c, Restored(w)) <==> Spare(c, v.tasks, spec.idemKey)
  {
    RestoredLive(w);
    OneMoreLive(v.tasks, Fresh(spec, now));
    if Sound(c, Restored(w)) {
      forall id | id in v.tasks && v.tasks[id].Live() ensures v.tasks[id].spec.idemKey != spec.idemKey {
        assert w.tasks[id].Live() && w.tasks[spec.id].Live();
      }
    }
  }

  /** Whatever crash comes now, what it gives back is within the limit and has one unfinished task per key. */
  ghost predicate Harmless(c: Config, s: Sys) {
    forall kept: nat, durable: nat | Enabled(c, s, Crash(kept, durable)) ::
      Sound(c, Next(c, s, Crash(kept, durable)).mem)
  }

  // Every cut that could keep the refused record leaves it room and its key.
  ghost predicate SpareCuts(c: Config, s: Sys, p: nat, key: string) {
    p <= |s.disk| && forall n | p <= n <= |s.disk| :: Spare(c, Fold(s.disk[..n]).tasks, key)
  }

  lemma SparedIsHarmless(c: Config, s: Sys, t: Sys, p: nat, spec: Spec, now: int)
    requires Inv(c, s) && IndexInv(s) && Shadows(s, t, p, spec, now) && SpareCuts(c, s, p, spec.idemKey)
    ensures Harmless(c, t)
  {
    forall kept: nat, durable: nat | Enabled(c, t, Crash(kept, durable))
      ensures Sound(c, Next(c, t, Crash(kept, durable)).mem)
    {
      CrashIsSound(c, s, t, p, spec, now, kept);
      assert Next(c, t, Crash(kept, durable)).mem == Restored(Fold(t.disk[..kept]));
    }
  }

  lemma CrashIsSound(c: Config, s: Sys, t: Sys, p: nat, spec: Spec, now: int, kept: nat)
    requires Inv(c, s) && IndexInv(s) && Shadows(s, t, p, spec, now) && SpareCuts(c, s, p, spec.idemKey)
    requires t.synced <= kept <= |t.disk|
    ensures Sound(c, Restored(Fold(t.disk[..kept])))
  {
    if kept <= p {
      assert t.disk[..kept] == s.disk[..kept];
      var v := Fold(s.disk[..kept]);
      assert ViewOk(c, v) && LiveIndexed(v.tasks, v.idem);
      RestoredLive(v);
    } else {
      var v := Fold(s.disk[..kept - 1]);
      assert LiveIndexed(v.tasks, v.idem);
      CutWithRefused(s, t, p, spec, now, kept);
      OneMoreIsSoundIff(c, v, Fold(t.disk[..kept]), spec, now);
    }
  }

  // And only then: the crash that keeps everything shows it.
  lemma HarmlessIsSpared(c: Config, s: Sys, t: Sys, p: nat, spec: Spec, now: int)
    requires Inv(c, s) && IndexInv(s) && Shadows(s, t, p, spec, now) && Harmless(c, t)
    ensures Spare(c, Fold(s.disk).tasks, spec.idemKey)
  {
    var n := |t.disk|;
    assert Enabled(c, t, Crash(n, n));
    assert Sound(c, Next(c, t, Crash(n, n)).mem);
    assert t.disk[..n] == t.disk && s.disk[..n - 1] == s.disk;
    var v := Fold(s.disk);
    assert LiveIndexed(Fold(s.disk[..n - 1]).tasks, Fold(s.disk[..n - 1]).idem);
    ShadowReplays(s, t, p, spec, now);
    OneMoreIsSoundIff(c, v, Fold(t.disk), spec, now);
  }

  // The journal is spare when memory is.
  lemma SpareAlike(c: Config, m: map<string, Task>, v: View, key: string)
    requires Sim(m, v)
    ensures Spare(c, m, key) <==> Spare(c, v.tasks, key)
  {
    SimLive(m, v);
    forall id | id in LiveIds(m) ensures id in v.tasks && v.tasks[id].spec.idemKey == m[id].spec.idemKey {
      assert Matches(v.tasks[id], m[id]);
    }
    forall id | id in v.tasks && v.tasks[id].Live() ensures id in LiveIds(m) {}
    if Spare(c, m, key) {
      forall id | id in v.tasks && v.tasks[id].Live() ensures v.tasks[id].spec.idemKey != key {
        assert id in LiveIds(m);
      }
    }
    if Spare(c, v.tasks, key) {
      forall id | id in m && m[id].Live() ensures m[id].spec.idemKey != key {
        assert id in LiveIds(m);
      }
    }
  }

  // ---- Over whole runs ----

  ghost predicate AlwaysHarmless(c: Config, t: Sys, ops: seq<Op>)
    requires Legal(c, t, ops)
    decreases |ops|
  {
    Harmless(c, Exec(c, t, ops)) && (ops == [] || AlwaysHarmless(c, t, ops[..|ops| - 1]))
  }

  /** At every moment there is room for one unfinished task more, and no accepted submission takes the key. */
  ghost predicate LeavesRoom(c: Config, t: Sys, ops: seq<Op>, key: string)
    requires Legal(c, t, ops)
    decreases |ops|
  {
    && Exec(c, t, ops).mem.active < c.queueMax
    && (ops == [] ||
        (LeavesRoom(c, t, ops[..|ops| - 1], key)
         && !(ops[|ops| - 1].Submit? && ops[|ops| - 1].spec.idemKey == key)))
  }

  // Whatever is unfinished after such a step was so before, under the same key, or has just been submitted.
  lemma LiveBefore(c: Config, s: Sys, op: Op, id: string)
    requires MemOk(c, s.mem) && Enabled(c, s, op) && !op.Crash? && !op.Compact? && !op.Revive?
    requires id in Next(c, s, op).mem.tasks && Next(c, s, op).mem.tasks[id].Live()
    ensures var t := Next(c, s, op).mem.tasks[id];
            || (op.Submit? && t.spec == op.spec)
            || (id in s.mem.tasks && s.mem.tasks[id].Live() && s.mem.tasks[id].spec.idemKey == t.spec.idemKey)
  {
    if op.Lease? {
      assert op.id in ScheduledIds(s.mem.tasks);
    }
  }

  lemma StepSpares(c: Config, s: Sys, op: Op, key: string)
    requires Inv(c, s) && Enabled(c, s, op) && !op.Crash? && !op.Compact? && !op.Revive?
    requires Spare(c, s.mem.tasks, key) && !(op.Submit? && op.spec.idemKey == key)
    requires Next(c, s, op).mem.active < c.queueMax
    ensures Spare(c, Next(c, s, op).mem.tasks, key)
  {
    StepKeepsInv(c, s, op);
    forall id | id in Next(c, s, op).mem.tasks && Next(c, s, op).mem.tasks[id].Live()
      ensures Next(c, s, op).mem.tasks[id].spec.idemKey != key
    {
      LiveBefore(c, s, op, id);
    }
  }

  lemma StepSparesCuts(c: Config, s: Sys, op: Op, p: nat, key: string)
    requires Inv(c, s) && Enabled(c, s, op) && Inv(c, Next(c, s, op))
    requires !op.Crash? && !op.Compact? && !op.Revive?
    requires SpareCuts(c, s, p, key) && Spare(c, Next(c, s, op).mem.tasks, key)
    ensures SpareCuts(c, Next(c, s, op), p, key)
  {
    var s' := Next(c, s, op);
    SpareAlike(c, s'.mem.tasks, Fold(s'.disk), key);
    forall n | p <= n <= |s'.disk| ensures Spare(c, Fold(s'.disk[..n]).tasks, key) {
      if n == |s'.disk| {
        assert s'.disk[..n] == s'.disk;
      } else {
        assert s'.disk[..n] == s.disk[..n];
      }
    }
  }

  lemma SparedAtFirst(c: Config, s: Sys, spec: Spec, now: int)
    requires Inv(c, s) && LiveIndexed(s.mem.tasks, s.mem.idem) && Enabled(c, s, Submit(spec, now))
    ensures Spare(c, s.mem.tasks, spec.idemKey) && SpareCuts(c, s, |s.disk|, spec.idemKey)
  {
    SpareAlike(c, s.mem.tasks, Fold(s.disk), spec.idemKey);
    assert s.disk[..|s.disk|] == s.disk;
  }

  // A submission refused at `s`, its record left behind, and a run from there beside the same run without it.
  ghost predicate Beside(c: Config, s: Sys, spec: Spec, now: int, ops: seq<Op>) {
    && Inv(c, s) && IndexInv(s) && Enabled(c, s, Submit(spec, now))
    && Legal(c, LeftBehind(s, spec, now), ops) && Calm(ops)
  }

  lemma BesideShorter(c: Config, s: Sys, spec: Spec, now: int, ops: seq<Op>)
    requires Beside(c, s, spec, now, ops) && ops != []
    ensures Beside(c, s, spec, now, ops[..|ops| - 1])
  {}

  lemma BesideFacts(c: Config, s: Sys, spec: Spec, now: int, ops: seq<Op>)
    requires Beside(c, s, spec, now, ops)
    ensures Legal(c, s, ops) && Inv(c, Exec(c, s, ops)) && IndexInv(Exec(c, s, ops))
    ensures Shadows(Exec(c, s, ops), Exec(c, LeftBehind(s, spec, now), ops), |s.disk|, spec, now)
  {
    LeftShadows(c, s, spec, now);
    ShadowRun(c, s, LeftBehind(s, spec, now), |s.disk|, spec, now, ops);
    RunKeepsInv(c, s, ops);
    CalmIsOwned(c, s, ops);
    RunKeepsIndex(c, s, ops);
  }

  lemma {:induction false} RoomSpares(c: Config, s: Sys, spec: Spec, now: int, ops: seq<Op>)
    requires Beside(c, s, spec, now, ops) && LeavesRoom(c, LeftBehind(s, spec, now), ops, spec.idemKey)
    ensures Legal(c, s, ops)
    ensures Spare(c, Exec(c, s, ops).mem.tasks, spec.idemKey) && SpareCuts(c, Exec(c, s, ops), |s.disk|, spec.idemKey)
    decreases |ops|
  {
    BesideFacts(c, s, spec, now, ops);
    if ops == [] {
      SparedAtFirst(c, s, spec, now);
    } else {
      var init, last := ops[..|ops| - 1], ops[|ops| - 1];
      BesideShorter(c, s, spec, now, ops);
      BesideFacts(c, s, spec, now, init);
      RoomSpares(c, s, spec, now, init);
      StepSpares(c, Exec(c, s, init), last, spec.idemKey);
      StepSparesCuts(c, Exec(c, s, init), last, |s.disk|, spec.idemKey);
    }
  }

  lemma {:induction false} RoomIsHarmless(c: Config, s: Sys, spec: Spec, now: int, ops: seq<Op>)
    requires Beside(c, s, spec, now, ops) && LeavesRoom(c, LeftBehind(s, spec, now), ops, spec.idemKey)
    ensures AlwaysHarmless(c, LeftBehind(s, spec, now), ops)
    decreases |ops|
  {
    var t := LeftBehind(s, spec, now);
    BesideFacts(c, s, spec, now, ops);
    RoomSpares(c, s, spec, now, ops);
    SparedIsHarmless(c, Exec(c, s, ops), Exec(c, t, ops), |s.disk|, spec, now);
    if ops == [] {
    } else {
      BesideShorter(c, s, spec, now, ops);
      RoomIsHarmless(c, s, spec, now, ops[..|ops| - 1]);
    }
  }

  lemma HarmlessNow(c: Config, s: Sys, spec: Spec, now: int, ops: seq<Op>)
    requires Beside(c, s, spec, now, ops) && Harmless(c, Exec(c, LeftBehind(s, spec, now), ops))
    ensures Spare(c, Exec(c, LeftBehind(s, spec, now), ops).mem.tasks, spec.idemKey)
    ensures Exec(c, LeftBehind(s, spec, now), ops).mem.active < c.queueMax
  {
    BesideFacts(c, s, spec, now, ops);
    var s1, t1 := Exec(c, s, ops), Exec(c, LeftBehind(s, spec, now), ops);
    HarmlessIsSpared(c, s1, t1, |s.disk|, spec, now);
    SpareAlike(c, s1.mem.tasks, Fold(s1.disk), spec.idemKey);
  }

  lemma TakenKeyIsNotSpare(c: Config, t: Sys, op: Op)
    requires Enabled(c, t, op) && op.Submit?
    ensures !Spare(c, Next(c, t, op).mem.tasks, op.spec.idemKey)
  {
    assert Next(c, t, op).mem.tasks[op.spec.id].Live();
  }

  lemma {:induction false} HarmlessLeavesRoom(c: Config, s: Sys, spec: Spec, now: int, ops: seq<Op>)
    requires Beside(c, s, spec, now, ops) && AlwaysHarmless(c, LeftBehind(s, spec, now), ops)
    ensures LeavesRoom(c, LeftBehind(s, spec, now), ops, spec.idemKey)
    decreases |ops|
  {
    var t := LeftBehind(s, spec, now);
    HarmlessNow(c, s, spec, now, ops);
    if ops == [] {
    } else {
      var init, last := ops[..|ops| - 1], ops[|ops| - 1];
      BesideShorter(c, s, spec, now, ops);
      HarmlessLeavesRoom(c, s, spec, now, init);
      if last.Submit? {
        TakenKeyIsNotSpare(c, Exec(c, t, init), last);
      }
    }
  }

  /** A refused record does no harm, whatever crash comes and whenever, up to the next compaction or revival, if and
      only if no accepted submission takes its key meanwhile and there is always room for one unfinished task more. */
  lemma RefusedIsHarmlessIff(c: Config, s: Sys, spec: Spec, now: int, ops: seq<Op>)
    requires Beside(c, s, spec, now, ops)
    ensures AlwaysHarmless(c, LeftBehind(s, spec, now), ops)
            <==> LeavesRoom(c, LeftBehind(s, spec, now), ops, spec.idemKey)
  {
    if LeavesRoom(c, LeftBehind(s, spec, now), ops, spec.idemKey) {
      RoomIsHarmless(c, s, spec, now, ops);
    }
    if AlwaysHarmless(c, LeftBehind(s, spec, now), ops) {
      HarmlessLeavesRoom(c, s, spec, now, ops);
    }
  }

  lemma CompactionForgets(c: Config, s: Sys, t: Sys, p: nat, spec: Spec, now: int, order: seq<string>)
    requires Inv(c, s) && Shadows(s, t, p, spec, now) && Enabled(c, t, Compact(order))
    ensures Inv(c, Next(c, t, Compact(order))) && spec.id !in Fold(Next(c, t, Compact(order)).disk).tasks
  {
    ShadowReplays(s, t, p, spec, now);
    CompactStep(c, t, Compact(order));
    SnapshotReplays(t.mem.tasks, order);
    assert spec.id !in t.mem.tasks;
    assert Next(c, t, Compact(order)).disk == Snapshot(t.mem.tasks, order);
  }

  /** The next compaction removes the record, and the invariant holds again. */
  lemma CompactionForgetsRefused(c: Config, s: Sys, spec: Spec, now: int, ops: seq<Op>, order: seq<string>)
    requires Beside(c, s, spec, now, ops)
    requires Enabled(c, Exec(c, LeftBehind(s, spec, now), ops), Compact(order))
    ensures var s' := Next(c, Exec(c, LeftBehind(s, spec, now), ops), Compact(order));
            Inv(c, s') && spec.id !in Fold(s'.disk).tasks
  {
    BesideFacts(c, s, spec, now, ops);
    CompactionForgets(c, Exec(c, s, ops), Exec(c, LeftBehind(s, spec, now), ops), |s.disk|, spec, now, order);
  }
}
