/** Idempotency: at most one unfinished task per key, and exactly when the source keeps that. */
module Index {
  import opened Model
  import opened Replay
  import opened QueueSpec
  import opened Simulation
  import opened System
  import opened Recovery
  import Scenario

  /** Every unfinished task is the one its key leads to. */
  ghost predicate LiveIndexed(tasks: map<string, Task>, idem: map<string, string>) {
    forall id | id in tasks && tasks[id].Live() :: tasks[id].spec.idemKey in idem && idem[tasks[id].spec.idemKey] == id
  }

  /** The guarantee callers rely on: two unfinished tasks never share an idempotency key. */
  ghost predicate OneLivePerKey(tasks: map<string, Task>) {
    forall a, b | a in tasks && b in tasks && tasks[a].Live() && tasks[b].Live()
        && tasks[a].spec.idemKey == tasks[b].spec.idemKey :: a == b
  }

  // The two operations that can spoil the index unless it owns what they touch.
  ghost predicate Owned(s: Sys, op: Op) {
    match op
    case Revive(id, _) =>
      id in s.mem.tasks ==> s.mem.tasks[id].spec.idemKey in s.mem.idem && s.mem.idem[s.mem.tasks[id].spec.idemKey] == id
    case Compact(order) => OwnersLast(s.mem, order)
    case _ => true
  }

  // No task of an indexed key is walked after the task the index holds for it.
  ghost predicate OwnersLast(m: Mem, order: seq<string>) {
    forall i, j | 0 <= i < j < |order| && order[i] in m.tasks && order[j] in m.tasks ::
      var k := m.tasks[order[i]].spec.idemKey;
      k in m.idem && m.idem[k] == order[i] ==> m.tasks[order[j]].spec.idemKey != k
  }

  ghost predicate OwnedRun(c: Config, s: Sys, ops: seq<Op>)
    requires Legal(c, s, ops)
    decreases |ops|
  {
    ops == [] || (OwnedRun(c, s, ops[..|ops| - 1]) && Owned(Exec(c, s, ops[..|ops| - 1]), ops[|ops| - 1]))
  }

  ghost predicate IndexMatches(idem: map<string, string>, v: View) {
    forall k | k in idem :: k in v.idem && v.idem[k] == idem[k]
  }

  ghost predicate IndexInv(s: Sys) {
    && s.synced <= |s.disk|
    && LiveIndexed(s.mem.tasks, s.mem.idem)
    && IndexMatches(s.mem.idem, Fold(s.disk))
    && (forall n | s.synced <= n <= |s.disk| :: LiveIndexed(Fold(s.disk[..n]).tasks, Fold(s.disk[..n]).idem))
  }

  lemma LiveIndexedIsUnique(tasks: map<string, Task>, idem: map<string, string>)
    requires LiveIndexed(tasks, idem)
    ensures OneLivePerKey(tasks)
  {}

  lemma SingleKeepsMemIndex(c: Config, s: Sys, op: Op)
    requires MemOk(c, s.mem) && LiveIndexed(s.mem.tasks, s.mem.idem)
    requires Enabled(c, s, op) && SingleTask(op) && Owned(s, op)
    ensures LiveIndexed(NextMem(c, s, op).tasks, NextMem(c, s, op).idem)
  {
    var m, m' := s.mem, NextMem(c, s, op);
    forall id | id in m'.tasks && m'.tasks[id].Live()
      ensures m'.tasks[id].spec.idemKey in m'.idem && m'.idem[m'.tasks[id].spec.idemKey] == id
    {
      if id in m.tasks {
        assert TaskOk(id, m.tasks[id]);
      }
    }
  }

  // An enqueue takes a key over only when nothing unfinished holds it: then it holds it in the journal alone.
  lemma SubmitKeepsViewIndex(c: Config, m: Mem, v: View, spec: Spec, ts: int)
    requires TasksOk(v.tasks) && Sim(m.tasks, v)
    requires LiveIndexed(m.tasks, m.idem) && LiveIndexed(v.tasks, v.idem) && IndexMatches(m.idem, v)
    requires spec.idemKey != "" && spec.idemKey !in m.idem && spec.id !in v.tasks
    ensures var v' := Apply(v, Enqueue(spec, ts));
            LiveIndexed(v'.tasks, v'.idem) && IndexMatches(Submitted(m, spec).idem, v')
  {
    var v' := Apply(v, Enqueue(spec, ts));
    forall id | id in v'.tasks && v'.tasks[id].Live()
      ensures v'.tasks[id].spec.idemKey in v'.idem && v'.idem[v'.tasks[id].spec.idemKey] == id
    {
      if id in v.tasks {
        assert Matches(v.tasks[id], m.tasks[id]);
      }
    }
  }

  lemma OutcomeKeepsViewIndex(v: View, r: Record)
    requires LiveIndexed(v.tasks, v.idem) && !r.kind.RecEnqueue?
    requires r.id in v.tasks
    requires v.tasks[r.id].spec.idemKey in v.idem && v.idem[v.tasks[r.id].spec.idemKey] == r.id
    ensures LiveIndexed(Apply(v, r).tasks, Apply(v, r).idem) && Apply(v, r).idem == v.idem
  {}

  lemma SingleKeepsViewIndex(c: Config, s: Sys, op: Op)
    requires MemOk(c, s.mem) && Sim(s.mem.tasks, Fold(s.disk)) && ViewOk(c, Fold(s.disk))
    requires LiveIndexed(s.mem.tasks, s.mem.idem) && IndexMatches(s.mem.idem, Fold(s.disk))
    requires LiveIndexed(Fold(s.disk).tasks, Fold(s.disk).idem)
    requires Enabled(c, s, op) && SingleTask(op) && Owned(s, op) && Logged(s.mem, op).Some?
    ensures var v' := Apply(Fold(s.disk), Logged(s.mem, op).value);
            LiveIndexed(v'.tasks, v'.idem) && IndexMatches(NextMem(c, s, op).idem, v')
  {
    var v := Fold(s.disk);
    if op.Submit? {
      SubmitKeepsViewIndex(c, s.mem, v, op.spec, op.now);
    } else {
      assert Matches(v.tasks[op.id], s.mem.tasks[op.id]);
      OutcomeKeepsViewIndex(v, Logged(s.mem, op).value);
    }
  }

  lemma AppendKeepsIndex(s: Sys, s': Sys, r: Record)
    requires IndexInv(s) && s'.disk == s.disk + [r] && s.synced <= s'.synced <= |s'.disk|
    requires LiveIndexed(s'.mem.tasks, s'.mem.idem) && IndexMatches(s'.mem.idem, Apply(Fold(s.disk), r))
    requires LiveIndexed(Apply(Fold(s.disk), r).tasks, Apply(Fold(s.disk), r).idem)
    ensures IndexInv(s')
  {
    FoldSnoc(s.disk, r);
    forall n | s'.synced <= n <= |s'.disk| ensures LiveIndexed(Fold(s'.disk[..n]).tasks, Fold(s'.disk[..n]).idem) {
      if n == |s'.disk| {
        assert s'.disk[..n] == s'.disk;
      } else {
        assert s'.disk[..n] == s.disk[..n];
      }
    }
  }

  lemma SingleKeepsIndex(c: Config, s: Sys, op: Op)
    requires Inv(c, s) && IndexInv(s) && Enabled(c, s, op) && SingleTask(op) && Owned(s, op)
    ensures IndexInv(Next(c, s, op))
  {
    var r := Logged(s.mem, op);
    SingleKeepsMemIndex(c, s, op);
    if r.Some? {
      assert s.disk[..|s.disk|] == s.disk;
      SingleKeepsViewIndex(c, s, op);
      AppendKeepsIndex(s, Next(c, s, op), r.value);
    } else {
      assert Next(c, s, op) == s.(mem := NextMem(c, s, op)) && NextMem(c, s, op).idem == s.mem.idem;
    }
  }

  lemma OwnersLastMatches(c: Config, m: Mem, order: seq<string>, k: string)
    requires MemOk(c, m) && Visits(order, m.tasks.Keys) && OwnersLast(m, order) && k in m.idem
    ensures var v := Fold(Snapshot(m.tasks, order)); k in v.idem && v.idem[k] == m.idem[k]
  {
    SnapshotIndex(m.tasks, order, k);
    assert m.idem[k] in order;
    var i :| 0 <= i < |order| && order[i] == m.idem[k];
    var p := LastOf(m.tasks, order, k);
    if i < p {
      assert false;
    }
  }

  // A view that agrees with memory on the unfinished tasks and on the index is indexed as memory is.
  lemma SimIndexed(m: Mem, v: View)
    requires Sim(m.tasks, v) && LiveIndexed(m.tasks, m.idem) && IndexMatches(m.idem, v)
    ensures LiveIndexed(v.tasks, v.idem)
  {
    forall id | id in v.tasks && v.tasks[id].Live()
      ensures v.tasks[id].spec.idemKey in v.idem && v.idem[v.tasks[id].spec.idemKey] == id
    {
      assert Matches(v.tasks[id], m.tasks[id]);
    }
  }

  lemma DurableIndexInv(s: Sys)
    requires LiveIndexed(s.mem.tasks, s.mem.idem) && IndexMatches(s.mem.idem, Fold(s.disk))
    requires LiveIndexed(Fold(s.disk).tasks, Fold(s.disk).idem) && s.synced == |s.disk|
    ensures IndexInv(s)
  {
    assert s.disk[..|s.disk|] == s.disk;
  }

  lemma CompactKeepsIndex(c: Config, s: Sys, op: Op)
    requires MemOk(c, s.mem) && LiveIndexed(s.mem.tasks, s.mem.idem)
    requires Enabled(c, s, op) && op.Compact? && Owned(s, op)
    ensures IndexInv(Next(c, s, op))
  {
    var m, snapshot := s.mem, Snapshot(s.mem.tasks, op.order);
    forall k | k in m.idem ensures k in Fold(snapshot).idem && Fold(snapshot).idem[k] == m.idem[k] {
      OwnersLastMatches(c, m, op.order, k);
    }
    SnapshotSim(m.tasks, op.order);
    SimIndexed(m, Fold(snapshot));
    assert Next(c, s, op) == Sys(m, snapshot, |snapshot|);
    DurableIndexInv(Next(c, s, op));
  }

  lemma CrashKeepsIndex(c: Config, s: Sys, op: Op)
    requires IndexInv(s) && Enabled(c, s, op) && op.Crash?
    ensures IndexInv(Next(c, s, op))
  {
    var s' := Next(c, s, op);
    assert LiveIndexed(Fold(s.disk[..op.kept]).tasks, Fold(s.disk[..op.kept]).idem);
    forall n | s'.synced <= n <= |s'.disk| ensures LiveIndexed(Fold(s'.disk[..n]).tasks, Fold(s'.disk[..n]).idem) {
      assert s'.disk[..n] == s.disk[..n];
    }
  }

  lemma StepKeepsIndex(c: Config, s: Sys, op: Op)
    requires Inv(c, s) && IndexInv(s) && Enabled(c, s, op) && Owned(s, op)
    ensures IndexInv(Next(c, s, op))
  {
    if SingleTask(op) {
      SingleKeepsIndex(c, s, op);
    } else if op.Compact? {
      CompactKeepsIndex(c, s, op);
    } else if op.Crash? {
      CrashKeepsIndex(c, s, op);
    }
  }

  lemma {:induction false} RunKeepsIndex(c: Config, s: Sys, ops: seq<Op>)
    requires Inv(c, s) && IndexInv(s) && Legal(c, s, ops) && OwnedRun(c, s, ops)
    ensures IndexInv(Exec(c, s, ops))
    decreases |ops|
  {
    if ops == [] {
    } else {
      RunKeepsInv(c, s, ops[..|ops| - 1]);
      RunKeepsIndex(c, s, ops[..|ops| - 1]);
      StepKeepsIndex(c, Exec(c, s, ops[..|ops| - 1]), ops[|ops| - 1]);
    }
  }

  /** At most one unfinished task per key in every state a run can reach, through crashes and compactions, provided only
      tasks the index points to are revived and snapshots write them last among tasks of the same key. */
  lemma OneLivePerKeyAlways(c: Config, ops: seq<Op>)
    requires c.queueMax >= 0 && Legal(c, INITIAL, ops) && OwnedRun(c, INITIAL, ops)
    ensures OneLivePerKey(Exec(c, INITIAL, ops).mem.tasks)
  {
    InitialInv(c);
    RunKeepsIndex(c, INITIAL, ops);
    LiveIndexedIsUnique(Exec(c, INITIAL, ops).mem.tasks, Exec(c, INITIAL, ops).mem.idem);
  }

  /** The index never dangles, with or without that provision: a duplicate Submit is answered with a real task of its
      key. */
  lemma DuplicateFindsItsTask(c: Config, ops: seq<Op>, key: string)
    requires c.queueMax >= 0 && Legal(c, INITIAL, ops)
    requires key in Exec(c, INITIAL, ops).mem.idem
    ensures var m := Exec(c, INITIAL, ops).mem;
            m.idem[key] in m.tasks && m.tasks[m.idem[key]].spec.idemKey == key
  {
    InitialInv(c);
    RunKeepsInv(c, INITIAL, ops);
  }

  // ---- What a crash leaves of the index ----

  ghost predicate KeysOnDisk(s: Sys) { s.mem.idem.Keys <= Fold(s.disk).idem.Keys }

  lemma SnapshotKeepsKeys(c: Config, m: Mem, order: seq<string>)
    requires MemOk(c, m) && Visits(order, m.tasks.Keys)
    ensures m.idem.Keys <= Fold(Snapshot(m.tasks, order)).idem.Keys
  {
    forall k | k in m.idem ensures k in Fold(Snapshot(m.tasks, order)).idem {
      SnapshotIndex(m.tasks, order, k);
      assert m.idem[k] in order;
      var i :| 0 <= i < |order| && order[i] == m.idem[k];
    }
  }

  // A record takes no key away, and an enqueue adds the one it has.
  lemma ApplyKeepsKeys(v: View, r: Record)
    ensures v.idem.Keys <= Apply(v, r).idem.Keys
    ensures r.kind.RecEnqueue? && r.task.Some? && r.task.value.idemKey != "" ==>
              r.task.value.idemKey in Apply(v, r).idem
  {}

  lemma LoggedKeepsKeys(c: Config, s: Sys, op: Op)
    requires KeysOnDisk(s) && Enabled(c, s, op) && Logged(s.mem, op).Some?
    ensures KeysOnDisk(Next(c, s, op))
  {
    var r := Logged(s.mem, op).value;
    FoldSnoc(s.disk, r);
    ApplyKeepsKeys(Fold(s.disk), r);
    assert Next(c, s, op).disk == s.disk + [r];
    assert NextMem(c, s, op).idem == if op.Submit? then s.mem.idem[op.spec.idemKey := op.spec.id] else s.mem.idem;
  }

  lemma StepKeepsKeys(c: Config, s: Sys, op: Op)
    requires MemOk(c, s.mem) && KeysOnDisk(s) && Enabled(c, s, op)
    ensures KeysOnDisk(Next(c, s, op))
  {
    if op.Compact? {
      SnapshotKeepsKeys(c, s.mem, op.order);
      assert Next(c, s, op).disk == Snapshot(s.mem.tasks, op.order);
    } else if op.Crash? {
      assert Next(c, s, op).disk == s.disk[..op.kept];
    } else if Logged(s.mem, op).Some? {
      LoggedKeepsKeys(c, s, op);
    }
  }

  lemma {:induction false} RunKeepsKeys(c: Config, s: Sys, ops: seq<Op>)
    requires Inv(c, s) && KeysOnDisk(s) && Legal(c, s, ops)
    ensures KeysOnDisk(Exec(c, s, ops))
    decreases |ops|
  {
    if ops == [] {
    } else {
      RunKeepsInv(c, s, ops[..|ops| - 1]);
      RunKeepsKeys(c, s, ops[..|ops| - 1]);
      StepKeepsKeys(c, Exec(c, s, ops[..|ops| - 1]), ops[|ops| - 1]);
    }
  }

  lemma {:induction false} OwnedPrefix(c: Config, s: Sys, ops: seq<Op>, i: nat)
    requires Legal(c, s, ops) && OwnedRun(c, s, ops) && i <= |ops|
    ensures Legal(c, s, ops[..i]) && OwnedRun(c, s, ops[..i])
    decreases |ops|
  {
    PrefixLegal(c, s, ops, i);
    if i == |ops| {
      assert ops[..i] == ops;
    } else {
      OwnedPrefix(c, s, ops[..|ops| - 1], i);
      assert ops[..|ops| - 1][..i] == ops[..i];
    }
  }

  /** Crash refinement of the index.  After any run and any crash, every key the queue knew when its journal was as
      long as what survived is known again; and if the index owned what the run revived and compacted, it leads to the
      same task. */
  lemma IndexSurvives(c: Config, ops: seq<Op>, crash: Op, i: nat)
    requires c.queueMax >= 0 && Legal(c, INITIAL, ops) && crash.Crash? && Enabled(c, Exec(c, INITIAL, ops), crash)
    requires i <= |ops| && At(c, INITIAL, ops, i).disk == Exec(c, INITIAL, ops).disk[..crash.kept]
    ensures var past, now := At(c, INITIAL, ops, i).mem, Next(c, Exec(c, INITIAL, ops), crash).mem;
            && past.idem.Keys <= now.idem.Keys
            && (OwnedRun(c, INITIAL, ops) ==> forall k | k in past.idem :: now.idem[k] == past.idem[k])
  {
    InitialInv(c);
    PrefixLegal(c, INITIAL, ops, i);
    RunKeepsKeys(c, INITIAL, ops[..i]);
    if OwnedRun(c, INITIAL, ops) {
      OwnedPrefix(c, INITIAL, ops, i);
      RunKeepsIndex(c, INITIAL, ops[..i]);
    }
  }

  // ---- Exactly when the guarantee holds ----

  /** A revival leaves one unfinished task per key exactly when the key of the revived task does not lead to an
      unfinished one. */
  lemma ReviveKeepsOneLiveIff(c: Config, s: Sys, op: Op)
    requires MemOk(c, s.mem) && LiveIndexed(s.mem.tasks, s.mem.idem) && Enabled(c, s, op) && op.Revive?
    ensures var m := s.mem;
            var k := m.tasks[op.id].spec.idemKey;
            OneLivePerKey(NextMem(c, s, op).tasks) <==> !(k in m.idem && k != "" && m.tasks[m.idem[k]].Live())
  {
    var m, after := s.mem, NextMem(c, s, op).tasks;
    var k := m.tasks[op.id].spec.idemKey;
    assert TaskOk(op.id, m.tasks[op.id]);
    if k in m.idem && m.tasks[m.idem[k]].Live() {
      assert after[m.idem[k]].Live() && after[op.id].Live()
             && after[m.idem[k]].spec.idemKey == after[op.id].spec.idemKey;
    }
  }

  // Runs of a process that neither crashes nor revives.
  ghost predicate Plain(ops: seq<Op>) { forall i | 0 <= i < |ops| :: !ops[i].Crash? && !ops[i].Revive? }

  /** One unfinished task per key, now and in every continuation without crash and revival. */
  ghost predicate Guaranteed(c: Config, s: Sys) {
    forall ops | Legal(c, s, ops) && Plain(ops) :: OneLivePerKey(Exec(c, s, ops).mem.tasks)
  }

  lemma PlainStepKeepsMemIndex(c: Config, s: Sys, op: Op)
    requires MemOk(c, s.mem) && LiveIndexed(s.mem.tasks, s.mem.idem) && Enabled(c, s, op) && !op.Crash? && !op.Revive?
    ensures LiveIndexed(NextMem(c, s, op).tasks, NextMem(c, s, op).idem)
  {
    if SingleTask(op) {
      SingleKeepsMemIndex(c, s, op);
    }
  }

  lemma {:induction false} PlainRunKeepsMemIndex(c: Config, s: Sys, ops: seq<Op>)
    requires Inv(c, s) && LiveIndexed(s.mem.tasks, s.mem.idem) && Legal(c, s, ops) && Plain(ops)
    ensures LiveIndexed(Exec(c, s, ops).mem.tasks, Exec(c, s, ops).mem.idem)
    decreases |ops|
  {
    if ops == [] {
    } else {
      RunKeepsInv(c, s, ops[..|ops| - 1]);
      PlainRunKeepsMemIndex(c, s, ops[..|ops| - 1]);
      PlainStepKeepsMemIndex(c, Exec(c, s, ops[..|ops| - 1]), ops[|ops| - 1]);
    }
  }

  lemma {:induction false} LongerThanAll(ids: set<string>) returns (n: nat)
    ensures forall id | id in ids :: |id| < n
    decreases |ids|
  {
    n := 0;
    if id :| id in ids {
      var rest := LongerThanAll(ids - {id});
      assert forall other | other in ids :: other == id || other in ids - {id};
      n := if rest <= |id| then |id| + 1 else rest;
    }
  }

  lemma UnusedId(v: View) returns (id: string)
    ensures id !in v.tasks
  {
    var n := LongerThanAll(v.tasks.Keys);
    id := seq(n, i => 'X');
  }

  // An unfinished task can be given a double once its key is free.
  lemma DoubleOf(c: Config, s: Sys, id: string) returns (spec: Spec)
    requires Inv(c, s) && s.mem.active < c.queueMax && id in s.mem.tasks && s.mem.tasks[id].Live()
    requires s.mem.tasks[id].spec.idemKey !in s.mem.idem
    ensures Enabled(c, s, Submit(spec, 0)) && !OneLivePerKey(Next(c, s, Submit(spec, 0)).mem.tasks)
  {
    var other := UnusedId(Fold(s.disk));
    spec := s.mem.tasks[id].spec.(id := other);
    assert TaskOk(id, s.mem.tasks[id]) && other !in s.mem.tasks;
    var after := Submitted(s.mem, spec).tasks;
    assert after[id].Live() && after[other].Live() && after[id].spec.idemKey == after[other].spec.idemKey;
  }

  lemma FreeKey(c: Config, s: Sys, key: string) returns (ops: seq<Op>)
    requires MemOk(c, s.mem)
    requires key in s.mem.idem ==> s.mem.idem[key] in s.mem.tasks && !s.mem.tasks[s.mem.idem[key]].Live()
    ensures Legal(c, s, ops) && Plain(ops)
    ensures var s' := Exec(c, s, ops);
            && s'.disk == s.disk && s'.mem.active == s.mem.active && MemOk(c, s'.mem) && key !in s'.mem.idem
            && forall id | id in s.mem.tasks && s.mem.tasks[id].Live() ::
                 id in s'.mem.tasks && s'.mem.tasks[id] == s.mem.tasks[id]
  {
    if key in s.mem.idem {
      var drop := Drop({s.mem.idem[key]});
      ops := [drop];
      OneStep(c, s, drop);
      DroppedMemOk(c, s, drop);
    } else {
      ops := [];
    }
  }

  lemma UnindexedIsDoubled(c: Config, s: Sys, id: string) returns (ops: seq<Op>)
    requires Inv(c, s) && s.mem.active < c.queueMax && OneLivePerKey(s.mem.tasks)
    requires id in s.mem.tasks && s.mem.tasks[id].Live()
    requires var k := s.mem.tasks[id].spec.idemKey; !(k in s.mem.idem && s.mem.idem[k] == id)
    ensures Legal(c, s, ops) && Plain(ops) && !OneLivePerKey(Exec(c, s, ops).mem.tasks)
  {
    ops := FreeKey(c, s, s.mem.tasks[id].spec.idemKey);
    RunKeepsInv(c, s, ops);
    var s1 := Exec(c, s, ops);
    var spec := DoubleOf(c, s1, id);
    ReachesFurther(c, s, ops, s1, Submit(spec, 0), Next(c, s1, Submit(spec, 0)));
    ops := ops + [Submit(spec, 0)];
  }

  /** From a sound state with room for one more, one unfinished task per key holds in every continuation without crash
      and revival if and only if every unfinished task is the one its key leads to.  Nothing weaker will do. */
  lemma LiveIndexedIsExact(c: Config, s: Sys)
    requires Inv(c, s) && s.mem.active < c.queueMax
    ensures Guaranteed(c, s) <==> LiveIndexed(s.mem.tasks, s.mem.idem)
  {
    if LiveIndexed(s.mem.tasks, s.mem.idem) {
      forall ops | Legal(c, s, ops) && Plain(ops) ensures OneLivePerKey(Exec(c, s, ops).mem.tasks) {
        PlainRunKeepsMemIndex(c, s, ops);
      }
    } else if OneLivePerKey(s.mem.tasks) {
      var id :| id in s.mem.tasks && s.mem.tasks[id].Live()
                && !(s.mem.tasks[id].spec.idemKey in s.mem.idem && s.mem.idem[s.mem.tasks[id].spec.idemKey] == id);
      var ops := UnindexedIsDoubled(c, s, id);
    } else {
      assert Legal(c, s, []) && Plain([]) && Exec(c, s, []) == s;
    }
  }

  // A revival keeps the index serving every unfinished task exactly when it serves the revived one.
  lemma ReviveKeepsIndexIff(c: Config, s: Sys, op: Op)
    requires MemOk(c, s.mem) && LiveIndexed(s.mem.tasks, s.mem.idem) && Enabled(c, s, op) && op.Revive?
    ensures LiveIndexed(NextMem(c, s, op).tasks, NextMem(c, s, op).idem) <==> Owned(s, op)
  {
    if Owned(s, op) {
      SingleKeepsMemIndex(c, s, op);
    } else {
      assert NextMem(c, s, op).tasks[op.id].Live();
      assert TaskOk(op.id, s.mem.tasks[op.id]);
    }
  }

  /** A revival is safe for good, until the next crash or revival, if and only if the key of the revived task leads to
      it. */
  lemma ReviveIsSafeIff(c: Config, s: Sys, op: Op)
    requires Inv(c, s) && LiveIndexed(s.mem.tasks, s.mem.idem) && Enabled(c, s, op) && op.Revive?
    requires s.mem.active + 1 < c.queueMax
    ensures var s1 := Next(c, s, op);
            var k := s.mem.tasks[op.id].spec.idemKey;
            Guaranteed(c, s1) <==> k in s.mem.idem && s.mem.idem[k] == op.id
  {
    StepKeepsInv(c, s, op);
    ReviveKeepsIndexIff(c, s, op);
    LiveIndexedIsExact(c, Next(c, s, op));
  }

  // No other task of the same key comes after position i.
  ghost predicate LastOfKey(tasks: map<string, Task>, order: seq<string>, i: nat) {
    && i < |order| && order[i] in tasks
    && (forall j | i < j < |order| :: order[j] in tasks && tasks[order[j]].spec.idemKey != tasks[order[i]].spec.idemKey)
  }

  lemma SnapshotServes(c: Config, m: Mem, order: seq<string>, i: nat)
    requires MemOk(c, m) && Visits(order, m.tasks.Keys) && i < |order|
    ensures var k, idem := m.tasks[order[i]].spec.idemKey, Fold(Snapshot(m.tasks, order)).idem;
            k in idem && (idem[k] == order[i] <==> LastOfKey(m.tasks, order, i))
  {
    var k := m.tasks[order[i]].spec.idemKey;
    SnapshotIndex(m.tasks, order, k);
    var p := LastOf(m.tasks, order, k);
    if p == i {
    } else {
      assert order[p] != order[i];
      assert i < p;
    }
  }

  /** A snapshot replays to an index that serves every unfinished task exactly when none of them is followed, in the
      order walked, by another task of its key. */
  lemma SnapshotKeepsIndexIff(c: Config, m: Mem, order: seq<string>)
    requires MemOk(c, m) && Visits(order, m.tasks.Keys)
    ensures var v := Fold(Snapshot(m.tasks, order));
            LiveIndexed(v.tasks, v.idem) <==>
            forall i | 0 <= i < |order| && m.tasks[order[i]].Live() :: LastOfKey(m.tasks, order, i)
  {
    var v := Fold(Snapshot(m.tasks, order));
    SnapshotSim(m.tasks, order);
    forall i | 0 <= i < |order|
      ensures v.tasks[order[i]].Live() == m.tasks[order[i]].Live()
      ensures v.tasks[order[i]].spec.idemKey == m.tasks[order[i]].spec.idemKey
      ensures v.tasks[order[i]].spec.idemKey in v.idem
      ensures v.idem[v.tasks[order[i]].spec.idemKey] == order[i] <==> LastOfKey(m.tasks, order, i)
    {
      assert Matches(v.tasks[order[i]], m.tasks[order[i]]);
      SnapshotServes(c, m, order, i);
    }
  }

  /** A compaction is safe for good, through a restart from it and until the next crash or revival, if and only if no
      unfinished task is followed, in the order walked, by another of its key. */
  lemma CompactIsSafeIff(c: Config, s: Sys, order: seq<string>)
    requires Inv(c, s) && Enabled(c, s, Compact(order)) && s.mem.active < c.queueMax
    ensures Reaches(c, s, RestartRun(s, order), RestartedFrom(s, order))
    ensures Guaranteed(c, RestartedFrom(s, order)) <==>
            forall i | 0 <= i < |order| && s.mem.tasks[order[i]].Live() :: LastOfKey(s.mem.tasks, order, i)
  {
    var m, s1 := s.mem, RestartedFrom(s, order);
    RestartFromSnapshot(c, s, order);
    RunKeepsInv(c, s, RestartRun(s, order));
    SnapshotSim(m.tasks, order);
    SimLive(m.tasks, Fold(s1.disk));
    LiveIndexedIsExact(c, s1);
    RestoredIndexed(Fold(s1.disk));
    SnapshotKeepsIndexIff(c, m, order);
  }

  // A compaction and a restart right after it.
  function RestartRun(s: Sys, order: seq<string>): seq<Op>
    requires forall id | id in order :: id in s.mem.tasks
  {
    var n := |Snapshot(s.mem.tasks, order)|;
    [Compact(order), Crash(n, n)]
  }

  function RestartedFrom(s: Sys, order: seq<string>): Sys
    requires forall id | id in order :: id in s.mem.tasks
  {
    var snapshot := Snapshot(s.mem.tasks, order);
    Sys(Restored(Fold(snapshot)), snapshot, |snapshot|)
  }

  lemma RestartFromSnapshot(c: Config, s: Sys, order: seq<string>)
    requires Enabled(c, s, Compact(order))
    ensures Reaches(c, s, RestartRun(s, order), RestartedFrom(s, order))
  {
    var snapshot := Snapshot(s.mem.tasks, order);
    assert Next(c, s, Compact(order)) == Sys(s.mem, snapshot, |snapshot|);
    assert snapshot[..|snapshot|] == snapshot;
    TwoSteps(c, s, Compact(order), Crash(|snapshot|, |snapshot|));
  }

  lemma RestoredIndexed(v: View)
    ensures LiveIndexed(Restored(v).tasks, Restored(v).idem) <==> LiveIndexed(v.tasks, v.idem)
  {
    forall id
      ensures id in Restored(v).tasks && Restored(v).tasks[id].Live() <==> id in v.tasks && v.tasks[id].Live()
    {}
  }

  // ---- Runs that break it ----

  const WHY := "max_attempts"

  // Submitted, leased, buried and evicted.
  function Evicted(spec: Spec): Sys {
    Sys(Mem(map[], map[], {}, 0, 0, true), [Enqueue(spec, 0), Model.Buried(spec.id, 1, WHY, 0)], 1)
  }

  function EvictRun(spec: Spec): seq<Op> {
    [Submit(spec, 0), Lease(spec.id, spec.createdAt), Bury(spec.id, WHY, 0), Drop({spec.id})]
  }

  lemma BuryAndDrop(c: Config, spec: Spec)
    requires spec.idemKey != ""
    ensures var buried := Next(c, Scenario.Leased(spec), Bury(spec.id, WHY, 0));
            Leads(c, Scenario.Leased(spec), Bury(spec.id, WHY, 0), buried)
            && Leads(c, buried, Drop({spec.id}), Evicted(spec))
  {
    var buried := Next(c, Scenario.Leased(spec), Bury(spec.id, WHY, 0));
    assert buried.mem.tasks.Keys == {spec.id};
    assert buried.mem.tasks - {spec.id} == map[];
  }

  lemma ReachEvicted(c: Config, spec: Spec)
    requires c.queueMax >= 1 && spec.idemKey != ""
    ensures Reaches(c, INITIAL, EvictRun(spec), Evicted(spec))
  {
    var submit, lease := Submit(spec, 0), Lease(spec.id, spec.createdAt);
    var bury, drop := Bury(spec.id, WHY, 0), Drop({spec.id});
    var leased := Scenario.Leased(spec);
    Scenario.ReachLeased(c, spec);
    BuryAndDrop(c, spec);
    ReachesFurther(c, INITIAL, [submit, lease], leased, bury, Next(c, leased, bury));
    assert [submit, lease] + [bury] == [submit, lease, bury];
    ReachesFurther(c, INITIAL, [submit, lease, bury], Next(c, leased, bury), drop, Evicted(spec));
    assert [submit, lease, bury] + [drop] == EvictRun(spec);
  }

  function DeadAgain(spec: Spec, updatedAt: int): Task {
    Task(spec, Dead, 1, spec.createdAt, updatedAt, WHY)
  }

  // The key has gone to a second task...
  function Taken(first: Spec, second: Spec): Sys {
    Sys(Mem(map[second.id := Fresh(second, second.createdAt)], map[second.idemKey := second.id],
            {second.id}, 1, 0, true),
        [Enqueue(first, 0), Model.Buried(first.id, 1, WHY, 0), Enqueue(second, 0)], 3)
  }

  // ... and a restart brought the first one back.
  function BroughtBack(first: Spec, second: Spec): Sys {
    Sys(Mem(map[first.id := DeadAgain(first, 0), second.id := Fresh(second, 0)], map[first.idemKey := second.id],
            {second.id}, 1, 0, true),
        [Enqueue(first, 0), Model.Buried(first.id, 1, WHY, 0), Enqueue(second, 0)], 3)
  }

  function BringBackRun(first: Spec, second: Spec): seq<Op> {
    EvictRun(first) + [Submit(second, 0)] + [Crash(3, 3)]
  }

  lemma FoldBroughtBack(first: Spec, second: Spec)
    requires first.idemKey == second.idemKey != "" && first.id != second.id
    ensures Restored(Fold(BroughtBack(first, second).disk)) == BroughtBack(first, second).mem
  {
    var rs := BroughtBack(first, second).disk;
    Scenario.FoldThree(rs[0], rs[1], rs[2]);
    assert LiveIds(Fold(rs).tasks) == {second.id};
  }

  lemma BringBack(c: Config, first: Spec, second: Spec)
    requires c.queueMax >= 1 && first.idemKey == second.idemKey != "" && first.id != second.id
    ensures Leads(c, Evicted(first), Submit(second, 0), Taken(first, second))
    ensures Leads(c, Taken(first, second), Crash(3, 3), BroughtBack(first, second))
  {
    Scenario.FoldTwo(Enqueue(first, 0), Model.Buried(first.id, 1, WHY, 0));
    var rs := BroughtBack(first, second).disk;
    assert Taken(first, second).disk == rs == rs[..3];
    FoldBroughtBack(first, second);
  }

  lemma ReachBroughtBack(c: Config, first: Spec, second: Spec)
    requires c.queueMax >= 1 && first.idemKey == second.idemKey != "" && first.id != second.id
    ensures Reaches(c, INITIAL, BringBackRun(first, second), BroughtBack(first, second))
  {
    ReachEvicted(c, first);
    BringBack(c, first, second);
    var evict, submit, taken := EvictRun(first), Submit(second, 0), Taken(first, second);
    ReachesFurther(c, INITIAL, evict, Evicted(first), submit, taken);
    ReachesFurther(c, INITIAL, evict + [submit], taken, Crash(3, 3), BroughtBack(first, second));
  }

  ghost predicate ShareAKey(tasks: map<string, Task>, a: string, b: string) {
    a != b && a in tasks && b in tasks && tasks[a].Live() && tasks[b].Live()
        && tasks[a].spec.idemKey == tasks[b].spec.idemKey
  }

  /** The provision on revivals is needed.  A dead task, evicted and brought back by a restart after its key was taken
      over, can be revived beside the key's new owner. */
  lemma ReviveCanShareAKey(c: Config, first: Spec, second: Spec) returns (ops: seq<Op>)
    requires c.queueMax >= 2 && first.idemKey == second.idemKey != "" && first.id != second.id
    ensures Legal(c, INITIAL, ops) && ShareAKey(Exec(c, INITIAL, ops).mem.tasks, first.id, second.id)
  {
    ReachBroughtBack(c, first, second);
    var back, revive := BroughtBack(first, second), Revive(first.id, 0);
    ReachesFurther(c, INITIAL, BringBackRun(first, second), back, revive, Next(c, back, revive));
    ops := BringBackRun(first, second) + [revive];
  }

  // A compaction that walks the owner first hands the key to the dead task at the next restart.
  function Misled(first: Spec, second: Spec): Sys {
    Sys(Mem(map[second.id := Fresh(second, second.createdAt), first.id := DeadAgain(first, 0)],
            map[first.idemKey := first.id], {second.id}, 1, 0, true),
        [Enqueue(second, second.createdAt), Enqueue(first, first.createdAt), Model.Buried(first.id, 1, WHY, 0)], 3)
  }

  lemma MisledSnapshot(first: Spec, second: Spec)
    requires first.id != second.id
    ensures Snapshot(BroughtBack(first, second).mem.tasks, [second.id, first.id]) == Misled(first, second).disk
  {
    var tasks, order := BroughtBack(first, second).mem.tasks, [second.id, first.id];
    assert order[..1] == [second.id] && order[..1][..0] == [];
    assert Snapshot(tasks, [second.id]) == [Enqueue(second, second.createdAt)];
    assert SnapshotOf(tasks[first.id]) == [Enqueue(first, first.createdAt), Model.Buried(first.id, 1, WHY, 0)];
  }

  lemma FoldMisled(first: Spec, second: Spec)
    requires first.idemKey == second.idemKey != "" && first.id != second.id
    ensures Restored(Fold(Misled(first, second).disk)) == Misled(first, second).mem
  {
    var rs := Misled(first, second).disk;
    Scenario.FoldThree(rs[0], rs[1], rs[2]);
    assert LiveIds(Fold(rs).tasks) == {second.id};
  }

  lemma Mislead(c: Config, first: Spec, second: Spec)
    requires first.idemKey == second.idemKey != "" && first.id != second.id
    ensures Reaches(c, BroughtBack(first, second), [Compact([second.id, first.id]), Crash(3, 3)], Misled(first, second))
  {
    MisledSnapshot(first, second);
    FoldMisled(first, second);
    RestartFromSnapshot(c, BroughtBack(first, second), [second.id, first.id]);
  }

  // Once the dead task is evicted, its key is free, although its unfinished owner is still there.
  function Unowned(first: Spec, second: Spec): Sys {
    Sys(Mem(map[second.id := Fresh(second, second.createdAt)], map[], {second.id}, 1, 0, true),
        Misled(first, second).disk, 3)
  }

  function Doubled(first: Spec, second: Spec, third: Spec): Sys {
    var tasks := map[second.id := Fresh(second, second.createdAt), third.id := Fresh(third, third.createdAt)];
    Sys(Mem(tasks, map[third.idemKey := third.id], {second.id, third.id}, 2, 0, true),
        Misled(first, second).disk + [Enqueue(third, 0)], 4)
  }

  lemma DropAndDouble(c: Config, first: Spec, second: Spec, third: Spec)
    requires c.queueMax >= 2 && first.idemKey == second.idemKey == third.idemKey != ""
    requires first.id != second.id && third.id !in {first.id, second.id}
    ensures Reaches(c, Misled(first, second), [Drop({first.id}), Submit(third, 0)], Doubled(first, second, third))
  {
    var misled, unowned := Misled(first, second), Unowned(first, second);
    Scenario.FoldThree(misled.disk[0], misled.disk[1], misled.disk[2]);
    assert misled.mem.tasks - {first.id} == unowned.mem.tasks;
    assert Leads(c, misled, Drop({first.id}), unowned);
    assert Leads(c, unowned, Submit(third, 0), Doubled(first, second, third));
    TwoSteps(c, misled, Drop({first.id}), Submit(third, 0));
  }

  /** The provision on compactions is needed: without any revival, a compaction that walks the owner of a key before a
      dead task of that key lets the key be given away twice. */
  lemma CompactCanShareAKey(c: Config, first: Spec, second: Spec, third: Spec) returns (ops: seq<Op>)
    requires c.queueMax >= 2 && first.idemKey == second.idemKey == third.idemKey != ""
    requires first.id != second.id && third.id !in {first.id, second.id}
    ensures Legal(c, INITIAL, ops) && (forall i | 0 <= i < |ops| :: !ops[i].Revive?)
    ensures ShareAKey(Exec(c, INITIAL, ops).mem.tasks, second.id, third.id)
  {
    var bringBack, mislead := BringBackRun(first, second), [Compact([second.id, first.id]), Crash(3, 3)];
    var double := [Drop({first.id}), Submit(third, 0)];
    ReachBroughtBack(c, first, second);
    Mislead(c, first, second);
    RunsJoin(c, INITIAL, bringBack, BroughtBack(first, second), mislead, Misled(first, second));
    DropAndDouble(c, first, second, third);
    RunsJoin(c, INITIAL, bringBack + mislead, Misled(first, second), double, Doubled(first, second, third));
    ops := bringBack + mislead + double;
  }
}
