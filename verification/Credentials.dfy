/** How many delivered tasks still have their request, credentials included, in the journal. */
module Credentials {
  import opened Model
  import opened Arithmetic
  import opened Replay
  import opened QueueSpec
  import opened Simulation
  import opened System
  import opened Recovery
  import Scenario

  // An enqueue record whose request has more to it than a delivered task keeps.
  predicate Carries(r: Record) {
    r.kind.RecEnqueue? && r.task.Some? && !r.task.value.target.Bare()
  }

  function Carried(rs: seq<Record>): set<string> {
    if rs == [] then {}
    else
      var last := rs[|rs| - 1];
      Carried(rs[..|rs| - 1]) + (if Carries(last) then {last.task.value.id} else {})
  }

  /** The delivered tasks whose request the journal has not given up. */
  function Exposed(rs: seq<Record>): set<string> {
    set id | id in Carried(rs) && id in Fold(rs).tasks && Fold(rs).tasks[id].state.Succeeded?
  }

  // Only a success can expose a task, and no more than its own.
  lemma AppendExposes(rs: seq<Record>, r: Record)
    ensures Exposed(rs + [r]) <= Exposed(rs) + (if r.kind.RecDone? then {r.id} else {})
  {
    FoldSnoc(rs, r);
    assert (rs + [r])[..|rs|] == rs;
  }

  lemma AtMostOneMore(a: set<string>, b: set<string>, id: string)
    requires a <= b + {id}
    ensures |a| <= |b| + 1
  {
    SmallerSet(a, b + {id});
    if id in b {
      assert b + {id} == b;
    }
  }

  lemma {:induction false} SnapshotCarries(tasks: map<string, Task>, order: seq<string>, id: string)
    requires TasksOk(tasks) && (forall i | i in order :: i in tasks) && id in Carried(Snapshot(tasks, order))
    ensures id in order && !tasks[id].state.Succeeded?
    ensures !tasks[id].spec.target.Bare()
  {
    var init, last := order[..|order| - 1], order[|order| - 1];
    var before, own := Snapshot(tasks, init), SnapshotOf(tasks[last]);
    assert TaskOk(last, tasks[last]);
    CarriedOf(before, tasks[last]);
    if id in Carried(before) {
      SnapshotCarries(tasks, init, id);
    }
  }

  // What a task's own one or two records add.
  lemma CarriedOf(before: seq<Record>, t: Task)
    ensures Carried(before + SnapshotOf(t)) <=
            Carried(before) +
            (if t.state.Succeeded? || t.spec.target.Bare() then {} else {t.spec.id})
  {
    var own := SnapshotOf(t);
    assert (before + [own[0]])[..|before|] == before;
    if |own| == 1 {
      assert before + own == before + [own[0]];
    } else {
      assert (before + own)[..|before| + 1] == before + [own[0]];
    }
  }

  lemma SnapshotExposesNothing(tasks: map<string, Task>, order: seq<string>)
    requires TasksOk(tasks) && Visits(order, tasks.Keys)
    ensures Exposed(Snapshot(tasks, order)) == {}
  {
    SnapshotReplays(tasks, order);
    forall id | id in Carried(Snapshot(tasks, order))
      ensures id in Fold(Snapshot(tasks, order)).tasks && !Fold(Snapshot(tasks, order)).tasks[id].state.Succeeded?
    {
      SnapshotCarries(tasks, order, id);
    }
  }

  /** How many exposed tasks the counter of successes does not account for. */
  function Uncounted(s: Sys): int { |Exposed(s.disk)| - s.mem.unstripped }

  lemma LoggedExposes(c: Config, s: Sys, op: Op)
    requires Enabled(c, s, op) && Logged(s.mem, op).Some?
    ensures Uncounted(Next(c, s, op)) <= Uncounted(s)
  {
    var r := Logged(s.mem, op).value;
    var s' := Next(c, s, op);
    assert s'.disk == s.disk + [r];
    AppendExposes(s.disk, r);
    if r.kind.RecDone? {
      AtMostOneMore(Exposed(s'.disk), Exposed(s.disk), r.id);
    } else {
      SmallerSet(Exposed(s'.disk), Exposed(s.disk));
    }
  }

  lemma StepExposes(c: Config, s: Sys, op: Op)
    requires MemOk(c, s.mem) && Enabled(c, s, op) && !op.Crash? && !op.ResetCount? && s.mem.unstripped >= 0
    ensures Next(c, s, op).mem.unstripped >= 0
    ensures if op.Compact? then Exposed(Next(c, s, op).disk) == {} else Uncounted(Next(c, s, op)) <= Uncounted(s)
  {
    if op.Compact? {
      SnapshotExposesNothing(s.mem.tasks, op.order);
      assert Next(c, s, op).disk == Snapshot(s.mem.tasks, op.order);
    } else if Logged(s.mem, op).Some? {
      LoggedExposes(c, s, op);
    } else {
      assert Next(c, s, op).disk == s.disk;
    }
  }

  lemma CompactionExposesNothing(c: Config, s: Sys, order: seq<string>)
    requires MemOk(c, s.mem) && Enabled(c, s, Compact(order))
    ensures Exposed(Next(c, s, Compact(order)).disk) == {}
  {
    SnapshotExposesNothing(s.mem.tasks, order);
  }

  // ---- What is exposed since the last compaction ----

  // The success of a task whose request is in the journal.
  predicate Exposes(s: Sys, op: Op) { op.Succeed? && op.id in Carried(s.disk) }

  // What is exposed stays so: no record but a new enqueue takes a delivered task back.
  lemma ExposedStays(c: Config, s: Sys, op: Op)
    requires Inv(c, s) && Enabled(c, s, op) && Logged(s.mem, op).Some?
    ensures Exposed(s.disk) <= Exposed(s.disk + [Logged(s.mem, op).value])
  {
    var r := Logged(s.mem, op).value;
    FoldSnoc(s.disk, r);
    assert (s.disk + [r])[..|s.disk|] == s.disk;
    if !op.Submit? {
      assert Matches(Fold(s.disk).tasks[op.id], s.mem.tasks[op.id]);
    }
  }

  lemma LoggedExposesIff(c: Config, s: Sys, op: Op)
    requires Inv(c, s) && Enabled(c, s, op) && Logged(s.mem, op).Some?
    ensures Exposed(s.disk + [Logged(s.mem, op).value]) == {} <==> Exposed(s.disk) == {} && !Exposes(s, op)
  {
    var r := Logged(s.mem, op).value;
    FoldSnoc(s.disk, r);
    assert (s.disk + [r])[..|s.disk|] == s.disk;
    AppendExposes(s.disk, r);
    ExposedStays(c, s, op);
    if Exposes(s, op) {
      assert op.id in Fold(s.disk).tasks;
      assert op.id in Exposed(s.disk + [r]);
    }
  }

  lemma StepExposesIff(c: Config, s: Sys, op: Op)
    requires Inv(c, s) && Enabled(c, s, op) && !op.Crash? && !op.Compact?
    ensures Exposed(Next(c, s, op).disk) == {} <==> Exposed(s.disk) == {} && !Exposes(s, op)
  {
    if Logged(s.mem, op).Some? {
      LoggedExposesIff(c, s, op);
      assert Next(c, s, op).disk == s.disk + [Logged(s.mem, op).value];
    } else {
      assert Next(c, s, op).disk == s.disk;
    }
  }

  /** Since the last compaction, or the start if there was none and nothing was exposed then, no task whose request is
      in the journal has succeeded. */
  ghost predicate Swept(c: Config, s: Sys, ops: seq<Op>)
    requires Legal(c, s, ops)
    decreases |ops|
  {
    if ops == [] then Exposed(s.disk) == {}
    else
      var init, last := ops[..|ops| - 1], ops[|ops| - 1];
      last.Compact? || (Swept(c, s, init) && !Exposes(Exec(c, s, init), last))
  }

  lemma {:induction false} SweptIff(c: Config, s: Sys, ops: seq<Op>)
    requires Inv(c, s) && Legal(c, s, ops) && NoCrash(ops)
    ensures Exposed(Exec(c, s, ops).disk) == {} <==> Swept(c, s, ops)
    decreases |ops|
  {
    if ops == [] {
    } else {
      var init, last := ops[..|ops| - 1], ops[|ops| - 1];
      SweptIff(c, s, init);
      RunKeepsInv(c, s, init);
      if last.Compact? {
        CompactionExposesNothing(c, Exec(c, s, init), last.order);
      } else {
        StepExposesIff(c, Exec(c, s, init), last);
      }
    }
  }

  // ---- What the counter is worth ----

  /** Every reset of the counter came before any task whose request is in the new journal had succeeded. */
  ghost predicate Tidy(c: Config, s: Sys, ops: seq<Op>)
    requires Legal(c, s, ops)
    decreases |ops|
  {
    ops == [] ||
    (Tidy(c, s, ops[..|ops| - 1]) && (ops[|ops| - 1].ResetCount? ==> Swept(c, s, ops[..|ops| - 1])))
  }

  lemma StepCounts(c: Config, s: Sys, op: Op)
    requires Inv(c, s) && Enabled(c, s, op) && !op.Crash? && s.mem.unstripped >= 0
    requires op.ResetCount? ==> Exposed(s.disk) == {}
    ensures Next(c, s, op).mem.unstripped >= 0
    ensures Uncounted(Next(c, s, op)) <= if Uncounted(s) <= 0 then 0 else Uncounted(s)
    ensures op.Compact? ==> Uncounted(Next(c, s, op)) <= 0
  {
    if op.ResetCount? {
      assert Next(c, s, op).disk == s.disk;
    } else {
      StepExposes(c, s, op);
    }
  }

  /** Without crashes and with tidy resets, the exposed tasks the counter misses never become more, and a compaction
      leaves none. */
  lemma {:induction false} ExposureIsCounted(c: Config, s: Sys, ops: seq<Op>)
    requires Inv(c, s) && s.mem.unstripped >= 0 && Legal(c, s, ops) && NoCrash(ops) && Tidy(c, s, ops)
    ensures Exec(c, s, ops).mem.unstripped >= 0
    ensures Uncounted(Exec(c, s, ops)) <= if Uncounted(s) <= 0 then 0 else Uncounted(s)
    ensures Compacts(ops) ==> Uncounted(Exec(c, s, ops)) <= 0
    decreases |ops|
  {
    if ops == [] {
    } else {
      var init, last := ops[..|ops| - 1], ops[|ops| - 1];
      ExposureIsCounted(c, s, init);
      RunKeepsInv(c, s, init);
      SweptIff(c, s, init);
      StepCounts(c, Exec(c, s, init), last);
    }
  }

  // At every moment of the run the counter bounds what is exposed.
  ghost predicate AlwaysCounted(c: Config, s: Sys, ops: seq<Op>)
    requires Legal(c, s, ops)
    decreases |ops|
  {
    Uncounted(Exec(c, s, ops)) <= 0 && (ops == [] || AlwaysCounted(c, s, ops[..|ops| - 1]))
  }

  lemma UntidyReset(c: Config, s: Sys, ops: seq<Op>)
    requires Inv(c, s) && Legal(c, s, ops) && NoCrash(ops) && !Tidy(c, s, ops)
    requires ops != [] && Tidy(c, s, ops[..|ops| - 1])
    ensures Uncounted(Exec(c, s, ops)) > 0
  {
    var init := ops[..|ops| - 1];
    SweptIff(c, s, init);
    var before := Exec(c, s, init);
    assert Exec(c, s, ops) == before.(mem := before.mem.(unstripped := 0));
  }

  lemma {:induction false} AlwaysCountedIff(c: Config, s: Sys, ops: seq<Op>)
    requires Inv(c, s) && s.mem.unstripped >= 0 && Uncounted(s) <= 0 && Legal(c, s, ops) && NoCrash(ops)
    ensures AlwaysCounted(c, s, ops) <==> Tidy(c, s, ops)
    decreases |ops|
  {
    if ops == [] {
    } else {
      AlwaysCountedIff(c, s, ops[..|ops| - 1]);
      if Tidy(c, s, ops) {
        ExposureIsCounted(c, s, ops);
      } else if Tidy(c, s, ops[..|ops| - 1]) {
        UntidyReset(c, s, ops);
      }
    }
  }

  /** In a life without crashes the counter bounds the delivered tasks with their request still on disk, at every
      moment, if and only if no task whose request is in a new journal succeeds before the counter is reset. */
  lemma CounterBoundsExposureIff(c: Config, ops: seq<Op>)
    requires c.queueMax >= 0 && Legal(c, INITIAL, ops) && NoCrash(ops)
    ensures AlwaysCounted(c, INITIAL, ops) <==> Tidy(c, INITIAL, ops)
  {
    InitialInv(c);
    assert Exposed(INITIAL.disk) == {};
    AlwaysCountedIff(c, INITIAL, ops);
  }

  // From here on, as long as resets are tidy and no crash comes, the counter bounds what is exposed.
  ghost predicate CountsOn(c: Config, s: Sys) {
    forall ops | Legal(c, s, ops) && NoCrash(ops) && Tidy(c, s, ops) :: Uncounted(Exec(c, s, ops)) <= 0
  }

  lemma CountsOnIff(c: Config, s: Sys)
    requires Inv(c, s) && s.mem.unstripped == 0
    ensures CountsOn(c, s) <==> Exposed(s.disk) == {}
  {
    if Exposed(s.disk) == {} {
      forall ops | Legal(c, s, ops) && NoCrash(ops) && Tidy(c, s, ops) ensures Uncounted(Exec(c, s, ops)) <= 0 {
        ExposureIsCounted(c, s, ops);
      }
    } else {
      assert Legal(c, s, []) && NoCrash([]) && Tidy(c, s, []) && Exec(c, s, []) == s;
      assert Uncounted(Exec(c, s, [])) > 0;
    }
  }

  /** After a crash the counter bounds them, from then until the next crash or untidy reset, if and only if what
      survived of the journal exposes nothing: a restart counts from zero again, whatever is on disk. */
  lemma CounterAfterCrashIff(c: Config, s: Sys, crash: Op)
    requires Inv(c, s) && crash.Crash? && Enabled(c, s, crash)
    ensures CountsOn(c, Next(c, s, crash)) <==> Exposed(s.disk[..crash.kept]) == {}
  {
    StepKeepsInv(c, s, crash);
    CountsOnIff(c, Next(c, s, crash));
  }

  // No step of the run is the success of a task whose request is in the journal by then.
  ghost predicate Discreet(c: Config, s: Sys, ops: seq<Op>)
    requires Legal(c, s, ops)
    decreases |ops|
  {
    ops == [] ||
    (Discreet(c, s, ops[..|ops| - 1]) && !Exposes(Exec(c, s, ops[..|ops| - 1]), ops[|ops| - 1]))
  }

  lemma {:induction false} SweptWhenDiscreet(c: Config, s: Sys, ops: seq<Op>)
    requires Legal(c, s, ops) && Exposed(s.disk) == {} && !Compacts(ops)
    ensures Swept(c, s, ops) <==> Discreet(c, s, ops)
    decreases |ops|
  {
    if ops == [] {
    } else {
      SweptWhenDiscreet(c, s, ops[..|ops| - 1]);
    }
  }

  /** A compaction installs its snapshot under one lock and resets the counter under another.  The reset leaves a
      counter that bounds what is exposed if and only if no task whose request is in the journal succeeded
      meanwhile. */
  lemma ResetIsSafeIff(c: Config, s: Sys, gap: seq<Op>)
    requires Inv(c, s) && Exposed(s.disk) == {} && Legal(c, s, gap) && NoCrash(gap) && !Compacts(gap)
    ensures CountsOn(c, Next(c, Exec(c, s, gap), ResetCount)) <==> Discreet(c, s, gap)
  {
    RunKeepsInv(c, s, gap);
    StepKeepsInv(c, Exec(c, s, gap), ResetCount);
    CountsOnIff(c, Next(c, Exec(c, s, gap), ResetCount));
    SweptIff(c, s, gap);
    SweptWhenDiscreet(c, s, gap);
  }

  // ---- Runs in which the counter is wrong ----

  lemma CarriedOne(r: Record)
    ensures Carried([r]) == if Carries(r) then {r.task.value.id} else {}
  {
    assert [r][..0] == [];
  }

  lemma CarriedTwo(a: Record, b: Record)
    requires !Carries(b)
    ensures Carried([a, b]) == Carried([a])
  {
    assert [a, b][..1] == [a];
  }

  // A request and its success, as the journal has them.
  lemma DeliveredIsExposed(spec: Spec, ts: int)
    requires !spec.target.Bare()
    ensures Exposed([Enqueue(spec, ts), Model.Done(spec.id, 1, 0)]) == {spec.id}
  {
    var enqueued, done := Enqueue(spec, ts), Model.Done(spec.id, 1, 0);
    CarriedOne(enqueued);
    CarriedTwo(enqueued, done);
    Scenario.FoldTwo(enqueued, done);
  }

  // A restart: a delivery later, the whole request is still on disk while the counter says none is.
  lemma CrashAfterDelivery(c: Config, spec: Spec)
    ensures var delivered := Next(c, Scenario.Leased(spec), Succeed(spec.id, 0));
            var back := Sys(Restored(Fold(delivered.disk)), delivered.disk, 2);
            && Leads(c, Scenario.Leased(spec), Succeed(spec.id, 0), delivered)
            && delivered.disk == [Enqueue(spec, 0), Model.Done(spec.id, 1, 0)]
            && Leads(c, delivered, Crash(2, 2), back)
            && spec.id in back.mem.tasks && back.mem.tasks[spec.id].state.Succeeded? && back.mem.unstripped == 0
  {
    var delivered := Next(c, Scenario.Leased(spec), Succeed(spec.id, 0));
    assert delivered.disk == [Enqueue(spec, 0), Model.Done(spec.id, 1, 0)] == delivered.disk[..2];
    Scenario.FoldTwo(Enqueue(spec, 0), Model.Done(spec.id, 1, 0));
  }

  /** A delivery and a restart, and the whole request is still on disk while the counter says none is. */
  lemma RestartForgetsExposure(c: Config, spec: Spec) returns (ops: seq<Op>)
    requires c.queueMax >= 1 && spec.idemKey != "" && !spec.target.Bare()
    ensures Legal(c, INITIAL, ops)
    ensures var s := Exec(c, INITIAL, ops);
            && spec.id in s.mem.tasks && s.mem.tasks[spec.id].state.Succeeded? && s.mem.unstripped == 0
            && Exposed(s.disk) == {spec.id} && s.synced == |s.disk|
  {
    var leased, succeed := Scenario.Leased(spec), Succeed(spec.id, 0);
    var delivered := Next(c, leased, succeed);
    CrashAfterDelivery(c, spec);
    DeliveredIsExposed(spec, 0);
    Scenario.ReachLeased(c, spec);
    ops := [Submit(spec, 0), Lease(spec.id, spec.createdAt)];
    ReachesFurther(c, INITIAL, ops, leased, succeed, delivered);
    ReachesFurther(c, INITIAL, ops + [succeed], delivered, Crash(2, 2), Next(c, delivered, Crash(2, 2)));
    ops := ops + [succeed] + [Crash(2, 2)];
  }

  // A compaction while a request is out writes the request down again.
  lemma CompactWhileOut(c: Config, spec: Spec)
    ensures var installed := Sys(Scenario.Leased(spec).mem, [Enqueue(spec, spec.createdAt)], 1);
            var delivered := Next(c, installed, Succeed(spec.id, 0));
            && Leads(c, Scenario.Leased(spec), Compact([spec.id]), installed)
            && Leads(c, installed, Succeed(spec.id, 0), delivered)
            && delivered.disk == [Enqueue(spec, spec.createdAt), Model.Done(spec.id, 1, 0)]
  {
    var tasks := Scenario.Leased(spec).mem.tasks;
    assert [spec.id][..0] == [];
    assert Snapshot(tasks, [spec.id]) == [Enqueue(spec, spec.createdAt)];
  }

  /** No crash is needed: a success between the installation of a snapshot and the reset of the counter is forgotten. */
  lemma ResetForgetsExposure(c: Config, spec: Spec) returns (ops: seq<Op>)
    requires c.queueMax >= 1 && spec.idemKey != "" && !spec.target.Bare()
    ensures Legal(c, INITIAL, ops) && NoCrash(ops)
    ensures var s := Exec(c, INITIAL, ops);
            && spec.id in s.mem.tasks && s.mem.tasks[spec.id].state.Succeeded? && s.mem.unstripped == 0
            && Exposed(s.disk) == {spec.id}
  {
    var leased, compact, succeed := Scenario.Leased(spec), Compact([spec.id]), Succeed(spec.id, 0);
    var installed := Sys(leased.mem, [Enqueue(spec, spec.createdAt)], 1);
    var delivered := Next(c, installed, succeed);
    CompactWhileOut(c, spec);
    DeliveredIsExposed(spec, spec.createdAt);
    Scenario.ReachLeased(c, spec);
    ops := [Submit(spec, 0), Lease(spec.id, spec.createdAt)];
    ReachesFurther(c, INITIAL, ops, leased, compact, installed);
    ReachesFurther(c, INITIAL, ops + [compact], installed, succeed, delivered);
    ReachesFurther(c, INITIAL, ops + [compact] + [succeed], delivered, ResetCount, Next(c, delivered, ResetCount));
    ops := ops + [compact] + [succeed] + [ResetCount];
  }

  lemma {:induction false} SnapshotCarriesAll(tasks: map<string, Task>, order: seq<string>, id: string)
    requires TasksOk(tasks) && (forall i | i in order :: i in tasks) && id in order
    requires !tasks[id].state.Succeeded? && !tasks[id].spec.target.Bare()
    ensures id in Carried(Snapshot(tasks, order))
  {
    var init, last := order[..|order| - 1], order[|order| - 1];
    assert TaskOk(last, tasks[last]);
    CarriedAtLeast(Snapshot(tasks, init), tasks[last]);
    if id != last {
      SnapshotCarriesAll(tasks, init, id);
    }
  }

  lemma CarriedAtLeast(before: seq<Record>, t: Task)
    ensures Carried(before) <= Carried(before + SnapshotOf(t))
    ensures !t.state.Succeeded? && !t.spec.target.Bare() ==>
              t.spec.id in Carried(before + SnapshotOf(t))
  {
    var own := SnapshotOf(t);
    assert (before + [own[0]])[..|before|] == before;
    if |own| == 1 {
      assert before + own == before + [own[0]];
    } else {
      assert (before + own)[..|before| + 1] == before + [own[0]];
    }
  }

  ghost predicate SucceedsIn(ops: seq<Op>, id: string) {
    exists i :: 0 <= i < |ops| && ops[i].Succeed? && ops[i].id == id
  }

  // What was not delivered before and is now was delivered in between.
  lemma {:induction false} DeliveredInBetween(c: Config, s: Sys, ops: seq<Op>, id: string)
    requires Legal(c, s, ops) && NoCrash(ops)
    requires id in Exec(c, s, ops).mem.tasks && Exec(c, s, ops).mem.tasks[id].state.Succeeded?
    requires id in s.mem.tasks ==> !s.mem.tasks[id].state.Succeeded?
    ensures SucceedsIn(ops, id)
    decreases |ops|
  {
    if ops == [] {
      assert false;
    } else {
      var init, last := ops[..|ops| - 1], ops[|ops| - 1];
      if last.Succeed? && last.id == id {
        assert ops[|ops| - 1] == last;
      } else {
        DeliveredBefore(c, Exec(c, s, init), last, id);
        DeliveredInBetween(c, s, init, id);
        var i :| 0 <= i < |init| && init[i].Succeed? && init[i].id == id;
        assert ops[i] == init[i];
      }
    }
  }

  lemma DeliveredBefore(c: Config, s: Sys, op: Op, id: string)
    requires Enabled(c, s, op) && !op.Crash? && !(op.Succeed? && op.id == id)
    requires id in Next(c, s, op).mem.tasks && Next(c, s, op).mem.tasks[id].state.Succeeded?
    ensures id in s.mem.tasks && s.mem.tasks[id].state.Succeeded?
  {}

  /** Nor are successes between the taking of a snapshot and its installation accounted for.  After any gap, the
      request of a task that memory has delivered is in the new journal if and only if the snapshot had it whole and
      the success came in between. */
  lemma LateInstallWritesDeliveredIff(c: Config, s0: Sys, between: seq<Op>, order: seq<string>, id: string)
    requires Inv(c, s0) && Legal(c, s0, between) && NoCrash(between) && Visits(order, s0.mem.tasks.Keys)
    requires var tasks := Exec(c, s0, between).mem.tasks; id in tasks && tasks[id].state.Succeeded?
    ensures id in Carried(InstalledLate(s0, Exec(c, s0, between), order).disk) <==>
            && id in s0.mem.tasks && !s0.mem.tasks[id].spec.target.Bare()
            && SucceedsIn(between, id)
  {
    var m := s0.mem;
    if id in Carried(Snapshot(m.tasks, order)) {
      SnapshotCarries(m.tasks, order, id);
      DeliveredInBetween(c, s0, between, id);
    }
    if id in m.tasks && !m.tasks[id].spec.target.Bare() {
      assert TaskOk(id, m.tasks[id]);
      SnapshotCarriesAll(m.tasks, order, id);
    }
  }
}
