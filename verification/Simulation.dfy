/** The relation between what a journal replays to and what the queue holds in memory. */
module Simulation {
  import opened Model
  import opened Replay
  import opened QueueSpec

  datatype Class = Active | Delivered | Buried

  function ClassOf(s: State): Class {
    if s.Succeeded? then Class.Delivered else if s.Dead? then Class.Buried else Class.Active
  }

  /** `a`, rebuilt from a journal, stands for `b`, held in memory: the same work remains to be done, no later. */
  ghost predicate Matches(a: Task, b: Task) {
    && a.spec.id == b.spec.id
    && a.spec.idemKey == b.spec.idemKey
    && a.spec.policy == b.spec.policy
    && a.spec.keyID == b.spec.keyID
    && a.spec.target == b.spec.target
    && a.attempts == b.attempts
    && ClassOf(a.state) == ClassOf(b.state)
    && (if b.Live() then a.nextAt <= b.nextAt else a.updatedAt == b.updatedAt)
    && (b.state.Dead? ==> a.deadReason == b.deadReason)
  }

  /** Every task in memory is matched, and anything else in the journal is terminal. */
  ghost predicate Sim(tasks: map<string, Task>, v: View) {
    && (forall id | id in tasks :: id in v.tasks && Matches(v.tasks[id], tasks[id]))
    && (forall id | id in v.tasks && id !in tasks :: !v.tasks[id].Live())
  }

  lemma SimLive(tasks: map<string, Task>, v: View)
    requires Sim(tasks, v)
    ensures LiveIds(tasks) == LiveIds(v.tasks)
  {
    forall id ensures id in LiveIds(tasks) <==> id in LiveIds(v.tasks) {
      if id in tasks {
        assert Matches(v.tasks[id], tasks[id]);
      }
    }
  }

  // What every task held satisfies: it is filed under its own id, has a key, and holds no credentials once delivered.
  ghost predicate TaskOk(id: string, t: Task) {
    && t.spec.id == id
    && t.spec.idemKey != ""
    && t.attempts >= 0
    && (t.state.Succeeded? ==> t.spec.target.Bare())
  }

  ghost predicate TasksOk(tasks: map<string, Task>) {
    forall id | id in tasks :: TaskOk(id, tasks[id])
  }

  // ---- Snapshots ----

  // The view a snapshot of one task replays to, whatever came before it for other tasks.
  lemma SnapshotOfReplays(v: View, t: Task)
    requires TaskOk(t.spec.id, t)
    ensures var w := FoldFrom(v, SnapshotOf(t));
            && w.tasks.Keys == v.tasks.Keys + {t.spec.id}
            && Matches(w.tasks[t.spec.id], t) && w.tasks[t.spec.id].spec == t.spec
            && (t.Live() ==> w.tasks[t.spec.id].nextAt == t.nextAt)
            && w.tasks[t.spec.id].updatedAt == (if Twofold(t) then t.updatedAt else t.spec.createdAt)
            && (forall id | id in v.tasks && id != t.spec.id :: w.tasks[id] == v.tasks[id])
            && w.idem == v.idem[t.spec.idemKey := t.spec.id]
  {
    var rs := SnapshotOf(t);
    var v1 := Apply(v, rs[0]);
    assert FoldFrom(v, [rs[0]]) == v1 by {
      assert [rs[0]][..0] == [];
    }
    if |rs| == 1 {
      assert rs == [rs[0]];
    } else {
      assert rs[..1] == [rs[0]];
      assert FoldFrom(v, rs) == Apply(v1, rs[1]);
    }
  }

  // `a` stands for `b` exactly, its due time included, and when it was last touched if that was written down.
  ghost predicate MatchesExactly(a: Task, b: Task) {
    && Matches(a, b) && a.spec == b.spec && (b.Live() ==> a.nextAt == b.nextAt)
    && a.updatedAt == (if Twofold(b) then b.updatedAt else b.spec.createdAt)
  }

  // More happened to the task than its submission, so that a snapshot holds two records of it.
  predicate Twofold(t: Task) { !t.Live() || t.attempts > 0 || t.nextAt != t.spec.createdAt }

  // The view holds exactly the tasks visited.
  ghost predicate Mirrors(v: View, tasks: map<string, Task>, order: seq<string>)
    requires forall id | id in order :: id in tasks
  {
    && (forall id :: id in v.tasks <==> id in order)
    && (forall id | id in order :: MatchesExactly(v.tasks[id], tasks[id]))
  }

  lemma MirrorsOneMore(v: View, w: View, tasks: map<string, Task>, order: seq<string>)
    requires (forall id | id in order :: id in tasks) && order != []
    requires Mirrors(v, tasks, order[..|order| - 1]) && order[|order| - 1] !in order[..|order| - 1]
    requires var last := order[|order| - 1];
             && w.tasks.Keys == v.tasks.Keys + {last} && MatchesExactly(w.tasks[last], tasks[last])
             && (forall id | id in v.tasks && id != last :: w.tasks[id] == v.tasks[id])
    ensures Mirrors(w, tasks, order)
  {
    assert forall id :: id in order <==> id in order[..|order| - 1] || id == order[|order| - 1];
  }

  lemma {:induction false} SnapshotMirrors(tasks: map<string, Task>, order: seq<string>)
    requires TasksOk(tasks)
    requires forall id | id in order :: id in tasks
    requires forall i, j | 0 <= i < j < |order| :: order[i] != order[j]
    ensures Mirrors(Fold(Snapshot(tasks, order)), tasks, order)
  {
    if order == [] {
    } else {
      var init, last := order[..|order| - 1], order[|order| - 1];
      SnapshotMirrors(tasks, init);
      var v := Fold(Snapshot(tasks, init));
      assert TaskOk(last, tasks[last]);
      FoldFromAppend(EMPTY, Snapshot(tasks, init), SnapshotOf(tasks[last]));
      SnapshotOfReplays(v, tasks[last]);
      MirrorsOneMore(v, FoldFrom(v, SnapshotOf(tasks[last])), tasks, order);
    }
  }

  /** A snapshot in any order replays to a match of every task it visits, keeping its exact due time, and to nothing
      else. */
  lemma SnapshotReplays(tasks: map<string, Task>, order: seq<string>)
    requires TasksOk(tasks)
    requires forall id | id in order :: id in tasks
    requires forall i, j | 0 <= i < j < |order| :: order[i] != order[j]
    ensures var v := Fold(Snapshot(tasks, order));
            && (forall id :: id in v.tasks <==> id in order)
            && (forall id | id in order ::
                  && Matches(v.tasks[id], tasks[id]) && v.tasks[id].spec == tasks[id].spec
                  && (tasks[id].Live() ==> v.tasks[id].nextAt == tasks[id].nextAt)
                  && v.tasks[id].updatedAt ==
                     if !tasks[id].Live() || tasks[id].attempts > 0 || tasks[id].nextAt != tasks[id].spec.createdAt
                     then tasks[id].updatedAt
                     else tasks[id].spec.createdAt)
  {
    SnapshotMirrors(tasks, order);
  }

  lemma SnapshotSim(tasks: map<string, Task>, order: seq<string>)
    requires TasksOk(tasks) && Visits(order, tasks.Keys)
    ensures Sim(tasks, Fold(Snapshot(tasks, order)))
    ensures Fold(Snapshot(tasks, order)).tasks.Keys == tasks.Keys
  {
    SnapshotReplays(tasks, order);
  }

  // ---- Continuation ----

  /** Two views agree on an id if replay of one stands for replay of the other there. */
  ghost predicate AgreeAt(v: View, w: View, id: string) {
    && (id in v.tasks <==> id in w.tasks)
    && (id in v.tasks ==> Matches(v.tasks[id], w.tasks[id]))
  }

  lemma ApplyAgrees(v: View, w: View, r: Record, id: string)
    requires AgreeAt(v, w, id)
    ensures AgreeAt(Apply(v, r), Apply(w, r), id)
  {}

  lemma {:induction false} SuffixAgrees(v: View, w: View, suffix: seq<Record>, id: string)
    requires AgreeAt(v, w, id)
    ensures AgreeAt(FoldFrom(v, suffix), FoldFrom(w, suffix), id)
  {
    if suffix == [] {
    } else {
      SuffixAgrees(v, w, suffix[..|suffix| - 1], id);
      ApplyAgrees(FoldFrom(v, suffix[..|suffix| - 1]), FoldFrom(w, suffix[..|suffix| - 1]), suffix[|suffix| - 1], id);
    }
  }

  lemma {:induction false} EnqueuedAgrees(v: View, w: View, suffix: seq<Record>, i: nat)
    requires i < |suffix| && suffix[i].kind.RecEnqueue? && suffix[i].task.Some?
    ensures AgreeAt(FoldFrom(v, suffix), FoldFrom(w, suffix), suffix[i].task.value.id)
  {
    var init, id := suffix[..|suffix| - 1], suffix[i].task.value.id;
    if i < |suffix| - 1 {
      EnqueuedAgrees(v, w, init, i);
      ApplyAgrees(FoldFrom(v, init), FoldFrom(w, init), suffix[|suffix| - 1], id);
    }
  }

  // An attempt record makes the due time exact again.
  ghost predicate Rescheduled(suffix: seq<Record>, id: string) {
    exists i :: 0 <= i < |suffix| && suffix[i].kind.RecAttempt? && suffix[i].id == id
  }

  lemma {:induction false} RescheduledExactly(v: View, w: View, suffix: seq<Record>, id: string)
    requires AgreeAt(v, w, id) && id in v.tasks
    requires Rescheduled(suffix, id) || v.tasks[id].nextAt == w.tasks[id].nextAt
    ensures id in FoldFrom(v, suffix).tasks && id in FoldFrom(w, suffix).tasks
    ensures FoldFrom(v, suffix).tasks[id].nextAt == FoldFrom(w, suffix).tasks[id].nextAt
  {
    if suffix == [] {
    } else {
      var init, last := suffix[..|suffix| - 1], suffix[|suffix| - 1];
      SuffixAgrees(v, w, init, id);
      FoldKeepsIds(v, init);
      if Rescheduled(init, id) || v.tasks[id].nextAt == w.tasks[id].nextAt {
        RescheduledExactly(v, w, init, id);
      } else {
        assert last.kind.RecAttempt? && last.id == id;
      }
    }
  }

  /** Compaction preserves meaning under continuation.  Whatever records follow, and in whatever order the task map was
      walked, replaying old journal and suffix stands for replaying snapshot and suffix, at every id then in memory and
      every id enqueued since.  The due time can differ only where the old journal never recorded a reschedule. */
  lemma CompactionContinues(tasks: map<string, Task>, journal: seq<Record>, order: seq<string>,
                            suffix: seq<Record>, id: string)
    requires TasksOk(tasks) && Sim(tasks, Fold(journal)) && Visits(order, tasks.Keys)
    requires id in tasks || exists i :: 0 <= i < |suffix| && suffix[i].task.Some? && suffix[i].task.value.id == id
                                        && suffix[i].kind.RecEnqueue?
    ensures var kept, compacted := Fold(journal + suffix), Fold(Snapshot(tasks, order) + suffix);
            && AgreeAt(kept, compacted, id)
            && (id in tasks
                && (Rescheduled(suffix, id)
                    || (tasks[id].Live() && Fold(journal).tasks[id].nextAt == tasks[id].nextAt)) ==>
                  id in kept.tasks && id in compacted.tasks && kept.tasks[id].nextAt == compacted.tasks[id].nextAt)
  {
    var v, w := Fold(journal), Fold(Snapshot(tasks, order));
    FoldFromAppend(EMPTY, journal, suffix);
    FoldFromAppend(EMPTY, Snapshot(tasks, order), suffix);
    SnapshotReplays(tasks, order);
    if id in tasks {
      assert Matches(v.tasks[id], tasks[id]) && Matches(w.tasks[id], tasks[id]);
      assert AgreeAt(v, w, id);
      SuffixAgrees(v, w, suffix, id);
      if Rescheduled(suffix, id) || (tasks[id].Live() && v.tasks[id].nextAt == tasks[id].nextAt) {
        RescheduledExactly(v, w, suffix, id);
      }
    } else {
      var i :| 0 <= i < |suffix| && suffix[i].task.Some? && suffix[i].task.value.id == id && suffix[i].kind.RecEnqueue?;
      EnqueuedAgrees(v, w, suffix, i);
    }
  }

  // A record of the suffix enqueues the task once more.
  ghost predicate Reenqueued(suffix: seq<Record>, id: string) {
    exists i :: 0 <= i < |suffix| && suffix[i].kind.RecEnqueue? && suffix[i].task.Some? && suffix[i].task.value.id == id
  }

  lemma {:induction false} DueTimeStays(v: View, suffix: seq<Record>, id: string)
    requires id in v.tasks && !Rescheduled(suffix, id) && !Reenqueued(suffix, id)
    ensures id in FoldFrom(v, suffix).tasks && FoldFrom(v, suffix).tasks[id].nextAt == v.tasks[id].nextAt
  {
    if suffix == [] {
    } else {
      var init, last := suffix[..|suffix| - 1], suffix[|suffix| - 1];
      assert forall i | 0 <= i < |init| :: init[i] == suffix[i];
      DueTimeStays(v, init, id);
      assert !(last.kind.RecAttempt? && last.id == id);
      assert !(last.kind.RecEnqueue? && last.task.Some? && last.task.value.id == id);
    }
  }

  lemma DueTimesIff(v: View, w: View, suffix: seq<Record>, id: string)
    requires AgreeAt(v, w, id) && id in v.tasks && !Reenqueued(suffix, id)
    ensures id in FoldFrom(v, suffix).tasks && id in FoldFrom(w, suffix).tasks
    ensures FoldFrom(v, suffix).tasks[id].nextAt == FoldFrom(w, suffix).tasks[id].nextAt
            <==> Rescheduled(suffix, id) || v.tasks[id].nextAt == w.tasks[id].nextAt
  {
    FoldKeepsIds(v, suffix);
    FoldKeepsIds(w, suffix);
    if Rescheduled(suffix, id) {
      RescheduledExactly(v, w, suffix, id);
    } else {
      DueTimeStays(v, suffix, id);
      DueTimeStays(w, suffix, id);
    }
  }

  /** Exactly when the due times agree too: for an unfinished task that no later record enqueues again, if and only if a
      later record reschedules it or the old journal had its due time right. */
  lemma CompactionKeepsDueTimeIff(tasks: map<string, Task>, journal: seq<Record>, order: seq<string>,
                                  suffix: seq<Record>, id: string)
    requires TasksOk(tasks) && Sim(tasks, Fold(journal)) && Visits(order, tasks.Keys)
    requires id in tasks && tasks[id].Live() && !Reenqueued(suffix, id)
    ensures var kept, compacted := Fold(journal + suffix), Fold(Snapshot(tasks, order) + suffix);
            && id in kept.tasks && id in compacted.tasks
            && (kept.tasks[id].nextAt == compacted.tasks[id].nextAt
                <==> Rescheduled(suffix, id) || Fold(journal).tasks[id].nextAt == tasks[id].nextAt)
  {
    var v, w := Fold(journal), Fold(Snapshot(tasks, order));
    FoldFromAppend(EMPTY, journal, suffix);
    FoldFromAppend(EMPTY, Snapshot(tasks, order), suffix);
    SnapshotReplays(tasks, order);
    assert Matches(v.tasks[id], tasks[id]) && Matches(w.tasks[id], tasks[id]);
    DueTimesIff(v, w, suffix, id);
  }
}
