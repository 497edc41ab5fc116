/** Which finished tasks maintenance drops, and how large the journal may stay. */
module Eviction {
  import opened Model
  import opened Arithmetic
  import opened QueueSpec
  import opened Simulation
  import opened System

  datatype Upkeep = Upkeep(retention: int, deadRetention: int, compactMinBytes: int, compactLiveRatio: real,
                           stripThreshold: int)

  function FinishedIds(tasks: map<string, Task>): set<string> {
    set id | id in tasks && !tasks[id].Live()
  }

  // Kept past its retention time, which for a dead task is its own.
  predicate Expired(t: Task, now: int, retention: int, deadRetention: int) {
    match t.state
    case Succeeded => t.updatedAt < now - retention
    case Dead => t.updatedAt < now - deadRetention
    case _ => false
  }

  function ExpiredIds(tasks: map<string, Task>, now: int, u: Upkeep): set<string> {
    set id | id in tasks && Expired(tasks[id], now, u.retention, u.deadRetention)
  }

  /** What a purge leaves: all but the delivered tasks past one retention time and the dead ones past the other. */
  ghost predicate Purged(before: map<string, Task>, after: map<string, Task>, now: int, u: Upkeep) {
    forall id :: id in after <==>
      && id in before
      && !(before[id].state.Succeeded? && before[id].updatedAt + u.retention < now)
      && !(before[id].state.Dead? && before[id].updatedAt + u.deadRetention < now)
  }

  lemma DroppedIsPurged(m: Mem, now: int, u: Upkeep)
    ensures Purged(m.tasks, Dropped(m, ExpiredIds(m.tasks, now, u)).tasks, now, u)
  {}

  // The order of sacrifice: delivered tasks before dead ones, and within a class the longest untouched first.
  predicate Sooner(a: Task, b: Task) {
    if a.state.Dead? != b.state.Dead? then b.state.Dead? else a.updatedAt <= b.updatedAt
  }

  /** `gone` is a right choice of what to drop when `over` tasks are too many. */
  ghost predicate RightlyEvicted(tasks: map<string, Task>, gone: set<string>, over: int) {
    && gone <= FinishedIds(tasks)
    && |gone| == (if over <= 0 then 0 else if over <= |FinishedIds(tasks)| then over else |FinishedIds(tasks)|)
    && (forall a, b | a in gone && b in FinishedIds(tasks) - gone :: Sooner(tasks[a], tasks[b]))
  }

  /** `gone` is a right choice of what to drop for the configured cap, which zero or less turns off. */
  ghost predicate RightlyCapped(c: Config, tasks: map<string, Task>, gone: set<string>) {
    if c.tasksMax <= 0 then gone == {} else RightlyEvicted(tasks, gone, |tasks| - c.tasksMax)
  }

  /** No unfinished task is ever evicted, a dead one only when no delivered one is left, and of each class none that was
      touched before one that is kept. */
  lemma EvictionIsFair(tasks: map<string, Task>, gone: set<string>, over: int)
    requires RightlyEvicted(tasks, gone, over)
    ensures forall id | id in gone :: !tasks[id].Live()
    ensures (exists id :: id in gone && tasks[id].state.Dead?) ==>
              forall id | id in tasks && id !in gone :: !tasks[id].state.Succeeded?
    ensures forall a, b | a in gone && b in tasks && b !in gone && tasks[a].state == tasks[b].state ::
              tasks[a].updatedAt <= tasks[b].updatedAt
  {
    forall a, b | a in gone && b in tasks && b !in gone && !tasks[b].Live() ensures Sooner(tasks[a], tasks[b]) {
      assert b in FinishedIds(tasks) - gone;
    }
  }

  lemma SplitIds(tasks: map<string, Task>)
    ensures |tasks| == |LiveIds(tasks)| + |FinishedIds(tasks)|
  {
    assert tasks.Keys == LiveIds(tasks) + FinishedIds(tasks);
    assert LiveIds(tasks) !! FinishedIds(tasks);
  }

  // No more are dropped than are too many.
  lemma EvictionIsCounted(m: Mem, gone: set<string>, over: int)
    requires RightlyEvicted(m.tasks, gone, over)
    ensures |Dropped(m, gone).tasks| == |m.tasks| - |gone| && (gone != {} ==> |gone| <= over)
  {
    var kept := Dropped(m, gone).tasks;
    assert kept.Keys == m.tasks.Keys - gone;
    assert |kept.Keys| == |m.tasks.Keys| - |gone|;
  }

  lemma CappedIsCounted(c: Config, m: Mem, gone: set<string>)
    requires RightlyCapped(c, m.tasks, gone)
    ensures |Dropped(m, gone).tasks| == |m.tasks| - |gone|
    ensures |gone| > 0 ==> 0 < c.tasksMax <= |Dropped(m, gone).tasks|
  {
    if c.tasksMax > 0 {
      EvictionIsCounted(m, gone, |m.tasks| - c.tasksMax);
    } else {
      DropNone(m);
    }
  }

  /** With a cap no smaller than the limit on unfinished tasks, eviction brings the total down to the cap. */
  lemma EvictionReachesCap(c: Config, m: Mem, gone: set<string>)
    requires MemOk(c, m) && c.queueMax <= c.tasksMax
    requires RightlyEvicted(m.tasks, gone, |m.tasks| - c.tasksMax)
    ensures |Dropped(m, gone).tasks| <= c.tasksMax
  {
    SplitIds(m.tasks);
    EvictionIsCounted(m, gone, |m.tasks| - c.tasksMax);
  }

  /** Every unfinished task is kept, no kept task is changed, and the total is within its cap where it has one. */
  ghost predicate TrimmedTo(c: Config, before: map<string, Task>, after: map<string, Task>) {
    && LiveIds(before) <= after.Keys <= before.Keys
    && (forall id | id in after :: after[id] == before[id])
    && (0 < c.tasksMax && c.queueMax <= c.tasksMax ==> |after| <= c.tasksMax)
  }

  /** The first two operations drop what has expired, and then what is too many of the rest, each in full and nothing
      else. */
  ghost predicate Tidies(c: Config, u: Upkeep, before: map<string, Task>, ops: seq<Op>, now: int) {
    && |ops| >= 2 && ops[0].Drop? && ops[1].Drop?
    && ops[0].ids <= before.Keys && Purged(before, before - ops[0].ids, now, u)
    && RightlyCapped(c, before - ops[0].ids, ops[1].ids)
  }

  /** Dropping expired tasks and then evicting for the cap trims as it should. */
  lemma TrimIsFair(c: Config, m: Mem, expired: set<string>, m': Mem, gone: set<string>)
    requires MemOk(c, m) && expired <= FinishedIds(m.tasks) && m' == Dropped(m, expired)
    requires RightlyCapped(c, m'.tasks, gone)
    ensures TrimmedTo(c, m.tasks, Dropped(m', gone).tasks)
  {
    if 0 < c.tasksMax && c.queueMax <= c.tasksMax {
      DroppedIsOk(c, m, expired);
      EvictionReachesCap(c, m', gone);
    }
  }

  lemma TrimTidies(c: Config, u: Upkeep, m: Mem, now: int, gone: set<string>)
    requires RightlyCapped(c, Dropped(m, ExpiredIds(m.tasks, now, u)).tasks, gone)
    ensures Tidies(c, u, m.tasks, [Drop(ExpiredIds(m.tasks, now, u)), Drop(gone)], now)
  {
    DroppedIsPurged(m, now, u);
  }

  lemma TidiesStill(c: Config, u: Upkeep, before: map<string, Task>, ops: seq<Op>, more: seq<Op>, now: int)
    requires Tidies(c, u, before, ops, now)
    ensures Tidies(c, u, before, ops + more, now)
  {}

  lemma DroppedOneMore(m: Mem, gone: set<string>, id: string)
    ensures Dropped(Dropped(m, gone), {id}) == Dropped(m, gone + {id})
  {
    assert m.tasks - gone - {id} == m.tasks - (gone + {id});
  }

  lemma DroppedIsOk(c: Config, m: Mem, gone: set<string>)
    requires MemOk(c, m) && gone <= FinishedIds(m.tasks)
    ensures MemOk(c, Dropped(m, gone))
  {
    DroppedMemOk(c, Sys(m, [], 0), Drop(gone));
  }

  lemma DropNone(m: Mem)
    ensures Dropped(m, {}) == m
  {
    assert m.tasks - {} == m.tasks;
  }

  // Only the entry of its own key can lead to a task.
  lemma IndexWithout(m: Mem, id: string, idem: map<string, string>)
    requires Indexed(m.tasks, m.idem) && id in m.tasks
    requires var k := m.tasks[id].spec.idemKey;
             idem == if k != "" && k in m.idem && m.idem[k] == id then map j | j in m.idem && j != k :: m.idem[j]
                     else m.idem
    ensures idem == Dropped(m, {id}).idem
  {}

  function Submissions(ops: seq<Op>): nat {
    if ops == [] then 0
    else Submissions(ops[..|ops| - 1]) + (if ops[|ops| - 1].Submit? then 1 else 0)
  }

  lemma StepGrows(c: Config, s: Sys, op: Op)
    requires Enabled(c, s, op) && !op.Crash?
    ensures |Next(c, s, op).mem.tasks| <= |s.mem.tasks| + (if op.Submit? then 1 else 0)
  {
    var tasks, tasks' := s.mem.tasks, Next(c, s, op).mem.tasks;
    KeysGrow(c, s, op);
    if op.Submit? {
      assert |tasks.Keys + {op.spec.id}| == |tasks.Keys| + 1;
      SmallerSet(tasks'.Keys, tasks.Keys + {op.spec.id});
    } else {
      SmallerSet(tasks'.Keys, tasks.Keys);
    }
    assert |tasks'| == |tasks'.Keys| && |tasks| == |tasks.Keys|;
  }

  lemma KeysGrow(c: Config, s: Sys, op: Op)
    requires Enabled(c, s, op) && !op.Crash?
    ensures Next(c, s, op).mem.tasks.Keys <= s.mem.tasks.Keys + (if op.Submit? then {op.spec.id} else {})
    ensures op.Submit? ==> op.spec.id !in s.mem.tasks
  {}

  /** Whatever goes on after tasks were evicted for the cap, the total passes what it was by no more than the tasks
      submitted since. */
  lemma {:induction false} TotalGrowsBySubmissions(c: Config, s: Sys, ops: seq<Op>)
    requires Legal(c, s, ops) && NoCrash(ops)
    ensures |Exec(c, s, ops).mem.tasks| <= |s.mem.tasks| + Submissions(ops)
    decreases |ops|
  {
    if ops == [] {
    } else {
      TotalGrowsBySubmissions(c, s, ops[..|ops| - 1]);
      StepGrows(c, Exec(c, s, ops[..|ops| - 1]), ops[|ops| - 1]);
    }
  }

  // ---- Sorting ----

  ghost predicate Sorted(tasks: map<string, Task>, ids: seq<string>) {
    (forall id | id in ids :: id in tasks) && forall i, j | 0 <= i < j < |ids| :: Sooner(tasks[ids[i]], tasks[ids[j]])
  }

  function Inserted(tasks: map<string, Task>, ids: seq<string>, id: string): (r: seq<string>)
    requires id in tasks && forall i | i in ids :: i in tasks
    ensures multiset(r) == multiset(ids) + multiset{id}
  {
    if ids == [] || Sooner(tasks[id], tasks[ids[0]]) then [id] + ids
    else
      assert ids == [ids[0]] + ids[1..];
      [ids[0]] + Inserted(tasks, ids[1..], id)
  }

  lemma SameMembers(a: seq<string>, b: multiset<string>, id: string)
    requires multiset(a) == b
    ensures id in a <==> id in b
  {}

  lemma InsertedMembers(tasks: map<string, Task>, ids: seq<string>, id: string)
    requires id in tasks && forall i | i in ids :: i in tasks
    ensures forall k :: k in Inserted(tasks, ids, id) <==> k == id || k in ids
  {
    forall k ensures k in Inserted(tasks, ids, id) <==> k == id || k in ids {
      SameMembers(Inserted(tasks, ids, id), multiset(ids) + multiset{id}, k);
    }
  }

  lemma {:induction false} InsertedIsSorted(tasks: map<string, Task>, ids: seq<string>, id: string)
    requires id in tasks && Sorted(tasks, ids)
    ensures Sorted(tasks, Inserted(tasks, ids, id))
  {
    InsertedMembers(tasks, ids, id);
    if ids != [] && !Sooner(tasks[id], tasks[ids[0]]) {
      var rest := Inserted(tasks, ids[1..], id);
      InsertedIsSorted(tasks, ids[1..], id);
      InsertedMembers(tasks, ids[1..], id);
      forall j | 0 <= j < |rest| ensures Sooner(tasks[ids[0]], tasks[rest[j]]) {
        assert rest[j] == id || rest[j] in ids[1..];
      }
    }
  }

  // Victims in their turn to go.  The source's sort may order ties in any way; so may its callers rely on no more.
  function SortedIds(tasks: map<string, Task>, ids: seq<string>): (r: seq<string>)
    requires forall i | i in ids :: i in tasks
    ensures multiset(r) == multiset(ids)
  {
    if ids == [] then []
    else
      assert ids == [ids[0]] + ids[1..];
      var rest := SortedIds(tasks, ids[1..]);
      assert forall k | k in rest :: k in multiset(rest);
      Inserted(tasks, rest, ids[0])
  }

  lemma {:induction false} SortedIdsAreSorted(tasks: map<string, Task>, ids: seq<string>)
    requires forall i | i in ids :: i in tasks
    ensures Sorted(tasks, SortedIds(tasks, ids))
  {
    if ids == [] {
    } else {
      SortedIdsAreSorted(tasks, ids[1..]);
      InsertedIsSorted(tasks, SortedIds(tasks, ids[1..]), ids[0]);
    }
  }

  // The first k of the victims.
  ghost function First(victims: seq<string>, k: nat): set<string>
    requires k <= |victims|
  {
    if k == 0 then {} else First(victims, k - 1) + {victims[k - 1]}
  }

  lemma {:induction false} InFirst(victims: seq<string>, k: nat, id: string)
    requires k <= |victims|
    ensures id in First(victims, k) <==> exists i :: 0 <= i < k && victims[i] == id
  {
    if k == 0 {
    } else {
      InFirst(victims, k - 1, id);
    }
  }

  lemma DistinctVictims(victims: seq<string>, ids: set<string>, i: nat, j: nat)
    requires multiset(victims) == multiset(ids) && i < j < |victims|
    ensures victims[i] != victims[j]
  {
    var head, tail := victims[..j], victims[j..];
    assert victims == head + tail && victims[i] == head[i] && victims[j] == tail[0];
    assert multiset(victims)[victims[i]] == multiset(head)[victims[i]] + multiset(tail)[victims[i]];
    assert multiset(head)[victims[i]] >= 1 && multiset(tail)[victims[j]] >= 1;
  }

  lemma FirstOneMore(victims: seq<string>, ids: set<string>, k: nat)
    requires multiset(victims) == multiset(ids) && k < |victims|
    ensures victims[k] in ids && victims[k] !in First(victims, k)
  {
    assert victims[k] in multiset(victims);
    InFirst(victims, k, victims[k]);
    if i :| 0 <= i < k && victims[i] == victims[k] {
      DistinctVictims(victims, ids, i, k);
    }
  }

  /** Dropping sorted victims from the front, until enough or all are gone, is a right eviction. */
  lemma FrontIsRight(tasks: map<string, Task>, victims: seq<string>, k: nat, over: int)
    requires Sorted(tasks, victims) && multiset(victims) == multiset(FinishedIds(tasks))
    requires over >= 0 && k == (if over <= |victims| then over else |victims|)
    requires First(victims, k) <= FinishedIds(tasks) && |First(victims, k)| == k
    ensures RightlyEvicted(tasks, First(victims, k), over)
  {
    assert |victims| == |multiset(victims)| == |FinishedIds(tasks)|;
    forall a, b | a in First(victims, k) && b in FinishedIds(tasks) - First(victims, k)
      ensures Sooner(tasks[a], tasks[b])
    {
      assert b in multiset(victims);
      InFirst(victims, k, a);
      InFirst(victims, k, b);
      var i :| 0 <= i < k && victims[i] == a;
      var j :| 0 <= j < |victims| && victims[j] == b;
      assert j >= k;
    }
  }

  // ---- Snapshots ----

  lemma {:induction false} SnapshotLength(tasks: map<string, Task>, order: seq<string>)
    requires forall id | id in order :: id in tasks
    ensures |Snapshot(tasks, order)| <= 2 * |order|
  {
    if order == [] {
    } else {
      SnapshotLength(tasks, order[..|order| - 1]);
    }
  }

  lemma {:induction false} VisitLength(order: seq<string>, ids: set<string>)
    requires Visits(order, ids)
    ensures |order| == |ids|
  {
    if order != [] {
      var last, init := order[|order| - 1], order[..|order| - 1];
      forall id ensures id in init <==> id in ids - {last} {
        if id in ids - {last} {
          var i :| 0 <= i < |order| && order[i] == id;
          assert init[i] == id;
        }
      }
      VisitLength(init, ids - {last});
    } else {
      assert forall id :: id !in ids;
    }
  }

  /** After a compaction, no enqueue record in the journal carries the headers or the body of a delivered task. */
  lemma {:induction false} SnapshotKeepsNoCredentials(tasks: map<string, Task>, order: seq<string>, i: nat)
    requires TasksOk(tasks) && (forall id | id in order :: id in tasks) && i < |Snapshot(tasks, order)|
    requires var r := Snapshot(tasks, order)[i];
             r.task.Some? && r.task.value.id in tasks && tasks[r.task.value.id].state.Succeeded?
    ensures var target := Snapshot(tasks, order)[i].task.value.target;
            target.headers == map[] && target.body == "" && target.bodyEncoding == ""
  {
    var init, last := order[..|order| - 1], order[|order| - 1];
    if i < |Snapshot(tasks, init)| {
      SnapshotKeepsNoCredentials(tasks, init, i);
    } else {
      assert TaskOk(last, tasks[last]);
    }
  }

  // ---- Journal size ----

  /** The bound maintenance keeps the journal to: small in bytes, or not much longer than a snapshot would be. */
  predicate Lean(records: nat, bytes: nat, tasks: nat, minBytes: int, ratio: real) {
    bytes < minBytes || records as real * ratio <= (2 * tasks) as real
  }

  /** When maintenance compacts: the file is large and mostly history, or too many requests wait to be stripped. */
  predicate Worthwhile(u: Upkeep, records: nat, bytes: nat, tasks: nat, unstripped: int) {
    records > 0 &&
    ((bytes >= u.compactMinBytes && (2 * tasks) as real / records as real < u.compactLiveRatio)
     || (u.stripThreshold > 0 && unstripped >= u.stripThreshold))
  }

  /** In other words: there is a journal to compact, and it has grown to the least size worth the effort while the two
      records each task may need are less than the given share of it, or as many deliveries as the threshold, if there
      is one, have been counted since the counter was last reset. */
  lemma WorthwhileIff(u: Upkeep, records: nat, bytes: nat, tasks: nat, unstripped: int)
    ensures Worthwhile(u, records, bytes, tasks, unstripped) <==>
            && records >= 1
            && ((bytes >= u.compactMinBytes && (2 * tasks) as real < u.compactLiveRatio * records as real)
                || unstripped >= u.stripThreshold > 0)
  {
    if records > 0 {
      var share := (2 * tasks) as real / records as real;
      assert share * records as real == (2 * tasks) as real;
    }
  }

  lemma ScalesUp(x: real, a: real, b: real)
    requires x >= 0.0 && a <= b
    ensures x * a <= x * b
  {}

  lemma SnapshotIsLean(records: nat, bytes: nat, tasks: nat, minBytes: int, ratio: real)
    requires records <= 2 * tasks && ratio <= 1.0
    ensures Lean(records, bytes, tasks, minBytes, ratio)
  {
    ScalesUp(records as real, ratio, 1.0);
  }

  lemma NotWorthwhileIsLean(records: nat, bytes: nat, tasks: nat, minBytes: int, ratio: real)
    requires records > 0 && !(bytes >= minBytes && (2 * tasks) as real / records as real < ratio)
    ensures Lean(records, bytes, tasks, minBytes, ratio)
  {
    if bytes >= minBytes {
      var q := (2 * tasks) as real / records as real;
      assert q * records as real == (2 * tasks) as real;
      ScalesUp(records as real, ratio, q);
    }
  }
}
