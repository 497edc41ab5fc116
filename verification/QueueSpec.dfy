/** The queue's in-memory state as a value, and what each of its operations does to it. */
module QueueSpec {
  import opened Model
  import opened Replay

  datatype Mem = Mem(
    tasks: map<string, Task>,     // every task held, terminal ones included
    idem: map<string, string>,    // idempotency key -> id
    due: set<string>,             // ids in the due heap
    active: int,                  // number of non-terminal tasks
    unstripped: int,              // successes counted since the last reset, which follows a compaction
    wake: bool)                   // the capacity-one wake slot is full

  function Submitted(m: Mem, spec: Spec): Mem {
    m.(tasks := m.tasks[spec.id := Fresh(spec, spec.createdAt)], idem := m.idem[spec.idemKey := spec.id],
       due := m.due + {spec.id}, active := m.active + 1, wake := true)
  }

  function Leased(m: Mem, id: string, now: int): Mem
    requires id in m.tasks
  {
    m.(tasks := m.tasks[id := m.tasks[id].Leased(now)], due := m.due - {id})
  }

  function Retried(m: Mem, id: string, nextAt: int, now: int): Mem
    requires id in m.tasks
  {
    m.(tasks := m.tasks[id := m.tasks[id].Retried(nextAt, now)], due := m.due + {id}, wake := true)
  }

  function Delivered(m: Mem, id: string, now: int): Mem
    requires id in m.tasks
  {
    m.(tasks := m.tasks[id := m.tasks[id].Delivered(now)], active := m.active - 1, unstripped := m.unstripped + 1)
  }

  function Buried(m: Mem, id: string, why: string, now: int): Mem
    requires id in m.tasks
  {
    m.(tasks := m.tasks[id := m.tasks[id].Buried(why, now)], active := m.active - 1)
  }

  function Revived(m: Mem, id: string, now: int): Mem
    requires id in m.tasks
  {
    m.(tasks := m.tasks[id := m.tasks[id].Revived(now)], due := m.due + {id}, active := m.active + 1, wake := true)
  }

  function Deferred(m: Mem, id: string, nextAt: int): Mem
    requires id in m.tasks
  {
    m.(tasks := m.tasks[id := m.tasks[id].Deferred(nextAt)], due := m.due + {id}, wake := true)
  }

  // The least due time of all scheduled tasks, 0 if there are none: until then there is nothing to lease.
  ghost predicate IsNext(m: Mem, next: int) {
    if m.due == {} then next == 0
    else (exists id :: id in m.due && id in m.tasks && m.tasks[id].nextAt == next)
         && forall id | id in m.due && id in m.tasks :: next <= m.tasks[id].nextAt
  }

  // Purging and cap eviction both come down to dropping some tasks and the index entries that name them.
  function Dropped(m: Mem, ids: set<string>): Mem {
    m.(tasks := m.tasks - ids, idem := map k | k in m.idem && !(k != "" && m.idem[k] in ids) :: m.idem[k])
  }

  // A restart: everything not terminal is pending again and back in the heap.
  function Requeued(t: Task): Task { if t.Live() then t.(state := Pending) else t }

  function Restored(v: View): Mem {
    Mem(map id | id in v.tasks :: Requeued(v.tasks[id]), v.idem, LiveIds(v.tasks), |LiveIds(v.tasks)|, 0, true)
  }

  // ---- Compaction ----

  // The one or two records a snapshot holds for a task.
  function SnapshotOf(t: Task): seq<Record> {
    var id := t.spec.id;
    if t.state.Succeeded? then
      [Enqueue(t.spec.(target := t.spec.target.Strip()), t.spec.createdAt), Model.Done(id, t.attempts, t.updatedAt)]
    else
      [Enqueue(t.spec, t.spec.createdAt)] +
      (if t.state.Dead? then [Model.Buried(id, t.attempts, t.deadReason, t.updatedAt)]
       else if t.attempts > 0 || t.nextAt != t.spec.createdAt then [Attempt(id, t.attempts, t.nextAt, t.updatedAt)]
       else [])
  }

  function Snapshot(tasks: map<string, Task>, order: seq<string>): seq<Record>
    requires forall id | id in order :: id in tasks
  {
    if order == [] then []
    else Snapshot(tasks, order[..|order| - 1]) + SnapshotOf(tasks[order[|order| - 1]])
  }

  // The source walks a hash map: any order that visits each task once.
  ghost predicate Visits(order: seq<string>, ids: set<string>) {
    && (forall id :: id in order <==> id in ids)
    && (forall i, j | 0 <= i < j < |order| :: order[i] != order[j])
  }
}
