/** The queue itself: a map of shared task objects, an index, a heap and counters, kept in step with the log. */
module Queue {
  import opened Model
  import opened Replay
  import opened QueueSpec
  import opened System
  import opened Recovery
  import opened Credentials
  import opened Steps
  import opened DueHeap
  import opened Wal
  import opened Eviction

  datatype SubmitResult = Accepted | Duplicate(existing: TaskRef) | Full | StoreFailed

  datatype ReviveResult = Revived | NotFound | NotDead | QueueFull

  class Queue {
    const cfg: Config
    const upkeep: Upkeep
    const store: WAL
    const due: Heap
    var tasks: map<string, TaskRef>
    var idem: map<string, string>
    var active: int
    var unstripped: int
    var wake: bool
    ghost var values: map<string, Task>  // what the task objects hold
    ghost var dueIds: set<string>        // the ids of the tasks in the heap
    ghost var held: set<TaskRef>         // every task object the queue may reach

    // How often the heap must hold a task: once while it is scheduled, unless it is being moved.
    ghost function Share(t: TaskRef, moving: set<TaskRef>): nat
      reads t
    {
      if t.state.Scheduled() && t !in moving then 1 else 0
    }

    // The object filed under an id holds that id and the value recorded for it, and the heap holds its share of it.
    ghost predicate Home(id: string, moving: set<TaskRef>)
      reads this`tasks, this`held, this`values, due, held
    {
      && id in tasks && tasks[id] in held && tasks[id].id == id
      && id in values && tasks[id].Value() == values[id]
      && multiset(due.items)[tasks[id]] == Share(tasks[id], moving)
    }

    ghost predicate Ours(t: TaskRef)
      reads this`tasks
    {
      t.id in tasks && tasks[t.id] == t
    }

    // Objects, values and heap agree; the heap is in order and holds nothing else, least of all what is `moving`.
    ghost predicate LinkedBut(moving: set<TaskRef>)
      reads this`tasks, this`held, this`values, due, due.items, held
    {
      && values.Keys == tasks.Keys
      && (forall id {:trigger Home(id, moving)} | id in tasks :: Home(id, moving))
      && (forall t: TaskRef {:trigger Ours(t)} | t in multiset(due.items) :: Ours(t))
      && Ordered(due.items)
    }

    ghost predicate Linked()
      reads this`tasks, this`held, this`values, due, due.items, held
    {
      LinkedBut({})
    }

    /** The in-memory state as a value. */
    ghost function MemOf(): Mem
      reads this
    {
      Mem(values, idem, dueIds, active, unstripped, wake)
    }

    ghost predicate Valid()
      reads this, due, due.items, held, store, store.disk
    {
      store.Valid() && Linked() && MemOk(cfg, MemOf())
    }

    /** The queue and its log as the state machine sees them. */
    ghost function SysOf(): Sys
      reads this, store
    {
      Sys(MemOf(), store.journal, store.durable)
    }

    lemma InHeap(t: TaskRef)
      requires Linked()
      ensures t in due.items <==> Ours(t) && t.state.Scheduled()
    {
      assert t in due.items <==> t in multiset(due.items);
      if Ours(t) {
        assert Home(t.id, {});
      }
    }

    constructor (cfg: Config, upkeep: Upkeep, store: WAL)
      ensures this.cfg == cfg && this.upkeep == upkeep && this.store == store && fresh(due) && due.items == []
      ensures Linked() && MemOf() == Mem(map[], map[], {}, 0, 0, false) && held == {}
    {
      this.cfg, this.upkeep, this.store := cfg, upkeep, store;
      tasks, idem, active, unstripped, wake := map[], map[], 0, 0, false;
      due := new Heap();
      values, dueIds, held := map[], {}, {};
    }

    // ---- Moving tasks in and out of the heap ----

    // Puts one of the tasks being moved into the heap.
    method Enqueue(t: TaskRef, ghost moving: set<TaskRef> := {t})
      requires t in moving && LinkedBut(moving) && Ours(t) && t.state.Scheduled()
      modifies this`wake, this`dueIds, due
      ensures LinkedBut(moving - {t}) && (moving == {t} ==> Linked()) && wake && dueIds == old(dueIds) + {t.id}
    {
      due.Push(t);
      wake := true;
      dueIds := dueIds + {t.id};
      forall id | id in tasks ensures Home(id, moving - {t}) {
        assert old(Home(id, moving));
      }
      forall u: TaskRef | u in multiset(due.items) ensures Ours(u) {
        assert u != t ==> u in multiset(old(due.items)) && old(Ours(u));
      }
      assert moving == {t} ==> moving - {t} == {};
    }

    method Dequeue() returns (t: TaskRef)
      requires Linked() && due.items != []
      modifies this`dueIds, due
      ensures t == old(due.items[0]) && Ours(t) && t.state.Scheduled()
      ensures LinkedBut({t}) && dueIds == old(dueIds) - {t.id}
    {
      InHeap(due.items[0]);
      t := due.Pop();
      dueIds := dueIds - {t.id};
      forall id | id in tasks ensures Home(id, {t}) {
        assert old(Home(id, {}));
      }
      forall u: TaskRef | u in multiset(due.items) ensures Ours(u) {
        assert u in multiset(old(due.items)) && old(Ours(u));
      }
    }

    // ---- Changing a task off the heap ----

    // The heap has no share of a task that is not scheduled.
    lemma Unheaped(t: TaskRef)
      requires Linked() && Ours(t) && !t.state.Scheduled()
      ensures LinkedBut({t})
    {
      forall id | id in tasks ensures Home(id, {t}) {
        assert Home(id, {});
      }
    }

    // The heap's order does not depend on a task it does not hold: only that task's value changes.
    twostate lemma OffHeapChange(t: TaskRef)
      requires old(LinkedBut({t})) && Ours(t)
      requires unchanged(this`tasks, this`held, due) && forall u: TaskRef | u in old(held) && u != t :: unchanged(u)
      requires values == old(values)[t.id := t.Value()]
      ensures LinkedBut({t})
    {
      assert old(Home(t.id, {t}));
      forall id | id in tasks ensures Home(id, {t}) {
        assert old(Home(id, {t}));
      }
      forall u: TaskRef | u in multiset(due.items) ensures Ours(u) && u in held && u != t {
        assert old(Ours(u)) && old(Home(u.id, {t}));
      }
      StillOrdered(t);
    }

    twostate lemma StillOrdered(t: TaskRef)
      requires old(Ordered(due.items)) && unchanged(due)
      requires forall u: TaskRef | u in multiset(due.items) :: u in old(held) && u != t
      requires forall u: TaskRef | u in old(held) && u != t :: unchanged(u)
      ensures Ordered(due.items)
    {
      forall p, j | 0 <= p < j < |due.items| && p == (j - 1) / 2 ensures NoLater(due.items, p, j) {
        assert old(NoLater(due.items, p, j));
        assert due.items[p] in multiset(due.items) && due.items[j] in multiset(due.items);
      }
    }

    // Once unscheduled, it is in no one's way.
    lemma Settled(t: TaskRef, moving: set<TaskRef>)
      requires LinkedBut(moving) && Ours(t) && !t.state.Scheduled()
      ensures LinkedBut(moving - {t}) && (moving == {t} ==> Linked())
    {
      forall id | id in tasks ensures Home(id, moving - {t}) {
        assert Home(id, moving);
      }
      assert moving == {t} ==> moving - {t} == {};
    }

    // ---- Operations, each first on memory and journal ----

    // Filing a new object disturbs nothing already filed.
    twostate lemma NewlyFiled(t: TaskRef)
      requires old(Linked()) && t !in old(held) && t.id !in old(tasks)
      requires tasks == old(tasks)[t.id := t] && held == old(held) + {t} && values == old(values)[t.id := t.Value()]
      requires unchanged(due) && forall u: TaskRef | u in old(held) :: unchanged(u)
      ensures LinkedBut({t})
    {
      forall u: TaskRef | u in multiset(due.items) ensures Ours(u) && u in old(held) {
        assert old(Ours(u)) && old(Home(u.id, {}));
      }
      forall id | id in tasks ensures Home(id, {t}) {
        assert id in old(tasks) ==> old(Home(id, {}));
      }
      forall p, j | 0 <= p < j < |due.items| && p == (j - 1) / 2 ensures NoLater(due.items, p, j) {
        assert old(NoLater(due.items, p, j));
        assert due.items[p] in multiset(due.items) && due.items[j] in multiset(due.items);
      }
    }

    // Files a new task, its key and its weight; the heap is still to follow.
    method File(t: TaskRef)
      requires Linked() && t !in held && t.id !in tasks && t.attempts == 0 && t.deadReason == ""
      modifies this`tasks, this`held, this`values, this`idem, this`active, t
      ensures LinkedBut({t}) && Ours(t) && t.state.Pending?
      ensures values == old(values)[t.id := Fresh(old(t.SpecOf()), old(t.createdAt))]
      ensures idem == old(idem)[t.idemKey := t.id] && active == old(active) + 1
      ensures tasks == old(tasks)[t.id := t] && held == old(held) + {t}
      ensures t.attempts == 0 && t.nextAt == t.createdAt == old(t.createdAt) && t.target == old(t.target)
    {
      t.Enter();
      tasks, idem, active := tasks[t.id := t], idem[t.idemKey := t.id], active + 1;
      held, values := held + {t}, values[t.id := t.Value()];
      NewlyFiled(t);
    }

    method Insert(t: TaskRef)
      requires Linked() && t !in held && t.id !in tasks && t.attempts == 0 && t.deadReason == ""
      modifies this`tasks, this`held, this`values, this`dueIds, this`idem, this`active, this`wake, due, t
      ensures Linked() && MemOf() == Submitted(old(MemOf()), old(t.SpecOf()))
      ensures tasks == old(tasks)[t.id := t] && held == old(held) + {t}
      ensures t.state.Pending? && t.attempts == 0 && t.nextAt == t.createdAt == old(t.createdAt)
              && t.target == old(t.target)
    {
      File(t);
      Enqueue(t);
    }

    /** Accepts a task, or answers with the one its key already leads to, or refuses it: on disk first, in memory after.
        `fault` is a log that refuses the record, and then nothing changes in memory. */
    method Submit(t: TaskRef, now: int, fault: Fault) returns (r: SubmitResult)
      requires Valid() && t !in held
      requires t.idemKey != "" && t.id !in tasks && t.id !in Fold(store.journal).tasks
      requires t.attempts == 0 && t.deadReason == ""
      modifies this`tasks, this`held, this`values, this`dueIds, this`idem, this`active, this`wake, due, t, store,
               store.disk
      ensures Valid()
      ensures r.Duplicate? <==> t.idemKey in old(idem)
      ensures r.Duplicate? ==> t.idemKey in idem && idem[t.idemKey] in tasks && r.existing == tasks[idem[t.idemKey]]
                               && r.existing.idemKey == t.idemKey
      ensures r.Full? <==> t.idemKey !in old(idem) && old(active) >= cfg.queueMax
      ensures r.StoreFailed? <==> t.idemKey !in old(idem) && old(active) < cfg.queueMax && !fault.NoFault?
      ensures !r.Accepted? ==> tasks == old(tasks) && MemOf() == old(MemOf())
      ensures !r.Accepted? ==> SysOf() == if r.StoreFailed? && fault.SyncFails? then
                                            LeftBehind(old(SysOf()), old(t.SpecOf()), now)
                                          else old(SysOf())
      ensures r.Accepted? ==> Leads(cfg, old(SysOf()), System.Submit(old(t.SpecOf()), now), SysOf())
                              && tasks == old(tasks)[t.id := t]
      ensures r.Accepted? ==> t.state.Pending? && t.attempts == 0 && t.nextAt == t.createdAt == old(t.createdAt)
                              && t.target == old(t.target) && t.id in dueIds && wake && active == old(active) + 1
    {
      if t.idemKey in idem {
        assert idem[t.idemKey] in MemOf().tasks;
        assert Home(idem[t.idemKey], {});
        return Duplicate(tasks[idem[t.idemKey]]);
      }
      if active >= cfg.queueMax {
        return Full;
      }
      ghost var s, spec := SysOf(), t.SpecOf();
      assert t.id !in values;
      var logged := store.AppendEnqueue(t.SpecOf(), now, fault);
      if !logged {
        return StoreFailed;
      }
      Insert(t);
      IsSubmit(cfg, s, SysOf(), spec, now);
      r := Accepted;
    }

    // The head of the heap stands for the least due time of all scheduled tasks.
    lemma FirstIsLeast()
      requires Linked() && dueIds == ScheduledIds(values) && due.items != []
      ensures due.items[0].id in dueIds && dueIds <= values.Keys
      ensures values[due.items[0].id].nextAt == due.items[0].nextAt
      ensures forall id | id in dueIds :: due.items[0].nextAt <= values[id].nextAt
    {
      InHeap(due.items[0]);
      assert Home(due.items[0].id, {});
      forall id | id in dueIds ensures due.items[0].nextAt <= values[id].nextAt {
        assert Home(id, {});
        InHeap(tasks[id]);
        var k :| 0 <= k < |due.items| && due.items[k] == tasks[id];
        RootIsLeast(due.items, k);
      }
    }

    lemma HeapIsEmpty()
      requires Linked() && dueIds == ScheduledIds(values)
      ensures due.items == [] ==> dueIds == {}
    {
      if id :| id in dueIds {
        assert Home(id, {});
        InHeap(tasks[id]);
      }
    }

    method LeaseTask(t: TaskRef, now: int)
      requires LinkedBut({t}) && Ours(t)
      modifies this`values, t
      ensures Linked() && OnLoan(t) && t.id in old(values)
      ensures values == old(values)[t.id := old(values)[t.id].Leased(now)]
      ensures t.JustLeased(now)
    {
      assert Home(t.id, {t});
      t.Lease(now);
      values := values[t.id := t.Value()];
      OffHeapChange(t);
      Settled(t, {t});
    }

    method TakeFirst(now: int) returns (t: TaskRef)
      requires Linked() && due.items != []
      modifies this`dueIds, this`values, due, held
      ensures Linked() && OnLoan(t) && t == old(due.items[0]) && t.id in old(values)
      ensures t.updatedAt == now && t.nextAt == old(due.items[0].nextAt) && t.id !in dueIds
      ensures MemOf() == Leased(old(MemOf()), t.id, now)
    {
      t := Dequeue();
      assert Home(t.id, {t});
      LeaseTask(t, now);
    }

    // A task a worker or the dispatcher holds: leased, and so neither in the heap nor finished.
    ghost predicate OnLoan(t: TaskRef)
      reads this`tasks, t
    {
      Ours(t) && t.state.Sending?
    }

    // Hands out the head of the heap.
    method LeaseFirst(now: int) returns (t: TaskRef)
      requires Valid() && due.items != [] && due.items[0].nextAt <= now
      modifies this`dueIds, this`values, due, held
      ensures Valid() && OnLoan(t) && Leads(cfg, old(SysOf()), System.Lease(t.id, now), SysOf())
      ensures t.state.Sending? && t.updatedAt == now && t.nextAt <= now && t.id in old(dueIds) - dueIds
      ensures forall id | id in old(dueIds) :: id in old(values) && t.nextAt <= old(values)[id].nextAt
    {
      ghost var s := SysOf();
      FirstIsLeast();
      t := TakeFirst(now);
      IsLease(cfg, s, SysOf(), t.id, now);
    }

    /** Hands out a task due soonest, if one is due at all, and the due time of the next one, 0 if there is none. */
    method Lease(now: int) returns (t: TaskRef?, next: int)
      requires Valid()
      modifies this`dueIds, this`values, due, held
      ensures Valid()
      ensures t == null ==> SysOf() == old(SysOf()) && (dueIds == {} || next > now)
      ensures IsNext(MemOf(), next) && (dueIds == {} ==> next == 0)
      ensures t != null ==> OnLoan(t) && Leads(cfg, old(SysOf()), System.Lease(t.id, now), SysOf())
      ensures t != null ==> t.state.Sending? && t.updatedAt == now && t.nextAt <= now && t.id in old(dueIds) - dueIds
      ensures t != null ==> forall id | id in old(dueIds) :: id in old(values) && t.nextAt <= old(values)[id].nextAt
    {
      t, next := null, 0;
      if |due.items| == 0 {
        HeapIsEmpty();
        return;
      }
      if due.items[0].nextAt > now {
        FirstIsLeast();
        next := due.items[0].nextAt;
        return;
      }
      t := LeaseFirst(now);
      if |due.items| > 0 {
        FirstIsLeast();
        next := due.items[0].nextAt;
      } else {
        HeapIsEmpty();
      }
    }

    // Each outcome changes the task first, is journaled next, and puts the task back into the heap last.

    method RetryTask(t: TaskRef, nextAt: int, now: int)
      requires Linked() && OnLoan(t)
      modifies this`values, t
      ensures LinkedBut({t}) && Ours(t) && t.state.Waiting? && t.id in old(values) && old(values[t.id].state.Sending?)
      ensures values == old(values)[t.id := old(values)[t.id].Retried(nextAt, now)]
      ensures t.attempts == old(values)[t.id].attempts + 1
      ensures t.JustRetried(nextAt, now)
    {
      assert Home(t.id, {});
      Unheaped(t);
      t.Retry(nextAt, now);
      values := values[t.id := t.Value()];
      OffHeapChange(t);
    }

    method LogRetry(t: TaskRef, nextAt: int, now: int)
      requires Linked() && store.Valid() && OnLoan(t)
      modifies this`wake, this`dueIds, this`values, due, t, store, store.disk
      ensures Linked() && store.Valid() && RetryRecorded(old(SysOf()), SysOf(), t.id, nextAt, now)
      ensures t.JustRetried(nextAt, now)
    {
      ghost var s := SysOf();
      RetryTask(t, nextAt, now);
      store.AppendAttempt(t.id, t.attempts, nextAt, now);
      ghost var n, s1 := t.attempts, SysOf();
      Enqueue(t);
      RetryPosted(s, s1, SysOf(), t.id, n, nextAt, now);
    }

    /** Records a failure and schedules the next attempt. */
    method OnRetry(t: TaskRef, nextAt: int, now: int)
      requires Valid() && OnLoan(t)
      modifies this`wake, this`dueIds, this`values, due, t, store, store.disk
      ensures Valid()
      ensures Leads(cfg, old(SysOf()), System.Retry(t.id, nextAt, now), SysOf())
      ensures t.JustRetried(nextAt, now) && t.id in dueIds && wake
    {
      ghost var s := SysOf();
      LogRetry(t, nextAt, now);
      IsRetry(cfg, s, SysOf(), t.id, nextAt, now);
    }

    method SucceedTask(t: TaskRef, now: int)
      requires Linked() && OnLoan(t)
      modifies this`values, this`active, this`unstripped, t
      ensures Linked() && t.id in old(values) && old(values[t.id].state.Sending?)
      ensures values == old(values)[t.id := old(values)[t.id].Delivered(now)]
      ensures active == old(active) - 1 && unstripped == old(unstripped) + 1
      ensures t.attempts == old(values)[t.id].attempts + 1
      ensures t.JustSucceeded(now)
    {
      assert Home(t.id, {});
      Unheaped(t);
      t.Succeed(now);
      values := values[t.id := t.Value()];
      OffHeapChange(t);
      Settled(t, {t});
      active, unstripped := active - 1, unstripped + 1;
    }

    method LogSuccess(t: TaskRef, now: int)
      requires Linked() && store.Valid() && OnLoan(t)
      modifies this`values, this`active, this`unstripped, t, store, store.disk
      ensures Linked() && store.Valid() && SuccessRecorded(old(SysOf()), SysOf(), t.id, now)
      ensures t.JustSucceeded(now)
    {
      ghost var s := SysOf();
      SucceedTask(t, now);
      store.AppendDone(t.id, t.attempts, now);
      SuccessPosted(s, SysOf(), t.id, t.attempts, now);
    }

    /** Finishes a task as delivered and strips its request of credentials. */
    method OnSuccess(t: TaskRef, now: int)
      requires Valid() && OnLoan(t)
      modifies this`values, this`active, this`unstripped, t, store, store.disk
      ensures Valid()
      ensures Leads(cfg, old(SysOf()), System.Succeed(t.id, now), SysOf())
      ensures t.JustSucceeded(now) && active == old(active) - 1 && unstripped == old(unstripped) + 1
    {
      ghost var s := SysOf();
      LogSuccess(t, now);
      IsSucceed(cfg, s, SysOf(), t.id, now);
    }

    method BuryTask(t: TaskRef, why: string, now: int)
      requires Linked() && OnLoan(t)
      modifies this`values, this`active, t
      ensures Linked() && t.id in old(values) && old(values[t.id].state.Sending?)
      ensures values == old(values)[t.id := old(values)[t.id].Buried(why, now)] && active == old(active) - 1
      ensures t.attempts == old(values)[t.id].attempts + 1
      ensures t.JustBuried(why, now)
    {
      assert Home(t.id, {});
      Unheaped(t);
      t.Bury(why, now);
      values := values[t.id := t.Value()];
      OffHeapChange(t);
      Settled(t, {t});
      active := active - 1;
    }

    method LogDeath(t: TaskRef, why: string, now: int)
      requires Linked() && store.Valid() && OnLoan(t)
      modifies this`values, this`active, t, store, store.disk
      ensures Linked() && store.Valid() && DeathRecorded(old(SysOf()), SysOf(), t.id, why, now)
      ensures t.JustBuried(why, now)
    {
      BuryTask(t, why, now);
      store.AppendDead(t.id, t.attempts, why, now);
    }

    /** Gives a task up. */
    method OnDead(t: TaskRef, why: string, now: int)
      requires Valid() && OnLoan(t)
      modifies this`values, this`active, t, store, store.disk
      ensures Valid()
      ensures Leads(cfg, old(SysOf()), System.Bury(t.id, why, now), SysOf())
      ensures t.JustBuried(why, now) && active == old(active) - 1 && unstripped == old(unstripped)
    {
      ghost var s := SysOf();
      LogDeath(t, why, now);
      IsBury(cfg, s, SysOf(), t.id, why, now);
    }

    method ReviveTask(t: TaskRef, now: int)
      requires Linked() && Ours(t) && t.state.Dead?
      modifies this`values, this`active, t
      ensures LinkedBut({t}) && Ours(t) && t.state.Pending? && t.id in old(values) && old(values[t.id].state.Dead?)
      ensures values == old(values)[t.id := old(values)[t.id].Revived(now)] && active == old(active) + 1
      ensures t.JustRevived(now)
    {
      assert Home(t.id, {});
      Unheaped(t);
      t.Revive(now);
      values := values[t.id := t.Value()];
      OffHeapChange(t);
      active := active + 1;
    }

    method LogRevival(t: TaskRef, now: int)
      requires Linked() && store.Valid() && Ours(t) && t.state.Dead?
      modifies this`wake, this`dueIds, this`values, this`active, due, t, store, store.disk
      ensures Linked() && store.Valid() && RevivalRecorded(old(SysOf()), SysOf(), t.id, now)
      ensures t.JustRevived(now)
    {
      ghost var s := SysOf();
      ReviveTask(t, now);
      ghost var m := MemOf();
      assert m == s.mem.(tasks := s.mem.tasks[t.id := s.mem.tasks[t.id].Revived(now)], active := s.mem.active + 1);
      store.AppendAttempt(t.id, 0, now, now);
      Enqueue(t);
      assert MemOf() == m.(due := m.due + {t.id}, wake := true) == QueueSpec.Revived(s.mem, t.id, now);
    }

    /** Puts a dead task back to work, from its first attempt and with a new deadline. */
    method Revive(id: string, now: int) returns (r: ReviveResult)
      requires Valid()
      modifies this`wake, this`dueIds, this`values, this`active, due, held, store, store.disk
      ensures Valid()
      ensures r.NotFound? <==> id !in tasks
      ensures r.NotDead? <==> id in old(values) && !old(values)[id].state.Dead?
      ensures r.QueueFull? <==> id in old(values) && old(values)[id].state.Dead? && old(active) >= cfg.queueMax
      ensures !r.Revived? ==> SysOf() == old(SysOf())
      ensures r.Revived? ==> Leads(cfg, old(SysOf()), System.Revive(id, now), SysOf())
      ensures r.Revived? ==> tasks[id].JustRevived(now) && id in dueIds && wake && active == old(active) + 1
    {
      if id !in tasks {
        return NotFound;
      }
      assert Home(id, {});
      var t := tasks[id];
      if !t.state.Dead? {
        return NotDead;
      }
      if active >= cfg.queueMax {
        return QueueFull;
      }
      ghost var s := SysOf();
      LogRevival(t, now);
      IsRevive(cfg, s, SysOf(), id, now);
      r := ReviveResult.Revived;
    }

    method DeferTask(t: TaskRef, nextAt: int)
      requires Linked() && OnLoan(t)
      modifies this`wake, this`dueIds, this`values, due, t
      ensures Linked() && t.id in old(values) && old(values[t.id].state.Sending?)
      ensures old(values)[t.id].nextAt == old(t.nextAt)
      ensures MemOf() == Deferred(old(MemOf()), t.id, nextAt)
      ensures t.JustDeferred(nextAt)
    {
      assert Home(t.id, {});
      Unheaped(t);
      t.Defer(nextAt);
      values := values[t.id := t.Value()];
      OffHeapChange(t);
      Enqueue(t);
    }

    /** Puts a leased task back untried, to be due no earlier than it was; nothing is written. */
    method Defer(t: TaskRef, nextAt: int)
      requires Valid() && OnLoan(t) && t.nextAt <= nextAt
      modifies this`wake, this`dueIds, this`values, due, t
      ensures Valid()
      ensures Leads(cfg, old(SysOf()), System.Defer(t.id, nextAt), SysOf())
      ensures t.JustDeferred(nextAt) && t.id in dueIds && wake && active == old(active)
    {
      ghost var s := SysOf();
      DeferTask(t, nextAt);
      IsDefer(cfg, s, SysOf(), t.id, nextAt);
    }

    /** The dispatcher takes the signal out of its slot. */
    method TakeWake()
      requires Valid() && wake
      modifies this`wake
      ensures Valid() && Leads(cfg, old(SysOf()), System.TakeWake, SysOf())
    {
      wake := false;
    }

    // ---- Upkeep ----

    method Unfile(id: string)
      requires Linked() && id in tasks && !values[id].Live()
      modifies this`tasks, this`values
      ensures Linked() && values == old(values) - {id}
    {
      assert Home(id, {});
      InHeap(tasks[id]);
      tasks := tasks - {id};
      values := values - {id};
      forall i | i in tasks ensures Home(i, {}) {
        assert old(Home(i, {}));
      }
      forall u: TaskRef | u in multiset(due.items) ensures Ours(u) {
        assert old(Ours(u));
      }
    }

    // Removes a finished task, and the index entry of its key if that leads to it.
    method DropLocked(id: string)
      requires Linked() && Indexed(values, idem) && id in tasks && !values[id].Live()
      modifies this`tasks, this`values, this`idem
      ensures Linked() && MemOf() == Dropped(old(MemOf()), {id})
    {
      assert Home(id, {});
      var key := tasks[id].idemKey;
      Unfile(id);
      if key != "" && key in idem && idem[key] == id {
        idem := idem - {key};
      }
      IndexWithout(old(MemOf()), id, idem);
    }

    // Drops one more task of a growing choice.
    method DropNext(id: string, ghost m: Mem, ghost gone: set<string>)
      requires Linked() && MemOk(cfg, m) && MemOf() == Dropped(m, gone)
      requires gone <= FinishedIds(m.tasks) && id in FinishedIds(m.tasks) - gone
      modifies this`tasks, this`values, this`idem
      ensures Linked() && MemOf() == Dropped(m, gone + {id})
    {
      assert id in values;
      DroppedIsOk(cfg, m, gone);
      DropLocked(id);
      DroppedOneMore(m, gone, id);
    }

    method PurgeIfExpired(id: string, now: int, ghost m: Mem, ghost gone: set<string>) returns (dropped: bool)
      requires Linked() && MemOk(cfg, m) && MemOf() == Dropped(m, gone)
      requires gone <= FinishedIds(m.tasks) && id in m.tasks.Keys - gone
      modifies this`tasks, this`values, this`idem
      ensures dropped == Expired(m.tasks[id], now, upkeep.retention, upkeep.deadRetention)
      ensures Linked() && MemOf() == Dropped(m, if dropped then gone + {id} else gone)
    {
      assert id in values && values[id] == m.tasks[id];
      assert Home(id, {});
      dropped := Expired(tasks[id].Value(), now, upkeep.retention, upkeep.deadRetention);
      if dropped {
        DropNext(id, m, gone);
      }
    }

    /** Drops exactly the finished tasks kept past their retention time: a Drop step. */
    method PurgeExpired(now: int) returns (n: nat)
      requires Valid()
      modifies this`tasks, this`values, this`idem
      ensures Valid() && n == |ExpiredIds(old(values), now, upkeep)|
      ensures MemOf() == Dropped(old(MemOf()), ExpiredIds(old(values), now, upkeep))
      ensures Purged(old(values), values, now, upkeep)
      ensures Leads(cfg, old(SysOf()), System.Drop(ExpiredIds(old(values), now, upkeep)), SysOf())
    {
      n := 0;
      var rest := tasks.Keys;
      ghost var s, m, gone: set<string> := SysOf(), MemOf(), {};
      DropNone(m);
      while rest != {}
        invariant Linked() && rest <= m.tasks.Keys && rest !! gone && n == |gone|
        invariant gone <= FinishedIds(m.tasks) && MemOf() == Dropped(m, gone)
        invariant forall id | id in m.tasks && id !in rest ::
                    id in gone <==> Expired(m.tasks[id], now, upkeep.retention, upkeep.deadRetention)
        decreases rest
      {
        var id :| id in rest;
        var dropped := PurgeIfExpired(id, now, m, gone);
        if dropped {
          gone := gone + {id};
          n := n + 1;
        }
        rest := rest - {id};
      }
      assert gone == ExpiredIds(m.tasks, now, upkeep);
      DroppedIsPurged(m, now, upkeep);
      IsDrop(cfg, s, SysOf(), gone);
    }

    // The finished tasks, in no particular order.
    method Finished() returns (found: seq<string>)
      requires Linked()
      ensures multiset(found) == multiset(FinishedIds(values))
    {
      found := [];
      var rest := tasks.Keys;
      ghost var done: set<string> := {};
      while rest != {}
        invariant rest <= tasks.Keys && multiset(found) == multiset(done) && done !! rest && done <= tasks.Keys
        invariant forall id | id in tasks && id !in rest :: id in done <==> !values[id].Live()
        decreases rest
      {
        var id :| id in rest;
        assert Home(id, {});
        if tasks[id].state.Terminal() {
          found := found + [id];
          done := done + {id};
        }
        rest := rest - {id};
      }
      assert done == FinishedIds(values);
    }

    // The first n victims are gone from what `m` held.
    ghost predicate Dropping(victims: seq<string>, n: nat, m: Mem)
      reads this, due, due.items, held
    {
      && Linked() && n <= |victims|
      && MemOk(cfg, m) && multiset(victims) == multiset(FinishedIds(m.tasks))
      && First(victims, n) <= FinishedIds(m.tasks) && |First(victims, n)| == n
      && MemOf() == Dropped(m, First(victims, n))
    }

    method DropVictim(victims: seq<string>, n: nat, ghost m: Mem)
      requires n < |victims| && Dropping(victims, n, m)
      modifies this`tasks, this`values, this`idem
      ensures Dropping(victims, n + 1, m)
    {
      FirstOneMore(victims, FinishedIds(m.tasks), n);
      DropNext(victims[n], m, First(victims, n));
    }

    method DropVictims(victims: seq<string>, over: nat, ghost m: Mem) returns (n: nat)
      requires Dropping(victims, 0, m)
      modifies this`tasks, this`values, this`idem
      ensures n == (if over <= |victims| then over else |victims|) && Dropping(victims, n, m)
    {
      n := 0;
      while n < |victims| && n < over
        invariant n <= |victims| && n <= over && Dropping(victims, n, m)
      {
        DropVictim(victims, n, m);
        n := n + 1;
      }
    }

    // The finished tasks in their turn to go.
    method Victims() returns (victims: seq<string>)
      requires Linked()
      ensures multiset(victims) == multiset(FinishedIds(values)) && Sorted(values, victims)
    {
      var found := Finished();
      forall id | id in found ensures id in tasks && tasks[id].Value() == values[id] {
        assert id in multiset(found);
        assert Home(id, {});
      }
      var seen := map id | id in found :: tasks[id].Value();
      victims := SortedIds(seen, found);
      SortedIdsAreSorted(seen, found);
      forall id | id in victims ensures id in values && seen[id] == values[id] {
        assert id in multiset(victims);
      }
      SortedAsSeen(values, seen, victims);
    }

    method Evict(over: nat) returns (n: nat, ghost gone: set<string>)
      requires Valid()
      modifies this`tasks, this`values, this`idem
      ensures Valid() && n == |gone| && RightlyEvicted(old(values), gone, over)
      ensures MemOf() == Dropped(old(MemOf()), gone) && Leads(cfg, old(SysOf()), System.Drop(gone), SysOf())
    {
      ghost var s, m := SysOf(), MemOf();
      var victims := Victims();
      DropNone(m);
      n := DropVictims(victims, over, m);
      gone := First(victims, n);
      FrontIsRight(m.tasks, victims, n, over);
      IsDrop(cfg, s, SysOf(), gone);
    }

    /** Drops finished tasks in their turn until the total is within its cap, or none are left to drop: a Drop step. */
    method EnforceTaskCap() returns (n: nat, ghost gone: set<string>)
      requires Valid()
      modifies this`tasks, this`values, this`idem
      ensures Valid() && n == |gone| && RightlyCapped(cfg, old(values), gone)
      ensures MemOf() == Dropped(old(MemOf()), gone) && Leads(cfg, old(SysOf()), System.Drop(gone), SysOf())
      ensures |values| == |old(values)| - n && (n > 0 ==> 0 < cfg.tasksMax <= |values|)
    {
      ghost var m := MemOf();
      assert |tasks.Keys| == |values.Keys|;
      if cfg.tasksMax > 0 && |tasks| - cfg.tasksMax > 0 {
        n, gone := Evict(|tasks| - cfg.tasksMax);
      } else {
        n, gone := 0, {};
        DropNone(MemOf());
        IsDrop(cfg, SysOf(), SysOf(), {});
      }
      CappedIsCounted(cfg, m, gone);
    }

    // A snapshot, and the order in which the task map happened to be walked.
    method TakeSnapshot() returns (snapshot: seq<Record>, ghost order: seq<string>)
      requires Linked()
      ensures Visits(order, values.Keys) && snapshot == Snapshot(values, order)
    {
      snapshot, order := [], [];
      var rest := tasks.Keys;
      while rest != {}
        invariant rest <= tasks.Keys && forall id :: id in order <==> id in tasks && id !in rest
        invariant forall i, j | 0 <= i < j < |order| :: order[i] != order[j]
        invariant snapshot == Snapshot(values, order)
        decreases rest
      {
        var id :| id in rest;
        assert Home(id, {});
        assert (order + [id])[..|order|] == order;
        snapshot := snapshot + SnapshotOf(tasks[id].Value());
        order := order + [id];
        rest := rest - {id};
      }
    }

    /** The second part of a compaction, under a lock of its own: puts a snapshot taken at `s0` in place of the journal,
        whatever has happened since.  At every file state on the way a crash leaves the journal as it was or the
        snapshot. */
    method Install(snapshot: seq<Record>, ghost s0: Sys, ghost order: seq<string>)
      requires store.Valid() && Visits(order, s0.mem.tasks.Keys) && snapshot == Snapshot(s0.mem.tasks, order)
      modifies store, store.disk
      ensures store.Valid() && SysOf() == InstalledLate(s0, old(SysOf()), order)
      ensures store.stats.records == |snapshot|
      ensures OldOrNewSince(store.codec, store.disk.trail, |old(store.disk.trail)|,
                            old(store.journal), old(store.durable), snapshot)
    {
      store.Compact(snapshot);
    }

    /** The third part, under a lock of its own again. */
    method ResetCount()
      requires Valid()
      modifies this`unstripped
      ensures Valid() && Leads(cfg, old(SysOf()), System.ResetCount, SysOf())
    {
      unstripped := 0;
    }

    // The first two parts with nothing in between.
    method Rewrite() returns (ghost order: seq<string>)
      requires Valid()
      modifies store, store.disk
      ensures Valid() && Leads(cfg, old(SysOf()), System.Compact(order), SysOf())
      ensures Visits(order, values.Keys) && store.stats.records == |Snapshot(values, order)|
      ensures OldOrNewSince(store.codec, store.disk.trail, |old(store.disk.trail)|,
                            old(store.journal), old(store.durable), Snapshot(values, order))
    {
      ghost var s := SysOf();
      var snapshot;
      snapshot, order := TakeSnapshot();
      Install(snapshot, s, order);
      IsCompact(cfg, s, order);
    }

    /** Rewrites the journal from memory and resets the counter, with nothing in between.  A crash on the way leaves the
        journal as it was, nothing durable missing, or exactly the snapshot. */
    method Compact() returns (ghost order: seq<string>)
      requires Valid()
      modifies this`unstripped, store, store.disk
      ensures Valid() && unstripped == 0 && store.stats.records <= 2 * |values|
      ensures Compacted(cfg, old(SysOf()), order, SysOf()) && Exposed(store.journal) == {}
      ensures OldOrNewSince(store.codec, store.disk.trail, |old(store.disk.trail)|,
                            old(store.journal), old(store.durable), Snapshot(values, order))
    {
      ghost var s := SysOf();
      order := Rewrite();
      ghost var s1 := SysOf();
      CompactionExposesNothing(cfg, s, order);
      ResetCount();
      SnapshotLength(values, order);
      VisitLength(order, values.Keys);
      assert Leads(cfg, s1, System.ResetCount, SysOf());
    }

    /** Compacts exactly when it saves space or too many successes were counted since the last time; otherwise changes
        nothing. */
    method MaybeCompact() returns (compacted: bool, ghost order: seq<string>)
      requires Valid()
      modifies this`unstripped, store, store.disk
      ensures Valid()
      ensures compacted <==>
                Worthwhile(upkeep, old(store.stats.records), old(store.stats.bytes), |values|, old(unstripped))
      ensures Reaches(cfg, old(SysOf()), CompactRun(compacted, order), SysOf())
      ensures upkeep.compactLiveRatio <= 1.0 ==>
                Lean(store.stats.records, store.stats.bytes, |values|, upkeep.compactMinBytes, upkeep.compactLiveRatio)
      ensures upkeep.stripThreshold > 0 && store.journal != [] ==> unstripped < upkeep.stripThreshold
      ensures upkeep.stripThreshold > 0 && Uncounted(old(SysOf())) <= 0 ==>
                |Exposed(store.journal)| < upkeep.stripThreshold
    {
      ghost var s := SysOf();
      ReachesSelf(cfg, s);
      assert store.journal == [] ==> Exposed(store.journal) == {};
      compacted, order := false, [];
      if store.stats.records == 0 {
        return;
      }
      assert |tasks.Keys| == |values.Keys|;
      var spaceWin := store.stats.bytes >= upkeep.compactMinBytes
                      && (2 * |tasks|) as real / store.stats.records as real < upkeep.compactLiveRatio;
      var credsStale := upkeep.stripThreshold > 0 && unstripped >= upkeep.stripThreshold;
      if !spaceWin && !credsStale {
        NotWorthwhileIsLean(store.stats.records, store.stats.bytes, |values|, upkeep.compactMinBytes,
                            upkeep.compactLiveRatio);
        return;
      }
      order := Compact();
      compacted := true;
      ThenCompacted(cfg, s, order, SysOf());
      if upkeep.compactLiveRatio <= 1.0 {
        SnapshotIsLean(store.stats.records, store.stats.bytes, |values|, upkeep.compactMinBytes,
                       upkeep.compactLiveRatio);
      }
    }

    // Expired tasks go first, then what is still too much.
    method Trim(now: int) returns (ghost ops: seq<Op>)
      requires Valid()
      modifies this`tasks, this`values, this`idem
      ensures Valid() && TrimmedTo(cfg, old(values), values)
      ensures Reaches(cfg, old(SysOf()), ops, SysOf()) && |ops| == 2 && ops[0].Drop? && ops[1].Drop?
      ensures Tidies(cfg, upkeep, old(values), ops, now)
    {
      ghost var s, expired := SysOf(), ExpiredIds(values, now, upkeep);
      var purged := PurgeExpired(now);
      ghost var s1 := SysOf();
      var evicted;
      ghost var gone;
      evicted, gone := EnforceTaskCap();
      TrimIsFair(cfg, s.mem, expired, s1.mem, gone);
      TrimTidies(cfg, upkeep, s.mem, now, gone);
      ops := [System.Drop(expired), System.Drop(gone)];
      RunOfTwo(cfg, s, ops[0], s1, ops[1], SysOf());
    }

    /** One round of upkeep, with nothing in between: two Drop steps, then a compaction and its reset or neither.  No
        unfinished task is touched; the total ends within its cap; the journal ends small or not much longer than a
        snapshot, whatever number of retries it had recorded; and if the counter accounted for all delivered requests
        still on disk, they end under their threshold. */
    method Maintain(now: int) returns (ghost ops: seq<Op>)
      requires Valid()
      modifies this`tasks, this`values, this`idem, this`unstripped, store, store.disk
      ensures Valid() && TrimmedTo(cfg, old(values), values)
      ensures Reaches(cfg, old(SysOf()), ops, SysOf()) && IsUpkeep(ops)
      ensures Tidies(cfg, upkeep, old(values), ops, now)
      ensures |ops| == 4 <==>
                Worthwhile(upkeep, old(store.stats.records), old(store.stats.bytes), |values|, old(unstripped))
      ensures upkeep.compactLiveRatio <= 1.0 ==>
                Lean(store.stats.records, store.stats.bytes, |values|, upkeep.compactMinBytes, upkeep.compactLiveRatio)
      ensures upkeep.stripThreshold > 0 && Uncounted(old(SysOf())) <= 0 ==>
                |Exposed(store.journal)| < upkeep.stripThreshold
    {
      ghost var s := SysOf();
      ghost var drops := Trim(now);
      ghost var s1 := SysOf();
      var compacted;
      ghost var order;
      compacted, order := MaybeCompact();
      UpkeepRun(cfg, s, drops, s1, compacted, order, SysOf());
      TidiesStill(cfg, upkeep, s.mem.tasks, drops, CompactRun(compacted, order), now);
      ops := drops + CompactRun(compacted, order);
    }

    // ---- Restart ----

    // One record of the journal taken over, with every scheduled task still to be put into the heap.
    method TakeOver(r: Record)
      requires LinkedBut(held) && due.items == [] && r.Acceptable()
      modifies this`tasks, this`values, this`idem, this`held, held
      ensures LinkedBut(held) && due.items == [] && fresh(held - old(held))
      ensures View(values, idem) == Apply(View(old(values), old(idem)), r)
    {
      match r.kind
      case RecEnqueue => TakeEnqueue(r.task.value, r.ts);
      case RecUnknown(_) =>
      case _ =>
        if r.id in tasks {
          TakeOutcome(r);
        }
    }

    method TakeEnqueue(spec: Spec, ts: int)
      requires LinkedBut(held) && due.items == []
      modifies this`tasks, this`values, this`idem, this`held
      ensures LinkedBut(held) && fresh(held - old(held))
      ensures values == old(values)[spec.id := Fresh(spec, ts)]
      ensures idem == if spec.idemKey != "" then old(idem)[spec.idemKey := spec.id] else old(idem)
    {
      var t := new TaskRef(spec);
      t.Enter();
      t.updatedAt := ts;
      tasks := tasks[t.id := t];
      if t.idemKey != "" {
        idem := idem[t.idemKey := t.id];
      }
      held, values := held + {t}, values[t.id := t.Value()];
      forall id | id in tasks ensures Home(id, held) {
        assert id != t.id ==> old(Home(id, held));
      }
    }

    method TakeOutcome(r: Record)
      requires LinkedBut(held) && due.items == [] && r.id in tasks
      requires r.kind.RecAttempt? || r.kind.RecDone? || r.kind.RecDead?
      modifies this`values, held
      ensures LinkedBut(held)
      ensures r.id in old(values) && values == old(values)[r.id := Advance(old(values)[r.id], r)]
    {
      assert Home(r.id, held);
      var t := tasks[r.id];
      t.Advance(r);
      values := values[t.id := t.Value()];
      forall id | id in tasks ensures Home(id, held) {
        assert old(Home(id, held));
      }
    }

    method LoadAll(records: seq<Record>)
      requires LinkedBut(held) && due.items == [] && values == map[] && idem == map[]
      requires forall i | 0 <= i < |records| :: records[i].Acceptable()
      modifies this`tasks, this`values, this`idem, this`held, held
      ensures LinkedBut(held) && fresh(held - old(held))
      ensures View(values, idem) == Fold(records)
    {
      var i := 0;
      while i < |records|
        invariant 0 <= i <= |records| && LinkedBut(held) && fresh(held - old(held))
        invariant View(values, idem) == Fold(records[..i])
      {
        assert records[..i + 1] == records[..i] + [records[i]];
        FoldSnoc(records[..i], records[i]);
        TakeOver(records[i]);
        i := i + 1;
      }
      assert records[..i] == records;
    }

    // A task made pending again off the heap.
    method MakePending(t: TaskRef, ghost moving: set<TaskRef>)
      requires LinkedBut(moving) && Ours(t) && t in moving && t.id in values && values[t.id].Live()
      modifies this`values, t
      ensures LinkedBut(moving) && Ours(t) && t.state.Pending?
      ensures values == old(values)[t.id := Requeued(old(values)[t.id])]
    {
      assert Home(t.id, moving);
      t.Requeue();
      values := values[t.id := t.Value()];
      forall i | i in tasks ensures Home(i, moving) {
        assert old(Home(i, moving));
      }
      forall u: TaskRef | u in multiset(due.items) ensures Ours(u) && u in held && u != t {
        assert old(Ours(u)) && old(Home(u.id, moving));
      }
      StillOrdered(t);
    }

    method RequeueOne(id: string, ghost moving: set<TaskRef>)
      requires LinkedBut(moving) && id in tasks && tasks[id] in moving && id in values && values[id].Live()
      modifies this`values, this`dueIds, this`active, this`wake, due, held
      ensures LinkedBut(moving - {tasks[id]})
      ensures values == old(values)[id := Requeued(old(values)[id])]
      ensures dueIds == old(dueIds) + {id} && active == old(active) + 1
    {
      assert Home(id, moving);
      var t := tasks[id];
      MakePending(t, moving);
      active := active + 1;
      Enqueue(t, moving);
    }

    // All but `rest` of what replay left in `before` is counted, scheduled and off the list of what is moving.
    ghost predicate Requeueing(before: map<string, Task>, rest: set<string>, moving: set<TaskRef>)
      reads this`tasks, this`held, this`values, this`dueIds, this`active, due, due.items, held
    {
      && rest <= tasks.Keys && before.Keys == tasks.Keys && LinkedBut(moving)
      && (forall id {:trigger tasks[id]} | id in tasks :: tasks[id] in moving <==> id in rest)
      && (forall id | id in before :: values[id] == if id in rest then before[id] else Requeued(before[id]))
      && dueIds == (set id | id in before && id !in rest && before[id].Live()) && active == |dueIds|
    }

    method RequeueNext(id: string, ghost before: map<string, Task>, ghost rest: set<string>, ghost moving: set<TaskRef>)
      requires id in rest && Requeueing(before, rest, moving)
      modifies this`values, this`dueIds, this`active, this`wake, due, held
      ensures Requeueing(before, rest - {id}, moving - {tasks[id]})
    {
      DistinctObjects(moving);
      assert Home(id, moving);
      if tasks[id].state.Terminal() {
        Settled(tasks[id], moving);
      } else {
        RequeueOne(id, moving);
      }
    }

    lemma DistinctObjects(moving: set<TaskRef>)
      requires LinkedBut(moving)
      ensures forall a, b | a in tasks && b in tasks && tasks[a] == tasks[b] :: a == b
    {
      forall id | id in tasks ensures tasks[id].id == id {
        assert Home(id, moving);
      }
    }

    // Counts and schedules what is not finished.
    method RequeueAll()
      requires LinkedBut(held) && dueIds == {} && active == 0
      modifies this`values, this`dueIds, this`active, this`wake, due, held
      ensures Linked() && values == Restored(View(old(values), idem)).tasks
      ensures dueIds == LiveIds(old(values)) && active == |dueIds|
    {
      var rest := tasks.Keys;
      ghost var before, moving := values, held;
      AllMoving();
      while rest != {}
        invariant Requeueing(before, rest, moving)
        decreases rest
      {
        var id :| id in rest;
        RequeueNext(id, before, rest, moving);
        moving := moving - {tasks[id]};
        rest := rest - {id};
      }
      NoneMoving(moving);
      assert dueIds == LiveIds(before);
    }

    lemma AllMoving()
      requires LinkedBut(held) && dueIds == {} && active == 0
      ensures Requeueing(values, tasks.Keys, held)
    {
      forall id | id in tasks ensures tasks[id] in held {
        assert Home(id, held);
      }
    }

    lemma NoneMoving(moving: set<TaskRef>)
      requires LinkedBut(moving) && forall id | id in tasks :: tasks[id] !in moving
      ensures Linked()
    {
      forall id | id in tasks ensures Home(id, {}) {
        assert Home(id, moving);
      }
    }

    // Memory as the records leave it.
    method Rebuild(records: seq<Record>)
      requires Linked() && values == map[] && idem == map[] && due.items == [] && dueIds == {} && active == 0
               && unstripped == 0
      requires held == {} && forall i | 0 <= i < |records| :: records[i].Acceptable()
      modifies this, due
      ensures Linked() && MemOf() == Restored(Fold(records))
    {
      LoadAll(records);
      RequeueAll();
      wake := true;
    }

    /** Rebuilds memory from the journal.  It fails exactly on a journal with an enqueue record that carries no task. */
    method Restore() returns (ok: bool)
      requires store.Opened() && Linked() && MemOf() == Mem(map[], map[], {}, 0, 0, false) && held == {}
               && due.items == []
      modifies this, due, store`buffer, store`dirty, store`durable, store`stats, store.disk
      ensures ok <==> forall i | 0 <= i < |store.journal| :: store.journal[i].Acceptable()
      ensures ok ==> Linked() && store.Valid() && old(store.durable) <= store.durable
      ensures ok ==> MemOf() == Restored(Fold(store.journal)) && wake && unstripped == 0
      ensures ok && ViewOk(cfg, Fold(store.journal)) ==> Valid()
    {
      var records;
      ok, records := store.Replay();
      if ok {
        Rebuild(records);
        if ViewOk(cfg, Fold(store.journal)) {
          RestoredOk(cfg, Fold(store.journal));
        }
      }
    }
  }

  lemma SortedAsSeen(tasks: map<string, Task>, seen: map<string, Task>, ids: seq<string>)
    requires Sorted(seen, ids) && forall id | id in ids :: id in tasks && seen[id] == tasks[id]
    ensures Sorted(tasks, ids)
  {}
}
