/** Task objects and the binary heap of those that are scheduled. */
module DueHeap {
  import opened Model
  import Replay
  import QueueSpec

  /** A task as the queue shares it: the map, the heap and a worker all hold the same object, updated in place. */
  class TaskRef {
    const id: string
    const idemKey: string
    const policy: Policy
    const keyID: string
    var target: Target
    var createdAt: int
    var state: State
    var attempts: int
    var nextAt: int
    var updatedAt: int
    var deadReason: string

    constructor (spec: Spec)
      ensures SpecOf() == spec && attempts == 0 && deadReason == ""
    {
      id, idemKey, policy, keyID := spec.id, spec.idemKey, spec.policy, spec.keyID;
      target, createdAt := spec.target, spec.createdAt;
      state, attempts, nextAt, updatedAt, deadReason := Pending, 0, 0, 0, "";
    }

    function SpecOf(): Spec
      reads this
    {
      Spec(id, idemKey, target, policy, createdAt, keyID)
    }

    function Value(): Task
      reads this
    {
      Task(SpecOf(), state, attempts, nextAt, updatedAt, deadReason)
    }

    method Enter()
      modifies this`state, this`nextAt, this`updatedAt
      ensures state.Pending? && nextAt == updatedAt == createdAt
      ensures Value() == old(Value()).(state := Pending, nextAt := old(createdAt), updatedAt := old(createdAt))
    {
      state := Pending;
      nextAt := createdAt;
      updatedAt := createdAt;
    }

    // Of its request, a delivered task keeps where it went.
    twostate predicate OnlyAddressKept()
      reads this
    {
      && target.url == old(target.url) && target.verb == old(target.verb)
      && target.headers == map[] && target.body == "" && target.bodyEncoding == ""
    }

    // What has just been done to the task, field by field.
    twostate predicate JustLeased(now: int)
      reads this
    {
      && state.Sending? && updatedAt == now
      && attempts == old(attempts) && nextAt == old(nextAt) && createdAt == old(createdAt) && target == old(target)
    }

    twostate predicate JustRetried(at: int, now: int)
      reads this
    {
      && state.Waiting? && attempts == old(attempts) + 1 && nextAt == at && updatedAt == now
      && createdAt == old(createdAt) && target == old(target)
    }

    twostate predicate JustSucceeded(now: int)
      reads this
    {
      && state.Succeeded? && attempts == old(attempts) + 1 && updatedAt == now && OnlyAddressKept()
      && createdAt == old(createdAt)
    }

    twostate predicate JustBuried(why: string, now: int)
      reads this
    {
      && state.Dead? && attempts == old(attempts) + 1 && deadReason == why && updatedAt == now
      && createdAt == old(createdAt) && target == old(target)
    }

    twostate predicate JustRevived(now: int)
      reads this
    {
      && state.Pending? && attempts == 0 && deadReason == "" && nextAt == updatedAt == createdAt == now
      && target == old(target)
    }

    twostate predicate JustDeferred(at: int)
      reads this
    {
      && state.Pending? && nextAt == at && attempts == old(attempts) && updatedAt == old(updatedAt)
      && createdAt == old(createdAt) && target == old(target)
    }

    // Takes over an outcome read back from the journal.
    method Advance(r: Record)
      requires r.kind.RecAttempt? || r.kind.RecDone? || r.kind.RecDead?
      modifies this`attempts, this`updatedAt, this`nextAt, this`state, this`target, this`deadReason
      ensures attempts == r.n && updatedAt == r.ts
      ensures nextAt == (if r.kind.RecAttempt? then r.nextAt else old(nextAt))
      ensures state == if r.kind.RecAttempt? then Waiting else if r.kind.RecDone? then Succeeded else Dead
      ensures if r.kind.RecDone? then OnlyAddressKept() else target == old(target)
      ensures deadReason == if r.kind.RecDead? then r.why else old(deadReason)
      ensures Value() == Replay.Advance(old(Value()), r)
    {
      attempts := r.n;
      updatedAt := r.ts;
      match r.kind
      case RecAttempt =>
        nextAt := r.nextAt;
        state := Waiting;
      case RecDone =>
        state := Succeeded;
        target := Target(target.url, target.verb, map[], "", "");
      case RecDead =>
        deadReason := r.why;
        state := Dead;
    }

    // After a restart, a task not finished is pending, whatever it was.
    method Requeue()
      modifies this`state
      ensures state == if old(state).Terminal() then old(state) else Pending
      ensures Value() == QueueSpec.Requeued(old(Value()))
    {
      if !state.Terminal() {
        state := Pending;
      }
    }

    method Lease(now: int)
      modifies this`state, this`updatedAt
      ensures JustLeased(now)
      ensures Value() == old(Value()).Leased(now)
    {
      state := Sending;
      updatedAt := now;
    }

    method Retry(at: int, now: int)
      modifies this`attempts, this`nextAt, this`state, this`updatedAt
      ensures JustRetried(at, now)
      ensures Value() == old(Value()).Retried(at, now)
    {
      attempts := attempts + 1;
      nextAt := at;
      state := Waiting;
      updatedAt := now;
    }

    method Succeed(now: int)
      modifies this`attempts, this`state, this`updatedAt, this`target
      ensures JustSucceeded(now)
      ensures Value() == old(Value()).Delivered(now)
    {
      attempts := attempts + 1;
      state := Succeeded;
      updatedAt := now;
      target := Target(target.url, target.verb, map[], "", "");
    }

    method Bury(why: string, now: int)
      modifies this`attempts, this`deadReason, this`state, this`updatedAt
      ensures JustBuried(why, now)
      ensures Value() == old(Value()).Buried(why, now)
    {
      attempts := attempts + 1;
      deadReason := why;
      state := Dead;
      updatedAt := now;
    }

    method Revive(now: int)
      modifies this`attempts, this`deadReason, this`state, this`nextAt, this`updatedAt, this`createdAt
      ensures JustRevived(now)
      ensures Value() == old(Value()).Revived(now)
    {
      attempts := 0;
      deadReason := "";
      state := Pending;
      nextAt := now;
      updatedAt := now;
      createdAt := now;
    }

    method Defer(at: int)
      modifies this`state, this`nextAt
      ensures JustDeferred(at)
      ensures Value() == old(Value()).Deferred(at)
    {
      state := Pending;
      nextAt := at;
    }
  }

  // Task p is due no later than task j.
  ghost predicate NoLater(items: seq<TaskRef>, p: int, j: int)
    requires 0 <= p < |items| && 0 <= j < |items|
    reads items
  {
    items[p].nextAt <= items[j].nextAt
  }

  // No task is due before its parent, position `hole` and the children of `gap` aside.
  ghost predicate OrderedBut(items: seq<TaskRef>, hole: int, gap: int)
    reads items
  {
    forall p, j | 0 <= p < j < |items| && p == (j - 1) / 2 && j != hole && p != gap :: NoLater(items, p, j)
  }

  ghost predicate Ordered(items: seq<TaskRef>)
    reads items
  {
    OrderedBut(items, -1, -1)
  }

  // Around position i, its parent is due no later than its children, so that i can be exchanged with either neighbour.
  ghost predicate Bridged(items: seq<TaskRef>, i: int)
    reads items
  {
    forall p, j | 0 <= p < i < j < |items| && p == (i - 1) / 2 && i == (j - 1) / 2 :: NoLater(items, p, j)
  }

  /** The root of an ordered heap is due no later than any other task in it. */
  lemma {:induction false} RootIsLeast(items: seq<TaskRef>, k: nat)
    requires Ordered(items) && k < |items|
    ensures items[0].nextAt <= items[k].nextAt
  {
    if k == 0 {
    } else {
      RootIsLeast(items, (k - 1) / 2);
      assert NoLater(items, (k - 1) / 2, k);
    }
  }

  class Heap {
    var items: seq<TaskRef>

    constructor ()
      ensures items == []
    {
      items := [];
    }

    method Swap(i: nat, j: nat)
      requires i < |items| && j < |items|
      modifies this
      ensures items == old(items)[i := old(items)[j]][j := old(items)[i]]
      ensures multiset(items) == multiset(old(items))
    {
      items := items[i := items[j]][j := items[i]];
    }

    method Up(start: nat)
      requires start < |items| && OrderedBut(items, start, -1) && Bridged(items, start)
      modifies this
      ensures Ordered(items) && multiset(items) == multiset(old(items))
    {
      var j := start;
      while true
        invariant 0 <= j < |items| && multiset(items) == multiset(old(items))
        invariant OrderedBut(items, j, -1) && Bridged(items, j)
        decreases j
      {
        var i := if j == 0 then 0 else (j - 1) / 2;
        if i == j || !(items[j].nextAt < items[i].nextAt) {
          break;
        }
        ghost var was := items;
        Swap(i, j);
        RaisedStaysOrdered(was, items, i, j);
        j := i;
      }
    }

    // Sifts position `start` down among the first n items.
    method Down(start: nat, n: nat)
      requires start < n == |items|
      requires OrderedBut(items, -1, start) && Bridged(items, start)
      modifies this
      ensures Ordered(items) && multiset(items) == multiset(old(items))
    {
      var i := start;
      while true
        invariant 0 <= i < n == |items| && multiset(items) == multiset(old(items))
        invariant OrderedBut(items, -1, i) && Bridged(items, i)
        decreases n - i
      {
        var j1 := 2 * i + 1;
        if j1 >= n {
          break;
        }
        var j := j1;
        if j1 + 1 < n && items[j1 + 1].nextAt < items[j1].nextAt {
          j := j1 + 1;
        }
        if !(items[j].nextAt < items[i].nextAt) {
          break;
        }
        ghost var was := items;
        Swap(i, j);
        SunkStaysOrdered(was, items, i, j);
        i := j;
      }
    }

    method Push(t: TaskRef)
      requires Ordered(items)
      modifies this
      ensures Ordered(items) && multiset(items) == multiset(old(items)) + multiset{t}
    {
      ghost var was := items;
      items := items + [t];
      forall p, j | 0 <= p < j < |items| && p == (j - 1) / 2 && j != |was| ensures NoLater(items, p, j) {
        assert NoLater(was, p, j);
      }
      Up(|items| - 1);
    }

    /** Removes the root, a task due no later than any that stays. */
    method Pop() returns (t: TaskRef)
      requires items != [] && Ordered(items)
      modifies this
      ensures t == old(items)[0]
      ensures Ordered(items) && multiset(items) == multiset(old(items)) - multiset{t}
    {
      var n := |items| - 1;
      ghost var was := items;
      Swap(0, n);
      assert items == items[..n] + [items[n]];
      t := items[n];
      items := items[..n];
      if n > 0 {
        forall p, j | 0 <= p < j < n && p == (j - 1) / 2 && p != 0 ensures NoLater(items, p, j) {
          assert NoLater(was, p, j);
        }
        Down(0, n);
      }
    }
  }

  // Exchanging a task with a later parent moves the one misplaced position up to the parent.
  lemma RaisedStaysOrdered(was: seq<TaskRef>, items: seq<TaskRef>, i: nat, j: nat)
    requires 1 <= j < |was| && i == (j - 1) / 2 && items == was[i := was[j]][j := was[i]]
    requires OrderedBut(was, j, -1) && Bridged(was, j) && was[j].nextAt < was[i].nextAt
    ensures OrderedBut(items, i, -1) && Bridged(items, i)
  {
    forall p, k | 0 <= p < k < |items| && p == (k - 1) / 2 && k != i ensures NoLater(items, p, k) {
      assert k != j ==> NoLater(was, p, k);
      assert p == j ==> NoLater(was, i, k);
    }
    forall p, k | 0 <= p < i < k < |items| && p == (i - 1) / 2 && i == (k - 1) / 2 ensures NoLater(items, p, k) {
      assert NoLater(was, p, i);
      assert k != j ==> NoLater(was, i, k);
    }
  }

  // Exchanging a task with its earlier, lesser child moves the one misplaced position down to the child.
  lemma SunkStaysOrdered(was: seq<TaskRef>, items: seq<TaskRef>, i: nat, j: nat)
    requires i < j < |was| && i == (j - 1) / 2 && items == was[i := was[j]][j := was[i]]
    requires OrderedBut(was, -1, i) && Bridged(was, i) && was[j].nextAt < was[i].nextAt
    requires forall k | i < k < |was| && i == (k - 1) / 2 :: NoLater(was, j, k)
    ensures OrderedBut(items, -1, j) && Bridged(items, j)
  {
    forall p, k | 0 <= p < k < |items| && p == (k - 1) / 2 && p != j ensures NoLater(items, p, k) {
      assert p != i ==> NoLater(was, p, k);
      assert p == i ==> NoLater(was, j, k);
      assert k == i ==> NoLater(was, p, j);
    }
    forall p, k | 0 <= p < j < k < |items| && p == (j - 1) / 2 && j == (k - 1) / 2 ensures NoLater(items, p, k) {
      assert NoLater(was, j, k);
    }
  }
}
