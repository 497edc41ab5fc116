/** How many requests a task can cause: the accounting of deliveries through retries, revivals and crashes. */
module Delivery {
  import opened Model
  import opened Replay
  import opened QueueSpec
  import opened Simulation
  import opened System
  import opened Backoff

  // The limits a delivery consults: those of the task's policy where it sets one, the service defaults otherwise.
  datatype Limits = Limits(queue: Config, maxAttempts: int, deadline: int) {
    ghost predicate Ok() { maxAttempts >= 1 && queue.queueMax >= 0 }

    function MaxFor(p: Policy): int { if p.maxAttempts > 0 then p.maxAttempts else maxAttempts }

    // Milliseconds after its creation at which a task is given up.
    function DeadlineFor(p: Policy): int {
      Quot(if p.deadlineMS > 0 then Wrap(p.deadlineMS * MILLISECOND) else deadline, MILLISECOND)
    }
  }

  // `log` lists the attempt numbers sent for each task since it was submitted or last revived; `extra` is what
  // crashes have cost it since then, and `struck` how many they were; `began` is when that was, and `clock` the last
  // time read on its account; `sent` holds the tasks whose request is out and whose outcome is not recorded.
  datatype World = World(sys: Sys, log: map<string, seq<int>>, extra: map<string, int>, struck: map<string, nat>,
                         began: map<string, int>, clock: map<string, int>, sent: set<string>, crashes: nat)

  const START := World(INITIAL, map[], map[], map[], map[], map[], {}, 0)

  // Milliseconds: no retry is due sooner after the failure.
  const LEAST_WAIT: int := 100

  // Operations that read the clock on account of a task.  These readings come one after the other, restarts included.
  predicate Reads(op: Op) { op.Lease? || op.Retry? || op.Succeed? || op.Bury? || op.Revive? }

  predicate InTime(w: World, op: Op) { Reads(op) && op.id in w.clock ==> w.clock[op.id] <= op.now }

  function Ticked(clock: map<string, int>, op: Op): map<string, int> {
    if op.Submit? then clock[op.spec.id := op.spec.createdAt] else if Reads(op) then clock[op.id := op.now] else clock
  }

  datatype Event = Send(id: string) | Do(op: Op)

  // The outcome records of a task in a stretch of journal, those before its last revival apart.
  function Outcomes(rs: seq<Record>, id: string): nat {
    if rs == [] then 0
    else
      var last, before := rs[|rs| - 1], Outcomes(rs[..|rs| - 1], id);
      if last.id != id then before
      else if IsOutcome(last) then before + 1
      else if last.kind.RecAttempt? then 0
      else before
  }

  predicate IsOutcome(r: Record) { r.Terminal() || (r.kind.RecAttempt? && r.n > 0) }

  ghost predicate Possible(l: Limits, w: World, e: Event) {
    var m := w.sys.mem;
    match e
    case Send(id) => id in m.tasks && m.tasks[id].state.Sending? && id !in w.sent && id in w.log
    case Do(op) =>
      && Enabled(l.queue, w.sys, op) && InTime(w, op)
      && (op.Submit? ==> op.spec.id !in w.log)
      && (op.Retry? ==>
            && op.id in w.sent && op.now + LEAST_WAIT <= op.nextAt
            && m.tasks[op.id].attempts + 1 < l.MaxFor(m.tasks[op.id].spec.policy)
            && op.nextAt < m.tasks[op.id].spec.createdAt + l.DeadlineFor(m.tasks[op.id].spec.policy))
      && (op.Succeed? ==> op.id in w.sent)
      && (op.Defer? ==> op.id !in w.sent)
  }

  ghost function Happen(l: Limits, w: World, e: Event): World
    requires Possible(l, w, e)
  {
    match e
    case Send(id) =>
      w.(log := w.log[id := w.log[id] + [w.sys.mem.tasks[id].attempts + 1]], sent := w.sent + {id})
    case Do(op) =>
      var w' := w.(sys := Next(l.queue, w.sys, op), clock := Ticked(w.clock, op));
      match op
      case Submit(spec, _) =>
        w'.(log := w.log[spec.id := []], extra := w.extra[spec.id := 0], struck := w.struck[spec.id := 0],
            began := w.began[spec.id := spec.createdAt])
      case Revive(id, now) =>
        w'.(log := w.log[id := []], extra := w.extra[id := 0], struck := w.struck[id := 0], began := w.began[id := now])
      case Retry(id, _, _) => w'.(sent := w.sent - {id})
      case Succeed(id, _) => w'.(sent := w.sent - {id})
      case Bury(id, _, _) => w'.(sent := w.sent - {id})
      case Crash(kept, _) =>
        w'.(extra := map id | id in w.extra :: w.extra[id] + Outcomes(w.sys.disk[kept..], id) + InFlight(w, id),
            struck := map id | id in w.struck :: w.struck[id] + 1, sent := {}, crashes := w.crashes + 1)
      case _ => w'
  }

  function InFlight(w: World, id: string): nat { if id in w.sent then 1 else 0 }

  ghost predicate Plausible(l: Limits, w: World, events: seq<Event>)
    decreases |events|, 0
  {
    events == [] || (Plausible(l, w, events[..|events| - 1])
                     && Possible(l, Replayed(l, w, events[..|events| - 1]), events[|events| - 1]))
  }

  ghost function Replayed(l: Limits, w: World, events: seq<Event>): World
    requires Plausible(l, w, events)
    decreases |events|, 1
  {
    if events == [] then w else Happen(l, Replayed(l, w, events[..|events| - 1]), events[|events| - 1])
  }

  lemma HappenSys(l: Limits, w: World, op: Op)
    requires Possible(l, w, Do(op))
    ensures Happen(l, w, Do(op)).sys == Next(l.queue, w.sys, op)
    ensures Happen(l, w, Do(op)).sys.mem == NextMem(l.queue, w.sys, op)
  {}

  // ---- Counting ----

  lemma {:induction false} OutcomesAppend(a: seq<Record>, b: seq<Record>, id: string)
    ensures Outcomes(a + b, id) <= Outcomes(a, id) + Outcomes(b, id)
  {
    if b == [] {
      assert a + b == a;
    } else {
      OutcomesAppend(a, b[..|b| - 1], id);
      assert (a + b)[..|a + b| - 1] == a + b[..|b| - 1];
    }
  }

  lemma OutcomesSnoc(rs: seq<Record>, r: Record, n: nat, id: string)
    requires n <= |rs| && (r.id == id && r.kind.RecAttempt? ==> IsOutcome(r))
    ensures Outcomes((rs + [r])[n..], id) == Outcomes(rs[n..], id) + (if r.id == id && IsOutcome(r) then 1 else 0)
  {
    assert (rs + [r])[n..] == rs[n..] + [r];
    assert (rs[n..] + [r])[..|rs[n..]|] == rs[n..];
  }

  // ---- Invariants ----

  // Attempts stay under the task's limit until the task is finished.
  ghost predicate Within(l: Limits, t: Task) {
    && t.attempts <= l.MaxFor(t.spec.policy)
    && (t.Live() ==> t.attempts < l.MaxFor(t.spec.policy))
  }

  ghost predicate AllWithin(l: Limits, tasks: map<string, Task>) {
    forall id | id in tasks :: Within(l, tasks[id])
  }

  // If a crash cut the journal at n, what was sent would be paid for by the attempts it replays to, the outcomes it
  // loses, the request in flight and what earlier crashes cost.
  ghost predicate Paid(w: World, n: nat, id: string)
    requires n <= |w.sys.disk|
  {
    id in Fold(w.sys.disk[..n]).tasks ==>
      && id in w.log && id in w.extra
      && |w.log[id]| <= Fold(w.sys.disk[..n]).tasks[id].attempts + Outcomes(w.sys.disk[n..], id)
                        + InFlight(w, id) + w.extra[id]
  }

  ghost predicate PaidAlways(w: World) {
    w.sys.synced <= |w.sys.disk| && forall n, id | w.sys.synced <= n <= |w.sys.disk| :: Paid(w, n, id)
  }

  ghost predicate CutsWithin(l: Limits, s: Sys) {
    s.synced <= |s.disk| && forall n | s.synced <= n <= |s.disk| :: AllWithin(l, Fold(s.disk[..n]).tasks)
  }

  ghost predicate SentOk(w: World) {
    && (forall id | id in w.sent :: id in w.sys.mem.tasks && w.sys.mem.tasks[id].state.Sending?)
    && (forall id | id in w.extra :: w.extra[id] >= 0)
  }

  ghost predicate Accounted(l: Limits, w: World) {
    PaidAlways(w) && CutsWithin(l, w.sys) && AllWithin(l, w.sys.mem.tasks) && SentOk(w)
  }

  ghost predicate WorldInv(l: Limits, w: World) {
    Inv(l.queue, w.sys) && Accounted(l, w)
  }

  // With nothing cut off, nothing is lost.
  ghost predicate PaidInFull(w: World, id: string) {
    id in Fold(w.sys.disk).tasks ==>
      && id in w.log && id in w.extra
      && |w.log[id]| <= Fold(w.sys.disk).tasks[id].attempts + InFlight(w, id) + w.extra[id]
  }

  lemma PaidAtEnd(w: World, id: string)
    ensures Paid(w, |w.sys.disk|, id) <==> PaidInFull(w, id)
  {
    assert w.sys.disk[..|w.sys.disk|] == w.sys.disk && w.sys.disk[|w.sys.disk|..] == [];
  }

  lemma FoldedId(c: Config, s: Sys, n: nat, id: string)
    requires Inv(c, s) && s.synced <= n <= |s.disk| && id in Fold(s.disk[..n]).tasks
    ensures id in Fold(s.disk).tasks && Fold(s.disk[..n]).tasks[id].attempts >= 0
  {
    assert ViewOk(c, Fold(s.disk[..n]));
    assert TaskOk(id, Fold(s.disk[..n]).tasks[id]);
    assert s.disk == s.disk[..n] + s.disk[n..];
    FoldFromAppend(EMPTY, s.disk[..n], s.disk[n..]);
    FoldKeepsIds(Fold(s.disk[..n]), s.disk[n..]);
  }

  lemma SendAccounted(l: Limits, w: World, e: Event)
    requires WorldInv(l, w) && Possible(l, w, e) && e.Send?
    ensures WorldInv(l, Happen(l, w, e))
  {
    var w' := Happen(l, w, e);
    forall n, id | w'.sys.synced <= n <= |w'.sys.disk| ensures Paid(w', n, id) {
      assert Paid(w, n, id);
    }
  }

  lemma MemWithin(l: Limits, w: World, op: Op)
    requires l.Ok() && WorldInv(l, w) && Possible(l, w, Do(op)) && SingleTask(op)
    ensures AllWithin(l, NextMem(l.queue, w.sys, op).tasks)
  {
    var m := w.sys.mem;
    if !op.Submit? {
      assert Within(l, m.tasks[op.id]);
    }
  }

  // The journal as it now stands pays for what was sent: the attempts it replays to are those in memory.
  lemma SubmitPaid(l: Limits, w: World, op: Op, id: string)
    requires WorldInv(l, w) && Possible(l, w, Do(op)) && op.Submit? && PaidInFull(w, id)
    ensures PaidInFull(Happen(l, w, Do(op)), id)
  {
    FoldSnoc(w.sys.disk, Enqueue(op.spec, op.now));
  }

  // An outcome moves one request from in flight to counted.
  lemma PaidStays(w: World, w': World, id: string, spent: nat)
    requires PaidInFull(w, id) && w'.log == w.log && w'.extra == w.extra
    requires id in Fold(w'.sys.disk).tasks ==>
               && id in Fold(w.sys.disk).tasks && InFlight(w, id) <= InFlight(w', id) + spent
               && Fold(w'.sys.disk).tasks[id].attempts == Fold(w.sys.disk).tasks[id].attempts + spent
    ensures PaidInFull(w', id)
  {}

  lemma OutcomeHappens(l: Limits, w: World, op: Op)
    requires Possible(l, w, Do(op)) && (op.Retry? || op.Succeed? || op.Bury?) && op.id in Fold(w.sys.disk).tasks
    ensures var w', n := Happen(l, w, Do(op)), w.sys.mem.tasks[op.id].attempts + 1;
            && w'.log == w.log && w'.extra == w.extra && w'.sent == w.sent - {op.id}
            && Fold(w'.sys.disk).tasks.Keys == Fold(w.sys.disk).tasks.Keys
            && Fold(w'.sys.disk).tasks[op.id].attempts == n
            && forall id | id in Fold(w.sys.disk).tasks && id != op.id ::
                 Fold(w'.sys.disk).tasks[id] == Fold(w.sys.disk).tasks[id]
  {
    FoldSnoc(w.sys.disk, Logged(w.sys.mem, op).value);
    assert Next(l.queue, w.sys, op).disk == w.sys.disk + [Logged(w.sys.mem, op).value];
  }

  lemma OutcomePaid(l: Limits, w: World, op: Op, id: string)
    requires WorldInv(l, w) && Possible(l, w, Do(op)) && (op.Retry? || op.Succeed? || op.Bury?) && PaidInFull(w, id)
    ensures PaidInFull(Happen(l, w, Do(op)), id)
  {
    assert Matches(Fold(w.sys.disk).tasks[op.id], w.sys.mem.tasks[op.id]);
    OutcomeHappens(l, w, op);
    PaidStays(w, Happen(l, w, Do(op)), id, if id == op.id then 1 else 0);
  }

  lemma RevivePaid(l: Limits, w: World, op: Op, id: string)
    requires WorldInv(l, w) && Possible(l, w, Do(op)) && op.Revive? && PaidInFull(w, id)
    ensures PaidInFull(Happen(l, w, Do(op)), id)
  {
    FoldSnoc(w.sys.disk, Logged(w.sys.mem, op).value);
    assert Matches(Fold(w.sys.disk).tasks[op.id], w.sys.mem.tasks[op.id]);
  }

  lemma PaidNow(l: Limits, w: World, op: Op, id: string)
    requires WorldInv(l, w) && Possible(l, w, Do(op)) && SingleTask(op) && Logged(w.sys.mem, op).Some?
    ensures var w' := Happen(l, w, Do(op)); Paid(w', |w'.sys.disk|, id)
  {
    assert Paid(w, |w.sys.disk|, id);
    PaidAtEnd(w, id);
    PaidAtEnd(Happen(l, w, Do(op)), id);
    if op.Submit? {
      SubmitPaid(l, w, op, id);
    } else if op.Revive? {
      RevivePaid(l, w, op, id);
    } else {
      OutcomePaid(l, w, op, id);
    }
  }

  lemma WithinMatched(l: Limits, a: Task, b: Task)
    requires Matches(a, b) && Within(l, b)
    ensures Within(l, a)
  {}

  // What a sound memory is matched by keeps to the same limits, once the rest of the journal does.
  lemma SubjectWithin(l: Limits, w: World, op: Op)
    requires l.Ok() && WorldInv(l, w) && Possible(l, w, Do(op)) && SingleTask(op)
    ensures var v := Fold(Next(l.queue, w.sys, op).disk); Subject(op) in v.tasks && Within(l, v.tasks[Subject(op)])
  {
    var s' := Next(l.queue, w.sys, op);
    MemWithin(l, w, op);
    SingleSim(l.queue, w.sys, op);
    assert Within(l, s'.mem.tasks[Subject(op)]);
    WithinMatched(l, Fold(s'.disk).tasks[Subject(op)], s'.mem.tasks[Subject(op)]);
  }

  lemma OthersStayWithin(l: Limits, v: View, v': View, subject: string, id: string)
    requires AllWithin(l, v.tasks) && subject in v'.tasks && v'.tasks == v.tasks[subject := v'.tasks[subject]]
    requires id != subject
    ensures id in v'.tasks ==> Within(l, v'.tasks[id])
  {}

  lemma AppendedWithin(l: Limits, w: World, op: Op, id: string)
    requires l.Ok() && WorldInv(l, w) && Possible(l, w, Do(op)) && SingleTask(op) && Logged(w.sys.mem, op).Some?
    ensures var v := Fold(Next(l.queue, w.sys, op).disk); id in v.tasks ==> Within(l, v.tasks[id])
  {
    if id == Subject(op) {
      SubjectWithin(l, w, op);
    } else {
      var s, r := w.sys, Logged(w.sys.mem, op).value;
      FoldSnoc(s.disk, r);
      LoggedMatches(l.queue, s, op);
      assert s.disk[..|s.disk|] == s.disk;
      assert Next(l.queue, s, op).disk == s.disk + [r];
      OthersStayWithin(l, Fold(s.disk), Apply(Fold(s.disk), r), Subject(op), id);
    }
  }

  lemma AppendKeepsCuts(l: Limits, s: Sys, s': Sys, r: Record)
    requires CutsWithin(l, s) && s'.disk == s.disk + [r] && s.synced <= s'.synced <= |s'.disk|
    requires AllWithin(l, Fold(s'.disk).tasks)
    ensures CutsWithin(l, s')
  {
    forall n | s'.synced <= n <= |s'.disk| ensures AllWithin(l, Fold(s'.disk[..n]).tasks) {
      if n == |s'.disk| {
        assert s'.disk[..n] == s'.disk;
      } else {
        assert s'.disk[..n] == s.disk[..n];
      }
    }
  }

  lemma CutsStayWithin(l: Limits, w: World, op: Op)
    requires l.Ok() && WorldInv(l, w) && Possible(l, w, Do(op)) && SingleTask(op) && Logged(w.sys.mem, op).Some?
    ensures CutsWithin(l, Next(l.queue, w.sys, op))
  {
    var s' := Next(l.queue, w.sys, op);
    forall id | id in Fold(s'.disk).tasks ensures Within(l, Fold(s'.disk).tasks[id]) {
      AppendedWithin(l, w, op, id);
    }
    AppendKeepsCuts(l, w.sys, s', Logged(w.sys.mem, op).value);
  }

  // A cut that pays goes on paying when a record follows it: what it does not replay, it counts as lost.
  lemma PaidStill(w: World, w': World, r: Record, n: nat, id: string)
    requires n <= |w.sys.disk| && w'.sys.disk == w.sys.disk + [r] && Paid(w, n, id)
    requires w'.log.Keys == w.log.Keys && w'.extra.Keys == w.extra.Keys
    requires id in Fold(w.sys.disk[..n]).tasks ==>
               || (w'.log[id] == [] && w'.extra[id] == 0 && Fold(w.sys.disk[..n]).tasks[id].attempts >= 0)
               || (w'.log[id] == w.log[id] && w'.extra[id] == w.extra[id] && (r.id == id ==> IsOutcome(r))
                   && InFlight(w, id) <= InFlight(w', id) + (if r.id == id && IsOutcome(r) then 1 else 0))
    ensures Paid(w', n, id)
  {
    assert w'.sys.disk[..n] == w.sys.disk[..n];
    if r.id == id ==> IsOutcome(r) {
      OutcomesSnoc(w.sys.disk, r, n, id);
    }
  }

  lemma ReviveHappens(l: Limits, w: World, op: Op)
    requires Possible(l, w, Do(op)) && op.Revive?
    ensures var w' := Happen(l, w, Do(op));
            && w'.sys.disk == w.sys.disk + [Attempt(op.id, 0, op.now, op.now)] && w'.sent == w.sent
            && w'.log == w.log[op.id := []] && w'.extra == w.extra[op.id := 0]
  {}

  lemma RevivePaidEarlier(l: Limits, w: World, op: Op, n: nat, id: string)
    requires WorldInv(l, w) && Possible(l, w, Do(op)) && op.Revive?
    requires w.sys.synced <= n <= |w.sys.disk| && Paid(w, n, id)
    ensures Paid(Happen(l, w, Do(op)), n, id)
  {
    KnownToLog(l, w, op.id);
    ReviveHappens(l, w, op);
    if id in Fold(w.sys.disk[..n]).tasks {
      FoldedId(l.queue, w.sys, n, id);
    }
    PaidStill(w, Happen(l, w, Do(op)), Attempt(op.id, 0, op.now, op.now), n, id);
  }

  // What is appended for the one request it takes back from in flight counts as an outcome of that task.
  lemma OutcomeCounts(l: Limits, w: World, op: Op)
    requires Possible(l, w, Do(op)) && (op.Retry? || op.Succeed? || op.Bury?) && w.sys.mem.tasks[op.id].attempts >= 0
    ensures var r := Logged(w.sys.mem, op);
            && r.Some? && r.value.id == op.id && IsOutcome(r.value)
            && Happen(l, w, Do(op)).sys.disk == w.sys.disk + [r.value]
  {}

  lemma OutcomePaidEarlier(l: Limits, w: World, op: Op, n: nat, id: string)
    requires WorldInv(l, w) && Possible(l, w, Do(op)) && (op.Retry? || op.Succeed? || op.Bury?)
    requires w.sys.synced <= n <= |w.sys.disk| && Paid(w, n, id)
    ensures Paid(Happen(l, w, Do(op)), n, id)
  {
    assert TaskOk(op.id, w.sys.mem.tasks[op.id]) && Matches(Fold(w.sys.disk).tasks[op.id], w.sys.mem.tasks[op.id]);
    OutcomeHappens(l, w, op);
    OutcomeCounts(l, w, op);
    PaidStill(w, Happen(l, w, Do(op)), Logged(w.sys.mem, op).value, n, id);
  }

  lemma PaidEarlier(l: Limits, w: World, op: Op, n: nat, id: string)
    requires WorldInv(l, w) && Possible(l, w, Do(op)) && SingleTask(op) && Logged(w.sys.mem, op).Some?
    requires w.sys.synced <= n <= |w.sys.disk| && !op.Submit?
    ensures Paid(Happen(l, w, Do(op)), n, id)
  {
    assert Paid(w, n, id);
    if op.Revive? {
      RevivePaidEarlier(l, w, op, n, id);
    } else {
      OutcomePaidEarlier(l, w, op, n, id);
    }
  }

  // Whatever is in memory has been submitted, and so has a log.
  lemma KnownToLog(l: Limits, w: World, id: string)
    requires WorldInv(l, w) && id in w.sys.mem.tasks
    ensures id in w.log && id in w.extra
  {
    assert Matches(Fold(w.sys.disk).tasks[id], w.sys.mem.tasks[id]);
    assert Paid(w, |w.sys.disk|, id);
    PaidAtEnd(w, id);
  }

  lemma SentStaysOk(l: Limits, w: World, op: Op)
    requires WorldInv(l, w) && Possible(l, w, Do(op)) && SingleTask(op)
    ensures SentOk(Happen(l, w, Do(op)))
  {
    var id, m' := Subject(op), NextMem(l.queue, w.sys, op);
    assert m'.tasks == w.sys.mem.tasks[id := m'.tasks[id]];
    if op.Lease? {
      assert op.id in ScheduledIds(w.sys.mem.tasks);
    }
    PutSent(w, Happen(l, w, Do(op)), id, m'.tasks[id]);
  }

  lemma PutSent(w: World, w': World, id: string, t: Task)
    requires SentOk(w) && w'.sys.mem.tasks == w.sys.mem.tasks[id := t]
    requires w'.sent <= w.sent && (id in w'.sent ==> t.state.Sending?)
    requires w'.extra == w.extra || w'.extra == w.extra[id := 0]
    ensures SentOk(w')
  {}

  lemma LoggedAccounted(l: Limits, w: World, op: Op)
    requires l.Ok() && WorldInv(l, w) && Possible(l, w, Do(op)) && SingleTask(op) && Logged(w.sys.mem, op).Some?
    ensures Accounted(l, Happen(l, w, Do(op)))
  {
    var w' := Happen(l, w, Do(op));
    MemWithin(l, w, op);
    SentStaysOk(l, w, op);
    CutsStayWithin(l, w, op);
    forall n, id | w'.sys.synced <= n <= |w'.sys.disk| ensures Paid(w', n, id) {
      if n == |w'.sys.disk| {
        PaidNow(l, w, op, id);
      } else {
        PaidEarlier(l, w, op, n, id);
      }
    }
  }

  // Steps that neither append nor cut leave the accounts as they are.
  lemma QuietAccounted(l: Limits, w: World, op: Op)
    requires l.Ok() && WorldInv(l, w) && Possible(l, w, Do(op))
    requires op.Lease? || op.Defer? || op.Drop? || op.TakeWake? || op.Sync? || op.ResetCount?
    ensures Accounted(l, Happen(l, w, Do(op)))
  {
    var w' := Happen(l, w, Do(op));
    if SingleTask(op) {
      MemWithin(l, w, op);
    }
    forall n, id | w'.sys.synced <= n <= |w'.sys.disk| ensures Paid(w', n, id) {
      assert Paid(w, n, id);
    }
    if SingleTask(op) {
      SentStaysOk(l, w, op);
    }
  }

  // Rewriting the journal changes no task's standing: the snapshot replays to the attempts in memory.
  lemma SnapshotKeepsAttempts(l: Limits, w: World, order: seq<string>, id: string)
    requires WorldInv(l, w) && Visits(order, w.sys.mem.tasks.Keys)
    requires id in Fold(Snapshot(w.sys.mem.tasks, order)).tasks
    ensures id in Fold(w.sys.disk).tasks
    ensures var t := Fold(Snapshot(w.sys.mem.tasks, order)).tasks[id];
            Within(l, t) && t.attempts == Fold(w.sys.disk).tasks[id].attempts
  {
    var m := w.sys.mem;
    SnapshotReplays(m.tasks, order);
    assert Matches(Fold(w.sys.disk).tasks[id], m.tasks[id]) && Within(l, m.tasks[id]);
  }

  lemma SnapshotPaid(l: Limits, w: World, op: Op, id: string)
    requires WorldInv(l, w) && Possible(l, w, Do(op)) && op.Compact?
    ensures PaidInFull(Happen(l, w, Do(op)), id)
    ensures var v := Fold(Snapshot(w.sys.mem.tasks, op.order)); id in v.tasks ==> Within(l, v.tasks[id])
  {
    var w' := Happen(l, w, Do(op));
    assert w'.sys.disk == Snapshot(w.sys.mem.tasks, op.order);
    assert Paid(w, |w.sys.disk|, id);
    PaidAtEnd(w, id);
    if id in Fold(w'.sys.disk).tasks {
      SnapshotKeepsAttempts(l, w, op.order, id);
    }
    PaidStays(w, w', id, 0);
  }

  lemma DurableAccounted(l: Limits, w: World)
    requires w.sys.synced == |w.sys.disk| && (forall id :: PaidInFull(w, id))
    requires AllWithin(l, Fold(w.sys.disk).tasks) && AllWithin(l, w.sys.mem.tasks) && SentOk(w)
    ensures Accounted(l, w)
  {
    assert w.sys.disk[..|w.sys.disk|] == w.sys.disk;
    forall n, id | w.sys.synced <= n <= |w.sys.disk| ensures Paid(w, n, id) {
      PaidAtEnd(w, id);
    }
  }

  lemma CompactAccounted(l: Limits, w: World, op: Op)
    requires WorldInv(l, w) && Possible(l, w, Do(op)) && op.Compact?
    ensures Accounted(l, Happen(l, w, Do(op)))
  {
    var w', snapshot := Happen(l, w, Do(op)), Snapshot(w.sys.mem.tasks, op.order);
    assert w' == w.(sys := Sys(w.sys.mem, snapshot, |snapshot|));
    forall id ensures PaidInFull(w', id) && (id in Fold(snapshot).tasks ==> Within(l, Fold(snapshot).tasks[id])) {
      SnapshotPaid(l, w, op, id);
    }
    DurableAccounted(l, w');
  }

  // A cut that survives still pays: the outcomes a crash takes are now counted as what it cost.
  lemma CutPaid(w: World, w': World, kept: nat, n: nat, id: string)
    requires n <= kept <= |w.sys.disk| && Paid(w, n, id)
    requires w'.sys.disk == w.sys.disk[..kept] && w'.log == w.log && w'.sent == {} && w'.extra.Keys == w.extra.Keys
    requires id in w.extra ==> w'.extra[id] == w.extra[id] + Outcomes(w.sys.disk[kept..], id) + InFlight(w, id)
    ensures Paid(w', n, id)
  {
    var disk, cut := w.sys.disk, w.sys.disk[..kept];
    assert cut[..n] == disk[..n] && disk[n..] == cut[n..] + disk[kept..];
    OutcomesAppend(cut[n..], disk[kept..], id);
  }

  lemma CrashWithin(l: Limits, w: World, op: Op)
    requires WorldInv(l, w) && Possible(l, w, Do(op)) && op.Crash?
    ensures CutsWithin(l, Next(l.queue, w.sys, op)) && AllWithin(l, Next(l.queue, w.sys, op).mem.tasks)
  {
    var s, s' := w.sys, Next(l.queue, w.sys, op);
    forall n | s'.synced <= n <= |s'.disk| ensures AllWithin(l, Fold(s'.disk[..n]).tasks) {
      assert s'.disk[..n] == s.disk[..n];
    }
    assert AllWithin(l, Fold(s.disk[..op.kept]).tasks);
    forall id | id in s'.mem.tasks ensures Within(l, s'.mem.tasks[id]) {
      assert Within(l, Fold(s.disk[..op.kept]).tasks[id]);
    }
  }

  lemma CrashAccounted(l: Limits, w: World, op: Op)
    requires WorldInv(l, w) && Possible(l, w, Do(op)) && op.Crash?
    ensures Accounted(l, Happen(l, w, Do(op)))
  {
    var w' := Happen(l, w, Do(op));
    CrashWithin(l, w, op);
    forall n, id | w'.sys.synced <= n <= |w'.sys.disk| ensures Paid(w', n, id) {
      assert Paid(w, n, id);
      CutPaid(w, w', op.kept, n, id);
    }
  }

  lemma OpKeepsAccounts(l: Limits, w: World, op: Op)
    requires l.Ok() && WorldInv(l, w) && Possible(l, w, Do(op))
    ensures Accounted(l, Happen(l, w, Do(op)))
  {
    if op.Compact? {
      CompactAccounted(l, w, op);
    } else if op.Crash? {
      CrashAccounted(l, w, op);
    } else if Logged(w.sys.mem, op).Some? {
      LoggedAccounted(l, w, op);
    } else {
      QuietAccounted(l, w, op);
    }
  }

  lemma EventKeepsInv(l: Limits, w: World, e: Event)
    requires l.Ok() && WorldInv(l, w) && Possible(l, w, e)
    ensures WorldInv(l, Happen(l, w, e))
  {
    if e.Send? {
      SendAccounted(l, w, e);
    } else {
      StepKeepsInv(l.queue, w.sys, e.op);
      HappenSys(l, w, e.op);
      OpKeepsAccounts(l, w, e.op);
    }
  }

  lemma {:induction false} EventsKeepInv(l: Limits, w: World, events: seq<Event>)
    requires l.Ok() && WorldInv(l, w) && Plausible(l, w, events)
    ensures WorldInv(l, Replayed(l, w, events))
    decreases |events|
  {
    if events == [] {
    } else {
      EventsKeepInv(l, w, events[..|events| - 1]);
      EventKeepsInv(l, Replayed(l, w, events[..|events| - 1]), events[|events| - 1]);
    }
  }

  lemma StartInv(l: Limits)
    requires l.Ok()
    ensures WorldInv(l, START)
  {
    InitialInv(l.queue);
    forall n | 0 <= n <= |INITIAL.disk| ensures INITIAL.disk[..n] == [] {}
  }

  lemma ReachedInv(l: Limits, events: seq<Event>)
    requires l.Ok() && Plausible(l, START, events)
    ensures WorldInv(l, Replayed(l, START, events))
  {
    StartInv(l);
    EventsKeepInv(l, START, events);
  }

  /** Through any number of crashes, the requests sent for a task since it was submitted or last revived never exceed
      its attempt limit plus, for each crash since, the outcome records that crash lost and one if it struck in
      flight. */
  lemma RequestsAreBounded(l: Limits, events: seq<Event>, id: string)
    requires l.Ok() && Plausible(l, START, events)
    requires id in Replayed(l, START, events).sys.mem.tasks
    ensures var w := Replayed(l, START, events);
            && id in w.log && id in w.extra && w.extra[id] >= 0
            && |w.log[id]| <= l.MaxFor(w.sys.mem.tasks[id].spec.policy) + w.extra[id]
  {
    ReachedInv(l, events);
    var w := Replayed(l, START, events);
    var s := w.sys;
    assert Paid(w, |s.disk|, id);
    PaidAtEnd(w, id);
    assert Matches(Fold(s.disk).tasks[id], s.mem.tasks[id]) && Within(l, s.mem.tasks[id]);
  }

  // ---- Without crashes ----

  // The numbers 1, 2, 3, ... in order.
  ghost predicate CountsUp(log: seq<int>) { forall j | 0 <= j < |log| :: log[j] == j + 1 }

  ghost predicate Numbered(w: World, id: string) {
    id in w.sys.mem.tasks ==>
      var t := w.sys.mem.tasks[id];
      && id in w.log && CountsUp(w.log[id])
      && |w.log[id]| <= t.attempts + InFlight(w, id)
      && (t.Live() ==> |w.log[id]| == t.attempts + InFlight(w, id))
  }

  lemma OthersStayNumbered(l: Limits, w: World, op: Op, id: string)
    requires Possible(l, w, Do(op)) && SingleTask(op) && Numbered(w, id) && id != Subject(op)
    ensures Numbered(Happen(l, w, Do(op)), id)
  {}

  lemma OpKeepsNumbering(l: Limits, w: World, op: Op, id: string)
    requires MemOk(l.queue, w.sys.mem) && SentOk(w) && Possible(l, w, Do(op)) && SingleTask(op) && Numbered(w, id)
    ensures Numbered(Happen(l, w, Do(op)), id)
  {
    if id != Subject(op) {
      OthersStayNumbered(l, w, op, id);
    } else if op.Submit? {
      assert id !in w.sent;
    } else {
      assert op.id in w.sent ==> w.sys.mem.tasks[op.id].state.Sending?;
    }
  }

  lemma CrashesAreCounted(l: Limits, w: World, e: Event)
    requires Possible(l, w, e)
    ensures Happen(l, w, e).crashes == w.crashes + (if e.Do? && e.op.Crash? then 1 else 0)
  {}

  lemma QuietStaysNumbered(l: Limits, w: World, op: Op, id: string)
    requires Possible(l, w, Do(op)) && !SingleTask(op) && !op.Crash? && Numbered(w, id)
    ensures Numbered(Happen(l, w, Do(op)), id)
  {
    HappenSys(l, w, op);
    assert NextMem(l.queue, w.sys, op).tasks.Keys <= w.sys.mem.tasks.Keys;
  }

  lemma EventKeepsNumbering(l: Limits, w: World, e: Event, id: string)
    requires WorldInv(l, w) && Possible(l, w, e) && Numbered(w, id)
    requires !(e.Do? && e.op.Crash?)
    ensures Numbered(Happen(l, w, e), id)
  {
    if e.Send? {
    } else if SingleTask(e.op) {
      OpKeepsNumbering(l, w, e.op, id);
    } else {
      QuietStaysNumbered(l, w, e.op, id);
    }
  }

  lemma {:induction false} NumberingHolds(l: Limits, events: seq<Event>, id: string)
    requires l.Ok() && Plausible(l, START, events) && Replayed(l, START, events).crashes == 0
    ensures Numbered(Replayed(l, START, events), id)
    decreases |events|
  {
    if events == [] {
    } else {
      var init := events[..|events| - 1];
      ReachedInv(l, init);
      CrashesAreCounted(l, Replayed(l, START, init), events[|events| - 1]);
      NumberingHolds(l, init, id);
      EventKeepsNumbering(l, Replayed(l, START, init), events[|events| - 1], id);
    }
  }

  /** In a life without crashes the attempt numbers sent for a task are exactly 1, 2, ..., k, and k is within its
      limit. */
  lemma AttemptsAreNumbered(l: Limits, events: seq<Event>, id: string)
    requires l.Ok() && Plausible(l, START, events) && Replayed(l, START, events).crashes == 0
    requires id in Replayed(l, START, events).sys.mem.tasks
    ensures var w := Replayed(l, START, events);
            id in w.log && CountsUp(w.log[id]) && |w.log[id]| <= l.MaxFor(w.sys.mem.tasks[id].spec.policy)
  {
    NumberingHolds(l, events, id);
    ReachedInv(l, events);
    var w := Replayed(l, START, events);
    assert Within(l, w.sys.mem.tasks[id]);
  }

  /** Every retry uses up one of the attempts a task has left, and putting a task back untried uses up none. */
  lemma AttemptsRunOut(l: Limits, w: World, op: Op)
    requires WorldInv(l, w) && Possible(l, w, Do(op)) && (op.Retry? || op.Defer?)
    ensures var t, t' := w.sys.mem.tasks[op.id], Next(l.queue, w.sys, op).mem.tasks[op.id];
            var left, left' := l.MaxFor(t.spec.policy) - t.attempts, l.MaxFor(t'.spec.policy) - t'.attempts;
            0 < left' && left' == left - (if op.Retry? then 1 else 0)
  {
    assert Within(l, w.sys.mem.tasks[op.id]);
  }

  // ---- Deadlines ----

  ghost predicate Punctual(l: Limits, t: Task) {
    t.state.Waiting? ==> t.nextAt < t.spec.createdAt + l.DeadlineFor(t.spec.policy)
  }

  lemma OpKeepsPunctual(l: Limits, w: World, op: Op, id: string)
    requires Possible(l, w, Do(op)) && SingleTask(op)
    requires id in w.sys.mem.tasks ==> Punctual(l, w.sys.mem.tasks[id])
    requires id in NextMem(l.queue, w.sys, op).tasks
    ensures Punctual(l, NextMem(l.queue, w.sys, op).tasks[id])
  {
    if op.Retry? {
      assert Retried(w.sys.mem, op.id, op.nextAt, op.now) == NextMem(l.queue, w.sys, op);
    } else if id == Subject(op) {
      assert !NextMem(l.queue, w.sys, op).tasks[id].state.Waiting?;
    }
  }

  lemma EventKeepsPunctual(l: Limits, w: World, e: Event, id: string)
    requires Possible(l, w, e)
    requires id in w.sys.mem.tasks ==> Punctual(l, w.sys.mem.tasks[id])
    requires id in Happen(l, w, e).sys.mem.tasks
    ensures Punctual(l, Happen(l, w, e).sys.mem.tasks[id])
  {
    if e.Do? {
      HappenSys(l, w, e.op);
      if SingleTask(e.op) {
        OpKeepsPunctual(l, w, e.op, id);
      } else if e.op.Crash? {
        assert !NextMem(l.queue, w.sys, e.op).tasks[id].state.Waiting?;
      } else {
        assert NextMem(l.queue, w.sys, e.op).tasks.Keys <= w.sys.mem.tasks.Keys;
      }
    }
  }

  /** In every reachable state, a task waiting for a retry is due before its deadline. */
  lemma {:induction false} WaitingBeforeDeadline(l: Limits, events: seq<Event>, id: string)
    requires l.Ok() && Plausible(l, START, events)
    requires id in Replayed(l, START, events).sys.mem.tasks
    ensures Punctual(l, Replayed(l, START, events).sys.mem.tasks[id])
    decreases |events|
  {
    if events == [] {
    } else {
      var init := events[..|events| - 1];
      ReachedInv(l, init);
      if id in Replayed(l, START, init).sys.mem.tasks {
        WaitingBeforeDeadline(l, init, id);
      }
      EventKeepsPunctual(l, Replayed(l, START, init), events[|events| - 1], id);
    }
  }

  // ---- The limits in numbers ----

  /** The attempts a task has: as many as its own policy says, as many as the service does where that says nothing. */
  ghost predicate HasAttempts(l: Limits, p: Policy, n: int) {
    p.maxAttempts == n > 0 || (p.maxAttempts <= 0 && l.maxAttempts == n)
  }

  /** The milliseconds it has, its own or the service's (which is set in nanoseconds). */
  ghost predicate HasMillis(l: Limits, p: Policy, n: int) {
    || (p.deadlineMS == n && 0 < n <= 9_223_372_036_854)
    || (p.deadlineMS <= 0 && n >= 0 && n * MILLISECOND <= l.deadline < (n + 1) * MILLISECOND)
  }

  lemma DeadlineIs(l: Limits, p: Policy, n: int)
    requires HasMillis(l, p, n)
    ensures l.DeadlineFor(p) == n
  {
    if p.deadlineMS > 0 {
      assert Wrap(n * MILLISECOND) == n * MILLISECOND;
    }
  }

  /** Whatever the service does by default, a task that brings a limit or a deadline of its own is held to that: it
      causes no more requests than its limit and what crashes cost it, none beyond its limit in a life without crashes,
      and never waits for a retry at or past its deadline.  One that brings none is held to the service's. */
  lemma OwnLimitsHold(l: Limits, events: seq<Event>, id: string, n: int, deadline: int)
    requires l.Ok() && Plausible(l, START, events)
    requires id in Replayed(l, START, events).sys.mem.tasks
    requires HasAttempts(l, Replayed(l, START, events).sys.mem.tasks[id].spec.policy, n)
    requires HasMillis(l, Replayed(l, START, events).sys.mem.tasks[id].spec.policy, deadline)
    ensures var w := Replayed(l, START, events);
            && id in w.log && id in w.extra && |w.log[id]| <= n + w.extra[id]
            && (w.crashes == 0 ==> |w.log[id]| <= n)
            && (w.sys.mem.tasks[id].state.Waiting? ==>
                  w.sys.mem.tasks[id].nextAt < w.sys.mem.tasks[id].spec.createdAt + deadline)
  {
    RequestsAreBounded(l, events, id);
    WaitingBeforeDeadline(l, events, id);
    DeadlineIs(l, Replayed(l, START, events).sys.mem.tasks[id].spec.policy, deadline);
    if Replayed(l, START, events).crashes == 0 {
      AttemptsAreNumbered(l, events, id);
    }
  }

  lemma OneMore(l: Limits, events: seq<Event>, e: Event) returns (longer: seq<Event>)
    requires Plausible(l, START, events) && Possible(l, Replayed(l, START, events), e)
    ensures longer == events + [e] && Plausible(l, START, longer)
    ensures Replayed(l, START, longer) == Happen(l, Replayed(l, START, events), e)
  {
    longer := events + [e];
    assert longer[..|events|] == events;
  }
}
