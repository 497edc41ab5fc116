/** Runs of the loop and its workers that cost a task as many requests as it can, and what follows for the design's
    bound. */
module Reaching {
  import opened Model
  import opened Replay
  import opened System
  import opened Backoff
  import opened Delivery
  import opened Verdict
  import opened Dispatcher
  import opened Worst

  // ---- Runs of the loop ----

  ghost predicate Comes(s: Settings, steps: seq<Step>, d: Dispatch) {
    Run(s, BEGIN, steps) && Ran(s, BEGIN, steps) == d
  }

  // One step leads from `d` to `d'`.
  ghost predicate Moves(s: Settings, d: Dispatch, step: Step, d': Dispatch) {
    Allowed(s, d, step) && After(s, d, step) == d'
  }

  lemma ComesFurther(s: Settings, steps: seq<Step>, d: Dispatch, step: Step, d': Dispatch)
    requires Comes(s, steps, d) && Moves(s, d, step, d')
    ensures Comes(s, steps + [step], d')
  {
    assert (steps + [step])[..|steps|] == steps;
  }

  // Nothing in hand, nobody at work, all tokens home.
  ghost predicate Idle(d: Dispatch) {
    && d.pc.Top? && !d.cancelled && d.workers == map[] && d.slots == 0
    && forall host :: Taken(d.hosts, host) == 0
  }

  // One worker, whose request is out.
  ghost predicate Busy(d: Dispatch, id: string) {
    && d.pc.Top? && !d.cancelled && d.slots == 1
    && d.workers.Keys == {0} && d.workers[0].id == id && d.workers[0].phase.Sent?
    && forall host :: Taken(d.hosts, host) == if host == d.workers[0].host then 1 else 0
  }

  ghost predicate Roomy(s: Settings) { s.Ok() && s.workers >= 1 && s.perHost >= 1 && s.limits.queue.queueMax >= 1 }

  // The loop finds a task...
  lemma Finds(s: Settings, d: Dispatch, id: string, now: int)
    requires Idle(d) && Possible(s.limits, d.world, Do(Lease(id, now)))
    ensures Moves(s, d, Check, d.(pc := Ready))
    ensures var w := Happen(s.limits, d.world, Do(Lease(id, now)));
            Moves(s, d.(pc := Ready), Find(id, now), d.(pc := Holding(id, now), world := w))
  {}

  // ... takes a token of its host and a slot for it...
  lemma TakesTokens(s: Settings, d: Dispatch, id: string, now: int)
    requires Roomy(s) && Idle(d.(pc := Top)) && d.pc == Holding(id, now) && id in d.world.sys.mem.tasks
    ensures var host := HostOf(s, d);
            var admitted := d.(pc := Admitted(id, now, host), hosts := d.hosts[host := 1]);
            && Moves(s, d, TakeHost, admitted)
            && Moves(s, admitted, TakeSlot(0),
                     admitted.(pc := Top, slots := 1, workers := map[0 := Worker(id, host, Starting)]))
  {
    assert Taken(d.hosts, HostOf(s, d)) == Taken(d.(pc := Top).hosts, HostOf(s, d)) == 0;
  }

  // ... and its worker sends the request.
  lemma Requests(s: Settings, d: Dispatch, id: string, host: string)
    requires d.workers == map[0 := Worker(id, host, Starting)] && Possible(s.limits, d.world, Send(id))
    ensures Moves(s, d, Request(0), d.(world := Happen(s.limits, d.world, Send(id)),
                                       workers := map[0 := Worker(id, host, Sent)]))
  {}

  lemma FindSteps(s: Settings, steps: seq<Step>, d: Dispatch, id: string, now: int)
    returns (longer: seq<Step>, holding: Dispatch)
    requires Comes(s, steps, d) && Idle(d) && Possible(s.limits, d.world, Do(Lease(id, now)))
    ensures Comes(s, longer, holding)
    ensures holding == d.(pc := Holding(id, now), world := Happen(s.limits, d.world, Do(Lease(id, now))))
  {
    holding := d.(pc := Holding(id, now), world := Happen(s.limits, d.world, Do(Lease(id, now))));
    Finds(s, d, id, now);
    ComesFurther(s, steps, d, Check, d.(pc := Ready));
    ComesFurther(s, steps + [Check], d.(pc := Ready), Find(id, now), holding);
    longer := steps + [Check] + [Find(id, now)];
  }

  lemma HireSteps(s: Settings, steps: seq<Step>, d: Dispatch, id: string, now: int)
    returns (longer: seq<Step>, d': Dispatch)
    requires Roomy(s) && Comes(s, steps, d) && Idle(d.(pc := Top)) && d.pc == Holding(id, now)
    requires id in d.world.sys.mem.tasks && Possible(s.limits, d.world, Send(id))
    ensures Comes(s, longer, d') && Busy(d', id) && d'.world == Happen(s.limits, d.world, Send(id))
  {
    var host := HostOf(s, d);
    var admitted := d.(pc := Admitted(id, now, host), hosts := d.hosts[host := 1]);
    var started := admitted.(pc := Top, slots := 1, workers := map[0 := Worker(id, host, Starting)]);
    TakesTokens(s, d, id, now);
    ComesFurther(s, steps, d, TakeHost, admitted);
    ComesFurther(s, steps + [TakeHost], admitted, TakeSlot(0), started);
    Requests(s, started, id, host);
    d' := started.(world := Happen(s.limits, d.world, Send(id)), workers := map[0 := Worker(id, host, Sent)]);
    ComesFurther(s, steps + [TakeHost] + [TakeSlot(0)], started, Request(0), d');
    longer := steps + [TakeHost] + [TakeSlot(0)] + [Request(0)];
    assert forall h :: Taken(d'.hosts, h) == if h == host then 1 else Taken(d.(pc := Top).hosts, h);
  }

  lemma SendSteps(s: Settings, steps: seq<Step>, d: Dispatch, id: string, now: int)
    returns (longer: seq<Step>, d': Dispatch)
    requires Roomy(s) && Comes(s, steps, d) && Idle(d) && Possible(s.limits, d.world, Do(Lease(id, now)))
    requires id in d.world.sys.mem.tasks
    requires Possible(s.limits, Happen(s.limits, d.world, Do(Lease(id, now))), Send(id))
    ensures Comes(s, longer, d') && Busy(d', id)
    ensures d'.world == Happen(s.limits, Happen(s.limits, d.world, Do(Lease(id, now))), Send(id))
  {
    var found, holding := FindSteps(s, steps, d, id, now);
    assert forall host :: Taken(holding.(pc := Top).hosts, host) == Taken(d.hosts, host);
    longer, d' := HireSteps(s, found, holding, id, now);
  }

  // The worker records a failure and gives everything back.
  const FAILURE := Response(500, NoError, Absent)

  lemma Records(s: Settings, d: Dispatch, now: int)
    requires 0 in d.workers && MaySettle(d, 0, FAILURE) && Clock(d, 0) <= now
    requires var t := d.world.sys.mem.tasks[d.workers[0].id];
             Possible(s.limits, d.world, Do(Judge(s.limits, t, FAILURE, MIN_DELAY, s.maxBackoff, now)))
    ensures var t := d.world.sys.mem.tasks[d.workers[0].id];
            var w := Happen(s.limits, d.world, Do(Judge(s.limits, t, FAILURE, MIN_DELAY, s.maxBackoff, now)));
            Moves(s, d, Settle(0, FAILURE, MIN_DELAY, now),
                  d.(world := w, workers := Moved(d.workers, 0, Recorded)))
  {}

  lemma Returns(s: Settings, d: Dispatch)
    requires d.workers.Keys == {0} && d.workers[0].phase.Recorded? && d.slots == 1
    requires d.pc.Top? && !d.cancelled
    requires forall h :: Taken(d.hosts, h) == if h == d.workers[0].host then 1 else 0
    ensures var host := d.workers[0].host;
            var freed := d.(workers := Moved(d.workers, 0, HostFreed), hosts := d.hosts[host := 0]);
            var slotFreed := freed.(workers := Moved(freed.workers, 0, SlotFreed), slots := 0);
            && Moves(s, d, FreeHost(0), freed) && Moves(s, freed, FreeSlot(0), slotFreed)
            && Moves(s, slotFreed, Finish(0), slotFreed.(workers := map[])) && Idle(slotFreed.(workers := map[]))
  {
    var host := d.workers[0].host;
    var freed := d.(workers := Moved(d.workers, 0, HostFreed), hosts := d.hosts[host := 0]);
    assert Taken(d.hosts, host) == 1;
    assert forall h :: Taken(freed.hosts, h) == if h == host then 0 else Taken(d.hosts, h);
    var slotFreed := freed.(workers := Moved(freed.workers, 0, SlotFreed), slots := 0);
    assert slotFreed.workers - {0} == map[];
  }

  lemma FailSteps(s: Settings, steps: seq<Step>, d: Dispatch, id: string, now: int)
    returns (longer: seq<Step>, d': Dispatch)
    requires Comes(s, steps, d) && Busy(d, id) && MaySettle(d, 0, FAILURE) && Clock(d, 0) <= now
    requires Possible(s.limits, d.world,
                      Do(Judge(s.limits, d.world.sys.mem.tasks[id], FAILURE, MIN_DELAY, s.maxBackoff, now)))
    ensures Comes(s, longer, d') && Idle(d')
    ensures d'.world == Happen(s.limits, d.world,
                               Do(Judge(s.limits, d.world.sys.mem.tasks[id], FAILURE, MIN_DELAY, s.maxBackoff, now)))
  {
    var settle := Settle(0, FAILURE, MIN_DELAY, now);
    var w := Happen(s.limits, d.world,
                    Do(Judge(s.limits, d.world.sys.mem.tasks[id], FAILURE, MIN_DELAY, s.maxBackoff, now)));
    var recorded := d.(world := w, workers := Moved(d.workers, 0, Recorded));
    Records(s, d, now);
    ComesFurther(s, steps, d, settle, recorded);
    Returns(s, recorded);
    var freed := recorded.(workers := Moved(recorded.workers, 0, HostFreed),
                           hosts := recorded.hosts[recorded.workers[0].host := 0]);
    var slotFreed := freed.(workers := Moved(freed.workers, 0, SlotFreed), slots := 0);
    d' := slotFreed.(workers := map[]);
    ComesFurther(s, steps + [settle], recorded, FreeHost(0), freed);
    ComesFurther(s, steps + [settle] + [FreeHost(0)], freed, FreeSlot(0), slotFreed);
    ComesFurther(s, steps + [settle] + [FreeHost(0)] + [FreeSlot(0)], slotFreed, Finish(0), d');
    longer := steps + [settle] + [FreeHost(0)] + [FreeSlot(0)] + [Finish(0)];
  }

  lemma ElsewhereStep(s: Settings, steps: seq<Step>, d: Dispatch, op: Op) returns (longer: seq<Step>, d': Dispatch)
    requires Comes(s, steps, d) && (op.Submit? || op.Sync? || op.Crash?) && Possible(s.limits, d.world, Do(op))
    ensures Comes(s, longer, d') && d'.world == Happen(s.limits, d.world, Do(op))
    ensures (op.Crash? || Idle(d)) ==> Idle(d')
  {
    longer, d' := steps + [Elsewhere(op)], After(s, d, Elsewhere(op));
    ComesFurther(s, steps, d, Elsewhere(op), d');
  }

  // ---- A task alone in the world ----

  // The view holds the one task, unfinished, after so many attempts and due by `at`.
  ghost predicate HoldsOne(v: View, spec: Spec, tried: nat, at: int) {
    && v.tasks.Keys == {spec.id} && v.tasks[spec.id].spec == spec && v.tasks[spec.id].Live()
    && v.tasks[spec.id].attempts == tried && v.tasks[spec.id].nextAt <= at
  }

  // The journal says `tried` attempts, its durable part `saved`.
  ghost predicate Journaled(w: World, spec: Spec, tried: nat, saved: nat, at: int) {
    && w.sys.synced <= |w.sys.disk|
    && HoldsOne(Fold(w.sys.disk), spec, tried, at) && HoldsOne(Fold(w.sys.disk[..w.sys.synced]), spec, saved, at)
    && Outcomes(w.sys.disk[w.sys.synced..], spec.id) == tried - saved
  }

  ghost predicate Booked(w: World, id: string, at: int) {
    id in w.log && id in w.extra && id in w.struck && id in w.clock && w.clock[id] <= at
  }

  ghost predicate Waits(w: World, spec: Spec, tried: nat, saved: nat, at: int) {
    && w.sys.mem.tasks.Keys == w.sys.mem.due == {spec.id} && w.sent == {}
    && w.sys.mem.tasks[spec.id].spec == spec && w.sys.mem.tasks[spec.id].state.Scheduled()
    && w.sys.mem.tasks[spec.id].attempts == tried && w.sys.mem.tasks[spec.id].nextAt <= at
    && Journaled(w, spec, tried, saved, at) && Booked(w, spec.id, at)
  }

  ghost predicate InAir(w: World, spec: Spec, tried: nat, saved: nat, at: int) {
    && w.sys.mem.tasks.Keys == {spec.id} && w.sys.mem.due == {} && w.sent == {spec.id}
    && w.sys.mem.tasks[spec.id].spec == spec && w.sys.mem.tasks[spec.id].state.Sending?
    && w.sys.mem.tasks[spec.id].attempts == tried
    && Journaled(w, spec, tried, saved, at) && Booked(w, spec.id, at)
  }

  // So many requests and crashes later, which have cost the task so much.
  ghost predicate Later(w: World, w': World, id: string, requests: nat, crashes: nat, cost: int) {
    && id in w.extra && id in w'.extra && w'.extra[id] == w.extra[id] + cost
    && id in w.log && id in w'.log && |w'.log[id]| == |w.log[id]| + requests
    && id in w.struck && id in w'.struck && w'.struck[id] == w.struck[id] + crashes
    && w'.crashes == w.crashes + crashes
  }

  lemma LeaseIt(l: Limits, w: World, spec: Spec, tried: nat, saved: nat, at: int)
    requires Waits(w, spec, tried, saved, at)
    ensures Possible(l, w, Do(Lease(spec.id, at)))
    ensures var w1 := Happen(l, w, Do(Lease(spec.id, at)));
            && Possible(l, w1, Send(spec.id)) && InAir(Happen(l, w1, Send(spec.id)), spec, tried, saved, at)
            && Later(w, Happen(l, w1, Send(spec.id)), spec.id, 1, 0, 0)
  {
    assert {spec.id} - {spec.id} == {};
  }

  lemma JudgedRetry(l: Limits, t: Task, maxBackoff: int, at: int)
    requires t.attempts + 1 < l.MaxFor(t.spec.policy)
    requires at + LEAST_WAIT < t.spec.createdAt + l.DeadlineFor(t.spec.policy)
    ensures Judge(l, t, FAILURE, MIN_DELAY, maxBackoff, at) == Retry(t.spec.id, at + LEAST_WAIT, at)
  {
    assert MIN_DELAY / MILLISECOND == LEAST_WAIT;
  }

  // A failure is written down behind the durable part.
  lemma RetryJournaled(w: World, w': World, spec: Spec, tried: nat, saved: nat, at: int, now: int)
    requires Journaled(w, spec, tried, saved, now)
    requires w'.sys.disk == w.sys.disk + [Attempt(spec.id, tried + 1, at, now)] && w'.sys.synced == w.sys.synced
    requires now <= at
    ensures Journaled(w', spec, tried + 1, saved, at)
  {
    var r := Attempt(spec.id, tried + 1, at, now);
    FoldSnoc(w.sys.disk, r);
    OutcomesSnoc(w.sys.disk, r, w.sys.synced, spec.id);
    assert w'.sys.disk[..w'.sys.synced] == w.sys.disk[..w.sys.synced];
  }

  lemma RetryIt(l: Limits, w: World, spec: Spec, tried: nat, saved: nat, at: int)
    requires InAir(w, spec, tried, saved, at) && tried + 1 < l.MaxFor(spec.policy)
    requires at + LEAST_WAIT < spec.createdAt + l.DeadlineFor(spec.policy)
    ensures Possible(l, w, Do(Retry(spec.id, at + LEAST_WAIT, at)))
    ensures var w' := Happen(l, w, Do(Retry(spec.id, at + LEAST_WAIT, at)));
            Waits(w', spec, tried + 1, saved, at + LEAST_WAIT) && Later(w, w', spec.id, 0, 0, 0)
  {
    var op := Retry(spec.id, at + LEAST_WAIT, at);
    HappenSys(l, w, op);
    RetryJournaled(w, Happen(l, w, Do(op)), spec, tried, saved, at + LEAST_WAIT, at);
    assert {spec.id} - {spec.id} == {} && {} + {spec.id} == {spec.id};
  }

  lemma FlushIt(l: Limits, w: World, spec: Spec, tried: nat, saved: nat, at: int)
    requires Waits(w, spec, tried, saved, at)
    ensures Possible(l, w, Do(Sync)) && Waits(Happen(l, w, Do(Sync)), spec, tried, tried, at)
    ensures Later(w, Happen(l, w, Do(Sync)), spec.id, 0, 0, 0)
  {
    assert w.sys.disk[..|w.sys.disk|] == w.sys.disk && w.sys.disk[|w.sys.disk|..] == [];
  }

  lemma LoseIt(l: Limits, w: World, spec: Spec, tried: nat, saved: nat, at: int)
    requires InAir(w, spec, tried, saved, at)
    ensures var crash := Crash(w.sys.synced, w.sys.synced);
            && Possible(l, w, Do(crash))
            && Waits(Happen(l, w, Do(crash)), spec, saved, saved, at)
            && Later(w, Happen(l, w, Do(crash)), spec.id, 0, 1, tried - saved + 1)
  {
    var cut := w.sys.disk[..w.sys.synced];
    assert cut[..w.sys.synced] == cut && cut[w.sys.synced..] == [];
    assert LiveIds(Fold(cut).tasks) == {spec.id};
  }

  lemma FirstRecord(spec: Spec)
    ensures var rs := [Enqueue(spec, spec.createdAt)];
            && HoldsOne(Fold(rs), spec, 0, spec.createdAt) && HoldsOne(Fold(rs[..1]), spec, 0, spec.createdAt)
            && Outcomes(rs[1..], spec.id) == 0
  {
    var r := Enqueue(spec, spec.createdAt);
    FoldSnoc([], r);
    assert [] + [r] == [r] == [r][..1] && [r][1..] == [];
  }

  lemma FirstSys(c: Config, spec: Spec)
    requires c.queueMax >= 1 && spec.idemKey != ""
    ensures var op, s := Submit(spec, spec.createdAt), INITIAL;
            && Enabled(c, s, op) && Next(c, s, op).disk == [Enqueue(spec, spec.createdAt)] && Next(c, s, op).synced == 1
            && NextMem(c, s, op).tasks == map[spec.id := Fresh(spec, spec.createdAt)]
            && NextMem(c, s, op).due == {spec.id}
  {
    assert LiveIds(EMPTY.tasks) == {} && ScheduledIds(EMPTY.tasks) == {};
  }

  lemma SubmitIt(l: Limits, spec: Spec)
    requires l.queue.queueMax >= 1 && spec.idemKey != ""
    ensures Possible(l, START, Do(Submit(spec, spec.createdAt)))
    ensures var w := Happen(l, START, Do(Submit(spec, spec.createdAt)));
            && Waits(w, spec, 0, 0, spec.createdAt)
            && w.log[spec.id] == [] && w.struck[spec.id] == 0 == w.extra[spec.id] && w.crashes == 0
  {
    FirstSys(l.queue, spec);
    FirstRecord(spec);
    HappenSys(l, START, Submit(spec, spec.createdAt));
  }

  // ---- Rounds ----

  ghost predicate WaitsIn(s: Settings, steps: seq<Step>, d: Dispatch, spec: Spec, tried: nat, saved: nat, at: int) {
    Comes(s, steps, d) && Idle(d) && Waits(d.world, spec, tried, saved, at)
  }

  ghost predicate InAirIn(s: Settings, steps: seq<Step>, d: Dispatch, spec: Spec, tried: nat, saved: nat, at: int) {
    Comes(s, steps, d) && Busy(d, spec.id) && InAir(d.world, spec, tried, saved, at)
  }

  // The loop sends it,...
  lemma Sends(s: Settings, steps: seq<Step>, d: Dispatch, spec: Spec, tried: nat, saved: nat, at: int)
    returns (longer: seq<Step>, d': Dispatch)
    requires Roomy(s) && WaitsIn(s, steps, d, spec, tried, saved, at)
    ensures InAirIn(s, longer, d', spec, tried, saved, at) && Later(d.world, d'.world, spec.id, 1, 0, 0)
  {
    LeaseIt(s.limits, d.world, spec, tried, saved, at);
    longer, d' := SendSteps(s, steps, d, spec.id, at);
  }

  // ... it fails, and is due again as soon as can be...
  lemma Fails(s: Settings, steps: seq<Step>, d: Dispatch, spec: Spec, tried: nat, saved: nat, at: int)
    returns (longer: seq<Step>, d': Dispatch)
    requires Roomy(s) && InAirIn(s, steps, d, spec, tried, saved, at) && tried + 1 < s.limits.MaxFor(spec.policy)
    requires at + LEAST_WAIT < spec.createdAt + s.limits.DeadlineFor(spec.policy)
    ensures WaitsIn(s, longer, d', spec, tried + 1, saved, at + LEAST_WAIT)
            && Later(d.world, d'.world, spec.id, 0, 0, 0)
  {
    RetryIt(s.limits, d.world, spec, tried, saved, at);
    JudgedRetry(s.limits, d.world.sys.mem.tasks[spec.id], s.maxBackoff, at);
    longer, d' := FailSteps(s, steps, d, spec.id, at);
  }

  // ... all in one.
  lemma TriesOnce(s: Settings, steps: seq<Step>, d: Dispatch, spec: Spec, tried: nat, saved: nat, at: int)
    returns (longer: seq<Step>, d': Dispatch)
    requires Roomy(s) && WaitsIn(s, steps, d, spec, tried, saved, at) && tried + 1 < s.limits.MaxFor(spec.policy)
    requires at + LEAST_WAIT < spec.createdAt + s.limits.DeadlineFor(spec.policy)
    ensures WaitsIn(s, longer, d', spec, tried + 1, saved, at + LEAST_WAIT)
            && Later(d.world, d'.world, spec.id, 1, 0, 0)
  {
    var sent, out := Sends(s, steps, d, spec, tried, saved, at);
    longer, d' := Fails(s, sent, out, spec, tried, saved, at);
  }

  lemma Flushes(s: Settings, steps: seq<Step>, d: Dispatch, spec: Spec, tried: nat, saved: nat, at: int)
    returns (longer: seq<Step>, d': Dispatch)
    requires WaitsIn(s, steps, d, spec, tried, saved, at)
    ensures WaitsIn(s, longer, d', spec, tried, tried, at) && Later(d.world, d'.world, spec.id, 0, 0, 0)
  {
    FlushIt(s.limits, d.world, spec, tried, saved, at);
    longer, d' := ElsewhereStep(s, steps, d, Sync);
  }

  // A crash takes back what was not flushed.
  lemma Loses(s: Settings, steps: seq<Step>, d: Dispatch, spec: Spec, tried: nat, saved: nat, at: int)
    returns (longer: seq<Step>, d': Dispatch)
    requires InAirIn(s, steps, d, spec, tried, saved, at)
    ensures WaitsIn(s, longer, d', spec, saved, saved, at) && Later(d.world, d'.world, spec.id, 0, 1, tried - saved + 1)
  {
    LoseIt(s.limits, d.world, spec, tried, saved, at);
    longer, d' := ElsewhereStep(s, steps, d, Crash(d.world.sys.synced, d.world.sys.synced));
  }

  lemma Submits(s: Settings, spec: Spec) returns (steps: seq<Step>, d: Dispatch)
    requires Roomy(s) && spec.idemKey != ""
    ensures WaitsIn(s, steps, d, spec, 0, 0, spec.createdAt)
    ensures d.world.log[spec.id] == [] && d.world.struck[spec.id] == 0 == d.world.extra[spec.id]
    ensures d.world.crashes == 0
  {
    SubmitIt(s.limits, spec);
    assert Comes(s, [], BEGIN) && Idle(BEGIN);
    steps, d := ElsewhereStep(s, [], BEGIN, Submit(spec, spec.createdAt));
  }

  // n failures in a row, flushed each time or not at all.
  lemma {:induction false} TriesOften(s: Settings, steps: seq<Step>, d: Dispatch, spec: Spec, n: nat, at: int,
                                      flush: bool)
    returns (longer: seq<Step>, d': Dispatch)
    requires Roomy(s) && WaitsIn(s, steps, d, spec, 0, 0, at) && n < s.limits.MaxFor(spec.policy)
    requires n > 0 ==> at + n * LEAST_WAIT < spec.createdAt + s.limits.DeadlineFor(spec.policy)
    ensures WaitsIn(s, longer, d', spec, n, if flush then n else 0, at + n * LEAST_WAIT)
    ensures Later(d.world, d'.world, spec.id, n, 0, 0)
  {
    if n == 0 {
      longer, d' := steps, d;
    } else {
      var tried, e := TriesOften(s, steps, d, spec, n - 1, at, flush);
      var saved := if flush then n - 1 else 0;
      longer, d' := TriesOnce(s, tried, e, spec, n - 1, saved, at + (n - 1) * LEAST_WAIT);
      if flush {
        longer, d' := Flushes(s, longer, d', spec, n, saved, at + n * LEAST_WAIT);
      }
    }
  }

  // ---- The cap is reached ----

  function Lesser(a: int, b: int): int { if a <= b then a else b }

  // The retries that k + 1 lives have room for.
  function Retries(l: Limits, p: Policy, k: nat): int {
    Lesser(Rounds(k + 1, l.MaxFor(p) - 1), Spaces(l.DeadlineFor(p)))
  }

  // After k crashes, as many retries as limit and deadline allow, the last request still out.
  ghost predicate Exhausted(s: Settings, steps: seq<Step>, d: Dispatch, spec: Spec, k: nat, tried: nat) {
    && InAirIn(s, steps, d, spec, tried, 0, spec.createdAt + Retries(s.limits, spec.policy, k) * LEAST_WAIT)
    && Spent(d.world, spec.id, k, Retries(s.limits, spec.policy, k))
  }

  ghost predicate Spent(w: World, id: string, k: nat, retries: int) {
    id in w.log && id in w.struck && w.crashes == k == w.struck[id] && |w.log[id]| == k + 1 + retries
  }

  // A round of `done` retries more, up to the limit and within the deadline.
  lemma Round(s: Settings, steps: seq<Step>, d: Dispatch, spec: Spec, before: nat, done: nat)
    returns (longer: seq<Step>, d': Dispatch)
    requires Roomy(s) && WaitsIn(s, steps, d, spec, 0, 0, spec.createdAt + before * LEAST_WAIT)
    requires done < s.limits.MaxFor(spec.policy) && before + done <= Spaces(s.limits.DeadlineFor(spec.policy))
    ensures InAirIn(s, longer, d', spec, done, 0, spec.createdAt + (before + done) * LEAST_WAIT)
    ensures Later(d.world, d'.world, spec.id, done + 1, 0, 0)
  {
    FitsIff(before + done, s.limits.DeadlineFor(spec.policy));
    var at := spec.createdAt + before * LEAST_WAIT;
    var tried, e := TriesOften(s, steps, d, spec, done, at, false);
    longer, d' := Sends(s, tried, e, spec, done, 0, at + done * LEAST_WAIT);
  }

  lemma RoundsAddUp(k: nat, max: nat, spaces: nat)
    requires k > 0
    ensures var before := Lesser(Rounds(k, max), spaces);
            0 <= before && Lesser(Rounds(k + 1, max), spaces) == before + Lesser(max, spaces - before)
  {
    RoundsIsProduct(k, max);
    assert Rounds(k + 1, max) == Rounds(k, max) + max;
  }

  lemma ExhaustFirst(s: Settings, spec: Spec) returns (steps: seq<Step>, d: Dispatch, tried: nat)
    requires Roomy(s) && spec.idemKey != ""
    ensures Exhausted(s, steps, d, spec, 0, tried)
  {
    var max := s.limits.MaxFor(spec.policy) - 1;
    var submitted, waiting := Submits(s, spec);
    assert Rounds(1, max) == max;
    tried := Lesser(max, Spaces(s.limits.DeadlineFor(spec.policy)));
    assert Retries(s.limits, spec.policy, 0) == tried;
    steps, d := Round(s, submitted, waiting, spec, 0, tried);
    assert Spent(d.world, spec.id, 0, tried);
  }

  lemma ExhaustAgain(s: Settings, earlier: seq<Step>, out: Dispatch, spec: Spec, k: nat, last: nat)
    returns (steps: seq<Step>, d: Dispatch, tried: nat)
    requires Roomy(s) && k > 0 && Exhausted(s, earlier, out, spec, k - 1, last)
    ensures Exhausted(s, steps, d, spec, k, tried)
  {
    var max, spaces := s.limits.MaxFor(spec.policy) - 1, Spaces(s.limits.DeadlineFor(spec.policy));
    var before := Lesser(Rounds(k, max), spaces);
    RoundsAddUp(k, max, spaces);
    var lost, waiting := Loses(s, earlier, out, spec, last, 0, spec.createdAt + before * LEAST_WAIT);
    tried := Lesser(max, spaces - before);
    steps, d := Round(s, lost, waiting, spec, before, tried);
  }

  // Some run gets there.
  ghost predicate Exhaustible(s: Settings, spec: Spec, k: nat) {
    exists steps, d, tried: nat :: Exhausted(s, steps, d, spec, k, tried)
  }

  lemma CanExhaust(s: Settings, spec: Spec)
    requires Roomy(s) && spec.idemKey != ""
    ensures Exhaustible(s, spec, 0)
  {
    var steps, d, tried := ExhaustFirst(s, spec);
  }

  lemma CanExhaustAgain(s: Settings, spec: Spec, k: nat)
    requires Roomy(s) && k > 0 && Exhaustible(s, spec, k - 1)
    ensures Exhaustible(s, spec, k)
  {
    var earlier, out, last: nat :| Exhausted(s, earlier, out, spec, k - 1, last);
    var steps, d, tried := ExhaustAgain(s, earlier, out, spec, k, last);
  }

  lemma {:induction false} Induct(p: nat -> bool, k: nat)
    requires p(0) && forall i: nat | p(i) :: p(i + 1)
    ensures p(k)
  {
    if k == 0 {
    } else {
      Induct(p, k - 1);
      assert p(k - 1 + 1);
    }
  }

  lemma Exhaust(s: Settings, spec: Spec, k: nat)
    requires Roomy(s) && spec.idemKey != ""
    ensures Exhaustible(s, spec, k)
  {
    var p := (i: nat) => Exhaustible(s, spec, i);
    CanExhaust(s, spec);
    forall i: nat | p(i) ensures p(i + 1) {
      CanExhaustAgain(s, spec, i + 1);
    }
    Induct(p, k);
  }

  lemma MostIs(l: Limits, p: Policy, k: nat)
    requires l.MaxFor(p) >= 1
    ensures Most(l, p, k) == k + 1 + Lesser(Rounds(k + 1, l.MaxFor(p) - 1), Spaces(l.DeadlineFor(p)))
  {
    RoundsIsProduct(k + 1, l.MaxFor(p) - 1);
    assert (k + 1) * l.MaxFor(p) == (k + 1) * (l.MaxFor(p) - 1) + (k + 1);
  }

  /** The task is there after k crashes, all since its submission, and has cost as many requests as it can. */
  ghost predicate CostsMost(l: Limits, w: World, spec: Spec, k: nat) {
    && spec.id in w.sys.mem.tasks && w.sys.mem.tasks[spec.id].spec == spec
    && spec.id in w.log && spec.id in w.struck && w.crashes == k && w.struck[spec.id] == k
    && |w.log[spec.id]| == Most(l, spec.policy, k)
  }

  lemma ExhaustedCostsMost(s: Settings, steps: seq<Step>, d: Dispatch, spec: Spec, k: nat, tried: nat)
    requires Roomy(s) && Exhausted(s, steps, d, spec, k, tried)
    ensures CostsMost(s.limits, d.world, spec, k)
  {
    MostIs(s.limits, spec.policy, k);
  }

  /** The cap is reached, for every limit, every deadline and any number of crashes, by a run of the loop and its
      workers with retries as soon as the code allows: each crash loses the failures since it last came up, which no
      flush made durable in between, and the request in flight. */
  lemma CapIsReached(s: Settings, spec: Spec, k: nat) returns (steps: seq<Step>)
    requires Roomy(s) && spec.idemKey != ""
    ensures Run(s, BEGIN, steps) && CostsMost(s.limits, Ran(s, BEGIN, steps).world, spec, k)
  {
    Exhaust(s, spec, k);
    var reached, d, tried: nat :| Exhausted(s, reached, d, spec, k, tried);
    ExhaustedCostsMost(s, reached, d, spec, k, tried);
    steps := reached;
  }

  // ---- The design's bound ----

  /** One extra request per crash is all a crash costs the task. */
  ghost predicate OneExtraPerCrash(s: Settings, spec: Spec) {
    forall steps | Run(s, BEGIN, steps) && spec.id in Ran(s, BEGIN, steps).world.sys.mem.tasks
                   && Ran(s, BEGIN, steps).world.sys.mem.tasks[spec.id].spec.policy == spec.policy ::
      var w := Ran(s, BEGIN, steps).world;
      spec.id in w.log && |w.log[spec.id]| <= s.limits.MaxFor(spec.policy) + w.crashes
  }

  // All attempts, every failure but the last flushed at once.
  lemma SpendAll(s: Settings, spec: Spec) returns (steps: seq<Step>, d: Dispatch)
    requires Roomy(s) && spec.idemKey != "" && s.limits.MaxFor(spec.policy) >= 2
    requires s.limits.MaxFor(spec.policy) * LEAST_WAIT < s.limits.DeadlineFor(spec.policy)
    ensures var max := s.limits.MaxFor(spec.policy);
            && InAirIn(s, steps, d, spec, max - 1, max - 2, spec.createdAt + (max - 1) * LEAST_WAIT)
            && |d.world.log[spec.id]| == max && d.world.crashes == 0 == d.world.extra[spec.id]
  {
    var max, at := s.limits.MaxFor(spec.policy), spec.createdAt;
    var submitted, first := Submits(s, spec);
    var flushed, e := TriesOften(s, submitted, first, spec, max - 2, at, true);
    at := at + (max - 2) * LEAST_WAIT;
    var failed, f := TriesOnce(s, flushed, e, spec, max - 2, max - 2, at);
    steps, d := Sends(s, failed, f, spec, max - 1, max - 2, at + LEAST_WAIT);
  }

  // The crash strikes a failure a tenth of a second old, and the request in flight.
  lemma LoseTwo(s: Settings, spec: Spec) returns (steps: seq<Step>, d: Dispatch)
    requires Roomy(s) && spec.idemKey != "" && s.limits.MaxFor(spec.policy) >= 2
    requires s.limits.MaxFor(spec.policy) * LEAST_WAIT < s.limits.DeadlineFor(spec.policy)
    ensures var max := s.limits.MaxFor(spec.policy);
            && WaitsIn(s, steps, d, spec, max - 2, max - 2, spec.createdAt + (max - 1) * LEAST_WAIT)
            && |d.world.log[spec.id]| == max && d.world.crashes == 1 && d.world.extra[spec.id] == 2
  {
    var max := s.limits.MaxFor(spec.policy);
    var spent, out := SpendAll(s, spec);
    steps, d := Loses(s, spent, out, spec, max - 1, max - 2, spec.createdAt + (max - 1) * LEAST_WAIT);
  }

  /** A run in which one crash, which takes back a single failure beside the request in flight, costs a task two
      requests beyond its limit. */
  lemma OneLostFailure(s: Settings, spec: Spec) returns (steps: seq<Step>, d: Dispatch)
    requires Roomy(s) && spec.idemKey != "" && s.limits.MaxFor(spec.policy) >= 2
    requires s.limits.MaxFor(spec.policy) * LEAST_WAIT < s.limits.DeadlineFor(spec.policy)
    ensures Comes(s, steps, d) && spec.id in d.world.sys.mem.tasks && d.world.sys.mem.tasks[spec.id].spec == spec
    ensures spec.id in d.world.log && |d.world.log[spec.id]| == s.limits.MaxFor(spec.policy) + 2 && d.world.crashes == 1
    ensures spec.id in d.world.extra && d.world.extra[spec.id] == 2
  {
    var max := s.limits.MaxFor(spec.policy);
    var at := spec.createdAt + (max - 1) * LEAST_WAIT;
    var lost, again := LoseTwo(s, spec);
    var failed, f := TriesOnce(s, lost, again, spec, max - 2, max - 2, at);
    steps, d := Sends(s, failed, f, spec, max - 1, max - 2, at + LEAST_WAIT);
  }

  lemma MostIsOneExtra(l: Limits, p: Policy, struck: nat)
    requires l.MaxFor(p) == 1 || (l.MaxFor(p) > 1 && l.DeadlineFor(p) <= l.MaxFor(p) * LEAST_WAIT)
    ensures Most(l, p, struck) <= l.MaxFor(p) + struck
  {
    FitsIff(l.MaxFor(p), l.DeadlineFor(p));
  }

  /** The design's bound, one extra request per crash, holds of tasks with a limit of one attempt, of those whose
      deadline leaves no room for as many retries as their limit, and of no others: where it fails, a single crash
      shows it. */
  lemma OneExtraPerCrashIff(s: Settings, spec: Spec)
    requires Roomy(s) && spec.idemKey != ""
    ensures OneExtraPerCrash(s, spec) <==>
            s.limits.MaxFor(spec.policy) == 1
            || s.limits.DeadlineFor(spec.policy) <= s.limits.MaxFor(spec.policy) * LEAST_WAIT
  {
    var max := s.limits.MaxFor(spec.policy);
    if max == 1 || s.limits.DeadlineFor(spec.policy) <= max * LEAST_WAIT {
      forall steps | Run(s, BEGIN, steps) && spec.id in Ran(s, BEGIN, steps).world.sys.mem.tasks
                     && Ran(s, BEGIN, steps).world.sys.mem.tasks[spec.id].spec.policy == spec.policy
        ensures spec.id in Ran(s, BEGIN, steps).world.log
        ensures |Ran(s, BEGIN, steps).world.log[spec.id]| <= max + Ran(s, BEGIN, steps).world.crashes
      {
        var events := RunsArePlausible(s, steps);
        RequestsAreCapped(s.limits, events, spec.id);
        MostIsOneExtra(s.limits, spec.policy, Ran(s, BEGIN, steps).world.struck[spec.id]);
      }
    } else {
      var steps, d := OneLostFailure(s, spec);
      assert Run(s, BEGIN, steps) && Ran(s, BEGIN, steps) == d;
    }
  }
}
