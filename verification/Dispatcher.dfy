/** The scheduling loop and its workers as a step system: every channel operation, queue call and request is one step,
    and the steps of the loop, the workers and everyone else interleave in any order. */
module Dispatcher {
  import opened Model
  import opened Replay
  import opened QueueSpec
  import opened Simulation
  import opened System
  import opened Delivery
  import opened Verdict
  import opened Backoff

  datatype Settings = Settings(limits: Limits, workers: nat, perHost: nat, maxBackoff: int, hostOf: string -> string) {
    ghost predicate Ok() { limits.Ok() && MIN_DELAY <= maxBackoff }
  }

  const HOST_BUSY_DELAY: int := 200

  // Where the loop stands.  From Holding to PuttingBack it has a leased task in hand.
  datatype Pc =
    | Top
    | Ready
    | Parked(next: int)                        // waiting: for the signal, for the timer if next > 0, or to be cancelled
    | Holding(id: string, now: int)
    | Admitted(id: string, now: int, host: string)   // with a token of that host
    | PuttingBack(id: string, now: int)
    | Stopped
  {
    predicate HasTask() { Holding? || Admitted? || PuttingBack? }
  }

  datatype Phase = Starting | Sent | Recorded | HostFreed | SlotFreed {
    predicate Delivering() { Starting? || Sent? }
    predicate HoldsHost() { Delivering() || Recorded? }
    predicate HoldsSlot() { HoldsHost() || HostFreed? }
  }

  datatype Worker = Worker(id: string, host: string, phase: Phase)

  // `hosts` counts the tokens taken of each host, `slots` those taken of the pool.
  datatype Dispatch = Dispatch(world: World, pc: Pc, hosts: map<string, int>, slots: int, workers: map<nat, Worker>,
                               cancelled: bool)

  const BEGIN := Dispatch(START, Top, map[], 0, map[], false)

  datatype Step =
    | Cancel
    | Check                                  // the loop looks whether it was cancelled
    | FindNone(now: int, next: int)
    | Find(id: string, now: int)
    | Woken
    | TimerFires(now: int)
    | LeaveIdle
    | TakeHost
    | HostBusy
    | TakeSlot(k: nat)
    | GiveUpSlot
    | PutBack
    | Request(k: nat)
    | Settle(k: nat, res: Response, backoff: int, now: int)
    | FreeHost(k: nat)
    | FreeSlot(k: nat)
    | Finish(k: nat)
    | Elsewhere(op: Op)                      // callers of the queue, its upkeep, and crashes

  function Taken(hosts: map<string, int>, host: string): int { if host in hosts then hosts[host] else 0 }

  function HostOf(s: Settings, d: Dispatch): string
    requires d.pc.Holding? && d.pc.id in d.world.sys.mem.tasks
  {
    s.hostOf(d.world.sys.mem.tasks[d.pc.id].spec.target.url)
  }

  ghost predicate InPhase(d: Dispatch, k: nat, p: Phase) { k in d.workers && d.workers[k].phase == p }

  // A request that cannot be built is settled without being sent.
  ghost predicate MaySettle(d: Dispatch, k: nat, res: Response) {
    && k in d.workers && d.workers[k].id in d.world.sys.mem.tasks
    && (d.workers[k].phase.Sent? || (d.workers[k].phase.Starting? && res.failure.BadRequestSpec?))
  }

  // The last time read on account of a worker's task.
  function Clock(d: Dispatch, k: nat): int
    requires k in d.workers
  {
    var id := d.workers[k].id; if id in d.world.clock then d.world.clock[id] else 0
  }

  // What the code itself looks at before the step, time and the draw of the backoff being what they are.
  ghost predicate CanStep(s: Settings, d: Dispatch, step: Step) {
    var m := d.world.sys.mem;
    match step
    case Cancel => true
    case Check => d.pc.Top?
    case FindNone(now, next) => d.pc.Ready? && now >= 0 && IsNext(m, next) && (m.due == {} || next > now)
    case Find(id, now) =>
      d.pc.Ready? && Enabled(s.limits.queue, d.world.sys, Lease(id, now)) && InTime(d.world, Lease(id, now))
    case Woken => d.pc.Parked? && m.wake
    case TimerFires(now) => d.pc.Parked? && 0 < d.pc.next <= now
    case LeaveIdle => d.pc.Parked? && d.cancelled
    case TakeHost => d.pc.Holding? && d.pc.id in m.tasks && Taken(d.hosts, HostOf(s, d)) < s.perHost
    case HostBusy => d.pc.Holding? && d.pc.id in m.tasks && Taken(d.hosts, HostOf(s, d)) >= s.perHost
    case TakeSlot(k) => d.pc.Admitted? && d.slots < s.workers && k !in d.workers
    case GiveUpSlot => d.pc.Admitted? && d.cancelled
    case PutBack => d.pc.PuttingBack?
    case Request(k) => InPhase(d, k, Starting)
    case Settle(k, res, backoff, now) => MaySettle(d, k, res) && MIN_DELAY <= backoff && Clock(d, k) <= now
    case FreeHost(k) => InPhase(d, k, Recorded)
    case FreeSlot(k) => InPhase(d, k, HostFreed)
    case Finish(k) => InPhase(d, k, SlotFreed)
    case Elsewhere(op) =>
      && (op.Submit? || op.Revive? || op.Drop? || op.Sync? || op.Compact? || op.ResetCount? || op.Crash?)
      && Possible(s.limits, d.world, Do(op))
  }

  // What the step does to the queue and the outside world.
  ghost function EventOf(s: Settings, d: Dispatch, step: Step): Option<Event>
    requires CanStep(s, d, step)
  {
    match step
    case Find(id, now) => Some(Do(Lease(id, now)))
    case Woken => Some(Do(TakeWake))
    case HostBusy => Some(Do(Defer(d.pc.id, d.pc.now + HOST_BUSY_DELAY)))
    case PutBack => Some(Do(Defer(d.pc.id, d.pc.now)))
    case Request(k) => Some(Send(d.workers[k].id))
    case Settle(k, res, backoff, now) =>
      Some(Do(Judge(s.limits, d.world.sys.mem.tasks[d.workers[k].id], res, backoff, s.maxBackoff, now)))
    case Elsewhere(op) => Some(Do(op))
    case _ => None
  }

  ghost predicate Allowed(s: Settings, d: Dispatch, step: Step) {
    CanStep(s, d, step)
    && (EventOf(s, d, step).Some? ==> Possible(s.limits, d.world, EventOf(s, d, step).value))
  }

  ghost function WorldAfter(s: Settings, d: Dispatch, step: Step): World
    requires Allowed(s, d, step)
  {
    var e := EventOf(s, d, step);
    if e.Some? then Happen(s.limits, d.world, e.value) else d.world
  }

  ghost function After(s: Settings, d: Dispatch, step: Step): Dispatch
    requires Allowed(s, d, step)
  {
    var d' := d.(world := WorldAfter(s, d, step));
    match step
    case Cancel => d'.(cancelled := true)
    case Check => d'.(pc := if d.cancelled then Stopped else Ready)
    case FindNone(_, next) => d'.(pc := Parked(next))
    case Find(id, now) => d'.(pc := Holding(id, now))
    case Woken => d'.(pc := Top)
    case TimerFires(_) => d'.(pc := Top)
    case LeaveIdle => d'.(pc := Stopped)
    case TakeHost =>
      var host := HostOf(s, d);
      d'.(pc := Admitted(d.pc.id, d.pc.now, host), hosts := d.hosts[host := Taken(d.hosts, host) + 1])
    case HostBusy => d'.(pc := Top)
    case TakeSlot(k) =>
      d'.(pc := Top, slots := d.slots + 1, workers := d.workers[k := Worker(d.pc.id, d.pc.host, Starting)])
    case GiveUpSlot =>
      d'.(pc := PuttingBack(d.pc.id, d.pc.now), hosts := d.hosts[d.pc.host := Taken(d.hosts, d.pc.host) - 1])
    case PutBack => d'.(pc := Stopped)
    case Request(k) => d'.(workers := Moved(d.workers, k, Sent))
    case Settle(k, _, _, _) => d'.(workers := Moved(d.workers, k, Recorded))
    case FreeHost(k) =>
      var host := d.workers[k].host;
      d'.(workers := Moved(d.workers, k, HostFreed), hosts := d.hosts[host := Taken(d.hosts, host) - 1])
    case FreeSlot(k) => d'.(workers := Moved(d.workers, k, SlotFreed), slots := d.slots - 1)
    case Finish(k) => d'.(workers := d.workers - {k})
    case Elsewhere(op) =>
      // A crash is a restart of the whole process.
      if op.Crash? then BEGIN.(world := d'.world) else d'
  }

  function Moved(workers: map<nat, Worker>, k: nat, p: Phase): map<nat, Worker>
    requires k in workers
  {
    workers[k := workers[k].(phase := p)]
  }

  ghost predicate Run(s: Settings, d: Dispatch, steps: seq<Step>)
    decreases |steps|, 0
  {
    steps == [] || (Run(s, d, steps[..|steps| - 1]) && Allowed(s, Ran(s, d, steps[..|steps| - 1]), steps[|steps| - 1]))
  }

  ghost function Ran(s: Settings, d: Dispatch, steps: seq<Step>): Dispatch
    requires Run(s, d, steps)
    decreases |steps|, 1
  {
    if steps == [] then d else After(s, Ran(s, d, steps[..|steps| - 1]), steps[|steps| - 1])
  }

  // ---- Tokens ----

  ghost function HostHolders(workers: map<nat, Worker>, host: string): set<nat> {
    set k | k in workers && workers[k].phase.HoldsHost() && workers[k].host == host
  }

  ghost function SlotHolders(workers: map<nat, Worker>): set<nat> {
    set k | k in workers && workers[k].phase.HoldsSlot()
  }

  function Admits(pc: Pc, host: string): nat { if pc.Admitted? && pc.host == host then 1 else 0 }

  ghost predicate HostTokensOk(s: Settings, d: Dispatch, host: string) {
    Taken(d.hosts, host) == |HostHolders(d.workers, host)| + Admits(d.pc, host) <= s.perHost
  }

  ghost predicate TokensOk(s: Settings, d: Dispatch) {
    && (forall host :: HostTokensOk(s, d, host))
    && d.slots == |SlotHolders(d.workers)| <= s.workers
  }

  // A worker that moves on leaves the sets it no longer belongs to, and enters none.
  lemma MovedHolders(workers: map<nat, Worker>, k: nat, p: Phase, host: string)
    requires k in workers && (p.HoldsHost() ==> workers[k].phase.HoldsHost())
    requires p.HoldsSlot() ==> workers[k].phase.HoldsSlot()
    ensures var lost := if workers[k].phase.HoldsHost() && !p.HoldsHost() && workers[k].host == host then 1 else 0;
            |HostHolders(Moved(workers, k, p), host)| == |HostHolders(workers, host)| - lost
    ensures |SlotHolders(Moved(workers, k, p))| ==
            |SlotHolders(workers)| - (if workers[k].phase.HoldsSlot() && !p.HoldsSlot() then 1 else 0)
  {
    var before, after := HostHolders(workers, host), HostHolders(Moved(workers, k, p), host);
    assert after == if p.HoldsHost() then before else before - {k};
    var slots, left := SlotHolders(workers), SlotHolders(Moved(workers, k, p));
    assert left == if p.HoldsSlot() then slots else slots - {k};
  }

  lemma HiredHolders(workers: map<nat, Worker>, k: nat, w: Worker, host: string)
    requires k !in workers && w.phase.Starting?
    ensures |HostHolders(workers[k := w], host)| == |HostHolders(workers, host)| + (if w.host == host then 1 else 0)
    ensures |SlotHolders(workers[k := w])| == |SlotHolders(workers)| + 1
  {
    OneMoreHolder(HostHolders(workers, host), HostHolders(workers[k := w], host), if w.host == host then {k} else {});
    OneMoreHolder(SlotHolders(workers), SlotHolders(workers[k := w]), {k});
  }

  lemma OneMoreHolder(before: set<nat>, after: set<nat>, added: set<nat>)
    requires before !! added && forall j :: j in after <==> j in before || j in added
    ensures |after| == |before| + |added|
  {
    assert after == before + added;
  }

  lemma FinishedHolders(workers: map<nat, Worker>, k: nat, host: string)
    requires k in workers && workers[k].phase.SlotFreed?
    ensures HostHolders(workers - {k}, host) == HostHolders(workers, host)
    ensures SlotHolders(workers - {k}) == SlotHolders(workers)
  {}

  lemma LoopKeepsTokens(s: Settings, d: Dispatch, step: Step, host: string)
    requires Allowed(s, d, step) && TokensOk(s, d)
    requires !(step.Request? || step.Settle? || step.FreeHost? || step.FreeSlot? || step.Finish? || step.Elsewhere?)
    ensures var d' := After(s, d, step); HostTokensOk(s, d', host) && d'.slots == |SlotHolders(d'.workers)| <= s.workers
  {
    assert HostTokensOk(s, d, host);
    if step.TakeSlot? {
      HiredHolders(d.workers, step.k, Worker(d.pc.id, d.pc.host, Starting), host);
    }
  }

  lemma WorkerKeepsTokens(s: Settings, d: Dispatch, step: Step, host: string)
    requires Allowed(s, d, step) && TokensOk(s, d)
    requires step.Request? || step.Settle? || step.FreeHost? || step.FreeSlot? || step.Finish?
    ensures var d' := After(s, d, step); HostTokensOk(s, d', host) && d'.slots == |SlotHolders(d'.workers)| <= s.workers
  {
    assert HostTokensOk(s, d, host);
    match step
    case Request(k) => MovedHolders(d.workers, k, Sent, host);
    case Settle(k, _, _, _) => MovedHolders(d.workers, k, Recorded, host);
    case FreeHost(k) => MovedHolders(d.workers, k, HostFreed, host);
    case FreeSlot(k) => MovedHolders(d.workers, k, SlotFreed, host);
    case Finish(k) => FinishedHolders(d.workers, k, host);
  }

  lemma StepKeepsTokens(s: Settings, d: Dispatch, step: Step)
    requires Allowed(s, d, step) && TokensOk(s, d)
    ensures TokensOk(s, After(s, d, step))
  {
    var d' := After(s, d, step);
    assert HostTokensOk(s, d, "");
    forall host ensures HostTokensOk(s, d', host) && d'.slots == |SlotHolders(d'.workers)| <= s.workers {
      if step.Elsewhere? {
        assert HostTokensOk(s, d, host);
        assert HostHolders(map[], host) == {} && SlotHolders(map[]) == {};
      } else if step.Request? || step.Settle? || step.FreeHost? || step.FreeSlot? || step.Finish? {
        WorkerKeepsTokens(s, d, step, host);
      } else {
        LoopKeepsTokens(s, d, step, host);
      }
    }
    assert HostTokensOk(s, d', "");
  }

  // ---- Who has which task ----

  ghost function SendingIds(tasks: map<string, Task>): set<string> {
    set id | id in tasks && tasks[id].state.Sending?
  }

  function InHand(pc: Pc): set<string> { if pc.HasTask() then {pc.id} else {} }

  ghost function InDelivery(workers: map<nat, Worker>): set<string> {
    set k | k in workers && workers[k].phase.Delivering() :: workers[k].id
  }

  ghost function OutThere(workers: map<nat, Worker>): set<string> {
    set k | k in workers && workers[k].phase.Sent? :: workers[k].id
  }

  ghost predicate Distinct(workers: map<nat, Worker>) {
    forall j, k | j in workers && k in workers && workers[j].phase.Delivering() && workers[k].phase.Delivering()
                  && workers[j].id == workers[k].id :: j == k
  }

  // Every task marked as being sent is in exactly one pair of hands, and its request is out when that worker says so.
  ghost predicate Owned(sending: set<string>, sent: set<string>, pc: Pc, workers: map<nat, Worker>) {
    && sending == InHand(pc) + InDelivery(workers) && InHand(pc) !! InDelivery(workers)
    && sent == OutThere(workers)
    && Distinct(workers)
  }

  ghost predicate OwnersOk(d: Dispatch) {
    Owned(SendingIds(d.world.sys.mem.tasks), d.world.sent, d.pc, d.workers)
  }

  lemma MovedOwners(workers: map<nat, Worker>, k: nat, p: Phase)
    requires k in workers && Distinct(workers) && (p.Delivering() ==> workers[k].phase.Delivering())
    ensures var id, was := workers[k].id, workers[k].phase;
            && Distinct(Moved(workers, k, p))
            && InDelivery(Moved(workers, k, p)) ==
               (if was.Delivering() && !p.Delivering() then InDelivery(workers) - {id} else InDelivery(workers))
            && OutThere(Moved(workers, k, p)) ==
               (if p.Sent? then OutThere(workers) + {id}
                else if was.Sent? then OutThere(workers) - {id}
                else OutThere(workers))
  {
    var workers' := Moved(workers, k, p);
    forall j | j in workers ensures j in workers' && (j != k ==> workers'[j] == workers[j]) {}
    forall id ensures id in InDelivery(workers') <==>
                      id in InDelivery(workers)
                      && !(id == workers[k].id && workers[k].phase.Delivering() && !p.Delivering())
    {
      if j :| j in workers && workers[j].phase.Delivering() && workers[j].id == id {
        assert workers'[j].id == id;
      }
    }
  }

  lemma HiredOwners(workers: map<nat, Worker>, k: nat, w: Worker)
    requires k !in workers && w.phase.Starting? && Distinct(workers) && w.id !in InDelivery(workers)
    ensures Distinct(workers[k := w])
    ensures InDelivery(workers[k := w]) == InDelivery(workers) + {w.id}
    ensures OutThere(workers[k := w]) == OutThere(workers)
  {
    var workers' := workers[k := w];
    forall j | j in workers && workers[j].phase.Delivering() ensures workers[j].id in InDelivery(workers) {}
    forall id ensures id in InDelivery(workers') <==> id in InDelivery(workers) || id == w.id {
      if id == w.id {
        assert workers'[k].id == id;
      } else if j :| j in workers && workers[j].phase.Delivering() && workers[j].id == id {
        assert workers'[j].id == id;
      }
    }
    forall id ensures id in OutThere(workers') <==> id in OutThere(workers) {
      if j :| j in workers && workers[j].phase.Sent? && workers[j].id == id {
        assert workers'[j].id == id;
      }
    }
  }

  lemma FinishedOwners(workers: map<nat, Worker>, k: nat)
    requires k in workers && workers[k].phase.SlotFreed? && Distinct(workers)
    ensures Distinct(workers - {k}) && InDelivery(workers - {k}) == InDelivery(workers)
    ensures OutThere(workers - {k}) == OutThere(workers)
  {
    forall id ensures id in InDelivery(workers - {k}) <==> id in InDelivery(workers) {
      if j :| j in workers && workers[j].phase.Delivering() && workers[j].id == id {
        assert (workers - {k})[j].id == id;
      }
    }
    forall id ensures id in OutThere(workers - {k}) <==> id in OutThere(workers) {
      if j :| j in workers && workers[j].phase.Sent? && workers[j].id == id {
        assert (workers - {k})[j].id == id;
      }
    }
  }

  predicate IsOutcomeOp(op: Op) { op.Retry? || op.Succeed? || op.Bury? }

  // How an operation changes which tasks are being sent.
  ghost function SendingAfter(sending: set<string>, op: Op): set<string> {
    if op.Lease? then sending + {op.id}
    else if IsOutcomeOp(op) || op.Defer? then sending - {op.id}
    else if op.Crash? then {}
    else sending
  }

  lemma PutSending(tasks: map<string, Task>, id: string, t: Task)
    ensures SendingIds(tasks[id := t]) ==
            if t.state.Sending? then SendingIds(tasks) + {id} else SendingIds(tasks) - {id}
  {}

  lemma SingleSending(c: Config, s: Sys, op: Op)
    requires MemOk(c, s.mem) && System.Enabled(c, s, op) && SingleTask(op)
    ensures var m' := NextMem(c, s, op);
            && Subject(op) in m'.tasks && m'.tasks == s.mem.tasks[Subject(op) := m'.tasks[Subject(op)]]
            && (m'.tasks[Subject(op)].state.Sending? <==> op.Lease?)
  {}

  lemma OpSending(l: Limits, w: World, op: Op)
    requires WorldInv(l, w) && Possible(l, w, Do(op))
    ensures SendingIds(NextMem(l.queue, w.sys, op).tasks) == SendingAfter(SendingIds(w.sys.mem.tasks), op)
  {
    var m, m' := w.sys.mem, NextMem(l.queue, w.sys, op);
    if SingleTask(op) {
      SingleSending(l.queue, w.sys, op);
      PutSending(m.tasks, Subject(op), m'.tasks[Subject(op)]);
      if op.Submit? || op.Revive? {
        OthersSending(l.queue, w.sys, op);
      }
    } else {
      MassSending(l.queue, w.sys, op);
    }
  }

  // Any other operation on a task finds it at rest and leaves it so.
  lemma OthersSending(c: Config, s: Sys, op: Op)
    requires MemOk(c, s.mem) && System.Enabled(c, s, op) && (op.Submit? || op.Revive?)
    ensures Subject(op) !in SendingIds(s.mem.tasks)
  {}

  lemma MassSending(c: Config, s: Sys, op: Op)
    requires System.Enabled(c, s, op) && !SingleTask(op)
    ensures SendingIds(NextMem(c, s, op).tasks) == if op.Crash? then {} else SendingIds(s.mem.tasks)
  {
    if op.Drop? {
      assert SendingIds(NextMem(c, s, op).tasks) == SendingIds(s.mem.tasks);
    }
  }

  // What stays in someone's hands is not changed by others.
  lemma OpKeepsTask(l: Limits, w: World, op: Op, id: string)
    requires WorldInv(l, w) && Possible(l, w, Do(op)) && id in SendingIds(w.sys.mem.tasks)
    requires SingleTask(op) ==> Subject(op) != id
    requires !op.Crash?
    ensures id in NextMem(l.queue, w.sys, op).tasks
    ensures NextMem(l.queue, w.sys, op).tasks[id] == w.sys.mem.tasks[id]
  {}

  // ---- The invariant ----

  // The task in the loop's hand was due when it was leased.
  ghost predicate HandOk(d: Dispatch) {
    d.pc.HasTask() ==> d.pc.id in d.world.sys.mem.tasks && d.world.sys.mem.tasks[d.pc.id].nextAt <= d.pc.now
  }

  // A loop asleep with no signal waiting sleeps until the right time.
  ghost predicate Awake(d: Dispatch) {
    var m := d.world.sys.mem;
    d.pc.Parked? && !m.wake ==> IsNext(m, d.pc.next) && (m.due != {} ==> d.pc.next > 0)
  }

  ghost predicate DispatchInv(s: Settings, d: Dispatch) {
    WorldInv(s.limits, d.world) && TokensOk(s, d) && OwnersOk(d) && HandOk(d) && Awake(d)
  }

  lemma HeldFacts(s: Settings, d: Dispatch, id: string)
    requires WorldInv(s.limits, d.world) && OwnersOk(d) && id in InHand(d.pc) + InDelivery(d.workers)
    ensures id in d.world.sys.mem.tasks && d.world.sys.mem.tasks[id].state.Sending?
            && d.world.sys.mem.tasks[id].spec.id == id
    ensures id in d.world.log
    ensures id in InHand(d.pc) ==> id !in d.world.sent
  {
    var w := d.world;
    assert id in SendingIds(w.sys.mem.tasks);
    assert TaskOk(id, w.sys.mem.tasks[id]);
    assert Matches(Fold(w.sys.disk).tasks[id], w.sys.mem.tasks[id]);
    assert Paid(w, |w.sys.disk|, id);
    PaidAtEnd(w, id);
    if k :| k in d.workers && d.workers[k].phase.Sent? && d.workers[k].id == id {
      assert id in InDelivery(d.workers);
    }
  }

  lemma WorkerFacts(s: Settings, d: Dispatch, k: nat)
    requires WorldInv(s.limits, d.world) && OwnersOk(d) && k in d.workers && d.workers[k].phase.Delivering()
    ensures var id := d.workers[k].id;
            && id in d.world.sys.mem.tasks && d.world.sys.mem.tasks[id].state.Sending?
            && d.world.sys.mem.tasks[id].spec.id == id && id in d.world.log
            && (id in d.world.sent <==> d.workers[k].phase.Sent?)
  {
    assert d.workers[k].id in InDelivery(d.workers);
    HeldFacts(s, d, d.workers[k].id);
  }

  lemma SettlesItsTask(s: Settings, d: Dispatch, step: Step)
    requires WorldInv(s.limits, d.world) && OwnersOk(d) && CanStep(s, d, step) && step.Settle?
    ensures var op := EventOf(s, d, step).value.op; IsOutcomeOp(op) && op.id == d.workers[step.k].id
  {
    WorkerFacts(s, d, step.k);
  }

  lemma SettleIsPossible(s: Settings, d: Dispatch, step: Step)
    requires WorldInv(s.limits, d.world) && OwnersOk(d) && CanStep(s, d, step) && step.Settle?
    requires MIN_DELAY <= s.maxBackoff
    ensures Possible(s.limits, d.world, EventOf(s, d, step).value)
  {
    WorkerFacts(s, d, step.k);
    if d.workers[step.k].phase.Sent? {
      JudgedIsPossible(s.limits, d.world, d.workers[step.k].id, step.res, step.backoff, s.maxBackoff, step.now);
    }
  }

  lemma DeferIsPossible(s: Settings, d: Dispatch, at: int)
    requires WorldInv(s.limits, d.world) && OwnersOk(d) && HandOk(d) && d.pc.HasTask() && d.pc.now <= at
    ensures Possible(s.limits, d.world, Do(Defer(d.pc.id, at)))
  {
    HeldFacts(s, d, d.pc.id);
  }

  lemma OthersArePossible(s: Settings, d: Dispatch, step: Step)
    requires CanStep(s, d, step) && !step.HostBusy? && !step.PutBack? && !step.Request? && !step.Settle?
    ensures Allowed(s, d, step)
  {}

  /** Nothing the loop or a worker may do in a reachable state is refused: every lease, request, deferral and outcome is
      one the queue and the accounting of deliveries allow. */
  lemma NothingIsRefused(s: Settings, d: Dispatch, step: Step)
    requires s.Ok() && DispatchInv(s, d) && CanStep(s, d, step)
    ensures Allowed(s, d, step)
  {
    var e := EventOf(s, d, step);
    if step.HostBusy? {
      assert e == Some(Do(Defer(d.pc.id, d.pc.now + HOST_BUSY_DELAY)));
      DeferIsPossible(s, d, d.pc.now + HOST_BUSY_DELAY);
    } else if step.PutBack? {
      assert e == Some(Do(Defer(d.pc.id, d.pc.now)));
      DeferIsPossible(s, d, d.pc.now);
    } else if step.Request? {
      assert e == Some(Send(d.workers[step.k].id));
      WorkerFacts(s, d, step.k);
    } else if step.Settle? {
      SettleIsPossible(s, d, step);
    } else {
      OthersArePossible(s, d, step);
    }
  }

  // ---- Steps keep it ----

  lemma QuietKeepsOwners(s: Settings, d: Dispatch, step: Step)
    requires Allowed(s, d, step) && OwnersOk(d) && EventOf(s, d, step).None?
    ensures OwnersOk(After(s, d, step))
  {
    match step
    case TakeSlot(k) => HiredOwners(d.workers, k, Worker(d.pc.id, d.pc.host, Starting));
    case FreeHost(k) => MovedOwners(d.workers, k, HostFreed);
    case FreeSlot(k) => MovedOwners(d.workers, k, SlotFreed);
    case Finish(k) => FinishedOwners(d.workers, k);
    case _ =>
  }

  // How an event changes which tasks are being sent and which requests are out.
  ghost predicate Shifted(w: World, e: Event, w': World) {
    match e
    case Send(id) => w'.sys == w.sys && w'.sent == w.sent + {id}
    case Do(op) =>
      && SendingIds(w'.sys.mem.tasks) == SendingAfter(SendingIds(w.sys.mem.tasks), op)
      && w'.sent == if op.Crash? then {} else if IsOutcomeOp(op) then w.sent - {op.id} else w.sent
  }

  lemma HappenMem(l: Limits, w: World, op: Op)
    requires Possible(l, w, Do(op))
    ensures Happen(l, w, Do(op)).sys == Next(l.queue, w.sys, op)
    ensures Happen(l, w, Do(op)).sys.mem == NextMem(l.queue, w.sys, op)
    ensures Happen(l, w, Do(op)).sent == if op.Crash? then {} else if IsOutcomeOp(op) then w.sent - {op.id} else w.sent
  {}

  lemma EventShifts(l: Limits, w: World, e: Event)
    requires WorldInv(l, w) && Possible(l, w, e)
    ensures Shifted(w, e, Happen(l, w, e))
  {
    if e.Do? {
      OpSending(l, w, e.op);
      HappenMem(l, w, e.op);
    }
  }

  ghost predicate Shifts(s: Settings, d: Dispatch, step: Step) {
    Allowed(s, d, step) && EventOf(s, d, step).Some?
        && Shifted(d.world, EventOf(s, d, step).value, WorldAfter(s, d, step))
  }

  lemma LoopKeepsOwners(s: Settings, d: Dispatch, step: Step)
    requires Shifts(s, d, step) && OwnersOk(d)
    requires step.Find? || step.Woken? || step.HostBusy? || step.PutBack?
    requires step.Find? ==> step.id !in SendingIds(d.world.sys.mem.tasks)
    ensures OwnersOk(After(s, d, step))
  {
    assert After(s, d, step).workers == d.workers;
  }

  lemma RequestKeepsOwners(s: Settings, d: Dispatch, step: Step)
    requires Shifts(s, d, step) && OwnersOk(d) && step.Request?
    ensures OwnersOk(After(s, d, step))
  {
    MovedOwners(d.workers, step.k, Sent);
  }

  lemma SettleKeepsOwners(s: Settings, d: Dispatch, step: Step)
    requires Shifts(s, d, step) && OwnersOk(d) && step.Settle?
    requires var op := EventOf(s, d, step).value.op; IsOutcomeOp(op) && op.id == d.workers[step.k].id
    ensures OwnersOk(After(s, d, step))
  {
    MovedOwners(d.workers, step.k, Recorded);
    assert d.workers[step.k].id in InDelivery(d.workers);
  }

  lemma ElsewhereKeepsOwners(s: Settings, d: Dispatch, step: Step)
    requires Shifts(s, d, step) && OwnersOk(d) && step.Elsewhere?
    ensures OwnersOk(After(s, d, step))
  {
    var d' := After(s, d, step);
    assert d'.world == WorldAfter(s, d, step);
    if step.op.Crash? {
      NobodyOwns();
    }
  }

  lemma NobodyOwns()
    ensures Owned({}, {}, Top, map[])
  {}

  lemma StepKeepsOwners(s: Settings, d: Dispatch, step: Step)
    requires WorldInv(s.limits, d.world) && Allowed(s, d, step) && OwnersOk(d)
    ensures OwnersOk(After(s, d, step))
  {
    if EventOf(s, d, step).None? {
      QuietKeepsOwners(s, d, step);
    } else {
      EventShifts(s.limits, d.world, EventOf(s, d, step).value);
      if step.Elsewhere? {
        ElsewhereKeepsOwners(s, d, step);
      } else if step.Request? {
        RequestKeepsOwners(s, d, step);
      } else if step.Settle? {
        SettlesItsTask(s, d, step);
        SettleKeepsOwners(s, d, step);
      } else {
        if step.Find? {
          assert step.id in ScheduledIds(d.world.sys.mem.tasks);
        }
        LoopKeepsOwners(s, d, step);
      }
    }
  }

  // Only the loop's own steps touch the task it has in hand.
  lemma HandUntouched(s: Settings, d: Dispatch, step: Step)
    requires WorldInv(s.limits, d.world) && Allowed(s, d, step) && OwnersOk(d) && HandOk(d) && d.pc.HasTask()
    requires !step.HostBusy? && !step.PutBack? && !(step.Elsewhere? && step.op.Crash?)
    ensures var before, after := d.world.sys.mem.tasks, WorldAfter(s, d, step).sys.mem.tasks;
            d.pc.id in after && after[d.pc.id] == before[d.pc.id]
  {
    if step.Settle? {
      SettlesItsTask(s, d, step);
      assert d.workers[step.k].id in InDelivery(d.workers);
    }
    var e := EventOf(s, d, step);
    if e.Some? && e.value.Do? {
      assert d.pc.id in SendingIds(d.world.sys.mem.tasks);
      OpKeepsTask(s.limits, d.world, e.value.op, d.pc.id);
      HappenMem(s.limits, d.world, e.value.op);
    }
  }

  lemma FindFillsHand(s: Settings, d: Dispatch, step: Step)
    requires Allowed(s, d, step) && step.Find?
    ensures HandOk(After(s, d, step))
  {
    HappenMem(s.limits, d.world, Lease(step.id, step.now));
  }

  // Whoever still has a task in hand after any other step had it before.
  lemma SameHand(s: Settings, d: Dispatch, step: Step)
    requires Allowed(s, d, step) && !step.Find? && After(s, d, step).pc.HasTask()
    ensures d.pc.HasTask() && After(s, d, step).pc.id == d.pc.id && After(s, d, step).pc.now == d.pc.now
    ensures !step.HostBusy? && !step.PutBack? && !(step.Elsewhere? && step.op.Crash?)
    ensures After(s, d, step).world == WorldAfter(s, d, step)
  {}

  lemma StepKeepsHand(s: Settings, d: Dispatch, step: Step)
    requires WorldInv(s.limits, d.world) && Allowed(s, d, step) && OwnersOk(d) && HandOk(d)
    ensures HandOk(After(s, d, step))
  {
    if step.Find? {
      FindFillsHand(s, d, step);
    } else if After(s, d, step).pc.HasTask() {
      SameHand(s, d, step);
      HandUntouched(s, d, step);
    }
  }

  // Whatever leaves the signal unset leaves the heap as the loop last saw it.
  lemma OpKeepsHeap(l: Limits, w: World, op: Op)
    requires WorldInv(l, w) && Possible(l, w, Do(op))
    requires !op.Lease? && !op.TakeWake? && !NextMem(l.queue, w.sys, op).wake
    ensures SameHeap(w.sys.mem, NextMem(l.queue, w.sys, op))
  {
    assert w.sys.mem.due == ScheduledIds(w.sys.mem.tasks);
  }

  ghost predicate SameHeap(m: Mem, m': Mem) {
    && m'.due == m.due
    && (forall id | id in m.due :: id in m.tasks && id in m'.tasks && m'.tasks[id] == m.tasks[id])
  }

  lemma OpKeepsNext(m: Mem, m': Mem, next: int)
    requires SameHeap(m, m') && IsNext(m, next)
    ensures IsNext(m', next)
  {
    if m.due != {} {
      var id :| id in m.due && id in m.tasks && m.tasks[id].nextAt == next;
      assert m'.tasks[id].nextAt == next;
    }
  }

  lemma OpKeepsWake(c: Config, s: Sys, op: Op)
    requires System.Enabled(c, s, op) && s.mem.wake && !op.TakeWake?
    ensures NextMem(c, s, op).wake
  {}

  lemma StepKeepsAwake(s: Settings, d: Dispatch, step: Step)
    requires WorldInv(s.limits, d.world) && Allowed(s, d, step) && Awake(d)
    ensures Awake(After(s, d, step))
  {
    var d', e := After(s, d, step), EventOf(s, d, step);
    if d'.pc.Parked? && !step.FindNone? && e.Some? && e.value.Do? {
      assert d'.pc == d.pc;
      HappenMem(s.limits, d.world, e.value.op);
      if d.world.sys.mem.wake {
        OpKeepsWake(s.limits.queue, d.world.sys, e.value.op);
      } else if !d'.world.sys.mem.wake {
        OpKeepsHeap(s.limits, d.world, e.value.op);
        OpKeepsNext(d.world.sys.mem, d'.world.sys.mem, d.pc.next);
      }
    }
  }

  lemma WorldStaysSound(s: Settings, d: Dispatch, step: Step)
    requires s.Ok() && WorldInv(s.limits, d.world) && Allowed(s, d, step)
    ensures WorldInv(s.limits, After(s, d, step).world)
  {
    var e := EventOf(s, d, step);
    if e.Some? {
      EventKeepsInv(s.limits, d.world, e.value);
    }
  }

  /** Every step of the loop, of a worker and of anyone else keeps the invariant, and so does a crash. */
  lemma StepKeepsDispatch(s: Settings, d: Dispatch, step: Step)
    requires s.Ok() && DispatchInv(s, d) && Allowed(s, d, step)
    ensures DispatchInv(s, After(s, d, step))
  {
    WorldStaysSound(s, d, step);
    StepKeepsTokens(s, d, step);
    StepKeepsOwners(s, d, step);
    StepKeepsHand(s, d, step);
    StepKeepsAwake(s, d, step);
  }

  lemma BeginInv(s: Settings)
    requires s.Ok()
    ensures DispatchInv(s, BEGIN)
  {
    StartInv(s.limits);
    NobodyOwns();
    assert SendingIds(START.sys.mem.tasks) == {};
    forall host ensures HostTokensOk(s, BEGIN, host) {
      assert HostHolders(map[], host) == {};
    }
    assert SlotHolders(map[]) == {};
  }

  lemma {:induction false} RunKeepsDispatch(s: Settings, steps: seq<Step>)
    requires s.Ok() && Run(s, BEGIN, steps)
    ensures DispatchInv(s, Ran(s, BEGIN, steps))
    decreases |steps|
  {
    if steps == [] {
      BeginInv(s);
    } else {
      RunKeepsDispatch(s, steps[..|steps| - 1]);
      StepKeepsDispatch(s, Ran(s, BEGIN, steps[..|steps| - 1]), steps[|steps| - 1]);
    }
  }

  // ---- What this means for every run ----

  /** The loop and its workers refine the accounting of deliveries: every run of theirs is a run of the world it
      counts in, and no step the code would take is refused on the way. */
  lemma {:induction false} RunsArePlausible(s: Settings, steps: seq<Step>) returns (events: seq<Event>)
    requires s.Ok() && Run(s, BEGIN, steps)
    ensures Plausible(s.limits, START, events) && Replayed(s.limits, START, events) == Ran(s, BEGIN, steps).world
    ensures forall step | CanStep(s, Ran(s, BEGIN, steps), step) :: Allowed(s, Ran(s, BEGIN, steps), step)
    decreases |steps|
  {
    events := [];
    if steps != [] {
      var before, step := Ran(s, BEGIN, steps[..|steps| - 1]), steps[|steps| - 1];
      events := RunsArePlausible(s, steps[..|steps| - 1]);
      var e := EventOf(s, before, step);
      if e.Some? {
        events := OneMore(s.limits, events, e.value);
      }
    }
    RunKeepsDispatch(s, steps);
    forall step | CanStep(s, Ran(s, BEGIN, steps), step) ensures Allowed(s, Ran(s, BEGIN, steps), step) {
      NothingIsRefused(s, Ran(s, BEGIN, steps), step);
    }
  }

  /** So the bound on requests holds of the service as it runs. */
  lemma RunsSendBoundedly(s: Settings, steps: seq<Step>, id: string)
    requires s.Ok() && Run(s, BEGIN, steps) && id in Ran(s, BEGIN, steps).world.sys.mem.tasks
    ensures var w := Ran(s, BEGIN, steps).world;
            && id in w.log && id in w.extra
            && |w.log[id]| <= s.limits.MaxFor(w.sys.mem.tasks[id].spec.policy) + w.extra[id]
  {
    var events := RunsArePlausible(s, steps);
    RequestsAreBounded(s.limits, events, id);
  }

  /** Tokens are conserved: of each host as many are out as workers hold, plus one if the loop waits with one for a
      slot, and slots as many as workers hold; neither ever exceeds its limit, and no release can block. */
  lemma TokensAreConserved(s: Settings, steps: seq<Step>, host: string)
    requires s.Ok() && Run(s, BEGIN, steps)
    ensures var d := Ran(s, BEGIN, steps);
            && Taken(d.hosts, host) == |HostHolders(d.workers, host)| + Admits(d.pc, host) <= s.perHost
            && d.slots == |SlotHolders(d.workers)| <= s.workers
            && (d.pc.Admitted? ==> Taken(d.hosts, d.pc.host) > 0)
            && (forall k | k in d.workers && d.workers[k].phase.HoldsHost() :: Taken(d.hosts, d.workers[k].host) > 0)
            && (forall k | k in d.workers && d.workers[k].phase.HoldsSlot() :: d.slots > 0)
  {
    RunKeepsDispatch(s, steps);
    HeldTokens(s, Ran(s, BEGIN, steps), host);
  }

  lemma HeldTokens(s: Settings, d: Dispatch, host: string)
    requires TokensOk(s, d)
    ensures Taken(d.hosts, host) == |HostHolders(d.workers, host)| + Admits(d.pc, host) <= s.perHost
    ensures d.pc.Admitted? ==> Taken(d.hosts, d.pc.host) > 0
    ensures forall k | k in d.workers && d.workers[k].phase.HoldsHost() :: Taken(d.hosts, d.workers[k].host) > 0
    ensures forall k | k in d.workers && d.workers[k].phase.HoldsSlot() :: d.slots > 0
  {
    assert HostTokensOk(s, d, host);
    if d.pc.Admitted? {
      assert HostTokensOk(s, d, d.pc.host);
    }
    forall k | k in d.workers && d.workers[k].phase.HoldsHost() ensures Taken(d.hosts, d.workers[k].host) > 0 {
      assert HostTokensOk(s, d, d.workers[k].host) && k in HostHolders(d.workers, d.workers[k].host);
    }
    forall k | k in d.workers && d.workers[k].phase.HoldsSlot() ensures d.slots > 0 {
      assert k in SlotHolders(d.workers);
    }
  }

  // As many workers as the limit hold a token of the task's host: then, and then only, the task is put off.
  ghost predicate HostTokenTaken(s: Settings, d: Dispatch) {
    d.pc.Holding? ==>
      && d.pc.id in d.world.sys.mem.tasks
      && var n := |HostHolders(d.workers, s.hostOf(d.world.sys.mem.tasks[d.pc.id].spec.target.url))|;
         (CanStep(s, d, TakeHost) <==> n < s.perHost) && (CanStep(s, d, HostBusy) <==> n == s.perHost)
  }

  ghost predicate SlotTaken(s: Settings, d: Dispatch) {
    d.pc.Admitted? ==> ((exists k :: CanStep(s, d, TakeSlot(k))) <==> |SlotHolders(d.workers)| < s.workers)
  }

  lemma HolderTakesToken(s: Settings, d: Dispatch)
    requires WorldInv(s.limits, d.world) && TokensOk(s, d) && OwnersOk(d)
    ensures HostTokenTaken(s, d)
  {
    if d.pc.Holding? {
      assert d.pc.id in InHand(d.pc);
      HeldFacts(s, d, d.pc.id);
      assert HostTokensOk(s, d, HostOf(s, d));
    }
  }

  lemma AdmittedTakesSlot(s: Settings, d: Dispatch)
    requires TokensOk(s, d)
    ensures SlotTaken(s, d)
  {
    if d.pc.Admitted? && d.slots < s.workers {
      var k := FreshWorker(d.workers.Keys);
      assert CanStep(s, d, TakeSlot(k));
    }
  }

  /** No token is left unused: with a task in hand, the loop takes a token of its host whenever fewer workers than the
      limit hold one, and puts the task off exactly when the limit is reached; with that token, it takes a slot whenever
      fewer workers than there may be hold one. */
  lemma FreeTokensAreTaken(s: Settings, steps: seq<Step>)
    requires s.Ok() && Run(s, BEGIN, steps)
    ensures HostTokenTaken(s, Ran(s, BEGIN, steps)) && SlotTaken(s, Ran(s, BEGIN, steps))
  {
    RunKeepsDispatch(s, steps);
    HolderTakesToken(s, Ran(s, BEGIN, steps));
    AdmittedTakesSlot(s, Ran(s, BEGIN, steps));
  }

  /** A task put off because its host is busy is due again 200 ms after it was leased, one put back at shutdown at once;
      neither has used up an attempt. */
  lemma PuttingOffIsFree(s: Settings, d: Dispatch, step: Step)
    requires s.Ok() && DispatchInv(s, d) && CanStep(s, d, step) && (step.HostBusy? || step.PutBack?)
    ensures Allowed(s, d, step)
    ensures var d', id := After(s, d, step), d.pc.id;
            && id in d.world.sys.mem.tasks && id in d'.world.sys.mem.tasks
            && var t, t' := d.world.sys.mem.tasks[id], d'.world.sys.mem.tasks[id];
               && t'.state.Pending? && t'.nextAt == d.pc.now + (if step.HostBusy? then 200 else 0)
               && t'.attempts == t.attempts && t'.spec == t.spec && t'.updatedAt == t.updatedAt
               && id in d'.world.sys.mem.due && d'.world.log == d.world.log
               && d'.pc == (if step.HostBusy? then Top else Stopped) && d'.hosts == d.hosts && d'.slots == d.slots
  {
    NothingIsRefused(s, d, step);
    HappenMem(s.limits, d.world, EventOf(s, d, step).value.op);
  }

  ghost function DueBy(m: Mem, now: int): set<string> {
    set id | id in m.tasks && m.tasks[id].state.Scheduled() && m.tasks[id].nextAt <= now
  }

  // Asleep if and only if nothing is due, and otherwise with a task that none is due before.
  ghost predicate TakesWhatIsDue(s: Settings, d: Dispatch, now: int) {
    var m := d.world.sys.mem;
    && ((exists next :: CanStep(s, d, FindNone(now, next))) <==> DueBy(m, now) == {})
    && ((exists id :: CanStep(s, d, Find(id, now))) <==> DueBy(m, now) != {})
    && (forall id | CanStep(s, d, Find(id, now)) ::
          id in DueBy(m, now) && forall other | other in DueBy(m, now) :: m.tasks[id].nextAt <= m.tasks[other].nextAt)
  }

  lemma ReadyTakesWhatIsDue(s: Settings, d: Dispatch, now: int)
    requires d.pc.Ready? && now >= 0 && d.world.sys.mem.due == ScheduledIds(d.world.sys.mem.tasks)
    requires forall id | id in d.world.clock :: d.world.clock[id] <= now
    ensures TakesWhatIsDue(s, d, now)
  {
    var m := d.world.sys.mem;
    if m.due == {} {
      assert CanStep(s, d, FindNone(now, 0));
    } else {
      var id := LeastDue(m, m.due);
      if m.tasks[id].nextAt <= now {
        assert CanStep(s, d, Find(id, now)) && id in DueBy(m, now);
      } else {
        assert CanStep(s, d, FindNone(now, m.tasks[id].nextAt));
      }
    }
  }

  /** At each look into the heap the loop leases a task that is due, none due before it, if there is one, and goes to
      sleep only if there is none; once cancelled it looks no more. */
  lemma LoopTakesWhatIsDue(s: Settings, steps: seq<Step>, now: int)
    requires s.Ok() && Run(s, BEGIN, steps) && now >= 0
    requires forall id | id in Ran(s, BEGIN, steps).world.clock :: Ran(s, BEGIN, steps).world.clock[id] <= now
    ensures var d := Ran(s, BEGIN, steps);
            && (d.pc.Ready? ==> TakesWhatIsDue(s, d, now))
            && (d.pc.Top? ==> After(s, d, Check).pc == if d.cancelled then Stopped else Ready)
  {
    RunKeepsDispatch(s, steps);
    var d := Ran(s, BEGIN, steps);
    if d.pc.Ready? {
      ReadyTakesWhatIsDue(s, d, now);
    }
  }

  /** No task is ever in two pairs of hands: what is marked as being sent is with exactly one worker or with the loop,
      and only what is in nobody's hands is in the heap to be leased. */
  lemma NoTaskIsLeasedTwice(s: Settings, steps: seq<Step>, j: nat, k: nat)
    requires s.Ok() && Run(s, BEGIN, steps)
    requires var ws := Ran(s, BEGIN, steps).workers;
             j in ws && k in ws && ws[j].phase.Delivering() && ws[k].phase.Delivering() && ws[j].id == ws[k].id
    ensures j == k
    ensures var d := Ran(s, BEGIN, steps);
            && !(d.pc.HasTask() && d.pc.id == d.workers[j].id) && d.workers[j].id !in d.world.sys.mem.due
            && SendingIds(d.world.sys.mem.tasks) == InHand(d.pc) + InDelivery(d.workers)
  {
    RunKeepsDispatch(s, steps);
    var d := Ran(s, BEGIN, steps);
    assert d.workers[j].id in InDelivery(d.workers);
    assert d.world.sys.mem.due == ScheduledIds(d.world.sys.mem.tasks);
    assert d.workers[j].id in SendingIds(d.world.sys.mem.tasks);
  }

  /** No wake-up is lost: while the loop sleeps without a signal, the heap is empty and it has no timer, or its timer
      is set to the least due time in the heap; so by the time any task is due, the timer has gone off. */
  lemma NoWakeUpIsLost(s: Settings, steps: seq<Step>)
    requires s.Ok() && Run(s, BEGIN, steps)
    requires Ran(s, BEGIN, steps).pc.Parked? && !Ran(s, BEGIN, steps).world.sys.mem.wake
    ensures var d := Ran(s, BEGIN, steps);
            && IsNext(d.world.sys.mem, d.pc.next)
            && (forall id, now | id in d.world.sys.mem.due && id in d.world.sys.mem.tasks
                                 && d.world.sys.mem.tasks[id].nextAt <= now :: CanStep(s, d, TimerFires(now)))
  {
    RunKeepsDispatch(s, steps);
  }

  // Only an order to stop makes the loop return, or put its task back on the way.
  ghost predicate Ordered(d: Dispatch) { d.pc.Stopped? || d.pc.PuttingBack? ==> d.cancelled }

  lemma StepKeepsOrdered(s: Settings, d: Dispatch, step: Step)
    requires Allowed(s, d, step) && Ordered(d)
    ensures Ordered(After(s, d, step))
  {}

  /** The loop returns on an order to stop and on nothing else, crashes apart; whatever ends its sleep otherwise sends
      it back to look again. */
  lemma {:induction false} StopsOnlyOnOrder(s: Settings, steps: seq<Step>)
    requires s.Ok() && Run(s, BEGIN, steps)
    ensures var d := Ran(s, BEGIN, steps);
            && (d.pc.Stopped? ==> d.cancelled)
            && (d.pc.Parked? && d.cancelled ==> CanStep(s, d, LeaveIdle) && After(s, d, LeaveIdle).pc.Stopped?)
            && (forall step | CanStep(s, d, step) && Allowed(s, d, step) && (step.Woken? || step.TimerFires?) ::
                  After(s, d, step).pc.Top?)
            && Ordered(d)
    decreases |steps|
  {
    if steps != [] {
      var init, last := steps[..|steps| - 1], steps[|steps| - 1];
      StopsOnlyOnOrder(s, init);
      StepKeepsOrdered(s, Ran(s, BEGIN, init), last);
    }
  }

  /** In every reachable state, a worker whose request is out can record any answer at any later time, and its task then
      is what the answer says, no longer out and no longer in its hands. */
  lemma AnyAnswerIsRecorded(s: Settings, steps: seq<Step>, k: nat, res: Response, backoff: int, now: int)
    requires s.Ok() && Run(s, BEGIN, steps) && InPhase(Ran(s, BEGIN, steps), k, Sent)
    requires MIN_DELAY <= backoff && Clock(Ran(s, BEGIN, steps), k) <= now
    ensures var d, step := Ran(s, BEGIN, steps), Settle(k, res, backoff, now);
            && CanStep(s, d, step) && Allowed(s, d, step)
            && var d', id := After(s, d, step), d.workers[k].id;
               && id in d.world.sys.mem.tasks && id in d'.world.sys.mem.tasks
               && AsAnswered(d.world.sys.mem.tasks[id], d'.world.sys.mem.tasks[id], s.limits, res, backoff,
                             s.maxBackoff, now)
               && d'.world.sent == d.world.sent - {id} && id !in InDelivery(d'.workers) && InPhase(d', k, Recorded)
  {
    RunKeepsDispatch(s, steps);
    AnswerIsRecorded(s, Ran(s, BEGIN, steps), k, res, backoff, now);
  }

  lemma AnswerIsRecorded(s: Settings, d: Dispatch, k: nat, res: Response, backoff: int, now: int)
    requires s.Ok() && DispatchInv(s, d) && InPhase(d, k, Sent) && MIN_DELAY <= backoff && Clock(d, k) <= now
    ensures var step := Settle(k, res, backoff, now);
            && CanStep(s, d, step) && Allowed(s, d, step)
            && var d', id := After(s, d, step), d.workers[k].id;
               && id in d.world.sys.mem.tasks && id in d'.world.sys.mem.tasks
               && AsAnswered(d.world.sys.mem.tasks[id], d'.world.sys.mem.tasks[id], s.limits, res, backoff,
                             s.maxBackoff, now)
               && d'.world.sent == d.world.sent - {id} && id !in InDelivery(d'.workers) && InPhase(d', k, Recorded)
  {
    var step, id := Settle(k, res, backoff, now), d.workers[k].id;
    WorkerFacts(s, d, k);
    NothingIsRefused(s, d, step);
    SettlesItsTask(s, d, step);
    var op := EventOf(s, d, step).value.op;
    HappenMem(s.limits, d.world, op);
    MovedOwners(d.workers, k, Recorded);
    EffectInNumbers(s.limits, d.world.sys.mem.tasks[id], res, backoff, s.maxBackoff, now);
    LeadsToEffect(s.limits.queue, d.world.sys, op, Next(s.limits.queue, d.world.sys, op));
  }

  /** After a shutdown, once the loop has returned and every worker is done, nothing is being sent and all tokens are
      back. */
  lemma ShutdownIsClean(s: Settings, steps: seq<Step>, host: string)
    requires s.Ok() && Run(s, BEGIN, steps)
    requires Ran(s, BEGIN, steps).pc.Stopped? && Ran(s, BEGIN, steps).workers == map[]
    ensures var d := Ran(s, BEGIN, steps);
            && SendingIds(d.world.sys.mem.tasks) == {} && d.world.sent == {}
            && LiveIds(d.world.sys.mem.tasks) == d.world.sys.mem.due
            && d.slots == 0 && Taken(d.hosts, host) == 0
  {
    RunKeepsDispatch(s, steps);
    var d := Ran(s, BEGIN, steps);
    assert HostTokensOk(s, d, host);
    assert HostHolders(map[], host) == {} && SlotHolders(map[]) == {};
    NobodyOwns();
    assert InDelivery(d.workers) == {} && OutThere(d.workers) == {};
    var m := d.world.sys.mem;
    assert m.due == ScheduledIds(m.tasks);
    forall id ensures id in LiveIds(m.tasks) <==> id in ScheduledIds(m.tasks) {
      assert id !in SendingIds(m.tasks);
    }
  }

  // ---- Never stuck ----

  lemma {:induction false} FreshWorker(used: set<nat>) returns (k: nat)
    ensures forall u | u in used :: u < k
    decreases |used|
  {
    k := 0;
    if u :| u in used {
      var rest := FreshWorker(used - {u});
      assert forall v | v in used :: v == u || v in used - {u};
      k := if rest <= u then u + 1 else rest;
    }
  }

  lemma {:induction false} LeastDue(m: Mem, ids: set<string>) returns (id: string)
    requires ids != {} && ids <= m.tasks.Keys
    ensures id in ids && forall other | other in ids :: m.tasks[id].nextAt <= m.tasks[other].nextAt
    decreases |ids|
  {
    var one :| one in ids;
    var others := ids - {one};
    assert forall other | other in ids :: other == one || other in others;
    if others == {} {
      id := one;
    } else {
      var least := LeastDue(m, others);
      id := if m.tasks[least].nextAt < m.tasks[one].nextAt then least else one;
    }
  }

  // A worker that holds a slot has a step to take.
  lemma SlotHolderMoves(s: Settings, d: Dispatch, k: nat) returns (step: Step)
    requires DispatchInv(s, d) && k in SlotHolders(d.workers)
    ensures CanStep(s, d, step) && !step.Elsewhere? && !step.Cancel?
  {
    match d.workers[k].phase
    case Starting => step := Request(k);
    case Sent =>
      WorkerFacts(s, d, k);
      step := Settle(k, Response(200, NoError, Absent), MIN_DELAY, Clock(d, k));
    case Recorded => step := FreeHost(k);
    case HostFreed => step := FreeSlot(k);
    case SlotFreed => assert false;
  }

  lemma ReadyMoves(s: Settings, d: Dispatch) returns (step: Step)
    requires DispatchInv(s, d) && d.pc.Ready?
    ensures CanStep(s, d, step) && !step.Elsewhere? && !step.Cancel?
  {
    var m := d.world.sys.mem;
    if m.due == {} {
      step := FindNone(0, 0);
    } else {
      assert m.due == ScheduledIds(m.tasks);
      var id := LeastDue(m, m.due);
      var now := if id in d.world.clock then Max(m.tasks[id].nextAt, d.world.clock[id]) else m.tasks[id].nextAt;
      step := Find(id, now);
    }
  }

  lemma AdmittedMoves(s: Settings, d: Dispatch) returns (step: Step)
    requires DispatchInv(s, d) && d.pc.Admitted? && s.workers >= 1
    ensures CanStep(s, d, step) && !step.Elsewhere? && !step.Cancel?
  {
    if d.slots < s.workers {
      var k := FreshWorker(d.workers.Keys);
      step := TakeSlot(k);
    } else {
      var k :| k in SlotHolders(d.workers);
      step := SlotHolderMoves(s, d, k);
    }
  }

  /** Loop and workers never block each other: in every reachable state, short of a loop that has returned, one of
      them can move, unless the loop sleeps before an empty heap with no signal and no order to stop. */
  lemma NeverStuck(s: Settings, steps: seq<Step>) returns (step: Step)
    requires s.Ok() && s.workers >= 1 && Run(s, BEGIN, steps)
    requires var d := Ran(s, BEGIN, steps);
             !d.pc.Stopped? && !(d.pc.Parked? && d.world.sys.mem.due == {} && !d.world.sys.mem.wake && !d.cancelled)
    ensures CanStep(s, Ran(s, BEGIN, steps), step) && !step.Elsewhere? && !step.Cancel?
  {
    RunKeepsDispatch(s, steps);
    var d := Ran(s, BEGIN, steps);
    match d.pc
    case Top => step := Check;
    case Ready => step := ReadyMoves(s, d);
    case Parked(next) =>
      step := if d.world.sys.mem.wake then Woken else if d.cancelled then LeaveIdle else TimerFires(next);
    case Holding(id, _) =>
      assert id in InHand(d.pc);
      HeldFacts(s, d, id);
      step := if Taken(d.hosts, HostOf(s, d)) < s.perHost then TakeHost else HostBusy;
    case Admitted(_, _, _) => step := AdmittedMoves(s, d);
    case PuttingBack(_, _) => step := PutBack;
  }
}
