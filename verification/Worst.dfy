/** The most requests a task can cause: a cap in terms of crashes, and runs that reach it. */
module Worst {
  import opened Model
  import opened Replay
  import opened QueueSpec
  import opened Simulation
  import opened System
  import opened Terms
  import opened Delivery

  // ---- The cap ----

  // So many times the limit.
  function Rounds(n: nat, max: int): int { if n == 0 then 0 else Rounds(n - 1, max) + max }

  lemma {:induction false} RoundsIsProduct(n: nat, max: int)
    ensures Rounds(n, max) == n * max
  {
    if n == 0 {
    } else {
      RoundsIsProduct(n - 1, max);
      assert n * max == (n - 1) * max + max;
    }
  }

  ghost predicate Known(w: World, id: string) {
    id in w.log && id in w.struck && w.struck[id] <= w.crashes
  }

  // Every crash since submission or revival has cost a full round of attempts at the most.
  ghost predicate Paced(l: Limits, w: World, id: string) {
    id in w.sys.mem.tasks ==>
      var t := w.sys.mem.tasks[id];
      Known(w, id) && |w.log[id]| <= Rounds(w.struck[id], l.MaxFor(t.spec.policy)) + t.attempts + InFlight(w, id)
  }

  // The same of a task that only the journal still holds, and that a crash may bring back.
  ghost predicate Capped(l: Limits, w: World, id: string) {
    id in Fold(w.sys.disk).tasks ==>
      var t := Fold(w.sys.disk).tasks[id];
      Known(w, id) && |w.log[id]| <= Rounds(w.struck[id] + 1, l.MaxFor(t.spec.policy))
  }

  lemma HeldIsCapped(l: Limits, w: World, id: string)
    requires WorldInv(l, w) && Paced(l, w, id) && id in w.sys.mem.tasks
    ensures Capped(l, w, id)
  {
    assert Matches(Fold(w.sys.disk).tasks[id], w.sys.mem.tasks[id]);
    assert Within(l, w.sys.mem.tasks[id]);
  }

  // Whatever happens to a task in memory keeps its pace...
  lemma OthersKeepPace(l: Limits, w: World, op: Op, id: string)
    requires Possible(l, w, Do(op)) && SingleTask(op) && Paced(l, w, id) && id != Subject(op)
    ensures Paced(l, Happen(l, w, Do(op)), id)
  {}

  lemma OpKeepsPace(l: Limits, w: World, op: Op, id: string)
    requires MemOk(l.queue, w.sys.mem) && SentOk(w) && Possible(l, w, Do(op)) && SingleTask(op) && Paced(l, w, id)
    ensures Paced(l, Happen(l, w, Do(op)), id)
  {
    if id != Subject(op) {
      OthersKeepPace(l, w, op, id);
    } else {
      assert op.Submit? ==> op.spec.id !in w.sent;
    }
  }

  lemma QuietKeepsPace(l: Limits, w: World, op: Op, id: string)
    requires Possible(l, w, Do(op)) && !SingleTask(op) && !op.Crash? && Paced(l, w, id)
    ensures Paced(l, Happen(l, w, Do(op)), id)
  {
    HappenSys(l, w, op);
    assert NextMem(l.queue, w.sys, op).tasks.Keys <= w.sys.mem.tasks.Keys;
  }

  lemma EventKeepsPace(l: Limits, w: World, e: Event, id: string)
    requires WorldInv(l, w) && Possible(l, w, e) && Paced(l, w, id) && !(e.Do? && e.op.Crash?)
    ensures Paced(l, Happen(l, w, e), id)
  {
    if e.Send? {
    } else if SingleTask(e.op) {
      OpKeepsPace(l, w, e.op, id);
    } else {
      QuietKeepsPace(l, w, e.op, id);
    }
  }

  // ... and what memory does not hold, no one touches.
  lemma GoneIsNotLogged(c: Config, s: Sys, op: Op, id: string)
    requires Enabled(c, s, op) && Logged(s.mem, op).Some? && id !in NextMem(c, s, op).tasks
    ensures var r := Logged(s.mem, op).value;
            && Next(c, s, op).disk == s.disk + [r]
            && r.id != id && (r.task.Some? ==> r.task.value.id != id)
  {}

  lemma GoneIsUntouched(l: Limits, w: World, op: Op, id: string)
    requires Inv(l.queue, w.sys) && Possible(l, w, Do(op)) && !op.Crash? && id !in NextMem(l.queue, w.sys, op).tasks
    ensures var v, v' := Fold(w.sys.disk), Fold(Next(l.queue, w.sys, op).disk);
            id in v'.tasks ==> id in v.tasks && v'.tasks[id] == v.tasks[id]
  {
    if op.Compact? {
      SnapshotReplays(w.sys.mem.tasks, op.order);
      assert Next(l.queue, w.sys, op).disk == Snapshot(w.sys.mem.tasks, op.order);
    } else if Logged(w.sys.mem, op).Some? {
      GoneIsNotLogged(l.queue, w.sys, op, id);
      FoldSnoc(w.sys.disk, Logged(w.sys.mem, op).value);
    } else {
      assert Next(l.queue, w.sys, op).disk == w.sys.disk;
    }
  }

  lemma GoneStaysCapped(l: Limits, w: World, op: Op, id: string)
    requires WorldInv(l, w) && Possible(l, w, Do(op)) && Capped(l, w, id) && !op.Crash?
    requires id !in NextMem(l.queue, w.sys, op).tasks
    ensures Capped(l, Happen(l, w, Do(op)), id)
  {
    var w' := Happen(l, w, Do(op));
    GoneIsUntouched(l, w, op, id);
    assert w'.sys.disk == Next(l.queue, w.sys, op).disk && w'.crashes == w.crashes;
    assert id in w.log && id in w.struck ==>
        id in w'.log && id in w'.struck && w'.log[id] == w.log[id] && w'.struck[id] == w.struck[id];
  }

  lemma CutTask(l: Limits, w: World, n: nat, id: string)
    requires WorldInv(l, w) && w.sys.synced <= n <= |w.sys.disk| && id in Fold(w.sys.disk[..n]).tasks
    ensures id in Fold(w.sys.disk).tasks && Fold(w.sys.disk[..n]).tasks[id].attempts >= 0
    ensures SameTerms(Fold(w.sys.disk).tasks[id], Fold(w.sys.disk[..n]).tasks[id])
  {
    CutsKeepTerms(w.sys, n, id);
    assert ViewOk(l.queue, Fold(w.sys.disk[..n])) && TaskOk(id, Fold(w.sys.disk[..n]).tasks[id]);
  }

  // What a crash makes of the books.
  lemma CrashedBooks(l: Limits, w: World, op: Op, id: string)
    requires Possible(l, w, Do(op)) && op.Crash?
    ensures var w' := Happen(l, w, Do(op));
            && w'.sys.disk == w.sys.disk[..op.kept] && w'.sys.mem == Restored(Fold(w.sys.disk[..op.kept]))
            && w'.log == w.log && w'.began == w.began && w'.clock == w.clock && w'.sent == {}
            && w'.crashes == w.crashes + 1
            && (id in w'.struck <==> id in w.struck) && (id in w.struck ==> w'.struck[id] == w.struck[id] + 1)
  {}

  lemma CrashKeepsCap(l: Limits, w: World, op: Op, id: string)
    requires l.Ok() && WorldInv(l, w) && Possible(l, w, Do(op)) && op.Crash? && Capped(l, w, id)
    ensures Paced(l, Happen(l, w, Do(op)), id) && Capped(l, Happen(l, w, Do(op)), id)
  {
    CrashedBooks(l, w, op, id);
    if id in Fold(w.sys.disk[..op.kept]).tasks {
      CutTask(l, w, op.kept, id);
    }
  }

  lemma SendKeepsCap(l: Limits, w: World, e: Event, id: string)
    requires WorldInv(l, w) && Possible(l, w, e) && e.Send? && Capped(l, w, id) && id !in w.sys.mem.tasks
    ensures Capped(l, Happen(l, w, e), id)
  {}

  lemma CalmKeepsCap(l: Limits, w: World, e: Event, id: string)
    requires WorldInv(l, w) && Possible(l, w, e) && !(e.Do? && e.op.Crash?) && WorldInv(l, Happen(l, w, e))
    requires Capped(l, w, id) && Paced(l, Happen(l, w, e), id)
    ensures Capped(l, Happen(l, w, e), id)
  {
    var w' := Happen(l, w, e);
    if id in w'.sys.mem.tasks {
      HeldIsCapped(l, w', id);
    } else if e.Do? {
      HappenSys(l, w, e.op);
      GoneStaysCapped(l, w, e.op, id);
    } else {
      SendKeepsCap(l, w, e, id);
    }
  }

  lemma EventKeepsCap(l: Limits, w: World, e: Event, id: string)
    requires l.Ok() && WorldInv(l, w) && Possible(l, w, e) && Paced(l, w, id) && Capped(l, w, id)
    ensures Paced(l, Happen(l, w, e), id) && Capped(l, Happen(l, w, e), id)
  {
    if e.Do? && e.op.Crash? {
      CrashKeepsCap(l, w, e.op, id);
    } else {
      EventKeepsInv(l, w, e);
      EventKeepsPace(l, w, e, id);
      CalmKeepsCap(l, w, e, id);
    }
  }

  lemma {:induction false} RunsKeepCap(l: Limits, events: seq<Event>, id: string)
    requires l.Ok() && Plausible(l, START, events)
    ensures Paced(l, Replayed(l, START, events), id) && Capped(l, Replayed(l, START, events), id)
    decreases |events|
  {
    if events == [] {
    } else {
      var init := events[..|events| - 1];
      ReachedInv(l, init);
      RunsKeepCap(l, init, id);
      EventKeepsCap(l, Replayed(l, START, init), events[|events| - 1], id);
    }
  }

  // ---- Time ----

  // How many retries, each due LEAST_WAIT after its failure at the least, fit into a deadline.
  function Spaces(deadline: int): nat { if deadline <= 0 then 0 else (deadline - 1) / LEAST_WAIT }

  lemma FitsIff(n: int, deadline: int)
    ensures n <= Spaces(deadline) <==> n <= 0 || n * LEAST_WAIT < deadline
  {}

  // The requests that no crash can be charged with.
  function Charged(w: World, id: string): int
    requires id in w.log && id in w.struck
  {
    |w.log[id]| - w.struck[id]
  }

  ghost predicate Dated(w: World, id: string) {
    id in w.log && id in w.struck && id in w.began && id in w.clock && w.began[id] <= w.clock[id]
  }

  // The n-th request not charged to a crash goes out at least n - 1 waits after the start.
  ghost predicate Spread(w: World, id: string) {
    id in w.log ==> Dated(w, id) && (Charged(w, id) - 1) * LEAST_WAIT <= w.clock[id] - w.began[id]
  }

  // What a task waits for at the least.
  function Until(w: World, id: string): int
    requires id in w.sys.mem.tasks && id in w.clock
  {
    var t := w.sys.mem.tasks[id];
    if t.state.Scheduled() && t.nextAt > w.clock[id] then t.nextAt else w.clock[id]
  }

  ghost predicate HeldFits(l: Limits, w: World, id: string) {
    id in w.sys.mem.tasks ==>
      var t := w.sys.mem.tasks[id];
      && Dated(w, id) && t.spec.createdAt <= w.began[id]
      && Charged(w, id) - 1 <= Spaces(l.DeadlineFor(t.spec.policy))
      && (t.Live() && id !in w.sent ==>
            && Charged(w, id) <= Spaces(l.DeadlineFor(t.spec.policy))
            && Charged(w, id) * LEAST_WAIT <= Until(w, id) - w.began[id])
  }

  ghost predicate GoneFits(l: Limits, w: World, id: string) {
    id in Fold(w.sys.disk).tasks ==>
      var t := Fold(w.sys.disk).tasks[id];
      && Dated(w, id) && t.spec.createdAt <= w.began[id]
      && Charged(w, id) - 1 <= Spaces(l.DeadlineFor(t.spec.policy))
  }

  ghost predicate Timed(l: Limits, w: World, id: string) {
    Spread(w, id) && HeldFits(l, w, id) && GoneFits(l, w, id)
  }

  // The accounts of a task that an event leaves alone.
  ghost predicate SameBooks(w: World, w': World, id: string) {
    && (id in w.log <==> id in w'.log) && (id in w.log ==> w'.log[id] == w.log[id])
    && (id in w.struck <==> id in w'.struck) && (id in w.struck ==> w'.struck[id] == w.struck[id])
    && (id in w.began <==> id in w'.began) && (id in w.began ==> w'.began[id] == w.began[id])
  }

  lemma SendIsTimed(l: Limits, w: World, e: Event, id: string)
    requires WorldInv(l, w) && Possible(l, w, e) && e.Send? && Timed(l, w, id)
    ensures Timed(l, Happen(l, w, e), id)
  {
    var w' := Happen(l, w, e);
    assert w'.sys == w.sys && w'.clock == w.clock && w'.began == w.began && w'.struck == w.struck;
    if id == e.id {
      var t := w.sys.mem.tasks[id];
      assert w'.log[id] == w.log[id] + [t.attempts + 1];
      assert Charged(w', id) == Charged(w, id) + 1;
      assert Matches(Fold(w.sys.disk).tasks[id], t);
    }
  }

  ghost predicate SameClock(w: World, w': World, id: string) {
    (id in w.clock <==> id in w'.clock) && (id in w.clock ==> w'.clock[id] == w.clock[id])
  }

  ghost predicate NewBooks(w': World, id: string, at: int) {
    && id in w'.log && id in w'.struck && id in w'.began && id in w'.clock
    && w'.log[id] == [] && w'.struck[id] == 0 && w'.began[id] == at == w'.clock[id]
  }

  lemma BooksAfter(l: Limits, w: World, op: Op, id: string)
    requires Possible(l, w, Do(op)) && !op.Crash?
    ensures var w' := Happen(l, w, Do(op));
            if op.Submit? && id == op.spec.id then NewBooks(w', id, op.spec.createdAt)
            else if op.Revive? && id == op.id then NewBooks(w', id, op.now)
            else if Reads(op) && id == op.id then SameBooks(w, w', id) && id in w'.clock && w'.clock[id] == op.now
            else SameBooks(w, w', id) && SameClock(w, w', id)
  {}

  lemma OpKeepsSpread(l: Limits, w: World, op: Op, id: string)
    requires WorldInv(l, w) && Possible(l, w, Do(op)) && !op.Crash? && Spread(w, id)
    ensures Spread(Happen(l, w, Do(op)), id)
  {
    BooksAfter(l, w, op, id);
  }

  // ---- A task in memory keeps to its time ----

  // The retry's due time leaves room for the requests so far.
  lemma RetryFits(charged: int, began: int, clock: int, createdAt: int, now: int, nextAt: int, deadline: int)
    requires (charged - 1) * LEAST_WAIT <= clock - began && createdAt <= began
    requires clock <= now && now + LEAST_WAIT <= nextAt < createdAt + deadline
    ensures charged <= Spaces(deadline) && charged * LEAST_WAIT <= nextAt - began
  {
    FitsIff(charged, deadline);
  }

  lemma OwnOpFits(l: Limits, w: World, op: Op)
    requires WorldInv(l, w) && Possible(l, w, Do(op)) && SingleTask(op) && !op.Submit?
    requires Spread(w, op.id) && HeldFits(l, w, op.id)
    ensures HeldFits(l, Happen(l, w, Do(op)), op.id)
  {
    var t := w.sys.mem.tasks[op.id];
    BooksAfter(l, w, op, op.id);
    OwnTask(l, w, op);
    if op.Retry? {
      RetryFits(Charged(w, op.id), w.began[op.id], w.clock[op.id], t.spec.createdAt, op.now, op.nextAt,
                l.DeadlineFor(t.spec.policy));
    }
  }

  // What becomes of the task, and of its request, if one is out.
  lemma OwnTask(l: Limits, w: World, op: Op)
    requires WorldInv(l, w) && Possible(l, w, Do(op)) && SingleTask(op) && !op.Submit?
    ensures var t, w' := w.sys.mem.tasks[op.id], Happen(l, w, Do(op));
            && op.id in w'.sys.mem.tasks
            && w'.sys.mem.tasks[op.id].spec.policy == t.spec.policy
            && w'.sys.mem.tasks[op.id].spec.createdAt == (if op.Revive? then op.now else t.spec.createdAt)
            && (op.Lease? ==> t.state.Scheduled() && t.nextAt <= op.now && w'.sys.mem.tasks[op.id].state.Sending?)
            && (op.Lease? || op.Defer? || op.Revive? ==> op.id !in w.sent)
            && (op.Defer? ==> t.state.Sending? && w'.sys.mem.tasks[op.id].state.Scheduled())
            && (op.Retry? ==> w'.sys.mem.tasks[op.id].state.Scheduled() && w'.sys.mem.tasks[op.id].nextAt == op.nextAt)
            && (op.Succeed? || op.Bury? ==> !w'.sys.mem.tasks[op.id].Live())
            && (op.Revive? ==> w'.sys.mem.tasks[op.id].nextAt == op.now)
  {
    if op.Lease? {
      assert op.id in ScheduledIds(w.sys.mem.tasks);
    }
  }

  lemma StillFits(l: Limits, w: World, w': World, id: string)
    requires HeldFits(l, w, id) && SameBooks(w, w', id) && SameClock(w, w', id)
    requires id in w'.sys.mem.tasks ==> id in w.sys.mem.tasks && w'.sys.mem.tasks[id] == w.sys.mem.tasks[id]
    requires id in w'.sent <==> id in w.sent
    ensures HeldFits(l, w', id)
  {}

  lemma OthersFit(l: Limits, w: World, op: Op, id: string)
    requires Possible(l, w, Do(op)) && !op.Crash? && (SingleTask(op) ==> Subject(op) != id)
    requires HeldFits(l, w, id)
    ensures HeldFits(l, Happen(l, w, Do(op)), id)
  {
    BooksAfter(l, w, op, id);
    OthersTask(l, w, op, id);
    StillFits(l, w, Happen(l, w, Do(op)), id);
  }

  lemma OthersTask(l: Limits, w: World, op: Op, id: string)
    requires Possible(l, w, Do(op)) && !op.Crash? && (SingleTask(op) ==> Subject(op) != id)
    ensures var w' := Happen(l, w, Do(op));
            && (id in w'.sys.mem.tasks ==> id in w.sys.mem.tasks && w'.sys.mem.tasks[id] == w.sys.mem.tasks[id])
            && (id in w'.sent <==> id in w.sent)
  {}

  lemma SubmittedFits(l: Limits, w: World, op: Op)
    requires WorldInv(l, w) && Possible(l, w, Do(op)) && op.Submit?
    ensures HeldFits(l, Happen(l, w, Do(op)), op.spec.id)
  {
    var w' := Happen(l, w, Do(op));
    BooksAfter(l, w, op, op.spec.id);
    assert w'.sys.mem.tasks[op.spec.id] == Fresh(op.spec, op.spec.createdAt);
  }

  lemma OpKeepsFit(l: Limits, w: World, op: Op, id: string)
    requires WorldInv(l, w) && Possible(l, w, Do(op)) && !op.Crash? && Spread(w, id) && HeldFits(l, w, id)
    ensures HeldFits(l, Happen(l, w, Do(op)), id)
  {
    if !SingleTask(op) || Subject(op) != id {
      OthersFit(l, w, op, id);
    } else if op.Submit? {
      SubmittedFits(l, w, op);
    } else {
      OwnOpFits(l, w, op);
    }
  }

  // ---- And so does one the journal holds ----

  lemma AppliedTerms(v: View, r: Record, id: string)
    requires id in Apply(v, r).tasks
    ensures var t := Apply(v, r).tasks[id];
            || (r.kind.RecEnqueue? && r.task.Some? && r.task.value.id == id && t.spec == r.task.value)
            || (id in v.tasks && SameTerms(t, v.tasks[id]))
  {}

  // Where the journal's terms of a task come from.
  ghost predicate TermsFrom(w: World, op: Op, id: string, t: Task) {
    || (op.Submit? && id == op.spec.id && t.spec == op.spec)
    || (op.Compact? && id in w.sys.mem.tasks && SameTerms(t, w.sys.mem.tasks[id]))
    || (!op.Compact? && id in Fold(w.sys.disk).tasks && SameTerms(t, Fold(w.sys.disk).tasks[id]))
  }

  lemma LoggedTerms(l: Limits, w: World, op: Op, id: string)
    requires Possible(l, w, Do(op)) && Logged(w.sys.mem, op).Some?
    requires id in Fold(Next(l.queue, w.sys, op).disk).tasks
    ensures TermsFrom(w, op, id, Fold(Next(l.queue, w.sys, op).disk).tasks[id])
  {
    var r := Logged(w.sys.mem, op).value;
    assert Next(l.queue, w.sys, op).disk == w.sys.disk + [r];
    FoldSnoc(w.sys.disk, r);
    AppliedTerms(Fold(w.sys.disk), r, id);
  }

  lemma JournalTerms(l: Limits, w: World, op: Op, id: string)
    requires WorldInv(l, w) && Possible(l, w, Do(op)) && !op.Crash?
    requires id in Fold(Next(l.queue, w.sys, op).disk).tasks
    ensures TermsFrom(w, op, id, Fold(Next(l.queue, w.sys, op).disk).tasks[id])
  {
    if op.Compact? {
      SnapshotReplays(w.sys.mem.tasks, op.order);
      assert Next(l.queue, w.sys, op).disk == Snapshot(w.sys.mem.tasks, op.order);
    } else if Logged(w.sys.mem, op).Some? {
      LoggedTerms(l, w, op, id);
    } else {
      assert Next(l.queue, w.sys, op).disk == w.sys.disk;
    }
  }

  lemma FitsByTerms(l: Limits, w: World, op: Op, id: string)
    requires Possible(l, w, Do(op)) && !op.Crash? && Timed(l, w, id)
    requires var v := Fold(Next(l.queue, w.sys, op).disk); id in v.tasks ==> TermsFrom(w, op, id, v.tasks[id])
    ensures GoneFits(l, Happen(l, w, Do(op)), id)
  {
    HappenSys(l, w, op);
    BooksAfter(l, w, op, id);
  }

  lemma OpKeepsGone(l: Limits, w: World, op: Op, id: string)
    requires WorldInv(l, w) && Possible(l, w, Do(op)) && !op.Crash? && Timed(l, w, id)
    ensures GoneFits(l, Happen(l, w, Do(op)), id)
  {
    if id in Fold(Next(l.queue, w.sys, op).disk).tasks {
      JournalTerms(l, w, op, id);
    }
    FitsByTerms(l, w, op, id);
  }

  lemma CutFits(l: Limits, w: World, op: Op, id: string)
    requires Possible(l, w, Do(op)) && op.Crash? && Timed(l, w, id)
    requires var v := Fold(w.sys.disk[..op.kept]);
             id in v.tasks ==> id in Fold(w.sys.disk).tasks && SameTerms(Fold(w.sys.disk).tasks[id], v.tasks[id])
    ensures Timed(l, Happen(l, w, Do(op)), id)
  {
    CrashedBooks(l, w, op, id);
  }

  lemma CrashIsTimed(l: Limits, w: World, op: Op, id: string)
    requires WorldInv(l, w) && Possible(l, w, Do(op)) && op.Crash? && Timed(l, w, id)
    ensures Timed(l, Happen(l, w, Do(op)), id)
  {
    if id in Fold(w.sys.disk[..op.kept]).tasks {
      CutTask(l, w, op.kept, id);
    }
    CutFits(l, w, op, id);
  }

  lemma EventIsTimed(l: Limits, w: World, e: Event, id: string)
    requires WorldInv(l, w) && Possible(l, w, e) && Timed(l, w, id)
    ensures Timed(l, Happen(l, w, e), id)
  {
    if e.Send? {
      SendIsTimed(l, w, e, id);
    } else if e.op.Crash? {
      CrashIsTimed(l, w, e.op, id);
    } else {
      OpKeepsSpread(l, w, e.op, id);
      OpKeepsFit(l, w, e.op, id);
      OpKeepsGone(l, w, e.op, id);
    }
  }

  lemma {:induction false} RunsAreTimed(l: Limits, events: seq<Event>, id: string)
    requires l.Ok() && Plausible(l, START, events)
    ensures Timed(l, Replayed(l, START, events), id)
    decreases |events|
  {
    if events == [] {
    } else {
      var init := events[..|events| - 1];
      ReachedInv(l, init);
      RunsAreTimed(l, init, id);
      EventIsTimed(l, Replayed(l, START, init), events[|events| - 1], id);
    }
  }

  // ---- Both together ----

  /** The most requests a task can cause in so many crashes: its limit once more for each, but no more in all than its
      deadline has room for beside one for each. */
  function Most(l: Limits, p: Policy, struck: nat): int {
    var rounds, spaced := (struck + 1) * l.MaxFor(p), struck + 1 + Spaces(l.DeadlineFor(p));
    if rounds <= spaced then rounds else spaced
  }

  ghost predicate WithinMost(l: Limits, w: World, id: string)
    requires id in w.sys.mem.tasks
  {
    Known(w, id) && |w.log[id]| <= Most(l, w.sys.mem.tasks[id].spec.policy, w.struck[id])
  }

  lemma MostNow(l: Limits, w: World, id: string)
    requires WorldInv(l, w) && Capped(l, w, id) && Timed(l, w, id) && id in w.sys.mem.tasks
    ensures WithinMost(l, w, id)
  {
    assert Matches(Fold(w.sys.disk).tasks[id], w.sys.mem.tasks[id]);
    RoundsIsProduct(w.struck[id] + 1, l.MaxFor(w.sys.mem.tasks[id].spec.policy));
  }

  /** In any run, the requests for a task since it was submitted or last revived are at most its limit, once more for
      every crash since; and at most one, once more for every crash since, beside the retries its deadline has room for
      at the least wait. */
  lemma RequestsAreCapped(l: Limits, events: seq<Event>, id: string)
    requires l.Ok() && Plausible(l, START, events) && id in Replayed(l, START, events).sys.mem.tasks
    ensures WithinMost(l, Replayed(l, START, events), id)
  {
    ReachedInv(l, events);
    RunsKeepCap(l, events, id);
    RunsAreTimed(l, events, id);
    MostNow(l, Replayed(l, START, events), id);
  }
}
