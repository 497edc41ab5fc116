/** Runs of the loop that have as many requests out at once as the limits allow. */
module Concurrency {
  import opened Model
  import opened Replay
  import opened QueueSpec
  import opened System
  import opened Delivery
  import opened Dispatcher
  import opened Reaching

  ghost predicate Batch(specs: seq<Spec>) {
    && (forall i | 0 <= i < |specs| :: specs[i].idemKey != "")
    && (forall i, j | 0 <= i < j < |specs| :: specs[i].id != specs[j].id && specs[i].idemKey != specs[j].idemKey)
  }

  function Ids(specs: seq<Spec>): set<string> { set i | 0 <= i < |specs| :: specs[i].id }

  function Keys(specs: seq<Spec>): set<string> { set i | 0 <= i < |specs| :: specs[i].idemKey }

  function HostFor(s: Settings, spec: Spec): string { s.hostOf(spec.target.url) }

  // How many of them go to the host.
  function Share(s: Settings, specs: seq<Spec>, host: string): nat {
    if specs == [] then 0
    else
      var init, last := specs[..|specs| - 1], specs[|specs| - 1];
      Share(s, init, host) + (if HostFor(s, last) == host then 1 else 0)
  }

  // The queue holds these tasks and no others.
  ghost predicate HoldsJust(s: Sys, specs: seq<Spec>) {
    && s.mem.tasks.Keys == Ids(specs) && Fold(s.disk).tasks.Keys == Ids(specs)
    && s.mem.idem.Keys == Keys(specs) && s.mem.active == |specs|
  }

  ghost predicate SentOnce(w: World, specs: seq<Spec>) {
    w.sent == Ids(specs) && forall id | id in Ids(specs) :: id in w.log && w.log[id] == [1]
  }

  // Each with its first request out.
  ghost predicate AllSent(w: World, specs: seq<Spec>) {
    HoldsJust(w.sys, specs) && w.log.Keys == Ids(specs) && w.sys.mem.due == {} && SentOnce(w, specs)
  }

  // One worker each, every one waiting for an answer.
  ghost predicate AtWork(s: Settings, d: Dispatch, specs: seq<Spec>) {
    && d.pc.Top? && !d.cancelled && d.slots == |specs|
    && (forall k: nat :: k in d.workers <==> k < |specs|)
    && (forall k: nat | k < |specs| :: d.workers[k] == Worker(specs[k].id, HostFor(s, specs[k]), Sent))
    && (forall host :: Taken(d.hosts, host) == Share(s, specs, host))
  }

  ghost predicate AllOut(s: Settings, d: Dispatch, specs: seq<Spec>) { AtWork(s, d, specs) && AllSent(d.world, specs) }

  // ---- One more ----

  // All sent but one, which is due.
  ghost predicate OneDue(w: World, specs: seq<Spec>, spec: Spec) {
    && HoldsJust(w.sys, specs + [spec]) && w.sys.mem.due == {spec.id} && HoldsFresh(w.sys.mem.tasks, spec)
    && w.log.Keys == Ids(specs + [spec]) && SentOnce(w, specs)
    && spec.id in w.log && w.log[spec.id] == []
    && spec.id in w.clock && w.clock[spec.id] == spec.createdAt
  }

  ghost predicate HoldsFresh(tasks: map<string, Task>, spec: Spec) {
    spec.id in tasks && tasks[spec.id] == Fresh(spec, spec.createdAt)
  }

  lemma IdsSnoc(specs: seq<Spec>, spec: Spec)
    ensures Ids(specs + [spec]) == Ids(specs) + {spec.id} && Keys(specs + [spec]) == Keys(specs) + {spec.idemKey}
  {
    var all := specs + [spec];
    assert all[|specs|] == spec;
    forall i | 0 <= i < |specs| ensures all[i] == specs[i] {}
    forall id ensures id in Ids(all) <==> id in Ids(specs) + {spec.id} {
      if i :| 0 <= i < |specs| && specs[i].id == id {
        assert all[i].id == id;
      }
    }
    forall key ensures key in Keys(all) <==> key in Keys(specs) + {spec.idemKey} {
      if i :| 0 <= i < |specs| && specs[i].idemKey == key {
        assert all[i].idemKey == key;
      }
    }
  }

  lemma NewInBatch(specs: seq<Spec>, spec: Spec)
    requires Batch(specs + [spec])
    ensures Batch(specs) && spec.idemKey != "" && spec.id !in Ids(specs) && spec.idemKey !in Keys(specs)
  {
    var all := specs + [spec];
    assert all[|specs|] == spec;
    forall i | 0 <= i < |specs| ensures specs[i] == all[i] {}
  }

  lemma SubmitSys(c: Config, s: Sys, specs: seq<Spec>, spec: Spec)
    requires HoldsJust(s, specs) && s.mem.due == {} && Batch(specs + [spec]) && |specs| < c.queueMax
    ensures Enabled(c, s, Submit(spec, spec.createdAt))
    ensures var s' := Next(c, s, Submit(spec, spec.createdAt));
            HoldsJust(s', specs + [spec]) && s'.mem.due == {spec.id} && HoldsFresh(s'.mem.tasks, spec)
  {
    IdsSnoc(specs, spec);
    NewInBatch(specs, spec);
    FoldSnoc(s.disk, Enqueue(spec, spec.createdAt));
  }

  ghost predicate SubmittedBooks(w: World, w': World, spec: Spec) {
    && w'.sent == w.sent && w'.log == w.log[spec.id := []] && w'.clock == w.clock[spec.id := spec.createdAt]
  }

  lemma SubmitBooks(l: Limits, w: World, spec: Spec)
    requires Possible(l, w, Do(Submit(spec, spec.createdAt)))
    ensures SubmittedBooks(w, Happen(l, w, Do(Submit(spec, spec.createdAt))), spec)
  {}

  lemma SubmittedIsDue(w: World, w': World, specs: seq<Spec>, spec: Spec)
    requires spec.id !in Ids(specs) && AllSent(w, specs) && SubmittedBooks(w, w', spec)
    requires HoldsJust(w'.sys, specs + [spec]) && w'.sys.mem.due == {spec.id} && HoldsFresh(w'.sys.mem.tasks, spec)
    ensures OneDue(w', specs, spec)
  {
    IdsSnoc(specs, spec);
    SentOnceStill(w, w', specs, spec.id, []);
  }

  lemma SentOnceStill(w: World, w': World, specs: seq<Spec>, id: string, log: seq<int>)
    requires SentOnce(w, specs) && id !in Ids(specs) && w'.sent == w.sent && w'.log == w.log[id := log]
    ensures SentOnce(w', specs)
  {}

  lemma SubmitIsPossible(l: Limits, w: World, specs: seq<Spec>, spec: Spec)
    requires AllSent(w, specs) && Batch(specs + [spec]) && |specs| < l.queue.queueMax
    ensures Possible(l, w, Do(Submit(spec, spec.createdAt)))
  {
    NewInBatch(specs, spec);
    SubmitSys(l.queue, w.sys, specs, spec);
  }

  lemma SubmitOne(l: Limits, w: World, specs: seq<Spec>, spec: Spec)
    requires AllSent(w, specs) && Batch(specs + [spec]) && |specs| < l.queue.queueMax
    requires Possible(l, w, Do(Submit(spec, spec.createdAt)))
    ensures OneDue(Happen(l, w, Do(Submit(spec, spec.createdAt))), specs, spec)
  {
    SubmitSys(l.queue, w.sys, specs, spec);
    SubmitBooks(l, w, spec);
    HappenSys(l, w, Submit(spec, spec.createdAt));
    NewInBatch(specs, spec);
    SubmittedIsDue(w, Happen(l, w, Do(Submit(spec, spec.createdAt))), specs, spec);
  }

  lemma LeaseSys(c: Config, s: Sys, specs: seq<Spec>, spec: Spec)
    requires HoldsJust(s, specs + [spec]) && s.mem.due == {spec.id} && HoldsFresh(s.mem.tasks, spec)
    ensures Enabled(c, s, Lease(spec.id, spec.createdAt))
    ensures var s' := Next(c, s, Lease(spec.id, spec.createdAt));
            && HoldsJust(s', specs + [spec]) && s'.mem.due == {}
            && spec.id in s'.mem.tasks && s'.mem.tasks[spec.id] == Fresh(spec, spec.createdAt).Leased(spec.createdAt)
  {
    assert {spec.id} - {spec.id} == {};
    assert spec.id in Ids(specs + [spec]) ==> Ids(specs + [spec]) + {spec.id} == Ids(specs + [spec]);
  }

  lemma LeaseBooks(l: Limits, w: World, spec: Spec)
    requires Possible(l, w, Do(Lease(spec.id, spec.createdAt)))
    ensures var w' := Happen(l, w, Do(Lease(spec.id, spec.createdAt)));
            && w'.sys == Next(l.queue, w.sys, Lease(spec.id, spec.createdAt)) && w'.sent == w.sent && w'.log == w.log
  {}

  lemma LeaseOne(l: Limits, w: World, specs: seq<Spec>, spec: Spec)
    requires OneDue(w, specs, spec)
    ensures Possible(l, w, Do(Lease(spec.id, spec.createdAt)))
    ensures OneLeased(Happen(l, w, Do(Lease(spec.id, spec.createdAt))), specs, spec)
  {
    LeaseSys(l.queue, w.sys, specs, spec);
    LeaseBooks(l, w, spec);
  }

  // All sent but one, which the loop has in hand.
  ghost predicate OneLeased(w: World, specs: seq<Spec>, spec: Spec) {
    && HoldsJust(w.sys, specs + [spec]) && w.sys.mem.due == {}
    && w.log.Keys == Ids(specs + [spec]) && SentOnce(w, specs)
    && spec.id in w.log && w.log[spec.id] == []
    && spec.id in w.sys.mem.tasks && w.sys.mem.tasks[spec.id] == Fresh(spec, spec.createdAt).Leased(spec.createdAt)
  }

  lemma SendBooks(l: Limits, w: World, spec: Spec)
    requires Possible(l, w, Send(spec.id)) && w.log[spec.id] == [] && w.sys.mem.tasks[spec.id].attempts == 0
    ensures var w' := Happen(l, w, Send(spec.id));
            w'.sys == w.sys && w'.sent == w.sent + {spec.id} && w'.log == w.log[spec.id := [1]]
  {
    assert [] + [1] == [1];
    assert w.log[spec.id] + [w.sys.mem.tasks[spec.id].attempts + 1] == [1];
  }

  lemma SentOneMore(w: World, w': World, specs: seq<Spec>, spec: Spec)
    requires SentOnce(w, specs) && Batch(specs + [spec])
    requires w'.sent == w.sent + {spec.id} && w'.log == w.log[spec.id := [1]]
    ensures SentOnce(w', specs + [spec])
  {
    IdsSnoc(specs, spec);
    NewInBatch(specs, spec);
  }

  lemma SendOne(l: Limits, w: World, specs: seq<Spec>, spec: Spec)
    requires OneLeased(w, specs, spec) && Batch(specs + [spec])
    ensures Possible(l, w, Send(spec.id)) && AllSent(Happen(l, w, Send(spec.id)), specs + [spec])
  {
    NewInBatch(specs, spec);
    SendBooks(l, w, spec);
    SentOneMore(w, Happen(l, w, Send(spec.id)), specs, spec);
    assert w.log.Keys + {spec.id} == w.log.Keys;
  }

  // The loop finds the task,...
  lemma FindIt(s: Settings, steps: seq<Step>, d: Dispatch, spec: Spec, w: World)
    returns (longer: seq<Step>, d': Dispatch)
    requires Comes(s, steps, d) && d.pc.Top? && !d.cancelled
    requires Possible(s.limits, d.world, Do(Lease(spec.id, spec.createdAt)))
    requires w == Happen(s.limits, d.world, Do(Lease(spec.id, spec.createdAt)))
    ensures Comes(s, longer, d') && d' == d.(pc := Holding(spec.id, spec.createdAt), world := w)
  {
    d' := d.(pc := Holding(spec.id, spec.createdAt), world := w);
    ComesFurther(s, steps, d, Check, d.(pc := Ready));
    longer := steps + [Check];
    ComesFurther(s, longer, d.(pc := Ready), Find(spec.id, spec.createdAt), d');
    longer := longer + [Find(spec.id, spec.createdAt)];
  }

  lemma AdmitMoves(s: Settings, d: Dispatch, spec: Spec)
    requires d.pc == Holding(spec.id, spec.createdAt)
    requires spec.id in d.world.sys.mem.tasks && d.world.sys.mem.tasks[spec.id].spec == spec
    requires Taken(d.hosts, HostFor(s, spec)) < s.perHost
    ensures var host := HostFor(s, spec);
            Moves(s, d, TakeHost, d.(pc := Admitted(spec.id, spec.createdAt, host),
                                     hosts := d.hosts[host := Taken(d.hosts, host) + 1]))
  {
    assert HostOf(s, d) == HostFor(s, spec);
  }

  // ... takes a token of its host...
  lemma AdmitIt(s: Settings, steps: seq<Step>, d: Dispatch, spec: Spec) returns (longer: seq<Step>, d': Dispatch)
    requires Comes(s, steps, d) && d.pc == Holding(spec.id, spec.createdAt)
    requires spec.id in d.world.sys.mem.tasks && d.world.sys.mem.tasks[spec.id].spec == spec
    requires Taken(d.hosts, HostFor(s, spec)) < s.perHost
    ensures Comes(s, longer, d')
    ensures var host := HostFor(s, spec);
            d' == d.(pc := Admitted(spec.id, spec.createdAt, host),
                     hosts := d.hosts[host := Taken(d.hosts, host) + 1])
  {
    var host := HostFor(s, spec);
    d' := d.(pc := Admitted(spec.id, spec.createdAt, host), hosts := d.hosts[host := Taken(d.hosts, host) + 1]);
    AdmitMoves(s, d, spec);
    ComesFurther(s, steps, d, TakeHost, d');
    longer := steps + [TakeHost];
  }

  // ... and a slot for it...
  lemma HireIt(s: Settings, steps: seq<Step>, d: Dispatch, k: nat, spec: Spec)
    returns (longer: seq<Step>, d': Dispatch)
    requires Comes(s, steps, d) && d.pc == Admitted(spec.id, spec.createdAt, HostFor(s, spec)) && k !in d.workers
    requires d.slots < s.workers
    ensures Comes(s, longer, d')
    ensures d' == d.(pc := Top, slots := d.slots + 1,
                     workers := d.workers[k := Worker(spec.id, HostFor(s, spec), Starting)])
  {
    d' := d.(pc := Top, slots := d.slots + 1,
             workers := d.workers[k := Worker(spec.id, HostFor(s, spec), Starting)]);
    ComesFurther(s, steps, d, TakeSlot(k), d');
    longer := steps + [TakeSlot(k)];
  }

  // ... and has a worker send it.
  lemma RequestIt(s: Settings, steps: seq<Step>, d: Dispatch, k: nat, spec: Spec)
    returns (longer: seq<Step>, d': Dispatch)
    requires Comes(s, steps, d) && k in d.workers && d.workers[k] == Worker(spec.id, HostFor(s, spec), Starting)
    requires Possible(s.limits, d.world, Send(spec.id))
    ensures Comes(s, longer, d')
    ensures d' == d.(world := Happen(s.limits, d.world, Send(spec.id)),
                     workers := d.workers[k := Worker(spec.id, HostFor(s, spec), Sent)])
  {
    d' := d.(world := Happen(s.limits, d.world, Send(spec.id)),
             workers := d.workers[k := Worker(spec.id, HostFor(s, spec), Sent)]);
    ComesFurther(s, steps, d, Request(k), d');
    longer := steps + [Request(k)];
  }

  lemma ShareSnoc(s: Settings, specs: seq<Spec>, spec: Spec, host: string)
    ensures Share(s, specs + [spec], host) == Share(s, specs, host) + (if HostFor(s, spec) == host then 1 else 0)
  {
    assert (specs + [spec])[..|specs|] == specs;
  }

  lemma SubmitMoves(s: Settings, d: Dispatch, spec: Spec)
    requires Possible(s.limits, d.world, Do(Submit(spec, spec.createdAt)))
    ensures Moves(s, d, Elsewhere(Submit(spec, spec.createdAt)),
                  d.(world := Happen(s.limits, d.world, Do(Submit(spec, spec.createdAt)))))
  {}

  lemma SubmitIt(s: Settings, steps: seq<Step>, d: Dispatch, specs: seq<Spec>, spec: Spec, w: World)
    returns (longer: seq<Step>, d': Dispatch)
    requires Comes(s, steps, d) && Possible(s.limits, d.world, Do(Submit(spec, spec.createdAt)))
    requires w == Happen(s.limits, d.world, Do(Submit(spec, spec.createdAt)))
    ensures Comes(s, longer, d') && d' == d.(world := w)
  {
    d' := d.(world := w);
    SubmitMoves(s, d, spec);
    ComesFurther(s, steps, d, Elsewhere(Submit(spec, spec.createdAt)), d');
    longer := steps + [Elsewhere(Submit(spec, spec.createdAt))];
  }

  // One more worker, with both tokens.
  ghost predicate Joined(s: Settings, d: Dispatch, d': Dispatch, k: nat, spec: Spec) {
    var host := HostFor(s, spec);
    && d'.pc.Top? && d'.cancelled == d.cancelled && d'.slots == d.slots + 1
    && d'.hosts == d.hosts[host := Taken(d.hosts, host) + 1]
    && d'.workers == d.workers[k := Worker(spec.id, host, Sent)]
  }

  lemma Joins(s: Settings, d: Dispatch, holding: Dispatch, admitted: Dispatch, starting: Dispatch, d': Dispatch, k: nat,
              spec: Spec)
    requires holding == d.(pc := Holding(spec.id, spec.createdAt), world := holding.world)
    requires var host := HostFor(s, spec);
             admitted == holding.(pc := Admitted(spec.id, spec.createdAt, host),
                                  hosts := holding.hosts[host := Taken(holding.hosts, host) + 1])
    requires starting == admitted.(pc := Top, slots := admitted.slots + 1,
                                   workers := admitted.workers[k := Worker(spec.id, HostFor(s, spec), Starting)])
    requires d' == starting.(world := d'.world,
                             workers := starting.workers[k := Worker(spec.id, HostFor(s, spec), Sent)])
    ensures Joined(s, d, d', k, spec)
  {}

  lemma SendIt(s: Settings, steps: seq<Step>, d: Dispatch, k: nat, specs: seq<Spec>, spec: Spec)
    returns (longer: seq<Step>, d': Dispatch)
    requires Comes(s, steps, d) && d.pc.Top? && !d.cancelled && k !in d.workers
    requires OneDue(d.world, specs, spec) && Batch(specs + [spec])
    requires Taken(d.hosts, HostFor(s, spec)) < s.perHost && d.slots < s.workers
    ensures Comes(s, longer, d') && AllSent(d'.world, specs + [spec]) && Joined(s, d, d', k, spec)
  {
    LeaseOne(s.limits, d.world, specs, spec);
    var w := Happen(s.limits, d.world, Do(Lease(spec.id, spec.createdAt)));
    SendOne(s.limits, w, specs, spec);
    var found, holding := FindIt(s, steps, d, spec, w);
    var taken, admitted := AdmitIt(s, found, holding, spec);
    var hired, starting := HireIt(s, taken, admitted, k, spec);
    longer, d' := RequestIt(s, hired, starting, k, spec);
    Joins(s, d, holding, admitted, starting, d', k, spec);
  }

  lemma AllOutGrows(s: Settings, d: Dispatch, d': Dispatch, specs: seq<Spec>, spec: Spec)
    requires AtWork(s, d, specs) && Joined(s, d, d', |specs|, spec)
    ensures AtWork(s, d', specs + [spec])
  {
    var all := specs + [spec];
    forall host ensures Taken(d'.hosts, host) == Share(s, all, host) {
      ShareSnoc(s, specs, spec, host);
    }
  }

  lemma OneMoreOut(s: Settings, steps: seq<Step>, d: Dispatch, specs: seq<Spec>, spec: Spec)
    returns (longer: seq<Step>, d': Dispatch)
    requires Comes(s, steps, d) && AllOut(s, d, specs) && Batch(specs + [spec])
    requires |specs| < s.workers && |specs| < s.limits.queue.queueMax && Share(s, specs, HostFor(s, spec)) < s.perHost
    ensures Comes(s, longer, d') && AllOut(s, d', specs + [spec])
  {
    SubmitIsPossible(s.limits, d.world, specs, spec);
    SubmitOne(s.limits, d.world, specs, spec);
    var submitted, e := SubmitIt(s, steps, d, specs, spec,
                                 Happen(s.limits, d.world, Do(Submit(spec, spec.createdAt))));
    longer, d' := SendIt(s, submitted, e, |specs|, specs, spec);
    AllOutGrows(s, e, d', specs, spec);
  }

  lemma NoneOut(s: Settings)
    ensures Comes(s, [], BEGIN) && AllOut(s, BEGIN, [])
  {}

  lemma {:induction false} GetAllOut(s: Settings, specs: seq<Spec>) returns (steps: seq<Step>, d: Dispatch)
    requires Batch(specs) && |specs| <= s.workers && |specs| <= s.limits.queue.queueMax
    requires forall host :: Share(s, specs, host) <= s.perHost
    ensures Comes(s, steps, d) && AllOut(s, d, specs)
    decreases |specs|
  {
    if specs == [] {
      NoneOut(s);
      steps, d := [], BEGIN;
    } else {
      var init, last := specs[..|specs| - 1], specs[|specs| - 1];
      assert init + [last] == specs;
      forall host ensures Share(s, init, host) + (if HostFor(s, last) == host then 1 else 0) <= s.perHost {
        ShareSnoc(s, init, last, host);
      }
      var before, e := GetAllOut(s, init);
      steps, d := OneMoreOut(s, before, e, init, last);
    }
  }

  lemma {:induction false} CountIds(specs: seq<Spec>)
    requires Batch(specs)
    ensures |Ids(specs)| == |specs|
    decreases |specs|
  {
    if specs != [] {
      var init, last := specs[..|specs| - 1], specs[|specs| - 1];
      assert init + [last] == specs;
      IdsSnoc(init, last);
      NewInBatch(init, last);
      CountIds(init);
    }
  }

  /** The limits are used to the full: any tasks of different ids and keys, no more than there are workers and room in
      the queue and no more to a host than it has tokens, are all being sent at once in some run of the loop. */
  lemma AllAtOnce(s: Settings, specs: seq<Spec>) returns (steps: seq<Step>)
    requires s.Ok() && Batch(specs) && |specs| <= s.workers && |specs| <= s.limits.queue.queueMax
    requires forall host :: Share(s, specs, host) <= s.perHost
    ensures Run(s, BEGIN, steps)
    ensures var d := Ran(s, BEGIN, steps);
            && d.world.sent == Ids(specs) == OutThere(d.workers) && |d.world.sent| == |specs|
            && (forall id | id in Ids(specs) :: id in d.world.log && d.world.log[id] == [1])
            && (forall host :: |HostHolders(d.workers, host)| == Share(s, specs, host))
  {
    var d;
    steps, d := GetAllOut(s, specs);
    CountIds(specs);
    RunKeepsDispatch(s, steps);
    HoldersAreShares(s, d, specs);
  }

  lemma HoldersAreShares(s: Settings, d: Dispatch, specs: seq<Spec>)
    requires TokensOk(s, d) && AtWork(s, d, specs)
    ensures forall host :: |HostHolders(d.workers, host)| == Share(s, specs, host)
  {
    forall host ensures |HostHolders(d.workers, host)| == Share(s, specs, host) {
      assert HostTokensOk(s, d, host);
    }
  }

  // ---- One host ----

  function Name(i: nat): string { seq(i + 1, _ => 'a') }

  function Same(url: string, n: nat): seq<Spec> {
    seq(n, i requires 0 <= i => Spec(Name(i), Name(i), Target(url, "POST", map[], "", ""), Policy(0, 0, 0), 0, ""))
  }

  lemma SameIsBatch(url: string, n: nat)
    ensures Batch(Same(url, n))
  {
    forall i: nat, j: nat | i < j ensures Name(i) != Name(j) {
      assert |Name(i)| == i + 1 && |Name(j)| == j + 1;
    }
  }

  lemma {:induction false} SameShare(s: Settings, url: string, n: nat, host: string)
    ensures Share(s, Same(url, n), host) == if s.hostOf(url) == host then n else 0
  {
    if n > 0 {
      SameShare(s, url, n - 1, host);
      assert Same(url, n)[..n - 1] == Same(url, n - 1);
    }
  }

  /** For every number of requests within the tokens of a host, the workers and the queue, some run has that many to the
      host out at once. */
  lemma OneHostAtOnce(s: Settings, url: string, n: nat) returns (steps: seq<Step>)
    requires s.Ok() && n <= s.perHost && n <= s.workers && n <= s.limits.queue.queueMax
    ensures Run(s, BEGIN, steps)
    ensures var d := Ran(s, BEGIN, steps);
            |HostHolders(d.workers, s.hostOf(url))| == n == |OutThere(d.workers)|
  {
    SameIsBatch(url, n);
    forall host ensures Share(s, Same(url, n), host) <= s.perHost {
      SameShare(s, url, n, host);
    }
    SameShare(s, url, n, s.hostOf(url));
    steps := AllAtOnce(s, Same(url, n));
  }
}
