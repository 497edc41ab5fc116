/** The life of a process around the queue: the log's background flush, and coming up again after a crash. */
module Process {
  import opened Model
  import opened Replay
  import opened QueueSpec
  import opened System
  import opened Recovery
  import opened Steps
  import opened Lines
  import opened Wal
  import opened Queue
  import opened Eviction

  /** One tick of the log's background loop is a Sync step, or none if nothing was appended since the last one. */
  method Tick(q: Queue)
    requires q.Valid()
    modifies q.store`buffer, q.store`dirty, q.store`durable, q.store.disk
    ensures q.Valid()
    ensures if old(q.store.dirty) then Leads(q.cfg, old(q.SysOf()), Sync, q.SysOf()) else q.SysOf() == old(q.SysOf())
  {
    q.store.SyncTick();
  }

  // A queue brought up on a journal file as it finds it.
  method Boot(cfg: Config, upkeep: Upkeep, codec: Codec, left: File) returns (ok: bool, q: Queue)
    requires codec.Ok() && left.synced <= |left.bytes|
    ensures q.cfg == cfg && fresh(q) && fresh(q.due) && fresh(q.store)
    ensures ok <==> Readable(Records(codec, left.bytes))
    ensures ok ==> q.store.journal == Records(codec, left.bytes)
    ensures ok ==> q.MemOf() == Restored(Fold(Records(codec, left.bytes)))
    ensures ok ==> DurableRecords(codec, left) <= q.store.durable <= |q.store.journal|
    ensures ok && ViewOk(cfg, Fold(Records(codec, left.bytes))) ==> q.Valid()
  {
    var disk := new Disk(Fs(left, None, None));
    var store := new WAL(codec, disk);
    assert left.bytes[..left.synced] == disk.fs.journal.bytes[..left.synced];
    q := new Queue(cfg, upkeep, store);
    ok := q.Restore();
  }

  /** A new process on what a crash left of the journal file comes up, always, and with exactly the state of a Crash
      step: the journal cut somewhere at or past its durable part, and the memory that replays from it. */
  method Restart(q: Queue, left: File) returns (q': Queue, ghost crash: Op)
    requires q.Valid() && Inv(q.cfg, q.SysOf())
    requires Survives(q.store.disk.fs, left)
    ensures q'.Valid() && q'.cfg == q.cfg && fresh(q') && fresh(q'.due) && fresh(q'.store)
    ensures crash.Crash? && Leads(q.cfg, q.SysOf(), crash, q'.SysOf())
    ensures q'.store.journal == Records(q.store.codec, left.bytes)
  {
    ghost var s, rs := q.SysOf(), Records(q.store.codec, left.bytes);
    q.store.CrashLeavesDurable(left);
    CutIsSound(q.cfg, s, rs);
    var ok;
    ok, q' := Boot(q.cfg, q.upkeep, q.store.codec, left);
    crash := Crash(|rs|, q'.store.durable);
    IsCrash(q.cfg, s, q'.SysOf(), rs);
  }

  lemma IsCrash(c: Config, s: Sys, s': Sys, rs: seq<Record>)
    requires s.synced <= s'.synced <= |rs| && rs <= s.disk && s'.disk == rs && s'.mem == Restored(Fold(rs))
    ensures Leads(c, s, Crash(|rs|, s'.synced), s')
  {
    assert rs == s.disk[..|rs|];
  }

  lemma CutIsSound(c: Config, s: Sys, rs: seq<Record>)
    requires Inv(c, s) && s.synced <= |rs| && rs <= s.disk
    ensures rs == s.disk[..|rs|] && Readable(rs) && ViewOk(c, Fold(rs))
  {
    assert rs == s.disk[..|rs|];
  }

  // ---- A crash inside a compaction ----

  /** What a file holds is the outcome of a run from `s` that ends in a crash and loses no task; `durable` of its
      records are so. */
  ghost predicate IsCrashOf(c: Config, s: Sys, rs: seq<Record>, durable: nat, ops: seq<Op>) {
    && ops != [] && ops[|ops| - 1].Crash? && Legal(c, s, ops)
    && Exec(c, s, ops) == Sys(Restored(Fold(rs)), rs, durable)
    && s.mem.tasks.Keys <= Exec(c, s, ops).mem.tasks.Keys
  }

  // The file states of a compaction that began at `s` and wrote the tasks in this order.
  ghost predicate Compacting(c: Config, s: Sys, codec: Codec, trail: seq<Fs>, start: nat, order: seq<string>) {
    && Inv(c, s) && Visits(order, s.mem.tasks.Keys)
    && OldOrNewSince(codec, trail, start, s.disk, s.synced, Snapshot(s.mem.tasks, order))
  }

  /** Every file that can survive any moment of a compaction is the outcome of a crash before it or after it, however
      many of its records beside those known to be durable are so. */
  lemma SurvivorIsCrash(c: Config, s: Sys, codec: Codec, trail: seq<Fs>, start: nat, order: seq<string>, i: nat,
                        left: File, durable: nat) returns (ops: seq<Op>)
    requires Compacting(c, s, codec, trail, start, order) && start <= i < |trail| && Survives(trail[i], left)
    requires left.synced <= |left.bytes| && DurableRecords(codec, left) <= durable <= |Records(codec, left.bytes)|
    ensures IsCrashOf(c, s, Records(codec, left.bytes), durable, ops)
  {
    assert OldOrNew(codec, trail[i], s.disk, s.synced, Snapshot(s.mem.tasks, order));
    ops := CrashInCompaction(c, s, order, Records(codec, left.bytes), durable);
  }

  lemma CompactedInv(c: Config, s: Sys, order: seq<string>, s': Sys)
    requires Inv(c, s) && Compacted(c, s, order, s')
    ensures Inv(c, s') && Visits(order, s.mem.tasks.Keys)
  {
    StepKeepsInv(c, s, Compact(order));
    StepKeepsInv(c, Next(c, s, Compact(order)), ResetCount);
  }

  /** Compacts; every file state on the way is one of which a crash leaves nothing worse than a crash before or after.
      */
  method CompactSafely(q: Queue) returns (ghost order: seq<string>)
    requires q.Valid() && Inv(q.cfg, q.SysOf())
    modifies q`unstripped, q.store, q.store.disk
    ensures q.Valid() && Inv(q.cfg, q.SysOf())
    ensures Compacting(q.cfg, old(q.SysOf()), q.store.codec, q.store.disk.trail, |old(q.store.disk.trail)|, order)
  {
    ghost var s := q.SysOf();
    order := q.Compact();
    CompactedInv(q.cfg, s, order, q.SysOf());
  }

  /** A new process on a file that survives any moment of a compaction, killed or without power, comes up, always, and
      in the state of a run from before the compaction that ends in a crash and loses no task. */
  method RestartInCompaction(cfg: Config, upkeep: Upkeep, codec: Codec, left: File, ghost s: Sys, ghost trail: seq<Fs>,
                             ghost start: nat, ghost order: seq<string>, ghost i: nat)
    returns (q: Queue, ghost ops: seq<Op>)
    requires codec.Ok() && Compacting(cfg, s, codec, trail, start, order)
    requires start <= i < |trail| && Survives(trail[i], left) && left.synced <= |left.bytes|
    ensures q.Valid() && q.cfg == cfg && fresh(q) && fresh(q.due) && fresh(q.store)
    ensures IsCrashOf(cfg, s, Records(codec, left.bytes), q.store.durable, ops)
    ensures Reaches(cfg, s, ops, q.SysOf()) && Inv(cfg, q.SysOf())
  {
    ghost var rs := Records(codec, left.bytes);
    SurvivorIsSound(cfg, s, codec, trail, start, order, i, left);
    var ok;
    ok, q := Boot(cfg, upkeep, codec, left);
    ops := SurvivorIsCrash(cfg, s, codec, trail, start, order, i, left, q.store.durable);
    RunKeepsInv(cfg, s, ops);
  }

  lemma SurvivorIsSound(c: Config, s: Sys, codec: Codec, trail: seq<Fs>, start: nat, order: seq<string>, i: nat,
                        left: File)
    requires Compacting(c, s, codec, trail, start, order) && start <= i < |trail| && Survives(trail[i], left)
    requires left.synced <= |left.bytes|
    ensures Readable(Records(codec, left.bytes)) && ViewOk(c, Fold(Records(codec, left.bytes)))
  {
    assert OldOrNew(codec, trail[i], s.disk, s.synced, Snapshot(s.mem.tasks, order));
    var n := DurableRecords(codec, left);
    var ops := SurvivorIsCrash(c, s, codec, trail, start, order, i, left, n);
    RunKeepsInv(c, s, ops);
    CutIsSound(c, Exec(c, s, ops), Records(codec, left.bytes));
  }
}
