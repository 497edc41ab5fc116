/** The write-ahead log over a file system that can lose what was not fsynced. */
module Wal {
  import opened Model
  import opened Lines

  // ---- Files and what a crash leaves of them ----

  // The first `synced` bytes are on stable storage.
  datatype File = File(bytes: seq<Byte>, synced: nat)

  // `shadow` is the file the stored directory still calls journal.log while a rename is not yet durable.
  datatype Fs = Fs(journal: File, temp: Option<File>, shadow: Option<File>)

  // A crash cuts the file anywhere past its stable part, and more of it may have become stable; a killed process leaves
  // it as it is, a machine that loses power leaves nothing unstable.
  ghost predicate CutOf(f: File, left: File) {
    && f.synced <= left.synced <= |left.bytes| <= |f.bytes|
    && left.bytes == f.bytes[..|left.bytes|]
  }

  /** What journal.log can be after a crash. */
  ghost predicate Survives(fs: Fs, left: File) {
    CutOf(fs.journal, left) || (fs.shadow.Some? && CutOf(fs.shadow.value, left))
  }

  // The records of the durable part: a crash always leaves at least these.
  function DurableRecords(c: Codec, f: File): nat
    requires f.synced <= |f.bytes|
  {
    |Records(c, f.bytes[..f.synced])|
  }

  /** A crash leaves a prefix of the journal's records that includes the durable ones, and these stay durable, whatever
      still sat in the buffer. */
  lemma CrashLeavesPrefix(c: Codec, f: File, buffered: seq<Byte>, left: File)
    requires f.synced <= |f.bytes| && CutOf(f, left)
    ensures DurableRecords(c, f) <= DurableRecords(c, left) <= |Records(c, left.bytes)|
    ensures Records(c, left.bytes) <= Records(c, f.bytes + buffered)
  {
    var all := f.bytes + buffered;
    assert left.bytes == all[..|left.bytes|] && all == all[..|all|];
    assert f.bytes[..f.synced] == all[..f.synced] && left.bytes[..left.synced] == all[..left.synced];
    CutsAreOrdered(c, all, f.synced, left.synced);
    CutsAreOrdered(c, all, left.synced, |left.bytes|);
    CutsAreOrdered(c, all, |left.bytes|, |all|);
  }

  /** And it can leave any of them: records are what some crash leaves of a file if and only if they are a prefix of the
      file's records that includes the durable ones. */
  lemma CrashLeavesIff(c: Codec, f: File, rs: seq<Record>)
    requires f.synced <= |f.bytes|
    ensures (exists left :: CutOf(f, left) && Records(c, left.bytes) == rs)
            <==> rs <= Records(c, f.bytes) && DurableRecords(c, f) <= |rs|
  {
    if left :| CutOf(f, left) && Records(c, left.bytes) == rs {
      CrashLeavesPrefix(c, f, [], left);
      assert f.bytes + [] == f.bytes;
    }
    if rs <= Records(c, f.bytes) && DurableRecords(c, f) <= |rs| {
      var m := EveryPrefixIsRead(c, f.bytes, |rs|);
      if m < f.synced {
        CutsAreOrdered(c, f.bytes, m, f.synced);
        m := f.synced;
      }
      assert CutOf(f, File(f.bytes[..m], f.synced));
    }
  }

  /** Every crash outcome holds either exactly `snapshot`, durably, or a prefix of `before` with its first `durable`
      records durable. */
  ghost predicate OldOrNew(c: Codec, fs: Fs, before: seq<Record>, durable: nat, snapshot: seq<Record>) {
    forall left | Survives(fs, left) ::
      || (Records(c, left.bytes) == snapshot && DurableRecords(c, left) == |snapshot|)
      || (durable <= DurableRecords(c, left) <= |Records(c, left.bytes)| && Records(c, left.bytes) <= before)
  }

  // So at every file state from the given one on.
  ghost predicate OldOrNewSince(c: Codec, trail: seq<Fs>, start: nat, before: seq<Record>, durable: nat,
                                snapshot: seq<Record>)
  {
    start < |trail| && forall i | start <= i < |trail| :: OldOrNew(c, trail[i], before, durable, snapshot)
  }

  // ---- The system calls the log makes ----

  class Disk {
    var fs: Fs
    ghost var trail: seq<Fs>  // every state the file system has been through

    constructor (fs: Fs)
      ensures this.fs == fs && trail == [fs]
    {
      this.fs := fs;
      trail := [fs];
    }

    method Enter(next: Fs)
      modifies this
      ensures fs == next && trail == old(trail) + [next]
    {
      fs := next;
      trail := trail + [next];
    }

    method Write(bs: seq<Byte>)
      modifies this
      ensures fs == old(fs).(journal := File(old(fs).journal.bytes + bs, old(fs).journal.synced))
      ensures trail == old(trail) + [fs]
    {
      Enter(fs.(journal := File(fs.journal.bytes + bs, fs.journal.synced)));
    }

    method Fsync()
      modifies this
      ensures fs == old(fs).(journal := File(old(fs).journal.bytes, |old(fs).journal.bytes|))
      ensures trail == old(trail) + [fs]
    {
      Enter(fs.(journal := File(fs.journal.bytes, |fs.journal.bytes|)));
    }

    method Truncate(length: nat)
      requires length <= |fs.journal.bytes|
      modifies this
      ensures fs == old(fs).(journal := File(old(fs).journal.bytes[..length],
                                             if old(fs).journal.synced <= length then old(fs).journal.synced
                                             else length))
      ensures trail == old(trail) + [fs]
    {
      var f := fs.journal;
      Enter(fs.(journal := File(f.bytes[..length], if f.synced <= length then f.synced else length)));
    }

    method CreateTemp()
      modifies this
      ensures fs == old(fs).(temp := Some(File([], 0)))
      ensures trail == old(trail) + [fs]
    {
      Enter(fs.(temp := Some(File([], 0))));
    }

    method WriteTemp(bs: seq<Byte>)
      requires fs.temp.Some?
      modifies this
      ensures fs == old(fs).(temp := Some(File(old(fs).temp.value.bytes + bs, old(fs).temp.value.synced)))
      ensures trail == old(trail) + [fs]
    {
      Enter(fs.(temp := Some(File(fs.temp.value.bytes + bs, fs.temp.value.synced))));
    }

    method FsyncTemp()
      requires fs.temp.Some?
      modifies this
      ensures fs == old(fs).(temp := Some(File(old(fs).temp.value.bytes, |old(fs).temp.value.bytes|)))
      ensures trail == old(trail) + [fs]
    {
      Enter(fs.(temp := Some(File(fs.temp.value.bytes, |fs.temp.value.bytes|))));
    }

    method RenameTemp()
      requires fs.temp.Some?
      modifies this
      ensures fs == Fs(old(fs).temp.value, None, Some(old(fs).journal))
      ensures forall left :: Survives(fs, left) <==> CutOf(old(fs).journal, left) || CutOf(old(fs).temp.value, left)
      ensures trail == old(trail) + [fs]
    {
      Enter(Fs(fs.temp.value, None, Some(fs.journal)));
    }

    method FsyncDir()
      modifies this
      ensures fs == old(fs).(shadow := None)
      ensures forall left :: Survives(fs, left) <==> CutOf(fs.journal, left)
      ensures trail == old(trail) + [fs]
    {
      Enter(fs.(shadow := None));
    }
  }

  // ---- The log ----

  datatype Stats = Stats(records: nat, terminal: nat, bytes: nat)

  function TerminalCount(rs: seq<Record>): nat {
    if rs == [] then 0 else TerminalCount(rs[..|rs| - 1]) + (if rs[|rs| - 1].Terminal() then 1 else 0)
  }

  // How far an append gets when the disk refuses.
  datatype Fault = NoFault | WriteFails | SyncFails

  class WAL {
    const codec: Codec
    const disk: Disk
    var buffer: seq<Byte>  // written by the program, not yet handed to the file
    var dirty: bool
    var stats: Stats

    ghost var journal: seq<Record>  // everything appended, whether or not it has reached the file
    ghost var durable: nat          // how many of these records no crash can take

    // A log just opened: nothing replayed, but the file already says what the journal is.
    ghost predicate Opened()
      reads this, disk
    {
      && codec.Ok()
      && disk.fs.journal.synced <= |disk.fs.journal.bytes|
      && disk.fs.shadow.None?
      && (!dirty ==> buffer == [])
      && journal == Records(codec, Bytes())
      && durable == DurableRecords(codec, disk.fs.journal)
    }

    function Bytes(): seq<Byte>
      reads this, disk
    {
      disk.fs.journal.bytes + buffer
    }

    ghost predicate Valid()
      reads this, disk
    {
      && Opened()
      && Clean(codec, Bytes())
      && stats == Stats(|journal|, TerminalCount(journal), |Bytes()|)
      && durable <= |journal|
    }

    constructor (codec: Codec, disk: Disk)
      requires codec.Ok() && disk.fs.journal.synced <= |disk.fs.journal.bytes| && disk.fs.shadow.None?
      ensures Opened() && this.codec == codec && this.disk == disk && journal == Records(codec, disk.fs.journal.bytes)
    {
      this.codec := codec;
      this.disk := disk;
      buffer := [];
      dirty := false;
      stats := Stats(0, 0, 0);
      journal := Records(codec, disk.fs.journal.bytes);
      durable := DurableRecords(codec, disk.fs.journal);
      new;
      assert Bytes() == disk.fs.journal.bytes;
    }

    /** Whatever a crash leaves is a prefix of the journal with at least its durable records. */
    lemma CrashLeavesDurable(left: File)
      requires Opened() && Survives(disk.fs, left)
      ensures durable <= DurableRecords(codec, left) <= |Records(codec, left.bytes)|
      ensures Records(codec, left.bytes) <= journal
    {
      CrashLeavesPrefix(codec, disk.fs.journal, buffer, left);
    }

    method Flush()
      requires Opened()
      modifies this`buffer, this`dirty, this`durable, disk
      ensures Opened() && !dirty && buffer == [] && durable == |journal| && Bytes() == old(Bytes())
      ensures disk.fs == old(disk.fs).(journal := File(old(Bytes()), |old(Bytes())|))
    {
      disk.Write(buffer);
      buffer := [];
      disk.Fsync();
      dirty := false;
      durable := |journal|;
      assert Bytes() == old(Bytes());
      assert disk.fs.journal.bytes[..|Bytes()|] == Bytes();
    }

    // A buffered write may hand any part of the buffer to the file on the way.
    method BufferedWrite(line: seq<Byte>)
      requires disk.fs.journal.synced <= |disk.fs.journal.bytes|
      modifies this`buffer, this`dirty, disk
      ensures dirty && Bytes() == old(Bytes()) + line
      ensures disk.fs == old(disk.fs).(journal := disk.fs.journal)
              && disk.fs.journal.synced == old(disk.fs.journal.synced)
      ensures |old(disk.fs.journal.bytes)| <= |disk.fs.journal.bytes|
      ensures disk.fs.journal.bytes[..disk.fs.journal.synced] == old(disk.fs.journal.bytes[..disk.fs.journal.synced])
    {
      buffer := buffer + line;
      var k: nat :| k <= |buffer|;
      disk.Write(buffer[..k]);
      buffer := buffer[k..];
      dirty := true;
    }

    /** Appends a record.  With `sync`, it and everything before it is durable on return; without, nothing more is. */
    method Append(r: Record, sync: bool)
      requires Valid()
      modifies this, disk
      ensures Valid() && journal == old(journal) + [r]
      ensures durable == if sync then |journal| else old(durable)
      ensures stats == Stats(old(stats.records) + 1,
                             old(stats.terminal) + (if r.kind.RecDone? || r.kind.RecDead? then 1 else 0),
                             old(stats.bytes) + |codec.enc(r)| + 1)
    {
      AppendLine(codec, Bytes(), r);
      BufferedWrite(codec.Line(r));
      stats := Stats(stats.records + 1, stats.terminal + (if r.Terminal() then 1
          else 0), stats.bytes + |codec.Line(r)|);
      journal := journal + [r];
      assert journal[..|journal| - 1] == old(journal);
      if sync {
        Flush();
      }
    }

    /** An enqueue is durable on return, or has failed: in the write, and is nowhere; or in the fsync, and stays in the
        journal like any other record, although the caller is told it is not. */
    method AppendEnqueue(spec: Spec, ts: int, fault: Fault) returns (ok: bool)
      requires Valid()
      modifies this, disk
      ensures Valid() && (ok <==> fault.NoFault?)
      ensures journal == if fault.WriteFails? then old(journal) else old(journal) + [Enqueue(spec, ts)]
      ensures durable == if ok then |journal| else old(durable)
    {
      ok := fault.NoFault?;
      if !fault.WriteFails? {
        Append(Enqueue(spec, ts), ok);
      }
    }

    method AppendAttempt(id: string, n: int, nextAt: int, ts: int)
      requires Valid()
      modifies this, disk
      ensures Valid() && journal == old(journal) + [Attempt(id, n, nextAt, ts)] && durable == old(durable)
    {
      Append(Attempt(id, n, nextAt, ts), false);
    }

    method AppendDone(id: string, n: int, ts: int)
      requires Valid()
      modifies this, disk
      ensures Valid() && journal == old(journal) + [Done(id, n, ts)] && durable == old(durable)
    {
      Append(Done(id, n, ts), false);
    }

    method AppendDead(id: string, n: int, why: string, ts: int)
      requires Valid()
      modifies this, disk
      ensures Valid() && journal == old(journal) + [Buried(id, n, why, ts)] && durable == old(durable)
    {
      Append(Buried(id, n, why, ts), false);
    }

    method FlushIfDirty()
      requires Opened()
      modifies this`buffer, this`dirty, this`durable, disk
      ensures Opened() && !dirty && buffer == [] && Bytes() == old(Bytes()) == disk.fs.journal.bytes
      ensures durable == if old(dirty) then |journal| else old(durable)
    {
      if dirty {
        Flush();
      }
    }

    /** One tick of the background loop: if anything was appended since the last flush, all of it becomes durable. */
    method SyncTick()
      requires Valid()
      modifies this`buffer, this`dirty, this`durable, disk
      ensures Valid()
      ensures durable == if old(dirty) then |journal| else old(durable)
    {
      FlushIfDirty();
    }

    /** Reads the journal from the start and repairs a torn tail.  `delivered` lists the records handed to the caller,
        in order; the caller refuses records that are not acceptable, and the first refused one ends the replay in
        error. */
    method Replay() returns (ok: bool, delivered: seq<Record>)
      requires Opened()
      modifies this`buffer, this`dirty, this`durable, this`stats, disk
      ensures ok <==> forall i | 0 <= i < |journal| :: journal[i].Acceptable()
      ensures delivered <= journal
      ensures forall i | 0 <= i < |delivered| :: delivered[i].Acceptable()
      ensures !ok ==> Bytes() == old(Bytes()) && |delivered| < |journal| && !journal[|delivered|].Acceptable()
      ensures ok ==> Valid() && delivered == journal
                     && Bytes() == disk.fs.journal.bytes == old(Bytes())[..Parse(codec, old(Bytes())).good]
                     && old(durable) <= durable && (old(dirty) ==> durable == |journal|)
    {
      DurableFits();
      FlushIfDirty();
      var good, found, torn;
      ok, delivered, good, found, torn := Scan(codec, disk.fs.journal.bytes);
      if ok {
        Repair(good, torn);
        stats := Stats(found.records, found.terminal, good);
      }
    }

    lemma DurableFits()
      requires Opened()
      ensures durable <= |journal|
    {
      var f := disk.fs.journal;
      assert f.bytes[..f.synced] == Bytes()[..f.synced] && Bytes()[..|Bytes()|] == Bytes();
      CutsAreOrdered(codec, Bytes(), f.synced, |Bytes()|);
    }

    // Cuts the file where the good records end.
    method Repair(good: nat, torn: bool)
      requires Opened() && buffer == []
      requires good == Parse(codec, Bytes()).good && (torn <==> good < |Bytes()|)
      modifies this`durable, disk
      ensures Opened() && Bytes() == disk.fs.journal.bytes == old(Bytes())[..good] && Clean(codec, Bytes())
      ensures old(durable) <= durable <= |journal|
    {
      ghost var bs, synced := disk.fs.journal.bytes, disk.fs.journal.synced;
      assert bs == Bytes();
      if torn {
        disk.Truncate(good);
        disk.Fsync();
      }
      assert bs[..|bs|] == bs;
      assert Bytes() == disk.fs.journal.bytes == bs[..good];
      RepairIsIdempotent(codec, bs);
      DurableAfterRepair(codec, bs, synced, disk.fs.journal, torn);
      durable := DurableRecords(codec, disk.fs.journal);
    }

    // Writes the snapshot aside and fsyncs it, without touching the journal.
    method WriteAside(snapshot: seq<Record>) returns (next: Stats)
      requires Opened()
      modifies disk
      ensures disk.fs == old(disk.fs).(temp := Some(File(Encoded(codec, snapshot), |Encoded(codec, snapshot)|)))
      ensures next == Stats(|snapshot|, TerminalCount(snapshot), |Encoded(codec, snapshot)|)
      ensures |old(disk.trail)| < |disk.trail| && disk.trail[..|old(disk.trail)|] == old(disk.trail)
      ensures forall j | |old(disk.trail)| <= j < |disk.trail| ::
                disk.trail[j].journal == old(disk.fs.journal) && disk.trail[j].shadow.None?
    {
      disk.CreateTemp();
      var pending: seq<Byte> := [];
      next := Stats(0, 0, 0);
      var i := 0;
      while i < |snapshot|
        invariant 0 <= i <= |snapshot|
        invariant disk.fs == old(disk.fs).(temp := disk.fs.temp) && disk.fs.temp.Some?
        invariant disk.fs.temp.value.bytes + pending == Encoded(codec, snapshot[..i])
        invariant next == Stats(i, TerminalCount(snapshot[..i]), |Encoded(codec, snapshot[..i])|)
        invariant |old(disk.trail)| < |disk.trail| && disk.trail[..|old(disk.trail)|] == old(disk.trail)
        invariant forall j | |old(disk.trail)| <= j < |disk.trail| ::
                    disk.trail[j].journal == old(disk.fs.journal) && disk.trail[j].shadow.None?
      {
        var line := codec.Line(snapshot[i]);
        OneMoreLine(codec, snapshot, i);
        pending := pending + line;
        var k: nat :| k <= |pending|;
        disk.WriteTemp(pending[..k]);
        pending := pending[k..];
        next := Stats(next.records + 1, next.terminal + (if snapshot[i].Terminal() then 1 else 0), next.bytes + |line|);
        i := i + 1;
      }
      assert snapshot[..i] == snapshot;
      disk.WriteTemp(pending);
      disk.FsyncTemp();
    }

    /** Replaces the journal by a snapshot: written aside, fsynced, renamed into place, the directory fsynced.  At every
        file state on the way a crash leaves the old journal, nothing durable missing, or exactly the snapshot. */
    method Compact(snapshot: seq<Record>)
      requires Valid()
      modifies this, disk
      ensures Valid() && journal == snapshot && durable == |snapshot| && !dirty
      ensures |old(disk.trail)| < |disk.trail| && disk.trail[..|old(disk.trail)|] == old(disk.trail)
      ensures OldOrNewSince(codec, disk.trail, |old(disk.trail)|, old(journal), old(durable), snapshot)
    {
      ghost var before, unsaved, start := disk.fs.journal, buffer, |disk.trail|;
      var next := WriteAside(snapshot);
      ghost var aside := |disk.trail|;
      buffer := [];
      disk.RenameTemp();
      disk.FsyncDir();
      dirty := false;
      stats := next;
      journal, durable := snapshot, |snapshot|;
      EncodedIsRead(codec, snapshot);
      assert Bytes() == Encoded(codec, snapshot);
      assert disk.fs.journal.bytes[..|Bytes()|] == Bytes();
      forall i | start <= i < |disk.trail|
        ensures OldOrNew(codec, disk.trail[i], old(journal), old(durable), snapshot)
      {
        if i < aside {
          KeepsOld(codec, disk.trail[i], before, unsaved, snapshot);
        } else {
          HasNew(codec, disk.trail[i], before, unsaved, snapshot);
        }
      }
    }
  }

  lemma OneMoreLine(c: Codec, rs: seq<Record>, i: nat)
    requires i < |rs|
    ensures Encoded(c, rs[..i + 1]) == Encoded(c, rs[..i]) + c.Line(rs[i])
    ensures TerminalCount(rs[..i + 1]) == TerminalCount(rs[..i]) + (if rs[i].Terminal() then 1 else 0)
  {
    assert rs[..i + 1][..i] == rs[..i];
  }

  /** The reading loop of Replay: takes whole lines while they decode and the caller accepts them. */
  method Scan(c: Codec, bs: seq<Byte>) returns (ok: bool, delivered: seq<Record>, good: nat, found: Stats, torn: bool)
    ensures ok <==> forall i | 0 <= i < |Records(c, bs)| :: Records(c, bs)[i].Acceptable()
    ensures delivered <= Records(c, bs)
    ensures forall i | 0 <= i < |delivered| :: delivered[i].Acceptable()
    ensures !ok ==> |delivered| < |Records(c, bs)| && !Records(c, bs)[|delivered|].Acceptable()
    ensures ok ==> delivered == Records(c, bs) && good == Parse(c, bs).good && (torn <==> good < |bs|)
    ensures ok ==> found.records == |delivered| && found.terminal == TerminalCount(delivered)
  {
    good, found, torn, delivered := 0, Stats(0, 0, 0), false, [];
    var rest := bs;
    while rest != []
      invariant good + |rest| == |bs|
      invariant Ahead(c, bs, delivered, good, rest)
      invariant forall i | 0 <= i < |delivered| :: delivered[i].Acceptable()
      invariant found == Stats(|delivered|, TerminalCount(delivered), 0)
      decreases |rest|
    {
      var e := FirstNewline(rest);
      if e == |rest| || c.dec(rest[..e]).None? {
        torn := true;
        break;
      }
      var r := c.dec(rest[..e]).value;
      AheadByLine(c, bs, delivered, good, rest, e);
      if !r.Acceptable() {
        return false, delivered, good, found, torn;
      }
      delivered := delivered + [r];
      good := good + e + 1;
      rest := rest[e + 1..];
      found := Stats(found.records + 1, found.terminal + (if r.Terminal() then 1 else 0), 0);
    }
    ok := true;
  }

  // What is still to be read completes what has been delivered.
  ghost predicate Ahead(c: Codec, bs: seq<Byte>, delivered: seq<Record>, good: nat, rest: seq<Byte>) {
    Parse(c, bs) == Parsed(delivered + Records(c, rest), good + Parse(c, rest).good)
  }

  lemma AheadByOne(c: Codec, bs: seq<Byte>, delivered: seq<Record>, good: nat, line: seq<Byte>, rest: seq<Byte>)
    requires NEWLINE !in line && c.dec(line).Some?
    requires Ahead(c, bs, delivered, good, line + [NEWLINE] + rest)
    ensures var r := c.dec(line).value;
            && Ahead(c, bs, delivered + [r], good + |line| + 1, rest)
            && |delivered| < |Records(c, bs)| && Records(c, bs)[|delivered|] == r
            && delivered + [r] <= Records(c, bs)
  {
    ParseFirst(c, line, rest);
    Associative(delivered, [c.dec(line).value], Records(c, rest));
  }

  lemma AheadByLine(c: Codec, bs: seq<Byte>, delivered: seq<Record>, good: nat, rest: seq<Byte>, e: nat)
    requires e == FirstNewline(rest) < |rest| && c.dec(rest[..e]).Some? && Ahead(c, bs, delivered, good, rest)
    ensures var r := c.dec(rest[..e]).value;
            && Ahead(c, bs, delivered + [r], good + e + 1, rest[e + 1..])
            && |delivered| < |Records(c, bs)| && Records(c, bs)[|delivered|] == r
            && delivered + [r] <= Records(c, bs)
            && TerminalCount(delivered + [r]) == TerminalCount(delivered) + (if r.Terminal() then 1 else 0)
  {
    assert rest == rest[..e] + [NEWLINE] + rest[e + 1..];
    AheadByOne(c, bs, delivered, good, rest[..e], rest[e + 1..]);
    assert (delivered + [c.dec(rest[..e]).value])[..|delivered|] == delivered;
  }

  // While the journal itself is untouched, a crash leaves what it always would.
  lemma KeepsOld(c: Codec, fs: Fs, held: File, buffered: seq<Byte>, snapshot: seq<Record>)
    requires fs.journal == held && fs.shadow.None? && held.synced <= |held.bytes|
    ensures OldOrNew(c, fs, Records(c, held.bytes + buffered), DurableRecords(c, held), snapshot)
  {
    forall left | Survives(fs, left)
      ensures DurableRecords(c, held) <= DurableRecords(c, left) <= |Records(c, left.bytes)|
      ensures Records(c, left.bytes) <= Records(c, held.bytes + buffered)
    {
      CrashLeavesPrefix(c, held, buffered, left);
    }
  }

  // Once the fsynced snapshot bears the journal's name, the stored directory leads to it or still to the old file.
  lemma HasNew(c: Codec, fs: Fs, held: File, buffered: seq<Byte>, snapshot: seq<Record>)
    requires fs.journal.synced == |fs.journal.bytes| && Records(c, fs.journal.bytes) == snapshot
    requires held.synced <= |held.bytes| && (fs.shadow.None? || fs.shadow == Some(held))
    ensures OldOrNew(c, fs, Records(c, held.bytes + buffered), DurableRecords(c, held), snapshot)
  {
    forall left | Survives(fs, left)
      ensures || (Records(c, left.bytes) == snapshot && DurableRecords(c, left) == |snapshot|)
              || (DurableRecords(c, held) <= DurableRecords(c, left) <= |Records(c, left.bytes)|
                  && Records(c, left.bytes) <= Records(c, held.bytes + buffered))
    {
      if CutOf(fs.journal, left) {
        assert left.bytes == fs.journal.bytes == left.bytes[..left.synced];
      } else {
        CrashLeavesPrefix(c, held, buffered, left);
      }
    }
  }

  lemma DurableAfterRepair(c: Codec, bs: seq<Byte>, synced: nat, f: File, truncated: bool)
    requires synced <= |bs| && f.bytes == bs[..Parse(c, bs).good]
    requires if truncated then f.synced == |f.bytes| else f.bytes == bs && f.synced == synced
    ensures |Records(c, bs[..synced])| <= DurableRecords(c, f) <= |Records(c, f.bytes)|
  {
    RepairIsIdempotent(c, bs);
    assert bs[..|bs|] == bs && f.bytes[..|f.bytes|] == f.bytes;
    CutsAreOrdered(c, bs, synced, |bs|);
  }
}
