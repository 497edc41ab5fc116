/** What replaying a journal builds: the fold of the restore callback over its records. */
module Replay {
  import opened Model

  datatype View = View(tasks: map<string, Task>, idem: map<string, string>)

  const EMPTY := View(map[], map[])

  function Apply(v: View, r: Record): View {
    match r.kind
    case RecEnqueue =>
      if r.task.None? then v
      else
        var spec := r.task.value;
        View(v.tasks[spec.id := Fresh(spec, r.ts)],
             if spec.idemKey != "" then v.idem[spec.idemKey := spec.id] else v.idem)
    case RecUnknown(_) => v
    case _ =>
      if r.id !in v.tasks then v
      else v.(tasks := v.tasks[r.id := Advance(v.tasks[r.id], r)])
  }

  // How an outcome record changes the task it names.
  function Advance(t: Task, r: Record): Task
    requires r.kind.RecAttempt? || r.kind.RecDone? || r.kind.RecDead?
  {
    match r.kind
    case RecAttempt => t.(attempts := r.n, nextAt := r.nextAt, state := Waiting, updatedAt := r.ts)
    case RecDone => t.(attempts := r.n, state := Succeeded, updatedAt := r.ts,
                       spec := t.spec.(target := t.spec.target.Strip()))
    case RecDead => t.(attempts := r.n, deadReason := r.why, state := Dead, updatedAt := r.ts)
  }

  function FoldFrom(v: View, rs: seq<Record>): View {
    if rs == [] then v else Apply(FoldFrom(v, rs[..|rs| - 1]), rs[|rs| - 1])
  }

  function Fold(rs: seq<Record>): View { FoldFrom(EMPTY, rs) }

  lemma {:induction false} FoldFromAppend(v: View, a: seq<Record>, b: seq<Record>)
    ensures FoldFrom(v, a + b) == FoldFrom(FoldFrom(v, a), b)
  {
    if b == [] {
      assert a + b == a;
    } else {
      FoldFromAppend(v, a, b[..|b| - 1]);
      assert (a + b)[..|a + b| - 1] == a + b[..|b| - 1];
    }
  }

  lemma FoldSnoc(rs: seq<Record>, r: Record)
    ensures Fold(rs + [r]) == Apply(Fold(rs), r)
  {
    assert (rs + [r])[..|rs|] == rs;
  }

  /** Replay never forgets an id, and only an enqueue record adds one. */
  lemma {:induction false} FoldKeepsIds(v: View, rs: seq<Record>)
    ensures v.tasks.Keys <= FoldFrom(v, rs).tasks.Keys
    ensures (forall r | r in rs :: !r.kind.RecEnqueue?) ==> FoldFrom(v, rs).tasks.Keys == v.tasks.Keys
  {
    if rs == [] {
    } else {
      FoldKeepsIds(v, rs[..|rs| - 1]);
    }
  }
}
