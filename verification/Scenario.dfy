/** The first steps of the runs that show what can go wrong. */
module Scenario {
  import opened Model
  import opened Replay
  import opened QueueSpec
  import opened System

  // A single task, submitted at time 0 and leased.
  function Submitted(spec: Spec): Sys {
    Sys(Mem(map[spec.id := Fresh(spec, spec.createdAt)], map[spec.idemKey := spec.id], {spec.id}, 1, 0, true),
        [Enqueue(spec, 0)], 1)
  }

  function Leased(spec: Spec): Sys {
    Sys(Mem(map[spec.id := Fresh(spec, spec.createdAt).Leased(spec.createdAt)], map[spec.idemKey := spec.id],
            {}, 1, 0, true),
        [Enqueue(spec, 0)], 1)
  }

  lemma SubmitFirst(c: Config, spec: Spec)
    requires c.queueMax >= 1 && spec.idemKey != ""
    ensures Leads(c, INITIAL, Submit(spec, 0), Submitted(spec))
  {
    assert LiveIds(EMPTY.tasks) == {};
  }

  lemma LeaseNext(c: Config, spec: Spec)
    ensures Leads(c, Submitted(spec), Lease(spec.id, spec.createdAt), Leased(spec))
  {
    assert {spec.id} - {spec.id} == {};
  }

  lemma ReachLeased(c: Config, spec: Spec)
    requires c.queueMax >= 1 && spec.idemKey != ""
    ensures Reaches(c, INITIAL, [Submit(spec, 0), Lease(spec.id, spec.createdAt)], Leased(spec))
  {
    var submit, lease := Submit(spec, 0), Lease(spec.id, spec.createdAt);
    SubmitFirst(c, spec);
    LeaseNext(c, spec);
    ReachesSelf(c, INITIAL);
    ReachesFurther(c, INITIAL, [], INITIAL, submit, Submitted(spec));
    assert [] + [submit] == [submit] && [submit] + [lease] == [submit, lease];
    ReachesFurther(c, INITIAL, [submit], Submitted(spec), lease, Leased(spec));
  }

  lemma FoldTwo(a: Record, b: Record)
    ensures Fold([a, b]) == Apply(Apply(EMPTY, a), b)
  {
    FoldSnoc([], a);
    FoldSnoc([a], b);
    assert [] + [a] == [a] && [a] + [b] == [a, b];
  }

  lemma FoldThree(a: Record, b: Record, d: Record)
    ensures Fold([a, b, d]) == Apply(Apply(Apply(EMPTY, a), b), d)
  {
    FoldTwo(a, b);
    FoldSnoc([a, b], d);
    assert [a, b] + [d] == [a, b, d];
  }
}
