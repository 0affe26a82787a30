/**
 Runs of a transition system: a state, the steps enabled in it and what each of
 them does to it. A claim about every run is a claim about every interleaving.
 */
module Runs {
  /** `run` leads from `s` to `end`, one enabled step after the other. */
  ghost predicate Leads<S(!new), A(!new)>(enabled: (S, A) -> bool, next: (S, A) --> S, s: S, run: seq<A>, end: S)
    requires forall s, a :: enabled(s, a) ==> next.requires(s, a)
    decreases |run|
  {
    if run == [] then s == end
    else enabled(s, run[0]) && Leads(enabled, next, next(s, run[0]), run[1..], end)
  }

  /** What every step keeps holds after every run. */
  lemma {:induction false} Always<S(!new), A(!new)>(
      enabled: (S, A) -> bool, next: (S, A) --> S, inv: S -> bool, s: S, run: seq<A>, end: S)
    requires forall s, a :: enabled(s, a) ==> next.requires(s, a)
    requires forall s, a :: inv(s) && enabled(s, a) ==> inv(next(s, a))
    requires inv(s) && Leads(enabled, next, s, run, end)
    ensures inv(end)
    decreases |run|
  {
    if run != [] {
      Always(enabled, next, inv, next(s, run[0]), run[1..], end);
    }
  }

  /** If every step of a kind keeps `inv` and does some of a finite amount of work, runs of such steps are bounded. */
  lemma {:induction false} Bounded<S(!new), A(!new)>(
      enabled: (S, A) -> bool, next: (S, A) --> S, kind: A -> bool, inv: S -> bool, work: S -> int,
      s: S, run: seq<A>, end: S)
    requires forall s, a :: enabled(s, a) ==> next.requires(s, a)
    requires forall s, a :: inv(s) && enabled(s, a) && kind(a) ==> inv(next(s, a)) && work(next(s, a)) < work(s)
    requires inv(s) && Leads(enabled, next, s, run, end) && forall i :: 0 <= i < |run| ==> kind(run[i])
    ensures inv(end) && |run| <= work(s) - work(end)
    decreases |run|
  {
    if run != [] {
      Bounded(enabled, next, kind, inv, work, next(s, run[0]), run[1..], end);
    }
  }

  /** Runs can be joined. */
  lemma {:induction false} LeadsOn<S(!new), A(!new)>(
      enabled: (S, A) -> bool, next: (S, A) --> S, s: S, run: seq<A>, middle: S, more: seq<A>, end: S)
    requires forall s, a :: enabled(s, a) ==> next.requires(s, a)
    requires Leads(enabled, next, s, run, middle) && Leads(enabled, next, middle, more, end)
    ensures Leads(enabled, next, s, run + more, end)
    decreases |run|
  {
    if run == [] {
      assert run + more == more;
    } else {
      assert (run + more)[1..] == run[1..] + more;
      LeadsOn(enabled, next, next(s, run[0]), run[1..], middle, more, end);
    }
  }

  /** One more step at the end of a run. */
  lemma LeadsFurther<S(!new), A(!new)>(
      enabled: (S, A) -> bool, next: (S, A) --> S, s: S, run: seq<A>, middle: S, step: A)
    requires forall s, a :: enabled(s, a) ==> next.requires(s, a)
    requires Leads(enabled, next, s, run, middle) && enabled(middle, step)
    ensures Leads(enabled, next, s, run + [step], next(middle, step))
  {
    assert [step][1..] == [];
    LeadsOn(enabled, next, s, run, middle, [step], next(middle, step));
  }
}
