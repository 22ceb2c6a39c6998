/** Runs of a transition system whose steps are determined by a choice, such as which thread goes next. */
module Runs {

  datatype Rules<!S(!new), !A(!new)> = Rules(enabled: (S, A) -> bool, step: (S, A) -> S)

  ghost predicate Valid<S(!new), A(!new)>(r: Rules<S, A>, s: S, run: seq<A>)
    decreases |run|
  {
    run == [] || (r.enabled(s, run[0]) && Valid(r, r.step(s, run[0]), run[1..]))
  }

  ghost function Exec<S(!new), A(!new)>(r: Rules<S, A>, s: S, run: seq<A>): S
    decreases |run|
  {
    if run == [] then s else Exec(r, r.step(s, run[0]), run[1..])
  }

  ghost predicate Preserves<S(!new), A(!new)>(r: Rules<S, A>, inv: S -> bool) {
    forall s, a :: inv(s) && r.enabled(s, a) ==> inv(r.step(s, a))
  }

  /** What every step keeps, every run keeps. */
  lemma {:induction false} RunPreserves<S(!new), A(!new)>(r: Rules<S, A>, inv: S -> bool, s: S, run: seq<A>)
    requires Preserves(r, inv) && inv(s) && Valid(r, s, run)
    ensures inv(Exec(r, s, run))
    decreases |run|
  {
    if run != [] {
      RunPreserves(r, inv, r.step(s, run[0]), run[1..]);
    }
  }

  lemma {:induction false} RunAppend<S(!new), A(!new)>(r: Rules<S, A>, s: S, run: seq<A>, more: seq<A>)
    requires Valid(r, s, run) && Valid(r, Exec(r, s, run), more)
    ensures Valid(r, s, run + more) && Exec(r, s, run + more) == Exec(r, Exec(r, s, run), more)
    decreases |run|
  {
    if run == [] {
      assert run + more == more;
    } else {
      RunAppend(r, r.step(s, run[0]), run[1..], more);
      assert (run + more)[1..] == run[1..] + more;
    }
  }
}
