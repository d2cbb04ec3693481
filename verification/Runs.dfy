/** Runs of a state machine: each state leads to the next. */
module Runs {
  ghost predicate Steps<S(!new)>(tr: seq<S>, next: (S, S) -> bool) {
    tr != [] && forall i :: 0 <= i < |tr| - 1 ==> next(tr[i], tr[i + 1])
  }

  lemma OneStep<S(!new)>(tr: seq<S>, next: (S, S) -> bool, i: nat)
    requires Steps(tr, next) && 0 < i < |tr|
    ensures next(tr[i - 1], tr[i])
  {
    assert next(tr[i - 1], tr[i - 1 + 1]);
  }

  lemma StepsMore<S(!new)>(tr: seq<S>, next: (S, S) -> bool, t: S)
    requires Steps(tr, next) && next(tr[|tr| - 1], t)
    ensures Steps(tr + [t], next)
  {
    var more := tr + [t];
    forall i | 0 <= i < |more| - 1 ensures next(more[i], more[i + 1]) {
      if i < |tr| - 1 {
        assert next(tr[i], tr[i + 1]);
      }
    }
  }
}
