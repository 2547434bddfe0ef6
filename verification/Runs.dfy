/** Runs of a transition system, and the induction principle for its invariants. */
module Runs {

  // A run starts in an initial state and every next state is one step away.
  ghost predicate RunOf<S(!new)>(run: seq<S>, init: S -> bool, next: (S, S) -> bool) {
    && |run| > 0
    && init(run[0])
    && forall k :: 0 <= k < |run| - 1 ==> next(run[k], run[k + 1])
  }

  lemma {:induction false} Invariant<S(!new)>(
      run: seq<S>, init: S -> bool, next: (S, S) -> bool, inv: S -> bool, k: nat)
    requires RunOf(run, init, next) && k < |run|
    requires forall s :: init(s) ==> inv(s)
    requires forall s, s' :: inv(s) && next(s, s') ==> inv(s')
    ensures inv(run[k])
  {
    if k > 0 {
      Invariant(run, init, next, inv, k - 1);
      assert next(run[k - 1], run[k - 1 + 1]);
    }
  }

  // What one step preserves from a good state, the rest of the run preserves.
  lemma {:induction false} Onwards<S(!new)>(
      run: seq<S>, next: (S, S) -> bool, inv: S -> bool, keep: (S, S) -> bool, j: nat, k: nat)
    requires j <= k < |run|
    requires forall i :: 0 <= i < |run| - 1 ==> next(run[i], run[i + 1])
    requires forall i :: 0 <= i < |run| ==> inv(run[i])
    requires keep(run[j], run[j])
    requires forall a, s, s' :: keep(a, s) && inv(s) && next(s, s') ==> keep(a, s')
    ensures keep(run[j], run[k])
  {
    if j < k {
      Onwards(run, next, inv, keep, j, k - 1);
      assert next(run[k - 1], run[k - 1 + 1]);
    }
  }

  // A property that each step keeps exactly if it does nothing bad.
  lemma {:induction false} GoodExactly<S(!new)>(
      run: seq<S>, next: (S, S) -> bool, inv: S -> bool, good: S -> bool, bad: (S, S) -> bool, k: nat)
    requires k < |run| && good(run[0])
    requires forall i :: 0 <= i < |run| - 1 ==> next(run[i], run[i + 1])
    requires forall i :: 0 <= i < |run| ==> inv(run[i])
    requires forall s, s' :: good(s) && inv(s) && next(s, s') ==> (good(s') <==> !bad(s, s'))
    ensures (forall i :: 0 <= i <= k ==> good(run[i]))
       <==> (forall i :: 0 <= i < k ==> !bad(run[i], run[i + 1]))
  {
    if k > 0 {
      GoodExactly(run, next, inv, good, bad, k - 1);
      assert next(run[k - 1], run[k - 1 + 1]);
    }
  }

  // How many steps of one kind a run takes between two of its states.
  ghost function Steps<S>(run: seq<S>, kind: (S, S) -> bool, j: nat, k: nat): nat
    requires j <= k < |run|
  {
    if j == k then 0 else Steps(run, kind, j, k - 1) + if kind(run[k - 1], run[k]) then 1 else 0
  }

  // Steps of one kind are paid for by a measure that no other step raises.
  lemma {:induction false} Paid<S(!new)>(
      run: seq<S>, next: (S, S) -> bool, inv: S -> bool, kind: (S, S) -> bool, measure: S -> int, j: nat, k: nat)
    requires j <= k < |run| && inv(run[j])
    requires forall i :: 0 <= i < |run| - 1 ==> next(run[i], run[i + 1])
    requires forall s, s' :: inv(s) && next(s, s') ==>
               inv(s') && measure(s') + (if kind(s, s') then 1 else 0) <= measure(s)
    ensures inv(run[k]) && Steps(run, kind, j, k) + measure(run[k]) <= measure(run[j])
  {
    if j < k {
      Paid(run, next, inv, kind, measure, j, k - 1);
      assert next(run[k - 1], run[k - 1 + 1]);
    }
  }

  // Some run leads to the state.
  ghost predicate Reachable<S(!new)>(s: S, init: S -> bool, next: (S, S) -> bool) {
    exists run :: RunOf(run, init, next) && run[|run| - 1] == s
  }

  lemma ReachFirst<S(!new)>(s: S, init: S -> bool, next: (S, S) -> bool)
    requires init(s)
    ensures Reachable(s, init, next)
  {
    assert RunOf([s], init, next);
  }

  lemma ReachNext<S(!new)>(s: S, s': S, init: S -> bool, next: (S, S) -> bool)
    requires Reachable(s, init, next) && next(s, s')
    ensures Reachable(s', init, next)
  {
    var run :| RunOf(run, init, next) && run[|run| - 1] == s;
    assert RunOf(run + [s'], init, next);
  }

  // No step leads out of the set.
  ghost predicate Stays<S(!new)>(reach: S -> bool, next: (S, S) -> bool) {
    forall s, s' :: reach(s) && next(s, s') ==> reach(s')
  }

  // The initial states are reachable, and no step leads out of the reachable ones.
  lemma ReachableStays<S(!new)>(init: S -> bool, next: (S, S) -> bool) returns (reach: S -> bool)
    ensures Stays(reach, next)
    ensures forall s :: init(s) ==> reach(s)
    ensures forall s :: reach(s) ==> Reachable(s, init, next)
  {
    reach := s => Reachable(s, init, next);
    forall s, s' | reach(s) && next(s, s') ensures reach(s') {
      ReachNext(s, s', init, next);
    }
    forall s | init(s) ensures reach(s) {
      ReachFirst(s, init, next);
    }
  }
}
