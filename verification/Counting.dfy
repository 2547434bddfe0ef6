/** How many elements of a sequence satisfy a predicate, and how many hold a value. */
module Counting {
  import opened Basics

  function CountIf<T>(xs: seq<T>, p: T -> bool): nat {
    if xs == [] then 0 else CountIf(xs[1..], p) + (if p(xs[0]) then 1 else 0)
  }

  lemma {:induction false} CountUpdate<T>(xs: seq<T>, i: nat, x: T, p: T -> bool)
    requires i < |xs|
    ensures CountIf(xs[i := x], p) + (if p(xs[i]) then 1 else 0)
         == CountIf(xs, p) + (if p(x) then 1 else 0)
  {
    if i == 0 {
      assert xs[i := x][1..] == xs[1..];
    } else {
      assert xs[i := x][1..] == xs[1..][i - 1 := x];
      CountUpdate(xs[1..], i - 1, x, p);
    }
  }

  lemma {:induction false} CountMember<T>(xs: seq<T>, i: nat, p: T -> bool)
    requires i < |xs| && p(xs[i])
    ensures CountIf(xs, p) > 0
  {
    if i > 0 {
      CountMember(xs[1..], i - 1, p);
    }
  }

  lemma {:induction false} CountNone<T>(xs: seq<T>, p: T -> bool)
    requires forall i :: 0 <= i < |xs| ==> !p(xs[i])
    ensures CountIf(xs, p) == 0
  {
    if xs != [] {
      CountNone(xs[1..], p);
    }
  }

  lemma {:induction false} CountSame<T>(xs: seq<T>, ys: seq<T>, p: T -> bool)
    requires |xs| == |ys|
    requires forall i :: 0 <= i < |xs| ==> p(xs[i]) == p(ys[i])
    ensures CountIf(xs, p) == CountIf(ys, p)
  {
    if xs != [] {
      CountSame(xs[1..], ys[1..], p);
    }
  }

  // How many elements of a sequence hold a value.
  function Share<T, V(==)>(xs: seq<T>, held: T -> Option<V>, v: V): nat {
    if xs == [] then 0 else Share(xs[1..], held, v) + (if held(xs[0]) == Some(v) then 1 else 0)
  }

  lemma {:induction false} ShareUpdate<T, V>(xs: seq<T>, i: nat, x: T, held: T -> Option<V>, v: V)
    requires i < |xs|
    ensures Share(xs[i := x], held, v) + (if held(xs[i]) == Some(v) then 1 else 0)
         == Share(xs, held, v) + (if held(x) == Some(v) then 1 else 0)
  {
    if i == 0 {
      assert xs[i := x][1..] == xs[1..];
    } else {
      assert xs[i := x][1..] == xs[1..][i - 1 := x];
      ShareUpdate(xs[1..], i - 1, x, held, v);
    }
  }

  lemma {:induction false} ShareNone<T, V>(xs: seq<T>, held: T -> Option<V>, v: V)
    requires forall i :: 0 <= i < |xs| ==> held(xs[i]) == None
    ensures Share(xs, held, v) == 0
  {
    if xs != [] {
      ShareNone(xs[1..], held, v);
    }
  }
}
