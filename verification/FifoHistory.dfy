/** The sequential queue that the concurrent queues are measured against. */
module FifoHistory {

  // One completed operation, in the order in which the operations take effect.
  datatype Op<T> = Push(v: T) | PushFull | Pop(v: T) | PopEmpty

  datatype Bound = Unbounded | AtMost(n: nat)

  datatype Replayed<T> = Illegal | Contents(q: seq<T>)

  predicate Full(q: nat, bound: Bound) {
    bound.AtMost? && q >= bound.n
  }

  // Runs the operations on a sequential queue, and fails at the first wrong answer.
  function Replay<T(==)>(ops: seq<Op<T>>, bound: Bound): Replayed<T> {
    if ops == [] then Contents([])
    else match Replay(ops[..|ops| - 1], bound)
      case Illegal => Illegal
      case Contents(q) =>
        match ops[|ops| - 1]
        case Push(v) => if Full(|q|, bound) then Illegal else Contents(q + [v])
        case PushFull => if Full(|q|, bound) then Contents(q) else Illegal
        case Pop(v) => if q != [] && q[0] == v then Contents(q[1..]) else Illegal
        case PopEmpty => if q == [] then Contents(q) else Illegal
  }

  function Pushed<T>(ops: seq<Op<T>>): seq<T> {
    if ops == [] then []
    else Pushed(ops[..|ops| - 1]) + match ops[|ops| - 1] case Push(v) => [v] case _ => []
  }

  function Popped<T>(ops: seq<Op<T>>): seq<T> {
    if ops == [] then []
    else Popped(ops[..|ops| - 1]) + match ops[|ops| - 1] case Pop(v) => [v] case _ => []
  }

  // How often a value was pushed, or popped.
  function PushesOf<T(==)>(ops: seq<Op<T>>, v: T): nat {
    if ops == [] then 0 else PushesOf(ops[..|ops| - 1], v) + if ops[|ops| - 1] == Push(v) then 1 else 0
  }

  function PopsOf<T(==)>(ops: seq<Op<T>>, v: T): nat {
    if ops == [] then 0 else PopsOf(ops[..|ops| - 1], v) + if ops[|ops| - 1] == Pop(v) then 1 else 0
  }

  lemma OfSnoc<T>(ops: seq<Op<T>>, op: Op<T>, v: T)
    ensures PushesOf(ops + [op], v) == PushesOf(ops, v) + if op == Push(v) then 1 else 0
    ensures PopsOf(ops + [op], v) == PopsOf(ops, v) + if op == Pop(v) then 1 else 0
  {
    assert (ops + [op])[..|ops|] == ops;
  }

  lemma {:induction false} OfIsMultiplicity<T>(ops: seq<Op<T>>, v: T)
    ensures PushesOf(ops, v) == multiset(Pushed(ops))[v] && PopsOf(ops, v) == multiset(Popped(ops))[v]
  {
    if ops != [] {
      OfIsMultiplicity(ops[..|ops| - 1], v);
    }
  }

  // How many pops found the queue empty.
  function Empties<T>(ops: seq<Op<T>>): nat {
    if ops == [] then 0 else Empties(ops[..|ops| - 1]) + if ops[|ops| - 1].PopEmpty? then 1 else 0
  }

  lemma EmptiesSnoc<T>(ops: seq<Op<T>>, op: Op<T>)
    ensures Empties(ops + [op]) == Empties(ops) + if op.PopEmpty? then 1 else 0
  {
    assert (ops + [op])[..|ops|] == ops;
  }

  // How many pushes found the queue full.
  function Fulls<T>(ops: seq<Op<T>>): nat {
    if ops == [] then 0 else Fulls(ops[..|ops| - 1]) + if ops[|ops| - 1].PushFull? then 1 else 0
  }

  lemma FullsSnoc<T>(ops: seq<Op<T>>, op: Op<T>)
    ensures Fulls(ops + [op]) == Fulls(ops) + if op.PushFull? then 1 else 0
  {
    assert (ops + [op])[..|ops|] == ops;
  }

  /** A legal history pops a prefix of what it pushed, and holds the rest within its bound. */
  lemma {:induction false} LegalHistory<T>(ops: seq<Op<T>>, bound: Bound)
    requires Replay(ops, bound).Contents?
    ensures Pushed(ops) == Popped(ops) + Replay(ops, bound).q
    ensures bound.AtMost? ==> |Replay(ops, bound).q| <= bound.n
  {
    if ops != [] {
      var front, op := ops[..|ops| - 1], ops[|ops| - 1];
      LegalHistory(front, bound);
      var pushed, popped, q := Pushed(front), Popped(front), Replay(front, bound).q;
      match op
      case Push(v) => assert pushed + [v] == popped + (q + [v]);
      case Pop(v) => assert pushed == (popped + [v]) + q[1..];
      case _ =>
    }
  }

  lemma ReplaySnoc<T>(ops: seq<Op<T>>, op: Op<T>, bound: Bound)
    requires Replay(ops, bound).Contents?
    requires var q := Replay(ops, bound).q;
      match op
      case Push(_) => !Full(|q|, bound)
      case PushFull => Full(|q|, bound)
      case Pop(v) => q != [] && q[0] == v
      case PopEmpty => q == []
    ensures Replay(ops + [op], bound)
         == Contents(var q := Replay(ops, bound).q;
                     match op
                     case Push(v) => q + [v]
                     case Pop(_) => q[1..]
                     case _ => q)
  {
    assert (ops + [op])[..|ops|] == ops;
  }

  // A push onto a queue that is described as the unread part of all values ever pushed.
  lemma ReplayPush<T>(ops: seq<Op<T>>, vals: seq<T>, front: nat, v: T, bound: Bound)
    requires front <= |vals| && Replay(ops, bound) == Contents(vals[front..]) && !Full(|vals| - front, bound)
    ensures Replay(ops + [Push(v)], bound) == Contents((vals + [v])[front..])
  {
    ReplaySnoc(ops, Push(v), bound);
    assert (vals + [v])[front..] == vals[front..] + [v];
  }
}
