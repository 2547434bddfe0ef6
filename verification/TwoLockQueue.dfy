/**
 The two-lock linked queue: pushers hold `tail_mtx`, poppers hold `head_mtx`, and the two
 kinds meet only in `get_tail`. One step is one access to shared memory.
 */
module TwoLockQueue {
  import opened Basics
  import opened FifoHistory
  import opened Runs

  datatype Node<T> = Node(data: Option<T>, next: Option<nat>)

  datatype PushPc<T> =
    | PushIdle
    | HasNode(v: T, p: nat)      // allocated, wants tail_mtx
    | PushLocked(v: T, p: nat)
    | DataWritten(v: T, p: nat)
    | NextWritten(v: T, p: nat)
    | TailWritten(v: T)          // still holds tail_mtx

  datatype PopPc<T> =
    | PopIdle
    | PopLocked
    | GotTail(t: nat, seen: nat, from: nat)  // when `tail` was read, `seen` values had been pushed and `from` popped
    | HasData(v: T)
    | Detached(v: T, prev: nat)     // `head` has been moved from
    | Advanced(v: T, prev: nat)     // `head` points to the next node
    | Unlocked(v: T, prev: nat)     // about to return v and free the old node

  // The fields from `chain` on only record what happened.
  datatype Shared<T> = Shared(
    heap: map<nat, Node<T>>,
    nextId: nat,
    head: Option<nat>,
    tail: nat,
    headLock: Option<nat>,
    tailLock: Option<nat>,
    chain: seq<nat>,       // every node that was ever linked, in order
    vals: seq<T>,          // every value that was ever pushed, in order
    front: nat,            // how many values have been popped
    history: seq<Op<T>>,
    failures: nat,         // how many pops have returned without a value
    calls: Calls<T>
  )

  // The calls of push with their arguments, those of pop, and what has returned.
  datatype Calls<T> = Calls(pushes: multiset<T>, pushed: multiset<T>, pops: nat, popped: multiset<T>)

  datatype State<T> = State(pushers: seq<PushPc<T>>, poppers: seq<PopPc<T>>, sh: Shared<T>)

  datatype Step<T> = PushCall(i: nat, v: T) | PushStep(i: nat) | PopStep(i: nat)

  ghost predicate Init<T>(s: State<T>) {
    && (forall i :: 0 <= i < |s.pushers| ==> s.pushers[i].PushIdle?)
    && (forall i :: 0 <= i < |s.poppers| ==> s.poppers[i].PopIdle?)
    && s.sh == Shared(map[0 := Node(None, None)], 1, Some(0), 0, None, None, [0], [], 0, [], 0,
                      Calls(multiset{}, multiset{}, 0, multiset{}))
  }

  // Nodes that the step dereferences must exist: this is part of what is proved, not assumed.
  ghost predicate PushSafe<T>(pc: PushPc<T>, sh: Shared<T>) {
    pc.PushLocked? || pc.DataWritten? ==> sh.tail in sh.heap
  }

  ghost predicate PopSafe<T>(pc: PopPc<T>, sh: Shared<T>) {
    match pc
    case GotTail(t, _, _) =>
      sh.head.Some? && (sh.head.value != t ==> sh.head.value in sh.heap && sh.heap[sh.head.value].data.Some?)
    case HasData(_) => sh.head.Some?
    case Detached(_, prev) => prev in sh.heap
    case _ => true
  }

  ghost function PushMove<T>(pc: PushPc<T>, sh: Shared<T>, i: nat): (PushPc<T>, Shared<T>)
    requires !pc.PushIdle? && PushSafe(pc, sh)
  {
    match pc
    case HasNode(v, p) => (PushLocked(v, p), sh.(tailLock := Some(i)))
    case PushLocked(v, p) =>
      (DataWritten(v, p), sh.(heap := sh.heap[sh.tail := sh.heap[sh.tail].(data := Some(v))]))
    case DataWritten(v, p) =>
      (NextWritten(v, p), sh.(heap := sh.heap[sh.tail := sh.heap[sh.tail].(next := Some(p))]))
    case NextWritten(v, p) =>
      (TailWritten(v), sh.(tail := p, chain := sh.chain + [p], vals := sh.vals + [v],
                           history := sh.history + [Push(v)]))
    case TailWritten(v) =>
      (PushIdle, sh.(tailLock := None, calls := sh.calls.(pushed := sh.calls.pushed + multiset{v})))
  }

  // A failed pop takes effect when `tail` is read, a successful one when `head` moves on.
  ghost function PopMove<T>(pc: PopPc<T>, sh: Shared<T>, i: nat): (PopPc<T>, Shared<T>)
    requires PopSafe(pc, sh)
  {
    match pc
    case PopIdle =>
      (PopLocked, sh.(headLock := Some(i), calls := sh.calls.(pops := sh.calls.pops + 1)))
    case PopLocked =>
      (GotTail(sh.tail, |sh.vals|, sh.front),
       if sh.front == |sh.vals| then sh.(history := sh.history + [PopEmpty]) else sh)
    case GotTail(t, _, _) =>
      if sh.head.value == t then (PopIdle, sh.(headLock := None, failures := sh.failures + 1))
      else (HasData(sh.heap[sh.head.value].data.value), sh)
    case HasData(v) => (Detached(v, sh.head.value), sh.(head := None))
    case Detached(v, prev) =>
      (Advanced(v, prev),
       sh.(head := sh.heap[prev].next, heap := sh.heap[prev := sh.heap[prev].(next := None)],
           front := sh.front + 1, history := sh.history + [Pop(v)]))
    case Advanced(v, prev) => (Unlocked(v, prev), sh.(headLock := None))
    case Unlocked(v, prev) =>
      (PopIdle, sh.(heap := sh.heap - {prev}, calls := sh.calls.(popped := sh.calls.popped + multiset{v})))
  }

  // Both locks are taken only when free, and get_tail needs tail_mtx for its one read.
  ghost predicate Enabled<T>(s: State<T>, e: Step<T>) {
    match e
    case PushCall(i, _) => i < |s.pushers| && s.pushers[i].PushIdle?
    case PushStep(i) =>
      i < |s.pushers| && !s.pushers[i].PushIdle? &&
      (s.pushers[i].HasNode? ==> s.sh.tailLock.None?)
    case PopStep(i) =>
      i < |s.poppers| &&
      (s.poppers[i].PopIdle? ==> s.sh.headLock.None?) &&
      (s.poppers[i].PopLocked? ==> s.sh.tailLock.None?)
  }

  ghost predicate Safe<T>(s: State<T>, e: Step<T>)
    requires Enabled(s, e)
  {
    match e
    case PushCall(_, _) => true
    case PushStep(i) => PushSafe(s.pushers[i], s.sh)
    case PopStep(i) => PopSafe(s.poppers[i], s.sh)
  }

  ghost function After<T>(s: State<T>, e: Step<T>): State<T>
    requires Enabled(s, e) && Safe(s, e)
  {
    match e
    case PushCall(i, v) =>
      State(s.pushers[i := HasNode(v, s.sh.nextId)], s.poppers,
            s.sh.(nextId := s.sh.nextId + 1, heap := s.sh.heap[s.sh.nextId := Node(None, None)],
                  calls := s.sh.calls.(pushes := s.sh.calls.pushes + multiset{v})))
    case PushStep(i) =>
      var (pc, sh) := PushMove(s.pushers[i], s.sh, i);
      State(s.pushers[i := pc], s.poppers, sh)
    case PopStep(i) =>
      var (pc, sh) := PopMove(s.poppers[i], s.sh, i);
      State(s.pushers, s.poppers[i := pc], sh)
  }

  ghost predicate Next<T(!new)>(s: State<T>, s': State<T>) {
    exists e :: Enabled(s, e) && Safe(s, e) && s' == After(s, e)
  }

  ghost predicate IsRun<T(!new)>(run: seq<State<T>>) {
    RunOf(run, Init<T>, Next<T>)
  }
}
