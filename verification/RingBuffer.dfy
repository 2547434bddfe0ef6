/**
 The bounded ring: producers hold `tail_mutex_`, consumers hold `head_mutex_`, and each side
 loads the other side's index without its lock. One step is one access to shared memory.
 */
module RingBuffer {
  import opened Basics
  import opened FifoHistory
  import opened Runs

  datatype ProdPc<T> =
    | ProdIdle
    | ProdLocked(v: T)    // about to load head_
    | ProdRoom(v: T)      // not full, about to write the slot
    | ProdWritten(v: T)   // about to store tail_
    | ProdDone(v: T, ok: bool)  // about to unlock and return ok

  datatype ConsPc<T> =
    | ConsIdle
    | ConsLocked          // about to load tail_
    | ConsHas             // not empty, about to read the slot
    | ConsRead(v: T)      // about to store head_
    | ConsDone(r: Option<T>)    // about to unlock and return r

  datatype Lock = Free | Held(owner: nat)

  // The calls of push with their arguments, those of pop, and what has returned.
  datatype Calls<T> = Calls(pushes: multiset<T>, pushed: multiset<T>, refused: multiset<T>,
                            pops: nat, popped: multiset<T>, failures: nat)

  // `vals`, `front`, `history` and `calls` only record what happened.
  datatype Shared<T> = Shared(
    data: seq<T>,         // capacity_ + 1 slots
    head: nat,
    tail: nat,
    headLock: Lock,
    tailLock: Lock,
    vals: seq<T>,         // every value that was ever pushed, in order
    front: nat,           // how many values have been popped
    history: seq<Op<T>>,
    calls: Calls<T>
  )

  datatype State<T> = State(producers: seq<ProdPc<T>>, consumers: seq<ConsPc<T>>, sh: Shared<T>)

  datatype Step<T> = PushCall(i: nat, v: T) | PushStep(i: nat) | PopStep(i: nat)

  // At least the one spare slot exists.
  ghost predicate Init<T>(s: State<T>) {
    && (forall i :: 0 <= i < |s.producers| ==> s.producers[i].ProdIdle?)
    && (forall i :: 0 <= i < |s.consumers| ==> s.consumers[i].ConsIdle?)
    && s.sh.data != []
    && s.sh == Shared(s.sh.data, 0, 0, Free, Free, [], 0, [],
                      Calls(multiset{}, multiset{}, multiset{}, 0, multiset{}, 0))
  }

  function Capacity<T>(sh: Shared<T>): int {
    |sh.data| - 1
  }

  function NextTail<T>(sh: Shared<T>): nat
    requires sh.data != []
  {
    (sh.tail + 1) % |sh.data|
  }

  function NextHead<T>(sh: Shared<T>): nat
    requires sh.data != []
  {
    (sh.head + 1) % |sh.data|
  }

  predicate Enabled<T>(s: State<T>, e: Step<T>) {
    s.sh.data != [] && s.sh.head < |s.sh.data| && s.sh.tail < |s.sh.data| &&
    match e
    case PushCall(i, _) => i < |s.producers| && s.producers[i].ProdIdle? && s.sh.tailLock.Free?
    case PushStep(i) => i < |s.producers| && !s.producers[i].ProdIdle?
    case PopStep(i) => i < |s.consumers| && (s.consumers[i].ConsIdle? ==> s.sh.headLock.Free?)
  }

  function ProdMove<T>(pc: ProdPc<T>, sh: Shared<T>): (ProdPc<T>, Shared<T>)
    requires !pc.ProdIdle? && sh.tail < |sh.data|
  {
    match pc
    case ProdLocked(v) =>
      if NextTail(sh) == sh.head then (ProdDone(v, false), sh.(history := sh.history + [PushFull]))
      else (ProdRoom(v), sh)
    case ProdRoom(v) => (ProdWritten(v), sh.(data := sh.data[sh.tail := v]))
    case ProdWritten(v) =>
      (ProdDone(v, true), sh.(tail := NextTail(sh), vals := sh.vals + [v], history := sh.history + [Push(v)]))
    case ProdDone(v, ok) =>
      (ProdIdle, sh.(tailLock := Free, calls := if ok then sh.calls.(pushed := sh.calls.pushed + multiset{v})
                                                else sh.calls.(refused := sh.calls.refused + multiset{v})))
  }

  function ConsMove<T>(pc: ConsPc<T>, sh: Shared<T>, i: nat): (ConsPc<T>, Shared<T>)
    requires sh.head < |sh.data|
  {
    match pc
    case ConsIdle => (ConsLocked, sh.(headLock := Held(i), calls := sh.calls.(pops := sh.calls.pops + 1)))
    case ConsLocked =>
      if sh.head == sh.tail then (ConsDone(None), sh.(history := sh.history + [PopEmpty]))
      else (ConsHas, sh)
    case ConsHas => (ConsRead(sh.data[sh.head]), sh)
    case ConsRead(v) =>
      (ConsDone(Some(v)), sh.(head := NextHead(sh), front := sh.front + 1,
                              history := sh.history + [Pop(v)]))
    case ConsDone(r) =>
      (ConsIdle, sh.(headLock := Free, calls := if r.Some? then sh.calls.(popped := sh.calls.popped + multiset{r.value})
                                                else sh.calls.(failures := sh.calls.failures + 1)))
  }

  function After<T>(s: State<T>, e: Step<T>): State<T>
    requires Enabled(s, e)
  {
    match e
    case PushCall(i, v) =>
      State(s.producers[i := ProdLocked(v)], s.consumers,
            s.sh.(tailLock := Held(i), calls := s.sh.calls.(pushes := s.sh.calls.pushes + multiset{v})))
    case PushStep(i) =>
      var (pc, sh) := ProdMove(s.producers[i], s.sh);
      State(s.producers[i := pc], s.consumers, sh)
    case PopStep(i) =>
      var (pc, sh) := ConsMove(s.consumers[i], s.sh, i);
      State(s.producers, s.consumers[i := pc], sh)
  }

  ghost predicate Next<T(!new)>(s: State<T>, s': State<T>) {
    exists e :: Enabled(s, e) && s' == After(s, e)
  }

  ghost predicate IsRun<T(!new)>(run: seq<State<T>>) {
    RunOf(run, Init<T>, Next<T>)
  }

  // What `size()` returns for two separate loads of the indices.
  function SizeOf(h: nat, t: nat, slots: nat): (size: int) {
    if t >= h then t - h else slots - (h - t)
  }
}
