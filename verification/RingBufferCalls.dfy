/** What the callers of the ring see: every call's value and answer is accounted for. */
module RingBufferCalls {
  import opened Basics
  import opened Counting
  import opened FifoHistory
  import opened Runs
  import opened RingBuffer
  import opened RingBufferSafety

  // The argument of a push that has not returned yet.
  function Pushing<T>(pc: ProdPc<T>): Option<T> {
    if pc.ProdIdle? then None else Some(pc.v)
  }

  // The argument of a push that has taken effect and has not returned yet.
  function Placed<T>(pc: ProdPc<T>): Option<T> {
    if pc.ProdDone? && pc.ok then Some(pc.v) else None
  }

  predicate Refusing<T>(pc: ProdPc<T>) {
    pc.ProdDone? && !pc.ok
  }

  // The value of a pop that has taken effect and has not returned yet.
  function Taken<T>(pc: ConsPc<T>): Option<T> {
    if pc.ConsDone? then pc.r else None
  }

  predicate Popping<T>(pc: ConsPc<T>) {
    !pc.ConsIdle?
  }

  predicate Failing<T>(pc: ConsPc<T>) {
    pc.ConsDone? && pc.r.None?
  }

  ghost predicate ValueInv<T>(s: State<T>, v: T) {
    && s.sh.calls.pushes[v] == s.sh.calls.pushed[v] + s.sh.calls.refused[v] + Share(s.producers, Pushing<T>, v)
    && PushesOf(s.sh.history, v) == s.sh.calls.pushed[v] + Share(s.producers, Placed<T>, v)
    && PopsOf(s.sh.history, v) == s.sh.calls.popped[v] + Share(s.consumers, Taken<T>, v)
  }

  ghost predicate AnswerInv<T>(s: State<T>) {
    && Fulls(s.sh.history) == |s.sh.calls.refused| + CountIf(s.producers, Refusing<T>)
    && Empties(s.sh.history) == s.sh.calls.failures + CountIf(s.consumers, Failing<T>)
    && s.sh.calls.pops == s.sh.calls.failures + |s.sh.calls.popped| + CountIf(s.consumers, Popping<T>)
  }

  ghost predicate CallInv<T(!new)>(s: State<T>) {
    AnswerInv(s) && forall v :: ValueInv(s, v)
  }

  // One step of a push moves its argument from the history's account to the caller's.
  lemma PushLocal<T>(pc: ProdPc<T>, sh: Shared<T>, v: T)
    requires !pc.ProdIdle? && sh.tail < |sh.data|
    ensures var (pc', sh') := ProdMove(pc, sh);
      && sh'.calls.pushes == sh.calls.pushes && sh'.calls.popped == sh.calls.popped
      && PopsOf(sh'.history, v) == PopsOf(sh.history, v)
      && PushesOf(sh'.history, v) + sh.calls.pushed[v] + One(Placed(pc) == Some(v))
         == PushesOf(sh.history, v) + sh'.calls.pushed[v] + One(Placed(pc') == Some(v))
      && sh'.calls.pushed[v] + sh'.calls.refused[v] + One(Pushing(pc') == Some(v))
         == sh.calls.pushed[v] + sh.calls.refused[v] + One(Pushing(pc) == Some(v))
  {
    OfSnoc(sh.history, PushFull, v);
    if pc.ProdWritten? {
      OfSnoc(sh.history, Push(pc.v), v);
    }
  }

  lemma PopLocal<T>(pc: ConsPc<T>, sh: Shared<T>, i: nat, v: T)
    requires sh.head < |sh.data|
    ensures var (pc', sh') := ConsMove(pc, sh, i);
      && sh'.calls.pushes == sh.calls.pushes && sh'.calls.pushed == sh.calls.pushed
      && sh'.calls.refused == sh.calls.refused
      && PushesOf(sh'.history, v) == PushesOf(sh.history, v)
      && PopsOf(sh'.history, v) + sh.calls.popped[v] + One(Taken(pc) == Some(v))
         == PopsOf(sh.history, v) + sh'.calls.popped[v] + One(Taken(pc') == Some(v))
  {
    OfSnoc(sh.history, PopEmpty, v);
    if pc.ConsRead? {
      OfSnoc(sh.history, Pop(pc.v), v);
    }
  }

  lemma ValueStep<T>(s: State<T>, e: Step<T>, v: T)
    requires ValueInv(s, v) && Enabled(s, e)
    ensures ValueInv(After(s, e), v)
  {
    match e
    case PushCall(i, x) =>
      ShareUpdate(s.producers, i, ProdLocked(x), Pushing<T>, v);
      ShareUpdate(s.producers, i, ProdLocked(x), Placed<T>, v);
    case PushStep(i) =>
      PushLocal(s.producers[i], s.sh, v);
      ShareUpdate(s.producers, i, ProdMove(s.producers[i], s.sh).0, Pushing<T>, v);
      ShareUpdate(s.producers, i, ProdMove(s.producers[i], s.sh).0, Placed<T>, v);
    case PopStep(i) =>
      PopLocal(s.consumers[i], s.sh, i, v);
      ShareUpdate(s.consumers, i, ConsMove(s.consumers[i], s.sh, i).0, Taken<T>, v);
  }

  lemma AnswerPush<T>(s: State<T>, i: nat)
    requires AnswerInv(s) && Enabled(s, PushStep(i))
    ensures AnswerInv(After(s, PushStep(i)))
  {
    var pc := s.producers[i];
    CountUpdate(s.producers, i, ProdMove(pc, s.sh).0, Refusing<T>);
    FullsSnoc(s.sh.history, PushFull);
    EmptiesSnoc(s.sh.history, PushFull);
    if pc.ProdWritten? {
      FullsSnoc(s.sh.history, Push(pc.v));
      EmptiesSnoc(s.sh.history, Push(pc.v));
    }
  }

  lemma AnswerMove<T>(pc: ConsPc<T>, sh: Shared<T>, i: nat)
    requires sh.head < |sh.data|
    ensures var (pc', sh') := ConsMove(pc, sh, i);
      && sh'.calls.refused == sh.calls.refused && Fulls(sh'.history) == Fulls(sh.history)
      && Empties(sh'.history) + sh.calls.failures + One(Failing(pc))
         == Empties(sh.history) + sh'.calls.failures + One(Failing(pc'))
      && sh'.calls.pops + sh.calls.failures + |sh.calls.popped| + One(Popping(pc))
         == sh.calls.pops + sh'.calls.failures + |sh'.calls.popped| + One(Popping(pc'))
  {
    FullsSnoc(sh.history, PopEmpty);
    EmptiesSnoc(sh.history, PopEmpty);
    if pc.ConsRead? {
      FullsSnoc(sh.history, Pop(pc.v));
      EmptiesSnoc(sh.history, Pop(pc.v));
    }
  }

  lemma AnswerPop<T>(s: State<T>, i: nat)
    requires AnswerInv(s) && Enabled(s, PopStep(i))
    ensures AnswerInv(After(s, PopStep(i)))
  {
    var (pc, sh) := ConsMove(s.consumers[i], s.sh, i);
    AnswerMove(s.consumers[i], s.sh, i);
    CountUpdate(s.consumers, i, pc, Failing<T>);
    CountUpdate(s.consumers, i, pc, Popping<T>);
  }

  lemma CallNext<T(!new)>(s: State<T>, s': State<T>)
    requires CallInv(s) && Next(s, s')
    ensures CallInv(s')
  {
    var e :| Enabled(s, e) && s' == After(s, e);
    match e {
      case PushCall(i, x) => CountUpdate(s.producers, i, ProdLocked(x), Refusing<T>);
      case PushStep(i) => AnswerPush(s, i);
      case PopStep(i) => AnswerPop(s, i);
    }
    forall v ensures ValueInv(s', v) {
      ValueStep(s, e, v);
    }
  }

  lemma CallInit<T(!new)>(s: State<T>)
    requires Init(s)
    ensures CallInv(s)
  {
    CountNone(s.producers, Refusing<T>);
    CountNone(s.consumers, Failing<T>);
    CountNone(s.consumers, Popping<T>);
    forall v ensures ValueInv(s, v) {
      ShareNone(s.producers, Pushing<T>, v);
      ShareNone(s.producers, Placed<T>, v);
      ShareNone(s.consumers, Taken<T>, v);
    }
  }

  lemma CallRun<T(!new)>(run: seq<State<T>>, k: nat)
    requires IsRun(run) && k < |run|
    ensures CallInv(run[k])
  {
    forall s: State<T> | Init(s) ensures CallInv(s) {
      CallInit(s);
    }
    forall s: State<T>, s' | CallInv(s) && Next(s, s') ensures CallInv(s') {
      CallNext(s, s');
    }
    Invariant(run, Init<T>, Next<T>, CallInv<T>, k);
  }

  /**
   On every run each call of push is under way, has returned true or has returned false; the
   pushes of the sequential history are those that returned true and those about to, the pops
   those that returned the value and those about to.
   */
  lemma EveryCallCounts<T(!new)>(run: seq<State<T>>, k: nat, v: T)
    requires IsRun(run) && k < |run|
    ensures var s := run[k]; var c := s.sh.calls;
      && c.pushes[v] == c.pushed[v] + c.refused[v] + Share(s.producers, Pushing<T>, v)
      && PushesOf(s.sh.history, v) == c.pushed[v] + Share(s.producers, Placed<T>, v)
      && PopsOf(s.sh.history, v) == c.popped[v] + Share(s.consumers, Taken<T>, v)
  {
    CallRun(run, k);
    assert ValueInv(run[k], v);
  }

  /** Every refused push and every failed pop, returned or about to, is one of the sequential queue, and no other. */
  lemma EveryAnswerCounts<T(!new)>(run: seq<State<T>>, k: nat)
    requires IsRun(run) && k < |run|
    ensures var s := run[k]; var c := s.sh.calls;
      && Fulls(s.sh.history) == |c.refused| + CountIf(s.producers, Refusing<T>)
      && Empties(s.sh.history) == c.failures + CountIf(s.consumers, Failing<T>)
      && c.pops == c.failures + |c.popped| + CountIf(s.consumers, Popping<T>)
  {
    CallRun(run, k);
  }
}
