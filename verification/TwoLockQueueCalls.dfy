/** What the callers of the two-lock queue see: every call's value is accounted for. */
module TwoLockQueueCalls {
  import opened Basics
  import opened Counting
  import opened FifoHistory
  import opened Runs
  import opened TwoLockQueue
  import opened TwoLockQueueSafety

  // The argument of a push that has not returned yet.
  function Pushing<T>(pc: PushPc<T>): Option<T> {
    if pc.PushIdle? then None else Some(pc.v)
  }

  // The argument of a push that has taken effect and has not returned yet.
  function Linked<T>(pc: PushPc<T>): Option<T> {
    if pc.TailWritten? then Some(pc.v) else None
  }

  // The value of a pop that has taken effect and has not returned yet.
  function Taken<T>(pc: PopPc<T>): Option<T> {
    if pc.Advanced? || pc.Unlocked? then Some(pc.v) else None
  }

  predicate Popping<T>(pc: PopPc<T>) {
    !pc.PopIdle?
  }

  // Every call with the value is under way or has returned; every returned one has taken effect.
  ghost predicate ValueInv<T>(s: State<T>, v: T) {
    && s.sh.calls.pushes[v] == s.sh.calls.pushed[v] + Share(s.pushers, Pushing<T>, v)
    && PushesOf(s.sh.history, v) == s.sh.calls.pushed[v] + Share(s.pushers, Linked<T>, v)
    && PopsOf(s.sh.history, v) == s.sh.calls.popped[v] + Share(s.poppers, Taken<T>, v)
  }

  ghost predicate PopInv<T>(s: State<T>) {
    s.sh.calls.pops == s.sh.failures + |s.sh.calls.popped| + CountIf(s.poppers, Popping<T>)
  }

  ghost predicate CallInv<T(!new)>(s: State<T>) {
    PopInv(s) && forall v :: ValueInv(s, v)
  }

  lemma ValueOfCall<T>(s: State<T>, i: nat, x: T, v: T)
    requires ValueInv(s, v) && Enabled(s, PushCall(i, x))
    ensures ValueInv(After(s, PushCall(i, x)), v)
  {
    var pc := HasNode(x, s.sh.nextId);
    ShareUpdate(s.pushers, i, pc, Pushing<T>, v);
    ShareUpdate(s.pushers, i, pc, Linked<T>, v);
  }

  lemma ValueOfPush<T>(s: State<T>, i: nat, v: T)
    requires ValueInv(s, v) && Enabled(s, PushStep(i)) && Safe(s, PushStep(i))
    ensures ValueInv(After(s, PushStep(i)), v)
  {
    var (pc, sh) := PushMove(s.pushers[i], s.sh, i);
    ShareUpdate(s.pushers, i, pc, Pushing<T>, v);
    ShareUpdate(s.pushers, i, pc, Linked<T>, v);
    if s.pushers[i].NextWritten? {
      OfSnoc(s.sh.history, Push(s.pushers[i].v), v);
    }
  }

  // One step of a pop moves its value from the history's account to the caller's.
  lemma PopLocal<T>(pc: PopPc<T>, sh: Shared<T>, i: nat, v: T)
    requires PopSafe(pc, sh)
    ensures var (pc', sh') := PopMove(pc, sh, i);
      && sh'.calls.pushes == sh.calls.pushes && sh'.calls.pushed == sh.calls.pushed
      && PushesOf(sh'.history, v) == PushesOf(sh.history, v)
      && PopsOf(sh'.history, v) + sh.calls.popped[v] + One(Taken(pc) == Some(v))
         == PopsOf(sh.history, v) + sh'.calls.popped[v] + One(Taken(pc') == Some(v))
  {
    match pc
    case PopLocked => OfSnoc(sh.history, PopEmpty, v);
    case Detached(x, _) => OfSnoc(sh.history, Pop(x), v);
    case _ =>
  }

  lemma ValueOfPop<T>(s: State<T>, i: nat, v: T)
    requires ValueInv(s, v) && Enabled(s, PopStep(i)) && Safe(s, PopStep(i))
    ensures ValueInv(After(s, PopStep(i)), v)
  {
    PopLocal(s.poppers[i], s.sh, i, v);
    ShareUpdate(s.poppers, i, PopMove(s.poppers[i], s.sh, i).0, Taken<T>, v);
  }

  lemma PopInvStep<T>(s: State<T>, e: Step<T>)
    requires PopInv(s) && Enabled(s, e) && Safe(s, e)
    ensures PopInv(After(s, e))
  {
    if e.PopStep? {
      CountUpdate(s.poppers, e.i, PopMove(s.poppers[e.i], s.sh, e.i).0, Popping<T>);
    }
  }

  lemma CallNext<T(!new)>(s: State<T>, s': State<T>)
    requires CallInv(s) && Next(s, s')
    ensures CallInv(s')
  {
    var e :| Enabled(s, e) && Safe(s, e) && s' == After(s, e);
    PopInvStep(s, e);
    forall v ensures ValueInv(s', v) {
      match e
      case PushCall(i, x) => ValueOfCall(s, i, x, v);
      case PushStep(i) => ValueOfPush(s, i, v);
      case PopStep(i) => ValueOfPop(s, i, v);
    }
  }

  lemma CallInit<T(!new)>(s: State<T>)
    requires Init(s)
    ensures CallInv(s)
  {
    CountNone(s.poppers, Popping<T>);
    forall v ensures ValueInv(s, v) {
      ShareNone(s.pushers, Pushing<T>, v);
      ShareNone(s.pushers, Linked<T>, v);
      ShareNone(s.poppers, Taken<T>, v);
    }
  }

  /**
   On every run each call of push is under way or has returned, and the pushes of the sequential
   history are the returned ones and those past their effect; likewise for pop, whose calls are
   under way, have failed or have returned a value.
   */
  lemma EveryCallCounts<T(!new)>(run: seq<State<T>>, k: nat, v: T)
    requires IsRun(run) && k < |run|
    ensures var s := run[k]; var c := s.sh.calls;
      && c.pushes[v] == c.pushed[v] + Share(s.pushers, Pushing<T>, v)
      && PushesOf(s.sh.history, v) == c.pushed[v] + Share(s.pushers, Linked<T>, v)
      && PopsOf(s.sh.history, v) == c.popped[v] + Share(s.poppers, Taken<T>, v)
      && c.pops == s.sh.failures + |c.popped| + CountIf(s.poppers, Popping<T>)
  {
    forall s: State<T> | Init(s) ensures CallInv(s) {
      CallInit(s);
    }
    forall s: State<T>, s' | CallInv(s) && Next(s, s') ensures CallInv(s') {
      CallNext(s, s');
    }
    Invariant(run, Init<T>, Next<T>, CallInv<T>, k);
    assert ValueInv(run[k], v);
  }

  /** When no call is under way, exactly what was pushed and not popped is in the queue. */
  lemma QuietQueueHoldsTheRest<T(!new)>(run: seq<State<T>>, k: nat, v: T)
    requires IsRun(run) && k < |run|
    requires forall i :: 0 <= i < |run[k].pushers| ==> run[k].pushers[i].PushIdle?
    requires forall i :: 0 <= i < |run[k].poppers| ==> run[k].poppers[i].PopIdle?
    ensures var s := run[k]; var q := Replay(s.sh.history, Unbounded);
      q.Contents? && s.sh.calls.pushes[v] == s.sh.calls.popped[v] + multiset(q.q)[v]
  {
    OfIsMultiplicity(run[k].sh.history, v);
    EveryCallCounts(run, k, v);
    Linearizable(run, k);
    ShareNone(run[k].pushers, Pushing<T>, v);
    ShareNone(run[k].pushers, Linked<T>, v);
    ShareNone(run[k].poppers, Taken<T>, v);
  }
}
