/** Exactly which pools can hold more tasks than their bound. */
module ThreadPoolLimits {
  import opened Basics
  import opened Counting
  import opened Runs
  import opened ThreadPool
  import opened ThreadPoolSafety
  import opened ThreadPoolStop

  // ----- Without workers or without submitters the bound holds -----

  predicate Repairing(pc: StopPc) {
    pc.EarlyFix? || pc.FinalFix?
  }

  predicate Entering(pc: SubmitPc) {
    pc.LoadIsDone? || pc.Enqueue?
  }

  // Once only the stopper can have repaired the counter, nobody is on the way to the queue any more.
  ghost predicate ShutInv(s: State) {
    && |s.sh.queue| <= s.maxQueue
    && (s.sh.repaired || Repairing(s.stopper) ==>
          s.sh.isStopped && forall i :: 0 <= i < |s.submitters| ==> !Entering(s.submitters[i]))
  }

  ghost predicate NoWorkersInv(s: State) {
    Inv(s) && (s.workers == [] ==> ShutInv(s))
  }

  lemma ShutSubmit(s: State, i: nat, wake: nat)
    requires Inv(s) && s.workers == [] && ShutInv(s) && Enabled(s, SubmitStep(i, wake))
    ensures var s' := After(s, SubmitStep(i, wake));
      s'.sh.repaired || Repairing(s'.stopper) ==>
        s'.sh.isStopped && forall j :: 0 <= j < |s'.submitters| ==> !Entering(s'.submitters[j])
  {
  }

  // A stopper that finds the counter at zero has a submitter before it that still owes an addition.
  lemma ShutStop(s: State)
    requires Inv(s) && s.workers == [] && ShutInv(s) && Enabled(s, StopStep)
    ensures var s' := After(s, StopStep);
      s'.sh.repaired || Repairing(s'.stopper) ==>
        s'.sh.isStopped && forall j :: 0 <= j < |s'.submitters| ==> !Entering(s'.submitters[j])
  {
    if StopUncounted(s.stopper) == 1 && s.sh.count == 0 && !s.sh.repaired {
      assert CountIf(s.submitters, Adding) == 1;
      AddingAtMostOnce(s);
      var i :| 0 <= i < |s.submitters| && Adding(s.submitters[i]);
      assert s.sh.mtx == BySubmitter(i);
    }
  }

  lemma ShutFlags(s: State, e: Step)
    requires Inv(s) && s.workers == [] && ShutInv(s) && Enabled(s, e)
    ensures var s' := After(s, e);
      s'.sh.repaired || Repairing(s'.stopper) ==>
        s'.sh.isStopped && forall j :: 0 <= j < |s'.submitters| ==> !Entering(s'.submitters[j])
  {
    if e.SubmitStep? {
      ShutSubmit(s, e.u, e.wake);
    } else if e.StopStep? {
      ShutStop(s);
    }
  }

  lemma ShutStep(s: State, e: Step)
    requires Inv(s) && s.workers == [] && ShutInv(s) && Enabled(s, e)
    ensures ShutInv(After(s, e))
  {
    ShutFlags(s, e);
    var s' := After(s, e);
    if s'.sh.repaired {
      assert |s'.sh.queue| <= |s.sh.queue|;
    } else {
      StepInv(s, e);
      QueueWithinBound(s');
    }
  }

  ghost predicate NobodySubmits(s: State) {
    s.submitters == [] ==> s.sh.queue == []
  }

  lemma NoWorkersKeep(run: seq<State>, k: nat)
    requires IsRun(run) && k < |run| && run[k].workers == []
    ensures |run[k].sh.queue| <= run[k].maxQueue
  {
    forall s | Init(s) ensures NoWorkersInv(s) {
      InitInv(s);
    }
    forall s, s' | NoWorkersInv(s) && Next(s, s') ensures NoWorkersInv(s') {
      var e :| Enabled(s, e) && s' == After(s, e);
      StepInv(s, e);
      if s.workers == [] {
        ShutStep(s, e);
      }
    }
    Invariant(run, Init, Next, NoWorkersInv, k);
  }

  lemma NoSubmittersKeep(run: seq<State>, k: nat)
    requires IsRun(run) && k < |run| && run[k].submitters == []
    ensures run[k].sh.queue == []
  {
    Invariant(run, Init, Next, NobodySubmits, k);
  }

  // ----- With one of each the bound can be passed -----

  // What stays as it was at the start: all threads but the first of each kind.
  datatype Idlers = Idlers(workers: seq<WorkerPc>, flags: seq<bool>, submitters: seq<SubmitPc>, modes: seq<bool>,
                           maxQueue: nat)

  ghost predicate AtStart(z: Idlers) {
    && (forall i :: 0 <= i < |z.workers| ==> z.workers[i] == FirstPop)
    && (forall i :: 0 <= i < |z.submitters| ==> z.submitters[i] == Idle)
    && |z.flags| == |z.workers| && |z.modes| == |z.submitters| && (forall i :: 0 <= i < |z.flags| ==> !z.flags[i])
    && 1 <= z.maxQueue < WORD
  }

  function Pool(z: Idlers, w: WorkerPc, u: SubmitPc, sh: Shared): State {
    State([w] + z.workers, [false] + z.flags, [u] + z.submitters, [false] + z.modes, NotStopped, true, z.maxQueue, sh)
  }

  lemma WorkerActs(reach: State -> bool, z: Idlers, w: WorkerPc, u: SubmitPc, sh: Shared)
    requires AtStart(z) && Stays(reach, Next) && reach(Pool(z, w, u, sh))
    requires !w.Asleep? && !w.Exited? && !w.WantLock? && !w.Woken?
    ensures var (w', sh') := WorkerMove(w, sh, 0, false); reach(Pool(z, w', u, sh'))
  {
    var s, e := Pool(z, w, u, sh), WorkerStep(0);
    assert Enabled(s, e) && Next(s, After(s, e));
    var (w', sh') := WorkerMove(w, sh, 0, false);
    assert After(s, e) == Pool(z, w', u, sh');
  }

  function Called(sh: Shared): Shared {
    sh.(mtx := BySubmitter(0), calls := sh.calls.(begun := sh.calls.begun + 1))
  }

  lemma SubmitterCalls(reach: State -> bool, z: Idlers, w: WorkerPc, sh: Shared)
    requires AtStart(z) && Stays(reach, Next) && reach(Pool(z, w, Idle, sh)) && sh.mtx == Nobody
    ensures reach(Pool(z, w, LoadCount(false), Called(sh)))
  {
    var s, e := Pool(z, w, Idle, sh), SubmitCall(0, false);
    assert Enabled(s, e) && Next(s, After(s, e));
    assert After(s, e) == Pool(z, w, LoadCount(false), Called(sh));
  }

  lemma SubmitterActs(reach: State -> bool, z: Idlers, w: WorkerPc, u: SubmitPc, sh: Shared)
    requires AtStart(z) && Stays(reach, Next) && reach(Pool(z, w, u, sh)) && !w.Asleep? && !u.Idle? && !u.Parked?
    ensures var (u', sh') := SubmitMove(u, sh, 0, z.maxQueue); reach(Pool(z, w, u', sh'))
  {
    var s, e := Pool(z, w, u, sh), SubmitStep(0, 0);
    var (u', sh') := SubmitMove(u, sh, 0, z.maxQueue);
    assert !SomeAsleep(s);
    assert Enabled(s, e) && Next(s, After(s, e));
    assert After(s, e) == Pool(z, w, u', sh');
  }

  // Nobody is in a critical section and nobody stops the pool.
  predicate Quiet(sh: Shared) {
    sh.mtx == Nobody && !sh.isDone && !sh.isStopped
  }

  function Queued(sh: Shared): Shared {
    Called(sh).(queue := sh.queue + [sh.accepted], accepted := sh.accepted + 1)
  }

  // A submitter gets a task in while the counter is below the bound.
  lemma Admit(reach: State -> bool, z: Idlers, w: WorkerPc, sh: Shared)
    requires AtStart(z) && Stays(reach, Next) && reach(Pool(z, w, Idle, sh))
    requires Quiet(sh) && !w.Asleep? && sh.count < z.maxQueue
    ensures reach(Pool(z, w, AddCount, Queued(sh)))
  {
    var held := Called(sh);
    SubmitterCalls(reach, z, w, sh);
    SubmitterActs(reach, z, w, LoadCount(false), held);
    SubmitterActs(reach, z, w, LoadStopped, held);
    SubmitterActs(reach, z, w, LoadIsDone, held);
    SubmitterActs(reach, z, w, Enqueue, held);
  }

  function Counted(sh: Shared): Shared {
    sh.(mtx := Nobody, count := (sh.count + 1) % WORD, calls := sh.calls.(taken := sh.calls.taken + 1))
  }

  lemma Finish(reach: State -> bool, z: Idlers, w: WorkerPc, sh: Shared)
    requires AtStart(z) && Stays(reach, Next) && !w.Asleep? && reach(Pool(z, w, AddCount, sh))
    ensures reach(Pool(z, w, Idle, Counted(sh)))
  {
    var counted := sh.(count := (sh.count + 1) % WORD);
    SubmitterActs(reach, z, w, AddCount, sh);
    SubmitterActs(reach, z, w, Notify, counted);
    SubmitterActs(reach, z, w, Release(true), counted);
  }

  // The worker takes a task before the submitter has counted the new one, and is about to repair the counter.
  lemma Underflowing(reach: State -> bool, z: Idlers, w: WorkerPc, sh: Shared) returns (t: nat, sh': Shared)
    requires AtStart(z) && Stays(reach, Next) && reach(Pool(z, w, Idle, sh))
    requires (w.FirstPop? || w.RetryPop?) && Quiet(sh) && sh.count == 0
    ensures reach(Pool(z, Underflow(t), Idle, sh'))
    ensures Quiet(sh') && sh'.count == 0 && |sh'.queue| == |sh.queue|
  {
    Admit(reach, z, w, sh);
    var more := Queued(sh);
    t := more.queue[0];
    WorkerActs(reach, z, w, AddCount, more);
    WorkerActs(reach, z, Popped(t), AddCount, Pop(more));
    Finish(reach, z, Underflow(t), Pop(more).(count := WORD - 1));
    sh' := Counted(Pop(more).(count := WORD - 1));
  }

  // While the worker waits with its repair, the pool takes as many tasks as its bound.
  lemma {:induction false} Fill(reach: State -> bool, z: Idlers, t: nat, sh: Shared, n: nat) returns (sh': Shared)
    requires AtStart(z) && Stays(reach, Next) && reach(Pool(z, Underflow(t), Idle, sh))
    requires Quiet(sh) && sh.count == 0 && n <= z.maxQueue
    ensures reach(Pool(z, Underflow(t), Idle, sh'))
    ensures Quiet(sh') && sh'.count == n && |sh'.queue| == |sh.queue| + n
  {
    if n == 0 {
      sh' := sh;
    } else {
      var front := Fill(reach, z, t, sh, n - 1);
      Admit(reach, z, Underflow(t), front);
      Finish(reach, z, Underflow(t), Queued(front));
      sh' := Counted(Queued(front));
    }
  }

  // One round: the repair erases what was counted, and the queue has grown by the bound.
  lemma Round(reach: State -> bool, z: Idlers, w: WorkerPc, sh: Shared) returns (sh': Shared)
    requires AtStart(z) && Stays(reach, Next) && reach(Pool(z, w, Idle, sh))
    requires (w.FirstPop? || w.RetryPop?) && Quiet(sh) && sh.count == 0
    ensures reach(Pool(z, RetryPop, Idle, sh'))
    ensures Quiet(sh') && sh'.count == 0 && sh'.repaired && |sh'.queue| == |sh.queue| + z.maxQueue
  {
    var t, under := Underflowing(reach, z, w, sh);
    var full := Fill(reach, z, t, under, z.maxQueue);
    var fixed := full.(count := 0, repaired := true);
    WorkerActs(reach, z, Underflow(t), Idle, full);
    WorkerActs(reach, z, Run(t), Idle, fixed);
    sh' := fixed.(ran := fixed.ran + multiset{t});
    WorkerActs(reach, z, AfterRun, Idle, sh');
  }

  const EMPTY := Shared(Nobody, [], 0, 0, false, false, multiset{}, multiset{}, false, Calls(0, 0, 0))

  lemma {:induction false} Grow(reach: State -> bool, z: Idlers, n: nat) returns (w: WorkerPc, sh: Shared)
    requires AtStart(z) && Stays(reach, Next) && reach(Pool(z, FirstPop, Idle, EMPTY))
    ensures reach(Pool(z, w, Idle, sh)) && (w.FirstPop? || w.RetryPop?)
    ensures Quiet(sh) && sh.count == 0 && |sh.queue| >= n && (n > 0 ==> sh.repaired)
  {
    if n == 0 {
      w, sh := FirstPop, EMPTY;
    } else {
      var v, before := Grow(reach, z, n - 1);
      sh := Round(reach, z, v, before);
      w := RetryPop;
    }
  }

  predicate HasSize(s: State, workers: nat, submitters: nat, maxQueue: nat) {
    |s.workers| == workers && |s.submitters| == submitters && s.maxQueue == maxQueue
  }

  lemma Overgrow(reach: State -> bool, z: Idlers, n: nat) returns (s: State)
    requires AtStart(z) && Stays(reach, Next) && reach(Pool(z, FirstPop, Idle, EMPTY))
    ensures reach(s) && HasSize(s, |z.workers| + 1, |z.submitters| + 1, z.maxQueue)
    ensures |s.sh.queue| >= n && s.sh.count == 0 && (n > 0 ==> s.sh.repaired)
  {
    var w, sh := Grow(reach, z, n);
    s := Pool(z, w, Idle, sh);
  }

  lemma Starting(workers: nat, submitters: nat, maxQueue: nat) returns (z: Idlers)
    requires workers > 0 && submitters > 0 && 1 <= maxQueue < WORD
    ensures AtStart(z) && Init(Pool(z, FirstPop, Idle, EMPTY))
    ensures |z.workers| == workers - 1 && |z.submitters| == submitters - 1 && z.maxQueue == maxQueue
  {
    z := Idlers(seq(workers - 1, _ => FirstPop), seq(workers - 1, _ => false),
                seq(submitters - 1, _ => Idle), seq(submitters - 1, _ => false), maxQueue);
  }

  /**
   The repair makes the bound void. Whatever the size of the pool, one worker that is stopped
   between its fetch_sub and its store erases the additions of all tasks that fill the queue
   meanwhile; repeated, this lets the queue outgrow any length while the counter says it is empty.
   */
  lemma QueueUnbounded(workers: nat, submitters: nat, maxQueue: nat, n: nat) returns (s: State)
    requires workers > 0 && submitters > 0 && 1 <= maxQueue < WORD
    ensures Reachable(s, Init, Next) && HasSize(s, workers, submitters, maxQueue)
    ensures |s.sh.queue| >= n && s.sh.count == 0 && (n > 0 ==> s.sh.repaired)
  {
    var z := Starting(workers, submitters, maxQueue);
    var reach := ReachableStays(Init, Next);
    s := Overgrow(reach, z, n);
  }

  // Every reachable state of such a pool has at most its bound of tasks in the queue.
  ghost predicate KeepsBound(workers: nat, submitters: nat, maxQueue: nat) {
    forall s | Reachable(s, Init, Next) && HasSize(s, workers, submitters, maxQueue) :: |s.sh.queue| <= maxQueue
  }

  /** A pool never holds more than its bound exactly if it lacks workers or submitters. */
  lemma QueueBoundExactly(workers: nat, submitters: nat, maxQueue: nat)
    requires 1 <= maxQueue < WORD
    ensures KeepsBound(workers, submitters, maxQueue) <==> workers == 0 || submitters == 0
  {
    if workers > 0 && submitters > 0 {
      var s := QueueUnbounded(workers, submitters, maxQueue, maxQueue + 1);
    } else {
      forall s | Reachable(s, Init, Next) && HasSize(s, workers, submitters, maxQueue)
        ensures |s.sh.queue| <= maxQueue
      {
        WithoutOneKindKept(s);
      }
    }
  }

  lemma WithoutOneKindKept(s: State)
    requires Reachable(s, Init, Next) && (s.workers == [] || s.submitters == [])
    ensures |s.sh.queue| <= s.maxQueue
  {
    var run :| RunOf(run, Init, Next) && run[|run| - 1] == s;
    var k: nat := |run| - 1;
    if s.workers == [] {
      NoWorkersKeep(run, k);
    } else {
      NoSubmittersKeep(run, k);
    }
  }
}
