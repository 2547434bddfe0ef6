/** What `stop` guarantees, and the theorems about whole runs of the worker pool. */
module ThreadPoolStop {
  import opened Basics
  import opened Counting
  import opened Runs
  import opened ThreadPool
  import opened ThreadPoolSafety

  // ----- Which flags are set when -----

  predicate Clearing(pc: StopPc) {
    pc.SetFlags? || pc.EarlyPop? || pc.EarlyCount? || pc.EarlyFix?
  }

  predicate PastLock(pc: StopPc) {
    PastNotify(pc) || pc.NotifyAll?
  }

  predicate PastNotify(pc: StopPc) {
    pc.Unlock? || pc.Join? || PastJoin(pc)
  }

  predicate PastJoin(pc: StopPc) {
    pc.FinalPop? || pc.FinalCount? || pc.FinalFix? || pc.Returned?
  }

  // Flags below this index have been set.
  function FlagsSet(s: State): nat {
    if s.graceful || s.stopper.NotStopped? then 0
    else if s.stopper.SetFlags? then s.stopper.next
    else |s.flags|
  }

  ghost predicate FlagInv(s: State) {
    && |s.flags| == |s.workers|
    && s.sh.isDone == (s.graceful && !s.stopper.NotStopped?)
    && s.sh.isStopped == (!s.graceful && !s.stopper.NotStopped?)
    && (s.graceful ==> !Clearing(s.stopper))
    && FlagsSet(s) <= |s.flags|
    && (forall i :: 0 <= i < |s.flags| ==> s.flags[i] == (i < FlagsSet(s)))
  }

  lemma FlagStop(s: State)
    requires FlagInv(s) && Enabled(s, StopStep)
    ensures FlagInv(After(s, StopStep))
  {
  }

  lemma FlagStep(s: State, e: Step)
    requires FlagInv(s) && Enabled(s, e)
    ensures FlagInv(After(s, e))
  {
    if e.StopStep? {
      FlagStop(s);
    } else {
      assert After(s, e).stopper == s.stopper && After(s, e).flags == s.flags;
    }
  }

  // ----- Submitters behind the stopper -----

  // Past the flag checks, so a task will be or has just been enqueued.
  predicate Committed(pc: SubmitPc) {
    pc.Enqueue? || pc.AddCount? || pc.Notify?
  }

  // Once the stopper has had the mutex, no submitter gets past its flag checks.
  ghost predicate ClosedInv(s: State) {
    PastLock(s.stopper) ==>
      forall i :: 0 <= i < |s.submitters| ==>
        !Committed(s.submitters[i]) && (s.submitters[i].LoadIsDone? ==> s.graceful)
  }

  lemma ClosedStep(s: State, e: Step)
    requires MutexInv(s) && FlagInv(s) && ClosedInv(s) && Enabled(s, e)
    ensures ClosedInv(After(s, e))
  {
  }

  // ----- No worker sleeps through a stop -----

  ghost predicate AwakeInv(s: State) {
    PastNotify(s.stopper) ==>
      forall i :: 0 <= i < |s.workers| ==>
        !s.workers[i].Asleep? && (s.workers[i].LoadFlag? ==> !s.graceful)
  }

  lemma AwakeStep(s: State, e: Step)
    requires MutexInv(s) && FlagInv(s) && AwakeInv(s) && Enabled(s, e)
    ensures AwakeInv(After(s, e))
  {
  }

  // ----- Joining, and the final clear -----

  ghost predicate JoinInv(s: State) {
    && (s.stopper.Join? ==> s.stopper.next <= |s.workers|)
    && (forall i :: 0 <= i < |s.workers| ==>
          PastJoin(s.stopper) || (s.stopper.Join? && i < s.stopper.next) ==> s.workers[i].Exited?)
    && (s.stopper.Returned? ==> s.sh.queue == [])
  }

  lemma JoinStep(s: State, e: Step)
    requires JoinInv(s) && ClosedInv(s) && Enabled(s, e)
    ensures JoinInv(After(s, e))
  {
  }

  // ----- Graceful exit -----

  predicate Leaving(pc: WorkerPc) {
    pc.ReturnEmpty? || pc.Exited?
  }

  // A worker leaves a gracefully stopping pool only when nothing is queued or can be queued.
  ghost predicate DrainedInv(s: State) {
    s.graceful ==>
      && (forall i :: 0 <= i < |s.workers| && Leaving(s.workers[i]) ==>
            s.sh.isDone && s.sh.queue == [])
      && (forall i, j :: 0 <= i < |s.workers| && Leaving(s.workers[i]) && 0 <= j < |s.submitters| ==>
            !Committed(s.submitters[j]))
  }

  lemma DrainedWorker(s: State, i: nat)
    requires MutexInv(s) && QueueInv(s) && FlagInv(s) && DrainedInv(s)
    requires Enabled(s, WorkerStep(i))
    ensures DrainedInv(After(s, WorkerStep(i)))
  {
    var (pc, sh) := WorkerMove(s.workers[i], s.sh, i, s.flags[i]);
    if s.graceful && Leaving(pc) {
      assert s.workers[i].LoadDone? || s.workers[i].ReturnEmpty?;
      assert s.sh.mtx == ByWorker(i);
    }
  }

  lemma DrainedStep(s: State, e: Step)
    requires MutexInv(s) && QueueInv(s) && FlagInv(s) && DrainedInv(s) && Enabled(s, e)
    ensures DrainedInv(After(s, e))
  {
    match e
    case WorkerStep(i) => DrainedWorker(s, i);
    case Spurious(i) =>
    case SubmitCall(i, b) =>
    case SubmitStep(i, wake) =>
    case StopStep =>
  }

  // With at least one worker, a graceful stop discards nothing.
  ghost predicate NothingDiscarded(s: State) {
    s.graceful && |s.workers| > 0 ==>
      s.sh.discarded == multiset{} && (PastJoin(s.stopper) ==> s.stopper.FinalPop? || s.stopper.Returned?)
  }

  lemma NothingDiscardedStep(s: State, e: Step)
    requires FlagInv(s) && JoinInv(s) && DrainedInv(s) && NothingDiscarded(s) && Enabled(s, e)
    ensures NothingDiscarded(After(s, e))
  {
    if s.graceful && |s.workers| > 0 && e.StopStep? && s.stopper.FinalPop? {
      assert Leaving(s.workers[0]);
    }
  }

  // ----- Whole runs -----

  ghost predicate Inv(s: State) {
    && MutexInv(s) && QueueInv(s) && WakeInv(s) && LedgerInv(s) && FateInv(s)
    && FlagInv(s) && ClosedInv(s) && AwakeInv(s) && JoinInv(s) && DrainedInv(s)
    && NothingDiscarded(s)
  }

  lemma InitInv(s: State)
    requires Init(s)
    ensures Inv(s)
  {
    CountNone(s.workers, Uncounted);
    CountNone(s.submitters, Adding);
  }

  lemma StepInv(s: State, e: Step)
    requires Inv(s) && Enabled(s, e)
    ensures Inv(After(s, e))
  {
    MutexStep(s, e);
    QueueStep(s, e);
    WakeStep(s, e);
    LedgerStep(s, e);
    FateStep(s, e);
    FlagStep(s, e);
    ClosedStep(s, e);
    AwakeStep(s, e);
    JoinStep(s, e);
    DrainedStep(s, e);
    NothingDiscardedStep(s, e);
  }

  lemma NextInv(s: State, s': State)
    requires Inv(s) && Next(s, s')
    ensures Inv(s')
  {
    var e :| Enabled(s, e) && s' == After(s, e);
    StepInv(s, e);
  }

  lemma RunInv(run: seq<State>, k: nat)
    requires IsRun(run) && k < |run|
    ensures Inv(run[k])
  {
    forall s | Init(s) ensures Inv(s) {
      InitInv(s);
    }
    forall s, s' | Inv(s) && Next(s, s') ensures Inv(s') {
      NextInv(s, s');
    }
    Invariant(run, Init, Next, Inv, k);
  }

  /** Work conservation: a worker sleeps only while enough awake workers will look at the queue. */
  lemma NoLostWakeup(run: seq<State>, k: nat)
    requires IsRun(run) && k < |run|
    requires SomeAsleep(run[k]) && !Announcing(run[k])
    ensures |run[k].sh.queue| <= CountIf(run[k].workers, Searching)
  {
    RunInv(run, k);
  }

  /** When every worker is asleep and no submitter is mid-way, nothing is queued. */
  lemma AllAsleepMeansIdle(run: seq<State>, k: nat)
    requires IsRun(run) && k < |run|
    requires run[k].workers != [] && !Announcing(run[k])
    requires forall i :: 0 <= i < |run[k].workers| ==> run[k].workers[i].Asleep?
    ensures run[k].sh.queue == []
  {
    assert run[k].workers[0].Asleep?;
    NoLostWakeup(run, k);
    CountNone(run[k].workers, Searching);
  }

  ghost predicate NobodyRuns(s: State) {
    s.workers == [] ==> s.sh.ran == multiset{}
  }

  lemma NobodyRunsStep(s: State, e: Step)
    requires NobodyRuns(s) && Enabled(s, e)
    ensures NobodyRuns(After(s, e))
  {
  }

  lemma WithoutWorkersNothingRuns(run: seq<State>, k: nat)
    requires IsRun(run) && k < |run|
    ensures NobodyRuns(run[k])
  {
    forall s, s' | NobodyRuns(s) && Next(s, s') ensures NobodyRuns(s') {
      var e :| Enabled(s, e) && s' == After(s, e);
      NobodyRunsStep(s, e);
    }
    Invariant(run, Init, Next, NobodyRuns, k);
  }

  /** Once no worker is left, a graceful stop has run everything exactly if there was a worker. */
  lemma GracefulStopExact(run: seq<State>, k: nat)
    requires IsRun(run) && k < |run| && run[k].graceful
    requires forall i :: 0 <= i < |run[k].workers| ==> run[k].workers[i].Exited?
    ensures (forall t: nat :: t < run[k].sh.accepted ==> run[k].sh.ran[t] == 1)
       <==> (run[k].workers != [] || run[k].sh.accepted == 0)
  {
    if run[k].workers != [] {
      GracefulStopRunsAll(run, k);
    } else {
      WithoutWorkersNothingRuns(run, k);
      assert run[k].sh.ran[0] == 0;
    }
  }

  /** Graceful stop loses nothing, however submitters race with the store of `is_done`. */
  lemma GracefulStopRunsAll(run: seq<State>, k: nat)
    requires IsRun(run) && k < |run|
    requires run[k].graceful && run[k].workers != []
    requires forall i :: 0 <= i < |run[k].workers| ==> run[k].workers[i].Exited?
    ensures run[k].sh.queue == [] && run[k].sh.discarded == multiset{}
    ensures forall t: nat :: t < run[k].sh.accepted ==> run[k].sh.ran[t] == 1
  {
    RunInv(run, k);
    assert Leaving(run[k].workers[0]);
    forall t: nat | t < run[k].sh.accepted ensures run[k].sh.ran[t] == 1 {
      assert Settled(run[k], t) == 1;
    }
  }

  /** After either mode of `stop` returns, every accepted task was run or discarded exactly once. */
  lemma StopSettlesAll(run: seq<State>, k: nat)
    requires IsRun(run) && k < |run| && run[k].stopper.Returned?
    ensures run[k].sh.queue == []
    ensures forall t: nat :: t < run[k].sh.accepted ==> run[k].sh.ran[t] + run[k].sh.discarded[t] == 1
  {
    RunInv(run, k);
    forall t: nat | t < run[k].sh.accepted ensures run[k].sh.ran[t] + run[k].sh.discarded[t] == 1 {
      assert !Carried(run[k], t);
      assert Settled(run[k], t) == 1;
    }
  }

  // The second state is a later one, and it has accepted nothing more.
  ghost predicate AcceptsNoMore(s: State, s': State) {
    PastLock(s.stopper) ==> PastLock(s'.stopper) && s'.sh.accepted == s.sh.accepted
  }

  lemma ClosedAcceptsStep(s: State, e: Step)
    requires ClosedInv(s) && PastLock(s.stopper) && Enabled(s, e)
    ensures PastLock(After(s, e).stopper) && After(s, e).sh.accepted == s.sh.accepted
  {
  }

  lemma ClosedAccepts(a: State, s: State, s': State)
    requires AcceptsNoMore(a, s) && Inv(s) && Next(s, s')
    ensures AcceptsNoMore(a, s')
  {
    var e :| Enabled(s, e) && s' == After(s, e);
    if PastLock(s.stopper) {
      ClosedAcceptsStep(s, e);
    }
  }

  /** From the stopper's lock acquisition on, no further task is accepted. */
  lemma NothingAcceptedAfterStop(run: seq<State>, j: nat, k: nat)
    requires IsRun(run) && j <= k < |run| && PastLock(run[j].stopper)
    ensures run[k].sh.accepted == run[j].sh.accepted
  {
    forall i | 0 <= i < |run| ensures Inv(run[i]) {
      RunInv(run, i);
    }
    forall a, s, s' | AcceptsNoMore(a, s) && Inv(s) && Next(s, s') ensures AcceptsNoMore(a, s') {
      ClosedAccepts(a, s, s');
    }
    Onwards(run, Next, Inv, AcceptsNoMore, j, k);
  }

  predicate ByHolder(s: State, e: Step) {
    match s.sh.mtx
    case Nobody => false
    case ByWorker(i) => e == WorkerStep(i)
    case BySubmitter(i) => e.SubmitStep? && e.u == i
    case ByStopper => e == StopStep
  }

  /** The thread that holds the mutex can always take a step. */
  lemma HolderCanStep(s: State) returns (e: Step)
    requires Inv(s) && !s.sh.mtx.Nobody?
    ensures Enabled(s, e) && ByHolder(s, e)
  {
    match s.sh.mtx
    case ByWorker(i) => e := WorkerStep(i);
    case BySubmitter(i) =>
      var wake :| SomeAsleep(s) ==> 0 <= wake < |s.workers| && s.workers[wake].Asleep?;
      e := SubmitStep(i, if wake < 0 then 0 else wake);
    case ByStopper => e := StopStep;
  }

  /** `stop` never waits in vain: the worker it waits for, or whoever holds the mutex, has a step. */
  lemma JoinNeverStuck(run: seq<State>, k: nat) returns (e: Step)
    requires IsRun(run) && k < |run|
    requires run[k].stopper.Join? && run[k].stopper.next < |run[k].workers|
    requires !run[k].workers[run[k].stopper.next].Exited?
    ensures Enabled(run[k], e) && !e.StopStep?
    ensures e == WorkerStep(run[k].stopper.next) || ByHolder(run[k], e)
  {
    RunInv(run, k);
    var s := run[k];
    var i := s.stopper.next;
    assert !s.workers[i].Asleep?;
    if !s.sh.mtx.Nobody? {
      e := HolderCanStep(s);
    } else {
      e := WorkerStep(i);
    }
  }

  lemma QueueWithinBound(s: State)
    requires Inv(s) && !s.sh.repaired
    ensures -1 <= Ledger(s) && |s.sh.queue| <= s.maxQueue
  {
    if i :| 0 <= i < |s.submitters| && Adding(s.submitters[i]) {
      assert Admitted(s.submitters[i]);
    } else {
      CountNone(s.submitters, Adding);
    }
  }

  /** The counter equals the ledger up to the first repair, so the queue respects its bound. */
  lemma LedgerHolds(run: seq<State>, k: nat)
    requires IsRun(run) && k < |run| && !run[k].sh.repaired
    ensures -1 <= Ledger(run[k]) <= run[k].maxQueue
    ensures run[k].sh.count == Ledger(run[k]) % WORD
    ensures |run[k].sh.queue| <= run[k].maxQueue
  {
    RunInv(run, k);
    QueueWithinBound(run[k]);
  }

  /** Before any repair, fetch_sub reads 0 only while one submitter owes its fetch_add. */
  lemma FirstUnderflow(run: seq<State>, k: nat, e: Step)
    requires IsRun(run) && k < |run| && !run[k].sh.repaired && run[k].sh.count == 0
    requires Enabled(run[k], e)
    requires (e.WorkerStep? && run[k].workers[e.w].Popped?)
          || (e.StopStep? && StopUncounted(run[k].stopper) == 1)
    ensures CountIf(run[k].submitters, Adding) == 1
    ensures After(run[k], e).sh.count == WORD - 1
  {
    RunInv(run, k);
    if e.WorkerStep? {
      UnderflowNeedsAdder(run[k], e.w);
    }
  }
}
