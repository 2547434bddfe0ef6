/** What every interleaving of the worker pool keeps. */
module ThreadPoolSafety {
  import opened Basics
  import opened Counting
  import opened ThreadPool

  // ----- Mutual exclusion -----

  predicate WorkerHolds(pc: WorkerPc) {
    pc.Predicate? || pc.LoadDone? || pc.LoadFlag? || pc.ReturnTask? || pc.ReturnEmpty?
  }

  predicate SubmitHolds(pc: SubmitPc) {
    !pc.Idle? && !pc.Parked?
  }

  predicate StopHolds(pc: StopPc) {
    pc.NotifyAll? || pc.Unlock?
  }

  // Exactly the thread inside a critical section owns the mutex.
  ghost predicate MutexInv(s: State) {
    && |s.flags| == |s.workers| && |s.modes| == |s.submitters|
    && (forall i :: 0 <= i < |s.workers| ==> (WorkerHolds(s.workers[i]) <==> s.sh.mtx == ByWorker(i)))
    && (forall i :: 0 <= i < |s.submitters| ==>
          (SubmitHolds(s.submitters[i]) <==> s.sh.mtx == BySubmitter(i)))
    && (StopHolds(s.stopper) <==> s.sh.mtx == ByStopper)
    && (s.sh.mtx.ByWorker? ==> s.sh.mtx.w < |s.workers|)
    && (s.sh.mtx.BySubmitter? ==> s.sh.mtx.u < |s.submitters|)
  }

  lemma MutexWorker(s: State, i: nat)
    requires MutexInv(s) && Enabled(s, WorkerStep(i))
    ensures MutexInv(After(s, WorkerStep(i)))
  {
    var (pc, sh) := WorkerMove(s.workers[i], s.sh, i, s.flags[i]);
    assert WorkerHolds(pc) <==> sh.mtx == ByWorker(i);
    assert sh.mtx == s.sh.mtx
        || (sh.mtx == Nobody && s.sh.mtx == ByWorker(i)) || (s.sh.mtx == Nobody && sh.mtx == ByWorker(i));
  }

  lemma MutexSubmit(s: State, i: nat, wake: nat)
    requires MutexInv(s) && Enabled(s, SubmitStep(i, wake))
    ensures MutexInv(After(s, SubmitStep(i, wake)))
  {
    var (pc, sh) := SubmitMove(s.submitters[i], s.sh, i, s.maxQueue);
    assert SubmitHolds(pc) <==> sh.mtx == BySubmitter(i);
    assert sh.mtx == s.sh.mtx
        || (sh.mtx == Nobody && s.sh.mtx == BySubmitter(i)) || (s.sh.mtx == Nobody && sh.mtx == BySubmitter(i));
  }

  lemma MutexStop(s: State)
    requires MutexInv(s) && Enabled(s, StopStep)
    ensures MutexInv(After(s, StopStep))
  {
    var (pc, sh) := StopMove(s.stopper, s.sh, s.graceful, |s.workers|);
    assert StopHolds(pc) <==> sh.mtx == ByStopper;
    assert sh.mtx == s.sh.mtx
        || (sh.mtx == Nobody && s.sh.mtx == ByStopper) || (s.sh.mtx == Nobody && sh.mtx == ByStopper);
  }

  lemma MutexStep(s: State, e: Step)
    requires MutexInv(s) && Enabled(s, e)
    ensures MutexInv(After(s, e))
  {
    match e
    case WorkerStep(i) => MutexWorker(s, i);
    case Spurious(i) =>
    case SubmitCall(i, b) =>
    case SubmitStep(i, wake) => MutexSubmit(s, i, wake);
    case StopStep => MutexStop(s);
  }

  // After a step of submitter i no other submitter is inside its critical section.
  lemma OtherSubmittersOut(s: State, i: nat, wake: nat, j: nat)
    requires MutexInv(s) && Enabled(s, SubmitStep(i, wake)) && j < |s.submitters| && j != i
    ensures !SubmitHolds(s.submitters[j]) && After(s, SubmitStep(i, wake)).submitters[j] == s.submitters[j]
  {
    if !s.submitters[i].Parked? {
      assert s.sh.mtx == BySubmitter(i);
    }
  }

  // ----- Queue order, and the failed pop of the wait predicate -----

  predicate FoundEmpty(pc: WorkerPc) {
    pc.LoadDone? || pc.LoadFlag? || pc.ReturnEmpty?
  }

  ghost predicate QueueInv(s: State) {
    && |s.sh.queue| <= s.sh.accepted
    && (forall j :: 0 <= j < |s.sh.queue| ==>
          s.sh.queue[j] == s.sh.accepted - |s.sh.queue| + j)
    && (forall i :: 0 <= i < |s.workers| && FoundEmpty(s.workers[i]) ==> s.sh.queue == [])
  }

  lemma QueueWorker(s: State, i: nat)
    requires MutexInv(s) && QueueInv(s) && Enabled(s, WorkerStep(i))
    ensures QueueInv(After(s, WorkerStep(i)))
  {
    var (pc, sh) := WorkerMove(s.workers[i], s.sh, i, s.flags[i]);
    assert sh.accepted == s.sh.accepted;
    assert sh.queue == s.sh.queue || (s.sh.queue != [] && sh.queue == s.sh.queue[1..]);
    assert FoundEmpty(pc) ==> sh.queue == [];
  }

  lemma QueueSubmit(s: State, i: nat, wake: nat)
    requires MutexInv(s) && QueueInv(s) && Enabled(s, SubmitStep(i, wake))
    ensures QueueInv(After(s, SubmitStep(i, wake)))
  {
    var sh := SubmitMove(s.submitters[i], s.sh, i, s.maxQueue).1;
    if s.submitters[i].Enqueue? {
      assert s.sh.mtx == BySubmitter(i);
    } else {
      assert sh.queue == s.sh.queue && sh.accepted == s.sh.accepted;
    }
  }

  lemma QueueStop(s: State)
    requires MutexInv(s) && QueueInv(s) && Enabled(s, StopStep)
    ensures QueueInv(After(s, StopStep))
  {
    var sh := StopMove(s.stopper, s.sh, s.graceful, |s.workers|).1;
    assert sh.accepted == s.sh.accepted;
    assert sh.queue == s.sh.queue || (s.sh.queue != [] && sh.queue == s.sh.queue[1..]);
  }

  lemma QueueStep(s: State, e: Step)
    requires MutexInv(s) && QueueInv(s) && Enabled(s, e)
    ensures QueueInv(After(s, e))
  {
    match e
    case WorkerStep(i) => QueueWorker(s, i);
    case Spurious(i) =>
    case SubmitCall(i, b) =>
    case SubmitStep(i, wake) => QueueSubmit(s, i, wake);
    case StopStep => QueueStop(s);
  }

  // ----- No lost wake-up -----

  // The worker will try the queue before it sleeps or exits, whatever the flags say.
  predicate Searching(pc: WorkerPc) {
    pc.FirstPop? || pc.RetryPop? || pc.WantLock? || pc.Predicate? || pc.Woken?
  }

  predicate Announces(pc: SubmitPc) {
    pc.AddCount? || pc.Notify?
  }

  // Some submitter is between its enqueue and its notify_one.
  predicate Announcing(s: State) {
    exists i :: 0 <= i < |s.submitters| && Announces(s.submitters[i])
  }

  ghost predicate WakeInv(s: State) {
    SomeAsleep(s) ==>
      |s.sh.queue| <= CountIf(s.workers, Searching) + (if Announcing(s) then 1 else 0)
  }

  lemma WakeWorker(s: State, i: nat)
    requires MutexInv(s) && QueueInv(s) && WakeInv(s) && Enabled(s, WorkerStep(i))
    ensures WakeInv(After(s, WorkerStep(i)))
  {
    var (pc, sh) := WorkerMove(s.workers[i], s.sh, i, s.flags[i]);
    CountUpdate(s.workers, i, pc, Searching);
    if s.workers[i].LoadFlag? {
      assert sh.queue == [];
    } else {
      assert SomeAsleep(After(s, WorkerStep(i))) ==> SomeAsleep(s) by {
        assert !pc.Asleep?;
        var ws := s.workers[i := pc];
        if k :| 0 <= k < |ws| && ws[k].Asleep? {
          assert s.workers[k].Asleep?;
        }
      }
    }
  }

  // Before and after its step, only submitter i can be announcing a task.
  lemma OnlyOneAnnounces(s: State, i: nat, wake: nat)
    requires MutexInv(s) && Enabled(s, SubmitStep(i, wake))
    ensures Announcing(s) <==> Announces(s.submitters[i])
    ensures var s' := After(s, SubmitStep(i, wake)); Announcing(s') <==> Announces(s'.submitters[i])
  {
    forall j | 0 <= j < |s.submitters| && j != i
      ensures !Announces(s.submitters[j]) && !Announces(After(s, SubmitStep(i, wake)).submitters[j])
    {
      OtherSubmittersOut(s, i, wake, j);
    }
  }

  // Notifying moves the announced task from the submitter's account to that of the woken worker.
  lemma WakeNotify(s: State, i: nat, wake: nat)
    requires MutexInv(s) && WakeInv(s) && Enabled(s, SubmitStep(i, wake)) && s.submitters[i].Notify?
    ensures WakeInv(After(s, SubmitStep(i, wake)))
  {
    var s' := After(s, SubmitStep(i, wake));
    assert s'.sh.queue == s.sh.queue;
    if SomeAsleep(s) {
      assert s'.workers == s.workers[wake := Woken];
      CountUpdate(s.workers, wake, Woken, Searching);
    } else {
      assert s'.workers == s.workers;
      assert !SomeAsleep(s');
    }
  }

  lemma WakeSubmit(s: State, i: nat, wake: nat)
    requires MutexInv(s) && WakeInv(s) && Enabled(s, SubmitStep(i, wake))
    ensures WakeInv(After(s, SubmitStep(i, wake)))
  {
    if s.submitters[i].Notify? {
      WakeNotify(s, i, wake);
    } else {
      var s' := After(s, SubmitStep(i, wake));
      OnlyOneAnnounces(s, i, wake);
      assert s'.workers == s.workers;
      assert SomeAsleep(s') <==> SomeAsleep(s);
      if s.submitters[i].Enqueue? {
        assert !Announcing(s) && Announcing(s') && |s'.sh.queue| == |s.sh.queue| + 1;
      } else {
        assert Announcing(s) == Announcing(s') && s'.sh.queue == s.sh.queue;
      }
    }
  }

  lemma WakeStep(s: State, e: Step)
    requires MutexInv(s) && QueueInv(s) && WakeInv(s) && Enabled(s, e)
    ensures WakeInv(After(s, e))
  {
    match e
    case WorkerStep(i) => WakeWorker(s, i);
    case Spurious(i) => CountUpdate(s.workers, i, Woken, Searching);
    case SubmitCall(i, b) =>
    case SubmitStep(i, wake) => WakeSubmit(s, i, wake);
    case StopStep =>
  }

  // ----- The counter ledger -----

  predicate Uncounted(pc: WorkerPc) {
    pc.Popped? || pc.ReturnTask?
  }

  predicate Adding(pc: SubmitPc) {
    pc.AddCount?
  }

  function StopUncounted(pc: StopPc): nat {
    if pc.EarlyCount? || pc.FinalCount? then 1 else 0
  }

  // Queued, plus popped but not yet subtracted, minus enqueued but not yet added.
  function Ledger(s: State): int {
    |s.sh.queue| + CountIf(s.workers, Uncounted) + StopUncounted(s.stopper)
      - CountIf(s.submitters, Adding)
  }

  // The submitter has seen a counter below the bound and has not added to it yet.
  predicate Admitted(pc: SubmitPc) {
    pc.LoadStopped? || pc.LoadIsDone? || pc.Enqueue? || pc.AddCount?
  }

  ghost predicate LedgerInv(s: State) {
    && 1 <= s.maxQueue < WORD
    && CountIf(s.submitters, Adding) <= 1
    && (!s.sh.repaired ==>
          && Ledger(s) <= s.maxQueue
          && s.sh.count == Ledger(s) % WORD
          && forall i :: 0 <= i < |s.submitters| && Admitted(s.submitters[i]) ==>
               Ledger(s) < s.maxQueue)
  }

  lemma AddingAtMostOnce(s: State)
    requires MutexInv(s)
    ensures CountIf(s.submitters, Adding)
         == if exists i :: 0 <= i < |s.submitters| && Adding(s.submitters[i]) then 1 else 0
  {
    if i :| 0 <= i < |s.submitters| && Adding(s.submitters[i]) {
      CountUpdate(s.submitters, i, Idle, Adding);
      CountNone(s.submitters[i := Idle], Adding);
    } else {
      CountNone(s.submitters, Adding);
    }
  }

  // fetch_sub can read 0 only while some submitter still owes its fetch_add.
  lemma UnderflowNeedsAdder(s: State, i: nat)
    requires LedgerInv(s) && !s.sh.repaired
    requires i < |s.workers| && Uncounted(s.workers[i]) && s.sh.count == 0
    ensures CountIf(s.submitters, Adding) == 1 && Ledger(s) == 0
  {
    CountMember(s.workers, i, Uncounted);
  }

  lemma LedgerWorker(s: State, i: nat)
    requires MutexInv(s) && LedgerInv(s) && Enabled(s, WorkerStep(i))
    ensures LedgerInv(After(s, WorkerStep(i)))
  {
    var s' := After(s, WorkerStep(i));
    var (pc, sh) := WorkerMove(s.workers[i], s.sh, i, s.flags[i]);
    CountUpdate(s.workers, i, pc, Uncounted);
    if !sh.repaired {
      if s.workers[i].Popped? {
        if s.sh.count == 0 {
          UnderflowNeedsAdder(s, i);
        }
        assert Ledger(s') == Ledger(s) - 1;
      } else {
        assert Ledger(s') == Ledger(s);
      }
    }
  }

  lemma LedgerSubmit(s: State, i: nat, wake: nat)
    requires MutexInv(s) && LedgerInv(s) && Enabled(s, SubmitStep(i, wake))
    ensures Ledger(After(s, SubmitStep(i, wake)))
         == if s.submitters[i].AddCount? then Ledger(s) + 1 else Ledger(s)
    ensures s.submitters[i].LoadCount? ==> 0 <= Ledger(s)
  {
    var s' := After(s, SubmitStep(i, wake));
    CountUpdate(s.submitters, i, s'.submitters[i], Adding);
    AddingAtMostOnce(s);
    if s'.workers != s.workers {
      CountUpdate(s.workers, wake, Woken, Uncounted);
    }
  }

  lemma LedgerSubmitValue(s: State, i: nat, wake: nat)
    requires MutexInv(s) && LedgerInv(s) && Enabled(s, SubmitStep(i, wake)) && !s.sh.repaired
    ensures var s' := After(s, SubmitStep(i, wake));
      && !s'.sh.repaired && s'.sh.count == Ledger(s') % WORD && Ledger(s') <= s.maxQueue
      && (Admitted(s'.submitters[i]) ==> Ledger(s') < s.maxQueue)
  {
    LedgerSubmit(s, i, wake);
    assert Admitted(s.submitters[i]) ==> Ledger(s) < s.maxQueue;
  }

  lemma LedgerSubmitStep(s: State, i: nat, wake: nat)
    requires MutexInv(s) && LedgerInv(s) && Enabled(s, SubmitStep(i, wake))
    ensures LedgerInv(After(s, SubmitStep(i, wake)))
  {
    var s' := After(s, SubmitStep(i, wake));
    MutexSubmit(s, i, wake);
    AddingAtMostOnce(s');
    if !s.sh.repaired {
      LedgerSubmitValue(s, i, wake);
    }
    forall j | 0 <= j < |s.submitters| && j != i ensures !Admitted(s'.submitters[j]) {
      OtherSubmittersOut(s, i, wake, j);
    }
  }

  lemma LedgerStopValue(s: State)
    requires Enabled(s, StopStep)
    ensures Ledger(After(s, StopStep)) == Ledger(s) - StopUncounted(s.stopper)
  {
    CountSame(s.workers, After(s, StopStep).workers, Uncounted);
  }

  lemma StopCount(s: State)
    requires Enabled(s, StopStep)
    ensures var s' := After(s, StopStep);
      && s'.submitters == s.submitters && s'.maxQueue == s.maxQueue
      && (!s'.sh.repaired ==> !s.sh.repaired)
      && (s.sh.count < WORD && !s'.sh.repaired ==>
            s'.sh.count == (s.sh.count - StopUncounted(s.stopper)) % WORD)
  {
  }

  lemma CountDown(sum: int, n: nat)
    ensures (sum % WORD - n) % WORD == (sum - n) % WORD
  {
  }

  lemma LedgerStop(s: State)
    requires LedgerInv(s) && Enabled(s, StopStep)
    ensures LedgerInv(After(s, StopStep))
  {
    LedgerStopValue(s);
    StopCount(s);
    CountDown(Ledger(s), StopUncounted(s.stopper));
    assert forall i :: 0 <= i < |s.submitters| && Admitted(s.submitters[i]) ==>
        s.sh.repaired || Ledger(s) < s.maxQueue;
  }

  lemma LedgerQuiet(s: State, e: Step)
    requires LedgerInv(s) && Enabled(s, e) && (e.Spurious? || e.SubmitCall?)
    ensures LedgerInv(After(s, e))
  {
    if e.Spurious? {
      CountUpdate(s.workers, e.w, Woken, Uncounted);
    } else {
      CountUpdate(s.submitters, e.u, LoadCount(e.blocking), Adding);
    }
    assert Ledger(After(s, e)) == Ledger(s);
  }

  lemma LedgerStep(s: State, e: Step)
    requires MutexInv(s) && LedgerInv(s) && Enabled(s, e)
    ensures LedgerInv(After(s, e))
  {
    match e
    case WorkerStep(i) => LedgerWorker(s, i);
    case Spurious(_) => LedgerQuiet(s, e);
    case SubmitCall(_, _) => LedgerQuiet(s, e);
    case SubmitStep(i, wake) => LedgerSubmitStep(s, i, wake);
    case StopStep => LedgerStop(s);
  }

  // ----- The fate of every accepted task -----

  // What a worker has popped and not finished, or -1.
  function Hand(pc: WorkerPc): int {
    match pc
    case Popped(t) => t
    case Underflow(t) => t
    case Run(t) => t
    case ReturnTask(t) => t
    case _ => -1
  }

  predicate Carried(s: State, t: nat) {
    exists i :: 0 <= i < |s.workers| && Hand(s.workers[i]) == t
  }

  function FirstQueued(s: State): int {
    s.sh.accepted - |s.sh.queue|
  }

  // How often a task was run or discarded.
  function Settled(s: State, t: nat): nat {
    s.sh.ran[t] + s.sh.discarded[t]
  }

  ghost predicate FateInv(s: State) {
    && (forall i :: 0 <= i < |s.workers| ==> Hand(s.workers[i]) < FirstQueued(s))
    && (forall i, j :: 0 <= i < j < |s.workers| && Hand(s.workers[i]) >= 0 ==>
          Hand(s.workers[i]) != Hand(s.workers[j]))
    && (forall t: nat :: Settled(s, t) == if t < FirstQueued(s) && !Carried(s, t) then 1 else 0)
  }

  // A step that moves no task keeps the invariant.
  lemma FateKeep(s: State, s': State)
    requires FateInv(s)
    requires |s'.workers| == |s.workers| && FirstQueued(s') == FirstQueued(s)
    requires forall i :: 0 <= i < |s.workers| ==> Hand(s'.workers[i]) == Hand(s.workers[i])
    requires s'.sh.ran == s.sh.ran && s'.sh.discarded == s.sh.discarded
    ensures FateInv(s')
  {
    forall t: nat
      ensures Settled(s', t) == if t < FirstQueued(s') && !Carried(s', t) then 1 else 0
    {
      assert Carried(s, t) <==> Carried(s', t);
      assert Settled(s', t) == Settled(s, t);
    }
  }

  lemma CarriedElsewhere(s: State, s': State, i: nat, t: nat)
    requires i < |s.workers| && |s'.workers| == |s.workers|
    requires forall k :: 0 <= k < |s.workers| && k != i ==> s'.workers[k] == s.workers[k]
    requires Hand(s.workers[i]) != t && Hand(s'.workers[i]) != t
    ensures Carried(s, t) <==> Carried(s', t)
  {
    if k :| 0 <= k < |s.workers| && Hand(s.workers[k]) == t {
      assert Hand(s'.workers[k]) == t;
    }
    if k :| 0 <= k < |s'.workers| && Hand(s'.workers[k]) == t {
      assert Hand(s.workers[k]) == t;
    }
  }

  lemma FatePop(s: State, i: nat)
    requires QueueInv(s) && FateInv(s) && Enabled(s, WorkerStep(i)) && s.sh.queue != []
    requires s.workers[i].FirstPop? || s.workers[i].RetryPop? || s.workers[i].Predicate?
    ensures FateInv(After(s, WorkerStep(i)))
  {
    var s' := After(s, WorkerStep(i));
    assert Hand(s'.workers[i]) == FirstQueued(s) && FirstQueued(s') == FirstQueued(s) + 1;
    forall t: nat
      ensures Settled(s', t) == if t < FirstQueued(s') && !Carried(s', t) then 1 else 0
    {
      assert Settled(s', t) == Settled(s, t);
      if t == FirstQueued(s) {
        assert Carried(s', t);
      } else {
        CarriedElsewhere(s, s', i, t);
      }
    }
  }

  lemma FateRun(s: State, i: nat)
    requires FateInv(s) && Enabled(s, WorkerStep(i)) && s.workers[i].Run?
    ensures FateInv(After(s, WorkerStep(i)))
  {
    var s' := After(s, WorkerStep(i));
    assert Hand(s'.workers[i]) == -1;
    var r := s.workers[i].task;
    forall t: nat
      ensures Settled(s', t) == if t < FirstQueued(s') && !Carried(s', t) then 1 else 0
    {
      if t == r {
        assert Carried(s, t) && !Carried(s', t);
      } else {
        CarriedElsewhere(s, s', i, t);
        assert Settled(s', t) == Settled(s, t);
      }
    }
  }

  lemma FateDiscard(s: State)
    requires QueueInv(s) && FateInv(s) && Enabled(s, StopStep) && s.sh.queue != []
    requires s.stopper.EarlyPop? || s.stopper.FinalPop?
    ensures FateInv(After(s, StopStep))
  {
    var s' := After(s, StopStep);
    assert FirstQueued(s') == FirstQueued(s) + 1 && s.sh.queue[0] == FirstQueued(s);
    forall t: nat
      ensures Settled(s', t) == if t < FirstQueued(s') && !Carried(s', t) then 1 else 0
    {
      assert Carried(s, t) <==> Carried(s', t);
      assert Settled(s', t) == Settled(s, t) + if t == FirstQueued(s) then 1 else 0;
    }
  }

  lemma FateWorker(s: State, i: nat)
    requires QueueInv(s) && FateInv(s) && Enabled(s, WorkerStep(i))
    ensures FateInv(After(s, WorkerStep(i)))
  {
    if s.workers[i].Run? {
      FateRun(s, i);
    } else if s.sh.queue != []
      && (s.workers[i].FirstPop? || s.workers[i].RetryPop? || s.workers[i].Predicate?) {
      FatePop(s, i);
    } else {
      FateKeep(s, After(s, WorkerStep(i)));
    }
  }

  // Apart from clearing, `stop` touches no task.
  lemma StopKeepsHands(s: State)
    requires Enabled(s, StopStep)
    requires s.sh.queue == [] || !(s.stopper.EarlyPop? || s.stopper.FinalPop?)
    ensures var s' := After(s, StopStep);
      && |s'.workers| == |s.workers| && FirstQueued(s') == FirstQueued(s)
      && s'.sh.ran == s.sh.ran && s'.sh.discarded == s.sh.discarded
    ensures forall i :: 0 <= i < |s.workers| ==> Hand(After(s, StopStep).workers[i]) == Hand(s.workers[i])
  {
  }

  lemma FateStop(s: State)
    requires QueueInv(s) && FateInv(s) && Enabled(s, StopStep)
    ensures FateInv(After(s, StopStep))
  {
    if s.sh.queue != [] && (s.stopper.EarlyPop? || s.stopper.FinalPop?) {
      FateDiscard(s);
    } else {
      StopKeepsHands(s);
      FateKeep(s, After(s, StopStep));
    }
  }

  lemma SubmitKeepsHands(s: State, i: nat, wake: nat)
    requires Enabled(s, SubmitStep(i, wake))
    ensures var s' := After(s, SubmitStep(i, wake));
      && |s'.workers| == |s.workers| && FirstQueued(s') == FirstQueued(s)
      && s'.sh.ran == s.sh.ran && s'.sh.discarded == s.sh.discarded
    ensures var s' := After(s, SubmitStep(i, wake));
      forall j :: 0 <= j < |s.workers| ==> Hand(s'.workers[j]) == Hand(s.workers[j])
  {
  }

  lemma FateStep(s: State, e: Step)
    requires QueueInv(s) && FateInv(s) && Enabled(s, e)
    ensures FateInv(After(s, e))
  {
    match e
    case WorkerStep(i) => FateWorker(s, i);
    case Spurious(_) => FateKeep(s, After(s, e));
    case SubmitCall(_, _) => FateKeep(s, After(s, e));
    case SubmitStep(i, wake) =>
      SubmitKeepsHands(s, i, wake);
      FateKeep(s, After(s, e));
    case StopStep => FateStop(s);
  }
}
