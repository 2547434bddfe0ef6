/**
 The worker pool as an interleaving of worker, submitter and stopper threads.

 One step is one access to shared memory. Steps that the source runs under
 `mtx` are separate steps whose program counters hold the mutex, so that every
 access made without the mutex (popping between tasks, the counter update after a
 pop, the stores of `is_done`, `is_stopped` and the stop flags) may fall between them.
 */
module ThreadPool {
  import opened Basics
  import opened Runs

  datatype WorkerPc =
    | FirstPop               // first unlocked try_pop
    | Popped(task: nat)      // owns a task that the counter still includes
    | Underflow(task: nat)   // fetch_sub returned 0, store(0) comes next
    | Run(task: nat)
    | AfterRun               // about to load the stop flag
    | RetryPop               // unlocked try_pop between tasks
    | WantLock
    | Predicate              // holds mtx, about to try_pop in the wait predicate
    | LoadDone               // holds mtx, the pop failed, about to load is_done
    | LoadFlag               // holds mtx, is_done was false, about to load the flag
    | Asleep                 // blocked in cv.wait
    | Woken                  // left the wait set, needs mtx to test the predicate again
    | ReturnTask(task: nat)  // wait returned with a task, still holds mtx
    | ReturnEmpty            // wait returned without a task, still holds mtx
    | Exited

  datatype SubmitPc =
    | Idle
    | LoadCount(blocking: bool)  // `push` waits when full, `try_push` gives up
    | FullStopped
    | FullDone
    | Parked                     // blocked in cv_not_full.wait
    | LoadStopped
    | LoadIsDone
    | Enqueue
    | AddCount                   // enqueued, fetch_add comes next
    | Notify
    | Release(ok: bool)          // about to unlock and return a future, or refuse

  datatype StopPc =
    | NotStopped
    | SetFlags(next: nat)
    | EarlyPop
    | EarlyCount
    | EarlyFix
    | WantMutex
    | NotifyAll
    | Unlock
    | Join(next: nat)
    | FinalPop
    | FinalCount
    | FinalFix
    | Returned

  datatype Owner = Nobody | ByWorker(w: nat) | BySubmitter(u: nat) | ByStopper

  // What all threads share. Tasks are numbered in the order in which they are accepted.
  datatype Shared = Shared(
    mtx: Owner,
    queue: seq<nat>,
    accepted: nat,
    count: nat,                // queued_task_count
    isDone: bool,
    isStopped: bool,
    ran: multiset<nat>,
    discarded: multiset<nat>,
    repaired: bool,            // the store(0) of on_task_dequeued has been executed
    calls: Calls
  )

  // The calls of push and try_push, and how those that have returned ended.
  datatype Calls = Calls(begun: nat, taken: nat, refused: nat)

  datatype State = State(
    workers: seq<WorkerPc>,
    flags: seq<bool>,          // one stop flag per worker
    submitters: seq<SubmitPc>,
    modes: seq<bool>,          // whether the last call of a submitter was the blocking `push`
    stopper: StopPc,
    graceful: bool,            // which mode the one call of `stop` uses
    maxQueue: nat,
    sh: Shared
  )

  datatype Step =
    | WorkerStep(w: nat)
    | Spurious(w: nat)
    | SubmitCall(u: nat, blocking: bool)
    | SubmitStep(u: nat, wake: nat)  // `wake` is the sleeper that notify_one picks
    | StopStep

  ghost predicate Init(s: State) {
    && (forall i :: 0 <= i < |s.workers| ==> s.workers[i] == FirstPop)
    && (forall i :: 0 <= i < |s.submitters| ==> s.submitters[i] == Idle)
    && |s.flags| == |s.workers| && |s.modes| == |s.submitters|
    && (forall i :: 0 <= i < |s.flags| ==> !s.flags[i])
    && s.stopper == NotStopped
    && 1 <= s.maxQueue < WORD
    && s.sh == Shared(Nobody, [], 0, 0, false, false, multiset{}, multiset{}, false, Calls(0, 0, 0))
  }

  predicate SomeAsleep(s: State) {
    exists i :: 0 <= i < |s.workers| && s.workers[i].Asleep?
  }

  predicate Enabled(s: State, e: Step) {
    |s.flags| == |s.workers| && |s.modes| == |s.submitters| &&
    match e
    case WorkerStep(i) =>
      i < |s.workers| && !s.workers[i].Asleep? && !s.workers[i].Exited? &&
      (s.workers[i].WantLock? || s.workers[i].Woken? ==> s.sh.mtx.Nobody?)
    case Spurious(i) =>
      i < |s.workers| && s.workers[i].Asleep?
    case SubmitCall(i, _) =>
      i < |s.submitters| && s.submitters[i].Idle? && s.sh.mtx.Nobody?
    case SubmitStep(i, wake) =>
      i < |s.submitters| && !s.submitters[i].Idle? &&
      (s.submitters[i].Parked? ==> s.sh.mtx.Nobody?) &&
      (s.submitters[i].Notify? && SomeAsleep(s) ==>
         wake < |s.workers| && s.workers[wake].Asleep?)
    case StopStep =>
      !s.stopper.Returned? &&
      (s.stopper.WantMutex? ==> s.sh.mtx.Nobody?) &&
      (s.stopper.Join? && s.stopper.next < |s.workers| ==> s.workers[s.stopper.next].Exited?)
  }

  function After(s: State, e: Step): State
    requires Enabled(s, e)
  {
    match e
    case WorkerStep(i) =>
      var (pc, sh) := WorkerMove(s.workers[i], s.sh, i, s.flags[i]);
      s.(workers := s.workers[i := pc], sh := sh)
    case Spurious(i) => s.(workers := s.workers[i := Woken])
    case SubmitCall(i, blocking) =>
      s.(submitters := s.submitters[i := LoadCount(blocking)], modes := s.modes[i := blocking],
         sh := s.sh.(mtx := BySubmitter(i), calls := s.sh.calls.(begun := s.sh.calls.begun + 1)))
    case SubmitStep(i, wake) =>
      var (pc, sh) := SubmitMove(s.submitters[i], s.sh, i, s.maxQueue);
      s.(submitters := s.submitters[i := pc], sh := sh,
         workers := if s.submitters[i].Notify? && SomeAsleep(s) then s.workers[wake := Woken]
                    else s.workers)
    case StopStep =>
      var (pc, sh) := StopMove(s.stopper, s.sh, s.graceful, |s.workers|);
      s.(stopper := pc, sh := sh,
         flags := if s.stopper.SetFlags? && s.stopper.next < |s.flags|
                  then s.flags[s.stopper.next := true] else s.flags,
         workers := if s.stopper.NotifyAll? then WakeAll(s.workers) else s.workers)
  }

  function Pop(sh: Shared): Shared
    requires sh.queue != []
  {
    sh.(queue := sh.queue[1..])
  }

  // The worker loop of `set_thread`, with `on_task_dequeued` inlined.
  function WorkerMove(pc: WorkerPc, sh: Shared, i: nat, flag: bool): (WorkerPc, Shared)
    requires !pc.Asleep? && !pc.Exited?
  {
    match pc
    case FirstPop | RetryPop =>
      if sh.queue != [] then (Popped(sh.queue[0]), Pop(sh)) else (WantLock, sh)
    case Popped(t) =>
      if sh.count == 0 then (Underflow(t), sh.(count := WORD - 1))
      else (Run(t), sh.(count := sh.count - 1))
    case Underflow(t) => (Run(t), sh.(count := 0, repaired := true))
    case Run(t) => (AfterRun, sh.(ran := sh.ran + multiset{t}))
    case AfterRun => (if flag then Exited else RetryPop, sh)
    case WantLock | Woken => (Predicate, sh.(mtx := ByWorker(i)))
    case Predicate =>
      if sh.queue != [] then (ReturnTask(sh.queue[0]), Pop(sh)) else (LoadDone, sh)
    case LoadDone => (if sh.isDone then ReturnEmpty else LoadFlag, sh)
    case LoadFlag => if flag then (ReturnEmpty, sh) else (Asleep, sh.(mtx := Nobody))
    case ReturnTask(t) => (Popped(t), sh.(mtx := Nobody))
    case ReturnEmpty => (Exited, sh.(mtx := Nobody))
  }

  // `push` and `try_push` after the mutex has been taken.
  function SubmitMove(pc: SubmitPc, sh: Shared, i: nat, maxQueue: nat): (SubmitPc, Shared)
    requires !pc.Idle?
  {
    match pc
    case LoadCount(blocking) =>
      (if sh.count < maxQueue then LoadStopped else if blocking then FullStopped else Release(false), sh)
    case FullStopped => (if sh.isStopped then Release(false) else FullDone, sh)
    case FullDone => if sh.isDone then (Release(false), sh) else (Parked, sh.(mtx := Nobody))
    case Parked => (LoadCount(true), sh.(mtx := BySubmitter(i)))
    case LoadStopped => (if sh.isStopped then Release(false) else LoadIsDone, sh)
    case LoadIsDone => (if sh.isDone then Release(false) else Enqueue, sh)
    case Enqueue =>
      (AddCount, sh.(queue := sh.queue + [sh.accepted], accepted := sh.accepted + 1))
    case AddCount => (Notify, sh.(count := (sh.count + 1) % WORD))
    case Notify => (Release(true), sh)
    case Release(ok) => (Idle, sh.(mtx := Nobody, calls := if ok then sh.calls.(taken := sh.calls.taken + 1)
                                                           else sh.calls.(refused := sh.calls.refused + 1)))
  }

  function WakeAll(ws: seq<WorkerPc>): (r: seq<WorkerPc>)
    ensures |r| == |ws|
    ensures forall i :: 0 <= i < |ws| ==> r[i] == if ws[i].Asleep? then Woken else ws[i]
  {
    seq(|ws|, i requires 0 <= i < |ws| => if ws[i].Asleep? then Woken else ws[i])
  }

  // `stop` for `n` workers, with `clear_queue` inlined twice.
  function StopMove(pc: StopPc, sh: Shared, graceful: bool, n: nat): (StopPc, Shared)
    requires !pc.Returned?
  {
    match pc
    case NotStopped =>
      if graceful then (WantMutex, sh.(isDone := true)) else (SetFlags(0), sh.(isStopped := true))
    case SetFlags(k) => (if k < n then SetFlags(k + 1) else EarlyPop, sh)
    case EarlyPop => if sh.queue != [] then (EarlyCount, Discard(sh)) else (WantMutex, sh)
    case EarlyCount =>
      if sh.count == 0 then (EarlyFix, sh.(count := WORD - 1))
      else (EarlyPop, sh.(count := sh.count - 1))
    case EarlyFix => (EarlyPop, sh.(count := 0, repaired := true))
    case WantMutex => (NotifyAll, sh.(mtx := ByStopper))
    case NotifyAll => (Unlock, sh)
    case Unlock => (Join(0), sh.(mtx := Nobody))
    case Join(k) => (if k < n then Join(k + 1) else FinalPop, sh)
    case FinalPop => if sh.queue != [] then (FinalCount, Discard(sh)) else (Returned, sh)
    case FinalCount =>
      if sh.count == 0 then (FinalFix, sh.(count := WORD - 1))
      else (FinalPop, sh.(count := sh.count - 1))
    case FinalFix => (FinalPop, sh.(count := 0, repaired := true))
  }

  function Discard(sh: Shared): Shared
    requires sh.queue != []
  {
    Pop(sh).(discarded := sh.discarded + multiset{sh.queue[0]})
  }

  ghost predicate Next(s: State, s': State) {
    exists e :: Enabled(s, e) && s' == After(s, e)
  }

  ghost predicate IsRun(run: seq<State>) {
    RunOf(run, Init, Next)
  }
}
