/** `stop` returns after boundedly many steps of the workers and of itself. */
module ThreadPoolProgress {
  import opened Runs
  import opened ThreadPool
  import opened ThreadPoolSafety
  import opened ThreadPoolStop

  // How far a worker is from its exit when it finds no more tasks.
  function Rank(pc: WorkerPc): nat {
    match pc
    case Exited | Asleep => 0
    case ReturnEmpty => 1
    case LoadFlag => 2
    case LoadDone => 3
    case Predicate => 4
    case WantLock | Woken => 5
    case FirstPop | RetryPop => 6
    case AfterRun => 7
    case Run(_) => 8
    case Underflow(_) => 9
    case Popped(_) => 10
    case ReturnTask(_) => 11
  }

  function Ranks(ws: seq<WorkerPc>): nat {
    if ws == [] then 0 else Rank(ws[0]) + Ranks(ws[1..])
  }

  lemma {:induction false} RanksUpdate(ws: seq<WorkerPc>, i: nat, pc: WorkerPc)
    requires i < |ws|
    ensures Ranks(ws[i := pc]) + Rank(ws[i]) == Ranks(ws) + Rank(pc)
  {
    if i == 0 {
      assert ws[i := pc][1..] == ws[1..];
    } else {
      assert ws[i := pc][1..] == ws[1..][i - 1 := pc];
      RanksUpdate(ws[1..], i - 1, pc);
    }
  }

  function StopRank(pc: StopPc, n: nat): int {
    match pc
    case Unlock => n + 5
    case Join(k) => n - k + 4
    case FinalCount => 3
    case FinalFix => 2
    case FinalPop => 1
    case _ => 0
  }

  // One queued task costs the thread that takes it at most eight steps.
  function Measure(s: State): int {
    8 * |s.sh.queue| + Ranks(s.workers) + StopRank(s.stopper, |s.workers|)
  }

  lemma WorkerLowers(s: State, i: nat)
    requires Inv(s) && PastNotify(s.stopper) && Enabled(s, WorkerStep(i))
    ensures Measure(After(s, WorkerStep(i))) < Measure(s)
  {
    var (pc, sh) := WorkerMove(s.workers[i], s.sh, i, s.flags[i]);
    RanksUpdate(s.workers, i, pc);
    assert s.workers[i].LoadFlag? ==> s.flags[i];
  }

  lemma StopLowers(s: State)
    requires Inv(s) && PastNotify(s.stopper) && Enabled(s, StopStep)
    ensures Measure(After(s, StopStep)) < Measure(s)
  {
  }

  // The pool is closed and nobody sleeps, so submitters change neither the queue nor the workers.
  lemma OthersKeepMeasure(s: State, e: Step)
    requires Inv(s) && PastNotify(s.stopper) && Enabled(s, e) && !e.WorkerStep? && !e.StopStep?
    ensures Measure(After(s, e)) == Measure(s)
  {
  }

  // A step of a worker or of the stopper.
  ghost predicate Works(s: State, s': State) {
    exists e :: Enabled(s, e) && (e.WorkerStep? || e.StopStep?) && s' == After(s, e)
  }

  ghost predicate Ending(s: State) {
    Inv(s) && PastNotify(s.stopper)
  }

  lemma StaysPast(s: State, s': State)
    requires PastNotify(s.stopper) && Next(s, s')
    ensures PastNotify(s'.stopper)
  {
  }

  lemma NextLowers(s: State, s': State)
    requires Ending(s) && Next(s, s')
    ensures Ending(s')
    ensures Measure(s') + (if Works(s, s') then 1 else 0) <= Measure(s)
  {
    NextInv(s, s');
    StaysPast(s, s');
    if Works(s, s') {
      var e :| Enabled(s, e) && (e.WorkerStep? || e.StopStep?) && s' == After(s, e);
      if e.WorkerStep? {
        WorkerLowers(s, e.w);
      } else {
        StopLowers(s);
      }
    } else {
      var e :| Enabled(s, e) && s' == After(s, e);
      OthersKeepMeasure(s, e);
    }
  }

  lemma {:induction false} RanksBound(ws: seq<WorkerPc>)
    ensures Ranks(ws) <= 11 * |ws|
  {
    if ws != [] {
      RanksBound(ws[1..]);
    }
  }

  lemma MeasureBounds(s: State)
    requires Ending(s)
    ensures 0 <= Measure(s) <= 8 * |s.sh.queue| + 12 * |s.workers| + 5
  {
    RanksBound(s.workers);
  }

  /** From the stopper's notify_all on, workers and stopper take boundedly many steps, on every run. */
  lemma StopIsBounded(run: seq<State>, j: nat, k: nat)
    requires IsRun(run) && j <= k < |run| && PastNotify(run[j].stopper)
    ensures Steps(run, Works, j, k) <= 8 * |run[j].sh.queue| + 12 * |run[j].workers| + 5
  {
    RunInv(run, j);
    forall s, s' | Ending(s) && Next(s, s')
      ensures Ending(s') && Measure(s') + (if Works(s, s') then 1 else 0) <= Measure(s)
    {
      NextLowers(s, s');
    }
    Paid(run, Next, Ending, Works, Measure, j, k);
    MeasureBounds(run[j]);
    MeasureBounds(run[k]);
  }

  // ----- The stop flag -----

  // How many tasks a worker whose flag is set may still run.
  function TasksLeft(pc: WorkerPc): nat {
    if pc.AfterRun? || pc.Exited? || pc.ReturnEmpty? then 0 else 1
  }

  predicate Flagged(s: State, w: nat) {
    w < |s.workers| && |s.flags| == |s.workers| && s.flags[w]
  }

  predicate RunsTask(s: State, s': State, w: nat) {
    w < |s.workers| && w < |s'.workers| && s.workers[w].Run? && s'.workers[w].AfterRun?
  }

  function LeftAt(s: State, w: nat): int {
    if w < |s.workers| then TasksLeft(s.workers[w]) else 0
  }

  lemma FlaggedMove(pc: WorkerPc, sh: Shared, i: nat)
    requires !pc.Asleep? && !pc.Exited?
    ensures var pc' := WorkerMove(pc, sh, i, true).0;
      TasksLeft(pc') + (if pc.Run? && pc'.AfterRun? then 1 else 0) <= TasksLeft(pc)
  {
  }

  // Steps of other threads at most wake the worker.
  lemma FlaggedOthers(s: State, e: Step, w: nat)
    requires Flagged(s, w) && Enabled(s, e) && e != WorkerStep(w)
    ensures var s' := After(s, e);
      Flagged(s', w) && (s'.workers[w] == s.workers[w] || (s.workers[w].Asleep? && s'.workers[w] == Woken))
  {
  }

  lemma FlaggedStep(s: State, s': State, w: nat)
    requires Flagged(s, w) && Next(s, s')
    ensures Flagged(s', w)
    ensures LeftAt(s', w) + (if RunsTask(s, s', w) then 1 else 0) <= LeftAt(s, w)
  {
    var e :| Enabled(s, e) && s' == After(s, e);
    if e == WorkerStep(w) {
      FlaggedMove(s.workers[w], s.sh, w);
    } else {
      FlaggedOthers(s, e, w);
    }
  }

  /** Once its stop flag is set, a worker runs at most one more task, whatever is queued. */
  lemma AtMostOneMoreTask(run: seq<State>, w: nat, j: nat, k: nat)
    requires IsRun(run) && j <= k < |run| && Flagged(run[j], w)
    ensures Steps(run, (s, s') => RunsTask(s, s', w), j, k) <= 1
  {
    forall s, s' | Flagged(s, w) && Next(s, s')
      ensures Flagged(s', w) && LeftAt(s', w) + (if RunsTask(s, s', w) then 1 else 0) <= LeftAt(s, w)
    {
      FlaggedStep(s, s', w);
    }
    Paid(run, Next, s => Flagged(s, w), (s, s') => RunsTask(s, s', w), s => LeftAt(s, w), j, k);
  }

  /** Until `stop` has returned, the stopper, the worker it waits for or the holder of the mutex has a step. */
  lemma StopNeverStuck(run: seq<State>, k: nat) returns (e: Step)
    requires IsRun(run) && k < |run| && PastNotify(run[k].stopper) && !run[k].stopper.Returned?
    ensures Enabled(run[k], e)
    ensures e == StopStep || ByHolder(run[k], e)
         || (run[k].stopper.Join? && e == WorkerStep(run[k].stopper.next))
  {
    RunInv(run, k);
    var s := run[k];
    if s.stopper.Join? && s.stopper.next < |s.workers| && !s.workers[s.stopper.next].Exited? {
      e := JoinNeverStuck(run, k);
    } else {
      e := StopStep;
    }
  }
}
