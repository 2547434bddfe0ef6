/** What the callers of `push` and `try_push` see. */
module ThreadPoolCalls {
  import opened Basics
  import opened Counting
  import opened Runs
  import opened ThreadPool

  predicate Busy(pc: SubmitPc) {
    !pc.Idle?
  }

  // Its task is in the queue, or was, and the call has not returned yet.
  predicate Carrying(pc: SubmitPc) {
    pc.AddCount? || pc.Notify? || (pc.Release? && pc.ok)
  }

  // The call waits, or is about to, until the queue has room.
  predicate Waiting(pc: SubmitPc) {
    pc.FullStopped? || pc.FullDone? || pc.Parked?
  }

  ghost predicate ModeInv(s: State) {
    && |s.modes| == |s.submitters|
    && forall i :: 0 <= i < |s.submitters| ==>
         && (Waiting(s.submitters[i]) ==> s.modes[i])
         && (s.submitters[i].LoadCount? ==> s.submitters[i].blocking == s.modes[i])
  }

  ghost predicate CallInv(s: State) {
    && s.sh.calls.begun == s.sh.calls.taken + s.sh.calls.refused + CountIf(s.submitters, Busy)
    && s.sh.accepted == s.sh.calls.taken + CountIf(s.submitters, Carrying)
  }

  // One step of a submitter moves its call between the accounts.
  lemma SubmitLocal(pc: SubmitPc, sh: Shared, i: nat, maxQueue: nat)
    requires !pc.Idle?
    ensures var (pc', sh') := SubmitMove(pc, sh, i, maxQueue);
      && sh'.calls.begun == sh.calls.begun
      && sh'.calls.taken + sh'.calls.refused + One(Busy(pc')) == sh.calls.taken + sh.calls.refused + One(Busy(pc))
      && sh'.accepted + sh.calls.taken + One(Carrying(pc)) == sh.accepted + sh'.calls.taken + One(Carrying(pc'))
  {
  }

  lemma CallSubmit(s: State, i: nat, wake: nat)
    requires CallInv(s) && Enabled(s, SubmitStep(i, wake))
    ensures CallInv(After(s, SubmitStep(i, wake)))
  {
    var (pc, sh) := SubmitMove(s.submitters[i], s.sh, i, s.maxQueue);
    SubmitLocal(s.submitters[i], s.sh, i, s.maxQueue);
    CountUpdate(s.submitters, i, pc, Busy);
    CountUpdate(s.submitters, i, pc, Carrying);
    var s' := After(s, SubmitStep(i, wake));
    assert s'.submitters == s.submitters[i := pc] && s'.sh == sh;
  }

  lemma CallBegins(s: State, i: nat, blocking: bool)
    requires CallInv(s) && Enabled(s, SubmitCall(i, blocking))
    ensures CallInv(After(s, SubmitCall(i, blocking)))
  {
    CountUpdate(s.submitters, i, LoadCount(blocking), Busy);
    CountUpdate(s.submitters, i, LoadCount(blocking), Carrying);
  }

  lemma CallStep(s: State, e: Step)
    requires CallInv(s) && Enabled(s, e)
    ensures CallInv(After(s, e))
  {
    match e
    case SubmitCall(i, blocking) => CallBegins(s, i, blocking);
    case SubmitStep(i, wake) => CallSubmit(s, i, wake);
    case _ =>
      var s' := After(s, e);
      assert s'.submitters == s.submitters && s'.sh.calls == s.sh.calls && s'.sh.accepted == s.sh.accepted;
  }

  lemma ModeStep(s: State, e: Step)
    requires ModeInv(s) && Enabled(s, e)
    ensures ModeInv(After(s, e))
  {
    if e.SubmitStep? {
      var pc := SubmitMove(s.submitters[e.u], s.sh, e.u, s.maxQueue).0;
      assert Waiting(pc) ==> s.modes[e.u];
    } else if !e.SubmitCall? {
      assert After(s, e).submitters == s.submitters && After(s, e).modes == s.modes;
    }
  }

  ghost predicate Inv(s: State) {
    ModeInv(s) && CallInv(s)
  }

  lemma RunInv(run: seq<State>, k: nat)
    requires IsRun(run) && k < |run|
    ensures Inv(run[k])
  {
    forall s | Init(s) ensures Inv(s) {
      CountNone(s.submitters, Busy);
      CountNone(s.submitters, Carrying);
    }
    forall s, s' | Inv(s) && Next(s, s') ensures Inv(s') {
      var e :| Enabled(s, e) && s' == After(s, e);
      ModeStep(s, e);
      CallStep(s, e);
    }
    Invariant(run, Init, Next, Inv, k);
  }

  /** A call of `try_push` never waits for room. */
  lemma TryPushNeverWaits(run: seq<State>, k: nat, i: nat)
    requires IsRun(run) && k < |run| && i < |run[k].submitters|
    ensures |run[k].modes| == |run[k].submitters|
    ensures !run[k].modes[i] ==> !run[k].submitters[i].Parked?
  {
    RunInv(run, k);
  }

  /**
   Every call is under way, has returned with its task accepted or has been refused, and as
   many were accepted as calls have returned with a task or are about to.
   */
  lemma EveryCallCounts(run: seq<State>, k: nat)
    requires IsRun(run) && k < |run|
    ensures var s := run[k]; var c := s.sh.calls;
      && c.begun == c.taken + c.refused + CountIf(s.submitters, Busy)
      && s.sh.accepted == c.taken + CountIf(s.submitters, Carrying)
  {
    RunInv(run, k);
  }

  // The submitter's step decides that its call is refused.
  predicate Refuses(s: State, i: nat)
    requires i < |s.submitters| && !s.submitters[i].Idle?
  {
    SubmitMove(s.submitters[i], s.sh, i, s.maxQueue).0 == Release(false)
  }

  /** `try_push` is refused for a full counter or a stopping pool, `push` for a stopping pool only. */
  lemma RefusedForCause(run: seq<State>, k: nat, i: nat)
    requires IsRun(run) && k < |run| && i < |run[k].submitters| && !run[k].submitters[i].Idle?
    requires Refuses(run[k], i)
    ensures var s := run[k];
      || s.sh.isStopped || s.sh.isDone
      || (i < |s.modes| && !s.modes[i] && s.sh.count >= s.maxQueue)
  {
    RunInv(run, k);
  }
}
