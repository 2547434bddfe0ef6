/** Over whole runs: what a client was sent is what a worker reported for its descriptor. */
module ProxyServerReplies {
  import opened Basics
  import opened ReactorTables
  import opened ReactorEffects
  import opened Runs
  import opened ProxyServer
  import opened ProxyServerSafety

  predicate EndsIn(s: string, tail: string) {
    |tail| <= |s| && s[|s| - |tail|..] == tail
  }

  // The completion that a connection with these bytes queued is closed for.
  predicate Earned(ev: DoneEvent, why: Why, queued: string) {
    match why
    case Replied => ev.ok && EndsIn(queued, ev.response)
    case ErrorReplied => !ev.ok && EndsIn(queued, ev.errorReply)
    case _ => EndsIn(queued, if ev.ok then ev.response else ev.errorReply)
  }

  ghost predicate Answered(drained: seq<Completion>, fd: int, why: Why, queued: string) {
    exists i :: 0 <= i < |drained| && drained[i].job.fd == fd && Earned(drained[i].ev, why, queued)
  }

  lemma AnsweredStays(drained: seq<Completion>, c: Completion, fd: int, why: Why, queued: string)
    requires Answered(drained, fd, why, queued)
    ensures Answered(drained + [c], fd, why, queued)
  {
    var i :| 0 <= i < |drained| && drained[i].job.fd == fd && Earned(drained[i].ev, why, queued);
    assert (drained + [c])[i] == drained[i];
  }

  ghost predicate ClosingInv(t: Tables, drained: seq<Completion>) {
    forall fd :: fd in t.conns && fd in t.closing ==> Answered(drained, fd, Deferred, t.conns[fd].queued)
  }

  ghost predicate ClosedFor(drained: seq<Completion>, c: Closed) {
    Orderly(c.why) ==> Answered(drained, c.fd, c.why, c.conn.queued)
  }

  ghost predicate RepliedInv(closed: seq<Closed>, drained: seq<Completion>) {
    forall i :: 0 <= i < |closed| ==> ClosedFor(drained, closed[i])
  }

  ghost predicate ReplyInv(s: State) {
    ClosingInv(s.t, s.drained) && RepliedInv(s.t.closed, s.drained)
  }

  // ----- One handler -----

  lemma AcceptReplies(t: Tables, drained: seq<Completion>, fd: int, setupOk: bool)
    requires TableInv(t) && fd !in t.conns && ClosingInv(t, drained)
    ensures ClosingInv(OnAccept(t, fd, setupOk), drained) && OnAccept(t, fd, setupOk).closed == t.closed
  {
    AcceptEffect(t, fd, setupOk);
    var t' := OnAccept(t, fd, setupOk);
    forall g | g in t'.conns && g in t'.closing ensures Answered(drained, g, Deferred, t'.conns[g].queued) {
      assert g != fd && SameFor(t, t', g);
    }
  }

  // A handler that queues nothing for its connection, and closes it after a reply only if that is due.
  lemma QuietReplies(t: Tables, t': Tables, drained: seq<Completion>, fd: int)
    requires ClosingInv(t, drained) && RepliedInv(t.closed, drained)
    requires fd in t.conns && OthersKept(t, t', fd)
    requires fd in t'.closing ==> fd in t.closing
    requires Open(t, t', fd, t.conns[fd].queued)
          || exists why :: Gone(t, t', fd, why, t.conns[fd].queued)
                           && (Orderly(why) ==> why.Deferred? && fd in t.closing)
    ensures ClosingInv(t', drained) && RepliedInv(t'.closed, drained)
  {
    forall g | g in t'.conns && g in t'.closing ensures Answered(drained, g, Deferred, t'.conns[g].queued) {
      assert g != fd ==> SameFor(t, t', g);
    }
    forall i | 0 <= i < |t'.closed| ensures ClosedFor(drained, t'.closed[i]) {
      assert i < |t.closed| ==> ClosedFor(drained, t.closed[i]);
    }
  }

  lemma ClientReplies(t: Tables, drained: seq<Completion>, fd: int, ev: ClientEvent, k: FlushAnswer, r: ReadAnswer)
    requires TableInv(t) && ClosingInv(t, drained) && RepliedInv(t.closed, drained)
    ensures var t' := OnClient(t, fd, ev, k, r).0; ClosingInv(t', drained) && RepliedInv(t'.closed, drained)
  {
    ClientEffect(t, fd, ev, k, r);
    if fd in t.conns {
      var t' := OnClient(t, fd, ev, k, r).0;
      assert Ending(t, fd, ev, k, r).Some? ==> Gone(t, t', fd, Ending(t, fd, ev, k, r).value, t.conns[fd].queued);
      QuietReplies(t, t', drained, fd);
    }
  }

  lemma TimeoutReplies(t: Tables, drained: seq<Completion>, fd: int)
    requires TableInv(t) && ClosingInv(t, drained) && RepliedInv(t.closed, drained)
    ensures ClosingInv(OnTimeout(t, fd), drained) && RepliedInv(OnTimeout(t, fd).closed, drained)
  {
    TimeoutEffect(t, fd);
    if fd in t.conns {
      QuietReplies(t, OnTimeout(t, fd), drained, fd);
    }
  }

  lemma AppendEndsIn(s: string, tail: string)
    ensures EndsIn(s + tail, tail)
  {
  }

  // The connection of a drained completion ends in its reply, wherever it is now.
  lemma OwnReply(t: Tables, drained: seq<Completion>, c: Completion, k: FlushAnswer)
    requires c.ev.fd == c.job.fd && c.ev.fd in t.conns
    ensures var t', fd := DrainOne(t, c.ev, k), c.ev.fd;
      && (fd in t'.conns ==> t'.closed == t.closed)
      && (fd in t'.conns && fd in t'.closing ==> Answered(drained + [c], fd, Deferred, t'.conns[fd].queued))
      && (fd !in t'.conns ==> |t'.closed| == |t.closed| + 1 && t.closed <= t'.closed
                              && ClosedFor(drained + [c], t'.closed[|t.closed|]))
  {
    CompletionFate(t, c.ev, k);
    AppendEndsIn(t.conns[c.ev.fd].queued, c.ev.response);
    AppendEndsIn(t.conns[c.ev.fd].queued, c.ev.errorReply);
    assert (drained + [c])[|drained|] == c;
  }

  lemma DrainReplies(t: Tables, drained: seq<Completion>, c: Completion, k: FlushAnswer)
    requires c.ev.fd == c.job.fd && ClosingInv(t, drained) && RepliedInv(t.closed, drained)
    ensures var t' := DrainOne(t, c.ev, k);
      ClosingInv(t', drained + [c]) && RepliedInv(t'.closed, drained + [c])
  {
    var t', fd := DrainOne(t, c.ev, k), c.ev.fd;
    CompletionEffect(t, c.ev, k);
    if fd in t.conns {
      OwnReply(t, drained, c, k);
    }
    forall g | g in t'.conns && g in t'.closing
      ensures Answered(drained + [c], g, Deferred, t'.conns[g].queued)
    {
      if g != fd || fd !in t.conns {
        assert fd in t.conns ==> SameFor(t, t', g);
        AnsweredStays(drained, c, g, Deferred, t.conns[g].queued);
      }
    }
    forall i | 0 <= i < |t'.closed| ensures ClosedFor(drained + [c], t'.closed[i]) {
      if i < |t.closed| {
        assert ClosedFor(drained, t.closed[i]);
        if Orderly(t.closed[i].why) {
          AnsweredStays(drained, c, t.closed[i].fd, t.closed[i].why, t.closed[i].conn.queued);
        }
      }
    }
  }

  // ----- Every step -----

  lemma ReplyStep(s: State, e: Step)
    requires ReplyInv(s) && EventInv(s) && Enabled(s, e)
    ensures ReplyInv(After(s, e))
  {
    match e
    case Accept(fd, setupOk) => AcceptReplies(s.t, s.drained, fd, setupOk);
    case Client(fd, ev, k, r, _, _) => ClientReplies(s.t, s.drained, fd, ev, k, r);
    case Timeout(fd) => TimeoutReplies(s.t, s.drained, fd);
    case DrainStep(k) => if s.done != [] { DrainReplies(s.t, s.drained, s.done[0], k); }
    case _ =>
  }

  lemma {:induction false} RunReplies(run: seq<State>, k: nat)
    requires IsRun(run) && k < |run|
    ensures ReplyInv(run[k])
  {
    if k > 0 {
      RunReplies(run, k - 1);
      RunInv(run, k - 1);
      assert Next(run[k - 1], run[k]);
      var e :| Enabled(run[k - 1], e) && run[k] == After(run[k - 1], e);
      ReplyStep(run[k - 1], e);
    }
  }

  // ----- Where completions come from -----

  // Completions are drained in the order in which they were queued.
  function Completed(s: State): seq<Completion> {
    s.drained + s.done
  }

  // The step at which a worker, or a submission to a saturated pool, reports this completion.
  predicate Reports(e: Step, c: Completion) {
    match e
    case Finish(job, ok, response, expectedShutdown, errorReply) =>
      && c.job == job && c.ev.ok == ok && c.ev.response == response
      && c.ev.expectedShutdown == expectedShutdown && c.ev.errorReply == errorReply
    case Client(fd, _, _, _, poolTakes, errorReply) =>
      !poolTakes && c.job.fd == fd && !c.ev.ok && c.ev.errorReply == errorReply
    case _ => false
  }

  // The step adds no completion, or one that it reports.
  ghost predicate Grows(s: State, e: Step, s': State) {
    || Completed(s') == Completed(s)
    || exists c :: Completed(s') == Completed(s) + [c] && Reports(e, c)
  }

  lemma GrowsBy(s: State, e: Step, s': State, c: Completion)
    requires s'.drained == s.drained && s'.done == s.done + [c] && Reports(e, c)
    ensures Grows(s, e, s')
  {
    assert Completed(s') == Completed(s) + [c];
  }

  lemma SubmitGrows(s: State, e: Step, t: Tables, isConnect: bool)
    requires e.Client?
    ensures Grows(s, e, Submit(s.(t := t), e.fd, isConnect, e.poolTakes, e.errorReply))
  {
    var s' := Submit(s.(t := t), e.fd, isConnect, e.poolTakes, e.errorReply);
    if !e.poolTakes {
      GrowsBy(s, e, s', s'.done[|s.done|]);
    }
  }

  lemma CompletedStep(s: State, e: Step)
    requires Enabled(s, e)
    ensures Grows(s, e, After(s, e))
  {
    var s' := After(s, e);
    match e
    case Client(fd, ev, k, r, _, _) =>
      var (t, job) := OnClient(s.t, fd, ev, k, r);
      if job.Job? {
        SubmitGrows(s, e, t, job.isConnect);
      }
    case Finish(_, _, _, _, _) => GrowsBy(s, e, s', s'.done[|s.done|]);
    case DrainStep(_) => if s.done != [] { assert Completed(s') == Completed(s); }
    case _ =>
  }

  ghost predicate StepAt(run: seq<State>, j: nat, e: Step) {
    j + 1 < |run| && Enabled(run[j], e) && run[j + 1] == After(run[j], e)
  }

  ghost predicate Reported(run: seq<State>, k: nat, c: Completion) {
    exists j: nat, e :: j < k && StepAt(run, j, e) && Reports(e, c)
  }

  lemma {:induction false} CompletionOrigin(run: seq<State>, k: nat, i: nat)
    requires IsRun(run) && k < |run| && i < |Completed(run[k])|
    ensures Reported(run, k, Completed(run[k])[i])
  {
    if k > 0 {
      assert Next(run[k - 1], run[k]);
      var e :| Enabled(run[k - 1], e) && run[k] == After(run[k - 1], e);
      assert StepAt(run, k - 1, e);
      CompletedStep(run[k - 1], e);
      if i < |Completed(run[k - 1])| {
        CompletionOrigin(run, k - 1, i);
        assert Completed(run[k])[i] == Completed(run[k - 1])[i];
        var j: nat, f :| j < k - 1 && StepAt(run, j, f) && Reports(f, Completed(run[k - 1])[i]);
        assert StepAt(run, j, f) && Reports(f, Completed(run[k])[i]);
      }
    }
  }

  /**
   A connection that is closed without an error, at once or deferred, has been sent all that was
   queued for it, and that ends in the reply of a completion reported earlier in the run for a job
   of its descriptor.
   */
  lemma OrderlyCloseIsReported(run: seq<State>, k: nat, i: nat) returns (c: Completion)
    requires IsRun(run) && k < |run| && i < |run[k].t.closed| && Orderly(run[k].t.closed[i].why)
    ensures var x := run[k].t.closed[i];
      && x.conn.sent == x.conn.queued
      && c.job.fd == x.fd && Earned(c.ev, x.why, x.conn.sent) && Reported(run, k, c)
  {
    var x := run[k].t.closed[i];
    OrderlyCloseDeliversAll(run, k, i);
    RunReplies(run, k);
    assert ClosedFor(run[k].drained, x);
    var d :| 0 <= d < |run[k].drained| && run[k].drained[d].job.fd == x.fd
             && Earned(run[k].drained[d].ev, x.why, x.conn.queued);
    c := run[k].drained[d];
    CompletionOrigin(run, k, d);
    assert Completed(run[k])[d] == c;
  }

  /** A connection closed as replied to was sent, last, the response that a worker reported for its descriptor. */
  lemma RepliedIsReported(run: seq<State>, k: nat, i: nat)
    requires IsRun(run) && k < |run| && i < |run[k].t.closed| && run[k].t.closed[i].why == Replied
    ensures var x := run[k].t.closed[i];
      exists j: nat, e :: j < k && StepAt(run, j, e)
        && e.Finish? && e.job.fd == x.fd && e.ok && EndsIn(x.conn.sent, e.response)
  {
    var c := OrderlyCloseIsReported(run, k, i);
    var j: nat, e :| j < k && StepAt(run, j, e) && Reports(e, c);
  }

  /** An error reply is one that a worker reported, or that a request to a saturated pool got. */
  lemma ErrorReplyIsReported(run: seq<State>, k: nat, i: nat)
    requires IsRun(run) && k < |run| && i < |run[k].t.closed| && run[k].t.closed[i].why == ErrorReplied
    ensures var x := run[k].t.closed[i];
      exists j: nat, e :: j < k && StepAt(run, j, e)
        && (if e.Finish? then e.job.fd == x.fd && !e.ok && EndsIn(x.conn.sent, e.errorReply)
            else e.Client? && e.fd == x.fd && !e.poolTakes && EndsIn(x.conn.sent, e.errorReply))
  {
    var c := OrderlyCloseIsReported(run, k, i);
    var j: nat, e :| j < k && StepAt(run, j, e) && Reports(e, c);
  }
}
