/** What every run of the server keeps, and exactly when the in-flight gate is sound. */
module ProxyServerSafety {
  import opened ReactorTables
  import opened Runs
  import opened ProxyServer

  ghost predicate Inv(s: State) {
    EventInv(s) && WakeInv(s) && JobInv(s)
  }

  lemma NextInv(s: State, s': State)
    requires Inv(s) && Next(s, s')
    ensures Inv(s')
  {
    var e :| Enabled(s, e) && s' == After(s, e);
    EventStep(s, e);
    WakeStep(s, e);
    JobStep(s, e);
  }

  lemma RunInv(run: seq<State>, k: nat)
    requires IsRun(run) && k < |run|
    ensures Inv(run[k])
  {
    forall s, s' | Inv(s) && Next(s, s') ensures Inv(s') {
      NextInv(s, s');
    }
    Invariant(run, Init, Next, Inv, k);
  }

  /** A timer per live connection, no stale flags, and a trigger for every deferred close. */
  lemma TablesStayInStep(run: seq<State>, k: nat)
    requires IsRun(run) && k < |run|
    ensures var t := run[k].t;
      && t.timers == t.conns.Keys
      && t.inflight <= t.conns.Keys && t.closing <= t.conns.Keys
      && forall fd :: fd in t.conns ==>
           && (fd in t.closing <==> fd in t.wantWrite)
           && (fd in t.closing <==> t.conns[fd].sent != t.conns[fd].queued)
  {
    RunInv(run, k);
    forall fd | fd in run[k].t.conns
      ensures (fd in run[k].t.closing <==> fd in run[k].t.wantWrite)
      ensures (fd in run[k].t.closing <==> run[k].t.conns[fd].sent != run[k].t.conns[fd].queued)
    {
      assert ConnInv(run[k].t, fd);
    }
  }

  /** A connection that is closed without an error has been sent everything queued for it. */
  lemma OrderlyCloseDeliversAll(run: seq<State>, k: nat, i: nat)
    requires IsRun(run) && k < |run| && i < |run[k].t.closed|
    ensures run[k].t.closed[i].conn.sent <= run[k].t.closed[i].conn.queued
    ensures Orderly(run[k].t.closed[i].why) ==>
      run[k].t.closed[i].conn.sent == run[k].t.closed[i].conn.queued
  {
    RunInv(run, k);
    assert ClosedInv(run[k].t.closed[i]);
  }

  /** While completions wait, the reactor has a wake-up pending or a worker is about to give one. */
  lemma NoLostCompletion(run: seq<State>, k: nat)
    requires IsRun(run) && k < |run| && run[k].pc.Looping? && run[k].done != []
    ensures run[k].notifying > 0 || (run[k].counter > 0 && (run[k].edge || run[k].batch))
  {
    RunInv(run, k);
  }

  lemma UniqueInSeq(s: seq<ProxyJob>, i: nat)
    requires i < |s| && forall j :: 0 <= j < |s| ==> s[j].id == j
    ensures multiset(s)[s[i]] == 1
  {
    assert s == s[..i] + [s[i]] + s[i + 1..];
    assert s[i] !in s[..i] && s[i] !in s[i + 1..];
  }

  /** Every submission is pooled, running, waiting as a completion or drained, exactly once. */
  lemma CompletesOnce(run: seq<State>, k: nat, i: nat)
    requires IsRun(run) && k < |run| && i < |run[k].submitted|
    ensures var s, job := run[k], run[k].submitted[i];
      multiset(s.pool)[job] + s.running[job] + multiset(Jobs(s.done))[job] + multiset(Jobs(s.drained))[job] == 1
  {
    RunInv(run, k);
    UniqueInSeq(run[k].submitted, i);
  }

  // ----- The in-flight gate -----

  ghost predicate HasJob(s: State, fd: int) {
    exists job :: job in Outstanding(s) && job.fd == fd
  }

  ghost predicate AtMostOneJob(s: State) {
    forall a, b :: a in Outstanding(s) && b in Outstanding(s) && a.fd == b.fd ==>
      a == b && Outstanding(s)[a] == 1
  }

  // proxy_inflight_[fd] is true exactly when one job for fd is outstanding, never two.
  ghost predicate Gate(s: State) {
    && (forall fd :: fd in s.t.inflight <==> HasJob(s, fd))
    && AtMostOneJob(s)
  }

  // The step closes a connection whose job is still outstanding.
  ghost predicate AbandonsJob(s: State, s': State) {
    exists fd :: fd in s.t.conns && fd !in s'.t.conns && HasJob(s', fd)
  }

  // How dispatching a client event changes the flags.
  lemma ClientFlags(t: Tables, fd: int, ev: ClientEvent, k: FlushAnswer, r: ReadAnswer)
    ensures var (t', job) := OnClient(t, fd, ev, k, r);
      if job.Job? then fd !in t.inflight && t'.inflight == t.inflight + {fd} && t'.conns.Keys == t.conns.Keys
      else t'.inflight == t.inflight || (t'.inflight == t.inflight - {fd} && fd !in t'.conns)
  {
  }

  lemma DrainFlags(t: Tables, ev: DoneEvent, k: FlushAnswer)
    requires ev.fd in t.conns
    ensures DrainOne(t, ev, k).inflight == t.inflight - {ev.fd}
  {
  }

  lemma GateSame(s: State, s': State)
    requires Gate(s) && Outstanding(s') == Outstanding(s) && s'.t.inflight == s.t.inflight
    ensures Gate(s')
  {
    forall fd ensures HasJob(s, fd) <==> HasJob(s', fd) {
    }
  }

  // Closing a connection keeps the gate if its job is not outstanding.
  lemma GateClose(s: State, s': State, fd: int)
    requires Gate(s) && TableInv(s.t) && Outstanding(s') == Outstanding(s)
    requires s'.t.inflight == s.t.inflight - {fd} && fd !in s'.t.conns
    requires !AbandonsJob(s, s')
    ensures Gate(s')
  {
    forall g ensures HasJob(s, g) <==> HasJob(s', g) {
    }
    assert fd in s.t.inflight ==> fd in s.t.conns;
  }

  lemma GateSubmit(s: State, s': State, job: ProxyJob)
    requires Gate(s) && JobInv(s') && Outstanding(s') == Outstanding(s) + multiset{job}
    requires job.fd !in s.t.inflight && s'.t.inflight == s.t.inflight + {job.fd}
    ensures Gate(s')
  {
    assert job in Outstanding(s');
    forall fd ensures fd in s'.t.inflight <==> HasJob(s', fd) {
      if fd == job.fd {
        assert HasJob(s', fd);
      } else {
        assert HasJob(s, fd) <==> HasJob(s', fd);
      }
    }
    assert forall a :: a in Outstanding(s) && a.fd == job.fd ==> HasJob(s, job.fd);
  }

  // With at most one job each, removing a job leaves its descriptor without one and the others as they were.
  lemma JobRemoved(s: State, s': State, job: ProxyJob, fd: int)
    requires AtMostOneJob(s) && Outstanding(s) == Outstanding(s') + multiset{job}
    ensures HasJob(s', fd) <==> HasJob(s, fd) && fd != job.fd
  {
    assert job in Outstanding(s);
    if a :| a in Outstanding(s') && a.fd == fd {
      assert a in Outstanding(s);
    }
    if fd != job.fd {
      if a :| a in Outstanding(s) && a.fd == fd {
        assert a in Outstanding(s');
      }
    }
  }

  lemma GateRemove(s: State, s': State, job: ProxyJob)
    requires Gate(s) && Outstanding(s) == Outstanding(s') + multiset{job}
    requires s'.t.inflight == s.t.inflight - {job.fd}
    ensures Gate(s')
  {
    forall fd ensures fd in s'.t.inflight <==> HasJob(s', fd) {
      JobRemoved(s, s', job, fd);
    }
    assert forall a :: a in Outstanding(s') ==> a in Outstanding(s);
  }

  lemma GateDrain(s: State, k: FlushAnswer)
    requires Gate(s) && EventInv(s) && Enabled(s, DrainStep(k)) && s.done != []
    ensures Gate(After(s, DrainStep(k)))
  {
    var job := s.done[0].job;
    DrainTakes(s, k);
    assert job in Outstanding(s);
    assert HasJob(s, job.fd);
    DrainFlags(s.t, s.done[0].ev, k);
    GateRemove(s, After(s, DrainStep(k)), job);
  }

  lemma GateClient(s: State, e: Step)
    requires Gate(s) && Inv(s) && e.Client? && Enabled(s, e) && !AbandonsJob(s, After(s, e))
    ensures Gate(After(s, e))
  {
    var s' := After(s, e);
    var (t, job) := OnClient(s.t, e.fd, e.ev, e.k, e.r);
    ClientFlags(s.t, e.fd, e.ev, e.k, e.r);
    if job.Job? {
      SubmitAdds(s.(t := t), e.fd, job.isConnect, e.poolTakes, e.errorReply);
      JobStep(s, e);
      GateSubmit(s, s', ProxyJob(|s.submitted|, e.fd, job.isConnect));
    } else if t.inflight == s.t.inflight {
      GateSame(s, s');
    } else {
      GateClose(s, s', e.fd);
    }
  }

  lemma GateQuiet(s: State, e: Step)
    requires Gate(s) && Enabled(s, e)
    requires !e.Client? && !e.Timeout? && !e.DrainStep? && !e.Start? && !e.Finish?
    ensures Gate(After(s, e))
  {
    assert SamePlaces(s, After(s, e));
    assert After(s, e).t.inflight == s.t.inflight;
    GateSame(s, After(s, e));
  }

  lemma GateMove(s: State, e: Step)
    requires Gate(s) && Enabled(s, e) && (e.Start? || e.Finish?)
    ensures Gate(After(s, e))
  {
    if e.Start? {
      StartMoves(s, e.i);
    } else {
      FinishMoves(s, e);
    }
    GateSame(s, After(s, e));
  }

  lemma GateStep(s: State, e: Step)
    requires Gate(s) && Inv(s) && Enabled(s, e) && !AbandonsJob(s, After(s, e))
    ensures Gate(After(s, e))
  {
    if e.Client? {
      GateClient(s, e);
    } else if e.Timeout? {
      GateClose(s, After(s, e), e.fd);
    } else if e.Start? || e.Finish? {
      GateMove(s, e);
    } else if e.DrainStep? && s.done != [] {
      GateDrain(s, e.k);
    } else if e.DrainStep? {
      GateSame(s, After(s, e));
    } else {
      GateQuiet(s, e);
    }
  }

  /** From a sound gate, a step keeps it sound exactly if it abandons no outstanding job. */
  lemma GateKeptExactly(s: State, s': State)
    requires Gate(s) && Inv(s) && Next(s, s')
    ensures Gate(s') <==> !AbandonsJob(s, s')
  {
    var e :| Enabled(s, e) && s' == After(s, e);
    if AbandonsJob(s, s') {
      NextInv(s, s');
    } else {
      GateStep(s, e);
    }
  }

  /** The gate is sound throughout a run exactly if the run abandons no outstanding job. */
  lemma GateSoundExactly(run: seq<State>, k: nat)
    requires IsRun(run) && k < |run|
    ensures (forall i :: 0 <= i <= k ==> Gate(run[i]))
       <==> (forall i :: 0 <= i < k ==> !AbandonsJob(run[i], run[i + 1]))
  {
    assert Outstanding(run[0]) == multiset{};
    forall i | 0 <= i < |run| ensures Inv(run[i]) {
      RunInv(run, i);
    }
    forall s, s' | Gate(s) && Inv(s) && Next(s, s') ensures Gate(s') <==> !AbandonsJob(s, s') {
      GateKeptExactly(s, s');
    }
    GoodExactly(run, Next, Inv, Gate, AbandonsJob, k);
  }

  // ----- Why the hypothesis is needed -----

  function Fresh(conns: map<int, Conn>, inflight: set<int>, closed: seq<Closed>, jobs: seq<ProxyJob>): State {
    State(Tables(conns, inflight, {}, conns.Keys, {}, closed), Looping, jobs, multiset{}, 0, [], 0,
          false, false, jobs, [])
  }

  const IDLE := Conn("", "")
  const REQUEST := Client(7, ClientEvent(false, true, false), FlushAnswer(0, false, true), Complete(false), true, "")
  const HANGUP := Client(7, ClientEvent(true, false, false), FlushAnswer(0, false, true), NothingYet, true, "")

  // A client on descriptor 7 connects and sends a request.
  lemma Ask(reach: State -> bool, jobs: seq<ProxyJob>, closed: seq<Closed>)
    requires Stays(reach, Next) && reach(Fresh(map[], {}, closed, jobs))
    ensures reach(Fresh(map[7 := IDLE], {7}, closed, jobs + [ProxyJob(|jobs|, 7, false)]))
  {
    var s := Fresh(map[], {}, closed, jobs);
    assert Enabled(s, Accept(7, true)) && Next(s, After(s, Accept(7, true)));
    assert After(s, Accept(7, true)) == Fresh(map[7 := IDLE], {}, closed, jobs);
    var t := Fresh(map[7 := IDLE], {}, closed, jobs);
    assert Enabled(t, REQUEST) && Next(t, After(t, REQUEST));
    assert After(t, REQUEST) == Fresh(map[7 := IDLE], {7}, closed, jobs + [ProxyJob(|jobs|, 7, false)]);
  }

  // It hangs up before the answer.
  lemma Leave(reach: State -> bool, jobs: seq<ProxyJob>)
    requires Stays(reach, Next) && reach(Fresh(map[7 := IDLE], {7}, [], jobs))
    ensures reach(Fresh(map[], {}, [Closed(7, PeerGone, IDLE)], jobs))
  {
    var s := Fresh(map[7 := IDLE], {7}, [], jobs);
    assert Enabled(s, HANGUP) && Next(s, After(s, HANGUP));
    assert After(s, HANGUP) == Fresh(map[], {}, [Closed(7, PeerGone, IDLE)], jobs);
  }

  /**
   A peer that hangs up and a new one on the same descriptor: two jobs are outstanding for it,
   so a completion can reach a connection that did not ask.
   */
  lemma ReusedDescriptorBreaksGate() returns (s: State)
    ensures Reachable(s, Init, Next)
    ensures exists a, b :: a in s.pool && b in s.pool && a != b && a.fd == b.fd
  {
    var first, second := ProxyJob(0, 7, false), ProxyJob(1, 7, false);
    var gone := Closed(7, PeerGone, IDLE);
    var reach := ReachableStays(Init, Next);
    assert Init(Fresh(map[], {}, [], []));
    Ask(reach, [], []);
    assert [] + [first] == [first];
    Leave(reach, [first]);
    Ask(reach, [first], [gone]);
    s := Fresh(map[7 := IDLE], {7}, [gone], [first] + [second]);
    assert first in s.pool && second in s.pool;
  }
}
