/**
 The reactor thread, the pool workers and the completion path between them: a worker pushes
 its completion on the done queue and then writes the eventfd; the reactor is told by an
 edge-triggered epoll, empties the eventfd and then the queue.
 */
module ProxyServer {
  import opened ReactorTables
  import opened Runs

  datatype ProxyJob = ProxyJob(id: nat, fd: int, isConnect: bool)

  datatype Completion = Completion(job: ProxyJob, ev: DoneEvent)

  datatype ReactorPc =
    | Looping      // between events
    | Announcing   // a saturated submission has queued its completion, the eventfd write is next
    | Reading      // draining: emptying the eventfd
    | Draining     // draining: emptying the done queue

  // The largest value an eventfd counter can hold.
  const EVENTFD_MAX: nat := 0xFFFF_FFFF_FFFF_FFFE

  datatype State = State(
    t: Tables,
    pc: ReactorPc,
    pool: seq<ProxyJob>,            // accepted by a pool, not started
    running: multiset<ProxyJob>,
    notifying: nat,                 // workers between queue push and eventfd write
    done: seq<Completion>,
    counter: nat,
    edge: bool,                     // epoll has an unreported edge of the eventfd
    batch: bool,                    // reported to the reactor, not yet handled
    submitted: seq<ProxyJob>,
    drained: seq<Completion>
  )

  datatype Step =
    | Accept(fd: int, setupOk: bool)
    | Client(fd: int, ev: ClientEvent, k: FlushAnswer, r: ReadAnswer, poolTakes: bool, errorReply: string)
    | Timeout(fd: int)
    | WriteOwn
    | EpollReports
    | BeginDrain
    | ReadCounter
    | DrainStep(k: FlushAnswer)
    | Start(i: nat)
    | Finish(job: ProxyJob, ok: bool, response: string, expectedShutdown: bool, errorReply: string)
    | WriteWorker

  ghost predicate Init(s: State) {
    s == State(Tables(map[], {}, {}, {}, {}, []), Looping, [], multiset{}, 0, [], 0, false, false, [], [])
  }

  predicate Enabled(s: State, e: Step) {
    match e
    case Accept(fd, _) => s.pc.Looping? && fd !in s.t.conns
    case Client(_, _, _, _, _, _) => s.pc.Looping?
    case Timeout(fd) => s.pc.Looping? && fd in s.t.timers
    case WriteOwn => s.pc.Announcing?
    case EpollReports => s.pc.Looping? && s.edge
    case BeginDrain => s.pc.Looping? && s.batch
    case ReadCounter => s.pc.Reading?
    case DrainStep(_) => s.pc.Draining?
    case Start(i) => i < |s.pool|
    case Finish(job, _, _, _, _) => job in s.running
    case WriteWorker => s.notifying > 0
  }

  // A write to a full eventfd is refused and raises no edge.
  function WriteEventFd(s: State): State {
    if s.counter < EVENTFD_MAX then s.(counter := s.counter + 1, edge := true) else s
  }

  // submit_proxy_job, up to the eventfd write of the saturated path.
  function Submit(s: State, fd: int, isConnect: bool, poolTakes: bool, errorReply: string): State {
    var job := ProxyJob(|s.submitted|, fd, isConnect);
    var s1 := s.(submitted := s.submitted + [job]);
    if poolTakes then s1.(pool := s.pool + [job])
    else s1.(pc := Announcing,
             done := s.done + [Completion(job, DoneEvent(fd, false, "", true, isConnect, false, errorReply))])
  }

  function After(s: State, e: Step): State
    requires Enabled(s, e)
  {
    match e
    case Accept(fd, setupOk) => s.(t := OnAccept(s.t, fd, setupOk))
    case Client(fd, ev, k, r, poolTakes, errorReply) =>
      var (t, job) := OnClient(s.t, fd, ev, k, r);
      if job.NoJob? then s.(t := t)
      else Submit(s.(t := t), fd, job.isConnect, poolTakes, errorReply)
    case Timeout(fd) => s.(t := OnTimeout(s.t, fd))
    case WriteOwn => WriteEventFd(s).(pc := Looping)
    case EpollReports => s.(edge := false, batch := true)
    case BeginDrain => s.(batch := false, pc := Reading)
    case ReadCounter => if s.counter > 0 then s.(counter := 0) else s.(pc := Draining)
    case DrainStep(k) =>
      if s.done == [] then s.(pc := Looping)
      else s.(t := DrainOne(s.t, s.done[0].ev, k), done := s.done[1..],
              drained := s.drained + [s.done[0]])
    case Start(i) =>
      s.(pool := s.pool[..i] + s.pool[i + 1..], running := s.running + multiset{s.pool[i]})
    case Finish(job, ok, response, expectedShutdown, errorReply) =>
      s.(running := s.running - multiset{job}, notifying := s.notifying + 1,
         done := s.done + [Completion(job,
           DoneEvent(job.fd, ok, response, true, job.isConnect, expectedShutdown, errorReply))])
    case WriteWorker => WriteEventFd(s).(notifying := s.notifying - 1)
  }

  ghost predicate Next(s: State, s': State) {
    exists e :: Enabled(s, e) && s' == After(s, e)
  }

  ghost predicate IsRun(run: seq<State>) {
    RunOf(run, Init, Next)
  }

  // ----- Tables and completions in step -----

  ghost predicate EventInv(s: State) {
    && TableInv(s.t)
    && forall i :: 0 <= i < |s.done| ==>
         s.done[i].ev.fd == s.done[i].job.fd && s.done[i].ev.closeAfterDone
  }

  lemma EventStep(s: State, e: Step)
    requires EventInv(s) && Enabled(s, e)
    ensures EventInv(After(s, e))
  {
    match e
    case Accept(fd, setupOk) => OnAcceptKeeps(s.t, fd, setupOk);
    case Client(fd, ev, k, r, _, _) => OnClientKeeps(s.t, fd, ev, k, r);
    case Timeout(fd) => OnTimeoutKeeps(s.t, fd);
    case DrainStep(k) => if s.done != [] { DrainOneKeeps(s.t, s.done[0].ev, k); }
    case _ =>
  }

  // ----- No completion is lost -----

  ghost predicate WakeInv(s: State) {
    && (s.counter > 0 ==> s.edge || s.batch || s.pc.Reading?)
    && (s.done != [] && s.pc.Looping? ==> s.notifying > 0 || s.counter > 0)
  }

  lemma WakeStep(s: State, e: Step)
    requires WakeInv(s) && Enabled(s, e)
    ensures WakeInv(After(s, e))
  {
  }

  // ----- Every submission is in exactly one place -----

  function Jobs(done: seq<Completion>): (r: seq<ProxyJob>)
    ensures |r| == |done|
    ensures forall i :: 0 <= i < |done| ==> r[i] == done[i].job
  {
    seq(|done|, i requires 0 <= i < |done| => done[i].job)
  }

  function Outstanding(s: State): multiset<ProxyJob> {
    multiset(s.pool) + s.running + multiset(Jobs(s.done))
  }

  ghost predicate JobInv(s: State) {
    && (forall i :: 0 <= i < |s.submitted| ==> s.submitted[i].id == i)
    && multiset(s.submitted) == Outstanding(s) + multiset(Jobs(s.drained))
  }

  lemma OneLess(jobs: seq<ProxyJob>, i: nat)
    requires i < |jobs|
    ensures multiset(jobs) == multiset(jobs[..i] + jobs[i + 1..]) + multiset{jobs[i]}
  {
    assert jobs == jobs[..i] + [jobs[i]] + jobs[i + 1..];
  }

  lemma MovesOver(a: multiset<ProxyJob>, b: multiset<ProxyJob>, x: ProxyJob)
    ensures (a + multiset{x}) + b == a + (b + multiset{x})
  {
  }

  lemma StartMoves(s: State, i: nat)
    requires i < |s.pool|
    ensures Outstanding(After(s, Start(i))) == Outstanding(s)
  {
    OneLess(s.pool, i);
    MovesOver(multiset(s.pool[..i] + s.pool[i + 1..]), s.running, s.pool[i]);
  }

  lemma FinishMoves(s: State, e: Step)
    requires e.Finish? && Enabled(s, e)
    ensures Outstanding(After(s, e)) == Outstanding(s)
  {
    assert Jobs(After(s, e).done) == Jobs(s.done) + [e.job];
  }

  lemma DrainTakes(s: State, k: FlushAnswer)
    requires Enabled(s, DrainStep(k)) && s.done != []
    ensures Outstanding(s) == Outstanding(After(s, DrainStep(k))) + multiset{s.done[0].job}
  {
    assert Jobs(s.done) == [s.done[0].job] + Jobs(s.done[1..]);
  }

  lemma SubmitAdds(s: State, fd: int, isConnect: bool, poolTakes: bool, errorReply: string)
    ensures var s' := Submit(s, fd, isConnect, poolTakes, errorReply);
      Outstanding(s') == Outstanding(s) + multiset{ProxyJob(|s.submitted|, fd, isConnect)}
  {
    var s' := Submit(s, fd, isConnect, poolTakes, errorReply);
    if !poolTakes {
      assert Jobs(s'.done) == Jobs(s.done) + [ProxyJob(|s.submitted|, fd, isConnect)];
    }
  }

  predicate SamePlaces(s: State, s': State) {
    && s'.pool == s.pool && s'.running == s.running && s'.done == s.done
    && s'.submitted == s.submitted && s'.drained == s.drained
  }

  lemma JobSame(s: State, s': State)
    requires JobInv(s) && Outstanding(s') == Outstanding(s)
    requires s'.submitted == s.submitted && s'.drained == s.drained
    ensures JobInv(s')
  {
  }

  lemma JobSubmit(s: State, fd: int, isConnect: bool, poolTakes: bool, errorReply: string)
    requires JobInv(s)
    ensures JobInv(Submit(s, fd, isConnect, poolTakes, errorReply))
  {
    SubmitAdds(s, fd, isConnect, poolTakes, errorReply);
  }

  lemma JobClient(s: State, e: Step)
    requires JobInv(s) && e.Client? && Enabled(s, e)
    ensures JobInv(After(s, e))
  {
    var (t, job) := OnClient(s.t, e.fd, e.ev, e.k, e.r);
    var s1 := s.(t := t);
    JobSame(s, s1);
    if job.Job? {
      JobSubmit(s1, e.fd, job.isConnect, e.poolTakes, e.errorReply);
    }
  }

  lemma JobDrain(s: State, k: FlushAnswer)
    requires JobInv(s) && Enabled(s, DrainStep(k))
    ensures JobInv(After(s, DrainStep(k)))
  {
    if s.done != [] {
      DrainTakes(s, k);
      assert Jobs(s.drained + [s.done[0]]) == Jobs(s.drained) + [s.done[0].job];
    } else {
      JobSame(s, After(s, DrainStep(k)));
    }
  }

  lemma JobStep(s: State, e: Step)
    requires JobInv(s) && Enabled(s, e)
    ensures JobInv(After(s, e))
  {
    match e
    case Client(_, _, _, _, _, _) => JobClient(s, e);
    case DrainStep(k) => JobDrain(s, k);
    case Start(i) => StartMoves(s, i); JobSame(s, After(s, e));
    case Finish(_, _, _, _, _) => FinishMoves(s, e); JobSame(s, After(s, e));
    case _ => assert SamePlaces(s, After(s, e)); JobSame(s, After(s, e));
  }
}
