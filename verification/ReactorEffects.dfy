/** What each handler means for the connection it is about, and that it leaves every other alone. */
module ReactorEffects {
  import opened Basics
  import opened ReactorTables

  ghost predicate SameFor(t: Tables, t': Tables, g: int) {
    && (g in t.conns <==> g in t'.conns)
    && (g in t.conns ==> t'.conns[g] == t.conns[g])
    && (g in t.inflight <==> g in t'.inflight)
    && (g in t.closing <==> g in t'.closing)
    && (g in t.timers <==> g in t'.timers)
    && (g in t.wantWrite <==> g in t'.wantWrite)
  }

  ghost predicate OthersKept(t: Tables, t': Tables, fd: int) {
    forall g :: g != fd ==> SameFor(t, t', g)
  }

  // The connection is open, with this much queued, and no connection was closed.
  ghost predicate Open(t: Tables, t': Tables, fd: int, queued: string) {
    fd in t'.conns && t'.conns[fd].queued == queued && t'.closed == t.closed
  }

  // The connection is gone without a trace but the last close, for this reason and with this much queued.
  ghost predicate Gone(t: Tables, t': Tables, fd: int, why: Why, queued: string) {
    && fd !in t'.conns && fd !in t'.inflight && fd !in t'.closing && fd !in t'.timers && fd !in t'.wantWrite
    && |t'.closed| == |t.closed| + 1 && t.closed <= t'.closed
    && var last := t'.closed[|t.closed|];
       last.fd == fd && last.why == why && last.conn.queued == queued
  }

  // The reply that a completion owes to its client.
  function Owed(ev: DoneEvent): string {
    if ev.ok then ev.response
    else if ev.isConnect && ev.expectedShutdown then ""
    else ev.errorReply
  }

  // All that is queued has been accepted, or the socket stopped before that.
  predicate AllOut(c: Conn, queued: string, k: FlushAnswer) {
    |c.sent| + k.accepted >= |queued|
  }

  predicate FlushFails(c: Conn, queued: string, k: FlushAnswer) {
    !k.modifyOk || (k.error && !AllOut(c, queued, k))
  }

  // ----- Completions -----

  // The reply, and nothing else, is queued for the connection and for no other, and its job is over.
  ghost predicate Delivered(t: Tables, ev: DoneEvent, t': Tables) {
    if ev.fd !in t.conns then t' == t
    else
      && OthersKept(t, t', ev.fd) && ev.fd !in t'.inflight
      && var queued := t.conns[ev.fd].queued + Owed(ev);
         Open(t, t', ev.fd, queued) || exists why :: Gone(t, t', ev.fd, why, queued)
  }

  // What becomes of the connection.
  ghost predicate Fate(t: Tables, ev: DoneEvent, k: FlushAnswer, t': Tables)
    requires ev.fd in t.conns
  {
    var c := t.conns[ev.fd];
    var queued := c.queued + Owed(ev);
    if !ev.ok && ev.isConnect && ev.expectedShutdown then Gone(t, t', ev.fd, TunnelOver, queued)
    else if FlushFails(c, queued, k) then Gone(t, t', ev.fd, FlushFailed, queued)
    else if !AllOut(c, queued, k) then
      && Open(t, t', ev.fd, queued) && ev.fd in t'.wantWrite
      && (!ev.ok || ev.closeAfterDone ==> ev.fd in t'.closing)
    else if !ev.ok then Gone(t, t', ev.fd, ErrorReplied, queued)
    else if ev.closeAfterDone then Gone(t, t', ev.fd, Replied, queued)
    else Open(t, t', ev.fd, queued) && ev.fd in t'.timers
  }

  lemma CloseOthers(t: Tables, fd: int, why: Why)
    ensures OthersKept(t, Close(t, fd, why), fd)
  {
    forall g | g != fd ensures SameFor(t, Close(t, fd, why), g) {
    }
  }

  lemma FlushOthers(t: Tables, fd: int, k: FlushAnswer)
    ensures OthersKept(t, Flush(t, fd, k).0, fd)
  {
    forall g | g != fd ensures SameFor(t, Flush(t, fd, k).0, g) {
    }
  }

  lemma ThroughBoth(t: Tables, t1: Tables, t': Tables, fd: int)
    requires OthersKept(t, t1, fd) && OthersKept(t1, t', fd)
    ensures OthersKept(t, t', fd)
  {
    forall g | g != fd ensures SameFor(t, t', g) {
      assert SameFor(t, t1, g) && SameFor(t1, t', g);
    }
  }

  lemma CompletionOthers(t: Tables, ev: DoneEvent, k: FlushAnswer)
    ensures OthersKept(t, DrainOne(t, ev, k), ev.fd)
  {
    if ev.fd in t.conns {
      var t1 := t.(inflight := t.inflight - {ev.fd});
      CloseOthers(t1, ev.fd, TunnelOver);
      var t2 := Queue(t1, ev.fd, Owed(ev));
      var t3 := Flush(t2, ev.fd, k).0;
      FlushOthers(t2, ev.fd, k);
      forall why ensures OthersKept(t3, Close(t3, ev.fd, why), ev.fd) {
        CloseOthers(t3, ev.fd, why);
      }
      assert OthersKept(t, t1, ev.fd) && OthersKept(t1, t2, ev.fd);
      ThroughBoth(t, t1, t2, ev.fd);
      ThroughBoth(t, t2, t3, ev.fd);
      ThroughBoth(t, t3, DrainOne(t, ev, k), ev.fd);
    }
  }

  lemma CompletionFate(t: Tables, ev: DoneEvent, k: FlushAnswer)
    requires ev.fd in t.conns
    ensures Fate(t, ev, k, DrainOne(t, ev, k))
    ensures ev.fd !in DrainOne(t, ev, k).inflight
  {
  }

  /** A completion queues for its connection, and for no other, what it owes; what follows depends on the flush. */
  lemma CompletionEffect(t: Tables, ev: DoneEvent, k: FlushAnswer)
    ensures Delivered(t, ev, DrainOne(t, ev, k))
    ensures ev.fd in t.conns ==> Fate(t, ev, k, DrainOne(t, ev, k))
  {
    if ev.fd in t.conns {
      CompletionOthers(t, ev, k);
      CompletionFate(t, ev, k);
    }
  }

  // ----- Client events -----

  // Why the dispatch of a client event closes a live connection, if it does.
  function Ending(t: Tables, fd: int, ev: ClientEvent, k: FlushAnswer, r: ReadAnswer): Option<Why>
    requires fd in t.conns
  {
    var c := t.conns[fd];
    if ev.gone then Some(PeerGone)
    else if ev.writable && FlushFails(c, c.queued, k) then Some(FlushFailed)
    else if ev.writable && AllOut(c, c.queued, k) && fd in t.closing then Some(Deferred)
    else if ev.readable && fd !in t.inflight && (r.ReadError? || r.BadRequest?) then Some(RequestFailed)
    else None
  }

  // The bytes that the socket has accepted once it has taken what it takes.
  function Accepted(c: Conn, k: FlushAnswer): nat {
    if AllOut(c, c.queued, k) then |c.queued| else |c.sent| + k.accepted
  }

  ghost predicate Afterwards(t: Tables, t': Tables, fd: int, why: Option<Why>)
    requires fd in t.conns
  {
    match why
    case None => Open(t, t', fd, t.conns[fd].queued)
    case Some(y) => Gone(t, t', fd, y, t.conns[fd].queued)
  }

  lemma WritableOthers(t: Tables, fd: int, k: FlushAnswer)
    ensures OthersKept(t, OnWritable(t, fd, k).0, fd)
  {
    var t' := OnWritable(t, fd, k).0;
    forall g | g != fd ensures SameFor(t, t', g) {
    }
  }

  lemma WritableFate(t: Tables, fd: int, k: FlushAnswer)
    requires TableInv(t) && fd in t.conns
    ensures var (t', open) := OnWritable(t, fd, k);
      && Afterwards(t, t', fd, Ending(t, fd, ClientEvent(false, false, true), k, NothingYet))
      && (open <==> fd in t'.conns)
      && (open ==> |t'.conns[fd].sent| == Accepted(t.conns[fd], k) && t'.inflight == t.inflight)
  {
    assert ConnInv(t, fd);
  }

  lemma ReadableOthers(t: Tables, fd: int, r: ReadAnswer)
    ensures OthersKept(t, OnReadable(t, fd, r).0, fd)
  {
    var t' := OnReadable(t, fd, r).0;
    forall g | g != fd ensures SameFor(t, t', g) {
    }
  }

  lemma ReadableFate(t: Tables, fd: int, k: FlushAnswer, r: ReadAnswer)
    requires fd in t.conns
    ensures var (t', job) := OnReadable(t, fd, r);
      && Afterwards(t, t', fd, Ending(t, fd, ClientEvent(false, true, false), k, r))
      && (fd in t'.conns ==> t'.conns[fd] == t.conns[fd])
      && (job.Job? <==> fd in t'.conns && fd !in t.inflight && r.Complete?)
      && (job.Job? ==> job.isConnect == r.isConnect)
      && (fd in t'.inflight <==> fd in t'.conns && (job.Job? || fd in t.inflight))
  {
  }

  /**
   Dispatching a client event queues nothing and touches no other connection. It closes the
   connection exactly for the reasons above, and submits a job exactly if a complete request was
   read on a connection that stays open and has none.
   */
  lemma ClientEffect(t: Tables, fd: int, ev: ClientEvent, k: FlushAnswer, r: ReadAnswer)
    requires TableInv(t)
    ensures var (t', job) := OnClient(t, fd, ev, k, r);
      if fd !in t.conns then t' == t && job == NoJob
      else
        && OthersKept(t, t', fd)
        && Afterwards(t, t', fd, Ending(t, fd, ev, k, r))
        && (fd in t'.conns ==>
              |t'.conns[fd].sent| == if ev.writable then Accepted(t.conns[fd], k) else |t.conns[fd].sent|)
        && (job.Job? <==> fd in t'.conns && ev.readable && fd !in t.inflight && r.Complete?)
        && (job.Job? ==> job.isConnect == r.isConnect)
        && (fd in t'.inflight <==> fd in t'.conns && (job.Job? || fd in t.inflight))
        && (fd in t'.closing ==> fd in t.closing)
  {
    RefreshKeeps(t, fd);
    ClientOthers(t, fd, ev, k, r);
    if fd in t.conns && !ev.gone {
      var t1 := Written(t, fd, ev, k).0;
      if ev.writable {
        WritableFate(t, fd, k);
      }
      if fd in t1.conns {
        ReadableFate(t1, fd, k, r);
      }
    }
  }

  lemma ClientOthers(t: Tables, fd: int, ev: ClientEvent, k: FlushAnswer, r: ReadAnswer)
    requires TableInv(t)
    ensures OthersKept(t, OnClient(t, fd, ev, k, r).0, fd)
  {
    RefreshKeeps(t, fd);
    CloseOthers(t, fd, PeerGone);
    var t1 := Written(t, fd, ev, k).0;
    WritableOthers(t, fd, k);
    ReadableOthers(t1, fd, r);
    assert OthersKept(t, t1, fd);
    ThroughBoth(t, t1, OnReadable(t1, fd, r).0, fd);
  }

  // ----- Accepts and timeouts -----

  /** An accepted descriptor becomes a live connection, with a timer and nothing queued, exactly if it is usable. */
  lemma AcceptEffect(t: Tables, fd: int, setupOk: bool)
    requires TableInv(t) && fd !in t.conns
    ensures var t' := OnAccept(t, fd, setupOk);
      && OthersKept(t, t', fd)
      && (if setupOk && 0 <= fd < MAX_FD
          then Open(t, t', fd, "") && !Pending(t'.conns[fd]) && fd in t'.timers && fd !in t'.inflight
          else t' == t)
  {
    var t' := OnAccept(t, fd, setupOk);
    forall g | g != fd ensures SameFor(t, t', g) {
    }
  }

  /** An expired timer closes its connection as it is; a timer without a connection changes nothing. */
  lemma TimeoutEffect(t: Tables, fd: int)
    requires TableInv(t)
    ensures var t' := OnTimeout(t, fd);
      && OthersKept(t, t', fd)
      && (if fd in t.conns then Gone(t, t', fd, IdleTimeout, t.conns[fd].queued) else t' == t)
  {
    var t' := OnTimeout(t, fd);
    forall g | g != fd ensures SameFor(t, t', g) {
    }
    if fd !in t.conns {
      assert t.timers - {fd} == t.timers;
    }
  }
}
