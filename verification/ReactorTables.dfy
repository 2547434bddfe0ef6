/**
 What each reactor handler does to the tables of the server, as a function of the tables and
 of the kernel's answers, and the invariant that every handler keeps.
 */
module ReactorTables {

  const MAX_FD: int := 65536

  // A connection is known by what was queued for it and what its socket has accepted.
  datatype Conn = Conn(queued: string, sent: string)

  predicate Pending(c: Conn) {
    c.sent != c.queued
  }

  datatype Why =
    | PeerGone          // EPOLLERR, EPOLLHUP or EPOLLRDHUP
    | FlushFailed
    | RequestFailed     // handle_client returned -1
    | IdleTimeout
    | TunnelOver        // a CONNECT job ended with an expected shutdown error
    | ErrorReplied      // a failed job, after its error reply was flushed
    | Replied           // a successful job, after its response was flushed
    | Deferred          // close_after_flush_, after the rest was flushed

  // These closes are not forced by an error, so nothing may be lost.
  predicate Orderly(why: Why) {
    why.ErrorReplied? || why.Replied? || why.Deferred?
  }

  datatype Closed = Closed(fd: int, why: Why, conn: Conn)

  datatype Tables = Tables(
    conns: map<int, Conn>,
    inflight: set<int>,       // proxy_inflight_
    closing: set<int>,        // close_after_flush_
    timers: set<int>,         // ids known to connection_timer_
    wantWrite: set<int>,      // fds registered with EPOLLOUT
    closed: seq<Closed>       // every close of a live connection so far
  )

  // ----- Handlers -----

  // How one flush_client_output ends: bytes accepted, then a send error or a modify result.
  datatype FlushAnswer = FlushAnswer(accepted: nat, error: bool, modifyOk: bool)

  datatype ReadAnswer = NothingYet | ReadError | BadRequest | Incomplete | Complete(isConnect: bool)

  datatype ClientEvent = ClientEvent(gone: bool, readable: bool, writable: bool)

  datatype DoneEvent = DoneEvent(
    fd: int, ok: bool, response: string, closeAfterDone: bool, isConnect: bool,
    expectedShutdown: bool,   // the error is one of the errnos of an ended tunnel
    errorReply: string)       // the 503 response for the error

  // Whether handle_client hands a request to a pool, and to which one.
  datatype Submission = NoJob | Job(isConnect: bool)

  function Close(t: Tables, fd: int, why: Why): Tables {
    t.(conns := t.conns - {fd}, inflight := t.inflight - {fd}, closing := t.closing - {fd},
       timers := t.timers - {fd}, wantWrite := t.wantWrite - {fd},
       closed := if fd in t.conns then t.closed + [Closed(fd, why, t.conns[fd])] else t.closed)
  }

  function Refresh(t: Tables, fd: int): Tables {
    if fd in t.conns then t.(timers := t.timers + {fd}) else t
  }

  // The socket accepts n more of the queued bytes, or what is left of them.
  function Send(c: Conn, n: nat): (r: Conn)
    ensures r.queued == c.queued && r.sent <= r.queued
    ensures c.sent <= c.queued ==> c.sent <= r.sent
  {
    var end := |c.sent| + n;
    c.(sent := if end < |c.queued| then c.queued[..end] else c.queued)
  }

  lemma SendPrefix(c: Conn, c': Conn)
    requires c.sent <= c'.sent <= c'.queued && c'.queued == c.queued
    ensures Send(c, |c'.sent| - |c.sent|) == c'
  {
  }

  // The end of flush_client_output, when `send` has taken what it takes.
  function Rearm(t: Tables, fd: int, k: FlushAnswer): (Tables, bool)
    requires fd in t.conns
  {
    if Pending(t.conns[fd]) then
      if k.error || !k.modifyOk then (t, false) else (t.(wantWrite := t.wantWrite + {fd}), true)
    else
      if k.modifyOk then (t.(wantWrite := t.wantWrite - {fd}), true) else (t, false)
  }

  function Flush(t: Tables, fd: int, k: FlushAnswer): (r: (Tables, bool))
    ensures r.0.conns.Keys == t.conns.Keys
  {
    if fd !in t.conns then (t, false)
    else Rearm(t.(conns := t.conns[fd := Send(t.conns[fd], k.accepted)]), fd, k)
  }

  function Queue(t: Tables, fd: int, data: string): Tables
    requires fd in t.conns
  {
    t.(conns := t.conns[fd := t.conns[fd].(queued := t.conns[fd].queued + data)])
  }

  // After a flush the connection closes now or when the rest is out.
  function Settle(t: Tables, fd: int, ok: bool, why: Why): Tables
    requires fd in t.conns
  {
    if !ok then Close(t, fd, FlushFailed)
    else if Pending(t.conns[fd]) then t.(closing := t.closing + {fd})
    else Close(t, fd, why)
  }

  function Reply(t: Tables, fd: int, data: string, k: FlushAnswer, why: Why): Tables
    requires fd in t.conns
  {
    var (t1, ok) := Flush(Queue(t, fd, data), fd, k);
    Settle(t1, fd, ok, why)
  }

  lemma ReplySettles(t: Tables, fd: int, data: string, k: FlushAnswer, why: Why, t1: Tables, ok: bool)
    requires fd in t.conns && (t1, ok) == Flush(Queue(t, fd, data), fd, k)
    ensures fd in t1.conns && Reply(t, fd, data, k, why) == Settle(t1, fd, ok, why)
  {
  }

  function ReplyAndKeep(t: Tables, fd: int, data: string, k: FlushAnswer): Tables
    requires fd in t.conns
  {
    var (t1, ok) := Flush(Queue(t, fd, data), fd, k);
    if !ok then Close(t1, fd, FlushFailed) else Refresh(t1, fd)
  }

  function DrainOne(t: Tables, ev: DoneEvent, k: FlushAnswer): Tables {
    if ev.fd !in t.conns then t
    else
      var t1 := t.(inflight := t.inflight - {ev.fd});
      if !ev.ok then
        if ev.isConnect && ev.expectedShutdown then Close(t1, ev.fd, TunnelOver)
        else Reply(t1, ev.fd, ev.errorReply, k, ErrorReplied)
      else if ev.closeAfterDone then Reply(t1, ev.fd, ev.response, k, Replied)
      else ReplyAndKeep(t1, ev.fd, ev.response, k)
  }

  // Draining a whole queue of completions, first in, first out.
  function DrainAll(t: Tables, evs: seq<DoneEvent>, ks: seq<FlushAnswer>): Tables
    requires |evs| == |ks|
  {
    if evs == [] then t
    else DrainOne(DrainAll(t, evs[..|evs| - 1], ks[..|ks| - 1]), evs[|evs| - 1], ks[|ks| - 1])
  }

  lemma DrainNext(t: Tables, evs: seq<DoneEvent>, ks: seq<FlushAnswer>, ev: DoneEvent, k: FlushAnswer)
    requires |evs| == |ks|
    ensures DrainAll(t, evs + [ev], ks + [k]) == DrainOne(DrainAll(t, evs, ks), ev, k)
  {
    assert (evs + [ev])[..|evs|] == evs && (ks + [k])[..|ks|] == ks;
  }

  function HandleClient(t: Tables, fd: int, r: ReadAnswer): (Tables, bool, Submission) {
    if fd !in t.conns then (t, false, NoJob)
    else if fd in t.inflight then (t, true, NoJob)
    else
      match r
      case ReadError | BadRequest => (t, false, NoJob)
      case NothingYet | Incomplete => (t, true, NoJob)
      case Complete(isConnect) => (t.(inflight := t.inflight + {fd}), true, Job(isConnect))
  }

  function OnReadable(t: Tables, fd: int, r: ReadAnswer): (Tables, Submission) {
    var (t1, ok, job) := HandleClient(t, fd, r);
    if ok then (t1, job) else (Close(t1, fd, RequestFailed), NoJob)
  }

  // The write half of the dispatch; false when it has closed the connection.
  function OnWritable(t: Tables, fd: int, k: FlushAnswer): (Tables, bool) {
    var (t1, ok) := Flush(t, fd, k);
    if !ok then (Close(t1, fd, FlushFailed), false)
    else if fd in t1.closing && !Pending(t1.conns[fd]) then (Close(t1, fd, Deferred), false)
    else (t1, true)
  }

  function Touched(t: Tables, fd: int, ev: ClientEvent): Tables {
    if ev.readable || ev.writable then Refresh(t, fd) else t
  }

  function Written(t: Tables, fd: int, ev: ClientEvent, k: FlushAnswer): (Tables, bool) {
    if ev.writable then OnWritable(t, fd, k) else (t, true)
  }

  // The dispatch of one client event in `listen`.
  function OnClient(t: Tables, fd: int, ev: ClientEvent, k: FlushAnswer, r: ReadAnswer): (Tables, Submission) {
    if ev.gone then (Close(t, fd, PeerGone), NoJob)
    else
      var (t1, open) := Written(Touched(t, fd, ev), fd, ev, k);
      if open && ev.readable then OnReadable(t1, fd, r) else (t1, NoJob)
  }

  function OnAccept(t: Tables, fd: int, setupOk: bool): Tables {
    if !setupOk || fd < 0 || fd >= MAX_FD then t
    else Refresh(t.(conns := t.conns[fd := Conn("", "")]), fd)
  }

  // A timer entry of the fd is erased, then its callback runs.
  function OnTimeout(t: Tables, fd: int): Tables {
    var t1 := t.(timers := t.timers - {fd});
    if fd in t1.conns then Close(t1, fd, IdleTimeout) else t1
  }

  // ----- The invariant -----

  ghost predicate ConnInv(t: Tables, fd: int)
    requires fd in t.conns
  {
    && 0 <= fd < MAX_FD
    && t.conns[fd].sent <= t.conns[fd].queued
    && (Pending(t.conns[fd]) <==> fd in t.closing)
    && (Pending(t.conns[fd]) <==> fd in t.wantWrite)
  }

  ghost predicate ClosedInv(c: Closed) {
    && c.conn.sent <= c.conn.queued
    && (Orderly(c.why) ==> c.conn.sent == c.conn.queued)
  }

  ghost predicate TableInv(t: Tables) {
    && t.timers == t.conns.Keys
    && t.inflight <= t.conns.Keys
    && t.closing <= t.conns.Keys
    && t.wantWrite <= t.conns.Keys
    && (forall fd :: fd in t.conns ==> ConnInv(t, fd))
    && (forall i :: 0 <= i < |t.closed| ==> ClosedInv(t.closed[i]))
  }

  // The tables without what they say about one connection.
  ghost predicate OtherInv(t: Tables, fd: int) {
    && fd in t.conns && 0 <= fd < MAX_FD
    && t.conns[fd].sent <= t.conns[fd].queued
    && t.timers == t.conns.Keys
    && t.inflight <= t.conns.Keys
    && t.closing <= t.conns.Keys
    && t.wantWrite <= t.conns.Keys
    && (forall g :: g in t.conns && g != fd ==> ConnInv(t, g))
    && (forall i :: 0 <= i < |t.closed| ==> ClosedInv(t.closed[i]))
  }

  lemma CloseKeeps(t: Tables, fd: int, why: Why)
    requires TableInv(t) || OtherInv(t, fd)
    requires fd in t.conns && Orderly(why) ==> !Pending(t.conns[fd])
    ensures TableInv(Close(t, fd, why))
  {
    var t' := Close(t, fd, why);
    forall g | g in t'.conns ensures ConnInv(t', g) {
      assert ConnInv(t, g);
    }
  }

  lemma FlushKeeps(t: Tables, fd: int, k: FlushAnswer)
    requires OtherInv(t, fd)
    ensures OtherInv(Flush(t, fd, k).0, fd)
    ensures Flush(t, fd, k).1 ==>
      (Pending(Flush(t, fd, k).0.conns[fd]) <==> fd in Flush(t, fd, k).0.wantWrite)
    ensures Flush(t, fd, k).0.closing == t.closing
  {
    var t' := Flush(t, fd, k).0;
    assert t'.conns.Keys == t.conns.Keys;
    forall g | g in t'.conns && g != fd ensures ConnInv(t', g) {
      assert ConnInv(t, g);
    }
  }

  lemma ReplyKeeps(t: Tables, fd: int, data: string, k: FlushAnswer, why: Why)
    requires TableInv(t) && fd in t.conns
    ensures TableInv(Reply(t, fd, data, k, why))
  {
    var q := Queue(t, fd, data);
    assert ConnInv(t, fd);
    assert OtherInv(q, fd) by {
      assert q.conns.Keys == t.conns.Keys;
      forall g | g in q.conns && g != fd ensures ConnInv(q, g) {
        assert ConnInv(t, g);
      }
    }
    FlushKeeps(q, fd, k);
    var (t1, ok) := Flush(q, fd, k);
    if !ok || !Pending(t1.conns[fd]) {
      CloseKeeps(t1, fd, if ok then why else FlushFailed);
    } else {
      var t2 := t1.(closing := t1.closing + {fd});
      forall g | g in t2.conns ensures ConnInv(t2, g) {
        assert g != fd ==> ConnInv(t1, g);
      }
    }
  }

  /** Draining one completion keeps the tables in step. */
  lemma DrainOneKeeps(t: Tables, ev: DoneEvent, k: FlushAnswer)
    requires TableInv(t) && ev.closeAfterDone
    ensures TableInv(DrainOne(t, ev, k))
  {
    if ev.fd in t.conns {
      var t1 := t.(inflight := t.inflight - {ev.fd});
      assert TableInv(t1) by {
        forall g | g in t1.conns ensures ConnInv(t1, g) {
          assert ConnInv(t, g);
        }
      }
      if !ev.ok && ev.isConnect && ev.expectedShutdown {
        CloseKeeps(t1, ev.fd, TunnelOver);
      } else if !ev.ok {
        ReplyKeeps(t1, ev.fd, ev.errorReply, k, ErrorReplied);
      } else {
        ReplyKeeps(t1, ev.fd, ev.response, k, Replied);
      }
    }
  }

  /** Draining any number of completions keeps the tables in step. */
  lemma {:induction false} DrainAllKeeps(t: Tables, evs: seq<DoneEvent>, ks: seq<FlushAnswer>)
    requires |evs| == |ks| && TableInv(t)
    requires forall i :: 0 <= i < |evs| ==> evs[i].closeAfterDone
    ensures TableInv(DrainAll(t, evs, ks))
  {
    if evs != [] {
      var n := |evs| - 1;
      DrainAllKeeps(t, evs[..n], ks[..n]);
      DrainOneKeeps(DrainAll(t, evs[..n], ks[..n]), evs[n], ks[n]);
    }
  }

  lemma OnReadableKeeps(t: Tables, fd: int, r: ReadAnswer)
    requires TableInv(t)
    ensures TableInv(OnReadable(t, fd, r).0)
  {
    var (t1, ok, job) := HandleClient(t, fd, r);
    assert TableInv(t1) by {
      forall g | g in t1.conns ensures ConnInv(t1, g) {
        assert ConnInv(t, g);
      }
    }
    if !ok {
      CloseKeeps(t1, fd, RequestFailed);
    }
  }

  // A flush that succeeds on a connection in step leaves it in step or ready to close.
  lemma WritableKeeps(t: Tables, fd: int, k: FlushAnswer)
    requires TableInv(t) && fd in t.conns && Flush(t, fd, k).1
    ensures OtherInv(Flush(t, fd, k).0, fd)
    ensures var t1 := Flush(t, fd, k).0;
      (fd in t1.closing && !Pending(t1.conns[fd])) || TableInv(t1)
  {
    assert ConnInv(t, fd);
    assert OtherInv(t, fd);
    FlushKeeps(t, fd, k);
    var t1 := Flush(t, fd, k).0;
    assert Pending(t1.conns[fd]) ==> Pending(t.conns[fd]);
    if !(fd in t1.closing && !Pending(t1.conns[fd])) {
      forall g | g in t1.conns ensures ConnInv(t1, g) {
        assert ConnInv(t, g);
      }
    }
  }

  lemma OnWritableKeeps(t: Tables, fd: int, k: FlushAnswer)
    requires TableInv(t)
    ensures TableInv(OnWritable(t, fd, k).0)
  {
    var (t1, ok) := Flush(t, fd, k);
    if !ok {
      if fd in t.conns {
        assert OtherInv(t, fd) by { assert ConnInv(t, fd); }
        FlushKeeps(t, fd, k);
      }
      CloseKeeps(t1, fd, FlushFailed);
    } else {
      WritableKeeps(t, fd, k);
      if fd in t1.closing && !Pending(t1.conns[fd]) {
        CloseKeeps(t1, fd, Deferred);
      }
    }
  }

  lemma RefreshKeeps(t: Tables, fd: int)
    requires TableInv(t)
    ensures Refresh(t, fd) == t
  {
    if fd in t.conns {
      assert t.timers + {fd} == t.timers;
    }
  }

  /** Dispatching any client event keeps the tables in step. */
  lemma OnClientKeeps(t: Tables, fd: int, ev: ClientEvent, k: FlushAnswer, r: ReadAnswer)
    requires TableInv(t)
    ensures TableInv(OnClient(t, fd, ev, k, r).0)
  {
    CloseKeeps(t, fd, PeerGone);
    RefreshKeeps(t, fd);
    OnWritableKeeps(t, fd, k);
    var t2 := if ev.writable then OnWritable(t, fd, k).0 else t;
    OnReadableKeeps(t2, fd, r);
  }

  /** The kernel hands out only descriptors that no live connection owns. */
  lemma OnAcceptKeeps(t: Tables, fd: int, setupOk: bool)
    requires TableInv(t) && fd !in t.conns
    ensures TableInv(OnAccept(t, fd, setupOk))
  {
    var t' := OnAccept(t, fd, setupOk);
    if setupOk && 0 <= fd < MAX_FD {
      assert t'.conns.Keys == t.conns.Keys + {fd};
      forall g | g in t'.conns ensures ConnInv(t', g) {
        assert g != fd ==> ConnInv(t, g);
      }
    }
  }

  lemma OnTimeoutKeeps(t: Tables, fd: int)
    requires TableInv(t)
    ensures TableInv(OnTimeout(t, fd))
  {
    if fd in t.conns {
      assert OnTimeout(t, fd) == Close(t, fd, IdleTimeout);
      CloseKeeps(t, fd, IdleTimeout);
    } else {
      assert t.timers - {fd} == t.timers;
    }
  }
}
