/** The event loop's handlers as methods on the server object, proved against ReactorTables. */
module Reactor {
  import opened ConnectionIo
  import T = ReactorTables
  import E = ReactorEffects

  datatype PoolJob = PoolJob(fd: int, isConnect: bool)

  // What the handlers work on: the tables, the pools and the done queue.
  datatype World = World(t: T.Tables, pooled: seq<PoolJob>, done: seq<T.DoneEvent>)

  // A submission is in a pool or, when that was saturated, a failed completion.
  function Submit(w: World, fd: int, job: T.Submission, taken: bool, errorReply: string): World {
    match job
    case NoJob => w
    case Job(isConnect) =>
      if taken then w.(pooled := w.pooled + [PoolJob(fd, isConnect)])
      else w.(done := w.done + [T.DoneEvent(fd, false, "", true, isConnect, false, errorReply)])
  }

  // Each call that has an effect or an answer of its own, in the order of the calls.
  datatype Call =
    | Refreshed(fd: int)
    | Flushed(fd: int, k: T.FlushAnswer)
    | Read(fd: int, a: T.ReadAnswer)
    | Pushed(job: PoolJob, taken: bool)

  datatype Rearm = Rearm(fd: int, write: bool, ok: bool)

  function RefreshCalls(t: T.Tables, fd: int): seq<Call> {
    if fd in t.conns then [Refreshed(fd)] else []
  }

  function FlushCalls(t: T.Tables, fd: int, k: T.FlushAnswer): seq<Call> {
    if fd in t.conns then [Flushed(fd, k)] else []
  }

  function ReadCalls(t: T.Tables, fd: int, a: T.ReadAnswer, taken: bool): seq<Call> {
    if fd !in t.conns || fd in t.inflight then []
    else if a.Complete? then [Read(fd, a), Pushed(PoolJob(fd, a.isConnect), taken)]
    else [Read(fd, a)]
  }

  function DoneCalls(t: T.Tables, ev: T.DoneEvent, k: T.FlushAnswer): seq<Call> {
    if !ev.ok && ev.isConnect && ev.expectedShutdown then []
    else if ev.ok && !ev.closeAfterDone then
      FlushCalls(t, ev.fd, k) + RefreshCalls(T.DrainOne(t, ev, k), ev.fd)
    else FlushCalls(t, ev.fd, k)
  }

  // The calls made so far and those of a drained queue.
  function DrainCalls(calls: seq<Call>, t: T.Tables, evs: seq<T.DoneEvent>, ks: seq<T.FlushAnswer>): seq<Call>
    requires |evs| == |ks|
  {
    if evs == [] then calls
    else
      var n := |evs| - 1;
      DrainCalls(calls, t, evs[..n], ks[..n]) + DoneCalls(T.DrainAll(t, evs[..n], ks[..n]), evs[n], ks[n])
  }

  lemma DrainCallsNext(
      calls: seq<Call>, t: T.Tables, evs: seq<T.DoneEvent>, ks: seq<T.FlushAnswer>, ev: T.DoneEvent, k: T.FlushAnswer)
    requires |evs| == |ks|
    ensures DrainCalls(calls, t, evs + [ev], ks + [k])
         == DrainCalls(calls, t, evs, ks) + DoneCalls(T.DrainAll(t, evs, ks), ev, k)
  {
    assert (evs + [ev])[..|evs|] == evs && (ks + [k])[..|ks|] == ks;
  }

  lemma OneMore(events: seq<T.DoneEvent>, n: nat, ev: T.DoneEvent, rest: seq<T.DoneEvent>)
    requires n <= |events| && [ev] + rest == events[n..]
    ensures n < |events| && rest == events[n + 1..] && events[..n + 1] == events[..n] + [ev]
  {
    assert rest == ([ev] + rest)[1..];
    assert ev == ([ev] + rest)[0];
  }

  function TouchCalls(t: T.Tables, fd: int, ev: T.ClientEvent): seq<Call> {
    if ev.readable || ev.writable then RefreshCalls(t, fd) else []
  }

  function WriteCalls(t: T.Tables, fd: int, ev: T.ClientEvent, k: T.FlushAnswer): seq<Call> {
    if ev.writable then FlushCalls(t, fd, k) else []
  }

  // The calls made so far and those of one client event.
  function ClientCalls(
      calls: seq<Call>, t: T.Tables, fd: int, ev: T.ClientEvent, k: T.FlushAnswer, a: T.ReadAnswer, taken: bool)
    : seq<Call>
  {
    if ev.gone then calls
    else
      var (t1, open) := T.Written(T.Touched(t, fd, ev), fd, ev, k);
      calls + TouchCalls(t, fd, ev) + WriteCalls(t, fd, ev, k)
      + if open && ev.readable then ReadCalls(t1, fd, a, taken) else []
  }

  // Completions after which the connection is closed; the workers produce no others.
  ghost predicate Finals(done: seq<T.DoneEvent>) {
    forall i :: 0 <= i < |done| ==> done[i].closeAfterDone
  }

  lemma ThenRead(
      calls: seq<Call>, t: T.Tables, fd: int, ev: T.ClientEvent, k: T.FlushAnswer, a: T.ReadAnswer, taken: bool,
      t1: T.Tables, open: bool)
    requires !ev.gone && (t1, open) == T.Written(T.Touched(t, fd, ev), fd, ev, k)
    ensures T.OnClient(t, fd, ev, k, a) == if open && ev.readable then T.OnReadable(t1, fd, a) else (t1, T.NoJob)
    ensures ClientCalls(calls, t, fd, ev, k, a, taken)
         == calls + TouchCalls(t, fd, ev) + WriteCalls(t, fd, ev, k)
          + if open && ev.readable then ReadCalls(t1, fd, a, taken) else []
  {
  }

  // What the event loop is woken for, or what a worker does meanwhile.
  datatype Event =
    | Accepted(fd: int, setupOk: bool)
    | ClientReady(fd: int, ev: T.ClientEvent, errorReply: string)
    | Completions
    | Expired(fd: int)
    | JobFinished(job: nat, ok: bool, response: string, expectedShutdown: bool, errorReply: string)

  // The answers that the handling of one event got.
  datatype Answers = Answers(k: T.FlushAnswer, a: T.ReadAnswer, taken: bool, ks: seq<T.FlushAnswer>)

  // What one event makes of the world.
  ghost predicate Handled(w: World, e: Event, x: Answers, w': World) {
    match e
    case Accepted(fd, setupOk) => w' == w.(t := T.OnAccept(w.t, fd, setupOk))
    case ClientReady(fd, ev, errorReply) =>
      var (t, job) := T.OnClient(w.t, fd, ev, x.k, x.a);
      w' == Submit(w.(t := t), fd, job, x.taken, errorReply)
    case Completions => |x.ks| == |w.done| && w' == w.(t := T.DrainAll(w.t, w.done, x.ks), done := [])
    case Expired(fd) => w' == w.(t := T.OnTimeout(w.t, fd))
    case JobFinished(job, ok, response, expectedShutdown, errorReply) =>
      job < |w.pooled| && w' == Finished(w, job, ok, response, expectedShutdown, errorReply)
  }

  function Finished(w: World, job: nat, ok: bool, response: string, expectedShutdown: bool, errorReply: string): World
    requires job < |w.pooled|
  {
    var j := w.pooled[job];
    w.(pooled := w.pooled[..job] + w.pooled[job + 1..],
       done := w.done + [T.DoneEvent(j.fd, ok, response, true, j.isConnect, expectedShutdown, errorReply)])
  }

  // The loop of flush_client_output: -1 after an error, 0 when the socket blocks, 1 when all is sent.
  method DrainSocket(conn: HttpConnectionIo) returns (r: int)
    requires conn.Valid()
    modifies conn
    ensures conn.Valid() && -1 <= r <= 1
    ensures conn.queued == old(conn.queued) && old(conn.sent) <= conn.sent <= conn.queued
    ensures conn.sent != conn.queued <==> r != 1
    ensures old(conn.answers) <= conn.answers
    ensures r == 0 ==> Latest(old(conn.answers), conn.answers, WouldBlock)
    ensures conn.fd >= 0 ==> (r == -1 <==> Latest(old(conn.answers), conn.answers, SendError))
  {
    conn.PendingMeansUnsent();
    r := 1;
    while conn.HasPendingWrite()
      invariant conn.Valid() && r == 1
      invariant conn.queued == old(conn.queued) && old(conn.sent) <= conn.sent <= conn.queued
      invariant old(conn.answers) <= conn.answers && !Latest(old(conn.answers), conn.answers, SendError)
      decreases |conn.queued| - |conn.sent|
    {
      var n := conn.FlushToSocket();
      if n > 0 {
        continue;
      }
      r := if n == 0 && conn.HasPendingWrite() then 0 else -1;
      break;
    }
    conn.PendingMeansUnsent();
  }

  class HpServer {
    var connections: map<int, HttpConnectionIo>
    var proxyInflight: set<int>      // the fds whose flag is set
    var closeAfterFlush: set<int>    // the fds whose flag is set
    var timers: set<int>             // the ids that connection_timer_ contains
    var wantWrite: set<int>          // the fds that poller_ watches for EPOLLOUT
    var pooled: seq<PoolJob>         // tasks that the pools have accepted
    var doneQueue: seq<T.DoneEvent>
    var eventCounter: nat            // the value of the eventfd
    ghost var conns: map<int, T.Conn>  // what was queued and sent on each live connection
    ghost var closed: seq<T.Closed>
    ghost var calls: seq<Call>
    ghost var rearms: seq<Rearm>
    ghost var repr: set<HttpConnectionIo>

    ghost predicate Valid()
      reads this, repr
    {
      && conns.Keys == connections.Keys
      && (forall fd :: fd in connections ==>
            && connections[fd] in repr && 0 <= fd < T.MAX_FD
            && connections[fd].fd == fd && connections[fd].Valid()
            && conns[fd] == T.Conn(connections[fd].queued, connections[fd].sent))
    }

    // The tables that the fields stand for.
    ghost function Abs(): T.Tables
      reads this
    {
      T.Tables(conns, proxyInflight, closeAfterFlush, timers, wantWrite, closed)
    }

    ghost function Everything(): World
      reads this
    {
      World(Abs(), pooled, doneQueue)
    }

    constructor ()
      ensures Valid() && Everything() == World(T.Tables(map[], {}, {}, {}, {}, []), [], [])
      ensures eventCounter == 0 && repr == {}
    {
      connections, conns := map[], map[];
      proxyInflight, closeAfterFlush, timers, wantWrite := {}, {}, {}, {};
      pooled, doneQueue, eventCounter := [], [], 0;
      closed, calls, rearms, repr := [], [], [], {};
    }

    predicate IsLive(fd: int)
      reads this
    {
      !(fd < 0 || fd >= T.MAX_FD || fd !in connections)
    }

    method Forget(fd: int)
      requires Valid()
      modifies this`connections, this`conns
      ensures Valid() && conns == old(conns) - {fd}
    {
      connections, conns := connections - {fd}, conns - {fd};
    }

    method CloseClient(fd: int, ghost why: T.Why)
      requires Valid()
      modifies this`connections, this`proxyInflight, this`closeAfterFlush, this`timers, this`wantWrite,
        this`closed, this`conns
      ensures Valid() && Abs() == T.Close(old(Abs()), fd, why)
    {
      closed := T.Close(Abs(), fd, why).closed;
      timers, proxyInflight := timers - {fd}, proxyInflight - {fd};
      closeAfterFlush, wantWrite := closeAfterFlush - {fd}, wantWrite - {fd};
      Forget(fd);
    }

    method RefreshClientTimeout(fd: int)
      requires Valid()
      modifies this`timers, this`calls
      ensures Valid() && Abs() == T.Refresh(old(Abs()), fd)
      ensures calls == old(calls) + RefreshCalls(old(Abs()), fd)
    {
      if !IsLive(fd) {
        return;
      }
      timers := timers + {fd};
      calls := calls + [Refreshed(fd)];
    }

    // The kernel: changing the interest set of a client may fail.
    method Modify(fd: int, write: bool) returns (ok: bool)
      modifies this`wantWrite, this`rearms
      ensures rearms == old(rearms) + [Rearm(fd, write, ok)]
      ensures wantWrite == if !ok then old(wantWrite)
                           else if write then old(wantWrite) + {fd} else old(wantWrite) - {fd}
    {
      ok := *;
      rearms := rearms + [Rearm(fd, write, ok)];
      if ok {
        wantWrite := if write then wantWrite + {fd} else wantWrite - {fd};
      }
    }

    method SendPending(fd: int) returns (r: int, ghost accepted: nat)
      requires Valid() && fd in connections
      modifies this`conns, repr
      ensures Valid() && -1 <= r <= 1
      ensures conns == old(conns)[fd := T.Send(old(conns)[fd], accepted)]
      ensures T.Pending(conns[fd]) <==> r != 1
      ensures var conn := connections[fd];
        && (r == 0 ==> Latest(old(conn.answers), conn.answers, WouldBlock))
        && (r == -1 <==> Latest(old(conn.answers), conn.answers, SendError))
    {
      var conn := connections[fd];
      assert forall g :: g in connections && connections[g] == conn ==> g == fd;
      ghost var before := conns[fd];
      r := DrainSocket(conn);
      ghost var after := T.Conn(conn.queued, conn.sent);
      T.SendPrefix(before, after);
      accepted := |after.sent| - |before.sent|;
      conns := conns[fd := after];
    }

    // The end of flush_client_output, after a send error or with some or no bytes left.
    method Watch(fd: int, left: int, ghost accepted: nat) returns (r: int, ghost k: T.FlushAnswer)
      requires Valid() && fd in connections && -1 <= left <= 1 && (T.Pending(conns[fd]) <==> left != 1)
      modifies this`wantWrite, this`rearms
      ensures Valid() && (r == 0 || r == -1)
      ensures k.accepted == accepted && (k.error <==> left == -1)
      ensures (Abs(), r == 0) == T.Rearm(old(Abs()), fd, k)
      ensures rearms == if k.error then old(rearms) else old(rearms) + [Rearm(fd, left == 0, k.modifyOk)]
    {
      k := T.FlushAnswer(accepted, left == -1, true);
      if left == -1 {
        return -1, k;
      }
      var ok := Modify(fd, left == 0);
      k := k.(modifyOk := ok);
      r := if ok then 0 else -1;
    }

    method FlushLive(fd: int) returns (r: int, ghost k: T.FlushAnswer)
      requires Valid() && fd in connections
      modifies this`wantWrite, this`conns, this`rearms, repr
      ensures Valid() && (r == 0 || r == -1)
      ensures (Abs(), r == 0) == T.Flush(old(Abs()), fd, k)
      ensures var conn := connections[fd];
        && (k.error <==> Latest(old(conn.answers), conn.answers, SendError))
        && (T.Pending(conns[fd]) && !k.error ==> Latest(old(conn.answers), conn.answers, WouldBlock))
      ensures rearms == if k.error then old(rearms)
                        else old(rearms) + [Rearm(fd, T.Pending(conns[fd]), k.modifyOk)]
    {
      var left: int;
      ghost var accepted: nat;
      left, accepted := SendPending(fd);
      r, k := Watch(fd, left, accepted);
    }

    method FlushClientOutput(fd: int) returns (r: int, ghost k: T.FlushAnswer)
      requires Valid()
      modifies this`wantWrite, this`conns, this`calls, this`rearms, repr
      ensures Valid() && (r == 0 || r == -1)
      ensures (Abs(), r == 0) == T.Flush(old(Abs()), fd, k)
      ensures calls == old(calls) + FlushCalls(old(Abs()), fd, k)
      ensures fd in connections ==> var conn := connections[fd];
        && (k.error <==> Latest(old(conn.answers), conn.answers, SendError))
        && (T.Pending(conns[fd]) && !k.error ==> Latest(old(conn.answers), conn.answers, WouldBlock))
        && rearms == if k.error then old(rearms)
                     else old(rearms) + [Rearm(fd, T.Pending(conns[fd]), k.modifyOk)]
    {
      k := T.FlushAnswer(0, true, true);
      if !IsLive(fd) {
        return -1, k;
      }
      r, k := FlushLive(fd);
      calls := calls + [Flushed(fd, k)];
    }

    method QueueReply(fd: int, data: string)
      requires Valid() && fd in connections
      modifies this`conns, repr
      ensures Valid() && Abs() == T.Queue(old(Abs()), fd, data)
    {
      var conn := connections[fd];
      assert forall g :: g in connections && connections[g] == conn ==> g == fd;
      conn.QueueWrite(data);
      conns := conns[fd := T.Conn(conn.queued, conn.sent)];
    }

    method QueueAndFlush(fd: int, data: string) returns (r: int, ghost k: T.FlushAnswer)
      requires Valid() && fd in connections
      modifies this`wantWrite, this`conns, this`calls, this`rearms, repr
      ensures Valid() && (r == 0 || r == -1)
      ensures (Abs(), r == 0) == T.Flush(T.Queue(old(Abs()), fd, data), fd, k)
      ensures calls == old(calls) + [Flushed(fd, k)]
    {
      QueueReply(fd, data);
      r, k := FlushClientOutput(fd);
    }

    method CloseOrDefer(fd: int, r: int, ghost why: T.Why)
      requires Valid() && fd in connections && (r == 0 || r == -1)
      modifies this`connections, this`proxyInflight, this`closeAfterFlush, this`timers, this`wantWrite,
        this`closed, this`conns
      ensures Valid() && Abs() == T.Settle(old(Abs()), fd, r == 0, why)
    {
      connections[fd].PendingMeansUnsent();
      if r == -1 {
        CloseClient(fd, T.FlushFailed);
      } else if connections[fd].HasPendingWrite() {
        closeAfterFlush := closeAfterFlush + {fd};
      } else {
        CloseClient(fd, why);
      }
    }

    // What drain_proxy_done_events does with the reply to a finished job.
    method ReplyAndClose(fd: int, data: string, ghost why: T.Why) returns (ghost k: T.FlushAnswer)
      requires Valid() && fd in connections
      modifies this`connections, this`proxyInflight, this`closeAfterFlush, this`timers, this`wantWrite,
        this`closed, this`conns, this`calls, this`rearms, repr
      ensures Valid() && Abs() == T.Reply(old(Abs()), fd, data, k, why)
      ensures calls == old(calls) + [Flushed(fd, k)]
    {
      var r: int;
      r, k := QueueAndFlush(fd, data);
      T.ReplySettles(old(Abs()), fd, data, k, why, Abs(), r == 0);
      CloseOrDefer(fd, r, why);
    }

    method ReplyAndKeep(fd: int, data: string) returns (ghost k: T.FlushAnswer)
      requires Valid() && fd in connections
      modifies this`connections, this`proxyInflight, this`closeAfterFlush, this`timers, this`wantWrite,
        this`closed, this`conns, this`calls, this`rearms, repr
      ensures Valid() && Abs() == T.ReplyAndKeep(old(Abs()), fd, data, k)
      ensures calls == old(calls) + [Flushed(fd, k)] + RefreshCalls(Abs(), fd)
    {
      var r: int;
      r, k := QueueAndFlush(fd, data);
      if r == -1 {
        CloseClient(fd, T.FlushFailed);
      } else {
        RefreshClientTimeout(fd);
      }
    }

    method AnswerDone(ev: T.DoneEvent) returns (ghost k: T.FlushAnswer)
      requires Valid()
      modifies this`connections, this`proxyInflight, this`closeAfterFlush, this`timers, this`wantWrite,
        this`closed, this`conns, this`calls, this`rearms, repr
      ensures Valid() && Abs() == T.DrainOne(old(Abs()), ev, k)
      ensures calls == old(calls) + DoneCalls(old(Abs()), ev, k)
    {
      k := T.FlushAnswer(0, true, true);
      if !IsLive(ev.fd) {
        return;
      }
      proxyInflight := proxyInflight - {ev.fd};
      if !ev.ok {
        if ev.isConnect && ev.expectedShutdown {
          CloseClient(ev.fd, T.TunnelOver);
        } else {
          k := ReplyAndClose(ev.fd, ev.errorReply, T.ErrorReplied);
        }
      } else if ev.closeAfterDone {
        k := ReplyAndClose(ev.fd, ev.response, T.Replied);
      } else {
        k := ReplyAndKeep(ev.fd, ev.response);
      }
    }

    method HandleDone(ev: T.DoneEvent) returns (ghost k: T.FlushAnswer)
      requires Valid()
      modifies this`connections, this`proxyInflight, this`closeAfterFlush, this`timers, this`wantWrite,
        this`closed, this`conns, this`calls, this`rearms, repr
      ensures Valid() && Abs() == T.DrainOne(old(Abs()), ev, k)
      ensures calls == old(calls) + DoneCalls(old(Abs()), ev, k)
      ensures E.Delivered(old(Abs()), ev, Abs())
      ensures T.TableInv(old(Abs())) && ev.closeAfterDone ==> T.TableInv(Abs())
    {
      k := AnswerDone(ev);
      E.CompletionEffect(old(Abs()), ev, k);
      if T.TableInv(old(Abs())) && ev.closeAfterDone {
        T.DrainOneKeeps(old(Abs()), ev, k);
      }
    }

    // try_pop.
    method TakeDone() returns (ev: T.DoneEvent)
      requires Valid() && doneQueue != []
      modifies this`doneQueue
      ensures Valid() && [ev] + doneQueue == old(doneQueue)
    {
      ev := doneQueue[0];
      doneQueue := doneQueue[1..];
    }

    method HandleNext() returns (ghost ev: T.DoneEvent, ghost k: T.FlushAnswer)
      requires Valid() && doneQueue != []
      modifies this`doneQueue, this`connections, this`proxyInflight, this`closeAfterFlush, this`timers,
        this`wantWrite, this`closed, this`conns, this`calls, this`rearms, repr
      ensures Valid() && [ev] + doneQueue == old(doneQueue)
      ensures Abs() == T.DrainOne(old(Abs()), ev, k)
      ensures calls == old(calls) + DoneCalls(old(Abs()), ev, k)
    {
      var next := TakeDone();
      k := HandleDone(next);
      ev := next;
    }

    // First in, first out.
    method DrainQueue() returns (ghost ks: seq<T.FlushAnswer>)
      requires Valid()
      modifies this`doneQueue, this`connections, this`proxyInflight, this`closeAfterFlush, this`timers,
        this`wantWrite, this`closed, this`conns, this`calls, this`rearms, repr
      ensures Valid() && |ks| == |old(doneQueue)| && doneQueue == []
      ensures Abs() == T.DrainAll(old(Abs()), old(doneQueue), ks)
      ensures calls == DrainCalls(old(calls), old(Abs()), old(doneQueue), ks)
    {
      ks := [];
      ghost var t, events, n: nat, before := Abs(), doneQueue, 0, calls;
      while doneQueue != []
        invariant Valid()
        invariant |ks| == n <= |events| && doneQueue == events[n..]
        invariant Abs() == T.DrainAll(t, events[..n], ks)
        invariant calls == DrainCalls(before, t, events[..n], ks)
        decreases |doneQueue|
      {
        ghost var ev, k := HandleNext();
        OneMore(events, n, ev, doneQueue);
        T.DrainNext(t, events[..n], ks, ev, k);
        DrainCallsNext(before, t, events[..n], ks, ev, k);
        n, ks := n + 1, ks + [k];
      }
      assert events[..n] == events;
    }

    // The eventfd is emptied before the queue is.
    method DrainProxyDoneEvents() returns (ghost ks: seq<T.FlushAnswer>)
      requires Valid()
      modifies this`eventCounter, this`doneQueue, this`connections, this`proxyInflight, this`closeAfterFlush,
        this`timers, this`wantWrite, this`closed, this`conns, this`calls, this`rearms, repr
      ensures Valid() && |ks| == |old(doneQueue)|
      ensures Abs() == T.DrainAll(old(Abs()), old(doneQueue), ks)
      ensures calls == DrainCalls(old(calls), old(Abs()), old(doneQueue), ks)
      ensures T.TableInv(old(Abs())) && Finals(old(doneQueue)) ==> T.TableInv(Abs())
      ensures doneQueue == [] && eventCounter == 0
    {
      eventCounter := 0;
      ks := DrainQueue();
      if T.TableInv(old(Abs())) && Finals(old(doneQueue)) {
        T.DrainAllKeeps(old(Abs()), old(doneQueue), ks);
      }
    }

    // The pool: it takes the job or reports that it is saturated.
    method TryPush(job: PoolJob) returns (ok: bool)
      modifies this`pooled, this`calls
      ensures pooled == if ok then old(pooled) + [job] else old(pooled)
      ensures calls == old(calls) + [Pushed(job, ok)]
    {
      ok := *;
      calls := calls + [Pushed(job, ok)];
      if ok {
        pooled := pooled + [job];
      }
    }

    // A full eventfd refuses the write, which the server ignores.
    method WriteEventFd()
      modifies this`eventCounter
      ensures eventCounter == old(eventCounter) + 1 || (eventCounter == old(eventCounter) && eventCounter > 0)
    {
      if eventCounter < 0xFFFF_FFFF_FFFF_FFFE {
        eventCounter := eventCounter + 1;
      }
    }

    // A completion that was not waiting before has been announced.
    ghost predicate Announced(done: seq<T.DoneEvent>, counter: nat)
      reads this
    {
      (doneQueue == done && eventCounter == counter) || eventCounter > 0
    }

    // Every submission ends in a pool or, when that is saturated, as a failed completion.
    method SubmitProxyJob(fd: int, isConnect: bool, errorReply: string) returns (ok: bool)
      modifies this`pooled, this`doneQueue, this`eventCounter, this`calls
      ensures Everything() == Submit(old(Everything()), fd, T.Job(isConnect), ok, errorReply)
      ensures calls == old(calls) + [Pushed(PoolJob(fd, isConnect), ok)]
      ensures eventCounter == old(eventCounter) || eventCounter > 0
      ensures !ok ==> eventCounter > 0
    {
      ok := TryPush(PoolJob(fd, isConnect));
      if !ok {
        doneQueue := doneQueue + [T.DoneEvent(fd, false, "", true, isConnect, false, errorReply)];
        WriteEventFd();
      }
    }

    // The kernel and the request parser: any answer to reading the client's socket.
    method ReadRequest(fd: int) returns (r: T.ReadAnswer)
      modifies this`calls
      ensures calls == old(calls) + [Read(fd, r)]
    {
      r := T.NothingYet;
      if * {
        r := T.ReadError;
      } else if * {
        r := T.BadRequest;
      } else if * {
        r := T.Incomplete;
      } else if * {
        var c: bool := *;
        r := T.Complete(c);
      }
      calls := calls + [Read(fd, r)];
    }

    method HandleClient(fd: int, errorReply: string) returns (r: int, ghost a: T.ReadAnswer, ghost taken: bool)
      requires Valid()
      modifies this`proxyInflight, this`pooled, this`doneQueue, this`eventCounter, this`calls
      ensures Valid() && (r == 0 || r == -1)
      ensures T.HandleClient(old(Abs()), fd, a).0 == Abs()
      ensures T.HandleClient(old(Abs()), fd, a).1 == (r == 0)
      ensures Everything() == Submit(old(Everything()).(t := Abs()), fd,
                                     T.HandleClient(old(Abs()), fd, a).2, taken, errorReply)
      ensures calls == old(calls) + ReadCalls(old(Abs()), fd, a, taken)
      ensures Announced(old(doneQueue), old(eventCounter))
    {
      a, taken := T.NothingYet, false;
      if !IsLive(fd) {
        return -1, a, taken;
      }
      if fd in proxyInflight {
        return 0, a, taken;
      }
      var answer := ReadRequest(fd);
      a := answer;
      if answer.ReadError? || answer.BadRequest? {
        return -1, a, taken;
      }
      if !answer.Complete? {
        return 0, a, taken;
      }
      proxyInflight := proxyInflight + {fd};
      var ok := SubmitProxyJob(fd, answer.isConnect, errorReply);
      return 0, a, ok;
    }

    method OnReadable(fd: int, errorReply: string) returns (ghost a: T.ReadAnswer, ghost taken: bool)
      requires Valid()
      modifies this
      ensures Valid() && Abs() == T.OnReadable(old(Abs()), fd, a).0
      ensures Everything() == Submit(old(Everything()).(t := Abs()), fd,
                                     T.OnReadable(old(Abs()), fd, a).1, taken, errorReply)
      ensures calls == old(calls) + ReadCalls(old(Abs()), fd, a, taken)
      ensures Announced(old(doneQueue), old(eventCounter)) && repr == old(repr)
    {
      var r: int;
      r, a, taken := HandleClient(fd, errorReply);
      if r == -1 {
        CloseClient(fd, T.RequestFailed);
      }
    }

    method OnWritable(fd: int) returns (open: bool, ghost k: T.FlushAnswer)
      requires Valid()
      modifies this`connections, this`proxyInflight, this`closeAfterFlush, this`timers, this`wantWrite,
        this`closed, this`conns, this`calls, this`rearms, repr
      ensures Valid() && (Abs(), open) == T.OnWritable(old(Abs()), fd, k)
      ensures calls == old(calls) + FlushCalls(old(Abs()), fd, k)
    {
      var r: int;
      r, k := FlushClientOutput(fd);
      if r == -1 {
        CloseClient(fd, T.FlushFailed);
        return false, k;
      }
      connections[fd].PendingMeansUnsent();
      if fd in closeAfterFlush && !connections[fd].HasPendingWrite() {
        CloseClient(fd, T.Deferred);
        return false, k;
      }
      return true, k;
    }

    // The timeout, then the output; false when that has closed the connection.
    method BeforeReading(fd: int, ev: T.ClientEvent) returns (open: bool, ghost k: T.FlushAnswer)
      requires Valid()
      modifies this`connections, this`proxyInflight, this`closeAfterFlush, this`timers, this`wantWrite,
        this`closed, this`conns, this`calls, this`rearms, repr
      ensures Valid() && (Abs(), open) == T.Written(T.Touched(old(Abs()), fd, ev), fd, ev, k)
      ensures calls == old(calls) + TouchCalls(old(Abs()), fd, ev) + WriteCalls(old(Abs()), fd, ev, k)
    {
      open, k := true, T.FlushAnswer(0, true, true);
      if ev.readable || ev.writable {
        RefreshClientTimeout(fd);
      }
      if ev.writable {
        open, k := OnWritable(fd);
      }
    }

    // The client branch of the dispatch in `listen`.
    method OnClient(fd: int, ev: T.ClientEvent, errorReply: string)
      returns (ghost k: T.FlushAnswer, ghost a: T.ReadAnswer, ghost taken: bool)
      requires Valid()
      modifies this, repr
      ensures Valid() && Abs() == T.OnClient(old(Abs()), fd, ev, k, a).0
      ensures Everything() == Submit(old(Everything()).(t := Abs()), fd,
                                     T.OnClient(old(Abs()), fd, ev, k, a).1, taken, errorReply)
      ensures calls == ClientCalls(old(calls), old(Abs()), fd, ev, k, a, taken)
      ensures T.TableInv(old(Abs())) ==> T.TableInv(Abs())
      ensures Announced(old(doneQueue), old(eventCounter)) && repr == old(repr)
    {
      k, a, taken := T.FlushAnswer(0, true, true), T.NothingYet, false;
      if ev.gone {
        CloseClient(fd, T.PeerGone);
      } else {
        var open: bool;
        open, k := BeforeReading(fd, ev);
        ghost var t := Abs();
        if open && ev.readable {
          a, taken := OnReadable(fd, errorReply);
        }
        ThenRead(old(calls), old(Abs()), fd, ev, k, a, taken, t, open);
      }
      if T.TableInv(old(Abs())) {
        T.OnClientKeeps(old(Abs()), fd, ev, k, a);
      }
    }

    method Connect(fd: int)
      requires Valid() && fd !in connections && 0 <= fd < T.MAX_FD
      modifies this`connections, this`conns, this`repr
      ensures Valid() && conns == old(conns)[fd := T.Conn("", "")]
      ensures fresh(repr - old(repr))
    {
      var conn := new HttpConnectionIo(fd);
      connections := connections[fd := conn];
      conns := conns[fd := T.Conn("", "")];
      repr := repr + {conn};
    }

    // One accepted descriptor, which no live connection owns.
    method OnAccept(fd: int, setupOk: bool)
      requires Valid() && fd !in connections
      modifies this`connections, this`conns, this`repr, this`timers, this`calls
      ensures Valid() && Abs() == T.OnAccept(old(Abs()), fd, setupOk)
      ensures T.TableInv(old(Abs())) ==> T.TableInv(Abs())
      ensures fresh(repr - old(repr))
    {
      ghost var t := Abs();
      if T.TableInv(t) {
        T.OnAcceptKeeps(t, fd, setupOk);
      }
      if !setupOk || fd < 0 || fd >= T.MAX_FD {
        return;
      }
      Connect(fd);
      RefreshClientTimeout(fd);
    }

    // The timer has dropped the entry of `fd` and calls back.
    method OnTimeout(fd: int)
      requires Valid()
      modifies this
      ensures Valid() && Abs() == T.OnTimeout(old(Abs()), fd)
      ensures T.TableInv(old(Abs())) ==> T.TableInv(Abs())
      ensures repr == old(repr) && doneQueue == old(doneQueue) && pooled == old(pooled)
      ensures eventCounter == old(eventCounter)
    {
      ghost var t := Abs();
      if T.TableInv(t) {
        T.OnTimeoutKeeps(t, fd);
      }
      timers := timers - {fd};
      if !IsLive(fd) {
        return;
      }
      CloseClient(fd, T.IdleTimeout);
    }

    // A worker finishes a pooled job: the completion, then the eventfd.
    method FinishJob(job: nat, ok: bool, response: string, expectedShutdown: bool, errorReply: string)
      requires job < |pooled|
      modifies this`pooled, this`doneQueue, this`eventCounter
      ensures Everything() == Finished(old(Everything()), job, ok, response, expectedShutdown, errorReply)
      ensures eventCounter > 0
    {
      var j := pooled[job];
      pooled := pooled[..job] + pooled[job + 1..];
      doneQueue := doneQueue + [T.DoneEvent(j.fd, ok, response, true, j.isConnect, expectedShutdown, errorReply)];
      WriteEventFd();
    }

    ghost predicate Possible(e: Event)
      reads this
    {
      && (e.Accepted? ==> e.fd !in connections)
      && (e.JobFinished? ==> e.job < |pooled|)
    }

    // Whatever happens next is handled, and the tables stay in step.
    method Serve(e: Event) returns (ghost x: Answers)
      requires Valid() && T.TableInv(Abs()) && Finals(doneQueue) && Announced([], 0) && Possible(e)
      modifies this, repr
      ensures Valid() && T.TableInv(Abs()) && Finals(doneQueue) && Announced([], 0)
      ensures Handled(old(Everything()), e, x, Everything())
      ensures fresh(repr - old(repr))
    {
      x := Answers(T.FlushAnswer(0, true, true), T.NothingYet, false, []);
      match e
      case Accepted(fd, setupOk) => OnAccept(fd, setupOk);
      case ClientReady(fd, ev, errorReply) =>
        ghost var k, a, taken := OnClient(fd, ev, errorReply);
        x := x.(k := k, a := a, taken := taken);
      case Completions =>
        ghost var ks := DrainProxyDoneEvents();
        x := x.(ks := ks);
      case Expired(fd) => OnTimeout(fd);
      case JobFinished(job, ok, response, expectedShutdown, errorReply) =>
        FinishJob(job, ok, response, expectedShutdown, errorReply);
    }
  }

  // The kernel, the clients and the workers: any event that is possible.
  method NextEvent(server: HpServer) returns (e: Event)
    ensures server.Possible(e)
  {
    e := *;
    if e.Accepted? && e.fd in server.connections {
      e := Completions;
    }
    if e.JobFinished? && e.job >= |server.pooled| {
      e := Completions;
    }
  }

  // The events, each with its answers, take the world from each state to the next.
  ghost predicate History(events: seq<Event>, answers: seq<Answers>, worlds: seq<World>) {
    && |answers| == |events| && |worlds| == |events| + 1
    && forall i :: 0 <= i < |events| ==> Handled(worlds[i], events[i], answers[i], worlds[i + 1])
  }

  /** A server that has handled any number of events in any order has its tables in step. */
  method Listen(n: nat) returns (server: HpServer, ghost events: seq<Event>, ghost answers: seq<Answers>,
                                 ghost worlds: seq<World>)
    ensures fresh(server) && server.Valid()
    ensures T.TableInv(server.Abs()) && server.Announced([], 0)
    ensures |events| == n && History(events, answers, worlds)
    ensures worlds[0] == World(T.Tables(map[], {}, {}, {}, {}, []), [], [])
    ensures worlds[n] == server.Everything()
  {
    server := new HpServer();
    events, answers, worlds := [], [], [server.Everything()];
    for i := 0 to n
      invariant fresh(server) && fresh(server.repr)
      invariant server.Valid() && T.TableInv(server.Abs()) && Finals(server.doneQueue)
      invariant server.Announced([], 0)
      invariant |events| == i && History(events, answers, worlds)
      invariant worlds[0] == World(T.Tables(map[], {}, {}, {}, {}, []), [], [])
      invariant worlds[i] == server.Everything()
    {
      var e := NextEvent(server);
      ghost var x := server.Serve(e);
      events, answers, worlds := events + [e], answers + [x], worlds + [server.Everything()];
    }
  }
}
